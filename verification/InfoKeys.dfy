/** The namespace processor's info keys: each is routed to the handler it was built for, and names its namespace. */
module InfoKeys {
  import opened Text
  import opened SharedState
  import opened NamespaceProcessor

  /** No key is mistaken for another kind of key. */
  lemma RoutesApart(ns: string)
    ensures RouteOf(NamespaceKey(ns)) == ToNamespace
    ensures RouteOf(RosterKey(ns)) == ToRoster && '=' in RosterKey(ns)
    ensures RouteOf(INDEX_PRESSURE) == ToPressure
  {
    var key := RosterKey(ns);
    assert NamespaceKey(ns)[..9] == "namespace";
    assert key[0] == 'r' && key[..6] == "roster" && key[16] == '=';
    assert INDEX_PRESSURE[0] == 'i';
  }

  /** The namespace is read back from its key exactly when the name does not hold "namespace/". */
  lemma NameIsReadBack(ns: string)
    ensures NameOf(NamespaceKey(ns)) == RemoveAll(ns, "namespace/")
    ensures NameOf(NamespaceKey(ns)) == ns <==> !Contains(ns, "namespace/")
  {
    hide RemoveAll, Contains;
    RemoveAllLeading("namespace/", ns);
    RemoveAllFixes(ns, "namespace/");
  }

  /** A roster key gives back its namespace exactly when the name holds no '='. */
  lemma RosterNameIsReadBack(ns: string)
    ensures '=' in RosterKey(ns)
    ensures RosterName(RosterKey(ns)) == ns <==> '=' !in ns
  {
    RoutesApart(ns);
    RosterSplits(ns);
    IndexOfAbsent(ns, '=');
  }

  /** For instance, the roster of a namespace called a=b is labelled with namespace a. */
  lemma RosterNameIsCut()
    ensures RosterName(RosterKey("a=b")) == "a"
  {
    RoutesApart("a=b");
    RosterSplits("a=b");
    assert "a=b" == "a" + ['='] + "b";
    SplitAppend("a", '=', "b");
    hide Split, RosterKey;
  }

  lemma RosterSplits(ns: string)
    ensures Split(RosterKey(ns), '=') == ["roster:namespace"] + Split(ns, '=')
  {
    assert '=' !in "roster:namespace";
    assert "roster:namespace=" == "roster:namespace" + ['='];
    Regroup("roster:namespace", ['='], ns);
    SplitAppend("roster:namespace", '=', ns);
  }

  lemma KeysDiffer(a: string, b: string)
    ensures RosterKey(a) != NamespaceKey(b) && RosterKey(a) != INDEX_PRESSURE && NamespaceKey(b) != INDEX_PRESSURE
    ensures RosterKey(a) == RosterKey(b) <==> a == b
  {
    assert RosterKey(a)[0] == 'r' && NamespaceKey(b)[0] == 'n' && INDEX_PRESSURE[0] == 'i';
    assert RosterKey(a)[17..] == a && RosterKey(b)[17..] == b;
  }

  /** A roster is asked for exactly the listed namespaces that are known to be strongly consistent. */
  lemma {:induction false} RosterKeysOf(names: seq<string>, sc: map<string, bool>, ns: string)
    ensures RosterKey(ns) in NameKeys(names, sc) <==> ns in names && Consistent(sc, ns)
    ensures INDEX_PRESSURE !in NameKeys(names, sc)
  {
    hide RosterKey, NamespaceKey, Consistent;
    if names != [] {
      var front, last := names[..|names| - 1], names[|names| - 1];
      RosterKeysOf(front, sc, ns);
      KeysDiffer(ns, last);
      KeysDiffer(last, ns);
      assert names == front + [last];
      assert ns in names <==> ns in front || ns == last;
    }
  }

  /** Every key routed to the namespace handler stems from a listed namespace. */
  lemma {:induction false} NamespaceKeysOf(names: seq<string>, sc: map<string, bool>, key: string)
    requires key in NameKeys(names, sc)
    ensures (exists ns :: ns in names && key == NamespaceKey(ns)) || (exists ns :: ns in names && key == RosterKey(ns))
  {
    hide RosterKey, NamespaceKey, Consistent;
    var front, last := names[..|names| - 1], names[|names| - 1];
    if key in NameKeys(front, sc) {
      NamespaceKeysOf(front, sc, key);
    }
  }

  lemma {:induction false} NamespaceKeyListed(names: seq<string>, sc: map<string, bool>, ns: string)
    requires ns in names
    ensures NamespaceKey(ns) in NameKeys(names, sc)
  {
    hide RosterKey, NamespaceKey, Consistent;
    if ns != names[|names| - 1] {
      assert ns in names[..|names| - 1];
      NamespaceKeyListed(names[..|names| - 1], sc, ns);
    }
  }

  /** The handler finds the benchmark map of every key that is routed to it. */
  ghost predicate MapsFound(keys: seq<string>, maps: map<string, Benchmarks>)
  {
    forall key | key in keys && RouteOf(key) == ToNamespace :: NameOf(key) in maps
  }

  /** Every listed name, stripped of "namespace/", has a map or is itself listed. */
  predicate NamesCovered(names: seq<string>, benchmarks: map<string, Benchmarks>)
  {
    forall ns | ns in names :: RemoveAll(ns, "namespace/") in benchmarks || RemoveAll(ns, "namespace/") in names
  }

  /** Nested-map safety, exactly: the writes never hit a missing map if and only if the listed names are covered. */
  lemma MapsExist(benchmarks: map<string, Benchmarks>, names: seq<string>, sc: map<string, bool>, pressure: bool)
    ensures MapsFound(PassTwo(names, sc, pressure), WithMaps(benchmarks, names)) <==> NamesCovered(names, benchmarks)
  {
    if MapsFound(PassTwo(names, sc, pressure), WithMaps(benchmarks, names)) {
      FoundIsCovered(benchmarks, names, sc, pressure);
    }
    if NamesCovered(names, benchmarks) {
      CoveredIsFound(benchmarks, names, sc, pressure);
    }
  }

  /** For instance, the stats of a namespace called namespace/a, alone in the list, hit a missing map. */
  lemma NestedNameHasNoMap()
    ensures NameOf(NamespaceKey("namespace/a")) == "a"
    ensures NamespaceKey("namespace/a") in PassTwo(["namespace/a"], map[], false)
    ensures "a" !in WithMaps(map[], ["namespace/a"])
    ensures !MapsFound(PassTwo(["namespace/a"], map[], false), WithMaps(map[], ["namespace/a"]))
  {
    var ns := "namespace/a";
    assert ns == "namespace/" + "a" && ns[0] == 'n';
    NameIsReadBack(ns);
    RemoveAllLeading("namespace/", "a");
    assert RemoveAll("a", "namespace/") == "a";
    assert [ns] == [ns] && ns in [ns];
    NamespaceKeyListed([ns], map[], ns);
    MapsAt(map[], [ns], "a");
    RoutesApart(ns);
    hide RemoveAll, NameKeys, WithMaps, RouteOf, NameOf, NamespaceKey, RosterKey;
    assert NamespaceKey(ns) in PassTwo([ns], map[], false);
  }

  lemma FoundIsCovered(benchmarks: map<string, Benchmarks>, names: seq<string>, sc: map<string, bool>, pressure: bool)
    requires MapsFound(PassTwo(names, sc, pressure), WithMaps(benchmarks, names))
    ensures NamesCovered(names, benchmarks)
  {
    hide RemoveAll, NameKeys, WithMaps, RouteOf, NameOf, NamespaceKey, RosterKey;
    forall ns | ns in names
      ensures RemoveAll(ns, "namespace/") in benchmarks || RemoveAll(ns, "namespace/") in names
    {
      NamespaceKeyListed(names, sc, ns);
      RoutesApart(ns);
      NameIsReadBack(ns);
      assert NamespaceKey(ns) in PassTwo(names, sc, pressure);
      MapsAt(benchmarks, names, RemoveAll(ns, "namespace/"));
    }
  }

  lemma CoveredIsFound(benchmarks: map<string, Benchmarks>, names: seq<string>, sc: map<string, bool>, pressure: bool)
    requires NamesCovered(names, benchmarks)
    ensures MapsFound(PassTwo(names, sc, pressure), WithMaps(benchmarks, names))
  {
    hide RemoveAll, NameKeys, WithMaps, RouteOf, NameOf, NamespaceKey, RosterKey;
    forall key | key in PassTwo(names, sc, pressure) && RouteOf(key) == ToNamespace
      ensures NameOf(key) in WithMaps(benchmarks, names)
    {
      var ns := StemsFrom(names, sc, pressure, key);
      NameIsReadBack(ns);
      MapsAt(benchmarks, names, RemoveAll(ns, "namespace/"));
    }
  }

  /** The listed name behind a key that is routed to the namespace handler. */
  lemma StemsFrom(names: seq<string>, sc: map<string, bool>, pressure: bool, key: string) returns (ns: string)
    requires key in PassTwo(names, sc, pressure) && RouteOf(key) == ToNamespace
    ensures ns in names && key == NamespaceKey(ns)
  {
    hide NameKeys, RouteOf, NamespaceKey, RosterKey;
    RoutesApart("");
    NamespaceKeysOf(names, sc, key);
    if other :| other in names && key == RosterKey(other) {
      RoutesApart(other);
    }
    ns :| ns in names && key == NamespaceKey(ns);
  }

  /** In particular, names free of "namespace/" are always safe. */
  lemma CleanNamesAreSafe(benchmarks: map<string, Benchmarks>, names: seq<string>, sc: map<string, bool>,
                          pressure: bool, key: string)
    requires forall ns | ns in names :: !Contains(ns, "namespace/")
    requires key in PassTwo(names, sc, pressure) && RouteOf(key) == ToNamespace
    ensures NameOf(key) in names && key == NamespaceKey(NameOf(key)) && NameOf(key) in WithMaps(benchmarks, names)
  {
    hide RemoveAll, Contains, NameKeys, WithMaps, RouteOf, NameOf, NamespaceKey, RosterKey;
    var ns := StemsFrom(names, sc, pressure, key);
    NameIsReadBack(ns);
    MapsAt(benchmarks, names, ns);
  }
}
