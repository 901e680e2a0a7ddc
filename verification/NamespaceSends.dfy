/** What goes out for the replies to a namespace's keys, in terms of their texts alone. */
module NamespaceSends {
  import opened Text
  import opened Wrappers
  import opened Commons
  import opened AerospikeStat
  import opened Readings
  import opened Sending
  import opened InfoKeys
  import NS = NamespaceProcessor

  // ----- Stats -----

  /** The persistence type that a stat belongs to, if any. */
  function DeviceOf(stat: string): string
  {
    if "index-type" <= stat then "index-type"
    else if "sindex-type" <= stat then "sindex-type"
    else if "storage-engine" <= stat then "storage-engine"
    else ""
  }

  predicate IsArray(stat: string)
  {
    DeviceOf(stat) != "" && '[' in stat
  }

  /** The stats that go out: those that read as a number and have a name. */
  predicate GoesOut(env: Env, stats: map<string, string>, stat: string)
  {
    && stat in stats && Convertible(env.lib, stats[stat])
    && if IsArray(stat) then env.lib.matchArrayStat(DeviceOf(stat), stat).Some? else stat != ""
  }

  function Sender(env: Env, stats: map<string, string>): string -> bool
  {
    stat => GoesOut(env, stats, stat)
  }

  /** The label for the persistence type: the index type on index stats, the sindex type on sindex stats, and the
      storage engine on all others, as far as the reply gives them. */
  predicate TellsType(stats: map<string, string>, stat: string, labels: seq<string>, values: seq<string>)
  {
    if DeviceOf(stat) == "index-type" && Get(stats, "index-type") != "" then
      labels == ["index"] && values == [Get(stats, "index-type")]
    else if DeviceOf(stat) == "sindex-type" && Get(stats, "sindex-type") != "" then
      labels == ["sindex"] && values == [Get(stats, "sindex-type")]
    else if Get(stats, "storage-engine") != "" then
      labels == ["storage_engine"] && values == [Get(stats, "storage-engine")]
    else labels == [] && values == []
  }

  /** Name and labels of a stat: a plain stat is called what it is called. An array stat is called after its device,
      kind and metric, and labelled with its index, and with what the reply gives as the name of that element. */
  predicate TellsOf(env: Env, ids: Ids, ns: string, stats: map<string, string>, stat: string, name: string,
                    labels: seq<string>, values: seq<string>)
  {
    var n := if IsArray(stat) then 5 else 3;
    && |labels| == |values| >= n
    && labels[..3] == ["cluster_name", "service", "ns"] && values[..3] == [ids.clusterName, ids.service, ns]
    && TellsType(stats, stat, labels[n..], values[n..])
    && if !IsArray(stat) then name == stat
       else
         match env.lib.matchArrayStat(DeviceOf(stat), stat)
         case None => false
         case Some((kind, index, metric)) =>
           && name == DeviceOf(stat) + "_" + kind + "_" + metric
           && labels[3] == kind + "_index" && values[3] == index
           && labels[4] == kind && values[4] == Get(stats, DeviceOf(stat) + "." + kind + "[" + index + "]")
  }

  /** What is sent for a stat. */
  predicate Tells(env: Env, ids: Ids, ns: string, stats: map<string, string>, stat: string, s: Stat)
  {
    && stat in stats && Reads(env.lib, stats[stat], s.value) && Describes(env, Namespace, s.name, s)
    && TellsOf(env, ids, ns, stats, stat, s.name, s.labels, s.labelValues)
  }

  lemma PersistenceIs(stat: string)
    ensures NS.Persistence(stat) == (DeviceOf(stat), IsArray(stat))
  {
  }

  lemma TypeIs(stats: map<string, string>, stat: string)
    ensures TellsType(stats, stat, NS.TypeLabel(stats, stat).0, NS.TypeLabel(stats, stat).1)
  {
    PersistenceIs(stat);
    hide NS.Persistence;
  }

  lemma PlainDescribed(ids: Ids, ns: string, stats: map<string, string>, stat: string, more: seq<string>,
                       moreValues: seq<string>)
    ensures (NS.NS_LABELS + more)[..3] == ["cluster_name", "service", "ns"] && (NS.NS_LABELS + more)[3..] == more
    ensures ([ids.clusterName, ids.service, ns] + moreValues)[..3] == [ids.clusterName, ids.service, ns]
            && ([ids.clusterName, ids.service, ns] + moreValues)[3..] == moreValues
  {
  }

  lemma ArrayDescribed(ids: Ids, ns: string, kind: string, index: string, element: string, more: seq<string>,
                       moreValues: seq<string>)
    ensures var labels := NS.NS_LABELS + [kind + "_index", kind] + more;
            && |labels| == 5 + |more| && labels[..3] == ["cluster_name", "service", "ns"] && labels[5..] == more
            && labels[3] == kind + "_index" && labels[4] == kind
    ensures var values := [ids.clusterName, ids.service, ns, index, element] + moreValues;
            && |values| == 5 + |moreValues| && values[..3] == [ids.clusterName, ids.service, ns]
            && values[5..] == moreValues
            && values[3] == index && values[4] == element
  {
  }

  lemma TypeLengths(stats: map<string, string>, stat: string, labels: seq<string>, values: seq<string>)
    requires TellsType(stats, stat, labels, values)
    ensures |labels| == |values|
  {
  }

  lemma Described(env: Env, ids: Ids, ns: string, stats: map<string, string>, stat: string)
    requires IsArray(stat) ==> env.lib.matchArrayStat(DeviceOf(stat), stat).Some?
    ensures var (name, labels, values) := NS.Describe(env, ids, ns, stats, stat);
            var (more, moreValues) := NS.TypeLabel(stats, stat);
            TellsOf(env, ids, ns, stats, stat, name, labels + more, values + moreValues)
    ensures NS.Describe(env, ids, ns, stats, stat).0 == "" <==> !IsArray(stat) && stat == ""
  {
    PersistenceIs(stat);
    TypeIs(stats, stat);
    var (more, moreValues) := NS.TypeLabel(stats, stat);
    TypeLengths(stats, stat, more, moreValues);
    hide NS.Persistence, NS.TypeLabel, DeviceOf, TellsType, IsArray;
    if IsArray(stat) {
      var (kind, index, metric) := env.lib.matchArrayStat(DeviceOf(stat), stat).value;
      ArrayDescribed(ids, ns, kind, index, Get(stats, DeviceOf(stat) + "." + kind + "[" + index + "]"), more,
                     moreValues);
      assert DeviceOf(stat) + "_" + kind + "_" + metric != "";
    } else {
      PlainDescribed(ids, ns, stats, stat, more, moreValues);
    }
  }

  lemma BuiltDescribes(env: Env, context: Context, name: string, allowed: bool)
    ensures Describes(env, context, name, NewStat(env, context, name, allowed))
    ensures NewStat(env, context, name, allowed).isAllowed == allowed
  {
    hide GetMetricType;
  }

  /** The item of a stat tells what the reply says, and there is one exactly if the stat goes out. */
  lemma ItemTells(env: Env, ids: Ids, ns: string, stats: map<string, string>, stat: string)
    requires stat in stats
    ensures var items := NS.StatItem(env, ids, ns, stats, stat);
            if GoesOut(env, stats, stat) then
              && |items| == 1 && Reads(env.lib, stats[stat], items[0].value)
              && Describes(env, Namespace, items[0].key, items[0].built)
              && (items[0].built.isAllowed <==> IsMetricAllowed(env, Namespace, stat))
              && TellsOf(env, ids, ns, stats, stat, items[0].key, items[0].labels, items[0].labelValues)
            else items == []
  {
    ConvertsExactly(env, stats[stat]);
    PersistenceIs(stat);
    if IsArray(stat) && env.lib.matchArrayStat(DeviceOf(stat), stat).None? {
      assert NS.Describe(env, ids, ns, stats, stat).0 == "";
    } else {
      Described(env, ids, ns, stats, stat);
      BuiltDescribes(env, Namespace, NS.Describe(env, ids, ns, stats, stat).0, IsMetricAllowed(env, Namespace, stat));
    }
    hide NS.Describe, NS.TypeLabel, TellsOf, Reads, Convertible, TryConvert, IsArray, Describes, NewStat;
    hide IsMetricAllowed;
  }

  /** The items of a reply: one for each stat that goes out, in the order walked. */
  lemma {:induction false} ItemsTell(env: Env, ids: Ids, ns: string, stats: map<string, string>, order: seq<string>)
    requires forall stat | stat in order :: stat in stats
    ensures var items, senders := NS.StatItems(env, ids, ns, stats, order), Picked(order, Sender(env, stats));
            && |items| == |senders| && NamedItems(env, Namespace, items)
            && forall n | 0 <= n < |items| ::
                 && senders[n] in stats && Reads(env.lib, stats[senders[n]], items[n].value)
                 && TellsOf(env, ids, ns, stats, senders[n], items[n].key, items[n].labels, items[n].labelValues)
  {
    hide GoesOut, TellsOf, Reads, Describes, NS.StatItem;
    if order != [] {
      var front, last := order[..|order| - 1], order[|order| - 1];
      assert order == front + [last];
      assert last in order;
      ItemsTell(env, ids, ns, stats, front);
      ItemTells(env, ids, ns, stats, last);
      PickedSnoc(front, last, Sender(env, stats));
      assert Sender(env, stats)(last) == GoesOut(env, stats, last);
    }
  }

  /** The reply to a namespace's stats: what goes out is one stat for each convertible stat that has a name, with the
      number that its text reads as, in whatever order Go walks the reply and whatever is cached. */
  lemma ReplyGoesOut(env: Env, ids: Ids, ns: string, stats: map<string, string>, order: seq<string>, cache: Cache)
    requires IsOrder(order, stats) && NamedCache(env, Namespace, cache)
    ensures var out := Emitted(cache, NS.StatItems(env, ids, ns, stats, order));
            var senders := Picked(order, Sender(env, stats));
            && |out| == |senders|
            && (forall n | 0 <= n < |out| :: Tells(env, ids, ns, stats, senders[n], out[n]))
            && (forall stat :: stat in senders <==> GoesOut(env, stats, stat))
            && (forall i, j | 0 <= i < j < |senders| :: senders[i] != senders[j])
  {
    var items, senders := NS.StatItems(env, ids, ns, stats, order), Picked(order, Sender(env, stats));
    ItemsTell(env, ids, ns, stats, order);
    PickedExactly(order, Sender(env, stats));
    assert forall stat :: Sender(env, stats)(stat) == GoesOut(env, stats, stat);
    assert forall stat :: GoesOut(env, stats, stat) ==> stat in order;
    var out := Emitted(cache, items);
    forall n | 0 <= n < |out|
      ensures Tells(env, ids, ns, stats, senders[n], out[n])
    {
      SentAsIs(cache, items, n);
      SentUnderKey(env, Namespace, cache, items, n);
    }
    hide GoesOut, TellsOf, Reads, Picked, Emitted, NS.StatItems, NamedItems, NamedCache;
  }

  /** A reply of one plain stat sends its number under its name, and under the three labels. */
  lemma PlainStatIsSent(env: Env, ids: Ids, ns: string, stat: string, text: string, cache: Cache)
    requires '=' !in stat && ';' !in stat && ';' !in text && stat != "" && DeviceOf(stat) == ""
    requires Convertible(env.lib, text) && NamedCache(env, Namespace, cache)
    ensures IsOrder([stat], StatsOf(stat + "=" + text, ';'))
    ensures var out := Emitted(cache, NS.StatItems(env, ids, ns, StatsOf(stat + "=" + text, ';'), [stat]));
            && |out| == 1 && out[0].name == stat && Reads(env.lib, text, out[0].value)
            && out[0].labels == ["cluster_name", "service", "ns"]
            && out[0].labelValues == [ids.clusterName, ids.service, ns]
  {
    var stats := map[stat := text];
    OneSender(env, stats, stat);
    NoEngine(stats, stat);
    hide *;
    StatsOne(';', stat, text);
    ReplyGoesOut(env, ids, ns, stats, [stat], cache);
    var out := Emitted(cache, NS.StatItems(env, ids, ns, stats, [stat]));
    PlainTells(env, ids, ns, stats, stat, out[0]);
  }

  lemma OneSender(env: Env, stats: map<string, string>, stat: string)
    requires stats.Keys == {stat} && stat != "" && DeviceOf(stat) == "" && Convertible(env.lib, stats[stat])
    ensures IsOrder([stat], stats) && Picked([stat], Sender(env, stats)) == [stat] && !IsArray(stat)
  {
    hide Convertible, DeviceOf;
    assert [stat][1..] == [];
    assert Sender(env, stats)(stat);
  }

  lemma NoEngine(stats: map<string, string>, stat: string)
    requires stats.Keys == {stat} && DeviceOf(stat) == ""
    ensures Get(stats, "storage-engine") == ""
  {
    assert "storage-engine" in stats ==> stat == "storage-engine";
    assert DeviceOf("storage-engine") == "storage-engine" by {
      assert "storage-engine"[0] == 's' && "storage-engine"[1] == 't';
    }
  }

  /** For instance, "objects=5" sends 5 under the name objects. */
  lemma ObjectsAreSent(env: Env, ids: Ids, ns: string, cache: Cache)
    requires NamedCache(env, Namespace, cache) && env.lib.parseFloat("5") == Some(5.0)
    ensures IsOrder(["objects"], StatsOf("objects" + "=" + "5", ';'))
    ensures var out := Emitted(cache, NS.StatItems(env, ids, ns, StatsOf("objects" + "=" + "5", ';'), ["objects"]));
            && |out| == 1 && out[0].name == "objects" && out[0].value == 5.0
            && out[0].labels == ["cluster_name", "service", "ns"]
            && out[0].labelValues == [ids.clusterName, ids.service, ns]
  {
    assert '=' !in "objects" && ';' !in "objects" && ';' !in "5";
    assert "objects"[0] == 'o' && DeviceOf("objects") == "";
    hide DeviceOf, NamedCache, StatsOf, NS.StatItems, Emitted, IsOrder;
    PlainStatIsSent(env, ids, ns, "objects", "5", cache);
  }

  lemma PlainTells(env: Env, ids: Ids, ns: string, stats: map<string, string>, stat: string, s: Stat)
    requires Tells(env, ids, ns, stats, stat, s) && !IsArray(stat) && DeviceOf(stat) == ""
             && Get(stats, "storage-engine") == ""
    ensures s.name == stat && s.labels == ["cluster_name", "service", "ns"]
            && s.labelValues == [ids.clusterName, ids.service, ns] && Reads(env.lib, stats[stat], s.value)
  {
    hide Reads, Describes;
    assert s.labels == s.labels[..3] + s.labels[3..] && s.labelValues == s.labelValues[..3] + s.labelValues[3..];
  }

  // ----- Index pressure -----

  /** The stat for a value of an index-pressure piece: total memory is the first value behind the namespace, memory in
      dirty pages the second. */
  predicate TellsPressure(env: Env, ids: Ids, values: seq<string>, i: nat, s: Stat)
  {
    && 1 <= i <= 2 && i < |values| && Reads(env.lib, values[i], s.value)
    && s.name == (if i == 1 then "index_pressure_total_memory" else "index_pressure_dirty_memory")
    && s.context == Namespace && s.labels == ["cluster_name", "service", "ns"]
    && s.labelValues == [ids.clusterName, ids.service, values[0]]
  }

  predicate HasValue(env: Env, values: seq<string>, i: nat)
  {
    i < |values| && Convertible(env.lib, values[i])
  }

  lemma PressureItemTells(env: Env, ids: Ids, values: seq<string>, i: nat)
    requires 1 <= i < |values| && NS.PieceSafe(env, values)
    ensures var items := NS.PressureItem(env, ids, values, i);
            if HasValue(env, values, i) then
              && i <= 2 && |items| == 1 && NamedItems(env, Namespace, items)
              && Reads(env.lib, values[i], items[0].value)
              && items[0].key == (if i == 1 then "index_pressure_total_memory" else "index_pressure_dirty_memory")
              && items[0].labels == ["cluster_name", "service", "ns"]
              && items[0].labelValues == [ids.clusterName, ids.service, values[0]]
            else items == []
  {
    ConvertsExactly(env, values[i]);
    if i <= 2 {
      var name := NS.PRESSURE_NAMES[i];
      BuiltDescribes(env, Namespace, name, IsMetricAllowed(env, Namespace, name));
    }
    hide Reads, Convertible, TryConvert, Describes, NewStat, IsMetricAllowed;
  }

  lemma {:induction false} NothingBehind(env: Env, ids: Ids, values: seq<string>, n: nat)
    requires 3 <= n <= |values| && NS.PieceSafe(env, values)
    ensures NS.PieceItems(env, ids, values, n) == NS.PieceItems(env, ids, values, 3)
  {
    if n > 3 {
      NothingBehind(env, ids, values, n - 1);
      assert NS.PressureItem(env, ids, values, n - 1) == [];
    }
    hide NewStat, IsMetricAllowed;
  }

  lemma PieceIs(env: Env, ids: Ids, values: seq<string>)
    requires |values| >= 1 && NS.PieceSafe(env, values)
    ensures NS.PieceItems(env, ids, values, |values|)
         == (if |values| > 1 then NS.PressureItem(env, ids, values, 1) else [])
            + (if |values| > 2 then NS.PressureItem(env, ids, values, 2) else [])
  {
    if |values| > 3 {
      NothingBehind(env, ids, values, |values|);
    }
    hide NS.PressureItem;
    assert NS.PieceItems(env, ids, values, 1) == [];
    if |values| > 1 {
      assert NS.PieceItems(env, ids, values, 2) == NS.PieceItems(env, ids, values, 1)
        + NS.PressureItem(env, ids, values, 1);
    }
    if |values| > 2 {
      assert NS.PieceItems(env, ids, values, 3) == NS.PieceItems(env, ids, values, 2)
        + NS.PressureItem(env, ids, values, 2);
    }
  }

  /** A piece "ns:total:dirty" of an index-pressure reply: each of the two values that reads as a number is sent under
      its own name and the namespace of the piece, and nothing else is. */
  lemma PressureGoesOut(env: Env, ids: Ids, values: seq<string>, cache: Cache)
    requires |values| >= 1 && NS.PieceSafe(env, values) && NamedCache(env, Namespace, cache)
    ensures var out := Emitted(cache, NS.PieceItems(env, ids, values, |values|));
            var total, dirty := HasValue(env, values, 1), HasValue(env, values, 2);
            && |out| == (if total then 1 else 0) + (if dirty then 1 else 0)
            && (total ==> TellsPressure(env, ids, values, 1, out[0]))
            && (dirty ==> TellsPressure(env, ids, values, 2, out[|out| - 1]))
  {
    var items := NS.PieceItems(env, ids, values, |values|);
    PieceIs(env, ids, values);
    if |values| > 1 {
      PressureItemTells(env, ids, values, 1);
    }
    if |values| > 2 {
      PressureItemTells(env, ids, values, 2);
    }
    hide NS.PressureItem, NS.PieceItems, NS.PieceSafe, Reads, Convertible, NamedCache;
    assert NamedItems(env, Namespace, items);
    forall n | 0 <= n < |items|
      ensures var s := Emitted(cache, items)[n];
              && s.value == items[n].value && s.labels == items[n].labels && s.labelValues == items[n].labelValues
              && s.name == items[n].key && s.context == Namespace
    {
      SentAsIs(cache, items, n);
      SentUnderKey(env, Namespace, cache, items, n);
    }
    hide Emitted, NamedItems, Describes;
  }

  // ----- Rosters -----

  function Commas(text: string): nat
  {
    if text == "" then 0 else (if text[0] == ',' then 1 else 0) + Commas(text[1..])
  }

  lemma {:induction false} NoCommas(text: string)
    requires ',' !in text
    ensures Commas(text) == 0
  {
    if text != "" {
      assert forall i | 0 <= i < |text[1..]| :: text[1..][i] == text[i + 1];
      NoCommas(text[1..]);
    }
  }

  lemma {:induction false} CommasAcross(a: string, b: string)
    ensures Commas(a + b) == Commas(a) + Commas(b)
  {
    if a == "" {
      assert a + b == b;
    } else {
      CommasAcross(a[1..], b);
      assert (a + b)[1..] == a[1..] + b;
    }
  }

  lemma {:induction false} PiecesByCommas(text: string)
    ensures |Split(text, ',')| == Commas(text) + 1
    decreases |text|
  {
    var i := IndexOf(text, ',');
    IndexOfAbsent(text, ',');
    if i == |text| {
      NoCommas(text);
    } else {
      var a, b := text[..i], text[i + 1..];
      assert text == a + ([','] + b);
      PiecesByCommas(b);
      NoCommas(a);
      CommasAcross(a, [','] + b);
      assert ([','] + b)[1..] == b;
    }
  }

  /** The size of a list of nodes: none if it is empty or "null", else one more than it has commas. */
  function NodesListed(text: string): nat
  {
    if text == "" || text == "null" then 0 else Commas(text) + 1
  }

  lemma RosterItemTells(env: Env, ids: Ids, ns: string, stats: map<string, string>, stat: string)
    requires stat in stats
    ensures var item := NS.RosterItem(env, ids, ns, stats, stat);
            && item.key == "pseudo_" + stat + "_size" && item.value == NodesListed(stats[stat]) as real
            && Describes(env, Namespace, item.key, item.built)
            && item.labels == ["cluster_name", "service", "ns"]
            && item.labelValues == [ids.clusterName, ids.service, ns]
  {
    PiecesByCommas(stats[stat]);
    var name := "pseudo_" + stat + "_size";
    BuiltDescribes(env, Namespace, name, IsMetricAllowed(env, Namespace, name));
    hide Describes, NewStat, IsMetricAllowed, Split;
  }

  lemma {:induction false} RosterItemsTell(env: Env, ids: Ids, ns: string, stats: map<string, string>,
                                           order: seq<string>)
    requires forall stat | stat in order :: stat in stats
    ensures var items := NS.RosterItems(env, ids, ns, stats, order);
            |items| == |order| && NamedItems(env, Namespace, items)
            && forall n | 0 <= n < |items| :: items[n] == NS.RosterItem(env, ids, ns, stats, order[n])
  {
    hide NS.RosterItem, Describes;
    if order != [] {
      var front, last := order[..|order| - 1], order[|order| - 1];
      assert last in order;
      RosterItemsTell(env, ids, ns, stats, front);
      RosterItemTells(env, ids, ns, stats, last);
    }
  }

  /** The reply to a roster key: for each of its lists the number of nodes in it, under the namespace. */
  lemma RosterGoesOut(env: Env, ids: Ids, ns: string, stats: map<string, string>, order: seq<string>, cache: Cache)
    requires IsOrder(order, stats) && NamedCache(env, Namespace, cache)
    ensures var out := Emitted(cache, NS.RosterItems(env, ids, ns, stats, order));
            && |out| == |order|
            && forall n | 0 <= n < |out| ::
                 && out[n].name == "pseudo_" + order[n] + "_size" && out[n].context == Namespace
                 && out[n].value == NodesListed(stats[order[n]]) as real
                 && out[n].labels == ["cluster_name", "service", "ns"]
                 && out[n].labelValues == [ids.clusterName, ids.service, ns]
  {
    var items := NS.RosterItems(env, ids, ns, stats, order);
    RosterItemsTell(env, ids, ns, stats, order);
    var out := Emitted(cache, items);
    forall n | 0 <= n < |out|
      ensures && out[n].name == "pseudo_" + order[n] + "_size" && out[n].context == Namespace
              && out[n].value == NodesListed(stats[order[n]]) as real
              && out[n].labels == ["cluster_name", "service", "ns"]
              && out[n].labelValues == [ids.clusterName, ids.service, ns]
    {
      assert order[n] in stats;
      SentAsIs(cache, items, n);
      SentUnderKey(env, Namespace, cache, items, n);
      RosterItemTells(env, ids, ns, stats, order[n]);
    }
  }

  // ----- Flash -----

  /** A reply shows flash exactly if it has a convertible stat of an index type, or of a secondary-index type, and says
      that this type is one that holds "flash". */
  lemma FlashExactly(env: Env, stats: map<string, string>)
    ensures NS.ReplyShowsFlash(env, stats) <==>
              exists stat | stat in stats ::
                && Convertible(env.lib, stats[stat])
                && (("index-type" <= stat && Contains(Get(stats, "index-type"), "flash"))
                    || ("sindex-type" <= stat && Contains(Get(stats, "sindex-type"), "flash")))
  {
    hide Contains, Convertible, TryConvert;
    forall stat | stat in stats
      ensures NS.ShowsFlash(env, stats, stat) <==>
                && Convertible(env.lib, stats[stat])
                && (("index-type" <= stat && Contains(Get(stats, "index-type"), "flash"))
                    || ("sindex-type" <= stat && Contains(Get(stats, "sindex-type"), "flash")))
    {
      ConvertsExactly(env, stats[stat]);
      assert !("index-type" <= stat && "sindex-type" <= stat) by {
        if "index-type" <= stat {
          assert stat[0] == 'i' && "sindex-type"[0] == 's';
        }
      }
    }
  }

  // ----- All keys of a refresh -----

  /** Which reply each kind of key brings, and under which name. */
  lemma KeysBring(env: Env, ids: Ids, raw: map<string, string>, ns: string, order: seq<string>)
    ensures (forall stat | stat in order :: stat in StatsOf(Get(raw, "namespace/" + ns), ';')) ==>
              && NS.ItemSafe(env, raw, "namespace/" + ns)
              && NS.ReplyOf(raw, "namespace/" + ns) == StatsOf(Get(raw, "namespace/" + ns), ';')
              && NS.KeyItems(env, ids, raw, "namespace/" + ns, order)
                 == NS.StatItems(env, ids, RemoveAll(ns, "namespace/"), StatsOf(Get(raw, "namespace/" + ns), ';'),
                                 order)
    ensures (forall stat | stat in order :: stat in StatsOf(Get(raw, "roster:namespace=" + ns), ':')) ==>
              && NS.ItemSafe(env, raw, "roster:namespace=" + ns)
              && NS.ReplyOf(raw, "roster:namespace=" + ns) == StatsOf(Get(raw, "roster:namespace=" + ns), ':')
              && (Get(raw, "roster:namespace=" + ns) != "" ==>
                    NS.KeyItems(env, ids, raw, "roster:namespace=" + ns, order)
                    == NS.RosterItems(env, ids, Split(ns, '=')[0],
                                      StatsOf(Get(raw, "roster:namespace=" + ns), ':'), order))
    ensures NS.PressureSafe(env, Get(raw, "index-pressure")) && (forall stat | stat in order ::
              stat in NS.ReplyOf(raw, "index-pressure")) ==>
              && NS.ItemSafe(env, raw, "index-pressure")
              && NS.KeyItems(env, ids, raw, "index-pressure", order)
                 == NS.PressureItems(env, ids, Split(Get(raw, "index-pressure"), ';'))
  {
    assert NS.NamespaceKey(ns) == "namespace/" + ns && NS.RosterKey(ns) == "roster:namespace=" + ns;
    assert NS.INDEX_PRESSURE == "index-pressure";
    RoutesApart(ns);
    NameIsReadBack(ns);
    RosterSplits(ns);
    hide StatsOf, Split, NS.RouteOf, NS.NameOf, NS.StatItems, NS.RosterItems, NS.PressureItems, NS.PressureSafe;
    hide NS.NamespaceKey, NS.RosterKey, RemoveAll;
  }

  ghost function KeyParts(env: Env, ids: Ids, raw: map<string, string>, keys: seq<string>,
                          orders: seq<seq<string>>): (parts: seq<seq<Item>>)
    requires NS.KeysReady(env, raw, keys, orders)
    ensures |parts| == |keys|
  {
    seq(|keys|, n requires 0 <= n < |keys| => NS.KeyItems(env, ids, raw, keys[n], orders[n]))
  }

  /** A refresh sends what each key brings, one after the other, and nothing else. */
  lemma {:induction false} RefreshIsFlat(env: Env, ids: Ids, raw: map<string, string>, keys: seq<string>,
                                         orders: seq<seq<string>>)
    requires NS.KeysReady(env, raw, keys, orders)
    ensures NS.Items(env, ids, raw, keys, orders) == Flat(KeyParts(env, ids, raw, keys, orders))
  {
    hide NS.KeyItems, NS.ItemSafe, NS.ReplyOf;
    if keys != [] {
      var n := |keys| - 1;
      assert NS.ItemSafe(env, raw, keys[n]) && IsOrder(orders[n], NS.ReplyOf(raw, keys[n]));
      RefreshIsFlat(env, ids, raw, keys[..n], orders[..n]);
      var parts, part := KeyParts(env, ids, raw, keys[..n], orders[..n]),
        NS.KeyItems(env, ids, raw, keys[n], orders[n]);
      assert KeyParts(env, ids, raw, keys, orders) == parts + [part];
      FlatSnoc(parts, part);
    }
  }

  ghost function PieceParts(env: Env, ids: Ids, pieces: seq<string>): (parts: seq<seq<Item>>)
    requires forall piece | piece in pieces :: NS.PieceSafe(env, Split(piece, ':'))
  {
    seq(|pieces|, n requires 0 <= n < |pieces| =>
      assert pieces[n] in pieces; NS.PieceItems(env, ids, Split(pieces[n], ':'), |Split(pieces[n], ':')|))
  }

  /** An index-pressure reply sends what its pieces give, one after the other, and nothing else. */
  lemma {:induction false} PressureIsFlat(env: Env, ids: Ids, pieces: seq<string>)
    requires forall piece | piece in pieces :: NS.PieceSafe(env, Split(piece, ':'))
    ensures NS.PressureItems(env, ids, pieces) == Flat(PieceParts(env, ids, pieces))
  {
    hide NS.PieceItems, NS.PieceSafe;
    if pieces != [] {
      var n := |pieces| - 1;
      assert pieces[n] in pieces;
      PressureIsFlat(env, ids, pieces[..n]);
      var parts := PieceParts(env, ids, pieces[..n]);
      var values := Split(pieces[n], ':');
      hide Split;
      var part := NS.PieceItems(env, ids, values, |values|);
      assert PieceParts(env, ids, pieces) == parts + [part];
      FlatSnoc(parts, part);
    }
  }
}
