/** Which latency histograms a reply switches on and off. */
module HistogramSwitches {
  import opened Text
  import opened Wrappers
  import opened Commons
  import opened AerospikeStat
  import opened SharedState

  predicate IsHistogramStat(stat: string)
  {
    !Contains(stat, "enable-benchmarks-storage")
      && (Contains(stat, "enable-benchmarks-") || Contains(stat, "enable-hist-"))
  }

  /** The name of the histogram that a stat switches on. */
  function HistogramName(text: string): string
  {
    RemoveAll(RemoveAll(text, "enable-"), "hist-")
  }

  /** Whose histograms a reply switches: those of a namespace, or those of the service. */
  datatype Scope = OfNamespace(ns: string) | OfService

  /** The latency command of a histogram. For a namespace it is cut out of the whole text, name included. */
  function Command(scope: Scope, stat: string): string
  {
    match scope
    case OfNamespace(ns) => HistogramName("{" + ns + "}-" + stat)
    case OfService => HistogramName(stat)
  }

  predicate Switches(env: Env, stats: map<string, string>, stat: string)
  {
    stat in stats && IsHistogramStat(stat) && TryConvert(env, stats[stat]).Some?
  }

  predicate SwitchesOn(env: Env, stats: map<string, string>, stat: string)
  {
    Switches(env, stats, stat) && TryConvert(env, stats[stat]) == Some(1.0)
  }

  /** One stat of a reply updates the benchmarks in its scope. */
  function Switch(env: Env, scope: Scope, stats: map<string, string>, stat: string, benchmarks: Benchmarks): Benchmarks
  {
    if !Switches(env, stats, stat) then benchmarks
    else if SwitchesOn(env, stats, stat) then benchmarks[stat := Command(scope, stat)]
    else benchmarks - {stat}
  }

  function SwitchLoop(env: Env, scope: Scope, stats: map<string, string>, order: seq<string>,
                      benchmarks: Benchmarks): Benchmarks
  {
    if order == [] then benchmarks
    else Switch(env, scope, stats, order[|order| - 1], SwitchLoop(env, scope, stats, order[..|order| - 1], benchmarks))
  }

  /** The benchmarks after a whole reply, with no order in sight. */
  function SwitchAll(env: Env, scope: Scope, stats: map<string, string>, benchmarks: Benchmarks): Benchmarks
  {
    map stat | stat in benchmarks.Keys + stats.Keys
      && (SwitchesOn(env, stats, stat) || (stat in benchmarks && !Switches(env, stats, stat))) ::
      if SwitchesOn(env, stats, stat) then Command(scope, stat) else benchmarks[stat]
  }

  lemma {:induction false} SwitchLoopAt(env: Env, scope: Scope, stats: map<string, string>, order: seq<string>,
                                        benchmarks: Benchmarks, stat: string)
    ensures var after := SwitchLoop(env, scope, stats, order, benchmarks);
            if stat in order && Switches(env, stats, stat) then
              (stat in after <==> SwitchesOn(env, stats, stat))
                && (stat in after ==> after[stat] == Command(scope, stat))
            else
              (stat in after <==> stat in benchmarks) && (stat in after ==> after[stat] == benchmarks[stat])
  {
    hide Switches, SwitchesOn, Command;
    if order != [] {
      SwitchLoopAt(env, scope, stats, order[..|order| - 1], benchmarks, stat);
      assert stat in order <==> stat in order[..|order| - 1] || stat == order[|order| - 1];
      SwitchKinds(env, stats, stat);
    }
  }

  lemma SwitchKinds(env: Env, stats: map<string, string>, stat: string)
    ensures SwitchesOn(env, stats, stat) ==> Switches(env, stats, stat)
    ensures Switches(env, stats, stat) ==> stat in stats
  {
  }

  /** Whatever order Go walks the reply in, the benchmarks come out the same. */
  lemma SwitchLoopIgnoresOrder(env: Env, scope: Scope, stats: map<string, string>, order: seq<string>,
                               benchmarks: Benchmarks)
    requires IsOrder(order, stats)
    ensures SwitchLoop(env, scope, stats, order, benchmarks) == SwitchAll(env, scope, stats, benchmarks)
  {
    hide Switches, SwitchesOn, Command, SwitchLoop;
    var a, b := SwitchLoop(env, scope, stats, order, benchmarks), SwitchAll(env, scope, stats, benchmarks);
    forall stat
      ensures (stat in a <==> stat in b) && (stat in a ==> a[stat] == b[stat])
    {
      SwitchLoopAt(env, scope, stats, order, benchmarks, stat);
      SwitchKinds(env, stats, stat);
    }
  }

  lemma SwitchLoopSnoc(env: Env, scope: Scope, stats: map<string, string>, order: seq<string>, stat: string,
                       benchmarks: Benchmarks)
    ensures SwitchLoop(env, scope, stats, order + [stat], benchmarks)
         == Switch(env, scope, stats, stat, SwitchLoop(env, scope, stats, order, benchmarks))
  {
    assert (order + [stat])[..|order|] == order;
  }

  /** Cutting a pattern out of "{ns}..." treats the name and what follows it apart. */
  lemma CommandParts(ns: string, tail: string, pat: string)
    requires pat != "" && '{' !in pat && '}' !in pat
    ensures RemoveAll("{" + ns + "}" + tail, pat) == "{" + RemoveAll(ns, pat) + "}" + RemoveAll(tail, pat)
  {
    assert RemoveAll("", pat) == "";
    hide RemoveAll;
    RemoveAllAcross("", '{', ns + ['}'] + tail, pat);
    RemoveAllAcross(ns, '}', tail, pat);
    Braces(ns, tail);
    Braces(RemoveAll(ns, pat), RemoveAll(tail, pat));
  }

  lemma Braces(a: string, b: string)
    ensures "{" + a + "}" + b == "" + ['{'] + (a + ['}'] + b)
  {
  }

  lemma NoPatternHasABrace()
    ensures "enable-" != "" && '{' !in "enable-" && '}' !in "enable-"
    ensures "hist-" != "" && '{' !in "hist-" && '}' !in "hist-"
  {
  }

  /** A brace cuts a text into parts that are treated apart. */
  lemma NameParts(a: string, b: string)
    ensures HistogramName(a + ['}'] + b) == HistogramName(a) + ['}'] + HistogramName(b)
  {
    NoPatternHasABrace();
    hide RemoveAll;
    RemoveAllAcross(a, '}', b, "enable-");
    RemoveAllAcross(RemoveAll(a, "enable-"), '}', RemoveAll(b, "enable-"), "hist-");
  }

  lemma NameShrinks(s: string)
    ensures |HistogramName(s)| <= |s|
    ensures HistogramName(s) == s <==> !Contains(s, "enable-") && !Contains(s, "hist-")
  {
    hide RemoveAll, Contains;
    var once := RemoveAll(s, "enable-");
    RemoveAllFixes(s, "enable-");
    RemoveAllFixes(once, "hist-");
    RemoveAllShrinks(s, "enable-");
    RemoveAllShrinks(once, "hist-");
  }

  /** No name goes on with a brace behind what is left of it: that part would have to be such a name as well. */
  lemma {:induction false} NameDoesNotGoOn(s: string, x: string)
    ensures s != HistogramName(s) + ['}'] + x
    decreases |s|
  {
    hide HistogramName;
    var c := HistogramName(s);
    if s == c + ['}'] + x {
      NameParts(c, x);
      NameDoesNotGoOn(c, HistogramName(x));
    }
  }

  /** The command for a namespace's histogram names that very namespace exactly when the name holds
      neither "enable-" nor "hist-". */
  lemma CommandNamesNamespace(ns: string, stat: string)
    ensures (exists rest :: Command(OfNamespace(ns), stat) == "{" + ns + "}" + rest)
       <==> !Contains(ns, "enable-") && !Contains(ns, "hist-")
  {
    var cut, end := HistogramName(ns), HistogramName("-" + stat);
    CommandIs(ns, stat);
    NameShrinks(ns);
    hide Contains, HistogramName, Command;
    if rest :| "{" + cut + "}" + end == "{" + ns + "}" + rest {
      LongerName(cut, end, ns, rest);
    }
    assert cut == ns ==> Command(OfNamespace(ns), stat) == "{" + ns + "}" + end;
  }

  lemma CommandIs(ns: string, stat: string)
    ensures Command(OfNamespace(ns), stat) == "{" + HistogramName(ns) + "}" + HistogramName("-" + stat)
  {
    NoPatternHasABrace();
    hide RemoveAll;
    assert "{" + ns + "}-" + stat == "{" + ns + "}" + ("-" + stat);
    CommandParts(ns, "-" + stat, "enable-");
    CommandParts(RemoveAll(ns, "enable-"), RemoveAll("-" + stat, "enable-"), "hist-");
  }

  /** Where what is left of a name begins like the name itself, nothing was cut. */
  lemma LongerName(cut: string, end: string, ns: string, rest: string)
    requires cut == HistogramName(ns) && |cut| <= |ns| && "{" + cut + "}" + end == "{" + ns + "}" + rest
    ensures cut == ns
  {
    var t, u := "{" + cut + "}" + end, "{" + ns + "}" + rest;
    assert t[1..] == cut + ['}'] + end && u[1..] == ns + ['}'] + rest;
    assert ns == u[1..][..|ns|] && cut == t[1..][..|cut|];
    if |cut| < |ns| {
      assert ns[|cut|] == '}';
      assert ns == cut + ['}'] + ns[|cut| + 1..];
      NameDoesNotGoOn(ns, ns[|cut| + 1..]);
    }
  }

  /** For instance, the histograms of a namespace called enable-a are asked for as those of a. */
  lemma OtherNamespaceIsAsked(stat: string)
    ensures Command(OfNamespace("enable-a"), stat) == "{a}" + HistogramName("-" + stat)
  {
    NoPatternHasABrace();
    assert "enable-a" == "enable-" + "a";
    RemoveAllLeading("enable-", "a");
    assert RemoveAll("a", "enable-") == "a" && RemoveAll("a", "hist-") == "a";
    CommandIs("enable-a", stat);
    assert "{" + "a" + "}" == "{a}";
    hide RemoveAll, Command;
  }
}
