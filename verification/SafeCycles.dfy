/** Exactly when a cycle panics: on the replies of one cycle, and over whole runs. */
module SafeCycles {
  import opened Text
  import opened Commons
  import opened AerospikeStat
  import opened SharedState
  import opened NamespaceProcessor
  import opened InfoKeys
  import opened HistogramSwitches
  import opened Readings
  import opened StatsRefresher
  import opened Runs
  import Node = NodeProcessor
  import Lat = LatencyProcessor
  import LegacyPanics

  // ----- One cycle -----

  lemma KeyIsSafe(env: Env, benchmarks: map<string, Benchmarks>, raw: map<string, string>, ns: string)
    ensures KeySafe(env, benchmarks, raw, NamespaceKey(ns)) <==> NameOf(NamespaceKey(ns)) in benchmarks
    ensures KeySafe(env, benchmarks, raw, RosterKey(ns))
    ensures KeySafe(env, benchmarks, raw, INDEX_PRESSURE) <==> PressureSafe(env, Get(raw, INDEX_PRESSURE))
  {
    hide PressureSafe, RouteOf, NameOf, NamespaceKey, RosterKey;
    RoutesApart(ns);
  }

  lemma PressureIsAsked(names: seq<string>, sc: map<string, bool>, pressure: bool)
    ensures INDEX_PRESSURE in PassTwo(names, sc, pressure) <==> pressure
  {
    hide NameKeys;
    RosterKeysOf(names, sc, "");
  }

  lemma KeysAreSafe(env: Env, maps: map<string, Benchmarks>, raw: map<string, string>, names: seq<string>,
                    sc: map<string, bool>, pressure: bool)
    ensures (forall key | key in PassTwo(names, sc, pressure) :: KeySafe(env, maps, raw, key))
       <==> MapsFound(PassTwo(names, sc, pressure), maps)
            && (pressure ==> PressureSafe(env, Get(raw, INDEX_PRESSURE)))
  {
    hide PressureSafe, RouteOf, NameOf, NamespaceKey, RosterKey, KeySafe;
    var keys := PassTwo(names, sc, pressure);
    PressureIsAsked(names, sc, pressure);
    KeyIsSafe(env, maps, raw, "");
    if forall key | key in keys :: KeySafe(env, maps, raw, key) {
      forall key | key in keys && RouteOf(key) == ToNamespace
        ensures NameOf(key) in maps
      {
        var ns := StemsFrom(names, sc, pressure, key);
        KeyIsSafe(env, maps, raw, ns);
      }
    }
    if MapsFound(keys, maps) && (pressure ==> PressureSafe(env, Get(raw, INDEX_PRESSURE))) {
      forall key | key in keys
        ensures KeySafe(env, maps, raw, key)
      {
        KeyIsKnown(env, maps, raw, names, sc, pressure, key);
      }
    }
  }

  lemma KeyIsKnown(env: Env, maps: map<string, Benchmarks>, raw: map<string, string>, names: seq<string>,
                   sc: map<string, bool>, pressure: bool, key: string)
    requires key in PassTwo(names, sc, pressure) && MapsFound(PassTwo(names, sc, pressure), maps)
    requires pressure ==> PressureSafe(env, Get(raw, INDEX_PRESSURE))
    ensures KeySafe(env, maps, raw, key)
  {
    hide PressureSafe, RouteOf, NameOf, NamespaceKey, RosterKey, KeySafe, NameKeys;
    if key in NameKeys(names, sc) {
      NamespaceKeysOf(names, sc, key);
      if ns :| ns in names && key == NamespaceKey(ns) {
        RoutesApart(ns);
        KeyIsSafe(env, maps, raw, ns);
      } else {
        var ns :| ns in names && key == RosterKey(ns);
        KeyIsSafe(env, maps, raw, ns);
      }
    } else {
      KeyIsSafe(env, maps, raw, "");
    }
  }

  /** No piece of an index-pressure reply has a number behind its second value. */
  predicate PressureFits(lib: Library, text: string)
  {
    forall piece | piece in Split(text, ';') ::
      forall i | 3 <= i < |Split(piece, ':')| :: !Convertible(lib, Split(piece, ':')[i])
  }

  /** The first part of a user-agent entry holds a '=', and if what stands behind it decodes there is a second part, and
      it holds a '=' too. */
  predicate AgentFits(lib: Library, agent: string)
  {
    var parts := Split(agent, ':');
    var i := IndexOf(parts[0], '=');
    && '=' in parts[0] && i < |parts[0]|
    && (lib.decodeBase64(parts[0][i + 1..]).Some? ==> |parts| >= 2 && '=' in parts[1])
  }

  /** What the reply to a cycle's second request must not do to the processors behind the namespace processor: overrun
      the names of index pressure when it is due, hold a user agent that cannot be taken apart, or, in the legacy
      format, a latency section that overruns its labels. */
  predicate OthersSafe(env: Env, m: Machine, one: map<string, string>, raw: map<string, string>, ambient: Ambient)
  {
    && (PressureDue(m, ambient) ==> PressureFits(env.lib, Get(raw, "index-pressure")))
    && ("user-agents" in raw ==>
          forall agent | agent in Split(raw["user-agents"], ';') :: agent == "" || AgentFits(env.lib, agent))
    && (!env.cfg.disableLatenciesMetrics && env.lib.trimSpace(Get(one, "build")) != ""
        && env.lib.parsedVersionAtLeast(Get(one, "build"), "5.1.0.0").Some? && Get(raw, "latencies:") == "" ==>
          !LegacyPanics.TextOverruns(env.lib, Get(raw, "latency:"), env.cfg.latencyBucketsCount))
  }

  lemma PressureFitsIs(env: Env, text: string)
    ensures PressureSafe(env, text) <==> PressureFits(env.lib, text)
  {
    hide Split;
    forall piece, i | piece in Split(text, ';') && 3 <= i < |Split(piece, ':')|
      ensures TryConvert(env, Split(piece, ':')[i]).None? <==> !Convertible(env.lib, Split(piece, ':')[i])
    {
      ConvertsExactly(env, Split(piece, ':')[i]);
    }
    hide TryConvert, Convertible;
    forall piece | piece in Split(text, ';')
      ensures PieceSafe(env, Split(piece, ':'))
         <==> forall i | 3 <= i < |Split(piece, ':')| :: !Convertible(env.lib, Split(piece, ':')[i])
    {
    }
  }

  lemma AgentFitsIs(env: Env, agent: string)
    ensures Node.AgentSafe(env, agent) <==> AgentFits(env.lib, agent)
  {
    IndexOfAbsent(Split(agent, ':')[0], '=');
    hide Split;
  }

  lemma OthersAre(env: Env, m: Machine, one: map<string, string>, raw: map<string, string>, ambient: Ambient)
    ensures OthersSafe(env, m, one, raw, ambient) <==>
              && (PressureDue(m, ambient) ==> PressureSafe(env, Get(raw, INDEX_PRESSURE)))
              && Node.AgentsSafe(env, Node.Agents(raw))
              && (LatenciesAsked(env, one) ==> Lat.LatencySafe(env, raw))
  {
    hide PressureSafe, PressureFits, Node.AgentSafe, AgentFits, Split, LegacyPanics.TextOverruns, PressureDue;
    PressureFitsIs(env, Get(raw, "index-pressure"));
    forall agent
      ensures Node.AgentSafe(env, agent) <==> AgentFits(env.lib, agent)
    {
      AgentFitsIs(env, agent);
    }
  }

  /** An answered cycle panics nowhere if and only if its listed namespaces are covered by benchmark maps, index
      pressure is well formed when it is asked for, all user agents can be taken apart, and no latency section of a
      legacy reply overruns its labels. */
  lemma NoPanicExactly(env: Env, m: Machine, one: map<string, string>, two: map<string, string>, ambient: Ambient)
    ensures NoPanic(env, m, Answer(one), Answer(two), ambient)
       <==> NamesCovered(Names(one), m.learned.benchmarks) && OthersSafe(env, m, one, Sanitized(env, two), ambient)
  {
    OthersAre(env, m, one, Sanitized(env, two), ambient);
    hide KeySafe, MapsFound, NamesCovered, PressureSafe, Node.AgentsSafe, Node.Agents, Lat.LatencySafe, PassTwo;
    hide WithMaps, Names, PressureDue, LatenciesAsked, Sanitized, OthersSafe;
    KeysAreSafe(env, WithMaps(m.learned.benchmarks, Names(one)), Sanitized(env, two), Names(one), m.learned.sc,
                PressureDue(m, ambient));
    MapsExist(m.learned.benchmarks, Names(one), m.learned.sc, PressureDue(m, ambient));
  }

  // ----- Whole runs -----

  /** Some cycle of the run listed the namespace. */
  predicate EverListed(run: Run, ns: string)
  {
    exists i | 0 <= i < |run| :: ListedIn(run[i], ns)
  }

  predicate ListedIn(s: Step, ns: string)
  {
    s.one.Answer? && ns in Names(s.one.values)
  }

  /** No cycle of the run panicked. */
  ghost predicate RunSafe(env: Env, now: int, run: Run)
    requires Possible(env, now, run)
  {
    run == []
    || (RunSafe(env, now, run[..|run| - 1])
        && NoPanic(env, State(env, now, run[..|run| - 1]), run[|run| - 1].one, run[|run| - 1].two,
                   run[|run| - 1].ambient))
  }

  lemma {:induction false} EventsMap(env: Env, l: Learned, events: seq<Event>, ns: string)
    ensures ns in LearnEvents(env, l, events).benchmarks <==> ns in l.benchmarks || EverReplied(events, ns)
  {
    hide SwitchAll, ReplyShowsFlash, ReRepl;
    if events != [] {
      var front, e := events[..|events| - 1], events[|events| - 1];
      EventsMap(env, l, front, ns);
      assert events == front + [e];
      assert EverReplied(events, ns) <==> EverReplied(front, ns) || e.ns == ns;
    }
  }

  lemma {:induction false} NamesReply(raw: map<string, string>, names: seq<string>, ns: string)
    ensures EverReplied(NameEvents(raw, names), ns) <==> exists x :: x in names && RemoveAll(x, "namespace/") == ns
  {
    hide EventOf, RemoveAll;
    if names != [] {
      var front, last := names[..|names| - 1], names[|names| - 1];
      NamesReply(raw, front, ns);
      OneReplies(raw, last);
      assert names == front + [last];
      assert NameEvents(raw, names) == NameEvents(raw, front) + [EventOf(raw, last)];
      assert EverReplied(NameEvents(raw, names), ns)
        <==> EverReplied(NameEvents(raw, front), ns) || EventOf(raw, last).ns == ns;
    }
  }

  lemma OneReplies(raw: map<string, string>, ns: string)
    ensures EventOf(raw, ns).ns == RemoveAll(ns, "namespace/")
  {
    NameIsReadBack(ns);
    hide RemoveAll, StatsOf;
  }

  lemma LearnedMaps(env: Env, m: Machine, s: Step, ns: string)
    requires StepReady(env, m, s)
    ensures ns in Next(env, m, s).learned.benchmarks
       <==> ns in m.learned.benchmarks || ListedIn(s, ns)
            || (Replied(s) && exists x :: x in Names(s.one.values) && RemoveAll(x, "namespace/") == ns)
  {
    hide LearnKeys, PassTwo, Sanitized, NameEvents, Names, WithMaps, CachedReady, CachesAfter, ItemsOf, Node.Learn;
    hide RemoveAll, LearnEvents, EverReplied;
    if s.one.Answer? {
      var names := Names(s.one.values);
      MapsAt(m.learned.benchmarks, names, ns);
      if s.two.Answer? {
        var raw, ready := Sanitized(env, s.two.values), m.learned.(benchmarks := WithMaps(m.learned.benchmarks, names));
        KeysTeachEvents(env, ready, raw, names, m.learned.sc, PressureDue(m, s.ambient));
        EventsMap(env, ready, NameEvents(raw, names), ns);
        NamesReply(raw, names, ns);
      }
    }
  }

  lemma ListedMore(run: Run, s: Step, ns: string)
    ensures EverListed(run + [s], ns) <==> EverListed(run, ns) || ListedIn(s, ns)
  {
    hide ListedIn;
    assert (run + [s])[|run|] == s;
    assert forall i | 0 <= i < |run| :: (run + [s])[i] == run[i];
  }

  /** After any run without a panic, the namespaces that have a benchmark map are those that were ever listed. */
  lemma {:induction false} MapsAreListed(env: Env, now: int, run: Run, ns: string)
    requires Possible(env, now, run) && RunSafe(env, now, run)
    ensures ns in State(env, now, run).learned.benchmarks <==> EverListed(run, ns)
  {
    hide StepReady, Next, EverListed, ListedIn, RemoveAll, Names, NoPanic, NamesCovered, OthersSafe;
    if run == [] {
      NothingListed(ns);
    } else {
      var front, s := run[..|run| - 1], run[|run| - 1];
      var m := State(env, now, front);
      MapsAreListed(env, now, front, ns);
      LearnedMaps(env, m, s, ns);
      ListedMore(front, s, ns);
      assert run == front + [s];
      if Replied(s) {
        NoPanicExactly(env, m, s.one.values, s.two.values, s.ambient);
        assert s.one == Answer(s.one.values) && s.two == Answer(s.two.values);
        CoveredNames(m, s, ns);
      }
    }
  }

  lemma NothingListed(ns: string)
    ensures !EverListed([], ns)
  {
  }

  lemma CoveredNames(m: Machine, s: Step, ns: string)
    requires Replied(s) && NamesCovered(Names(s.one.values), m.learned.benchmarks)
    ensures (exists x :: x in Names(s.one.values) && RemoveAll(x, "namespace/") == ns)
            ==> ns in m.learned.benchmarks || ListedIn(s, ns)
  {
    hide RemoveAll, Names;
  }

  /** Every listed name, stripped of "namespace/", is listed with it, or was listed before. */
  predicate NamesListed(run: Run, names: seq<string>)
  {
    forall ns | ns in names :: RemoveAll(ns, "namespace/") in names || EverListed(run, RemoveAll(ns, "namespace/"))
  }

  lemma CoveredIsListed(env: Env, now: int, run: Run, names: seq<string>)
    requires Possible(env, now, run) && RunSafe(env, now, run)
    ensures NamesCovered(names, State(env, now, run).learned.benchmarks) <==> NamesListed(run, names)
  {
    hide RemoveAll, EverListed, Possible, State, RunSafe;
    var benchmarks := State(env, now, run).learned.benchmarks;
    forall ns
      ensures ns in benchmarks <==> EverListed(run, ns)
    {
      MapsAreListed(env, now, run, ns);
    }
  }

  /** Over all runs without a panic so far: the next answered cycle is without a panic exactly when every namespace that
      it lists, stripped of "namespace/", is listed by it or was listed before, and the other processors are safe. */
  lemma SafetyIsHistory(env: Env, now: int, run: Run, one: map<string, string>, two: map<string, string>,
                        ambient: Ambient)
    requires Possible(env, now, run) && RunSafe(env, now, run)
    ensures var m := State(env, now, run);
            NoPanic(env, m, Answer(one), Answer(two), ambient)
            <==> NamesListed(run, Names(one)) && OthersSafe(env, m, one, Sanitized(env, two), ambient)
  {
    hide *;
    NoPanicExactly(env, State(env, now, run), one, two, ambient);
    CoveredIsListed(env, now, run, Names(one));
  }
}
