/** Whole runs of scrape cycles. */
module Runs {
  import opened Text
  import opened Wrappers
  import opened Commons
  import opened AerospikeStat
  import opened Readings
  import opened HistogramSwitches
  import opened Switching
  import opened NamespaceProcessor
  import opened InfoKeys
  import opened StatsRefresher
  import Node = NodeProcessor

  type Run = seq<Step>

  /** A run from the start: every cycle starts in the state that the cycles before it left. */
  ghost predicate Possible(env: Env, now: int, run: Run)
    decreases |run|, 0
  {
    run == [] || (Possible(env, now, run[..|run| - 1])
                  && StepReady(env, State(env, now, run[..|run| - 1]), run[|run| - 1]))
  }

  ghost function State(env: Env, now: int, run: Run): Machine
    requires Possible(env, now, run)
    decreases |run|, 1
  {
    if run == [] then Start(now)
    else Next(env, State(env, now, run[..|run| - 1]), run[|run| - 1])
  }

  lemma Snoc(env: Env, now: int, run: Run, s: Step)
    requires Possible(env, now, run + [s])
    ensures Possible(env, now, run) && StepReady(env, State(env, now, run), s)
    ensures State(env, now, run + [s]) == Next(env, State(env, now, run), s)
  {
    assert (run + [s])[..|run|] == run;
  }

  // ----- The replies to namespace keys -----

  predicate Replied(s: Step)
  {
    s.one.Answer? && s.two.Answer?
  }

  /** A reply to a namespace key, as its handler understands it. */
  datatype Event = Event(ns: string, stats: map<string, string>)

  function EventOf(raw: map<string, string>, ns: string): Event
  {
    Event(NameOf(NamespaceKey(ns)), StatsOf(Get(raw, NamespaceKey(ns)), ';'))
  }

  function NameEvents(raw: map<string, string>, names: seq<string>): seq<Event>
  {
    if names == [] then [] else NameEvents(raw, names[..|names| - 1]) + [EventOf(raw, names[|names| - 1])]
  }

  function StepEvents(env: Env, s: Step): seq<Event>
  {
    if Replied(s) then NameEvents(Sanitized(env, s.two.values), Names(s.one.values)) else []
  }

  /** All replies to namespace keys, oldest first: they depend on the server alone. */
  function Events(env: Env, run: Run): seq<Event>
  {
    if run == [] then [] else Events(env, run[..|run| - 1]) + StepEvents(env, run[|run| - 1])
  }

  function LearnEvents(env: Env, l: Learned, events: seq<Event>): Learned
  {
    if events == [] then l
    else Learn(env, LearnEvents(env, l, events[..|events| - 1]), events[|events| - 1].ns, events[|events| - 1].stats)
  }

  lemma {:induction false} LearnEventsAppend(env: Env, l: Learned, a: seq<Event>, b: seq<Event>)
    ensures LearnEvents(env, l, a + b) == LearnEvents(env, LearnEvents(env, l, a), b)
  {
    hide Learn;
    if b == [] {
      assert a + b == a;
    } else {
      LearnEventsAppend(env, l, a, b[..|b| - 1]);
      assert (a + b)[..|a + b| - 1] == a + b[..|b| - 1];
    }
  }

  lemma LearnKeysSnoc(env: Env, l: Learned, raw: map<string, string>, keys: seq<string>, key: string)
    ensures LearnKeys(env, l, raw, keys + [key]) == LearnKey(env, LearnKeys(env, l, raw, keys), raw, key)
  {
    assert (keys + [key])[..|keys|] == keys;
  }

  lemma LearnOther(env: Env, l: Learned, raw: map<string, string>, key: string)
    requires RouteOf(key) != ToNamespace
    ensures LearnKey(env, l, raw, key) == l
  {
  }

  lemma LearnName(env: Env, l: Learned, raw: map<string, string>, ns: string)
    ensures LearnKey(env, l, raw, NamespaceKey(ns)) == Learn(env, l, EventOf(raw, ns).ns, EventOf(raw, ns).stats)
  {
    hide Learn, StatsOf;
    RoutesApart(ns);
  }

  lemma {:induction false} NameKeysTeachEvents(env: Env, l: Learned, raw: map<string, string>, names: seq<string>,
                                               sc: map<string, bool>)
    ensures LearnKeys(env, l, raw, NameKeys(names, sc)) == LearnEvents(env, l, NameEvents(raw, names))
  {
    hide Learn, LearnKey, LearnKeys, LearnEvents, EventOf, NamespaceKey, RosterKey, Consistent;
    if names == [] {
      NothingLearned(env, l, raw);
      NoEventsLearned(env, l);
    } else {
      var front, ns := names[..|names| - 1], names[|names| - 1];
      NameKeysTeachEvents(env, l, raw, front, sc);
      var keys := NameKeys(front, sc);
      LearnKeysSnoc(env, l, raw, keys, NamespaceKey(ns));
      LearnName(env, LearnKeys(env, l, raw, keys), raw, ns);
      LearnKeysSnoc(env, l, raw, keys + [NamespaceKey(ns)], RosterKey(ns));
      RoutesApart(ns);
      LearnOther(env, LearnKeys(env, l, raw, keys + [NamespaceKey(ns)]), raw, RosterKey(ns));
      assert keys + [NamespaceKey(ns)] + [] == keys + [NamespaceKey(ns)];
      LearnEventsSnoc(env, l, NameEvents(raw, front), EventOf(raw, ns));
    }
  }

  lemma LearnEventsSnoc(env: Env, l: Learned, events: seq<Event>, e: Event)
    ensures LearnEvents(env, l, events + [e]) == Learn(env, LearnEvents(env, l, events), e.ns, e.stats)
  {
    hide Learn;
    assert (events + [e])[..|events|] == events;
  }

  lemma NoEventsLearned(env: Env, l: Learned)
    ensures LearnEvents(env, l, []) == l
  {
  }

  lemma NothingLearned(env: Env, l: Learned, raw: map<string, string>)
    ensures LearnKeys(env, l, raw, []) == l
  {
  }

  /** The keys of a cycle teach what the replies to its namespaces say, rosters and index pressure nothing. */
  lemma KeysTeachEvents(env: Env, l: Learned, raw: map<string, string>, names: seq<string>, sc: map<string, bool>,
                        pressure: bool)
    ensures LearnKeys(env, l, raw, PassTwo(names, sc, pressure)) == LearnEvents(env, l, NameEvents(raw, names))
  {
    hide LearnKey, LearnKeys, NameKeys, LearnEvents, NameEvents;
    NameKeysTeachEvents(env, l, raw, names, sc);
    var keys := NameKeys(names, sc);
    if pressure {
      LearnKeysSnoc(env, l, raw, keys, INDEX_PRESSURE);
      RoutesApart("");
      LearnOther(env, LearnKeys(env, l, raw, keys), raw, INDEX_PRESSURE);
    } else {
      assert keys + [] == keys;
    }
  }

  // ----- Knowledge is history -----

  /** Same flags and same entries; empty benchmark maps do not count. */
  ghost predicate Same(a: Learned, b: Learned)
  {
    a.sc == b.sc && a.flash == b.flash && forall ns :: BenchmarksOf(a.benchmarks, ns) == BenchmarksOf(b.benchmarks, ns)
  }

  lemma {:induction false} LearnEventsSame(env: Env, a: Learned, b: Learned, events: seq<Event>)
    requires Same(a, b)
    ensures Same(LearnEvents(env, a, events), LearnEvents(env, b, events))
  {
    hide Learn, Same;
    if events != [] {
      var front, e := events[..|events| - 1], events[|events| - 1];
      LearnEventsSame(env, a, b, front);
      LearnSame(env, LearnEvents(env, a, front), LearnEvents(env, b, front), e.ns, e.stats);
    }
  }

  lemma LearnSame(env: Env, a: Learned, b: Learned, ns: string, stats: map<string, string>)
    requires Same(a, b)
    ensures Same(Learn(env, a, ns, stats), Learn(env, b, ns, stats))
  {
    hide SwitchAll, ReplyShowsFlash, ReRepl;
    assert BenchmarksOf(a.benchmarks, ns) == BenchmarksOf(b.benchmarks, ns);
    var c, d := Learn(env, a, ns, stats), Learn(env, b, ns, stats);
    forall x
      ensures BenchmarksOf(c.benchmarks, x) == BenchmarksOf(d.benchmarks, x)
    {
      assert BenchmarksOf(a.benchmarks, x) == BenchmarksOf(b.benchmarks, x);
    }
  }

  lemma MapsAddNothing(l: Learned, names: seq<string>)
    ensures Same(l.(benchmarks := WithMaps(l.benchmarks, names)), l)
  {
    hide WithMaps;
    forall ns
      ensures BenchmarksOf(WithMaps(l.benchmarks, names), ns) == BenchmarksOf(l.benchmarks, ns)
    {
      MapsAt(l.benchmarks, names, ns);
    }
  }

  const NOTHING := Learned(map[], false, map[])

  lemma StepLearns(env: Env, m: Machine, s: Step)
    requires StepReady(env, m, s)
    ensures Same(Next(env, m, s).learned, LearnEvents(env, m.learned, StepEvents(env, s)))
  {
    hide LearnKeys, NamespaceProcessor.PassTwo, Sanitized, NameEvents, Names, WithMaps, CachedReady, CachesAfter;
    hide ItemsOf, Node.Learn;
    if s.one.Answer? {
      var names := Names(s.one.values);
      MapsAddNothing(m.learned, names);
      if s.two.Answer? {
        var raw, ready := Sanitized(env, s.two.values), m.learned.(benchmarks := WithMaps(m.learned.benchmarks, names));
        KeysTeachEvents(env, ready, raw, names, m.learned.sc, PressureDue(m, s.ambient));
        LearnEventsSame(env, ready, m.learned, NameEvents(raw, names));
      }
    }
  }

  /** After any run, what the namespace processor knows is what the replies so far have taught. */
  lemma {:induction false} KnowledgeIsHistory(env: Env, now: int, run: Run)
    requires Possible(env, now, run)
    ensures Same(State(env, now, run).learned, LearnEvents(env, NOTHING, Events(env, run)))
  {
    hide StepReady, Next, StepEvents, LearnEvents;
    if run == [] {
      NoEventsLearned(env, NOTHING);
    } else {
      var front, s := run[..|run| - 1], run[|run| - 1];
      KnowledgeIsHistory(env, now, front);
      StepLearns(env, State(env, now, front), s);
      LearnEventsSame(env, State(env, now, front).learned, LearnEvents(env, NOTHING, Events(env, front)),
                      StepEvents(env, s));
      LearnEventsAppend(env, NOTHING, Events(env, front), StepEvents(env, s));
    }
  }

  // ----- Reading the history -----

  /** The latest reply for ns that gave the stat a text that reads as a number, and whether it reads as 1. */
  function LatestSwitch(env: Env, events: seq<Event>, ns: string, stat: string): Option<bool>
  {
    if events == [] then None
    else
      var e := events[|events| - 1];
      if e.ns == ns && stat in e.stats && Convertible(env.lib, e.stats[stat])
      then Some(Reads(env.lib, e.stats[stat], 1.0))
      else LatestSwitch(env, events[..|events| - 1], ns, stat)
  }

  /** The latest reply for ns that carried strong-consistency, and whether it said true. */
  function LatestConsistency(env: Env, events: seq<Event>, ns: string): Option<bool>
  {
    if events == [] then None
    else
      var e := events[|events| - 1];
      if e.ns == ns && "strong-consistency" in e.stats
      then Some(env.lib.trimSpace(e.stats["strong-consistency"]) == "true")
      else LatestConsistency(env, events[..|events| - 1], ns)
  }

  ghost predicate EverReplied(events: seq<Event>, ns: string)
  {
    exists e | e in events :: e.ns == ns
  }

  ghost predicate EverFlash(env: Env, events: seq<Event>)
  {
    exists e | e in events :: ReplyShowsFlash(env, e.stats)
  }

  lemma ReReplIsNoHistogram()
    ensures !IsHistogramStat("re-repl")
  {
    assert !Contains("re-repl", "enable-benchmarks-") && !Contains("re-repl", "enable-hist-");
  }

  lemma {:induction false} BenchmarkHistory(env: Env, events: seq<Event>, ns: string, stat: string)
    ensures var entries := BenchmarksOf(LearnEvents(env, NOTHING, events).benchmarks, ns);
            if stat == "re-repl" then
              (stat in entries <==> EverReplied(events, ns)) && (stat in entries ==> entries[stat] == ReRepl(ns))
            else
              (stat in entries <==> NamesHistogram(stat) && LatestSwitch(env, events, ns, stat) == Some(true))
              && (stat in entries ==> entries[stat] == Command(OfNamespace(ns), stat))
  {
    hide Switches, SwitchesOn, Command, ReRepl, ReplyShowsFlash, NamesHistogram, Reads, Convertible;
    ReReplNeverSwitches(env, stat);
    if events != [] {
      var front, e := events[..|events| - 1], events[|events| - 1];
      BenchmarkHistory(env, front, ns, stat);
      SwitchKinds(env, e.stats, stat);
      SwitchesAre(env, e.stats, stat);
      assert events == front + [e];
      assert EverReplied(events, ns) <==> EverReplied(front, ns) || e.ns == ns;
    }
  }

  lemma ReReplNeverSwitches(env: Env, stat: string)
    ensures forall stats :: stat == "re-repl" ==> !Switches(env, stats, stat) && !SwitchesOn(env, stats, stat)
  {
    ReReplIsNoHistogram();
  }

  lemma {:induction false} FlagHistory(env: Env, events: seq<Event>, ns: string)
    ensures var l := LearnEvents(env, NOTHING, events);
            && (ns in l.sc <==> LatestConsistency(env, events, ns).Some?)
            && (Consistent(l.sc, ns) <==> LatestConsistency(env, events, ns) == Some(true))
            && (l.flash <==> EverFlash(env, events))
  {
    hide SwitchAll, ReplyShowsFlash;
    if events != [] {
      var front, e := events[..|events| - 1], events[|events| - 1];
      FlagHistory(env, front, ns);
      assert events == front + [e];
      assert EverFlash(env, events) <==> EverFlash(env, front) || ReplyShowsFlash(env, e.stats);
    }
  }

  /** Whole-run history: after any run, a namespace's benchmarks hold a histogram stat exactly when the latest reply for
      the namespace giving it a text that reads as a number gave one that reads as 1, re-repl from its first reply
      onwards, and nothing else; every entry carries the command for its stat. */
  lemma BenchmarksAreHistory(env: Env, now: int, run: Run, ns: string, stat: string)
    requires Possible(env, now, run)
    ensures var entries, events := BenchmarksOf(State(env, now, run).learned.benchmarks, ns), Events(env, run);
            if stat == "re-repl" then
              (stat in entries <==> EverReplied(events, ns))
              && (stat in entries ==> entries[stat] == "{" + ns + "}-re-repl")
            else
              (stat in entries <==> NamesHistogram(stat) && LatestSwitch(env, events, ns, stat) == Some(true))
              && (stat in entries ==>
                    entries[stat] == RemoveAll(RemoveAll("{" + ns + "}-" + stat, "enable-"), "hist-"))
  {
    ReReplIs(ns);
    hide *;
    CommandsAre(ns, stat);
    KnowledgeIsHistory(env, now, run);
    BenchmarkHistory(env, Events(env, run), ns, stat);
    SameEntries(State(env, now, run).learned, LearnEvents(env, NOTHING, Events(env, run)), ns);
  }

  lemma ReReplIs(ns: string)
    ensures ReRepl(ns) == "{" + ns + "}-re-repl"
  {
  }

  lemma SameEntries(a: Learned, b: Learned, ns: string)
    requires Same(a, b)
    ensures a.sc == b.sc && a.flash == b.flash && BenchmarksOf(a.benchmarks, ns) == BenchmarksOf(b.benchmarks, ns)
  {
  }

  lemma FlagsAreHistory(env: Env, now: int, run: Run, ns: string)
    requires Possible(env, now, run)
    ensures var l, events := State(env, now, run).learned, Events(env, run);
            && (Consistent(l.sc, ns) <==> LatestConsistency(env, events, ns) == Some(true))
            && (l.flash <==> EverFlash(env, events))
  {
    hide *;
    KnowledgeIsHistory(env, now, run);
    FlagHistory(env, Events(env, run), ns);
    SameEntries(State(env, now, run).learned, LearnEvents(env, NOTHING, Events(env, run)), ns);
  }
}
