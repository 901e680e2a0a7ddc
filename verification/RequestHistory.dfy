/** What the requests of a cycle owe to the cycles before it. */
module RequestHistory {
  import opened Text
  import opened Wrappers
  import opened Commons
  import opened AerospikeStat
  import opened SharedState
  import opened Readings
  import opened HistogramSwitches
  import opened Switching
  import opened NamespaceProcessor
  import opened InfoKeys
  import opened StatsRefresher
  import opened Runs
  import Node = NodeProcessor
  import Lat = LatencyProcessor

  // ----- Rosters -----

  /** A cycle asks for the roster of a namespace exactly when its pass-one reply lists the namespace and the
      latest earlier reply for it that carried strong-consistency said true. */
  lemma RosterIsGated(env: Env, now: int, run: Run, s: Step, ns: string)
    requires Possible(env, now, run) && StepReady(env, State(env, now, run), s) && s.one.Answer?
    ensures RosterKey(ns) in StepKeys(env, State(env, now, run), s).namespaces
       <==> ns in Names(s.one.values) && LatestConsistency(env, Events(env, run), ns) == Some(true)
  {
    var m := State(env, now, run);
    FlagsAreHistory(env, now, run, ns);
    hide State, Possible, NameKeys, Names, Consistent, LatestConsistency, RosterKey, NamespaceKey;
    RosterKeysOf(Names(s.one.values), m.learned.sc, ns);
    KeysDiffer(ns, ns);
    var keys := StepKeys(env, m, s).namespaces;
    assert keys == NameKeys(Names(s.one.values), m.learned.sc)
      + if PressureDue(m, s.ambient) then [INDEX_PRESSURE] else [];
  }

  /** Hence never in the first cycle. */
  lemma NoRosterAtFirst(env: Env, now: int, s: Step, ns: string)
    requires StepReady(env, Start(now), s) && s.one.Answer?
    ensures RosterKey(ns) !in StepKeys(env, Start(now), s).namespaces
  {
    RosterIsGated(env, now, [], s, ns);
  }

  // ----- Latency commands -----

  /** The orders of the maps that a cycle walks are orders of the maps at the end of the cycle before:
      the empty maps that the cycle itself adds have no entries. */
  lemma EntriesStood(m: Machine, names: seq<string>, entries: seq<Lat.Entry>)
    ensures Lat.IsEntryOrder(entries, WithMaps(m.learned.benchmarks, names))
            <==> Lat.IsEntryOrder(entries, m.learned.benchmarks)
  {
    hide WithMaps;
    forall e: Lat.Entry
      ensures (e.0 in WithMaps(m.learned.benchmarks, names) && e.1 in WithMaps(m.learned.benchmarks, names)[e.0])
         <==> (e.0 in m.learned.benchmarks && e.1 in m.learned.benchmarks[e.0])
    {
      MapsAt(m.learned.benchmarks, names, e.0);
    }
  }

  lemma {:induction false} SameCommands(a: map<string, Benchmarks>, b: map<string, Benchmarks>, entries: seq<Lat.Entry>)
    requires forall e | e in entries ::
               e.0 in a && e.1 in a[e.0] && e.0 in b && e.1 in b[e.0] && a[e.0][e.1] == b[e.0][e.1]
    ensures Lat.EntryCommands(a, entries) == Lat.EntryCommands(b, entries)
  {
    if entries != [] {
      assert entries[|entries| - 1] in entries;
      SameCommands(a, b, entries[..|entries| - 1]);
    }
  }

  /** For builds that know the command, with latency metrics on: a cycle asks for "latencies:" and one command
      for each namespace entry and each service entry that stood at the end of the cycle before, in some order. */
  lemma LatencyRequest(env: Env, m: Machine, s: Step)
    requires StepReady(env, m, s) && s.one.Answer?
    requires !env.cfg.disableLatenciesMetrics && BuildAtLeast(env, Get(s.one.values, "build"), "5.1.0.0") == Some(true)
    ensures Lat.IsEntryOrder(s.orders.entries, m.learned.benchmarks) && IsOrder(s.orders.stats, m.service)
    ensures StepKeys(env, m, s).latency
         == ["latencies:"] + Lat.EntryCommands(m.learned.benchmarks, s.orders.entries)
           + Lat.ServiceCommands(m.service, s.orders.stats)
  {
    hide WithMaps, Names, CachedReady, Lat.EntryCommands, Lat.ServiceCommands, NamespaceProcessor.PassTwo, Node.PassTwo;
    hide Lat.RefreshReady;
    var names := Names(s.one.values);
    EntriesStood(m, names, s.orders.entries);
    forall e | e in s.orders.entries
      ensures e.0 in WithMaps(m.learned.benchmarks, names) && e.1 in WithMaps(m.learned.benchmarks, names)[e.0]
           && e.0 in m.learned.benchmarks && e.1 in m.learned.benchmarks[e.0]
           && WithMaps(m.learned.benchmarks, names)[e.0][e.1] == m.learned.benchmarks[e.0][e.1]
    {
      MapsAt(m.learned.benchmarks, names, e.0);
    }
    SameCommands(WithMaps(m.learned.benchmarks, names), m.learned.benchmarks, s.orders.entries);
  }

  /** The namespace commands of a cycle are those of the histograms that history says are on, and re-repl. */
  lemma LatencyEntriesAreHistory(env: Env, now: int, run: Run, s: Step, ns: string, stat: string)
    requires Possible(env, now, run) && StepReady(env, State(env, now, run), s) && s.one.Answer?
    ensures (ns, stat) in s.orders.entries
       <==> if stat == "re-repl" then EverReplied(Events(env, run), ns)
            else NamesHistogram(stat) && LatestSwitch(env, Events(env, run), ns, stat) == Some(true)
  {
    var m := State(env, now, run);
    BenchmarksAreHistory(env, now, run, ns, stat);
    EntriesStood(m, Names(s.one.values), s.orders.entries);
    assert Lat.IsEntryOrder(s.orders.entries, m.learned.benchmarks);
    hide State, Possible, LatestSwitch, EverReplied, Command, StepReady, WithMaps, Names;
  }

  // ----- Service benchmarks -----

  /** The service replies, configuration before statistics, oldest first. */
  function ServiceReplies(env: Env, run: Run): seq<map<string, string>>
  {
    if run == [] then []
    else
      var s := run[|run| - 1];
      ServiceReplies(env, run[..|run| - 1])
      + if Replied(s) then [Node.ConfigOf(ReplyIn(env, s)), Node.StatisticsOf(ReplyIn(env, s))] else []
  }

  /** The second reply, as the processors see it. */
  function ReplyIn(env: Env, s: Step): map<string, string>
    requires Replied(s)
  {
    Sanitized(env, s.two.values)
  }

  function LatestServiceSwitch(env: Env, replies: seq<map<string, string>>, stat: string): Option<bool>
  {
    if replies == [] then None
    else
      var reply := replies[|replies| - 1];
      if stat in reply && Convertible(env.lib, reply[stat]) then Some(Reads(env.lib, reply[stat], 1.0))
      else LatestServiceSwitch(env, replies[..|replies| - 1], stat)
  }

  lemma LatestServiceSnoc(env: Env, replies: seq<map<string, string>>, reply: map<string, string>, stat: string)
    ensures LatestServiceSwitch(env, replies + [reply], stat) ==
              if stat in reply && Convertible(env.lib, reply[stat]) then Some(Reads(env.lib, reply[stat], 1.0))
              else LatestServiceSwitch(env, replies, stat)
  {
    assert (replies + [reply])[..|replies|] == replies;
  }

  /** The entry of a stat, as far as the history goes. */
  ghost predicate Reflects(env: Env, benchmarks: Benchmarks, replies: seq<map<string, string>>, stat: string)
  {
    && (stat in benchmarks <==> NamesHistogram(stat) && LatestServiceSwitch(env, replies, stat) == Some(true))
    && (stat in benchmarks ==> benchmarks[stat] == RemoveAll(RemoveAll(stat, "enable-"), "hist-"))
  }

  lemma ReflectsNext(env: Env, benchmarks: Benchmarks, replies: seq<map<string, string>>, reply: map<string, string>,
                     stat: string)
    requires Reflects(env, benchmarks, replies, stat)
    ensures Reflects(env, SwitchAll(env, OfService, reply, benchmarks), replies + [reply], stat)
  {
    LatestServiceSnoc(env, replies, reply, stat);
    SwitchKinds(env, reply, stat);
    SwitchesAre(env, reply, stat);
    CommandsAre("", stat);
    hide Switches, SwitchesOn, Command, LatestServiceSwitch, NamesHistogram, Reads, Convertible, RemoveAll;
  }

  lemma ReflectsReplies(env: Env, benchmarks: Benchmarks, replies: seq<map<string, string>>,
                        first: map<string, string>, second: map<string, string>, stat: string)
    requires Reflects(env, benchmarks, replies, stat)
    ensures Reflects(env, SwitchAll(env, OfService, second, SwitchAll(env, OfService, first, benchmarks)), replies
                     + [first, second], stat)
  {
    hide *;
    ReflectsNext(env, benchmarks, replies, first, stat);
    ReflectsNext(env, SwitchAll(env, OfService, first, benchmarks), replies + [first], second, stat);
    assert replies + [first] + [second] == replies + [first, second];
  }

  /** After any run, the service benchmarks hold a stat exactly when the latest service reply giving it a
      text that reads as a number gave one that reads as 1. */
  lemma {:induction false} ServiceBenchmarksAreHistory(env: Env, now: int, run: Run, stat: string)
    requires Possible(env, now, run)
    ensures Reflects(env, State(env, now, run).service, ServiceReplies(env, run), stat)
  {
    hide *;
    if run == [] {
      NoServiceHistory(env, now, stat);
    } else {
      var front, s := run[..|run| - 1], run[|run| - 1];
      StateOfRun(env, now, run);
      ServiceRepliesSnoc(env, run);
      ServiceBenchmarksAreHistory(env, now, front, stat);
      var m := State(env, now, front);
      StepService(env, m, s);
      if Replied(s) {
        var raw := ReplyIn(env, s);
        ReflectsReplies(env, m.service, ServiceReplies(env, front), Node.ConfigOf(raw), Node.StatisticsOf(raw), stat);
      }
    }
  }

  lemma NoServiceHistory(env: Env, now: int, stat: string)
    ensures Possible(env, now, []) && Reflects(env, State(env, now, []).service, ServiceReplies(env, []), stat)
  {
  }

  lemma StateOfRun(env: Env, now: int, run: Run)
    requires run != [] && Possible(env, now, run)
    ensures Possible(env, now, run[..|run| - 1]) && StepReady(env, State(env, now, run[..|run| - 1]), run[|run| - 1])
    ensures State(env, now, run) == Next(env, State(env, now, run[..|run| - 1]), run[|run| - 1])
  {
    hide Next, StepReady;
  }

  lemma ServiceRepliesSnoc(env: Env, run: Run)
    requires run != []
    ensures var s, front := run[|run| - 1], ServiceReplies(env, run[..|run| - 1]);
            ServiceReplies(env, run) ==
              if Replied(s) then front + [Node.ConfigOf(ReplyIn(env, s)), Node.StatisticsOf(ReplyIn(env, s))] else front
  {
    hide Node.ConfigOf, Node.StatisticsOf, ReplyIn;
  }

  lemma StepService(env: Env, m: Machine, s: Step)
    requires StepReady(env, m, s)
    ensures Next(env, m, s).service == if Replied(s) then
              SwitchAll(env, OfService, Node.StatisticsOf(ReplyIn(env, s)),
                        SwitchAll(env, OfService, Node.ConfigOf(ReplyIn(env, s)), m.service))
            else m.service
  {
    hide SwitchAll, Node.ConfigOf, Node.StatisticsOf, Sanitized, CachedReady, LearnKeys, CachesAfter, ItemsOf, KeysFor;
  }

  // ----- Index pressure -----

  /** The clock never runs backwards: neither within a cycle nor between cycles. */
  ghost predicate Ticking(now: int, run: Run)
  {
    forall i | 0 <= i < |run| :: TimeBefore(now, run, i) <= run[i].ambient.checkTime <= run[i].ambient.stampTime
  }

  function TimeBefore(now: int, run: Run, i: nat): int
    requires i <= |run|
  {
    if i == 0 then now else run[i - 1].ambient.stampTime
  }

  /** The cycle asks for index pressure. */
  predicate AsksPressure(m: Machine, s: Step)
  {
    s.one.Answer? && PressureDue(m, s.ambient)
  }

  lemma AskedPressureIsRequested(env: Env, m: Machine, s: Step)
    requires StepReady(env, m, s) && s.one.Answer?
    ensures AsksPressure(m, s) <==> INDEX_PRESSURE in StepKeys(env, m, s).namespaces
  {
    hide NameKeys, Names, CachedReady, RosterKey, NamespaceKey;
    RosterKeysOf(Names(s.one.values), m.learned.sc, "");
    var keys := StepKeys(env, m, s).namespaces;
    assert keys == NameKeys(Names(s.one.values), m.learned.sc)
      + if PressureDue(m, s.ambient) then [INDEX_PRESSURE] else [];
  }

  /** The times of the index-pressure requests of a run. */
  ghost function PressureTimes(env: Env, now: int, run: Run): seq<int>
    requires Possible(env, now, run)
  {
    if run == [] then []
    else
      var front, s := run[..|run| - 1], run[|run| - 1];
      PressureTimes(env, now, front) + if AsksPressure(State(env, now, front), s) then [s.ambient.checkTime] else []
  }

  /** The n-th time is n intervals after the start, and the previous fetch time stands for the last one. */
  ghost predicate Spaced(now: int, times: seq<int>, previousFetch: int)
  {
    && (forall i | 0 <= i < |times| :: times[i] >= now + (i + 1) * FETCH_INTERVAL)
    && (forall i, j | 0 <= i < j < |times| :: times[j] - times[i] >= (j - i) * FETCH_INTERVAL)
    && previousFetch >= now + |times| * FETCH_INTERVAL
    && (forall i | 0 <= i < |times| :: previousFetch - times[i] >= (|times| - 1 - i) * FETCH_INTERVAL)
  }

  lemma SpacedNext(now: int, times: seq<int>, previousFetch: int, check: int, stamp: int)
    requires Spaced(now, times, previousFetch) && check - previousFetch >= FETCH_INTERVAL && stamp >= check
    ensures Spaced(now, times + [check], stamp)
  {
    var more := times + [check];
    forall i | 0 <= i < |more|
      ensures more[i] >= now + (i + 1) * FETCH_INTERVAL && stamp - more[i] >= (|more| - 1 - i) * FETCH_INTERVAL
    {
      if i < |times| {
        assert more[i] == times[i];
        assert previousFetch - times[i] >= (|times| - 1 - i) * FETCH_INTERVAL;
      }
    }
    forall i, j | 0 <= i < j < |more|
      ensures more[j] - more[i] >= (j - i) * FETCH_INTERVAL
    {
      assert more[i] == times[i];
      if j < |times| {
        assert more[j] == times[j];
      } else {
        assert previousFetch - times[i] >= (|times| - 1 - i) * FETCH_INTERVAL;
      }
    }
  }

  lemma StepFetchTime(env: Env, m: Machine, s: Step)
    requires StepReady(env, m, s)
    ensures Next(env, m, s).previousFetch == if AsksPressure(m, s) then s.ambient.stampTime else m.previousFetch
  {
    hide CachedReady, LearnKeys, CachesAfter, ItemsOf, KeysFor, WithMaps, Names, Sanitized, Node.Learn, Node.Sinks;
  }

  lemma TickingPrefix(now: int, run: Run)
    requires run != [] && Ticking(now, run)
    ensures Ticking(now, run[..|run| - 1])
    ensures run[|run| - 1].ambient.checkTime <= run[|run| - 1].ambient.stampTime
  {
    var front := run[..|run| - 1];
    assert forall i | 0 <= i < |front| :: front[i] == run[i] && TimeBefore(now, front, i) == TimeBefore(now, run, i);
  }

  /** Rate limit over any run with a clock that never runs backwards: the N-th index-pressure request comes at
      least N intervals of ten minutes after the start, and any two requests are that far apart. */
  lemma {:induction false} PressureIsRateLimited(env: Env, now: int, run: Run)
    requires Possible(env, now, run) && Ticking(now, run)
    ensures Spaced(now, PressureTimes(env, now, run), State(env, now, run).previousFetch)
  {
    if run != [] {
      var front, s := run[..|run| - 1], run[|run| - 1];
      TickingPrefix(now, run);
      PressureIsRateLimited(env, now, front);
      StateOfRun(env, now, run);
      var m := State(env, now, front);
      StepFetchTime(env, m, s);
      hide State, Possible, Next, StepReady, Spaced;
      if AsksPressure(m, s) {
        SpacedNext(now, PressureTimes(env, now, front), m.previousFetch, s.ambient.checkTime, s.ambient.stampTime);
      }
    }
  }

  /** No request for index pressure comes before some earlier reply showed an index type that holds "flash". */
  lemma PressureFollowsFlash(env: Env, now: int, run: Run, s: Step)
    requires Possible(env, now, run) && AsksPressure(State(env, now, run), s)
    ensures EverFlash(env, Events(env, run))
  {
    hide State, Possible, EverFlash;
    FlagsAreHistory(env, now, run, "");
  }

  /** The flash flag never resets. */
  lemma FlashIsLatched(env: Env, now: int, run: Run, s: Step)
    requires Possible(env, now, run + [s]) && Possible(env, now, run) && State(env, now, run).learned.flash
    ensures State(env, now, run + [s]).learned.flash
  {
    hide State, Possible, EverFlash;
    FlagsAreHistory(env, now, run, "");
    FlagsAreHistory(env, now, run + [s], "");
    EventsGrow(env, run, s);
  }

  lemma EventsGrow(env: Env, run: Run, s: Step)
    ensures EverFlash(env, Events(env, run)) ==> EverFlash(env, Events(env, run + [s]))
  {
    hide ReplyShowsFlash, StepEvents;
    assert (run + [s])[..|run|] == run;
    assert Events(env, run + [s]) == Events(env, run) + StepEvents(env, s);
  }
}
