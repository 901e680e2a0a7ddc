/** What every cycle keeps: paired labels, the frame of a failed cycle, and knowledge that answers alone teach. */
module CycleLaws {
  import opened AerospikeStat
  import opened SharedState
  import opened StatsRefresher
  import opened Runs
  import opened RequestHistory
  import opened HistogramSwitches
  import opened NamespaceItems
  import NS = NamespaceProcessor
  import Node = NodeProcessor
  import SetsOf = SetsProcessor
  import Index = SindexProcessor
  import XD = XdrProcessor
  import Lat = LatencyProcessor
  import Loop = StatLoop

  // ----- Labels -----

  ghost predicate LabelledItems(ids: Ids, items: CycleItems)
  {
    && Labelled(ids, items.namespaces) && Labelled(ids, items.node) && Labelled(ids, items.sets)
    && Labelled(ids, items.sindex) && Labelled(ids, items.xdr)
  }

  lemma CycleLabelled(env: Env, ids: Ids, sinkCount: nat, keys: Keys, raw: map<string, string>, orders: Orders)
    requires CachedReady(env, ids, keys, raw, orders)
    ensures LabelledItems(ids, ItemsOf(env, ids, sinkCount, keys, raw, orders))
  {
    hide NS.Items, Node.Items, Loop.Items, Labelled, AllNamed, Carries, SetsOf.Jobs, Index.Jobs, XD.Jobs, SetsOf.Pieces;
    ItemsWellMade(env, ids, raw, keys.namespaces, orders.namespaces);
    Node.ItemsCoherent(env, ids, raw, sinkCount, orders.config, orders.statistics);
    Loop.ItemsLabelled(env, ids, SetsOf.Jobs(ids, SetsOf.Pieces(raw)), orders.sets);
    Loop.ItemsLabelled(env, ids, Index.Jobs(ids, raw, keys.sindex), orders.sindex);
    Loop.ItemsLabelled(env, ids, XD.Jobs(ids, raw, keys.xdr), orders.xdr);
  }

  lemma EmissionsLabelled(ids: Ids, c: Caches, items: CycleItems)
    requires LabelledItems(ids, items)
    ensures LabelledStats(ids, EmittedAll(c, items))
  {
    var a, b, d, e, f := Emitted(c.namespaces, items.namespaces), Emitted(c.node, items.node),
      Emitted(c.sets, items.sets),
      Emitted(c.sindex, items.sindex), Emitted(c.xdr, items.xdr);
    hide Emitted, Labelled, LabelledStats;
    LabelledEmissions(ids, c.namespaces, items.namespaces);
    LabelledEmissions(ids, c.node, items.node);
    LabelledEmissions(ids, c.sets, items.sets);
    LabelledEmissions(ids, c.sindex, items.sindex);
    LabelledEmissions(ids, c.xdr, items.xdr);
    LabelledStatsAppend(ids, a, b);
    LabelledStatsAppend(ids, a + b, d);
    LabelledStatsAppend(ids, a + b + d, e);
    LabelledStatsAppend(ids, a + b + d + e, f);
  }

  /** Every stat of a cycle pairs labels and values, and carries the identity of the node that the cycle read. */
  lemma CycleStatsLabelled(env: Env, m: Machine, keys: Keys, raw: map<string, string>, orders: Orders)
    requires RepliesReady(env, m.ids, keys, raw, orders)
    ensures LabelledStats(m.ids, StatsOfCycle(env, m, keys, raw, orders))
  {
    hide CachedReady, ItemsOf, LabelledItems, EmittedAll, LabelledStats, Lat.RefreshStats, Lat.RefreshReady;
    CycleLabelled(env, m.ids, m.sinkCount, keys, raw, orders);
    EmissionsLabelled(m.ids, m.caches, ItemsOf(env, m.ids, m.sinkCount, keys, raw, orders));
    Lat.RefreshLabelled(env, m.ids, keys.latency, raw, orders.latencies);
    LabelledStatsAppend(m.ids, EmittedAll(m.caches, ItemsOf(env, m.ids, m.sinkCount, keys, raw, orders)),
                        Lat.RefreshStats(env, m.ids, keys.latency, raw, orders.latencies));
  }

  /** Hence every stat that a cycle returns has as many label values as labels, if the user statistics have. */
  lemma OutcomePaired(env: Env, m: Machine, s: Step)
    requires StepReady(env, m, s)
    requires s.ambient.users.Fetched? ==> PairedStats(s.ambient.users.stats)
    ensures PairedStats(Outcome(env, m, s).stats)
  {
    hide RepliesReady, StatsOfCycle, LabelledStats, StepKeys, Prepared, Identified, Sanitized;
    if Replied(s) {
      var at := Identified(env, Prepared(m, s.one.values, s.ambient), s.two.values);
      var keys, raw := StepKeys(env, m, s), Sanitized(env, s.two.values);
      CycleStatsLabelled(env, at, keys, raw, s.orders);
      LabelledArePaired(at.ids, StatsOfCycle(env, at, keys, raw, s.orders),
                        if s.ambient.users.Fetched? then s.ambient.users.stats else []);
    }
  }

  // ----- Failed cycles -----

  /** A cycle that fails in its first request changes nothing. One that fails in its second request changes only
      the index-pressure time, the sink count, the service key, and adds empty benchmark maps. */
  lemma FailedCycleFrame(env: Env, m: Machine, s: Step)
    requires StepReady(env, m, s) && !Replied(s)
    ensures Outcome(env, m, s) == Result([], true)
    ensures s.one.Failed? ==> Next(env, m, s) == m && Requests(env, m, s) == [PassOneKeys(env)]
    ensures var after := Next(env, m, s);
            && after == m.(infokeyService := after.infokeyService, previousFetch := after.previousFetch,
                           sinkCount := after.sinkCount,
                           learned := m.learned.(benchmarks := after.learned.benchmarks))
            && (forall ns | ns in m.learned.benchmarks :: ns in after.learned.benchmarks)
            && (forall ns | ns in after.learned.benchmarks ::
                  after.learned.benchmarks[ns] == NS.BenchmarksOf(m.learned.benchmarks, ns))
  {
    hide NS.WithMaps, NS.Names, CommandsReady, PressureDue, Node.Sinks;
    if s.one.Answer? {
      forall ns
        ensures var maps := NS.WithMaps(m.learned.benchmarks, NS.Names(s.one.values));
                && (ns in m.learned.benchmarks ==> ns in maps)
                && (ns in maps ==> maps[ns] == NS.BenchmarksOf(m.learned.benchmarks, ns))
      {
        NS.MapsAt(m.learned.benchmarks, NS.Names(s.one.values), ns);
      }
    }
  }

  // ----- Answers alone teach -----

  /** The replies of the cycles that succeeded, oldest first. */
  function Answered(run: Run): seq<(map<string, string>, map<string, string>)>
  {
    if run == [] then []
    else
      var s := run[|run| - 1];
      Answered(run[..|run| - 1]) + if Replied(s) then [(s.one.values, s.two.values)] else []
  }

  function EventsOf(env: Env, answers: seq<(map<string, string>, map<string, string>)>): seq<Event>
  {
    if answers == [] then []
    else
      var last := answers[|answers| - 1];
      EventsOf(env, answers[..|answers| - 1]) + NameEvents(Sanitized(env, last.1), NS.Names(last.0))
  }

  function ServiceOf(env: Env, answers: seq<(map<string, string>, map<string, string>)>): Benchmarks
  {
    if answers == [] then map[]
    else Node.Learn(env, Sanitized(env, answers[|answers| - 1].1), ServiceOf(env, answers[..|answers| - 1]))
  }

  lemma {:induction false} EventsAreAnswers(env: Env, run: Run)
    ensures Events(env, run) == EventsOf(env, Answered(run))
  {
    hide NameEvents, NS.Names, Sanitized;
    if run != [] {
      EventsAreAnswers(env, run[..|run| - 1]);
      var front := Answered(run[..|run| - 1]);
      assert Replied(run[|run| - 1]) ==> Answered(run)[..|front|] == front;
      assert front + [] == front;
      assert Events(env, run[..|run| - 1]) + [] == Events(env, run[..|run| - 1]);
    }
  }

  lemma AnsweredNext(run: Run)
    requires run != []
    ensures var front, s := Answered(run[..|run| - 1]), run[|run| - 1];
            Answered(run) == if Replied(s) then front + [(s.one.values, s.two.values)] else front
  {
  }

  lemma ServiceSnoc(env: Env, answers: seq<(map<string, string>, map<string, string>)>,
                    last: (map<string, string>, map<string, string>))
    ensures ServiceOf(env, answers + [last]) == Node.Learn(env, Sanitized(env, last.1), ServiceOf(env, answers))
    ensures ServiceOf(env, []) == map[]
  {
    hide Node.Learn, Sanitized;
    assert (answers + [last])[..|answers|] == answers;
  }

  lemma StepLearnsService(env: Env, m: Machine, s: Step)
    requires StepReady(env, m, s)
    ensures Next(env, m, s).service
         == if Replied(s) then Node.Learn(env, Sanitized(env, s.two.values), m.service) else m.service
  {
    StepService(env, m, s);
    hide Next, StepReady, SwitchAll, Sanitized, Node.ConfigOf, Node.StatisticsOf;
  }

  lemma StartsEmpty(env: Env, now: int)
    ensures Possible(env, now, []) && State(env, now, []).service == map[] && Answered([]) == []
            && ServiceOf(env, []) == map[]
  {
  }

  lemma {:induction false} ServiceIsAnswers(env: Env, now: int, run: Run)
    requires Possible(env, now, run)
    ensures State(env, now, run).service == ServiceOf(env, Answered(run))
  {
    hide State, Possible, Next, StepReady, Answered, ServiceOf, Node.Learn, Sanitized;
    if run == [] {
      StartsEmpty(env, now);
    } else {
      var front, s := run[..|run| - 1], run[|run| - 1];
      StateOfRun(env, now, run);
      ServiceIsAnswers(env, now, front);
      StepLearnsService(env, State(env, now, front), s);
      AnsweredNext(run);
      if Replied(s) {
        ServiceSnoc(env, Answered(front), (s.one.values, s.two.values));
      }
    }
  }

  /** What is known depends on the answered replies alone: failed cycles in between, clocks, certificates and
      Go's map orders leave no trace in it, even across two different runs. */
  lemma AnswersAloneTeach(env: Env, now: int, run: Run, now': int, run': Run)
    requires Possible(env, now, run) && Possible(env, now', run') && Answered(run) == Answered(run')
    ensures Same(State(env, now, run).learned, State(env, now', run').learned)
    ensures State(env, now, run).service == State(env, now', run').service
  {
    hide *;
    EventsAreAnswers(env, run);
    EventsAreAnswers(env, run');
    KnowledgeIsHistory(env, now, run);
    KnowledgeIsHistory(env, now', run');
    SameThrough(State(env, now, run).learned, State(env, now', run').learned,
                LearnEvents(env, NOTHING, Events(env, run)));
    ServiceIsAnswers(env, now, run);
    ServiceIsAnswers(env, now', run');
  }

  lemma SameThrough(a: NS.Learned, b: NS.Learned, c: NS.Learned)
    requires Same(a, c) && Same(b, c)
    ensures Same(a, b)
  {
    hide NS.BenchmarksOf;
  }
}
