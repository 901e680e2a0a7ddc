/** What the order of Go's map walks, and the allow and block lists, change in what is pushed to OTel: the order of
    the updates, and nothing. */
module PushOrder {
  import opened AerospikeStat
  import opened StatsRefresher
  import opened Runs
  import opened Permutations
  import opened MapOrder
  import opened MetricKeys
  import opened OtelIndex
  import opened OtelExecutor
  import opened OtelRuns

  lemma UnflaggedUpdate(cfg: OtelConfig, common: seq<Label>, stat: Stat)
    requires |stat.labels| <= |stat.labelValues|
    ensures StatUpdate(cfg, common, Unflagged(stat)) == StatUpdate(cfg, common, stat)
  {
    hide LabelsOf, NormalizeMetric, Truncated;
  }

  /** Every stat is pushed, allowed or blocked, and its flag is not told. */
  lemma {:induction false} BlockedIsPushed(cfg: OtelConfig, common: seq<Label>, stats: seq<Stat>, n: nat)
    requires Pushable(stats) && n < |stats|
    ensures StatUpdates(cfg, common, stats)[n] == StatUpdate(cfg, common, Unflagged(stats[n]))
  {
    hide StatUpdate;
    if n == |stats| - 1 {
      UnflaggedUpdate(cfg, common, stats[n]);
    } else {
      BlockedIsPushed(cfg, common, stats[..|stats| - 1], n);
    }
  }

  ghost function UpdateFor(cfg: OtelConfig, common: seq<Label>): Stat -> seq<Update>
  {
    (stat: Stat) => if |stat.labels| <= |stat.labelValues| then [StatUpdate(cfg, common, stat)] else []
  }

  lemma {:induction false} UpdatesFlat(cfg: OtelConfig, common: seq<Label>, stats: seq<Stat>)
    requires Pushable(stats)
    ensures StatUpdates(cfg, common, stats) == FlatMap(UpdateFor(cfg, common), AllUnflagged(stats))
  {
    hide StatUpdate;
    if stats != [] {
      var front, last := stats[..|stats| - 1], stats[|stats| - 1];
      UpdatesFlat(cfg, common, front);
      UnflaggedUpdate(cfg, common, last);
      FlatMapSnoc(UpdateFor(cfg, common), AllUnflagged(front), Unflagged(last));
    }
  }

  lemma UpdatesPermute(cfg: OtelConfig, common: seq<Label>, a: seq<Stat>, b: seq<Stat>)
    requires Pushable(a) && Pushable(b) && multiset(AllUnflagged(a)) == multiset(AllUnflagged(b))
    ensures multiset(StatUpdates(cfg, common, a)) == multiset(StatUpdates(cfg, common, b))
  {
    hide *;
    UpdatesFlat(cfg, common, a);
    UpdatesFlat(cfg, common, b);
    FlatMapPermutes(UpdateFor(cfg, common), AllUnflagged(a), AllUnflagged(b));
  }

  lemma CycleUpdatesPermute(cfg: OtelConfig, common: seq<Label>, x: Result, y: Result, ids: Ids, build: string,
                            nodeId: string)
    requires Pushable(x.stats) && Pushable(y.stats) && x.failed == y.failed
    requires multiset(AllUnflagged(x.stats)) == multiset(AllUnflagged(y.stats))
    ensures multiset(CycleUpdates(cfg, common, x, ids, build, nodeId))
         == multiset(CycleUpdates(cfg, common, y, ids, build, nodeId))
  {
    hide StatUpdates, AllUnflagged, NodeUpUpdate, IdentityLabels;
    UpdatesPermute(cfg, common, x.stats, y.stats);
  }

  lemma StepPushesPermute(cfg: OtelConfig, common: seq<Label>, env: Env, m: Machine, n: Machine, a: Step, b: Step)
    requires Alike(m, n) && StepReady(env, m, a) && StepReady(env, n, b) && SameButOrders(a, b)
    requires Pushable(Outcome(env, m, a).stats) && Pushable(Outcome(env, n, b).stats)
    ensures multiset(StepPushes(cfg, common, env, m, a)) == multiset(StepPushes(cfg, common, env, n, b))
  {
    hide StepReady, Outcome, Next, CycleUpdates, AllUnflagged, AlikeCaches, Pushable;
    CyclesAlike(env, m, n, a, b);
    var after := Next(env, m, a);
    CycleUpdatesPermute(cfg, common, Outcome(env, m, a), Outcome(env, n, b), after.ids, after.build, after.nodeId);
  }

  lemma UsersAlike(run: Run, other: Run, system: SystemInfo)
    requires RunsSameButOrders(run, other) && UsersPaired(run) && SystemPaired(run, system)
    ensures UsersPaired(other) && SystemPaired(other, system)
  {
    hide PairedStats, Pushable;
  }

  /** Over all runs: two runs that differ only in the orders in which Go walks its maps push the same updates, as
      often. The flags that the orders can decide make no difference. */
  lemma {:induction false} PushesPermute(cfg: OtelConfig, common: seq<Label>, env: Env, now: int, run: Run,
                                         other: Run, system: SystemInfo)
    requires Possible(env, now, run) && Possible(env, now, other) && RunsSameButOrders(run, other)
    requires UsersPaired(run) && SystemPaired(run, system)
    ensures UsersPaired(other) && SystemPaired(other, system)
    ensures multiset(Pushes(cfg, common, env, now, run, system))
         == multiset(Pushes(cfg, common, env, now, other, system))
  {
    hide StepPushes, SystemUpdates, Outcome, Next, StepReady, PairedStats, Pushable, Alike, SameButOrders;
    UsersAlike(run, other, system);
    if run != [] {
      var k := |run| - 1;
      PushesPermute(cfg, common, env, now, run[..k], other[..k], system[..k]);
      var m, n := State(env, now, run[..k]), State(env, now, other[..k]);
      OutcomeIsPushable(env, m, run[k]);
      OutcomeIsPushable(env, n, other[k]);
      OrderLeavesNoTrace(env, now, run[..k], other[..k]);
      StepPushesPermute(cfg, common, env, m, n, run[k], other[k]);
    }
  }
}
