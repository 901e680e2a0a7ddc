/** Whole runs seen through the OTel executor: scrape cycles, their pushes, collections and exports. */
module OtelRuns {
  import opened Text
  import opened Wrappers
  import opened AerospikeStat
  import opened StatsRefresher
  import opened Runs
  import opened CycleLaws
  import opened MetricKeys
  import opened OtelIndex
  import opened OtelExecutor
  import opened ExportGate
  import Node = NodeProcessor

  /** The user statistics of every cycle pair their labels. */
  ghost predicate UsersPaired(run: Run)
  {
    forall i | 0 <= i < |run| :: run[i].ambient.users.Fetched? ==> PairedStats(run[i].ambient.users.stats)
  }

  lemma OutcomeIsPushable(env: Env, m: Machine, s: Step)
    requires StepReady(env, m, s) && (s.ambient.users.Fetched? ==> PairedStats(s.ambient.users.stats))
    ensures Pushable(Outcome(env, m, s).stats)
  {
    hide Outcome, StepReady;
    OutcomePaired(env, m, s);
  }

  /** The system information that was read after each cycle, and whether its labels pair up. */
  type SystemInfo = seq<Option<seq<Stat>>>

  ghost predicate SystemPaired(run: Run, system: SystemInfo)
  {
    |system| == |run| && forall i | 0 <= i < |system| :: system[i].Some? ==> Pushable(system[i].value)
  }

  /** What the executor pushes for a cycle: the identity is read after the refresh. */
  ghost function StepPushes(cfg: OtelConfig, common: seq<Label>, env: Env, m: Machine, s: Step): seq<Update>
    requires StepReady(env, m, s) && Pushable(Outcome(env, m, s).stats)
  {
    var after := Next(env, m, s);
    CycleUpdates(cfg, common, Outcome(env, m, s), after.ids, after.build, after.nodeId)
  }

  /** All pushes of a run: for every tick those of the cycle, and then those of the system information. */
  ghost function Pushes(cfg: OtelConfig, common: seq<Label>, env: Env, now: int, run: Run,
                        system: SystemInfo): seq<Update>
    requires Possible(env, now, run) && UsersPaired(run) && SystemPaired(run, system)
  {
    if run == [] then []
    else
      var n := |run| - 1;
      OutcomeIsPushable(env, State(env, now, run[..n]), run[n]);
      Pushes(cfg, common, env, now, run[..n], system[..n])
      + StepPushes(cfg, common, env, State(env, now, run[..n]), run[n]) + SystemUpdates(cfg, common, system[n])
  }

  ghost predicate AllGating(cfg: OtelConfig, us: seq<Update>)
  {
    forall i | 0 <= i < |us| :: Gating(cfg, us[i])
  }

  lemma GatingAppend(cfg: OtelConfig, a: seq<Update>, b: seq<Update>)
    requires AllGating(cfg, a) && AllGating(cfg, b)
    ensures AllGating(cfg, a + b)
  {
    hide Gating;
  }

  lemma StepGating(cfg: OtelConfig, common: seq<Label>, env: Env, m: Machine, s: Step, system: Option<seq<Stat>>)
    requires StepReady(env, m, s) && Pushable(Outcome(env, m, s).stats) && (system.Some? ==> Pushable(system.value))
    ensures AllGating(cfg, StepPushes(cfg, common, env, m, s)) && AllGating(cfg, SystemUpdates(cfg, common, system))
  {
    hide Next, Outcome, CycleUpdates, Gating, StepReady, StatUpdates;
    var after := Next(env, m, s);
    CycleUpdatesGating(cfg, common, Outcome(env, m, s), after.ids, after.build, after.nodeId);
    if system.Some? {
      StatUpdatesGating(cfg, common, system.value);
    }
  }

  lemma {:induction false} PushesGating(cfg: OtelConfig, common: seq<Label>, env: Env, now: int, run: Run,
                                        system: SystemInfo)
    requires Possible(env, now, run) && UsersPaired(run) && SystemPaired(run, system)
    ensures AllGating(cfg, Pushes(cfg, common, env, now, run, system))
  {
    hide AllGating, StepPushes, SystemUpdates, Outcome, Next, StepReady;
    if run == [] {
      NothingGating(cfg);
    } else {
      var n := |run| - 1;
      PushesGating(cfg, common, env, now, run[..n], system[..n]);
      var m := State(env, now, run[..n]);
      OutcomeIsPushable(env, m, run[n]);
      StepGating(cfg, common, env, m, run[n], system[n]);
      hide State, Possible;
      var before, step, more := Pushes(cfg, common, env, now, run[..n], system[..n]),
        StepPushes(cfg, common, env, m, run[n]), SystemUpdates(cfg, common, system[n]);
      GatingAppend(cfg, before, step);
      GatingAppend(cfg, before + step, more);
    }
  }

  lemma NothingGating(cfg: OtelConfig)
    ensures AllGating(cfg, [])
  {
  }

  /** End to end, for every run, whatever labels it sends: a collection reports, under every key, the series that was
      pushed first and the value that was pushed last, if the server is connected or the series is the node status. */
  lemma RunIsCollected(cfg: OtelConfig, common: seq<Label>, env: Env, now: int, run: Run, system: SystemInfo,
                       connected: bool, o: Observation)
    requires Possible(env, now, run) && UsersPaired(run) && SystemPaired(run, system)
    ensures var us := Pushes(cfg, common, env, now, run, system);
            && WellFormed(ApplyAll(NEW_INDEX, us))
            && (o in Observe(ApplyAll(NEW_INDEX, us), connected)
                <==> Heard(us, o) && (connected || o.series.name == NodeUpName(cfg)))
  {
    var us := Pushes(cfg, common, env, now, run, system);
    PushesGating(cfg, common, env, now, run, system);
    hide Possible, State, Pushes, ApplyAll, Observe, Heard, NodeUpName, WellFormed, Gating;
    CollectedExactly(cfg, us, connected, o);
  }

  /** If no two of the pushed series share a key, that is the last pushed value of every series; the clean series are
      such a set. */
  lemma UnsharedRunIsCollected(cfg: OtelConfig, common: seq<Label>, env: Env, now: int, run: Run, system: SystemInfo,
                            these: iset<Series>, connected: bool, o: Observation)
    requires Possible(env, now, run) && UsersPaired(run) && SystemPaired(run, system)
    requires Unshared(these) && Over(these, Pushes(cfg, common, env, now, run, system)) && o.series in these
    ensures var us := Pushes(cfg, common, env, now, run, system);
            && WellFormed(ApplyAll(NEW_INDEX, us))
            && (o in Observe(ApplyAll(NEW_INDEX, us), connected)
                <==> (LastValue(us, o.kind, o.series) == Some(o.value)
                      && (connected || o.series.name == NodeUpName(cfg))))
  {
    hide *;
    RunIsCollected(cfg, common, env, now, run, system, connected, o);
    HeardIsLast(these, Pushes(cfg, common, env, now, run, system), o);
  }

  // ----- Clients can make their series collide -----

  /** What two clients send: an encoded version and application. */
  lemma AgentSends(env: Env, ids: Ids, encoded: string, count: string, version: string, app: string)
    requires ':' !in encoded && ':' !in count && TryConvert(env, count).Some? && ',' !in version && ',' !in app
    requires env.lib.decodeBase64(encoded) == Some(Join(["1", version, app], ','))
    ensures var agent := Node.PrintAgent(encoded, count);
            && Node.AgentSafe(env, agent) && agent != "" && |Node.AgentItem(env, ids, agent)| == 1
            && Node.AgentItem(env, ids, agent)[0].labels
              == Node.NODE_LABELS + ["client_library_version", "client_app_id"]
            && Node.AgentItem(env, ids, agent)[0].labelValues == [ids.clusterName, ids.service, version, app]
            && Node.AgentItem(env, ids, agent)[0].built
               == NewStat(env, NodeStats, "user_agent_details", IsMetricAllowed(env, NodeStats, agent))
  {
    assert ',' !in "1";
    Node.AgentDecodes(env, encoded, count, ["1", version, app]);
    assert Node.PrintAgent(encoded, count)[0] == 'u';
    hide Node.UserAgentInfo, Node.AgentSafe, Node.PrintAgent, NewStat, IsMetricAllowed, TryConvert, Join;
  }

  lemma AgentSeries(cfg: OtelConfig, common: seq<Label>, ids: Ids, stat: Stat, version: string, app: string)
    requires stat.labels == Node.NODE_LABELS + ["client_library_version", "client_app_id"]
    requires stat.labelValues == [ids.clusterName, ids.service, version, app]
    ensures SeriesOf(cfg, common, stat) == Series(QualifiedName(cfg, stat),
              IdentityOf(cfg, ids)
                + [Label(Renamed(cfg, "client_library_version"), version), Label(Renamed(cfg, "client_app_id"), app)]
                  + common)
  {
    hide QualifiedName, Renamed;
    var names, values := stat.labels, stat.labelValues;
    assert |names| == 4 && names[0] == "cluster_name" && names[1] == "service";
    assert names[2] == "client_library_version" && names[3] == "client_app_id";
    assert LabelsOf(cfg, names[..0], values[..0]) == [];
    hide LabelsOf;
    LabelsNext(cfg, names, values, 0);
    LabelsNext(cfg, names, values, 1);
    LabelsNext(cfg, names, values, 2);
    LabelsNext(cfg, names, values, 3);
    assert names[..4] == names && values[..4] == values;
  }

  function IdentityOf(cfg: OtelConfig, ids: Ids): seq<Label>
  {
    [Label(Renamed(cfg, "cluster_name"), ids.clusterName), Label(Renamed(cfg, "service"), ids.service)]
  }

  /** Two stats of one kind and name that differ in version and application. */
  lemma VersionsCollide(cfg: OtelConfig, common: seq<Label>, ids: Ids, a: Stat, b: Stat)
    requires a.labels == Node.NODE_LABELS + ["client_library_version", "client_app_id"] && b.labels == a.labels
    requires a.labelValues == [ids.clusterName, ids.service, "1|" + Renamed(cfg, "client_app_id") + "=2", "3"]
    requires b.labelValues == [ids.clusterName, ids.service, "1", "2|" + Renamed(cfg, "client_app_id") + "=3"]
    requires a.context == b.context && a.name == b.name && a.mtype == b.mtype
    ensures |a.labels| <= |a.labelValues| && |b.labels| <= |b.labelValues|
    ensures KindOf(cfg, a) == KindOf(cfg, b) && SeriesOf(cfg, common, a) != SeriesOf(cfg, common, b)
    ensures MetricKey(SeriesOf(cfg, common, a)) == MetricKey(SeriesOf(cfg, common, b))
  {
    var app := Renamed(cfg, "client_app_id");
    hide Renamed, MetricKey, IdentityOf, LabelsOf, NormalizeMetric;
    AgentSeries(cfg, common, ids, a, "1|" + app + "=2", "3");
    AgentSeries(cfg, common, ids, b, "1", "2|" + app + "=3");
    assert QualifiedName(cfg, a) == QualifiedName(cfg, b);
    hide SeriesOf, QualifiedName;
    PipesCollide(Series(QualifiedName(cfg, a), IdentityOf(cfg, ids)), Renamed(cfg, "client_library_version"), app,
                 common);
  }

  lemma AgentStats(env: Env, a: Item, b: Item, p: bool, q: bool)
    requires a.built == NewStat(env, NodeStats, "user_agent_details", p)
             && b.built == NewStat(env, NodeStats, "user_agent_details", q)
    ensures Uncached(a).context == Uncached(b).context && Uncached(a).name == Uncached(b).name
            && Uncached(a).mtype == Uncached(b).mtype
    ensures Uncached(a).labels == a.labels && Uncached(a).labelValues == a.labelValues
    ensures Uncached(b).labels == b.labels && Uncached(b).labelValues == b.labelValues
  {
  }

  lemma NoCommas(app: string)
    requires ',' !in app
    ensures ',' !in "1|" + app + "=2" && ',' !in "2|" + app + "=3" && ',' !in "1" && ',' !in "3"
  {
  }

  lemma HookParts(cfg: OtelConfig, common: seq<Label>, a: Stat, b: Stat)
    requires |a.labels| <= |a.labelValues| && |b.labels| <= |b.labelValues|
    ensures Pushable([a, b])
    ensures StatUpdate(cfg, common, a).hook.kind == KindOf(cfg, a)
            && StatUpdate(cfg, common, a).hook.series == SeriesOf(cfg, common, a)
    ensures StatUpdate(cfg, common, b).hook.kind == KindOf(cfg, b)
            && StatUpdate(cfg, common, b).hook.series == SeriesOf(cfg, common, b)
  {
    hide KindOf, SeriesOf, NormalizeMetric, Truncated;
  }

  /** For instance, two clients with different versions and applications whose user-agent stats are different series,
      but share one instrument: one of the names they send holds a '|' and a '='. */
  lemma AgentsCollide(cfg: OtelConfig, common: seq<Label>, env: Env, ids: Ids, one: string, two: string, count: string)
    requires ':' !in one && ':' !in two && ':' !in count && TryConvert(env, count).Some?
             && ',' !in Renamed(cfg, "client_app_id")
    requires env.lib.decodeBase64(one) == Some(Join(["1", "1|" + Renamed(cfg, "client_app_id") + "=2", "3"], ','))
    requires env.lib.decodeBase64(two) == Some(Join(["1", "1", "2|" + Renamed(cfg, "client_app_id") + "=3"], ','))
    ensures Node.AgentSafe(env, Node.PrintAgent(one, count)) && Node.AgentSafe(env, Node.PrintAgent(two, count))
    ensures var a, b := Node.AgentItem(env, ids, Node.PrintAgent(one, count)),
            Node.AgentItem(env, ids, Node.PrintAgent(two, count));
            && |a| == 1 && |b| == 1 && Pushable([Uncached(a[0]), Uncached(b[0])])
            && var x, y := StatUpdate(cfg, common, Uncached(a[0])).hook, StatUpdate(cfg, common, Uncached(b[0])).hook;
               x.kind == y.kind && x.series != y.series && MetricKey(x.series) == MetricKey(y.series)
  {
    hide *;
    var app := Renamed(cfg, "client_app_id");
    NoCommas(app);
    AgentSends(env, ids, one, count, "1|" + app + "=2", "3");
    AgentSends(env, ids, two, count, "1", "2|" + app + "=3");
    var a, b := Node.AgentItem(env, ids, Node.PrintAgent(one, count))[0],
      Node.AgentItem(env, ids, Node.PrintAgent(two, count))[0];
    AgentStats(env, a, b, IsMetricAllowed(env, NodeStats, Node.PrintAgent(one, count)),
               IsMetricAllowed(env, NodeStats, Node.PrintAgent(two, count)));
    VersionsCollide(cfg, common, ids, Uncached(a), Uncached(b));
    HookParts(cfg, common, Uncached(a), Uncached(b));
  }

  /** The export gate sees one record for each cycle. */
  ghost function Records(env: Env, now: int, run: Run): seq<GateEvent>
    requires Possible(env, now, run)
  {
    if run == [] then []
    else
      var front, s := run[..|run| - 1], run[|run| - 1];
      Records(env, now, front) + [Refreshed(!Outcome(env, State(env, now, front), s).failed)]
  }

  /** A node-up value of 1 is pushed for a cycle exactly when the cycle succeeded. */
  lemma NodeUpTells(cfg: OtelConfig, common: seq<Label>, env: Env, m: Machine, s: Step)
    requires StepReady(env, m, s) && Pushable(Outcome(env, m, s).stats)
    ensures var pushes := StepPushes(cfg, common, env, m, s);
            && |pushes| >= 1 && pushes[0].hook.series.name == NodeUpName(cfg) && !pushes[0].hook.gated
            && pushes[0].value == (if Outcome(env, m, s).failed then 0 else 1)
            && (Outcome(env, m, s).failed ==> |pushes| == 1)
  {
    hide Outcome, Next, StepReady, StatUpdates, NodeUpName, IdentityLabels;
  }

  lemma RecordAt(env: Env, now: int, run: Run, s: Step)
    requires Possible(env, now, run + [s])
    ensures Possible(env, now, run) && StepReady(env, State(env, now, run), s)
    ensures Recorded(Records(env, now, run + [s]))
         == Recorded(Records(env, now, run)) + [!Outcome(env, State(env, now, run), s).failed]
  {
    Snoc(env, now, run, s);
    hide Outcome, Next, StepReady, State, Possible;
    assert (run + [s])[..|run|] == run;
    var records := Records(env, now, run);
    var last := Refreshed(!Outcome(env, State(env, now, run), s).failed);
    assert Records(env, now, run + [s]) == records + [last];
    assert (records + [last])[..|records|] == records;
  }

  /** Right after a cycle: while the server is connected an export is forwarded only if this cycle and the two
      before it succeeded. */
  lemma ForwardedRun(env: Env, now: int, run: Run, s: Step)
    requires Possible(env, now, run + [s]) && Forwards(true, RefreshCount(Records(env, now, run + [s])))
    ensures Possible(env, now, run) && StepReady(env, State(env, now, run), s)
    ensures !Outcome(env, State(env, now, run), s).failed
    ensures LastSucceeded(Recorded(Records(env, now, run)), 2)
  {
    hide Outcome, StepReady, State, Possible, RefreshCount, Recorded, Records, Forwards;
    RecordAt(env, now, run, s);
    ForwardedAfterThree(Records(env, now, run + [s]), true);
    LastSnoc(Recorded(Records(env, now, run)), !Outcome(env, State(env, now, run), s).failed, 3);
  }
}
