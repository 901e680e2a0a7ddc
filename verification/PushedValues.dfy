/** What is pushed to OTel for a stat, in terms of the stat and the configuration, and what a collection then reads. */
module PushedValues {
  import opened Wrappers
  import opened AerospikeStat
  import opened MetricKeys
  import opened OtelIndex
  import opened OtelExecutor
  import opened OtelRuns
  import opened StatsRefresher
  import opened Runs

  // ----- Names -----

  /** Periods, dashes and spaces become underscores, and nothing else changes. */
  predicate IsNormalized(text: string, name: string)
  {
    && |name| == |text|
    && forall i | 0 <= i < |text| ::
         name[i] == if text[i] == '.' || text[i] == '-' || text[i] == ' ' then '_' else text[i]
  }

  lemma {:induction false} Normalizes(text: string)
    ensures IsNormalized(text, NormalizeMetric(text))
  {
    if text != "" {
      Normalizes(text[1..]);
      assert forall i | 0 < i < |text| :: text[i] == text[1..][i - 1];
    }
  }

  /** The name of a context, as it stands in a metric name. */
  predicate IsContextName(context: Context, name: string)
  {
    || (context == Namespace && name == "namespace") || (context == NodeStats && name == "node_stats")
    || (context == Sets && name == "sets") || (context == Sindex && name == "sindex")
    || (context == Xdr && name == "xdr") || (context == Latencies && name == "latencies")
    || (context == Users && name == "users") || (context == SysMemory && name == "sysinfo_memory_stats")
    || (context == SysNetstat && name == "sysinfo_netstat") || (context == SysNetwork && name == "sysinfo_network")
    || (context == SysFilefd && name == "sysinfo_filefd")
  }

  ghost predicate IsQualified(cfg: OtelConfig, stat: Stat, name: string)
  {
    exists context, own | IsContextName(stat.context, context) && IsNormalized(stat.name, own) ::
      name == cfg.metricNamePrefix + cfg.separator + context + cfg.separator + own
  }

  lemma Qualifies(cfg: OtelConfig, stat: Stat)
    ensures IsQualified(cfg, stat, QualifiedName(cfg, stat))
  {
    var context, own := ContextName(stat.context), NormalizeMetric(stat.name);
    Normalizes(stat.name);
    hide IsNormalized, NormalizeMetric;
    var start := cfg.metricNamePrefix + cfg.separator;
    assert start + (context + (cfg.separator + own)) == start + context + cfg.separator + own;
  }

  // ----- Series, kind and value -----

  /** The series of a stat: its own labels, renamed as configured and in order, and the common ones behind them. */
  ghost predicate IsSeriesOf(cfg: OtelConfig, common: seq<Label>, stat: Stat, series: Series)
  {
    && IsQualified(cfg, stat, series.name)
    && |stat.labels| <= |stat.labelValues| && |series.labels| == |stat.labels| + |common|
    && (forall i | 0 <= i < |stat.labels| ::
          && series.labels[i].value == stat.labelValues[i]
          && series.labels[i].key == if stat.labels[i] in cfg.renamedLabels then cfg.renamedLabels[stat.labels[i]]
                                     else stat.labels[i])
    && (forall i | 0 <= i < |common| :: series.labels[|stat.labels| + i] == common[i])
  }

  lemma {:induction false} LabelsAre(cfg: OtelConfig, names: seq<string>, values: seq<string>)
    requires |names| <= |values|
    ensures |LabelsOf(cfg, names, values)| == |names|
    ensures forall i | 0 <= i < |names| ::
              var l := LabelsOf(cfg, names, values)[i];
              && l.value == values[i]
              && l.key == if names[i] in cfg.renamedLabels then cfg.renamedLabels[names[i]] else names[i]
  {
    if names != [] {
      var n := |names| - 1;
      LabelsAre(cfg, names[..n], values[..n]);
    }
  }

  /** The value without its fraction: rounded towards zero. */
  predicate IsWhole(x: real, n: int)
  {
    && (x >= 0.0 ==> n as real <= x < n as real + 1.0)
    && (x < 0.0 ==> n as real - 1.0 < x <= n as real)
  }

  lemma OneWhole(x: real, m: int, n: int)
    requires IsWhole(x, m) && IsWhole(x, n)
    ensures m == n
  {
  }

  /** What is pushed for a stat. */
  ghost predicate IsUpdateFor(cfg: OtelConfig, common: seq<Label>, stat: Stat, u: Update)
  {
    && IsSeriesOf(cfg, common, stat, u.hook.series)
    && (u.hook.kind == Gauge <==> stat.mtype == Gauge || cfg.allMetricsAsGauge)
    && u.hook.gated && IsNormalized("description_" + stat.name, u.hook.desc)
    && IsWhole(stat.value, u.value)
  }

  lemma UpdateIsFor(cfg: OtelConfig, common: seq<Label>, stat: Stat)
    requires |stat.labels| <= |stat.labelValues|
    ensures IsUpdateFor(cfg, common, stat, StatUpdate(cfg, common, stat))
  {
    Qualifies(cfg, stat);
    LabelsAre(cfg, stat.labels, stat.labelValues);
    Normalizes("description_" + stat.name);
    hide IsQualified, QualifiedName, NormalizeMetric, IsNormalized, LabelsOf;
  }

  /** One update for each stat, in order. */
  ghost predicate Pushed(cfg: OtelConfig, common: seq<Label>, stats: seq<Stat>, us: seq<Update>)
  {
    |us| == |stats| && forall i | 0 <= i < |stats| :: IsUpdateFor(cfg, common, stats[i], us[i])
  }

  /** For any list of stats: there is one update for each, and it is for this stat. */
  lemma {:induction false} StatsArePushed(cfg: OtelConfig, common: seq<Label>, stats: seq<Stat>)
    requires Pushable(stats)
    ensures Pushed(cfg, common, stats, StatUpdates(cfg, common, stats))
  {
    hide IsUpdateFor, StatUpdate;
    if stats != [] {
      var n := |stats| - 1;
      StatsArePushed(cfg, common, stats[..n]);
      UpdateIsFor(cfg, common, stats[n]);
    }
  }

  // ----- Collection -----

  ghost predicate SameSlot(u: Update, v: Update)
  {
    u.hook.kind == v.hook.kind && u.hook.series == v.hook.series
  }

  lemma {:induction false} LastOfSeries(us: seq<Update>, n: nat)
    requires n < |us| && forall i | n < i < |us| :: !SameSlot(us[n], us[i])
    ensures LastValue(us, us[n].hook.kind, us[n].hook.series) == Some(us[n].value)
  {
    if n < |us| - 1 {
      assert !SameSlot(us[n], us[|us| - 1]);
      var front := us[..|us| - 1];
      assert forall i | n < i < |front| :: us[i] == front[i];
      LastOfSeries(front, n);
    }
  }

  /** After any history of pushes to series that share no key, and then the stats of a refresh: a collection reports for
      the last stat of a series its value without the fraction, under a name and labels that are those of the stat, and
      nothing else for that series. */
  lemma LastStatIsReported(cfg: OtelConfig, common: seq<Label>, before: seq<Update>, stats: seq<Stat>, us: seq<Update>,
                           n: nat, these: iset<Series>)
    requires Pushed(cfg, common, stats, us) && n < |stats|
    requires forall i | n < i < |us| :: !SameSlot(us[n], us[i])
    requires Unshared(these) && Over(these, before + us)
    ensures var kind, series := us[n].hook.kind, us[n].hook.series;
            && IsSeriesOf(cfg, common, stats[n], series)
            && (kind == Gauge <==> stats[n].mtype == Gauge || cfg.allMetricsAsGauge)
            && KeysFound(ApplyAll(NEW_INDEX, before + us))
            && (forall v :: Observation(kind, series, v) in Observe(ApplyAll(NEW_INDEX, before + us), true)
                            <==> IsWhole(stats[n].value, v))
  {
    var kind, series, all := us[n].hook.kind, us[n].hook.series, before + us;
    assert IsUpdateFor(cfg, common, stats[n], us[n]);
    assert all[|before| + n] == us[n];
    forall i | |before| + n < i < |all|
      ensures !SameSlot(all[|before| + n], all[i])
    {
      assert all[i] == us[i - |before|];
    }
    LastOfSeries(all, |before| + n);
    assert series in these by {
      assert all[|before| + n].hook.series in these;
    }
    hide IsSeriesOf, Over, Unshared, ApplyAll, Observe, LastValue, KeysFound;
    forall v
      ensures KeysFound(ApplyAll(NEW_INDEX, all))
              && (Observation(kind, series, v) in Observe(ApplyAll(NEW_INDEX, all), true)
                  <==> IsWhole(stats[n].value, v))
    {
      ReportsHeard(all, kind, series, v);
      HeardIsLast(these, all, Observation(kind, series, v));
      if IsWhole(stats[n].value, v) {
        OneWhole(stats[n].value, v, us[n].value);
      }
    }
  }

  /** For instance, 7 is what is left of 7.9, and -7 of -7.9. */
  lemma WholeOf(v: int)
    ensures IsWhole(7.9, v) <==> v == 7
    ensures IsWhole(-7.9, v) <==> v == -7
  {
  }

  // ----- Cycles and runs -----

  /** The labels of the node status: the common ones and then the identity of the node, as far as it is known. */
  predicate IsStatusOf(cfg: OtelConfig, common: seq<Label>, failed: bool, ids: Ids, build: string, nodeId: string,
                       labels: seq<Label>)
  {
    if failed && (nodeId == "" || ids.clusterName == "" || ids.service == "") then labels == common
    else
      && |labels| == |common| + 4 && labels[..|common|] == common
      && labels[|common|] == Label(Renamed(cfg, "cluster_name"), ids.clusterName)
      && labels[|common| + 1] == Label(Renamed(cfg, "service"), ids.service)
      && labels[|common| + 2] == Label(Renamed(cfg, "build"), build)
      && labels[|common| + 3] == Label(Renamed(cfg, "node_id"), nodeId)
  }

  /** What is pushed for a cycle: the node status, and if the cycle did not fail all its stats. */
  ghost predicate IsCyclePush(cfg: OtelConfig, common: seq<Label>, result: Result, ids: Ids, build: string,
                              nodeId: string, us: seq<Update>)
  {
    && |us| >= 1
    && us[0].value == (if result.failed then 0 else 1) && us[0].hook.kind == Gauge && !us[0].hook.gated
    && us[0].hook.series.name == cfg.metricNamePrefix + cfg.separator + "node_up"
    && us[0].hook.desc == "Aerospike node active status"
    && IsStatusOf(cfg, common, result.failed, ids, build, nodeId, us[0].hook.series.labels)
    && if result.failed then |us| == 1 else Pushed(cfg, common, result.stats, us[1..])
  }

  lemma StatusIs(cfg: OtelConfig, common: seq<Label>, failed: bool, ids: Ids, build: string, nodeId: string)
    ensures var identity := common + IdentityLabels(cfg, ids, build, nodeId);
            IsStatusOf(cfg, common, failed, ids, build, nodeId,
                       if !failed || (nodeId != "" && ids.clusterName != "" && ids.service != "") then identity
                       else common)
  {
    var identity := common + IdentityLabels(cfg, ids, build, nodeId);
    assert identity[..|common|] == common;
    hide Renamed;
  }

  lemma CycleIsPushed(cfg: OtelConfig, common: seq<Label>, result: Result, ids: Ids, build: string, nodeId: string)
    requires Pushable(result.stats)
    ensures IsCyclePush(cfg, common, result, ids, build, nodeId,
                        CycleUpdates(cfg, common, result, ids, build, nodeId))
  {
    StatsArePushed(cfg, common, result.stats);
    StatusIs(cfg, common, result.failed, ids, build, nodeId);
    hide Pushed, StatUpdates, IdentityLabels, IsStatusOf;
    var us := CycleUpdates(cfg, common, result, ids, build, nodeId);
    if !result.failed {
      assert us[1..] == StatUpdates(cfg, common, result.stats);
    }
  }

  lemma SystemIsPushed(cfg: OtelConfig, common: seq<Label>, stats: Option<seq<Stat>>)
    requires stats.Some? ==> Pushable(stats.value)
    ensures var us := SystemUpdates(cfg, common, stats);
            if stats.Some? then Pushed(cfg, common, stats.value, us) else us == []
  {
    if stats.Some? {
      StatsArePushed(cfg, common, stats.value);
    }
    hide Pushed, StatUpdates;
  }

  /** Over all runs: every tick adds the push of its cycle, under the identity that the cycle has left, and one update
      for each stat of its system information, in this order, and nothing else is pushed. */
  lemma TickIsPushed(cfg: OtelConfig, common: seq<Label>, env: Env, now: int, run: Run, system: SystemInfo)
    requires run != [] && Possible(env, now, run) && UsersPaired(run) && SystemPaired(run, system)
    ensures var n := |run| - 1;
            var m, after := State(env, now, run[..n]), State(env, now, run);
            && Pushable(Outcome(env, m, run[n]).stats)
            && var cycle, more := StepPushes(cfg, common, env, m, run[n]), SystemUpdates(cfg, common, system[n]);
               && Pushes(cfg, common, env, now, run, system)
                  == Pushes(cfg, common, env, now, run[..n], system[..n]) + cycle + more
               && IsCyclePush(cfg, common, Outcome(env, m, run[n]), after.ids, after.build, after.nodeId, cycle)
               && if system[n].Some? then Pushed(cfg, common, system[n].value, more) else more == []
  {
    hide StepReady, Next, Outcome, IsCyclePush, Pushed, CycleUpdates, SystemUpdates, PairedStats, Pushable;
    var n := |run| - 1;
    var m := State(env, now, run[..n]);
    OutcomeIsPushable(env, m, run[n]);
    var after := Next(env, m, run[n]);
    CycleIsPushed(cfg, common, Outcome(env, m, run[n]), after.ids, after.build, after.nodeId);
    SystemIsPushed(cfg, common, system[n]);
  }
}
