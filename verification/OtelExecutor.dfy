/** The OTel executor: refreshed stats become observable instruments, found by their flattened keys. */
module OtelExecutor {
  import opened Wrappers
  import opened AerospikeStat
  import opened MetricKeys
  import opened OtelIndex
  import opened ExportGate
  import StatsRefresher

  /** The separator is already looked up: a setting other than period or underscore reads as no separator. */
  datatype OtelConfig = OtelConfig(metricNamePrefix: string, separator: string, allMetricsAsGauge: bool,
                                   renamedLabels: map<string, string>)

  // ----- Names and labels -----

  function ContextName(context: Context): string
  {
    match context
    case Namespace => "namespace"
    case NodeStats => "node_stats"
    case Sets => "sets"
    case Sindex => "sindex"
    case Xdr => "xdr"
    case Latencies => "latencies"
    case Users => "users"
    case SysMemory => "sysinfo_memory_stats"
    case SysNetstat => "sysinfo_netstat"
    case SysNetwork => "sysinfo_network"
    case SysFilefd => "sysinfo_filefd"
  }

  function NormalizeMetric(s: string): string
  {
    if s == "" then "" else [if s[0] in ".- " then '_' else s[0]] + NormalizeMetric(s[1..])
  }

  function QualifiedName(cfg: OtelConfig, stat: Stat): string
  {
    cfg.metricNamePrefix + cfg.separator + (ContextName(stat.context) + (cfg.separator + NormalizeMetric(stat.name)))
  }

  function NodeUpName(cfg: OtelConfig): string
  {
    cfg.metricNamePrefix + cfg.separator + "node_up"
  }

  function Renamed(cfg: OtelConfig, name: string): string
  {
    if name in cfg.renamedLabels then cfg.renamedLabels[name] else name
  }

  function LabelsOf(cfg: OtelConfig, names: seq<string>, values: seq<string>): seq<Label>
    requires |names| <= |values|
  {
    if names == [] then []
    else
      var n := |names| - 1;
      LabelsOf(cfg, names[..n], values[..n]) + [Label(Renamed(cfg, names[n]), values[n])]
  }

  /** Go's int64(x): rounds towards zero. */
  function Truncated(x: real): (n: int)
    ensures x >= 0.0 ==> n as real <= x < n as real + 1.0
    ensures x <= 0.0 ==> n as real - 1.0 < x <= n as real
  {
    if x >= 0.0 then x.Floor else -((-x).Floor)
  }

  function IdentityLabels(cfg: OtelConfig, ids: Ids, build: string, nodeId: string): seq<Label>
  {
    [Label(Renamed(cfg, "cluster_name"), ids.clusterName), Label(Renamed(cfg, "service"), ids.service),
     Label(Renamed(cfg, "build"), build), Label(Renamed(cfg, "node_id"), nodeId)]
  }

  // ----- Updates -----

  function SeriesOf(cfg: OtelConfig, common: seq<Label>, stat: Stat): Series
    requires |stat.labels| <= |stat.labelValues|
  {
    Series(QualifiedName(cfg, stat), LabelsOf(cfg, stat.labels, stat.labelValues) + common)
  }

  function KindOf(cfg: OtelConfig, stat: Stat): MetricType
  {
    if stat.mtype == Counter && cfg.allMetricsAsGauge then Gauge else stat.mtype
  }

  function StatUpdate(cfg: OtelConfig, common: seq<Label>, stat: Stat): Update
    requires |stat.labels| <= |stat.labelValues|
  {
    Update(Hook(KindOf(cfg, stat), SeriesOf(cfg, common, stat), NormalizeMetric("description_" + stat.name), true),
           Truncated(stat.value))
  }

  ghost predicate Pushable(stats: seq<Stat>)
  {
    forall i | 0 <= i < |stats| :: |stats[i].labels| <= |stats[i].labelValues|
  }

  function StatUpdates(cfg: OtelConfig, common: seq<Label>, stats: seq<Stat>): (us: seq<Update>)
    requires Pushable(stats)
    ensures |us| == |stats|
  {
    if stats == [] then []
    else StatUpdates(cfg, common, stats[..|stats| - 1]) + [StatUpdate(cfg, common, stats[|stats| - 1])]
  }

  function NodeUpDesc(): string
  {
    "Aerospike node active status"
  }

  function NodeUpUpdate(cfg: OtelConfig, labels: seq<Label>, value: int): Update
  {
    Update(Hook(Gauge, Series(NodeUpName(cfg), labels), NodeUpDesc(), false), value)
  }

  /** What the executor does with the result of a refresh. */
  function CycleUpdates(cfg: OtelConfig, common: seq<Label>, result: StatsRefresher.Result, ids: Ids, build: string,
                        nodeId: string): seq<Update>
    requires Pushable(result.stats)
  {
    var identity := common + IdentityLabels(cfg, ids, build, nodeId);
    if result.failed then
      [NodeUpUpdate(cfg, if nodeId != "" && ids.clusterName != "" && ids.service != "" then identity else common, 0)]
    else [NodeUpUpdate(cfg, identity, 1)] + StatUpdates(cfg, common, result.stats)
  }

  /** What the executor does with system information; None stands for an error. */
  function SystemUpdates(cfg: OtelConfig, common: seq<Label>, stats: Option<seq<Stat>>): seq<Update>
    requires stats.Some? ==> Pushable(stats.value)
  {
    match stats
    case None => []
    case Some(list) => StatUpdates(cfg, common, list)
  }

  lemma StatUpdatesNext(cfg: OtelConfig, common: seq<Label>, stats: seq<Stat>, n: nat)
    requires Pushable(stats) && n < |stats|
    ensures Pushable(stats[..n]) && Pushable(stats[..n + 1])
    ensures StatUpdates(cfg, common, stats[..n + 1])
         == StatUpdates(cfg, common, stats[..n]) + [StatUpdate(cfg, common, stats[n])]
  {
    hide StatUpdate;
    assert stats[..n + 1][..n] == stats[..n];
  }

  lemma LabelsNext(cfg: OtelConfig, names: seq<string>, values: seq<string>, n: nat)
    requires n < |names| <= |values|
    ensures LabelsOf(cfg, names[..n + 1], values[..n + 1])
         == LabelsOf(cfg, names[..n], values[..n]) + [Label(Renamed(cfg, names[n]), values[n])]
  {
    hide Renamed;
    assert names[..n + 1][..n] == names[..n] && values[..n + 1][..n] == values[..n];
  }

  lemma {:induction false} LabelsCut(cfg: OtelConfig, names: seq<string>, values: seq<string>)
    requires |names| <= |values|
    ensures LabelsOf(cfg, names, values) == LabelsOf(cfg, names, values[..|names|])
  {
    if names != [] {
      var n := |names| - 1;
      assert values[..|names|][..n] == values[..n];
    }
  }

  // ----- The executor -----

  datatype Instrument = Instrument(kind: MetricType, name: string, desc: string)

  /** GaugeMetrics and CounterMetrics: an instrument, its labels, and the latest value. */
  class Metric {
    const instrument: Instrument
    const labels: seq<Label>
    var value: int

    constructor (instrument: Instrument, labels: seq<Label>)
      ensures this.instrument == instrument && this.labels == labels && value == 0
    {
      this.instrument, this.labels, value := instrument, labels, 0;
    }
  }

  /** A callback captures its metric; a gated one stays silent while the server is disconnected. */
  datatype Callback = Callback(metric: Metric, gated: bool)

  /** No two keys share a metric, and every metric is of the kind of its map. */
  ghost predicate Apart(gauges: map<string, Metric>, counters: map<string, Metric>)
  {
    && (forall k, l | k in gauges && l in gauges && k != l :: gauges[k] != gauges[l])
    && (forall k, l | k in counters && l in counters && k != l :: counters[k] != counters[l])
    && (forall k | k in gauges :: gauges[k].instrument.kind == Gauge)
    && (forall k | k in counters :: counters[k].instrument.kind == Counter)
  }

  ghost predicate KeptAt(metrics: map<string, Metric>, key: string, metric: Metric)
  {
    key in metrics && metrics[key] == metric
  }

  /** The callback reports the metric that is kept for the registration. */
  ghost predicate Belongs(gauges: map<string, Metric>, counters: map<string, Metric>, callback: Callback, hook: Hook)
  {
    && KeptAt(if hook.kind == Gauge then gauges else counters, MetricKey(hook.series), callback.metric)
    && callback.gated == hook.gated
    && callback.metric.instrument == Instrument(hook.kind, hook.series.name, hook.desc)
    && callback.metric.labels == hook.series.labels
  }

  ghost predicate Linkage(gauges: map<string, Metric>, counters: map<string, Metric>, callbacks: seq<Callback>,
                          hooks: seq<Hook>)
  {
    && Apart(gauges, counters)
    && |callbacks| == |hooks| && forall i | 0 <= i < |hooks| :: Belongs(gauges, counters, callbacks[i], hooks[i])
  }

  ghost function Valued(metrics: map<string, Metric>): map<string, int>
    reads metrics.Values
  {
    map k | k in metrics :: metrics[k].value
  }

  lemma ValuedMore(metrics: map<string, Metric>, key: string, metric: Metric)
    requires key !in metrics && metric.value == 0
    ensures Valued(metrics[key := metric]) == Valued(metrics)[key := 0]
  {
  }

  lemma LinkGauge(gauges: map<string, Metric>, counters: map<string, Metric>, callbacks: seq<Callback>,
                  hooks: seq<Hook>, metric: Metric, hook: Hook)
    requires Linkage(gauges, counters, callbacks, hooks)
    requires hook.kind == Gauge && MetricKey(hook.series) !in gauges && metric !in gauges.Values
    requires metric.instrument == Instrument(Gauge, hook.series.name, hook.desc) && metric.labels == hook.series.labels
    ensures Linkage(gauges[MetricKey(hook.series) := metric], counters, callbacks
                    + [Callback(metric, hook.gated)], hooks + [hook])
  {
    hide MetricKey;
    var more := gauges[MetricKey(hook.series) := metric];
    forall i | 0 <= i < |hooks|
      ensures Belongs(more, counters, callbacks[i], hooks[i])
    {
      assert Belongs(gauges, counters, callbacks[i], hooks[i]);
    }
    assert Belongs(more, counters, Callback(metric, hook.gated), hook);
    hide Belongs;
  }

  lemma LinkCounter(gauges: map<string, Metric>, counters: map<string, Metric>, callbacks: seq<Callback>,
                    hooks: seq<Hook>, metric: Metric, hook: Hook)
    requires Linkage(gauges, counters, callbacks, hooks)
    requires hook.kind == Counter && MetricKey(hook.series) !in counters && metric !in counters.Values
    requires metric.instrument == Instrument(Counter, hook.series.name, hook.desc)
             && metric.labels == hook.series.labels
    ensures Linkage(gauges, counters[MetricKey(hook.series) := metric], callbacks
                    + [Callback(metric, hook.gated)], hooks + [hook])
  {
    hide MetricKey;
    var more := counters[MetricKey(hook.series) := metric];
    forall i | 0 <= i < |hooks|
      ensures Belongs(gauges, more, callbacks[i], hooks[i])
    {
      assert Belongs(gauges, counters, callbacks[i], hooks[i]);
    }
    assert Belongs(gauges, more, Callback(metric, hook.gated), hook);
    hide Belongs;
  }

  /** A metric stands under one key of one map. */
  lemma LinkedApart(gauges: map<string, Metric>, counters: map<string, Metric>, callbacks: seq<Callback>,
                    hooks: seq<Hook>)
    requires Linkage(gauges, counters, callbacks, hooks)
    ensures forall k, l | k in gauges && l in gauges && k != l :: gauges[k] != gauges[l]
    ensures forall k, l | k in counters && l in counters && k != l :: counters[k] != counters[l]
    ensures forall k, l | k in gauges && l in counters :: gauges[k] != counters[l]
  {
    hide Belongs;
  }

  lemma LinkedAt(gauges: map<string, Metric>, counters: map<string, Metric>, callbacks: seq<Callback>, hooks: seq<Hook>,
                 i: nat)
    requires Linkage(gauges, counters, callbacks, hooks) && i < |hooks|
    ensures |callbacks| == |hooks| && Belongs(gauges, counters, callbacks[i], hooks[i])
  {
    hide Belongs;
  }

  class OtelExecutor {
    const cfg: OtelConfig
    const nodeUpMetricName: string
    var gauges: map<string, Metric>
    var counters: map<string, Metric>
    var callbacks: seq<Callback>
    var refreshCounter: int
    ghost var hooks: seq<Hook>
    ghost var events: seq<GateEvent>

    ghost function Metrics(): set<Metric>
      reads this`gauges, this`counters
    {
      gauges.Values + counters.Values
    }

    /** The callbacks and metrics stand for an index. */
    ghost predicate Linked()
      reads this`gauges, this`counters, this`callbacks, this`hooks
    {
      Linkage(gauges, counters, callbacks, hooks) && nodeUpMetricName == NodeUpName(cfg)
    }

    ghost predicate Valid()
      reads this
    {
      Linked() && refreshCounter == RefreshCount(events)
    }

    /** The index that the metrics and callbacks stand for. */
    ghost function View(): Index
      reads this`gauges, this`counters, this`hooks, Metrics()
    {
      Index(Valued(gauges), Valued(counters), hooks)
    }

    constructor (cfg: OtelConfig)
      ensures Valid() && this.cfg == cfg && View() == NEW_INDEX && events == [] && Metrics() == {}
    {
      this.cfg, nodeUpMetricName := cfg, NodeUpName(cfg);
      gauges, counters, callbacks, refreshCounter := map[], map[], [], 0;
      hooks, events := [], [];
    }

    method ConstructMetricKey(metricName: string, labels: seq<Label>) returns (key: string)
      ensures key == MetricKey(Series(metricName, labels))
    {
      key := metricName;
      for n := 0 to |labels|
        invariant key == MetricKey(Series(metricName, labels[..n]))
      {
        assert labels[..n + 1][..n] == labels[..n];
        key := key + "|";
        key := key + labels[n].key;
        key := key + "=";
        key := key + labels[n].value;
        assert key == MetricKey(Series(metricName, labels[..n])) + ['|'] + LabelText(labels[n]);
      }
      assert labels[..|labels|] == labels;
    }

    /** A new gauge with its one callback. */
    method CreateGauge(hook: Hook) returns (metric: Metric)
      requires Linked() && hook.kind == Gauge && MetricKey(hook.series) !in gauges
      modifies this`gauges, this`callbacks, this`hooks
      ensures Linked() && fresh(metric) && Metrics() == old(Metrics()) + {metric}
      ensures gauges == old(gauges)[MetricKey(hook.series) := metric]
      ensures View() == Register(old(View()), hook)
    {
      hide MetricKey;
      var key := MetricKey(hook.series);
      metric := new Metric(Instrument(Gauge, hook.series.name, hook.desc), hook.series.labels);
      callbacks := callbacks + [Callback(metric, hook.gated)];
      gauges := gauges[key := metric];
      hooks := hooks + [hook];
      OneMoreValue(old(gauges), key, metric);
      LinkGauge(old(gauges), old(counters), old(callbacks), old(hooks), metric, hook);
      ValuedMore(old(gauges), key, metric);
      hide Linkage;
    }

    /** A new counter with its one callback. */
    method CreateCounter(hook: Hook) returns (metric: Metric)
      requires Linked() && hook.kind == Counter && MetricKey(hook.series) !in counters
      modifies this`counters, this`callbacks, this`hooks
      ensures Linked() && fresh(metric) && Metrics() == old(Metrics()) + {metric}
      ensures counters == old(counters)[MetricKey(hook.series) := metric]
      ensures View() == Register(old(View()), hook)
    {
      hide MetricKey;
      var key := MetricKey(hook.series);
      metric := new Metric(Instrument(Counter, hook.series.name, hook.desc), hook.series.labels);
      callbacks := callbacks + [Callback(metric, hook.gated)];
      counters := counters[key := metric];
      hooks := hooks + [hook];
      OneMoreValue(old(counters), key, metric);
      LinkCounter(old(gauges), old(counters), old(callbacks), old(hooks), metric, hook);
      ValuedMore(old(counters), key, metric);
      hide Linkage;
    }

    method GetGaugeMetric(key: string, metricName: string, desc: string, labels: seq<Label>) returns (metric: Metric)
      requires Linked() && key == MetricKey(Series(metricName, labels))
      modifies this`gauges, this`callbacks, this`hooks
      ensures Linked() && fresh(Metrics() - old(Metrics())) && metric in Metrics()
      ensures key in gauges && metric == gauges[key]
      ensures View() == Register(old(View()), Hook(Gauge, Series(metricName, labels), desc, true))
    {
      hide MetricKey, Linkage;
      if key in gauges {
        return gauges[key];
      }
      metric := CreateGauge(Hook(Gauge, Series(metricName, labels), desc, true));
    }

    method GetCounterMetric(key: string, metricName: string, desc: string, labels: seq<Label>) returns (metric: Metric)
      requires Linked() && key == MetricKey(Series(metricName, labels))
      modifies this`counters, this`callbacks, this`hooks
      ensures Linked() && fresh(Metrics() - old(Metrics())) && metric in Metrics()
      ensures key in counters && metric == counters[key]
      ensures View() == Register(old(View()), Hook(Counter, Series(metricName, labels), desc, true))
    {
      hide MetricKey, Linkage;
      if key in counters {
        return counters[key];
      }
      metric := CreateCounter(Hook(Counter, Series(metricName, labels), desc, true));
    }

    /** The node-up gauge reports even while the server is disconnected. */
    method GetNodeUpGaugeMetric(key: string, metricName: string, desc: string,
                                labels: seq<Label>) returns (metric: Metric)
      requires Linked() && key == MetricKey(Series(metricName, labels))
      modifies this`gauges, this`callbacks, this`hooks
      ensures Linked() && fresh(Metrics() - old(Metrics())) && metric in Metrics()
      ensures key in gauges && metric == gauges[key]
      ensures View() == Register(old(View()), Hook(Gauge, Series(metricName, labels), desc, false))
    {
      hide MetricKey, Linkage;
      if key in gauges {
        return gauges[key];
      }
      metric := CreateGauge(Hook(Gauge, Series(metricName, labels), desc, false));
    }

    /** value.Store on a metric that is kept under a key: no other series changes. */
    method Store(metric: Metric, value: int, ghost kind: MetricType, ghost key: string)
      requires Linked() && if kind == Gauge then key in gauges && metric == gauges[key]
                           else key in counters && metric == counters[key]
      modifies metric
      ensures Linked() && View() == Put(old(View()), kind, key, value)
    {
      hide MetricKey, Linkage;
      LinkedApart(gauges, counters, callbacks, hooks);
      metric.value := value;
    }

    method SendNodeUp(labels: seq<Label>, value: int)
      requires Linked()
      modifies this`gauges, this`callbacks, this`hooks, Metrics()
      ensures Linked() && fresh(Metrics() - old(Metrics()))
      ensures View() == Apply(old(View()), NodeUpUpdate(cfg, labels, value))
    {
      hide Apply, Linkage, NodeUpName, NodeUpDesc;
      PushNodeUp(nodeUpMetricName, NodeUpDesc(), labels, value);
    }

    method PushNodeUp(metricName: string, desc: string, labels: seq<Label>, value: int)
      requires Linked()
      modifies this`gauges, this`callbacks, this`hooks, Metrics()
      ensures Linked() && fresh(Metrics() - old(Metrics()))
      ensures View() == Apply(old(View()), Update(Hook(Gauge, Series(metricName, labels), desc, false), value))
    {
      hide MetricKey, Linkage, Register, Put;
      var key := ConstructMetricKey(metricName, labels);
      var nodeUpGauge := GetNodeUpGaugeMetric(key, metricName, desc, labels);
      Store(nodeUpGauge, value, Gauge, key);
    }

    method ConstructLabels(stat: Stat, commonLabels: seq<Label>) returns (labels: seq<Label>)
      requires |stat.labels| <= |stat.labelValues|
      ensures labels == SeriesOf(cfg, commonLabels, stat).labels
    {
      hide Renamed;
      labels := [];
      for n := 0 to |stat.labels|
        invariant labels == LabelsOf(cfg, stat.labels[..n], stat.labelValues[..n])
      {
        LabelsNext(cfg, stat.labels, stat.labelValues, n);
        labels := labels + [Label(Renamed(cfg, stat.labels[n]), stat.labelValues[n])];
      }
      assert stat.labels[..|stat.labels|] == stat.labels;
      LabelsCut(cfg, stat.labels, stat.labelValues);
      labels := labels + commonLabels;
    }

    method PushGauge(qualifiedName: string, desc: string, labels: seq<Label>, value: int)
      requires Linked()
      modifies this`gauges, this`callbacks, this`hooks, Metrics()
      ensures Linked() && fresh(Metrics() - old(Metrics()))
      ensures View() == Apply(old(View()), Update(Hook(Gauge, Series(qualifiedName, labels), desc, true), value))
    {
      hide MetricKey, Linkage, Register, Put;
      var metricKey := ConstructMetricKey(qualifiedName, labels);
      var metric := GetGaugeMetric(metricKey, qualifiedName, desc, labels);
      Store(metric, value, Gauge, metricKey);
    }

    method PushCounter(qualifiedName: string, desc: string, labels: seq<Label>, value: int)
      requires Linked()
      modifies this`counters, this`callbacks, this`hooks, Metrics()
      ensures Linked() && fresh(Metrics() - old(Metrics()))
      ensures View() == Apply(old(View()), Update(Hook(Counter, Series(qualifiedName, labels), desc, true), value))
    {
      hide MetricKey, Linkage, Register, Put;
      var metricKey := ConstructMetricKey(qualifiedName, labels);
      var metric := GetCounterMetric(metricKey, qualifiedName, desc, labels);
      Store(metric, value, Counter, metricKey);
    }

    /** One round of the push loop. */
    method PushStat(commonLabels: seq<Label>, stat: Stat)
      requires Linked() && |stat.labels| <= |stat.labelValues|
      modifies this`gauges, this`counters, this`callbacks, this`hooks, Metrics()
      ensures Linked() && fresh(Metrics() - old(Metrics()))
      ensures View() == Apply(old(View()), StatUpdate(cfg, commonLabels, stat))
    {
      hide QualifiedName, LabelsOf, NormalizeMetric, Truncated, Apply, Linkage;
      var qualifiedName := QualifiedName(cfg, stat);
      var desc := NormalizeMetric("description_" + stat.name);
      var labels := ConstructLabels(stat, commonLabels);
      if stat.mtype == Counter {
        if cfg.allMetricsAsGauge {
          PushGauge(qualifiedName, desc, labels, Truncated(stat.value));
        } else {
          PushCounter(qualifiedName, desc, labels, Truncated(stat.value));
        }
      } else {
        PushGauge(qualifiedName, desc, labels, Truncated(stat.value));
      }
    }

    method ProcessAndPushStats(commonLabels: seq<Label>, refreshStats: seq<Stat>)
      requires Linked() && Pushable(refreshStats)
      modifies this`gauges, this`counters, this`callbacks, this`hooks, Metrics()
      ensures Linked() && fresh(Metrics() - old(Metrics()))
      ensures View() == ApplyAll(old(View()), StatUpdates(cfg, commonLabels, refreshStats))
    {
      hide StatUpdate, Apply, ApplyAll, StatUpdates, Valid;
      NothingPushed(cfg, commonLabels, View());
      assert refreshStats[..0] == [];
      for n := 0 to |refreshStats|
        invariant Linked() && fresh(Metrics() - old(Metrics())) && Pushable(refreshStats[..n])
        invariant View() == ApplyAll(old(View()), StatUpdates(cfg, commonLabels, refreshStats[..n]))
      {
        StatUpdatesNext(cfg, commonLabels, refreshStats, n);
        ApplySnoc(old(View()), StatUpdates(cfg, commonLabels, refreshStats[..n]),
                  StatUpdate(cfg, commonLabels, refreshStats[n]));
        PushStat(commonLabels, refreshStats[n]);
      }
      assert refreshStats[..|refreshStats|] == refreshStats;
    }

    /** The refresh failed: the node is down, under its identity if that is known. */
    method ReportDown(commonLabels: seq<Label>, ids: Ids, build: string, nodeId: string)
      requires Linked()
      modifies this`gauges, this`callbacks, this`hooks, Metrics()
      ensures Linked() && fresh(Metrics() - old(Metrics()))
      ensures View() == ApplyAll(old(View()),
                                 CycleUpdates(cfg, commonLabels, StatsRefresher.Result([], true), ids, build, nodeId))
    {
      hide MetricKey, NodeUpUpdate, Apply, ApplyAll, StatUpdates, IdentityLabels, Linkage;
      var labels := IdentityLabels(cfg, ids, build, nodeId);
      if nodeId != "" && ids.clusterName != "" && ids.service != "" {
        OneUpdate(View(), NodeUpUpdate(cfg, commonLabels + labels, 0));
        SendNodeUp(commonLabels + labels, 0);
        return;
      }
      OneUpdate(View(), NodeUpUpdate(cfg, commonLabels, 0));
      SendNodeUp(commonLabels, 0);
    }

    /** The refresh succeeded: the node is up, and so are its stats. */
    method ReportUp(commonLabels: seq<Label>, stats: seq<Stat>, ids: Ids, build: string, nodeId: string)
      requires Valid() && Pushable(stats)
      modifies this, Metrics()
      ensures Valid() && fresh(Metrics() - old(Metrics()))
      ensures View() == ApplyAll(old(View()),
                                 CycleUpdates(cfg, commonLabels, StatsRefresher.Result(stats, false), ids, build,
                                              nodeId))
      ensures events == old(events) + [Refreshed(true)]
    {
      hide MetricKey, NodeUpUpdate, NodeUpName, Apply, ApplyAll, StatUpdates, IdentityLabels, Linkage, RefreshCount;
      ghost var up := NodeUpUpdate(cfg, commonLabels + IdentityLabels(cfg, ids, build, nodeId), 1);
      OneUpdate(View(), up);
      ApplyAppend(View(), [up], StatUpdates(cfg, commonLabels, stats));
      assert CycleUpdates(cfg, commonLabels, StatsRefresher.Result(stats, false), ids, build, nodeId)
        == [up] + StatUpdates(cfg, commonLabels, stats);
      hide CycleUpdates;
      SendNodeUp(commonLabels + IdentityLabels(cfg, ids, build, nodeId), 1);
      RefreshCountNext(events, true);
      refreshCounter := refreshCounter + 1;
      events := events + [Refreshed(true)];
      ProcessAndPushStats(commonLabels, stats);
    }

    /** The result of a refresh: node status, export counter, and the stats themselves. */
    method HandleAerospikeMetrics(commonLabels: seq<Label>, result: StatsRefresher.Result, ids: Ids, build: string,
                                  nodeId: string)
      requires Valid() && Pushable(result.stats)
      modifies this, Metrics()
      ensures Valid() && fresh(Metrics() - old(Metrics()))
      ensures View() == ApplyAll(old(View()), CycleUpdates(cfg, commonLabels, result, ids, build, nodeId))
      ensures events == old(events) + [Refreshed(!result.failed)]
    {
      hide NodeUpUpdate, Apply, ApplyAll, StatUpdates, IdentityLabels, Linkage, RefreshCount;
      if result.failed {
        RefreshCountNext(events, false);
        refreshCounter := 0;
        events := events + [Refreshed(false)];
        ReportDown(commonLabels, ids, build, nodeId);
      } else {
        ReportUp(commonLabels, result.stats, ids, build, nodeId);
      }
    }

    /** System metrics; a failure to read them pushes nothing. */
    method HandleSystemInfoMetrics(commonLabels: seq<Label>, sysInfoRefreshStats: Option<seq<Stat>>)
      requires Linked() && (sysInfoRefreshStats.Some? ==> Pushable(sysInfoRefreshStats.value))
      modifies this`gauges, this`counters, this`callbacks, this`hooks, Metrics()
      ensures Linked() && fresh(Metrics() - old(Metrics()))
      ensures View() == ApplyAll(old(View()), SystemUpdates(cfg, commonLabels, sysInfoRefreshStats))
    {
      if sysInfoRefreshStats.None? {
        return;
      }
      ProcessAndPushStats(commonLabels, sysInfoRefreshStats.value);
    }

    /** Whether the SDK's export request reaches the endpoint. */
    method Export(connected: bool) returns (forwarded: bool)
      requires Valid()
      modifies this`events
      ensures Valid() && events == old(events) + [ExportAsked(connected)]
      ensures forwarded <==> !connected || LastSucceeded(Recorded(events), 3)
    {
      ForwardedAfterThree(events, connected);
      ExportChangesNothing(events, connected);
      hide LastSucceeded, RefreshCount, Recorded;
      events := events + [ExportAsked(connected)];
      if connected && refreshCounter <= 2 {
        return false;
      }
      forwarded := true;
    }

    lemma AllCovered()
      requires Linked()
      ensures |callbacks| == |View().hooks|
      ensures KeysFound(View())
    {
      hide MetricKey;
      assert |callbacks| == |hooks|;
      forall i | 0 <= i < |View().hooks|
        ensures MetricKey(View().hooks[i].series) in View().Values(View().hooks[i].kind)
      {
        LinkedAt(gauges, counters, callbacks, hooks, i);
      }
    }

    /** A collection by the SDK: every callback reports, unless it is gated and the server is disconnected. */
    method Collect(connected: bool) returns (observations: seq<Observation>)
      requires Valid()
      ensures KeysFound(View())
      ensures observations == Observe(View(), connected)
    {
      hide MetricKey, Linkage;
      observations := [];
      AllCovered();
      for n := 0 to |callbacks|
        invariant KeysFound(View())
        invariant observations == ObserveFirst(View(), connected, n)
      {
        LinkedAt(gauges, counters, callbacks, hooks, n);
        var callback := callbacks[n];
        if connected || !callback.gated {
          var metric := callback.metric;
          observations := observations
            + [Observation(metric.instrument.kind, Series(metric.instrument.name, metric.labels), metric.value)];
        }
      }
    }
  }

  lemma OneMoreValue(m: map<string, Metric>, key: string, metric: Metric)
    requires key !in m
    ensures m[key := metric].Values == m.Values + {metric}
  {
    var more := m[key := metric];
    forall x | x in m.Values + {metric}
      ensures x in more.Values
    {
      if x in m.Values {
        var k :| k in m && m[k] == x;
        assert k in more && more[k] == x;
      } else {
        assert more[key] == x;
      }
    }
  }

  lemma NothingPushed(cfg: OtelConfig, common: seq<Label>, index: Index)
    ensures Pushable([]) && ApplyAll(index, StatUpdates(cfg, common, [])) == index
  {
  }

  lemma OneUpdate(index: Index, u: Update)
    ensures ApplyAll(index, [u]) == Apply(index, u)
  {
    assert [u][..0] == [];
    assert ApplyAll(index, []) == index;
    hide Apply;
  }

  // ----- What is seen from outside -----

  /** Ungated are the updates of the node status, and no others. */
  predicate Gating(cfg: OtelConfig, u: Update)
  {
    u.hook.gated <==> u.hook.series.name != NodeUpName(cfg)
  }

  /** No stat of any context is named like the node status. */
  lemma NodeUpApart(cfg: OtelConfig, stat: Stat)
    ensures QualifiedName(cfg, stat) != NodeUpName(cfg)
  {
    var start := cfg.metricNamePrefix + cfg.separator;
    var context := ContextName(stat.context);
    var rest := context + (cfg.separator + NormalizeMetric(stat.name));
    assert (start + rest)[|start|..] == rest && (start + "node_up")[|start|..] == "node_up";
    ContextApart(stat.context);
    assert context <= rest;
  }

  lemma ContextApart(context: Context)
    ensures ContextName(context) != "" && !(ContextName(context) <= "node_up")
  {
    var name := ContextName(context);
    assert context == Namespace ==> name[1] == 'a';
    assert context != Namespace && context != NodeStats ==> name[0] != 'n';
    assert context == NodeStats ==> name[5] == 's';
  }

  lemma {:induction false} StatUpdatesGating(cfg: OtelConfig, common: seq<Label>, stats: seq<Stat>)
    requires Pushable(stats)
    ensures forall i | 0 <= i < |stats| :: Gating(cfg, StatUpdates(cfg, common, stats)[i])
  {
    hide QualifiedName, NodeUpName, LabelsOf, Truncated, NormalizeMetric;
    if stats != [] {
      StatUpdatesGating(cfg, common, stats[..|stats| - 1]);
      NodeUpApart(cfg, stats[|stats| - 1]);
    }
  }

  lemma CycleUpdatesGating(cfg: OtelConfig, common: seq<Label>, result: StatsRefresher.Result, ids: Ids, build: string,
                           nodeId: string)
    requires Pushable(result.stats)
    ensures forall u | u in CycleUpdates(cfg, common, result, ids, build, nodeId) :: Gating(cfg, u)
  {
    hide StatUpdates, NodeUpName, IdentityLabels;
    StatUpdatesGating(cfg, common, result.stats);
  }

  lemma {:induction false} FirstIsOne(us: seq<Update>, kind: MetricType, key: string)
    ensures FirstUnder(us, kind, key).Some?
            ==> exists i :: 0 <= i < |us| && us[i].hook == FirstUnder(us, kind, key).value
  {
    hide MetricKey;
    if us != [] {
      var front := us[..|us| - 1];
      FirstIsOne(front, kind, key);
      if FirstUnder(front, kind, key).Some? {
        var i :| 0 <= i < |front| && front[i].hook == FirstUnder(us, kind, key).value;
        assert us[i].hook == FirstUnder(us, kind, key).value;
      } else if FirstUnder(us, kind, key).Some? {
        assert us[|us| - 1].hook == FirstUnder(us, kind, key).value;
      }
    }
  }

  /** After any updates that the executor makes: a collection reports, under every key, the series that came first and
      the value that came last, if the server is connected or the series is the node status. */
  lemma CollectedExactly(cfg: OtelConfig, us: seq<Update>, connected: bool, o: Observation)
    requires forall i | 0 <= i < |us| :: Gating(cfg, us[i])
    ensures WellFormed(ApplyAll(NEW_INDEX, us))
    ensures o in Observe(ApplyAll(NEW_INDEX, us), connected)
            <==> Heard(us, o) && (connected || o.series.name == NodeUpName(cfg))
  {
    hide ApplyAll, MetricKey, Observe, NodeUpName, FirstUnder, LastUnder;
    ObservedExactly(us, connected, o);
    FirstIsOne(us, o.kind, MetricKey(o.series));
    if Heard(us, o) {
      var i :| 0 <= i < |us| && us[i].hook == FirstUnder(us, o.kind, MetricKey(o.series)).value;
      assert Gating(cfg, us[i]);
    }
  }
}
