/** The latency processor: which histograms to ask for, and what to emit for the replies. */
module LatencyProcessor {
  import opened Text
  import opened Wrappers
  import opened Commons
  import opened AerospikeStat
  import opened SharedState
  import opened LatencyParser
  import opened LatencyLaws
  import LegacyPanics

  // ----- Commands -----

  /** An entry of the namespace benchmark maps, or of the parsed histograms. */
  type Entry = (string, string)

  /** An order in which the entries of nested maps can be walked. */
  ghost predicate IsEntryOrder<V>(order: seq<Entry>, m: map<string, map<string, V>>)
  {
    && (forall e :: e in order <==> e.0 in m && e.1 in m[e.0])
    && (forall i, j | 0 <= i < j < |order| :: order[i] != order[j])
  }

  /** One command per entry. */
  function EntryCommands(benchmarks: map<string, Benchmarks>, order: seq<Entry>): (commands: seq<string>)
    requires forall e | e in order :: e.0 in benchmarks && e.1 in benchmarks[e.0]
    ensures |commands| == |order|
  {
    if order == [] then []
    else
      var e := order[|order| - 1];
      EntryCommands(benchmarks, order[..|order| - 1]) + ["latencies:hist=" + benchmarks[e.0][e.1]]
  }

  function ServiceCommands(benchmarks: Benchmarks, order: seq<string>): (commands: seq<string>)
    requires forall k | k in order :: k in benchmarks
    ensures |commands| == |order|
  {
    if order == [] then []
    else ServiceCommands(benchmarks, order[..|order| - 1]) + ["latencies:hist=" + benchmarks[order[|order| - 1]]]
  }

  /** What getLatenciesCommands returns when it walks the maps in the given orders. */
  function Commands(namespaces: map<string, Benchmarks>, service: Benchmarks, entries: seq<Entry>,
                    stats: seq<string>): seq<string>
    requires forall e | e in entries :: e.0 in namespaces && e.1 in namespaces[e.0]
    requires forall k | k in stats :: k in service
  {
    ["latencies:"] + EntryCommands(namespaces, entries) + ServiceCommands(service, stats)
  }

  lemma {:induction false} EntryCommandAt(benchmarks: map<string, Benchmarks>, order: seq<Entry>, n: nat)
    requires forall e | e in order :: e.0 in benchmarks && e.1 in benchmarks[e.0]
    requires n < |order|
    ensures EntryCommands(benchmarks, order)[n] == "latencies:hist=" + benchmarks[order[n].0][order[n].1]
  {
    if n < |order| - 1 {
      EntryCommandAt(benchmarks, order[..|order| - 1], n);
    }
  }

  lemma EntryCommandsSnoc(benchmarks: map<string, Benchmarks>, order: seq<Entry>, e: Entry)
    requires forall x | x in order + [e] :: x.0 in benchmarks && x.1 in benchmarks[x.0]
    ensures forall x | x in order :: x in order + [e]
    ensures EntryCommands(benchmarks, order + [e])
         == EntryCommands(benchmarks, order) + ["latencies:hist=" + benchmarks[e.0][e.1]]
  {
    assert (order + [e])[..|order|] == order;
  }

  // ----- Emissions -----

  predicate Unfiltered(cfg: Config, op: string)
  {
    && (cfg.latenciesAllowlistEnabled ==> op in cfg.latenciesAllowlist)
    && op !in cfg.latenciesBlocklist
  }

  function WithNamespace(env: Env, ns: string, labels: seq<string>, more: string): seq<string>
  {
    if env.lib.trimSpace(ns) != "" then labels + [more] else labels
  }

  function BucketStat(env: Env, ids: Ids, ns: string, op: string, h: Histogram, i: nat): Stat
    requires i < |h.bucketLabels| && i < |h.bucketValues|
  {
    var name := op + "_" + h.timeUnit + "_bucket";
    UpdateValues(NewStat(env, Latencies, name, IsMetricAllowed(env, Latencies, name)), h.bucketValues[i],
                 WithNamespace(env, ns, ["cluster_name", "service", "le"], "ns"),
                 WithNamespace(env, ns, [ids.clusterName, ids.service, h.bucketLabels[i]], ns))
  }

  function CountStat(env: Env, ids: Ids, ns: string, op: string, h: Histogram): Stat
    requires |h.bucketValues| > 0
  {
    var name := op + "_" + h.timeUnit + "_count";
    UpdateValues(NewStat(env, Latencies, name, IsMetricAllowed(env, Latencies, name)), h.bucketValues[0],
                 WithNamespace(env, ns, ["cluster_name", "service"], "ns"),
                 WithNamespace(env, ns, [ids.clusterName, ids.service], ns))
  }

  predicate Balanced(h: Histogram)
  {
    |h.bucketLabels| == |h.bucketValues| && |h.bucketLabels| > 0 && h.bucketLabels[0] == "+Inf"
  }

  /** The emissions for the first n buckets: the count follows the "+Inf" bucket. */
  function Group(env: Env, ids: Ids, ns: string, op: string, h: Histogram, n: nat): seq<Stat>
    requires Balanced(h) && n <= |h.bucketLabels|
  {
    if n == 0 then []
    else Group(env, ids, ns, op, h, n - 1) + [BucketStat(env, ids, ns, op, h, n - 1)]
         + (if n == 1 then [CountStat(env, ids, ns, op, h)] else [])
  }

  ghost predicate AllBalanced(res: Latencies)
  {
    forall ns | ns in res :: forall op | op in res[ns] :: Balanced(res[ns][op])
  }

  ghost predicate Covers(res: Latencies, order: seq<Entry>)
  {
    forall e | e in order :: e.0 in res && e.1 in res[e.0]
  }

  function Emissions(env: Env, ids: Ids, res: Latencies, order: seq<Entry>): seq<Stat>
    requires AllBalanced(res) && Covers(res, order)
  {
    if order == [] then []
    else
      var (ns, op) := order[|order| - 1];
      assert order[|order| - 1] in order;
      Emissions(env, ids, res, order[..|order| - 1])
      + if Unfiltered(env.cfg, op) then Group(env, ids, ns, op, res[ns][op], |res[ns][op].bucketLabels|) else []
  }

  /** The histograms behind one info key; None is the panic of the legacy parser. */
  function LatencyResult(env: Env, raw: map<string, string>, key: string): Option<Latencies>
  {
    if Get(raw, "latencies:") != "" then Parse(Current, env.lib, Get(raw, key), env.cfg.latencyBucketsCount, map[])
    else Parse(Legacy, env.lib, Get(raw, "latency:"), env.cfg.latencyBucketsCount, map[])
  }

  /** Refresh does not panic on the reply: it is in the current format, or no section of it overruns its labels. */
  predicate LatencySafe(env: Env, raw: map<string, string>)
  {
    Get(raw, "latencies:") == "" ==>
      !LegacyPanics.TextOverruns(env.lib, Get(raw, "latency:"), env.cfg.latencyBucketsCount)
  }

  lemma SafeExactly(env: Env, raw: map<string, string>, key: string)
    ensures LatencyResult(env, raw, key).Some? <==> LatencySafe(env, raw)
  {
    hide Parse, LegacyPanics.TextOverruns;
    CurrentNeverPanics(env.lib, Get(raw, key), env.cfg.latencyBucketsCount, map[]);
    LegacyPanics.LegacyPanicsExactly(env.lib, Get(raw, "latency:"), env.cfg.latencyBucketsCount, map[]);
  }

  lemma {:induction false} ParsedIsBalanced(format: Format, lib: Library, t: string, limit: nat, res: Latencies)
    requires AllBalanced(res) && Parse(format, lib, t, limit, res).Some?
    ensures AllBalanced(Parse(format, lib, t, limit, res).value)
    decreases |t|
  {
    hide ReadBody, ReadHead, Parse, Balanced;
    ParseUnfolds(format, lib, t, limit, res);
    var head := ReadHead(t);
    if head.Body? {
      BodyIsBalanced(format, lib, head.rest, limit);
    }
    match ParseRound(format, lib, t, limit, res)
    case Done =>
    case Crash =>
    case Next(res', rest) => ParsedIsBalanced(format, lib, rest, limit, res');
  }

  lemma BuildIsBalanced(lib: Library, values: Read, labelling: Labelling, limit: nat, timeUnit: string)
    ensures Build(lib, values, labelling, limit, timeUnit).Found?
            ==> Balanced(Build(lib, values, labelling, limit, timeUnit).histogram)
  {
    var fields := Split(values.text, ',');
    if Build(lib, values, labelling, limit, timeUnit).Found? {
      SameLengths(lib, fields, labelling, lib.parseFloat(fields[0]).value, limit, 1);
    }
  }

  lemma BodyIsBalanced(format: Format, lib: Library, t: string, limit: nat)
    ensures ReadBody(format, lib, t, limit).Found? ==> Balanced(ReadBody(format, lib, t, limit).histogram)
  {
    hide Build, Balanced, ReadOpening;
    var opening := ReadOpening(format, t);
    if opening.Opening? {
      BuildIsBalanced(lib, Until(opening.rest, ';'), opening.labelling, limit, opening.timeUnit);
    }
  }

  lemma ResultIsBalanced(env: Env, raw: map<string, string>, key: string)
    requires LatencyResult(env, raw, key).Some?
    ensures AllBalanced(LatencyResult(env, raw, key).value)
  {
    if Get(raw, "latencies:") != "" {
      ParsedIsBalanced(Current, env.lib, Get(raw, key), env.cfg.latencyBucketsCount, map[]);
    } else {
      ParsedIsBalanced(Legacy, env.lib, Get(raw, "latency:"), env.cfg.latencyBucketsCount, map[]);
    }
  }

  /** What Refresh emits for a list of keys, given the order in which each result is walked. */
  function RefreshStats(env: Env, ids: Ids, keys: seq<string>, raw: map<string, string>,
                        orders: seq<seq<Entry>>): seq<Stat>
    requires RefreshReady(env, keys, raw, orders)
  {
    if keys == [] then []
    else
      var n := |keys| - 1;
      ResultIsBalanced(env, raw, keys[n]);
      RefreshStats(env, ids, keys[..n], raw, orders[..n])
        + Emissions(env, ids, LatencyResult(env, raw, keys[n]).value, orders[n])
  }

  ghost predicate RefreshReady(env: Env, keys: seq<string>, raw: map<string, string>, orders: seq<seq<Entry>>)
  {
    |orders| == |keys|
    && forall n | 0 <= n < |keys| ::
         LatencyResult(env, raw, keys[n]).Some? && IsEntryOrder(orders[n], LatencyResult(env, raw, keys[n]).value)
  }

  lemma EmissionsSnoc(env: Env, ids: Ids, res: Latencies, order: seq<Entry>, e: Entry)
    requires AllBalanced(res) && Covers(res, order + [e])
    ensures Covers(res, order) && e.0 in res && e.1 in res[e.0] && Balanced(res[e.0][e.1])
    ensures Emissions(env, ids, res, order + [e]) ==
              Emissions(env, ids, res, order)
              + if Unfiltered(env.cfg, e.1) then Group(env, ids, e.0, e.1, res[e.0][e.1],
                                                       |res[e.0][e.1].bucketLabels|) else []
  {
    assert forall x | x in order :: x in order + [e];
    assert e in order + [e];
    assert (order + [e])[..|order|] == order;
  }

  lemma RefreshStatsSnoc(env: Env, ids: Ids, keys: seq<string>, raw: map<string, string>, orders: seq<seq<Entry>>,
                         key: string, order: seq<Entry>)
    requires RefreshReady(env, keys, raw, orders)
    requires LatencyResult(env, raw, key).Some? && AllBalanced(LatencyResult(env, raw, key).value)
    requires IsEntryOrder(order, LatencyResult(env, raw, key).value)
    ensures RefreshReady(env, keys + [key], raw, orders + [order])
    ensures RefreshStats(env, ids, keys + [key], raw, orders + [order])
         == RefreshStats(env, ids, keys, raw, orders) + Emissions(env, ids, LatencyResult(env, raw, key).value, order)
  {
    hide LatencyResult, Emissions, AllBalanced, IsEntryOrder;
    assert (keys + [key])[..|keys|] == keys && (orders + [order])[..|orders|] == orders;
  }

  lemma NoRefreshStats(env: Env, ids: Ids, raw: map<string, string>)
    ensures RefreshReady(env, [], raw, []) && RefreshStats(env, ids, [], raw, []) == []
  {
  }

  /** What PassTwoKeys returns. */
  function PassTwo(env: Env, build: string, namespaces: map<string, Benchmarks>, service: Benchmarks,
                   entries: seq<Entry>, stats: seq<string>): seq<string>
    requires forall e | e in entries :: e.0 in namespaces && e.1 in namespaces[e.0]
    requires forall k | k in stats :: k in service
  {
    if env.cfg.disableLatenciesMetrics then []
    else
      match BuildAtLeast(env, build, "5.1.0.0")
      case None => []
      case Some(recent) => if recent then Commands(namespaces, service, entries, stats) else ["latency:"]
  }

  class LatencyStatsProcessor {
    const env: Env
    const shared: StatProcessorSharedState

    constructor (env: Env, shared: StatProcessorSharedState)
      ensures this.env == env && this.shared == shared
    {
      this.env, this.shared := env, shared;
    }

    method PassTwoKeys(passOneStats: map<string, string>) returns (keys: seq<string>, ghost entries: seq<Entry>,
                                                                   ghost stats: seq<string>)
      ensures IsEntryOrder(entries, shared.namespaceBenchmarks) && IsOrder(stats, shared.serviceBenchmarks)
      ensures keys == PassTwo(env, Get(passOneStats, "build"), shared.namespaceBenchmarks, shared.serviceBenchmarks,
                              entries, stats)
    {
      var commands;
      commands, entries, stats := GetLatenciesCommands();
      if env.cfg.disableLatenciesMetrics {
        return [], entries, stats;
      }
      var recent := BuildAtLeast(env, Get(passOneStats, "build"), "5.1.0.0");
      if recent.None? {
        return [], entries, stats;
      }
      keys := if recent.value then commands else ["latency:"];
    }

    method GetLatenciesCommands() returns (commands: seq<string>, ghost entries: seq<Entry>, ghost stats: seq<string>)
      ensures IsEntryOrder(entries, shared.namespaceBenchmarks) && IsOrder(stats, shared.serviceBenchmarks)
      ensures commands == Commands(shared.namespaceBenchmarks, shared.serviceBenchmarks, entries, stats)
    {
      hide IsEntryOrder, IsOrder, EntryCommands, ServiceCommands;
      commands, entries := EntryLoop();
      commands := ["latencies:"] + commands;
      var more;
      more, stats := ServiceLoop();
      commands := commands + more;
    }

    method ServiceLoop() returns (commands: seq<string>, ghost stats: seq<string>)
      ensures IsOrder(stats, shared.serviceBenchmarks)
      ensures commands == ServiceCommands(shared.serviceBenchmarks, stats)
    {
      commands, stats := [], [];
      var service, todo := shared.serviceBenchmarks, shared.serviceBenchmarks.Keys;
      while todo != {}
        invariant todo <= service.Keys
        invariant forall k :: k in stats <==> k in service && k !in todo
        invariant forall i, j | 0 <= i < j < |stats| :: stats[i] != stats[j]
        invariant commands == ServiceCommands(service, stats)
        decreases todo
      {
        var stat :| stat in todo;
        commands := commands + ["latencies:hist=" + service[stat]];
        assert (stats + [stat])[..|stats|] == stats;
        stats := stats + [stat];
        todo := todo - {stat};
      }
    }

    method EntryLoop() returns (commands: seq<string>, ghost entries: seq<Entry>)
      ensures IsEntryOrder(entries, shared.namespaceBenchmarks)
      ensures commands == EntryCommands(shared.namespaceBenchmarks, entries)
    {
      commands, entries := [], [];
      var benchmarks := shared.namespaceBenchmarks;
      var todo := benchmarks.Keys;
      while todo != {}
        invariant todo <= benchmarks.Keys
        invariant forall e :: e in entries <==> e.0 in benchmarks && e.0 !in todo && e.1 in benchmarks[e.0]
        invariant forall i, j | 0 <= i < j < |entries| :: entries[i] != entries[j]
        invariant commands == EntryCommands(benchmarks, entries)
        decreases todo
      {
        var ns :| ns in todo;
        todo := todo - {ns};
        var more := benchmarks[ns].Keys;
        while more != {}
          invariant more <= benchmarks[ns].Keys
          invariant forall e ::
                      e in entries <==>
                        e.0 in benchmarks && e.0 !in todo && e.1 in benchmarks[e.0] && !(e.0 == ns && e.1 in more)
          invariant forall i, j | 0 <= i < j < |entries| :: entries[i] != entries[j]
          invariant commands == EntryCommands(benchmarks, entries)
          decreases more
        {
          var stat :| stat in more;
          EntryCommandsSnoc(benchmarks, entries, (ns, stat));
          commands := commands + ["latencies:hist=" + benchmarks[ns][stat]];
          entries := entries + [(ns, stat)];
          more := more - {stat};
        }
      }
    }

    method Refresh(infoKeys: seq<string>, raw: map<string, string>) returns (stats: seq<Stat>,
                                                                             ghost orders: seq<seq<Entry>>)
      requires infoKeys == [] || LatencySafe(env, raw)
      ensures RefreshReady(env, infoKeys, raw, orders)
      ensures stats == RefreshStats(env, shared.GetIds(), infoKeys, raw, orders)
    {
      hide LatencyResult, LatencySafe, Emissions, AllBalanced, IsEntryOrder, RefreshStats, RefreshReady;
      stats, orders := [], [];
      NoRefreshStats(env, shared.GetIds(), raw);
      for n := 0 to |infoKeys|
        invariant RefreshReady(env, infoKeys[..n], raw, orders)
        invariant stats == RefreshStats(env, shared.GetIds(), infoKeys[..n], raw, orders)
      {
        assert infoKeys[n] in infoKeys;
        var more, order := ParseSingleLatenciesKey(infoKeys[n], raw);
        assert infoKeys[..n + 1] == infoKeys[..n] + [infoKeys[n]];
        RefreshStatsSnoc(env, shared.GetIds(), infoKeys[..n], raw, orders, infoKeys[n], order);
        stats, orders := stats + more, orders + [order];
      }
      assert infoKeys[..|infoKeys|] == infoKeys;
    }

    method ParseSingleLatenciesKey(key: string, raw: map<string, string>) returns (stats: seq<Stat>,
                                                                                   ghost order: seq<Entry>)
      requires LatencySafe(env, raw)
      ensures LatencyResult(env, raw, key).Some?
      ensures IsEntryOrder(order, LatencyResult(env, raw, key).value) && AllBalanced(LatencyResult(env, raw, key).value)
      ensures stats == Emissions(env, shared.GetIds(), LatencyResult(env, raw, key).value, order)
    {
      SafeExactly(env, raw, key);
      var res: Latencies;
      if Get(raw, "latencies:") != "" {
        res := ParseLatencyInfo(env.lib, Get(raw, key), env.cfg.latencyBucketsCount);
      } else {
        var out := ParseLatencyInfoLegacy(env.lib, Get(raw, "latency:"), env.cfg.latencyBucketsCount);
        res := out.value;
      }
      ResultIsBalanced(env, raw, key);
      stats, order := EmitAll(res);
    }

    method EmitAll(res: Latencies) returns (stats: seq<Stat>, ghost order: seq<Entry>)
      requires AllBalanced(res)
      ensures IsEntryOrder(order, res)
      ensures stats == Emissions(env, shared.GetIds(), res, order)
    {
      stats, order := [], [];
      var todo := res.Keys;
      while todo != {}
        invariant todo <= res.Keys
        invariant forall e :: e in order <==> e.0 in res && e.0 !in todo && e.1 in res[e.0]
        invariant forall i, j | 0 <= i < j < |order| :: order[i] != order[j]
        invariant stats == Emissions(env, shared.GetIds(), res, order)
        decreases todo
      {
        var ns :| ns in todo;
        todo := todo - {ns};
        var more := res[ns].Keys;
        while more != {}
          invariant more <= res[ns].Keys
          invariant forall e ::
                      e in order <==> e.0 in res && e.0 !in todo && e.1 in res[e.0] && !(e.0 == ns && e.1 in more)
          invariant forall i, j | 0 <= i < j < |order| :: order[i] != order[j]
          invariant stats == Emissions(env, shared.GetIds(), res, order)
          decreases more
        {
          var op :| op in more;
          EmissionsSnoc(env, shared.GetIds(), res, order, (ns, op));
          if Unfiltered(env.cfg, op) {
            var group := EmitGroup(ns, op, res[ns][op]);
            stats := stats + group;
          }
          order := order + [(ns, op)];
          more := more - {op};
        }
      }
    }

    method EmitGroup(ns: string, op: string, h: Histogram) returns (stats: seq<Stat>)
      requires Balanced(h)
      ensures stats == Group(env, shared.GetIds(), ns, op, h, |h.bucketLabels|)
    {
      hide BucketStat, CountStat;
      stats := [];
      var ids := shared.GetIds();
      for i := 0 to |h.bucketLabels|
        invariant stats == Group(env, ids, ns, op, h, i)
      {
        stats := stats + [BucketStat(env, ids, ns, op, h, i)];
        if i == 0 {
          stats := stats + [CountStat(env, ids, ns, op, h)];
        }
      }
    }
  }

  // ----- Shape -----

  predicate IsCount(stat: Stat)
  {
    var suffix := "_count";
    |stat.name| >= |suffix| && stat.name[|stat.name| - |suffix|..] == suffix
  }

  function CountStats(stats: seq<Stat>): nat
  {
    if stats == [] then 0 else CountStats(stats[..|stats| - 1]) + if IsCount(stats[|stats| - 1]) then 1 else 0
  }

  lemma {:induction false} CountsAppend(a: seq<Stat>, b: seq<Stat>)
    ensures CountStats(a + b) == CountStats(a) + CountStats(b)
  {
    if b == [] {
      assert a + b == a;
    } else {
      assert (a + b)[..|a + b| - 1] == a + b[..|b| - 1];
      CountsAppend(a, b[..|b| - 1]);
    }
  }

  lemma SuffixesDiffer(prefix: string)
    ensures var count, bucket := prefix + "_count", prefix + "_bucket";
            count[|count| - 6..] == "_count" && |bucket| >= 6 && bucket[|bucket| - 6..] != "_count"
  {
    var bucket := prefix + "_bucket";
    assert bucket[|bucket| - 6..][0] == 'b';
  }

  lemma BucketIsNoCount(env: Env, ids: Ids, ns: string, op: string, h: Histogram, i: nat)
    requires i < |h.bucketLabels| && i < |h.bucketValues|
    ensures !IsCount(BucketStat(env, ids, ns, op, h, i))
  {
    hide NewStat, WithNamespace, IsMetricAllowed;
    SuffixesDiffer(op + "_" + h.timeUnit);
    assert op + "_" + h.timeUnit + "_bucket" == BucketStat(env, ids, ns, op, h, i).name by {
      NewStatName(env, op + "_" + h.timeUnit + "_bucket");
    }
  }

  lemma CountIsCount(env: Env, ids: Ids, ns: string, op: string, h: Histogram)
    requires |h.bucketValues| > 0
    ensures IsCount(CountStat(env, ids, ns, op, h))
  {
    hide NewStat, WithNamespace, IsMetricAllowed;
    SuffixesDiffer(op + "_" + h.timeUnit);
    NewStatName(env, op + "_" + h.timeUnit + "_count");
  }

  lemma NewStatName(env: Env, name: string)
    ensures forall allowed :: NewStat(env, Latencies, name, allowed).name == name
  {
  }

  lemma {:induction false} GroupCounts(env: Env, ids: Ids, ns: string, op: string, h: Histogram, n: nat)
    requires Balanced(h) && n <= |h.bucketLabels|
    ensures CountStats(Group(env, ids, ns, op, h, n)) == if n == 0 then 0 else 1
  {
    hide IsCount, BucketStat, CountStat;
    if n > 0 {
      GroupCounts(env, ids, ns, op, h, n - 1);
      BucketIsNoCount(env, ids, ns, op, h, n - 1);
      CountIsCount(env, ids, ns, op, h);
      var front, bucket, count := Group(env, ids, ns, op, h, n - 1), BucketStat(env, ids, ns, op, h, n - 1),
        CountStat(env, ids, ns, op, h);
      CountsOne(bucket);
      CountsOne(count);
      assert Group(env, ids, ns, op, h, n) == if n == 1 then front + [bucket] + [count] else front + [bucket];
      CountsAppend(front, [bucket]);
      CountsAppend(front + [bucket], [count]);
    }
  }

  lemma {:induction false} GroupStart(env: Env, ids: Ids, ns: string, op: string, h: Histogram, n: nat)
    requires Balanced(h) && 1 <= n <= |h.bucketLabels|
    ensures var group := Group(env, ids, ns, op, h, n);
            |group| == n + 1 && group[0] == BucketStat(env, ids, ns, op, h, 0)
              && group[1] == CountStat(env, ids, ns, op, h)
  {
    hide BucketStat, CountStat;
    if n > 1 {
      GroupStart(env, ids, ns, op, h, n - 1);
    }
  }

  lemma CountsOne(stat: Stat)
    ensures CountStats([stat]) == if IsCount(stat) then 1 else 0
  {
    assert [stat][..0] == [];
  }

  /** The upper boundary of a bucket. */
  function Boundary(stat: Stat): string
  {
    if |stat.labels| >= 3 && |stat.labelValues| >= 3 && stat.labels[2] == "le" then stat.labelValues[2] else ""
  }

  /** Name, boundary and value of a stat. */
  predicate Says(stat: Stat, name: string, boundary: string, value: real)
  {
    stat.name == name && Boundary(stat) == boundary && stat.value == value
  }

  lemma CountFields(env: Env, ids: Ids, ns: string, op: string, h: Histogram)
    requires |h.bucketValues| > 0
    ensures var count := CountStat(env, ids, ns, op, h);
            IsCount(count) && count.name == op + "_" + h.timeUnit + "_count" && count.value == h.bucketValues[0]
  {
    CountIsCount(env, ids, ns, op, h);
    NewStatName(env, op + "_" + h.timeUnit + "_count");
    hide NewStat, IsMetricAllowed, WithNamespace, IsCount;
  }

  /** Every group holds exactly one count, right behind the le="+Inf" bucket and equal to it. */
  lemma OneCountPerGroup(env: Env, ids: Ids, ns: string, op: string, h: Histogram)
    requires Balanced(h)
    ensures var group := Group(env, ids, ns, op, h, |h.bucketLabels|);
            && CountStats(group) == 1 && |group| == |h.bucketLabels| + 1
            && IsCount(group[1]) && group[1].name == op + "_" + h.timeUnit + "_count"
            && group[1].value == group[0].value && Boundary(group[0]) == "+Inf"
  {
    hide BucketStat, CountStat, IsCount, Group, Boundary;
    GroupCounts(env, ids, ns, op, h, |h.bucketLabels|);
    GroupStart(env, ids, ns, op, h, |h.bucketLabels|);
    CountFields(env, ids, ns, op, h);
    BucketFields(env, ids, ns, op, h, 0);
  }

  lemma {:induction false} GroupAt(env: Env, ids: Ids, ns: string, op: string, h: Histogram, n: nat, i: nat)
    requires Balanced(h) && i < n <= |h.bucketLabels|
    ensures var group := Group(env, ids, ns, op, h, n);
            |group| == n + 1 && group[if i == 0 then 0 else i + 1] == BucketStat(env, ids, ns, op, h, i)
  {
    hide BucketStat, CountStat;
    GroupStart(env, ids, ns, op, h, n);
    if i > 0 {
      GroupStart(env, ids, ns, op, h, n - 1);
      if i < n - 1 {
        GroupAt(env, ids, ns, op, h, n - 1, i);
      }
    }
  }

  /** Every bucket goes out under its own boundary and with its own value, in order. */
  lemma BucketsAreSent(env: Env, ids: Ids, ns: string, op: string, h: Histogram, i: nat)
    requires Balanced(h) && i < |h.bucketLabels|
    ensures var group, at := Group(env, ids, ns, op, h, |h.bucketLabels|), if i == 0 then 0 else i + 1;
            && |group| == |h.bucketLabels| + 1
            && Says(group[at], op + "_" + h.timeUnit + "_bucket", h.bucketLabels[i], h.bucketValues[i])
  {
    GroupAt(env, ids, ns, op, h, |h.bucketLabels|, i);
    BucketFields(env, ids, ns, op, h, i);
    hide *;
  }

  lemma BucketFields(env: Env, ids: Ids, ns: string, op: string, h: Histogram, i: nat)
    requires Balanced(h) && i < |h.bucketLabels|
    ensures Says(BucketStat(env, ids, ns, op, h, i), op + "_" + h.timeUnit
                 + "_bucket", h.bucketLabels[i], h.bucketValues[i])
  {
    NewStatName(env, op + "_" + h.timeUnit + "_bucket");
    hide NewStat, IsMetricAllowed;
  }

  function UnfilteredPairs(cfg: Config, order: seq<Entry>): seq<Entry>
  {
    if order == [] then []
    else UnfilteredPairs(cfg, order[..|order| - 1]) + if Unfiltered(cfg, order[|order| - 1].1) then [order[|order| - 1]]
    else []
  }

  /** In whatever order the result is walked: as many counts as unfiltered pairs of namespace and operation. */
  lemma {:induction false} OneCountPerPair(env: Env, ids: Ids, res: Latencies, order: seq<Entry>)
    requires AllBalanced(res) && Covers(res, order)
    ensures CountStats(Emissions(env, ids, res, order)) == |UnfilteredPairs(env.cfg, order)|
  {
    if order != [] {
      var front, e := order[..|order| - 1], order[|order| - 1];
      assert front + [e] == order;
      EmissionsSnoc(env, ids, res, front, e);
      OneCountPerPair(env, ids, res, front);
      var group := if Unfiltered(env.cfg, e.1) then Group(env, ids, e.0, e.1, res[e.0][e.1],
                                                          |res[e.0][e.1].bucketLabels|) else [];
      CountsAppend(Emissions(env, ids, res, front), group);
      OneCountPerGroup(env, ids, e.0, e.1, res[e.0][e.1]);
    }
  }

  /** Labels and label values pair up in every emission. */
  lemma {:induction false} EmissionsLabelled(env: Env, ids: Ids, res: Latencies, order: seq<Entry>)
    requires AllBalanced(res) && Covers(res, order)
    ensures LabelledStats(ids, Emissions(env, ids, res, order))
  {
    if order != [] {
      var front, e := order[..|order| - 1], order[|order| - 1];
      assert front + [e] == order;
      EmissionsSnoc(env, ids, res, front, e);
      EmissionsLabelled(env, ids, res, front);
      GroupLabelled(env, ids, e.0, e.1, res[e.0][e.1], |res[e.0][e.1].bucketLabels|);
    }
  }

  lemma {:induction false} GroupLabelled(env: Env, ids: Ids, ns: string, op: string, h: Histogram, n: nat)
    requires Balanced(h) && n <= |h.bucketLabels|
    ensures LabelledStats(ids, Group(env, ids, ns, op, h, n))
  {
    hide NewStat, IsMetricAllowed, LabelledStats, BucketStat, CountStat;
    NothingLabelled(ids);
    if n > 0 {
      GroupLabelled(env, ids, ns, op, h, n - 1);
      assert Group(env, ids, ns, op, h, n)
        == Group(env, ids, ns, op, h, n - 1) + [BucketStat(env, ids, ns, op, h, n - 1)]
          + if n == 1 then [CountStat(env, ids, ns, op, h)] else [];
      BucketLabelled(env, ids, ns, op, h, n - 1);
      LabelledStatsAppend(ids, Group(env, ids, ns, op, h, n - 1), [BucketStat(env, ids, ns, op, h, n - 1)]);
      if n == 1 {
        LabelledStatsAppend(ids, Group(env, ids, ns, op, h, n - 1)
                            + [BucketStat(env, ids, ns, op, h, n - 1)], [CountStat(env, ids, ns, op, h)]);
      } else {
        assert Group(env, ids, ns, op, h, n - 1) + [BucketStat(env, ids, ns, op, h, n - 1)] + []
            == Group(env, ids, ns, op, h, n - 1) + [BucketStat(env, ids, ns, op, h, n - 1)];
      }
    }
  }

  lemma BucketLabelled(env: Env, ids: Ids, ns: string, op: string, h: Histogram, i: nat)
    requires Balanced(h) && i < |h.bucketLabels|
    ensures LabelledStats(ids, [BucketStat(env, ids, ns, op, h, i)])
            && LabelledStats(ids, [CountStat(env, ids, ns, op, h)])
  {
    hide NewStat, IsMetricAllowed;
  }

  lemma {:induction false} RefreshLabelled(env: Env, ids: Ids, keys: seq<string>, raw: map<string, string>,
                                           orders: seq<seq<Entry>>)
    requires RefreshReady(env, keys, raw, orders)
    ensures LabelledStats(ids, RefreshStats(env, ids, keys, raw, orders))
  {
    hide LatencyResult, Emissions;
    if keys != [] {
      var n := |keys| - 1;
      ResultIsBalanced(env, raw, keys[n]);
      EmissionsLabelled(env, ids, LatencyResult(env, raw, keys[n]).value, orders[n]);
      RefreshLabelled(env, ids, keys[..n], raw, orders[..n]);
    }
  }
}
