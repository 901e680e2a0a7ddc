/** The node processor: service configuration and statistics, log sinks and user agents. */
module NodeProcessor {
  import opened Text
  import opened Numerals
  import opened Wrappers
  import opened Commons
  import opened AerospikeStat
  import opened SharedState
  import opened HistogramSwitches

  const SERVICE_CONFIG := "get-config:context=service"
  const SERVICE_STATISTICS := "statistics"
  const SERVICE_LOGS := "logs"
  const USER_AGENTS := "user-agents"
  const NODE_LABELS := ["cluster_name", "service"]

  // ----- Keys -----

  function SinkKey(sink: string): string
  {
    "log/" + Split(sink, ':')[0]
  }

  function SinkKeys(sinks: seq<string>): (keys: seq<string>)
    ensures |keys| == |sinks|
  {
    if sinks == [] then [] else SinkKeys(sinks[..|sinks| - 1]) + [SinkKey(sinks[|sinks| - 1])]
  }

  function Sinks(passOne: map<string, string>): seq<string>
  {
    Split(Get(passOne, SERVICE_LOGS), ';')
  }

  function PassTwo(env: Env, passOne: map<string, string>): seq<string>
  {
    [SERVICE_CONFIG, SERVICE_STATISTICS] + SinkKeys(Sinks(passOne))
    + if BuildAtLeast(env, Get(passOne, "build"), "8.1.0.0") == Some(true) then [USER_AGENTS] else []
  }

  // ----- Items -----

  function NodeItem(env: Env, ids: Ids, name: string, value: real): Item
  {
    Item(name, NewStat(env, NodeStats, name, IsMetricAllowed(env, NodeStats, name)), value,
         NODE_LABELS, [ids.clusterName, ids.service])
  }

  function StatItem(env: Env, ids: Ids, stats: map<string, string>, stat: string): seq<Item>
    requires stat in stats
  {
    match TryConvert(env, stats[stat])
    case None => []
    case Some(value) => [NodeItem(env, ids, stat, value)]
  }

  function StatItems(env: Env, ids: Ids, stats: map<string, string>, order: seq<string>): seq<Item>
    requires forall stat | stat in order :: stat in stats
  {
    if order == [] then []
    else StatItems(env, ids, stats, order[..|order| - 1]) + StatItem(env, ids, stats, order[|order| - 1])
  }

  /** Whether one of the first n log sinks is set to a level. */
  predicate SinkAt(raw: map<string, string>, n: nat, level: string)
  {
    exists i | 0 <= i < n :: Contains(SinkText(raw, i), level)
  }

  function SinkText(raw: map<string, string>, i: nat): string
  {
    Get(raw, "log/" + Itoa(i))
  }

  function LogItems(env: Env, ids: Ids, raw: map<string, string>, sinkCount: nat): seq<Item>
  {
    [NodeItem(env, ids, "pseudo_log_debug", if SinkAt(raw, sinkCount, ":DEBUG") then 1.0 else 0.0),
     NodeItem(env, ids, "pseudo_log_detail", if SinkAt(raw, sinkCount, ":DETAIL") then 1.0 else 0.0)]
  }

  /** The text behind the first '='; without one, Go panics. */
  function Behind(s: string): string
    requires '=' in s
  {
    IndexOfAbsent(s, '=');
    s[IndexOf(s, '=') + 1..]
  }

  /** What getUserAgentInfo decodes: version, application and count. None is its error return. */
  function UserAgentInfo(env: Env, agent: string): Option<(string, string, string)>
    requires AgentSafe(env, agent)
  {
    var parts := Split(agent, ':');
    match env.lib.decodeBase64(Behind(parts[0]))
    case None => None
    case Some(info) =>
      var values := Split(info, ',');
      Some((if |values| > 1 then values[1] else "unknown", if |values| > 2 then values[2] else "unknown",
            Behind(parts[1])))
  }

  /** getUserAgentInfo does not panic on the entry. */
  predicate AgentSafe(env: Env, agent: string)
  {
    var parts := Split(agent, ':');
    '=' in parts[0] && (env.lib.decodeBase64(Behind(parts[0])).Some? ==> |parts| >= 2 && '=' in parts[1])
  }

  predicate AgentsSafe(env: Env, agents: seq<string>)
  {
    forall agent | agent in agents :: agent == "" || AgentSafe(env, agent)
  }

  /** The key is the entry as sent, the name is always the same. */
  function AgentItem(env: Env, ids: Ids, agent: string): seq<Item>
    requires agent == "" || AgentSafe(env, agent)
  {
    if agent == "" then []
    else
      match UserAgentInfo(env, agent)
      case None => []
      case Some((version, app, count)) =>
        match TryConvert(env, count)
        case None => []
        case Some(value) =>
          [Item(agent, NewStat(env, NodeStats, "user_agent_details", IsMetricAllowed(env, NodeStats, agent)), value,
                NODE_LABELS + ["client_library_version", "client_app_id"],
                [ids.clusterName, ids.service, version, app])]
  }

  function AgentItems(env: Env, ids: Ids, agents: seq<string>): seq<Item>
    requires AgentsSafe(env, agents)
  {
    if agents == [] then []
    else
      assert agents[|agents| - 1] in agents;
      AgentItems(env, ids, agents[..|agents| - 1]) + AgentItem(env, ids, agents[|agents| - 1])
  }

  function Agents(raw: map<string, string>): seq<string>
  {
    if USER_AGENTS in raw then Split(raw[USER_AGENTS], ';') else []
  }

  function ConfigOf(raw: map<string, string>): map<string, string>
  {
    StatsOf(Get(raw, SERVICE_CONFIG), ';')
  }

  function StatisticsOf(raw: map<string, string>): map<string, string>
  {
    StatsOf(Get(raw, SERVICE_STATISTICS), ';')
  }

  /** The items of a Refresh, in order: configuration, statistics, log sinks, user agents. */
  function Items(env: Env, ids: Ids, raw: map<string, string>, sinkCount: nat, config: seq<string>,
                 statistics: seq<string>): seq<Item>
    requires AgentsSafe(env, Agents(raw))
    requires IsOrder(config, ConfigOf(raw)) && IsOrder(statistics, StatisticsOf(raw))
  {
    StatItems(env, ids, ConfigOf(raw), config) + StatItems(env, ids, StatisticsOf(raw), statistics)
    + LogItems(env, ids, raw, sinkCount) + AgentItems(env, ids, Agents(raw))
  }

  /** What a Refresh leaves in the service benchmarks. */
  function Learn(env: Env, raw: map<string, string>, benchmarks: Benchmarks): Benchmarks
  {
    SwitchAll(env, OfService, StatisticsOf(raw), SwitchAll(env, OfService, ConfigOf(raw), benchmarks))
  }

  lemma StatItemsSnoc(env: Env, ids: Ids, stats: map<string, string>, order: seq<string>, stat: string)
    requires forall x | x in order + [stat] :: x in stats
    ensures (forall x | x in order :: x in stats) && stat in stats
    ensures StatItems(env, ids, stats, order + [stat])
         == StatItems(env, ids, stats, order) + StatItem(env, ids, stats, stat)
  {
    hide StatItem;
    assert forall x | x in order :: x in order + [stat];
    assert stat in order + [stat];
    assert (order + [stat])[..|order|] == order;
  }

  lemma LoopStarts(env: Env, ids: Ids, stats: map<string, string>, benchmarks: Benchmarks)
    ensures StatItems(env, ids, stats, []) == [] && SwitchLoop(env, OfService, stats, [], benchmarks) == benchmarks
  {
  }

  lemma SinkKeysNext(sinks: seq<string>, n: nat)
    requires n < |sinks|
    ensures SinkKeys(sinks[..n + 1]) == SinkKeys(sinks[..n]) + [SinkKey(sinks[n])]
  {
    assert sinks[..n + 1][..n] == sinks[..n];
  }

  lemma AgentItemsNext(env: Env, ids: Ids, agents: seq<string>, n: nat)
    requires n < |agents| && AgentsSafe(env, agents)
    ensures AgentsSafe(env, agents[..n]) && AgentsSafe(env, agents[..n + 1])
            && (agents[n] == "" || AgentSafe(env, agents[n]))
    ensures AgentItems(env, ids, agents[..n + 1]) == AgentItems(env, ids, agents[..n]) + AgentItem(env, ids, agents[n])
  {
    hide AgentItem, AgentSafe;
    assert agents[n] in agents;
    assert agents[..n + 1][..n] == agents[..n];
  }

  class NodeStatsProcessor {
    const env: Env
    const shared: StatProcessorSharedState
    var nodeMetrics: Cache
    var logSinkCount: nat

    constructor (env: Env, shared: StatProcessorSharedState)
      ensures this.env == env && this.shared == shared && nodeMetrics == map[] && logSinkCount == 0
    {
      this.env, this.shared := env, shared;
      nodeMetrics, logSinkCount := map[], 0;
    }

    method PassTwoKeys(passOneStats: map<string, string>) returns (keys: seq<string>)
      modifies this`logSinkCount
      ensures keys == PassTwo(env, passOneStats)
      ensures logSinkCount == |Sinks(passOneStats)|
    {
      var sinkCommands := ParseLogSinkDetails(passOneStats);
      keys := [SERVICE_CONFIG, SERVICE_STATISTICS] + sinkCommands;
      var recent := BuildAtLeast(env, Get(passOneStats, "build"), "8.1.0.0");
      if recent.None? {
        return;
      }
      if recent.value {
        keys := keys + [USER_AGENTS];
      }
    }

    method ParseLogSinkDetails(passOneStats: map<string, string>) returns (commands: seq<string>)
      modifies this`logSinkCount
      ensures commands == SinkKeys(Sinks(passOneStats))
      ensures logSinkCount == |Sinks(passOneStats)|
    {
      hide SinkKeys;
      commands := [];
      var sinks := Sinks(passOneStats);
      logSinkCount := 0;
      assert SinkKeys(sinks[..0]) == [];
      for n := 0 to |sinks|
        invariant commands == SinkKeys(sinks[..n]) && logSinkCount == n
      {
        SinkKeysNext(sinks, n);
        commands := commands + ["log/" + Split(sinks[n], ':')[0]];
        logSinkCount := logSinkCount + 1;
      }
      assert sinks[..|sinks|] == sinks;
    }

    /** Looks a descriptor up, or builds and keeps it, and fills a copy of it. */
    method Emit(item: Item) returns (stat: Stat)
      modifies this`nodeMetrics
      ensures nodeMetrics == Remember(old(nodeMetrics), item)
      ensures stat == Emission(old(nodeMetrics), item)
    {
      if item.key in nodeMetrics {
        stat := nodeMetrics[item.key];
      } else {
        stat := item.built;
        nodeMetrics := nodeMetrics[item.key := stat];
      }
      stat := UpdateValues(stat, item.value, item.labels, item.labelValues);
    }

    /** One round of the stat loop. */
    method RefreshStat(stats: map<string, string>, stat: string) returns (out: seq<Stat>)
      requires stat in stats
      modifies this`nodeMetrics, shared`serviceBenchmarks
      ensures var items := StatItem(env, shared.GetIds(), stats, stat);
              nodeMetrics == CacheAfter(old(nodeMetrics), items) && out == Emitted(old(nodeMetrics), items)
      ensures shared.serviceBenchmarks == Switch(env, OfService, stats, stat, old(shared.serviceBenchmarks))
    {
      MemoNothing(nodeMetrics);
      var pv := TryConvert(env, stats[stat]);
      if pv.None? {
        return [];
      }
      var item := NodeItem(env, shared.GetIds(), stat, pv.value);
      MemoOne(nodeMetrics, item);
      hide CacheAfter, Emitted, NodeItem, Contains, RemoveAll, IsHistogramStat;
      var metric := Emit(item);
      out := [metric];
      if IsHistogramStat(stat) {
        if pv.value == 1.0 {
          var command := stat;
          if Contains(command, "enable-") {
            command := RemoveAll(command, "enable-");
          }
          if Contains(command, "hist-") {
            command := RemoveAll(command, "hist-");
          }
          RemoveAllFixes(stat, "enable-");
          RemoveAllFixes(RemoveAll(stat, "enable-"), "hist-");
          shared.serviceBenchmarks := shared.serviceBenchmarks[stat := command];
        } else {
          shared.serviceBenchmarks := shared.serviceBenchmarks - {stat};
        }
      }
    }

    /** The stat loop over one reply, in the order that Go happens to walk it. */
    method HandleRefresh(text: string) returns (out: seq<Stat>, ghost order: seq<string>)
      modifies this`nodeMetrics, shared`serviceBenchmarks
      ensures IsOrder(order, StatsOf(text, ';'))
      ensures var items := StatItems(env, shared.GetIds(), StatsOf(text, ';'), order);
              nodeMetrics == CacheAfter(old(nodeMetrics), items) && out == Emitted(old(nodeMetrics), items)
      ensures shared.serviceBenchmarks == SwitchAll(env, OfService, StatsOf(text, ';'), old(shared.serviceBenchmarks))
    {
      hide StatItem, CacheAfter, Emitted, Switch, StatItems, SwitchLoop, SwitchAll;
      var stats := ParseStats(text, ';');
      hide StatsOf;
      out, order := [], [];
      LoopStarts(env, shared.GetIds(), stats, shared.serviceBenchmarks);
      MemoNothing(nodeMetrics);
      var todo := stats.Keys;
      while todo != {}
        invariant todo <= stats.Keys
        invariant forall k :: k in order <==> k in stats && k !in todo
        invariant forall i, j | 0 <= i < j < |order| :: order[i] != order[j]
        invariant var items := StatItems(env, shared.GetIds(), stats, order);
                  nodeMetrics == CacheAfter(old(nodeMetrics), items) && out == Emitted(old(nodeMetrics), items)
        invariant shared.serviceBenchmarks == SwitchLoop(env, OfService, stats, order, old(shared.serviceBenchmarks))
        decreases todo
      {
        var stat :| stat in todo;
        StatItemsSnoc(env, shared.GetIds(), stats, order, stat);
        SwitchLoopSnoc(env, OfService, stats, order, stat, old(shared.serviceBenchmarks));
        MemoAppend(old(nodeMetrics), StatItems(env, shared.GetIds(), stats, order),
                   StatItem(env, shared.GetIds(), stats, stat));
        var more := RefreshStat(stats, stat);
        out, order, todo := out + more, order + [stat], todo - {stat};
      }
      SwitchLoopIgnoresOrder(env, OfService, stats, order, old(shared.serviceBenchmarks));
    }

    method HandleLogSinkStats(raw: map<string, string>) returns (out: seq<Stat>)
      modifies this`nodeMetrics
      ensures var items := LogItems(env, shared.GetIds(), raw, logSinkCount);
              nodeMetrics == CacheAfter(old(nodeMetrics), items) && out == Emitted(old(nodeMetrics), items)
    {
      hide CacheAfter, Emitted, NodeItem, Contains, SinkText;
      var debugValue, detailValue := 0.0, 0.0;
      for i := 0 to logSinkCount
        invariant nodeMetrics == old(nodeMetrics)
        invariant debugValue == if SinkAt(raw, i, ":DEBUG") then 1.0 else 0.0
        invariant detailValue == if SinkAt(raw, i, ":DETAIL") then 1.0 else 0.0
      {
        var value := SinkText(raw, i);
        if Contains(value, ":DEBUG") {
          debugValue := 1.0;
        }
        if Contains(value, ":DETAIL") {
          detailValue := 1.0;
        }
      }
      hide SinkAt, CacheAfter, Emitted;
      var first := CreateLogSinkMetric("pseudo_log_debug", debugValue);
      ghost var debug := NodeItem(env, shared.GetIds(), "pseudo_log_debug", debugValue);
      var second := CreateLogSinkMetric("pseudo_log_detail", detailValue);
      ghost var detail := NodeItem(env, shared.GetIds(), "pseudo_log_detail", detailValue);
      MemoAppend(old(nodeMetrics), [debug], [detail]);
      assert LogItems(env, shared.GetIds(), raw, logSinkCount) == [debug] + [detail];
      out := [first] + [second];
    }

    method CreateLogSinkMetric(name: string, value: real) returns (stat: Stat)
      modifies this`nodeMetrics
      ensures var items := [NodeItem(env, shared.GetIds(), name, value)];
              nodeMetrics == CacheAfter(old(nodeMetrics), items) && [stat] == Emitted(old(nodeMetrics), items)
    {
      hide CacheAfter, Emitted, NodeItem;
      var item := NodeItem(env, shared.GetIds(), name, value);
      MemoOne(nodeMetrics, item);
      stat := Emit(item);
    }

    method HandleUserAgentsStats(raw: map<string, string>) returns (out: seq<Stat>)
      requires AgentsSafe(env, Agents(raw))
      modifies this`nodeMetrics
      ensures var items := AgentItems(env, shared.GetIds(), Agents(raw));
              nodeMetrics == CacheAfter(old(nodeMetrics), items) && out == Emitted(old(nodeMetrics), items)
    {
      hide CacheAfter, Emitted, AgentItem, AgentSafe;
      var agents := Agents(raw);
      out := [];
      MemoNothing(nodeMetrics);
      for n := 0 to |agents|
        invariant var items := AgentItems(env, shared.GetIds(), agents[..n]);
                  nodeMetrics == CacheAfter(old(nodeMetrics), items) && out == Emitted(old(nodeMetrics), items)
      {
        AgentItemsNext(env, shared.GetIds(), agents, n);
        MemoAppend(old(nodeMetrics), AgentItems(env, shared.GetIds(), agents[..n]),
                   AgentItem(env, shared.GetIds(), agents[n]));
        var more := HandleAgent(agents[n]);
        out := out + more;
      }
      assert agents[..|agents|] == agents;
    }

    /** One round of the user-agent loop. */
    method HandleAgent(agent: string) returns (out: seq<Stat>)
      requires agent == "" || AgentSafe(env, agent)
      modifies this`nodeMetrics
      ensures var items := AgentItem(env, shared.GetIds(), agent);
              nodeMetrics == CacheAfter(old(nodeMetrics), items) && out == Emitted(old(nodeMetrics), items)
    {
      hide CacheAfter, Emitted, NewStat, IsMetricAllowed, UserAgentInfo, AgentSafe;
      MemoNothing(nodeMetrics);
      if |agent| == 0 {
        return [];
      }
      var info := UserAgentInfo(env, agent);
      if info.None? {
        return [];
      }
      var pv := TryConvert(env, info.value.2);
      if pv.None? {
        return [];
      }
      var item := AgentItem(env, shared.GetIds(), agent)[0];
      MemoOne(nodeMetrics, item);
      var stat := Emit(item);
      out := [stat];
    }

    method Refresh(raw: map<string, string>) returns (out: seq<Stat>, ghost config: seq<string>,
                                                      ghost statistics: seq<string>)
      requires AgentsSafe(env, Agents(raw))
      modifies this`nodeMetrics, shared`serviceBenchmarks
      ensures IsOrder(config, ConfigOf(raw)) && IsOrder(statistics, StatisticsOf(raw))
      ensures var items := Items(env, shared.GetIds(), raw, logSinkCount, config, statistics);
              nodeMetrics == CacheAfter(old(nodeMetrics), items) && out == Emitted(old(nodeMetrics), items)
      ensures shared.serviceBenchmarks == Learn(env, raw, old(shared.serviceBenchmarks))
    {
      hide CacheAfter, Emitted, StatItems, LogItems, AgentItems, AgentsSafe, SwitchAll, StatsOf;
      ghost var c0, ids := nodeMetrics, shared.GetIds();
      out, config := HandleRefresh(Get(raw, SERVICE_CONFIG));
      ghost var a := StatItems(env, ids, ConfigOf(raw), config);
      var more;
      more, statistics := HandleRefresh(Get(raw, SERVICE_STATISTICS));
      ghost var b := StatItems(env, ids, StatisticsOf(raw), statistics);
      MemoAppend(c0, a, b);
      out := out + more;
      more := HandleLogSinkStats(raw);
      ghost var c := LogItems(env, ids, raw, logSinkCount);
      MemoAppend(c0, a + b, c);
      out := out + more;
      ghost var d := AgentItems(env, ids, Agents(raw));
      MemoAppend(c0, a + b + c, d);
      more := HandleUserAgentsStats(raw);
      out := out + more;
    }
  }

  // ----- User agents -----

  function PrintAgent(encoded: string, count: string): string
  {
    "user-agent" + "=" + encoded + ":" + ("count" + "=" + count)
  }

  lemma BehindFirst(name: string, rest: string)
    requires '=' !in name
    ensures '=' in name + "=" + rest && Behind(name + "=" + rest) == rest
  {
    var s := name + "=" + rest;
    assert s == name + ['='] + rest;
    IndexOfAppend(name, '=', rest);
    assert s[|name|] == '=' && s[|name| + 1..] == rest;
  }

  lemma AgentPieces(encoded: string, count: string)
    requires ':' !in encoded && ':' !in count
    ensures Split(PrintAgent(encoded, count), ':') == ["user-agent" + "=" + encoded, "count" + "=" + count]
  {
    var first, second := "user-agent" + "=" + encoded, "count" + "=" + count;
    assert ':' !in "user-agent" && ':' !in "count";
    assert PrintAgent(encoded, count) == first + [':'] + second;
    SplitAppend(first, ':', second);
    SplitAbsent(second, ':');
  }

  /** An entry that the server prints is decoded to version, application and count, padding of the encoded text
      included; fields that old clients do not send read "unknown". */
  lemma AgentDecodes(env: Env, encoded: string, count: string, fields: seq<string>)
    requires ':' !in encoded && ':' !in count && |fields| >= 1 && forall i | 0 <= i < |fields| :: ',' !in fields[i]
    requires env.lib.decodeBase64(encoded) == Some(Join(fields, ','))
    ensures AgentSafe(env, PrintAgent(encoded, count))
    ensures UserAgentInfo(env, PrintAgent(encoded, count))
         == Some((if |fields| > 1 then fields[1] else "unknown", if |fields| > 2 then fields[2] else "unknown", count))
  {
    hide Split, Join, Behind, PrintAgent;
    AgentPieces(encoded, count);
    assert '=' !in "user-agent" && '=' !in "count";
    BehindFirst("user-agent", encoded);
    BehindFirst("count", count);
    SplitOfJoin(fields, ',');
  }

  // ----- The cache -----

  /** The descriptors that belong to the keys of the node cache: user-agent keys hold a '=', stat names do not. */
  function DescriptorOf(env: Env): string -> Stat
  {
    key => NewStat(env, NodeStats, if '=' in key then "user_agent_details" else key,
                   IsMetricAllowed(env, NodeStats, key))
  }

  lemma {:induction false} StatItemsCoherent(env: Env, ids: Ids, text: string, order: seq<string>)
    requires forall stat | stat in order :: stat in StatsOf(text, ';')
    ensures Coherent(DescriptorOf(env), StatItems(env, ids, StatsOf(text, ';'), order))
    ensures Labelled(ids, StatItems(env, ids, StatsOf(text, ';'), order))
  {
    if order != [] {
      StatItemsCoherent(env, ids, text, order[..|order| - 1]);
      ParsedKeysAreClean(text, ';', order[|order| - 1]);
      hide StatsOf;
    }
  }

  lemma AgentKey(env: Env, agent: string)
    requires AgentSafe(env, agent)
    ensures '=' in agent
  {
    if '=' !in agent {
      SplitKeepsAbsence(agent, ':', '=');
    }
  }

  lemma AgentItemCoherent(env: Env, ids: Ids, agent: string)
    requires agent == "" || AgentSafe(env, agent)
    ensures Coherent(DescriptorOf(env), AgentItem(env, ids, agent)) && Labelled(ids, AgentItem(env, ids, agent))
  {
    if agent != "" {
      AgentKey(env, agent);
    }
    NodeLabels(ids);
    hide AgentSafe, UserAgentInfo, NewStat, IsMetricAllowed, Carries;
    forall version, app
      ensures Carries(ids, NODE_LABELS
                      + ["client_library_version", "client_app_id"], [ids.clusterName, ids.service, version, app])
    {
      CarriesMore(ids, NODE_LABELS, [ids.clusterName, ids.service], ["client_library_version", "client_app_id"],
                  [version, app]);
      assert [ids.clusterName, ids.service] + [version, app] == [ids.clusterName, ids.service, version, app];
    }
  }

  lemma NodeLabels(ids: Ids)
    ensures Carries(ids, NODE_LABELS, [ids.clusterName, ids.service])
  {
  }

  lemma {:induction false} AgentItemsCoherent(env: Env, ids: Ids, agents: seq<string>)
    requires AgentsSafe(env, agents)
    ensures Coherent(DescriptorOf(env), AgentItems(env, ids, agents)) && Labelled(ids, AgentItems(env, ids, agents))
  {
    hide AgentItem, AgentSafe, Coherent, Labelled, DescriptorOf;
    if agents == [] {
      NothingCoherent(DescriptorOf(env));
      NothingLabelled(ids);
    } else {
      var front, agent := agents[..|agents| - 1], agents[|agents| - 1];
      assert agent in agents;
      AgentItemsCoherent(env, ids, front);
      AgentItemCoherent(env, ids, agent);
      CoherentAppend(DescriptorOf(env), AgentItems(env, ids, front), AgentItem(env, ids, agent));
      LabelledAppend(ids, AgentItems(env, ids, front), AgentItem(env, ids, agent));
    }
  }

  /** All items of a Refresh build the descriptor that belongs to their key, and pair their labels. */
  lemma ItemsCoherent(env: Env, ids: Ids, raw: map<string, string>, sinkCount: nat, config: seq<string>,
                      statistics: seq<string>)
    requires AgentsSafe(env, Agents(raw))
    requires IsOrder(config, ConfigOf(raw)) && IsOrder(statistics, StatisticsOf(raw))
    ensures Coherent(DescriptorOf(env), Items(env, ids, raw, sinkCount, config, statistics))
    ensures Labelled(ids, Items(env, ids, raw, sinkCount, config, statistics))
  {
    hide AgentsSafe, StatItems, AgentItems, StatsOf, LogItems, Coherent, Labelled, DescriptorOf;
    StatItemsCoherent(env, ids, Get(raw, SERVICE_CONFIG), config);
    StatItemsCoherent(env, ids, Get(raw, SERVICE_STATISTICS), statistics);
    AgentItemsCoherent(env, ids, Agents(raw));
    LogItemsCoherent(env, ids, raw, sinkCount);
    var a, b := StatItems(env, ids, ConfigOf(raw), config), StatItems(env, ids, StatisticsOf(raw), statistics);
    var c, d := LogItems(env, ids, raw, sinkCount), AgentItems(env, ids, Agents(raw));
    CoherentAppend(DescriptorOf(env), a, b);
    CoherentAppend(DescriptorOf(env), a + b, c);
    CoherentAppend(DescriptorOf(env), a + b + c, d);
    LabelledAppend(ids, a, b);
    LabelledAppend(ids, a + b, c);
    LabelledAppend(ids, a + b + c, d);
  }

  lemma LogItemsCoherent(env: Env, ids: Ids, raw: map<string, string>, sinkCount: nat)
    ensures Coherent(DescriptorOf(env), LogItems(env, ids, raw, sinkCount))
            && Labelled(ids, LogItems(env, ids, raw, sinkCount))
  {
    hide NewStat, IsMetricAllowed, SinkAt;
    assert '=' !in "pseudo_log_debug" && '=' !in "pseudo_log_detail";
  }
}
