/** What the node processor asks for, and what goes out for the replies, in terms of the texts alone. */
module NodeSends {
  import opened Text
  import opened Wrappers
  import opened Commons
  import opened AerospikeStat
  import opened Readings
  import opened Sending
  import opened NodeProcessor
  import LogSinks

  // ----- Requests -----

  /** The build is given, and is known to be recent enough. */
  predicate BuildKnown(lib: Library, build: string, ref: string, recent: bool)
  {
    lib.trimSpace(build) != "" && lib.parsedVersionAtLeast(build, ref) == Some(recent)
  }

  /** Asked for are the service configuration and the statistics, a log key for each sink, and the user agents from
      build 8.1.0.0 on. */
  lemma NodeIsAsked(env: Env, one: map<string, string>, key: string)
    ensures var sinks := Split(Get(one, "logs"), ';');
            && (key in PassTwo(env, one) <==>
                  || key == "get-config:context=service" || key == "statistics"
                  || (exists sink | sink in sinks :: key == "log/" + LogSinks.IdOf(sink))
                  || (key == "user-agents" && BuildKnown(env.lib, Get(one, "build"), "8.1.0.0", true)))
            && |PassTwo(env, one)|
               == 2 + |sinks| + if BuildKnown(env.lib, Get(one, "build"), "8.1.0.0", true) then 1 else 0
  {
    hide Split, SinkKeys, SinkKey, LogSinks.IdOf;
    LogSinks.KeysOfSinks(Sinks(one), key);
    forall sink
      ensures SinkKey(sink) == "log/" + LogSinks.IdOf(sink)
    {
      SinkKeyIs(sink);
    }
  }

  lemma SinkKeyIs(sink: string)
    ensures SinkKey(sink) == "log/" + LogSinks.IdOf(sink)
  {
  }

  // ----- Configuration and statistics -----

  function Sender(env: Env, stats: map<string, string>): string -> bool
  {
    stat => stat in stats && Convertible(env.lib, stats[stat])
  }

  predicate IsIdentity(ids: Ids, labels: seq<string>, values: seq<string>)
  {
    labels == ["cluster_name", "service"] && values == [ids.clusterName, ids.service]
  }

  predicate ItemTells(env: Env, ids: Ids, stats: map<string, string>, stat: string, item: Item)
  {
    && stat in stats && Reads(env.lib, stats[stat], item.value) && item.key == stat
    && Describes(env, NodeStats, stat, item.built) && IsIdentity(ids, item.labels, item.labelValues)
    && (item.built.isAllowed <==> IsMetricAllowed(env, NodeStats, stat))
  }

  lemma NewDescribes(env: Env, name: string, allowed: bool)
    ensures Describes(env, NodeStats, name, NewStat(env, NodeStats, name, allowed))
    ensures NewStat(env, NodeStats, name, allowed).isAllowed == allowed
  {
    hide GetMetricType;
  }

  lemma StatTells(env: Env, ids: Ids, stats: map<string, string>, stat: string)
    requires stat in stats
    ensures var items := StatItem(env, ids, stats, stat);
            if Convertible(env.lib, stats[stat]) then |items| == 1 && ItemTells(env, ids, stats, stat, items[0])
            else items == []
  {
    ConvertsExactly(env, stats[stat]);
    NewDescribes(env, stat, IsMetricAllowed(env, NodeStats, stat));
    hide NewStat, IsMetricAllowed, TryConvert, Reads, Convertible, Describes;
  }

  lemma {:induction false} ReplyTells(env: Env, ids: Ids, stats: map<string, string>, order: seq<string>)
    requires forall stat | stat in order :: stat in stats
    ensures var items, senders := StatItems(env, ids, stats, order), Picked(order, Sender(env, stats));
            |items| == |senders| && forall n | 0 <= n < |items| :: ItemTells(env, ids, stats, senders[n], items[n])
  {
    hide ItemTells, StatItem, Convertible;
    if order != [] {
      var front, last := order[..|order| - 1], order[|order| - 1];
      assert order == front + [last];
      assert last in order;
      ReplyTells(env, ids, stats, front);
      StatTells(env, ids, stats, last);
      PickedSnoc(front, last, Sender(env, stats));
    }
  }

  /** What is sent for a stat of the configuration or the statistics. */
  predicate Tells(env: Env, ids: Ids, stats: map<string, string>, stat: string, s: Stat)
  {
    && stat in stats && Reads(env.lib, stats[stat], s.value) && Describes(env, NodeStats, stat, s)
    && IsIdentity(ids, s.labels, s.labelValues) && (s.isAllowed <==> IsMetricAllowed(env, NodeStats, stat))
  }

  /** For any configuration or statistics reply: one stat is sent for each convertible stat, under its own name and with
      the number that its text reads as, in whatever order the reply is walked. */
  lemma ReplyGoesOut(env: Env, ids: Ids, text: string, order: seq<string>, cache: Cache)
    requires IsOrder(order, StatsOf(text, ';')) && CoherentStore(DescriptorOf(env), cache)
    ensures var stats := StatsOf(text, ';');
            var out, senders := Emitted(cache, StatItems(env, ids, stats, order)), Picked(order, Sender(env, stats));
            && |out| == |senders|
            && (forall n | 0 <= n < |out| :: Tells(env, ids, stats, senders[n], out[n]))
            && (forall stat :: stat in senders <==> stat in stats && Convertible(env.lib, stats[stat]))
            && (forall i, j | 0 <= i < j < |senders| :: senders[i] != senders[j])
  {
    var stats := StatsOf(text, ';');
    StatItemsCoherent(env, ids, text, order);
    hide StatsOf;
    var items, senders := StatItems(env, ids, stats, order), Picked(order, Sender(env, stats));
    ReplyTells(env, ids, stats, order);
    PickedExactly(order, Sender(env, stats));
    assert forall stat :: Sender(env, stats)(stat) <==> stat in stats && Convertible(env.lib, stats[stat]);
    assert forall stat | stat in stats :: stat in order;
    hide DescriptorOf, Reads, Convertible, Picked, Emitted, StatItems, Describes, IsMetricAllowed;
    CoherentCache(DescriptorOf(env), cache, items);
    var out := Emitted(cache, items);
    forall n | 0 <= n < |out|
      ensures Tells(env, ids, stats, senders[n], out[n])
    {
      assert ItemTells(env, ids, stats, senders[n], items[n]);
      assert out[n] == Uncached(items[n]);
      FilledDescribes(env, senders[n], items[n]);
    }
  }

  lemma FilledDescribes(env: Env, name: string, item: Item)
    requires Describes(env, NodeStats, name, item.built)
    ensures Describes(env, NodeStats, name, Uncached(item)) && Uncached(item).isAllowed == item.built.isAllowed
  {
    hide GetMetricType;
  }

  // ----- Log levels and user agents -----

  /** The two log-level stats: debug and detail, 1 if some counted sink is set to the level and 0 otherwise. */
  lemma LevelsGoOut(env: Env, ids: Ids, raw: map<string, string>, sinkCount: nat, cache: Cache)
    requires CoherentStore(DescriptorOf(env), cache)
    ensures var out := Emitted(cache, LogItems(env, ids, raw, sinkCount));
            && |out| == 2
            && out[0].name == "pseudo_log_debug" && out[1].name == "pseudo_log_detail"
            && out[0].value == (if SinkAt(raw, sinkCount, ":DEBUG") then 1.0 else 0.0)
            && out[1].value == (if SinkAt(raw, sinkCount, ":DETAIL") then 1.0 else 0.0)
            && IsIdentity(ids, out[0].labels, out[0].labelValues) && IsIdentity(ids, out[1].labels, out[1].labelValues)
  {
    var items := LogItems(env, ids, raw, sinkCount);
    LogItemsCoherent(env, ids, raw, sinkCount);
    CoherentCache(DescriptorOf(env), cache, items);
    NewDescribes(env, "pseudo_log_debug", IsMetricAllowed(env, NodeStats, "pseudo_log_debug"));
    NewDescribes(env, "pseudo_log_detail", IsMetricAllowed(env, NodeStats, "pseudo_log_detail"));
    hide DescriptorOf, Emitted, SinkAt, NewStat, IsMetricAllowed;
  }

  /** The item of a user-agent entry that decodes and counts. */
  predicate AgentTells(env: Env, ids: Ids, count: string, version: string, app: string, item: Item)
  {
    && Reads(env.lib, count, item.value) && item.built.name == "user_agent_details"
    && item.labels == ["cluster_name", "service", "client_library_version", "client_app_id"]
    && item.labelValues == [ids.clusterName, ids.service, version, app]
  }

  lemma AgentItemTells(env: Env, ids: Ids, agent: string, version: string, app: string, count: string)
    requires agent != "" && AgentSafe(env, agent) && UserAgentInfo(env, agent) == Some((version, app, count))
    requires Convertible(env.lib, count)
    ensures |AgentItem(env, ids, agent)| == 1
            && AgentTells(env, ids, count, version, app, AgentItem(env, ids, agent)[0])
  {
    ConvertsExactly(env, count);
    NewDescribes(env, "user_agent_details", IsMetricAllowed(env, NodeStats, agent));
    hide NewStat, IsMetricAllowed, UserAgentInfo, AgentSafe, Reads, Convertible, TryConvert;
  }

  lemma AgentText(encoded: string, count: string)
    ensures PrintAgent(encoded, count) != ""
  {
    assert PrintAgent(encoded, count)[0] == 'u';
  }

  lemma UncachedAgent(env: Env, ids: Ids, agent: string, cache: Cache)
    requires agent == "" || AgentSafe(env, agent)
    requires CoherentStore(DescriptorOf(env), cache) && |AgentItem(env, ids, agent)| == 1
    ensures |Emitted(cache, AgentItem(env, ids, agent))| == 1
            && Emitted(cache, AgentItem(env, ids, agent))[0] == Uncached(AgentItem(env, ids, agent)[0])
  {
    hide DescriptorOf, AgentItem, AgentSafe, Emitted;
    AgentItemCoherent(env, ids, agent);
    CoherentCache(DescriptorOf(env), cache, AgentItem(env, ids, agent));
  }

  /** What is sent for a printed user-agent entry that decodes and counts: version, application and count. */
  lemma AgentGoesOut(env: Env, ids: Ids, encoded: string, count: string, fields: seq<string>, cache: Cache)
    requires ':' !in encoded && ':' !in count && |fields| >= 1 && forall i | 0 <= i < |fields| :: ',' !in fields[i]
    requires env.lib.decodeBase64(encoded) == Some(Join(fields, ',')) && Convertible(env.lib, count)
    requires CoherentStore(DescriptorOf(env), cache)
    ensures var agent := PrintAgent(encoded, count);
            && AgentSafe(env, agent)
            && var out := Emitted(cache, AgentItem(env, ids, agent));
               && |out| == 1 && out[0].name == "user_agent_details" && Reads(env.lib, count, out[0].value)
               && out[0].labels == ["cluster_name", "service", "client_library_version", "client_app_id"]
               && out[0].labelValues
                  == [ids.clusterName, ids.service, if |fields| > 1 then fields[1] else "unknown",
                      if |fields| > 2 then fields[2] else "unknown"]
  {
    var agent := PrintAgent(encoded, count);
    hide DescriptorOf, Emitted, UserAgentInfo, AgentSafe, PrintAgent, Reads, Convertible, Join, AgentItem;
    AgentDecodes(env, encoded, count, fields);
    AgentText(encoded, count);
    AgentItemTells(env, ids, agent, if |fields| > 1 then fields[1] else "unknown",
                   if |fields| > 2 then fields[2] else "unknown", count);
    UncachedAgent(env, ids, agent, cache);
  }

  /** An entry that does not decode, or whose count is no number, sends nothing. */
  lemma AgentIsSkipped(env: Env, ids: Ids, encoded: string, count: string, cache: Cache)
    requires ':' !in encoded && ':' !in count
    requires env.lib.decodeBase64(encoded) == None || !Convertible(env.lib, count)
    ensures var agent := PrintAgent(encoded, count);
            AgentSafe(env, agent) && Emitted(cache, AgentItem(env, ids, agent)) == []
  {
    var agent := PrintAgent(encoded, count);
    ConvertsExactly(env, count);
    AgentPieces(encoded, count);
    assert '=' !in "user-agent" && '=' !in "count";
    BehindFirst("user-agent", encoded);
    BehindFirst("count", count);
    MemoNothing(cache);
    hide Split, Behind, PrintAgent, NewStat, IsMetricAllowed, TryConvert, Convertible, Emitted;
  }

  lemma {:induction false} AgentsAreFlat(env: Env, ids: Ids, agents: seq<string>)
    requires AgentsSafe(env, agents)
    ensures AgentItems(env, ids, agents) == Flat(AgentParts(env, ids, agents))
  {
    hide AgentSafe, AgentItem;
    if agents != [] {
      var n := |agents| - 1;
      assert agents[n] in agents;
      AgentsAreFlat(env, ids, agents[..n]);
      var front := AgentParts(env, ids, agents[..n]);
      FlatSnoc(front, AgentItem(env, ids, agents[n]));
      assert AgentParts(env, ids, agents) == front + [AgentItem(env, ids, agents[n])];
    }
  }

  ghost function AgentParts(env: Env, ids: Ids, agents: seq<string>): (parts: seq<seq<Item>>)
    requires AgentsSafe(env, agents)
  {
    seq(|agents|, n requires 0 <= n < |agents| => assert agents[n] in agents; AgentItem(env, ids, agents[n]))
  }

  /** A refresh sends the configuration, the statistics, the log levels and one part for each user agent, in this order,
      and nothing else. */
  lemma RefreshIsFlat(env: Env, ids: Ids, raw: map<string, string>, sinkCount: nat, config: seq<string>,
                      statistics: seq<string>)
    requires AgentsSafe(env, Agents(raw)) && IsOrder(config, ConfigOf(raw)) && IsOrder(statistics, StatisticsOf(raw))
    ensures ConfigOf(raw) == StatsOf(Get(raw, "get-config:context=service"), ';')
    ensures StatisticsOf(raw) == StatsOf(Get(raw, "statistics"), ';')
    ensures Agents(raw) == if "user-agents" in raw then Split(raw["user-agents"], ';') else []
    ensures Items(env, ids, raw, sinkCount, config, statistics)
         == Flat([StatItems(env, ids, ConfigOf(raw), config), StatItems(env, ids, StatisticsOf(raw), statistics),
                  LogItems(env, ids, raw, sinkCount)] + AgentParts(env, ids, Agents(raw)))
  {
    AgentsAreFlat(env, ids, Agents(raw));
    var a, b := StatItems(env, ids, ConfigOf(raw), config), StatItems(env, ids, StatisticsOf(raw), statistics);
    FlatThree(a, b, LogItems(env, ids, raw, sinkCount), AgentParts(env, ids, Agents(raw)));
    hide AgentsSafe, StatItems, LogItems, AgentItems, AgentParts, Flat, StatsOf, Split;
  }

  lemma FlatThree(a: seq<Item>, b: seq<Item>, c: seq<Item>, more: seq<seq<Item>>)
    ensures Flat([a, b, c] + more) == a + b + c + Flat(more)
  {
    FlatCons(a, [b, c] + more);
    FlatCons(b, [c] + more);
    FlatCons(c, more);
    assert [a, b, c] + more == [a] + ([b, c] + more) && [b, c] + more == [b] + ([c] + more);
    hide Flat;
  }

  lemma FlatCons(a: seq<Item>, more: seq<seq<Item>>)
    ensures Flat([a] + more) == a + Flat(more)
  {
    assert ([a] + more)[1..] == more;
  }
}
