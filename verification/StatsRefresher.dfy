/** The two-pass cycle: ask for metadata, let every processor turn it into info keys, ask for those,
    and hand each processor its own replies. */
module StatsRefresher {
  import opened Text
  import opened Commons
  import opened AerospikeStat
  import opened SharedState
  import NS = NamespaceProcessor
  import Node = NodeProcessor
  import SetsOf = SetsProcessor
  import Index = SindexProcessor
  import XD = XdrProcessor
  import Lat = LatencyProcessor
  import Loop = StatLoop

  // ----- The state between cycles -----

  datatype Machine = Machine(
    ids: Ids, build: string, nodeId: string, infokeyService: string,
    service: Benchmarks, learned: NS.Learned, previousFetch: int, sinkCount: nat,
    caches: Caches)

  datatype Caches = Caches(namespaces: Cache, node: Cache, sets: Cache, sindex: Cache, xdr: Cache)

  function Start(now: int): Machine
  {
    Machine(Ids("", ""), "", "", INFOKEY_SERVICE_CLEAR_STD, map[], NS.Learned(map[], false, map[]), now, 0,
            Caches(map[], map[], map[], map[], map[]))
  }

  // ----- What the outside world contributes -----

  /** The server answers a request, or it does not. */
  datatype Reply = Failed | Answer(values: map<string, string>)

  /** The user statistics, fetched by code that is not part of this model. */
  datatype Users = NotFetched | FetchFailed | Fetched(stats: seq<Stat>)

  /** The clock when the index-pressure interval is checked and when the request is stamped, whether
      certificates load, and the user statistics. */
  datatype Ambient = Ambient(checkTime: int, stampTime: int, certificates: bool, users: Users)

  /** The orders in which Go walks its maps during a cycle. */
  datatype Orders = Orders(
    entries: seq<Lat.Entry>, stats: seq<string>,
    namespaces: seq<seq<string>>, config: seq<string>, statistics: seq<string>,
    sets: seq<seq<string>>, sindex: seq<seq<string>>, xdr: seq<seq<string>>, latencies: seq<seq<Lat.Entry>>)

  // ----- Requests -----

  /** The keys that each processor asks for. */
  datatype Keys = Keys(namespaces: seq<string>, node: seq<string>, sets: seq<string>, sindex: seq<string>,
                       xdr: seq<string>, latency: seq<string>)
  {
    function All(): seq<string>
    {
      namespaces + node + sets + sindex + xdr + latency
    }
  }

  function PassOneKeys(env: Env): seq<string>
  {
    ["namespaces"] + [Node.SERVICE_LOGS] + (if env.cfg.disableSindexMetrics then [] else [Index.SINDEX_LIST])
      + [XD.XDR_METADATA] + ["build"]
  }

  function PressureDue(m: Machine, ambient: Ambient): bool
  {
    NS.CanSendPressure(m.learned.flash, m.previousFetch, ambient.checkTime)
  }

  /** The state once all second-pass keys are made. */
  function Prepared(m: Machine, one: map<string, string>, ambient: Ambient): Machine
  {
    m.(infokeyService := if ambient.certificates then INFOKEY_SERVICE_TLS_STD else m.infokeyService,
       learned := m.learned.(benchmarks := NS.WithMaps(m.learned.benchmarks, NS.Names(one))),
       previousFetch := if PressureDue(m, ambient) then ambient.stampTime else m.previousFetch,
       sinkCount := |Node.Sinks(one)|)
  }

  ghost predicate CommandsReady(m: Machine, one: map<string, string>, orders: Orders)
  {
    Lat.IsEntryOrder(orders.entries, NS.WithMaps(m.learned.benchmarks, NS.Names(one)))
      && IsOrder(orders.stats, m.service)
  }

  function KeysFor(env: Env, m: Machine, one: map<string, string>, ambient: Ambient, orders: Orders): Keys
    requires CommandsReady(m, one, orders)
  {
    Keys(NS.PassTwo(NS.Names(one), m.learned.sc, PressureDue(m, ambient)),
         Node.PassTwo(env, one),
         [SetsOf.KEY_SETS],
         Index.PassTwo(env, one),
         XD.PassTwo(one),
         Lat.PassTwo(env, Get(one, "build"), NS.WithMaps(m.learned.benchmarks, NS.Names(one)), m.service,
                     orders.entries, orders.stats))
  }

  function SecondRequest(infokeyService: string, keys: Keys): seq<string>
  {
    ["cluster-name", infokeyService, "build", "node:"] + keys.All()
  }

  // ----- Replies -----

  function Sanitized(env: Env, raw: map<string, string>): map<string, string>
  {
    map k | k in raw :: env.lib.sanitizeUtf8(raw[k])
  }

  /** The global values are taken from the reply as it came. */
  function Identified(env: Env, m: Machine, raw: map<string, string>): Machine
  {
    m.(ids := Ids(Get(raw, "cluster-name"),
                  if env.cfg.kubernetesPodName.Some? then env.cfg.kubernetesPodName.value else Get(raw,
                                                                                                   m.infokeyService)),
       build := Get(raw, "build"), nodeId := Get(raw, "node:"))
  }

  predicate LatenciesAsked(env: Env, one: map<string, string>)
  {
    !env.cfg.disableLatenciesMetrics && BuildAtLeast(env, Get(one, "build"), "5.1.0.0").Some?
  }

  /** No processor panics on the sanitized reply. */
  predicate Safe(env: Env, benchmarks: map<string, Benchmarks>, keys: seq<string>, one: map<string, string>,
                 raw: map<string, string>)
  {
    && (forall key | key in keys :: NS.KeySafe(env, benchmarks, raw, key))
    && Node.AgentsSafe(env, Node.Agents(raw))
    && (LatenciesAsked(env, one) ==> Lat.LatencySafe(env, raw))
  }

  ghost predicate CachedReady(env: Env, ids: Ids, keys: Keys, raw: map<string, string>, orders: Orders)
  {
    && NS.KeysReady(env, raw, keys.namespaces, orders.namespaces)
    && Node.AgentsSafe(env, Node.Agents(raw))
    && IsOrder(orders.config, Node.ConfigOf(raw)) && IsOrder(orders.statistics, Node.StatisticsOf(raw))
    && Loop.Ready(SetsOf.Jobs(ids, SetsOf.Pieces(raw)), orders.sets)
    && (forall n | 0 <= n < |keys.sindex| :: Index.Decodes(keys.sindex[n]))
    && Loop.Ready(Index.Jobs(ids, raw, keys.sindex), orders.sindex)
    && Loop.Ready(XD.Jobs(ids, raw, keys.xdr), orders.xdr)
  }

  ghost predicate RepliesReady(env: Env, ids: Ids, keys: Keys, raw: map<string, string>, orders: Orders)
  {
    CachedReady(env, ids, keys, raw, orders) && Lat.RefreshReady(env, keys.latency, raw, orders.latencies)
  }

  /** All items of a cycle, by processor. */
  datatype CycleItems = CycleItems(namespaces: seq<Item>, node: seq<Item>, sets: seq<Item>, sindex: seq<Item>,
                                   xdr: seq<Item>)

  function ItemsOf(env: Env, ids: Ids, sinkCount: nat, keys: Keys, raw: map<string, string>, orders: Orders): CycleItems
    requires CachedReady(env, ids, keys, raw, orders)
  {
    CycleItems(NS.Items(env, ids, raw, keys.namespaces, orders.namespaces),
               Node.Items(env, ids, raw, sinkCount, orders.config, orders.statistics),
               Loop.Items(env, SetsOf.Jobs(ids, SetsOf.Pieces(raw)), orders.sets),
               Loop.Items(env, Index.Jobs(ids, raw, keys.sindex), orders.sindex),
               Loop.Items(env, XD.Jobs(ids, raw, keys.xdr), orders.xdr))
  }

  function CachesAfter(c: Caches, items: CycleItems): Caches
  {
    Caches(CacheAfter(c.namespaces, items.namespaces), CacheAfter(c.node, items.node), CacheAfter(c.sets, items.sets),
           CacheAfter(c.sindex, items.sindex), CacheAfter(c.xdr, items.xdr))
  }

  /** The emissions of the processors with a cache, in the order of the processors. */
  function EmittedAll(c: Caches, items: CycleItems): seq<Stat>
  {
    Emitted(c.namespaces, items.namespaces) + Emitted(c.node, items.node) + Emitted(c.sets, items.sets)
    + Emitted(c.sindex, items.sindex) + Emitted(c.xdr, items.xdr)
  }

  // ----- A cycle -----

  datatype Step = Step(one: Reply, two: Reply, ambient: Ambient, orders: Orders)

  datatype Result = Result(stats: seq<Stat>, failed: bool)

  ghost predicate StepReady(env: Env, m: Machine, s: Step)
  {
    s.one.Answer? ==>
      && CommandsReady(m, s.one.values, s.orders)
      && (s.two.Answer? ==> RepliesReady(env, IdsAfter(env, m, s), StepKeys(env, m, s), Sanitized(env, s.two.values),
                                         s.orders))
  }

  function StepKeys(env: Env, m: Machine, s: Step): Keys
    requires s.one.Answer? && CommandsReady(m, s.one.values, s.orders)
  {
    KeysFor(env, m, s.one.values, s.ambient, s.orders)
  }

  function IdsAfter(env: Env, m: Machine, s: Step): Ids
    requires s.one.Answer? && s.two.Answer?
  {
    Identified(env, Prepared(m, s.one.values, s.ambient), s.two.values).ids
  }

  /** What all processors leave behind. */
  function AfterReplies(env: Env, m: Machine, keys: Keys, raw: map<string, string>, orders: Orders): Machine
    requires RepliesReady(env, m.ids, keys, raw, orders)
  {
    m.(service := Node.Learn(env, raw, m.service),
       learned := NS.LearnKeys(env, m.learned, raw, keys.namespaces),
       caches := CachesAfter(m.caches, ItemsOf(env, m.ids, m.sinkCount, keys, raw, orders)))
  }

  function StatsOfCycle(env: Env, m: Machine, keys: Keys, raw: map<string, string>, orders: Orders): seq<Stat>
    requires RepliesReady(env, m.ids, keys, raw, orders)
  {
    EmittedAll(m.caches, ItemsOf(env, m.ids, m.sinkCount, keys, raw, orders))
    + Lat.RefreshStats(env, m.ids, keys.latency, raw, orders.latencies)
  }

  /** The state after a cycle. */
  function Next(env: Env, m: Machine, s: Step): Machine
    requires StepReady(env, m, s)
  {
    if s.one.Failed? then m
    else
      var prepared := Prepared(m, s.one.values, s.ambient);
      if s.two.Failed? then prepared
      else AfterReplies(env, Identified(env, prepared, s.two.values), StepKeys(env, m, s), Sanitized(env, s.two.values),
                        s.orders)
  }

  /** The requests of a cycle. */
  function Requests(env: Env, m: Machine, s: Step): seq<seq<string>>
    requires StepReady(env, m, s)
  {
    if s.one.Failed? then [PassOneKeys(env)]
    else [PassOneKeys(env), SecondRequest(Prepared(m, s.one.values, s.ambient).infokeyService, StepKeys(env, m, s))]
  }

  function WithUsers(stats: seq<Stat>, users: Users): Result
  {
    match users
    case NotFetched => Result(stats, false)
    case FetchFailed => Result(stats, true)
    case Fetched(more) => Result(stats + more, false)
  }

  /** What a cycle returns. */
  function Outcome(env: Env, m: Machine, s: Step): Result
    requires StepReady(env, m, s)
  {
    if s.one.Failed? || s.two.Failed? then Result([], true)
    else WithUsers(StatsOfCycle(env, Identified(env, Prepared(m, s.one.values, s.ambient), s.two.values),
                                StepKeys(env, m, s), Sanitized(env, s.two.values), s.orders), s.ambient.users)
  }

  /** No processor panics in the cycle. */
  predicate NoPanic(env: Env, m: Machine, one: Reply, two: Reply, ambient: Ambient)
  {
    one.Answer? && two.Answer? ==>
      Safe(env, NS.WithMaps(m.learned.benchmarks, NS.Names(one.values)),
           NS.PassTwo(NS.Names(one.values), m.learned.sc, PressureDue(m, ambient)), one.values,
           Sanitized(env, two.values))
  }

  // ----- The refresher -----

  /** The server: an arbitrary list of replies to come, then failures; and a record of what was asked. */
  class DataProvider {
    var replies: seq<Reply>
    var requests: seq<seq<string>>

    constructor (replies: seq<Reply>)
      ensures this.replies == replies && requests == []
    {
      this.replies, requests := replies, [];
    }

    function Coming(n: nat): Reply
      reads this
    {
      if n < |replies| then replies[n] else Failed
    }

    method RequestInfo(keys: seq<string>) returns (reply: Reply)
      modifies this
      ensures requests == old(requests) + [keys]
      ensures reply == old(Coming(0))
      ensures replies == if old(replies) == [] then [] else old(replies)[1..]
    {
      requests := requests + [keys];
      reply := Failed;
      if replies != [] {
        reply, replies := replies[0], replies[1..];
      }
    }
  }

  class StatsRefresher {
    const env: Env
    const provider: DataProvider
    const shared: StatProcessorSharedState
    const namespaces: NS.NamespaceStatsProcessor
    const node: Node.NodeStatsProcessor
    const sets: SetsOf.SetsStatsProcessor
    const sindex: Index.SindexStatsProcessor
    const xdr: XD.XdrStatsProcessor
    const latency: Lat.LatencyStatsProcessor

    /** All processors share one state and one configuration. */
    ghost predicate Valid()
    {
      && namespaces.env == env && namespaces.shared == shared
      && node.env == env && node.shared == shared
      && sets.env == env && sets.shared == shared
      && sindex.env == env && sindex.shared == shared
      && xdr.env == env && xdr.shared == shared
      && latency.env == env && latency.shared == shared
    }

    ghost function View(): Machine
      reads shared, namespaces, node, sets, sindex, xdr
    {
      Machine(Ids(shared.clusterName, shared.service), shared.build, shared.nodeId, shared.infokeyService,
              shared.serviceBenchmarks,
              NS.Learned(namespaces.namespaceSCstatus, namespaces.isFlashStatSentByServer, shared.namespaceBenchmarks),
              namespaces.idxPressurePreviousFetchTime, node.logSinkCount,
              Caches(namespaces.namespaceStats, node.nodeMetrics, sets.setMetrics, sindex.sindexMetrics,
                     xdr.xdrMetrics))
    }

    constructor (env: Env, provider: DataProvider, now: int)
      ensures Valid() && this.env == env && this.provider == provider
      ensures View() == Start(now)
      ensures fresh(shared) && fresh(namespaces) && fresh(node) && fresh(sets) && fresh(sindex) && fresh(xdr)
    {
      var state := new StatProcessorSharedState();
      var ns := new NS.NamespaceStatsProcessor(env, state, now);
      var nd := new Node.NodeStatsProcessor(env, state);
      var st := new SetsOf.SetsStatsProcessor(env, state);
      var si := new Index.SindexStatsProcessor(env, state);
      var xd := new XD.XdrStatsProcessor(env, state);
      var la := new Lat.LatencyStatsProcessor(env, state);
      this.env, this.provider, shared := env, provider, state;
      namespaces, node, sets, sindex, xdr, latency := ns, nd, st, si, xd, la;
    }

    /** Every processor makes its second-pass keys. */
    method PassTwo(one: map<string, string>, ambient: Ambient) returns (keys: Keys, ghost entries: seq<Lat.Entry>,
                                                                        ghost stats: seq<string>)
      requires Valid()
      modifies shared, namespaces, node
      ensures View() == Prepared(old(View()), one, ambient)
      ensures forall orders: Orders :: orders.entries == entries && orders.stats == stats ==>
                CommandsReady(old(View()), one, orders) && keys == KeysFor(env, old(View()), one, ambient, orders)
    {
      hide NS.PassTwo, NS.WithMaps, NS.Names, NS.CanSendPressure, Node.PassTwo, Node.Sinks, Index.PassTwo, XD.PassTwo;
      hide Lat.PassTwo, Lat.IsEntryOrder, IsOrder;
      if ambient.certificates {
        shared.infokeyService := INFOKEY_SERVICE_TLS_STD;
      }
      var nsKeys := namespaces.PassTwoKeys(one, ambient.checkTime, ambient.stampTime);
      var nodeKeys := node.PassTwoKeys(one);
      var sindexKeys := sindex.PassTwoKeys(one);
      var xdrKeys := xdr.PassTwoKeys(one);
      var latencyKeys;
      latencyKeys, entries, stats := latency.PassTwoKeys(one);
      keys := Keys(nsKeys, nodeKeys, [SetsOf.KEY_SETS], sindexKeys, xdrKeys, latencyKeys);
    }

    /** The replies as the processors see them. */
    method Sanitize(raw: map<string, string>) returns (clean: map<string, string>)
      ensures clean == Sanitized(env, raw)
    {
      clean := raw;
      var todo := raw.Keys;
      while todo != {}
        invariant todo <= raw.Keys && clean.Keys == raw.Keys
        invariant forall k | k in raw :: clean[k] == if k in todo then raw[k] else env.lib.sanitizeUtf8(raw[k])
        decreases todo
      {
        var k :| k in todo;
        clean := clean[k := env.lib.sanitizeUtf8(clean[k])];
        todo := todo - {k};
      }
    }

    /** Sets the global values. */
    method Identify(raw: map<string, string>)
      requires Valid()
      modifies shared
      ensures View() == Identified(env, old(View()), raw)
    {
      hide Get;
      shared.clusterName := Get(raw, shared.infokeyClusterName);
      shared.service := Get(raw, shared.infokeyService);
      shared.build := Get(raw, shared.infokeyBuild);
      shared.nodeId := Get(raw, shared.infokeyNodeId);
      if env.cfg.kubernetesPodName.Some? {
        shared.service := env.cfg.kubernetesPodName.value;
      }
    }

    /** Every processor refreshes from its own keys; results are concatenated in the order of the processors. */
    ghost predicate ProcessorsSafe(keys: Keys, raw: map<string, string>)
      reads shared
    {
      && (forall key | key in keys.namespaces :: NS.KeySafe(env, shared.namespaceBenchmarks, raw, key))
      && Node.AgentsSafe(env, Node.Agents(raw))
      && (forall n | 0 <= n < |keys.sindex| :: Index.Decodes(keys.sindex[n]))
      && (env.cfg.disableSindexMetrics ==> keys.sindex == [])
      && (keys.latency == [] || Lat.LatencySafe(env, raw))
    }

    /** The five processors that have a cache. */
    method RefreshCached(keys: Keys, raw: map<string, string>, ghost entries: seq<Lat.Entry>, ghost stats: seq<string>)
        returns (out: seq<Stat>, ghost orders: Orders)
      requires Valid() && ProcessorsSafe(keys, raw)
      modifies shared, namespaces, node, sets, sindex, xdr
      ensures orders.entries == entries && orders.stats == stats
      ensures CachedReady(env, old(View()).ids, keys, raw, orders)
      ensures var was, items := old(View()), ItemsOf(env, old(View()).ids, old(View()).sinkCount, keys, raw, orders);
              && View() == was.(service := Node.Learn(env, raw, was.service),
                                learned := NS.LearnKeys(env, was.learned, raw, keys.namespaces),
                                caches := CachesAfter(was.caches, items))
              && out == EmittedAll(was.caches, items)
    {
      hide NS.Items, NS.KeysReady, NS.KeySafe, NS.LearnKeys, Node.Items, Node.AgentsSafe, Node.Agents, Node.ConfigOf;
      hide Node.StatisticsOf, Node.Learn;
      hide Loop.Items, Loop.Ready, SetsOf.Jobs, SetsOf.Pieces, Index.Jobs, Index.RefreshJobs, Index.Decodes, XD.Jobs;
      hide Lat.RefreshReady, Lat.RefreshStats, Lat.LatencySafe;
      hide CacheAfter, Emitted, IsOrder;
      var a, nsOrders := namespaces.Refresh(keys.namespaces, raw);
      var b, config, statistics := node.Refresh(raw);
      var c, setOrders := sets.Refresh(raw);
      Index.NoKeysNoJobs(env, shared.GetIds(), raw, keys.sindex);
      var d, sindexOrders := sindex.Refresh(keys.sindex, raw);
      var e, xdrOrders := xdr.Refresh(keys.xdr, raw);
      out := a + b + c + d + e;
      orders := Orders(entries, stats, nsOrders, config, statistics, setOrders, sindexOrders, xdrOrders, []);
    }

    method RefreshAll(keys: Keys, raw: map<string, string>, ghost entries: seq<Lat.Entry>, ghost stats: seq<string>)
        returns (out: seq<Stat>, ghost orders: Orders)
      requires Valid() && ProcessorsSafe(keys, raw)
      modifies shared, namespaces, node, sets, sindex, xdr
      ensures orders.entries == entries && orders.stats == stats
      ensures RepliesReady(env, old(View()).ids, keys, raw, orders)
      ensures View() == AfterReplies(env, old(View()), keys, raw, orders)
      ensures out == StatsOfCycle(env, old(View()), keys, raw, orders)
    {
      hide CachedReady, ItemsOf, CachesAfter, EmittedAll, Lat.RefreshReady, Lat.RefreshStats, Lat.LatencySafe;
      hide NS.KeySafe, NS.LearnKeys, Node.AgentsSafe, Node.Agents, Node.Learn, Index.Decodes;
      out, orders := RefreshCached(keys, raw, entries, stats);
      var more, latencyOrders := latency.Refresh(keys.latency, raw);
      ghost var before := orders;
      orders := orders.(latencies := latencyOrders);
      LatenciesApart(env, old(View()).ids, old(View()).sinkCount, keys, raw, before, orders);
      out := out + more;
    }

    method Refresh(ambient: Ambient) returns (result: Result, ghost step: Step)
      requires Valid() && NoPanic(env, View(), provider.Coming(0), provider.Coming(1), ambient)
      modifies provider, shared, namespaces, node, sets, sindex, xdr
      ensures step.one == old(provider.Coming(0)) && step.ambient == ambient
      ensures step.one.Answer? ==> step.two == old(provider.Coming(1))
      ensures StepReady(env, old(View()), step)
      ensures View() == Next(env, old(View()), step)
      ensures result == Outcome(env, old(View()), step)
      ensures provider.requests == old(provider.requests) + Requests(env, old(View()), step)
    {
      hide Prepared, KeysFor, CommandsReady, RepliesReady, AfterReplies, StatsOfCycle, Identified, Sanitized, Safe;
      hide LatenciesAsked, PressureDue;
      hide NS.PassTwo, NS.WithMaps, NS.Names;
      var noOrders := Orders([], [], [], [], [], [], [], [], []);
      var infoKeys := PassOneKeys(env);
      var one := provider.RequestInfo(infoKeys);
      step := Step(one, Failed, ambient, noOrders);
      if one.Failed? {
        return Result([], true), step;
      }
      var keys, entries, stats := PassTwo(one.values, ambient);
      ghost var prepared := View();
      var two := provider.RequestInfo(SecondRequest(shared.infokeyService, keys));
      step := Step(one, two, ambient, noOrders.(entries := entries, stats := stats));
      assert keys == StepKeys(env, old(View()), step);
      if two.Failed? {
        return Result([], true), step;
      }
      SafetyReaches(env, old(View()), step);
      Identify(two.values);
      var clean := Sanitize(two.values);
      var out, orders := RefreshAll(keys, clean, entries, stats);
      step := Step(one, two, ambient, orders);
      assert keys == StepKeys(env, old(View()), step);
      result := match ambient.users
        case NotFetched => Result(out, false)
        case FetchFailed => Result(out, true)
        case Fetched(more) => Result(out + more, false);
    }
  }

  /** The orders of the latency results do not matter to the other processors. */
  lemma LatenciesApart(env: Env, ids: Ids, sinkCount: nat, keys: Keys, raw: map<string, string>, a: Orders, b: Orders)
    requires CachedReady(env, ids, keys, raw, a) && b == a.(latencies := b.latencies)
    ensures CachedReady(env, ids, keys, raw, b)
            && ItemsOf(env, ids, sinkCount, keys, raw, a) == ItemsOf(env, ids, sinkCount, keys, raw, b)
  {
  }

  /** What the safety of a cycle means for the processors. */
  lemma SafetyReaches(env: Env, m: Machine, s: Step)
    requires s.one.Answer? && s.two.Answer? && CommandsReady(m, s.one.values, s.orders)
    requires NoPanic(env, m, s.one, s.two, s.ambient)
    ensures var keys, raw := StepKeys(env, m, s), Sanitized(env, s.two.values);
            && (forall key | key in keys.namespaces :: NS.KeySafe(env,
                                                                  Prepared(m, s.one.values,
                                                                           s.ambient).learned.benchmarks, raw, key))
            && Node.AgentsSafe(env, Node.Agents(raw))
            && (forall n | 0 <= n < |keys.sindex| :: Index.Decodes(keys.sindex[n]))
            && (env.cfg.disableSindexMetrics ==> keys.sindex == [])
            && (keys.latency == [] || Lat.LatencySafe(env, raw))
    ensures Identified(env, Prepared(m, s.one.values, s.ambient), s.two.values).learned
         == Prepared(m, s.one.values, s.ambient).learned
  {
    hide NS.KeySafe, NS.Names, NS.PassTwo, NS.WithMaps, Node.PassTwo, Node.AgentsSafe, Node.Agents, Node.Sinks;
    hide Index.Decodes, XD.PassTwo, Sanitized;
    Index.PassTwoDecodes(env, s.one.values);
    NotAsked(env, s.one.values);
    hide Lat.LatencySafe, Lat.PassTwo;
  }

  lemma NotAsked(env: Env, one: map<string, string>)
    ensures !LatenciesAsked(env, one) ==>
              forall namespaces, service, entries, stats |
                (forall e: Lat.Entry | e in entries :: e.0 in namespaces && e.1 in namespaces[e.0])
                  && (forall k | k in stats :: k in service) ::
                Lat.PassTwo(env, Get(one, "build"), namespaces, service, entries, stats) == []
  {
  }
}
