/** Go walks its maps in an arbitrary order: what that can change in a cycle, and what it cannot. */
module MapOrder {
  import opened Text
  import opened Wrappers
  import opened Commons
  import opened AerospikeStat
  import opened SharedState
  import opened StatsRefresher
  import opened Runs
  import opened CacheRuns
  import opened NamespaceItems
  import opened Permutations
  import NS = NamespaceProcessor
  import Node = NodeProcessor
  import SetsOf = SetsProcessor
  import Index = SindexProcessor
  import XD = XdrProcessor
  import LP = LatencyParser
  import Lat = LatencyProcessor
  import Loop = StatLoop

  // ----- Caches and state -----

  /** A cache is the same whatever the order of the items, if the first-seen descriptors are. */
  lemma CacheByFirstSeen(cache: Cache, a: seq<Item>, b: seq<Item>)
    requires forall key :: FirstSeen(a, key) == FirstSeen(b, key)
    ensures CacheAfter(cache, a) == CacheAfter(cache, b)
  {
    hide CacheAfter, FirstSeen;
    var x, y := CacheAfter(cache, a), CacheAfter(cache, b);
    forall key
      ensures (key in x <==> key in y) && (key in x ==> x[key] == y[key])
    {
      assert FirstSeen(a, key) == FirstSeen(b, key);
      CacheKeepsFirstSeen(cache, a, key);
      CacheKeepsFirstSeen(cache, b, key);
    }
  }

  /** The descriptor that a reply brings for a stat, with no order in sight. */
  function Brought(env: Env, job: Loop.Job, stat: string): Option<Stat>
  {
    if stat in job.stats && TryConvert(env, job.stats[stat]).Some?
    then Some(Loop.DescriptorOf(env, job.context, job.prefix)(stat))
    else None
  }

  lemma {:induction false} JobBrings(env: Env, job: Loop.Job, order: seq<string>, stat: string)
    requires forall x | x in order :: x in job.stats
    ensures FirstSeen(Loop.JobItems(env, job, order), stat) == if stat in order then Brought(env, job, stat) else None
  {
    hide NewStat, IsMetricAllowed, TryConvert;
    if order != [] {
      var front, last := order[..|order| - 1], order[|order| - 1];
      JobBrings(env, job, front, stat);
      FirstSeenAppend(Loop.JobItems(env, job, front), Loop.StatItem(env, job, last), stat);
      assert stat in order <==> stat in front || stat == last;
    }
  }

  lemma {:induction false} JobsBring(env: Env, jobs: seq<Loop.Job>, a: seq<seq<string>>, b: seq<seq<string>>,
                                     stat: string)
    requires Loop.Ready(jobs, a) && Loop.Ready(jobs, b)
    ensures FirstSeen(Loop.Items(env, jobs, a), stat) == FirstSeen(Loop.Items(env, jobs, b), stat)
  {
    hide Brought, FirstSeen, Loop.JobItems;
    if jobs != [] {
      var n := |jobs| - 1;
      JobsBring(env, jobs[..n], a[..n], b[..n], stat);
      JobBrings(env, jobs[n], a[n], stat);
      JobBrings(env, jobs[n], b[n], stat);
      FirstSeenAppend(Loop.Items(env, jobs[..n], a[..n]), Loop.JobItems(env, jobs[n], a[n]), stat);
      FirstSeenAppend(Loop.Items(env, jobs[..n], b[..n]), Loop.JobItems(env, jobs[n], b[n]), stat);
      assert Loop.Items(env, jobs, a) == Loop.Items(env, jobs[..n], a[..n]) + Loop.JobItems(env, jobs[n], a[n]);
      assert Loop.Items(env, jobs, b) == Loop.Items(env, jobs[..n], b[..n]) + Loop.JobItems(env, jobs[n], b[n]);
    }
  }

  /** The set, secondary-index and XDR caches do not depend on the order in which Go walks the replies. */
  lemma CacheIgnoresOrder(env: Env, cache: Cache, jobs: seq<Loop.Job>, a: seq<seq<string>>, b: seq<seq<string>>)
    requires Loop.Ready(jobs, a) && Loop.Ready(jobs, b)
    ensures CacheAfter(cache, Loop.Items(env, jobs, a)) == CacheAfter(cache, Loop.Items(env, jobs, b))
  {
    hide CacheAfter, FirstSeen, Loop.Items, Loop.Ready;
    forall stat
      ensures FirstSeen(Loop.Items(env, jobs, a), stat) == FirstSeen(Loop.Items(env, jobs, b), stat)
    {
      JobsBring(env, jobs, a, b, stat);
    }
    CacheByFirstSeen(cache, Loop.Items(env, jobs, a), Loop.Items(env, jobs, b));
  }

  lemma {:induction false} NodeReplyBrings(env: Env, ids: Ids, stats: map<string, string>, order: seq<string>,
                                           stat: string)
    requires forall x | x in order :: x in stats
    ensures FirstSeen(Node.StatItems(env, ids, stats, order), stat) ==
              if stat in order && TryConvert(env,
                                             stats[stat]).Some? then Some(NewStat(env, NodeStats, stat,
                                                                                  IsMetricAllowed(env, NodeStats,
                                                                                                  stat))) else None
  {
    hide NewStat, IsMetricAllowed, TryConvert;
    if order != [] {
      var front, last := order[..|order| - 1], order[|order| - 1];
      NodeReplyBrings(env, ids, stats, front, stat);
      FirstSeenAppend(Node.StatItems(env, ids, stats, front), Node.StatItem(env, ids, stats, last), stat);
      assert stat in order <==> stat in front || stat == last;
    }
  }

  lemma NodeItemsBring(env: Env, ids: Ids, raw: map<string, string>, sinkCount: nat, a: Orders, b: Orders, stat: string)
    requires Node.AgentsSafe(env, Node.Agents(raw))
    requires IsOrder(a.config, Node.ConfigOf(raw)) && IsOrder(a.statistics, Node.StatisticsOf(raw))
    requires IsOrder(b.config, Node.ConfigOf(raw)) && IsOrder(b.statistics, Node.StatisticsOf(raw))
    ensures FirstSeen(Node.Items(env, ids, raw, sinkCount, a.config, a.statistics), stat)
         == FirstSeen(Node.Items(env, ids, raw, sinkCount, b.config, b.statistics), stat)
  {
    hide Node.AgentsSafe, Node.StatItems, Node.LogItems, Node.AgentItems, FirstSeen, Node.ConfigOf, Node.StatisticsOf;
    hide NewStat, IsMetricAllowed, TryConvert;
    var logs, agents := Node.LogItems(env, ids, raw, sinkCount), Node.AgentItems(env, ids, Node.Agents(raw));
    var config, statistics := Node.ConfigOf(raw), Node.StatisticsOf(raw);
    NodeReplyBrings(env, ids, config, a.config, stat);
    NodeReplyBrings(env, ids, config, b.config, stat);
    NodeReplyBrings(env, ids, statistics, a.statistics, stat);
    NodeReplyBrings(env, ids, statistics, b.statistics, stat);
    FourParts(Node.StatItems(env, ids, config, a.config), Node.StatItems(env, ids, statistics, a.statistics), logs,
              agents, stat);
    FourParts(Node.StatItems(env, ids, config, b.config), Node.StatItems(env, ids, statistics, b.statistics), logs,
              agents, stat);
  }

  lemma FourParts(a: seq<Item>, b: seq<Item>, c: seq<Item>, d: seq<Item>, key: string)
    ensures FirstSeen(a + b + c + d, key) ==
              if FirstSeen(a, key).Some? then FirstSeen(a, key)
              else if FirstSeen(b, key).Some? then FirstSeen(b, key)
              else if FirstSeen(c, key).Some? then FirstSeen(c, key)
              else FirstSeen(d, key)
  {
    hide FirstSeen;
    FirstSeenAppend(a, b, key);
    FirstSeenAppend(a + b, c, key);
    FirstSeenAppend(a + b + c, d, key);
  }

  lemma NodeCacheIgnoresOrder(env: Env, cache: Cache, ids: Ids, raw: map<string, string>, sinkCount: nat, a: Orders,
                              b: Orders)
    requires Node.AgentsSafe(env, Node.Agents(raw))
    requires IsOrder(a.config, Node.ConfigOf(raw)) && IsOrder(a.statistics, Node.StatisticsOf(raw))
    requires IsOrder(b.config, Node.ConfigOf(raw)) && IsOrder(b.statistics, Node.StatisticsOf(raw))
    ensures CacheAfter(cache, Node.Items(env, ids, raw, sinkCount, a.config, a.statistics))
         == CacheAfter(cache, Node.Items(env, ids, raw, sinkCount, b.config, b.statistics))
  {
    hide *;
    var x, y := Node.Items(env, ids, raw, sinkCount, a.config, a.statistics),
      Node.Items(env, ids, raw, sinkCount, b.config, b.statistics);
    forall stat
      ensures FirstSeen(x, stat) == FirstSeen(y, stat)
    {
      NodeItemsBring(env, ids, raw, sinkCount, a, b, stat);
    }
    CacheByFirstSeen(cache, x, y);
  }

  // ----- States that differ only in allow flags -----

  function Unflagged(stat: Stat): Stat
  {
    stat.(isAllowed := true)
  }

  ghost predicate SameButFlags(a: Cache, b: Cache)
  {
    a.Keys == b.Keys && forall k | k in a :: Unflagged(a[k]) == Unflagged(b[k])
  }

  ghost predicate AlikeCaches(c: Caches, d: Caches)
  {
    SameButFlags(c.namespaces, d.namespaces) && c == d.(namespaces := c.namespaces)
  }

  /** Two states that are the same but for the allow flags in the namespace cache. */
  ghost predicate Alike(m: Machine, n: Machine)
  {
    AlikeCaches(m.caches, n.caches) && m == n.(caches := m.caches)
  }

  lemma SameIsAlike(m: Machine)
    ensures Alike(m, m)
  {
  }

  /** Two cycles that differ only in the orders in which Go walks its maps. */
  ghost predicate SameButOrders(a: Step, b: Step)
  {
    a.one == b.one && a.two == b.two && a.ambient == b.ambient
  }

  // ----- Requests -----

  lemma {:induction false} EntryCommandsFlat(benchmarks: map<string, Benchmarks>, order: seq<Lat.Entry>)
    requires forall e | e in order :: e.0 in benchmarks && e.1 in benchmarks[e.0]
    ensures Lat.EntryCommands(benchmarks, order) == FlatMap(EntryCommand(benchmarks), order)
  {
    if order != [] {
      assert order[|order| - 1] in order;
      EntryCommandsFlat(benchmarks, order[..|order| - 1]);
    }
  }

  ghost function EntryCommand(benchmarks: map<string, Benchmarks>): Lat.Entry -> seq<string>
  {
    (e: Lat.Entry) => if e.0 in benchmarks && e.1 in benchmarks[e.0] then ["latencies:hist=" + benchmarks[e.0][e.1]]
                      else []
  }

  ghost function ServiceCommand(benchmarks: Benchmarks): string -> seq<string>
  {
    (k: string) => if k in benchmarks then ["latencies:hist=" + benchmarks[k]] else []
  }

  lemma {:induction false} ServiceCommandsFlat(benchmarks: Benchmarks, order: seq<string>)
    requires forall k | k in order :: k in benchmarks
    ensures Lat.ServiceCommands(benchmarks, order) == FlatMap(ServiceCommand(benchmarks), order)
  {
    if order != [] {
      assert order[|order| - 1] in order;
      ServiceCommandsFlat(benchmarks, order[..|order| - 1]);
    }
  }

  lemma CommandsPermute(namespaces: map<string, Benchmarks>, service: Benchmarks, e: seq<Lat.Entry>, e': seq<Lat.Entry>,
                        s: seq<string>, s': seq<string>)
    requires Lat.IsEntryOrder(e, namespaces) && Lat.IsEntryOrder(e', namespaces) && IsOrder(s, service)
             && IsOrder(s', service)
    ensures multiset(Lat.Commands(namespaces, service, e, s)) == multiset(Lat.Commands(namespaces, service, e', s'))
  {
    OrdersPermute(e, e');
    OrdersPermute(s, s');
    EntryCommandsFlat(namespaces, e);
    EntryCommandsFlat(namespaces, e');
    ServiceCommandsFlat(service, s);
    ServiceCommandsFlat(service, s');
    hide Lat.EntryCommands, Lat.ServiceCommands, EntryCommand, ServiceCommand, FlatMap, Lat.IsEntryOrder, IsOrder;
    FlatMapPermutes(EntryCommand(namespaces), e, e');
    FlatMapPermutes(ServiceCommand(service), s, s');
  }

  /** From states that differ only in allow flags, two cycles that differ only in map orders ask for the same keys, as
      often, in each request. */
  lemma RequestsPermute(env: Env, m: Machine, n: Machine, a: Step, b: Step)
    requires Alike(m, n) && StepReady(env, m, a) && StepReady(env, n, b) && SameButOrders(a, b)
    ensures a.one.Answer? ==>
              && multiset(StepKeys(env, m, a).latency) == multiset(StepKeys(env, n, b).latency)
              && StepKeys(env, m, a) == StepKeys(env, n, b).(latency := StepKeys(env, m, a).latency)
    ensures |Requests(env, m, a)| == |Requests(env, n, b)|
            && forall i | 0 <= i < |Requests(env, m, a)| ::
                 multiset(Requests(env, m, a)[i]) == multiset(Requests(env, n, b)[i])
  {
    hide CachedReady, Lat.RefreshReady, NS.PassTwo, Node.PassTwo, Index.PassTwo, XD.PassTwo, NS.WithMaps, NS.Names;
    hide Sanitized;
    hide Lat.IsEntryOrder, IsOrder, Lat.Commands, BuildAtLeast, AlikeCaches;
    if a.one.Answer? {
      var namespaces := NS.WithMaps(m.learned.benchmarks, NS.Names(a.one.values));
      CommandsPermute(namespaces, m.service, a.orders.entries, b.orders.entries, a.orders.stats, b.orders.stats);
      var k, l := StepKeys(env, m, a), StepKeys(env, n, b);
      assert multiset(k.latency) == multiset(l.latency);
      SecondPermutes(Prepared(m, a.one.values, a.ambient).infokeyService, k, l);
      hide StepKeys, KeysFor, Keys.All, Prepared;
    }
  }

  lemma SecondPermutes(infokeyService: string, k: Keys, l: Keys)
    requires k == l.(latency := k.latency) && multiset(k.latency) == multiset(l.latency)
    ensures multiset(SecondRequest(infokeyService, k)) == multiset(SecondRequest(infokeyService, l))
  {
    AllPermute(k, l);
    hide Keys.All;
  }

  lemma AllPermute(k: Keys, l: Keys)
    requires k == l.(latency := k.latency) && multiset(k.latency) == multiset(l.latency)
    ensures multiset(k.All()) == multiset(l.All())
  {
  }

  // ----- Items -----

  ghost function ItemsFor(env: Env, job: Loop.Job): string -> seq<Item>
  {
    (stat: string) => if stat in job.stats then Loop.StatItem(env, job, stat) else []
  }

  lemma {:induction false} JobItemsFlat(env: Env, job: Loop.Job, order: seq<string>)
    requires forall stat | stat in order :: stat in job.stats
    ensures Loop.JobItems(env, job, order) == FlatMap(ItemsFor(env, job), order)
  {
    hide Loop.StatItem;
    if order != [] {
      assert order[|order| - 1] in order;
      JobItemsFlat(env, job, order[..|order| - 1]);
    }
  }

  lemma JobItemsPermute(env: Env, job: Loop.Job, a: seq<string>, b: seq<string>)
    requires IsOrder(a, job.stats) && IsOrder(b, job.stats)
    ensures (forall stat | stat in a :: stat in job.stats) && (forall stat | stat in b :: stat in job.stats)
    ensures multiset(Loop.JobItems(env, job, a)) == multiset(Loop.JobItems(env, job, b))
  {
    hide Loop.JobItems, ItemsFor, FlatMap;
    OrdersPermute(a, b);
    JobItemsFlat(env, job, a);
    JobItemsFlat(env, job, b);
    FlatMapPermutes(ItemsFor(env, job), a, b);
  }

  lemma {:induction false} LoopItemsPermute(env: Env, jobs: seq<Loop.Job>, a: seq<seq<string>>, b: seq<seq<string>>)
    requires Loop.Ready(jobs, a) && Loop.Ready(jobs, b)
    ensures multiset(Loop.Items(env, jobs, a)) == multiset(Loop.Items(env, jobs, b))
  {
    hide Loop.JobItems, IsOrder;
    if jobs != [] {
      var n := |jobs| - 1;
      assert IsOrder(a[n], jobs[n].stats) && IsOrder(b[n], jobs[n].stats);
      JobItemsPermute(env, jobs[n], a[n], b[n]);
      LoopItemsPermute(env, jobs[..n], a[..n], b[..n]);
      assert Loop.Items(env, jobs, a) == Loop.Items(env, jobs[..n], a[..n]) + Loop.JobItems(env, jobs[n], a[n]);
      assert Loop.Items(env, jobs, b) == Loop.Items(env, jobs[..n], b[..n]) + Loop.JobItems(env, jobs[n], b[n]);
    }
  }

  ghost function NodeItemsFor(env: Env, ids: Ids, stats: map<string, string>): string -> seq<Item>
  {
    (stat: string) => if stat in stats then Node.StatItem(env, ids, stats, stat) else []
  }

  lemma {:induction false} NodeItemsFlat(env: Env, ids: Ids, stats: map<string, string>, order: seq<string>)
    requires forall stat | stat in order :: stat in stats
    ensures Node.StatItems(env, ids, stats, order) == FlatMap(NodeItemsFor(env, ids, stats), order)
  {
    hide Node.StatItem;
    if order != [] {
      assert order[|order| - 1] in order;
      NodeItemsFlat(env, ids, stats, order[..|order| - 1]);
    }
  }

  lemma NodeReplyPermutes(env: Env, ids: Ids, stats: map<string, string>, a: seq<string>, b: seq<string>)
    requires IsOrder(a, stats) && IsOrder(b, stats)
    ensures multiset(Node.StatItems(env, ids, stats, a)) == multiset(Node.StatItems(env, ids, stats, b))
  {
    OrdersPermute(a, b);
    NodeItemsFlat(env, ids, stats, a);
    NodeItemsFlat(env, ids, stats, b);
    hide Node.StatItems, NodeItemsFor, FlatMap, IsOrder;
    FlatMapPermutes(NodeItemsFor(env, ids, stats), a, b);
  }

  lemma NodeItemsPermute(env: Env, ids: Ids, raw: map<string, string>, sinkCount: nat, a: Orders, b: Orders)
    requires Node.AgentsSafe(env, Node.Agents(raw))
    requires IsOrder(a.config, Node.ConfigOf(raw)) && IsOrder(a.statistics, Node.StatisticsOf(raw))
    requires IsOrder(b.config, Node.ConfigOf(raw)) && IsOrder(b.statistics, Node.StatisticsOf(raw))
    ensures multiset(Node.Items(env, ids, raw, sinkCount, a.config, a.statistics))
         == multiset(Node.Items(env, ids, raw, sinkCount, b.config, b.statistics))
  {
    hide Node.AgentsSafe, Node.StatItems, Node.LogItems, Node.AgentItems, Node.ConfigOf, Node.StatisticsOf, IsOrder;
    NodeReplyPermutes(env, ids, Node.ConfigOf(raw), a.config, b.config);
    NodeReplyPermutes(env, ids, Node.StatisticsOf(raw), a.statistics, b.statistics);
  }

  ghost function NamespaceItemsFor(env: Env, ids: Ids, ns: string, stats: map<string, string>): string -> seq<Item>
  {
    (stat: string) => if stat in stats then NS.StatItem(env, ids, ns, stats, stat) else []
  }

  ghost function RosterItemsFor(env: Env, ids: Ids, ns: string, stats: map<string, string>): string -> seq<Item>
  {
    (stat: string) => if stat in stats then [NS.RosterItem(env, ids, ns, stats, stat)] else []
  }

  lemma {:induction false} NamespaceItemsFlat(env: Env, ids: Ids, ns: string, stats: map<string, string>,
                                              order: seq<string>)
    requires forall stat | stat in order :: stat in stats
    ensures NS.StatItems(env, ids, ns, stats, order) == FlatMap(NamespaceItemsFor(env, ids, ns, stats), order)
    ensures NS.RosterItems(env, ids, ns, stats, order) == FlatMap(RosterItemsFor(env, ids, ns, stats), order)
  {
    hide NS.StatItem, NS.RosterItem;
    if order != [] {
      assert order[|order| - 1] in order;
      NamespaceItemsFlat(env, ids, ns, stats, order[..|order| - 1]);
    }
  }

  lemma NamespaceReplyPermutes(env: Env, ids: Ids, ns: string, stats: map<string, string>, a: seq<string>,
                               b: seq<string>)
    requires IsOrder(a, stats) && IsOrder(b, stats)
    ensures multiset(NS.StatItems(env, ids, ns, stats, a)) == multiset(NS.StatItems(env, ids, ns, stats, b))
    ensures multiset(NS.RosterItems(env, ids, ns, stats, a)) == multiset(NS.RosterItems(env, ids, ns, stats, b))
  {
    OrdersPermute(a, b);
    NamespaceItemsFlat(env, ids, ns, stats, a);
    NamespaceItemsFlat(env, ids, ns, stats, b);
    hide NS.StatItems, NS.RosterItems, NamespaceItemsFor, RosterItemsFor, FlatMap, IsOrder;
    FlatMapPermutes(NamespaceItemsFor(env, ids, ns, stats), a, b);
    FlatMapPermutes(RosterItemsFor(env, ids, ns, stats), a, b);
  }

  lemma KeyItemsPermute(env: Env, ids: Ids, raw: map<string, string>, key: string, a: seq<string>, b: seq<string>)
    requires NS.ItemSafe(env, raw, key) && IsOrder(a, NS.ReplyOf(raw, key)) && IsOrder(b, NS.ReplyOf(raw, key))
    ensures multiset(NS.KeyItems(env, ids, raw, key, a)) == multiset(NS.KeyItems(env, ids, raw, key, b))
  {
    hide NS.StatItems, NS.RosterItems, NS.PressureItems, NS.ReplyOf, NS.PressureSafe, Split;
    match NS.RouteOf(key)
    case ToNamespace => NamespaceReplyPermutes(env, ids, NS.NameOf(key), NS.ReplyOf(raw, key), a, b);
    case ToPressure =>
    case ToRoster =>
      if Get(raw, key) != "" {
        NamespaceReplyPermutes(env, ids, NS.RosterName(key), NS.ReplyOf(raw, key), a, b);
      }
    case ToNobody =>
  }

  lemma {:induction false} NamespaceItemsPermute(env: Env, ids: Ids, raw: map<string, string>, keys: seq<string>,
                                                 a: seq<seq<string>>, b: seq<seq<string>>)
    requires NS.KeysReady(env, raw, keys, a) && NS.KeysReady(env, raw, keys, b)
    ensures multiset(NS.Items(env, ids, raw, keys, a)) == multiset(NS.Items(env, ids, raw, keys, b))
  {
    hide NS.KeyItems, NS.ItemSafe, NS.ReplyOf, IsOrder;
    if keys != [] {
      var n := |keys| - 1;
      NamespaceItemsPermute(env, ids, raw, keys[..n], a[..n], b[..n]);
      KeyItemsPermute(env, ids, raw, keys[n], a[n], b[n]);
    }
  }

  // ----- Emissions -----

  ghost function OneUnder(cache: Cache): Item -> seq<Stat>
  {
    (item: Item) => [Emission(cache, item)]
  }

  /** A cache entry never changes: everything is emitted under the descriptors that the cache ends up with. */
  lemma {:induction false} EmittedUnderFinal(cache: Cache, items: seq<Item>, final: Cache)
    requires forall k | k in CacheAfter(cache, items) :: k in final && final[k] == CacheAfter(cache, items)[k]
    ensures Emitted(cache, items) == FlatMap(OneUnder(final), items)
  {
    if items != [] {
      var front, last := items[..|items| - 1], items[|items| - 1];
      EmittedUnderFinal(cache, front, final);
    }
  }

  lemma EmittedPermutes(cache: Cache, a: seq<Item>, b: seq<Item>)
    requires multiset(a) == multiset(b) && CacheAfter(cache, a) == CacheAfter(cache, b)
    ensures multiset(Emitted(cache, a)) == multiset(Emitted(cache, b))
  {
    var final := CacheAfter(cache, a);
    EmittedUnderFinal(cache, a, final);
    EmittedUnderFinal(cache, b, final);
    hide Emitted, CacheAfter, OneUnder, FlatMap;
    FlatMapPermutes(OneUnder(final), a, b);
  }

  // ----- Emissions up to the allow flag -----

  /** The stats, with their allow flags forgotten. */
  function AllUnflagged(stats: seq<Stat>): (all: seq<Stat>)
    ensures |all| == |stats|
  {
    if stats == [] then [] else AllUnflagged(stats[..|stats| - 1]) + [Unflagged(stats[|stats| - 1])]
  }

  lemma {:induction false} UnflaggedAppend(a: seq<Stat>, b: seq<Stat>)
    ensures AllUnflagged(a + b) == AllUnflagged(a) + AllUnflagged(b)
  {
    if b == [] {
      assert a + b == a;
    } else {
      UnflaggedAppend(a, b[..|b| - 1]);
      assert (a + b)[..|a + b| - 1] == a + b[..|b| - 1];
    }
  }

  lemma {:induction false} UnflaggedFlat(stats: seq<Stat>)
    ensures AllUnflagged(stats) == FlatMap(OneUnflagged(), stats)
  {
    if stats != [] {
      UnflaggedFlat(stats[..|stats| - 1]);
    }
  }

  ghost function OneUnflagged(): Stat -> seq<Stat>
  {
    (stat: Stat) => [Unflagged(stat)]
  }

  lemma UnflaggedPermutes(a: seq<Stat>, b: seq<Stat>)
    requires multiset(a) == multiset(b)
    ensures multiset(AllUnflagged(a)) == multiset(AllUnflagged(b))
  {
    hide *;
    UnflaggedFlat(a);
    UnflaggedFlat(b);
    FlatMapPermutes(OneUnflagged(), a, b);
  }

  ghost function OneUnflaggedUnder(cache: Cache): Item -> seq<Stat>
  {
    (item: Item) => [Unflagged(Emission(cache, item))]
  }

  lemma {:induction false} UnflaggedUnder(items: seq<Item>, a: Cache, b: Cache)
    requires SameButFlags(a, b)
    ensures AllUnflagged(FlatMap(OneUnder(a), items)) == FlatMap(OneUnflaggedUnder(b), items)
  {
    if items != [] {
      var front, last := items[..|items| - 1], items[|items| - 1];
      UnflaggedUnder(front, a, b);
      UnflaggedAppend(FlatMap(OneUnder(a), front), OneUnder(a)(last));
      assert AllUnflagged([Emission(a, last)]) == [Unflagged(Emission(a, last))] by {
        assert [Emission(a, last)][..0] == [];
      }
    }
  }

  /** Named items leave, in any order, caches that are the same up to their flags. */
  lemma CachesSameButFlags(env: Env, c: Cache, d: Cache, a: seq<Item>, b: seq<Item>)
    requires SameButFlags(c, d) && AllNamed(env, a) && AllNamed(env, b) && multiset(a) == multiset(b)
    ensures SameButFlags(CacheAfter(c, a), CacheAfter(d, b))
  {
    hide CacheAfter, FirstSeen, NewStat;
    var x, y := CacheAfter(c, a), CacheAfter(d, b);
    forall k
      ensures (k in x <==> k in y) && (k in x ==> Unflagged(x[k]) == Unflagged(y[k]))
    {
      CacheKeepsFirstSeen(c, a, k);
      CacheKeepsFirstSeen(d, b, k);
      SeenInBoth(a, b, k);
      SeenInBoth(b, a, k);
      SeenIsNamed(env, a, k);
      SeenIsNamed(env, b, k);
    }
  }

  lemma {:induction false} SeenSomewhere(items: seq<Item>, key: string)
    ensures FirstSeen(items, key).Some? <==> exists i | 0 <= i < |items| :: items[i].key == key
  {
    if items != [] && items[0].key != key {
      SeenSomewhere(items[1..], key);
      assert forall i | 0 < i < |items| :: items[i] == items[1..][i - 1];
    }
  }

  lemma SeenInBoth(a: seq<Item>, b: seq<Item>, key: string)
    requires multiset(a) == multiset(b)
    ensures FirstSeen(a, key).Some? ==> FirstSeen(b, key).Some?
  {
    SeenSomewhere(a, key);
    SeenSomewhere(b, key);
    if FirstSeen(a, key).Some? {
      var i :| 0 <= i < |a| && a[i].key == key;
      assert a[i] in multiset(b);
      var j :| 0 <= j < |b| && b[j] == a[i];
    }
    hide FirstSeen;
  }

  lemma SeenIsNamed(env: Env, items: seq<Item>, key: string)
    requires AllNamed(env, items)
    ensures FirstSeen(items, key).Some?
            ==> Unflagged(FirstSeen(items, key).value) == Unflagged(NewStat(env, Namespace, key, true))
  {
    FirstSeenIsFirstFlag(env, items, key);
    hide FirstSeen, FirstFlag;
  }

  /** Named items send, in any order, the same stats up to their flags. */
  lemma NamedPermute(env: Env, c: Cache, d: Cache, a: seq<Item>, b: seq<Item>)
    requires SameButFlags(c, d) && AllNamed(env, a) && AllNamed(env, b) && multiset(a) == multiset(b)
    ensures multiset(AllUnflagged(Emitted(c, a))) == multiset(AllUnflagged(Emitted(d, b)))
  {
    var x, y := CacheAfter(c, a), CacheAfter(d, b);
    EmittedUnderFinal(c, a, x);
    EmittedUnderFinal(d, b, y);
    hide Emitted, CacheAfter, OneUnder, OneUnflaggedUnder, FlatMap, AllUnflagged, AllNamed;
    CachesSameButFlags(env, c, d, a, b);
    Reflexive(y);
    UnflaggedUnder(a, x, y);
    UnflaggedUnder(b, y, y);
    FlatMapPermutes(OneUnflaggedUnder(y), a, b);
  }

  lemma Reflexive(c: Cache)
    ensures SameButFlags(c, c)
  {
  }

  // ----- Latencies -----

  ghost function GroupFor(env: Env, ids: Ids, res: LP.Latencies): Lat.Entry -> seq<Stat>
    requires Lat.AllBalanced(res)
  {
    (e: Lat.Entry) =>
      if e.0 in res && e.1 in res[e.0] && Lat.Unfiltered(env.cfg, e.1)
      then Lat.Group(env, ids, e.0, e.1, res[e.0][e.1], |res[e.0][e.1].bucketLabels|)
      else []
  }

  lemma {:induction false} EmissionsFlat(env: Env, ids: Ids, res: LP.Latencies, order: seq<Lat.Entry>)
    requires Lat.AllBalanced(res) && Lat.Covers(res, order)
    ensures Lat.Emissions(env, ids, res, order) == FlatMap(GroupFor(env, ids, res), order)
  {
    hide Lat.Group, Lat.Unfiltered;
    if order != [] {
      var front, last := order[..|order| - 1], order[|order| - 1];
      assert front + [last] == order;
      Lat.EmissionsSnoc(env, ids, res, front, last);
      EmissionsFlat(env, ids, res, front);
    }
  }

  lemma EmissionsPermute(env: Env, ids: Ids, res: LP.Latencies, a: seq<Lat.Entry>, b: seq<Lat.Entry>)
    requires Lat.AllBalanced(res) && Lat.IsEntryOrder(a, res) && Lat.IsEntryOrder(b, res)
    ensures multiset(Lat.Emissions(env, ids, res, a)) == multiset(Lat.Emissions(env, ids, res, b))
  {
    OrdersPermute(a, b);
    EmissionsFlat(env, ids, res, a);
    EmissionsFlat(env, ids, res, b);
    hide Lat.Emissions, GroupFor, FlatMap, Lat.IsEntryOrder;
    FlatMapPermutes(GroupFor(env, ids, res), a, b);
  }

  /** The emissions of one key. */
  function KeyEmissions(env: Env, ids: Ids, raw: map<string, string>, key: string, order: seq<Lat.Entry>): seq<Stat>
    requires Lat.LatencyResult(env, raw, key).Some? && Lat.IsEntryOrder(order, Lat.LatencyResult(env, raw, key).value)
  {
    Lat.ResultIsBalanced(env, raw, key);
    Lat.Emissions(env, ids, Lat.LatencyResult(env, raw, key).value, order)
  }

  /** One more key in front of which nothing changes. */
  lemma RefreshLast(env: Env, ids: Ids, keys: seq<string>, raw: map<string, string>, orders: seq<seq<Lat.Entry>>,
                    key: string, order: seq<Lat.Entry>)
    requires Lat.RefreshReady(env, keys + [key], raw, orders + [order]) && |keys| == |orders|
    ensures Lat.RefreshReady(env, keys, raw, orders)
    ensures Lat.LatencyResult(env, raw, key).Some? && Lat.IsEntryOrder(order, Lat.LatencyResult(env, raw, key).value)
    ensures multiset(Lat.RefreshStats(env, ids, keys + [key], raw, orders + [order]))
         == multiset(Lat.RefreshStats(env, ids, keys, raw, orders)) + multiset(KeyEmissions(env, ids, raw, key, order))
  {
    hide Lat.LatencyResult, Lat.Emissions, Lat.IsEntryOrder, Lat.AllBalanced, Lat.RefreshStats;
    var n := |keys|;
    assert (keys + [key])[n] == key && (orders + [order])[n] == order;
    assert forall k | 0 <= k < n :: (keys + [key])[k] == keys[k] && (orders + [order])[k] == orders[k];
    Lat.ResultIsBalanced(env, raw, key);
    Lat.RefreshStatsSnoc(env, ids, keys, raw, orders, key, order);
  }

  lemma ReadyWithout(env: Env, keys: seq<string>, raw: map<string, string>, orders: seq<seq<Lat.Entry>>, i: nat)
    requires Lat.RefreshReady(env, keys, raw, orders) && i < |keys|
    ensures Lat.RefreshReady(env, Drop(keys, i), raw, Drop(orders, i))
    ensures Lat.LatencyResult(env, raw, keys[i]).Some?
            && Lat.IsEntryOrder(orders[i], Lat.LatencyResult(env, raw, keys[i]).value)
  {
    hide Lat.LatencyResult, Lat.IsEntryOrder;
  }

  lemma {:induction false} RefreshWithout(env: Env, ids: Ids, keys: seq<string>, raw: map<string, string>,
                                          orders: seq<seq<Lat.Entry>>, i: nat)
    requires Lat.RefreshReady(env, keys, raw, orders) && i < |keys|
    ensures |orders| == |keys| && Lat.RefreshReady(env, Drop(keys, i), raw, Drop(orders, i))
    ensures Lat.LatencyResult(env, raw, keys[i]).Some?
            && Lat.IsEntryOrder(orders[i], Lat.LatencyResult(env, raw, keys[i]).value)
    ensures multiset(Lat.RefreshStats(env, ids, keys, raw, orders))
         == multiset(Lat.RefreshStats(env, ids, Drop(keys, i), raw, Drop(orders, i)))
           + multiset(KeyEmissions(env, ids, raw, keys[i], orders[i]))
  {
    assert |orders| == |keys|;
    hide *;
    ReadyWithout(env, keys, raw, orders, i);
    var n := |keys| - 1;
    var front, rest, key, order := keys[..n], orders[..n], keys[n], orders[n];
    assert keys == front + [key] && orders == rest + [order];
    RefreshLast(env, ids, front, raw, rest, key, order);
    if i == n {
      DropLast(front, key);
      DropLast(rest, order);
    } else {
      RefreshWithout(env, ids, front, raw, rest, i);
      DropSnoc(front, key, i);
      DropSnoc(rest, order, i);
      RefreshLast(env, ids, Drop(front, i), raw, Drop(rest, i), key, order);
      Swap(multiset(Lat.RefreshStats(env, ids, Drop(front, i), raw, Drop(rest, i))),
           multiset(KeyEmissions(env, ids, raw, keys[i], orders[i])),
           multiset(KeyEmissions(env, ids, raw, key, order)));
    }
  }

  lemma KeyEmissionsPermute(env: Env, ids: Ids, raw: map<string, string>, key: string, a: seq<Lat.Entry>,
                            b: seq<Lat.Entry>)
    requires Lat.LatencyResult(env, raw, key).Some?
    requires Lat.IsEntryOrder(a, Lat.LatencyResult(env, raw, key).value)
             && Lat.IsEntryOrder(b, Lat.LatencyResult(env, raw, key).value)
    ensures multiset(KeyEmissions(env, ids, raw, key, a)) == multiset(KeyEmissions(env, ids, raw, key, b))
  {
    hide Lat.LatencyResult, Lat.Emissions, Lat.IsEntryOrder, Lat.AllBalanced;
    Lat.ResultIsBalanced(env, raw, key);
    EmissionsPermute(env, ids, Lat.LatencyResult(env, raw, key).value, a, b);
  }

  /** Permuted keys, each reply walked in any order: the same latency stats, as often. */
  lemma {:induction false} RefreshPermutes(env: Env, ids: Ids, raw: map<string, string>, keys: seq<string>,
                                           orders: seq<seq<Lat.Entry>>,
                                           keys': seq<string>, orders': seq<seq<Lat.Entry>>)
    requires Lat.RefreshReady(env, keys, raw, orders) && Lat.RefreshReady(env, keys', raw, orders')
    requires multiset(keys) == multiset(keys')
    ensures multiset(Lat.RefreshStats(env, ids, keys, raw, orders))
         == multiset(Lat.RefreshStats(env, ids, keys', raw, orders'))
    decreases |keys|
  {
    assert |orders| == |keys| && |orders'| == |keys'|;
    hide *;
    if keys == [] {
      EmptyPermutes(keys, keys');
      NothingRefreshed(env, ids, raw, orders, orders');
    } else {
      var n := |keys| - 1;
      var front, rest := keys[..n], orders[..n];
      var i := Without(keys, keys');
      DropEnd(keys);
      DropEnd(orders);
      RefreshWithout(env, ids, keys, raw, orders, n);
      RefreshWithout(env, ids, keys', raw, orders', i);
      RefreshPermutes(env, ids, raw, front, rest, Drop(keys', i), Drop(orders', i));
      KeyEmissionsPermute(env, ids, raw, keys[n], orders[n], orders'[i]);
    }
  }

  lemma NothingRefreshed(env: Env, ids: Ids, raw: map<string, string>, orders: seq<seq<Lat.Entry>>,
                         orders': seq<seq<Lat.Entry>>)
    requires Lat.RefreshReady(env, [], raw, orders) && Lat.RefreshReady(env, [], raw, orders')
    ensures Lat.RefreshStats(env, ids, [], raw, orders) == Lat.RefreshStats(env, ids, [], raw, orders')
  {
  }

  // ----- Whole cycles -----

  lemma CachedPermute(env: Env, c: Caches, d: Caches, ids: Ids, sinkCount: nat, k: Keys, l: Keys,
                      raw: map<string, string>, a: Orders, b: Orders)
    requires AlikeCaches(c, d) && CachedReady(env, ids, k, raw, a) && CachedReady(env, ids, l, raw, b)
    requires k.namespaces == l.namespaces && k.sindex == l.sindex && k.xdr == l.xdr
    ensures var x, y := ItemsOf(env, ids, sinkCount, k, raw, a), ItemsOf(env, ids, sinkCount, l, raw, b);
            && multiset(AllUnflagged(Emitted(c.namespaces, x.namespaces)))
              == multiset(AllUnflagged(Emitted(d.namespaces, y.namespaces)))
            && multiset(Emitted(c.node, x.node)) == multiset(Emitted(d.node, y.node))
            && multiset(Emitted(c.sets, x.sets)) == multiset(Emitted(d.sets, y.sets))
            && multiset(Emitted(c.sindex, x.sindex)) == multiset(Emitted(d.sindex, y.sindex))
            && multiset(Emitted(c.xdr, x.xdr)) == multiset(Emitted(d.xdr, y.xdr))
            && AlikeCaches(CachesAfter(c, x), CachesAfter(d, y))
  {
    hide CacheAfter, Emitted, NS.Items, NS.KeysReady, Node.Items, Node.AgentsSafe, Loop.Items, Loop.Ready;
    hide Index.Decodes, IsOrder, AllUnflagged;
    hide SetsOf.Jobs, Index.Jobs, XD.Jobs, AllNamed, Labelled;
    var x, y := ItemsOf(env, ids, sinkCount, k, raw, a), ItemsOf(env, ids, sinkCount, l, raw, b);
    NamespaceItemsPermute(env, ids, raw, k.namespaces, a.namespaces, b.namespaces);
    ItemsWellMade(env, ids, raw, k.namespaces, a.namespaces);
    ItemsWellMade(env, ids, raw, k.namespaces, b.namespaces);
    NamedPermute(env, c.namespaces, d.namespaces, x.namespaces, y.namespaces);
    CachesSameButFlags(env, c.namespaces, d.namespaces, x.namespaces, y.namespaces);
    NodeItemsPermute(env, ids, raw, sinkCount, a, b);
    NodeCacheIgnoresOrder(env, c.node, ids, raw, sinkCount, a, b);
    EmittedPermutes(c.node, x.node, y.node);
    LoopPermutes(env, c.sets, SetsOf.Jobs(ids, SetsOf.Pieces(raw)), a.sets, b.sets);
    CacheIgnoresOrder(env, c.sets, SetsOf.Jobs(ids, SetsOf.Pieces(raw)), a.sets, b.sets);
    LoopPermutes(env, c.sindex, Index.Jobs(ids, raw, k.sindex), a.sindex, b.sindex);
    CacheIgnoresOrder(env, c.sindex, Index.Jobs(ids, raw, k.sindex), a.sindex, b.sindex);
    LoopPermutes(env, c.xdr, XD.Jobs(ids, raw, k.xdr), a.xdr, b.xdr);
    CacheIgnoresOrder(env, c.xdr, XD.Jobs(ids, raw, k.xdr), a.xdr, b.xdr);
  }

  lemma LoopPermutes(env: Env, cache: Cache, jobs: seq<Loop.Job>, a: seq<seq<string>>, b: seq<seq<string>>)
    requires Loop.Ready(jobs, a) && Loop.Ready(jobs, b)
    ensures multiset(Emitted(cache, Loop.Items(env, jobs, a))) == multiset(Emitted(cache, Loop.Items(env, jobs, b)))
  {
    hide *;
    LoopItemsPermute(env, jobs, a, b);
    CacheIgnoresOrder(env, cache, jobs, a, b);
    EmittedPermutes(cache, Loop.Items(env, jobs, a), Loop.Items(env, jobs, b));
  }

  lemma AppendPermutes(a: seq<Stat>, a': seq<Stat>, b: seq<Stat>, b': seq<Stat>)
    requires multiset(AllUnflagged(a)) == multiset(AllUnflagged(a'))
             && multiset(AllUnflagged(b)) == multiset(AllUnflagged(b'))
    ensures multiset(AllUnflagged(a + b)) == multiset(AllUnflagged(a' + b'))
  {
    UnflaggedAppend(a, b);
    UnflaggedAppend(a', b');
    hide AllUnflagged;
  }

  lemma CycleStatsPermute(env: Env, m: Machine, n: Machine, k: Keys, l: Keys, raw: map<string, string>, a: Orders,
                          b: Orders)
    requires Alike(m, n) && RepliesReady(env, m.ids, k, raw, a) && RepliesReady(env, n.ids, l, raw, b)
    requires k == l.(latency := k.latency) && multiset(k.latency) == multiset(l.latency)
    ensures multiset(AllUnflagged(StatsOfCycle(env, m, k, raw, a)))
         == multiset(AllUnflagged(StatsOfCycle(env, n, l, raw, b)))
    ensures Alike(AfterReplies(env, m, k, raw, a), AfterReplies(env, n, l, raw, b))
  {
    hide CachedReady, ItemsOf, Emitted, AllUnflagged, Lat.RefreshReady, Lat.RefreshStats, CachesAfter, AlikeCaches;
    hide Node.Learn, NS.LearnKeys;
    var c, d := m.caches, n.caches;
    CachedPermute(env, c, d, m.ids, m.sinkCount, k, l, raw, a, b);
    RefreshPermutes(env, m.ids, raw, k.latency, a.latencies, l.latency, b.latencies);
    var x, y := ItemsOf(env, m.ids, m.sinkCount, k, raw, a), ItemsOf(env, m.ids, m.sinkCount, l, raw, b);
    var s, t := Lat.RefreshStats(env, m.ids, k.latency, raw, a.latencies),
      Lat.RefreshStats(env, m.ids, l.latency, raw, b.latencies);
    EmittedAllPermutes(c, d, x, y);
    hide EmittedAll;
    UnflaggedPermutes(s, t);
    AppendPermutes(EmittedAll(c, x), EmittedAll(d, y), s, t);
  }

  lemma EmittedAllPermutes(c: Caches, d: Caches, x: CycleItems, y: CycleItems)
    requires multiset(AllUnflagged(Emitted(c.namespaces, x.namespaces)))
          == multiset(AllUnflagged(Emitted(d.namespaces, y.namespaces)))
    requires multiset(Emitted(c.node, x.node)) == multiset(Emitted(d.node, y.node))
    requires multiset(Emitted(c.sets, x.sets)) == multiset(Emitted(d.sets, y.sets))
    requires multiset(Emitted(c.sindex, x.sindex)) == multiset(Emitted(d.sindex, y.sindex))
    requires multiset(Emitted(c.xdr, x.xdr)) == multiset(Emitted(d.xdr, y.xdr))
    ensures multiset(AllUnflagged(EmittedAll(c, x))) == multiset(AllUnflagged(EmittedAll(d, y)))
  {
    hide Emitted, AllUnflagged;
    var n, n' := Emitted(c.namespaces, x.namespaces), Emitted(d.namespaces, y.namespaces);
    var o, o' := Emitted(c.node, x.node), Emitted(d.node, y.node);
    var e, e' := Emitted(c.sets, x.sets), Emitted(d.sets, y.sets);
    var f, f' := Emitted(c.sindex, x.sindex), Emitted(d.sindex, y.sindex);
    var g, g' := Emitted(c.xdr, x.xdr), Emitted(d.xdr, y.xdr);
    UnflaggedPermutes(o, o');
    UnflaggedPermutes(e, e');
    UnflaggedPermutes(f, f');
    UnflaggedPermutes(g, g');
    AppendPermutes(n, n', o, o');
    AppendPermutes(n + o, n' + o', e, e');
    AppendPermutes(n + o + e, n' + o' + e', f, f');
    AppendPermutes(n + o + e + f, n' + o' + e' + f', g, g');
  }

  lemma PreparedAlike(env: Env, m: Machine, n: Machine, one: map<string, string>, ambient: Ambient,
                      two: map<string, string>)
    requires Alike(m, n)
    ensures Alike(Prepared(m, one, ambient), Prepared(n, one, ambient))
    ensures Alike(Identified(env, Prepared(m, one, ambient), two), Identified(env, Prepared(n, one, ambient), two))
  {
    hide AlikeCaches, NS.WithMaps, NS.Names, Node.Sinks;
  }

  /** From states that differ only in allow flags, two cycles that differ only in map orders lead to such states again,
      return the same stats, as often, but for the allow flags of namespace stats, and fail together. */
  lemma CyclesAlike(env: Env, m: Machine, n: Machine, a: Step, b: Step)
    requires Alike(m, n) && StepReady(env, m, a) && StepReady(env, n, b) && SameButOrders(a, b)
    ensures Alike(Next(env, m, a), Next(env, n, b))
    ensures multiset(AllUnflagged(Outcome(env, m, a).stats)) == multiset(AllUnflagged(Outcome(env, n, b).stats))
    ensures Outcome(env, m, a).failed == Outcome(env, n, b).failed
  {
    hide RepliesReady, StatsOfCycle, StepKeys, Prepared, Identified, Sanitized, AllUnflagged, Requests, AfterReplies;
    hide Alike;
    if a.one.Answer? {
      PreparedAlike(env, m, n, a.one.values, a.ambient, if a.two.Answer? then a.two.values else map[]);
    }
    if Replied(a) {
      RequestsPermute(env, m, n, a, b);
      var at, bt := Identified(env, Prepared(m, a.one.values, a.ambient), a.two.values),
        Identified(env, Prepared(n, a.one.values, a.ambient), a.two.values);
      var k, l, raw := StepKeys(env, m, a), StepKeys(env, n, b), Sanitized(env, a.two.values);
      CycleStatsPermute(env, at, bt, k, l, raw, a.orders, b.orders);
      if a.ambient.users.Fetched? {
        AppendPermutes(StatsOfCycle(env, at, k, raw, a.orders), StatsOfCycle(env, bt, l, raw, b.orders),
                       a.ambient.users.stats, a.ambient.users.stats);
      }
    }
  }

  // ----- Whole runs -----

  /** Two runs that meet the same replies and readings, and differ only in the orders in which Go walks its maps. */
  ghost predicate RunsSameButOrders(run: Run, run': Run)
  {
    |run| == |run'| && forall i | 0 <= i < |run| :: SameButOrders(run[i], run'[i])
  }

  /** Over all runs, Go's map order leaves no trace but allow flags in the namespace cache. */
  lemma {:induction false} OrderLeavesNoTrace(env: Env, now: int, run: Run, run': Run)
    requires Possible(env, now, run) && Possible(env, now, run') && RunsSameButOrders(run, run')
    ensures Alike(State(env, now, run), State(env, now, run'))
  {
    hide Alike, StepReady, Next, SameButOrders;
    if run == [] {
      SameIsAlike(Start(now));
    } else {
      var n := |run| - 1;
      OrderLeavesNoTrace(env, now, run[..n], run'[..n]);
      CyclesAlike(env, State(env, now, run[..n]), State(env, now, run'[..n]), run[n], run'[n]);
    }
  }

  /** And every cycle of two such runs asks for the same keys, as often, in each request, returns the same stats, as
      often, up to allow flags, and fails in both runs or in neither. */
  lemma RunsPermute(env: Env, now: int, run: Run, run': Run, a: Step, b: Step)
    requires Possible(env, now, run) && Possible(env, now, run') && RunsSameButOrders(run, run')
    requires StepReady(env, State(env, now, run), a) && StepReady(env, State(env, now, run'), b) && SameButOrders(a, b)
    ensures var m, n := State(env, now, run), State(env, now, run');
            && |Requests(env, m, a)| == |Requests(env, n, b)|
            && (forall i | 0 <= i < |Requests(env, m, a)| ::
                  multiset(Requests(env, m, a)[i]) == multiset(Requests(env, n, b)[i]))
            && multiset(AllUnflagged(Outcome(env, m, a).stats)) == multiset(AllUnflagged(Outcome(env, n, b).stats))
            && Outcome(env, m, a).failed == Outcome(env, n, b).failed
  {
    hide *;
    OrderLeavesNoTrace(env, now, run, run');
    RequestsPermute(env, State(env, now, run), State(env, now, run'), a, b);
    CyclesAlike(env, State(env, now, run), State(env, now, run'), a, b);
  }
}
