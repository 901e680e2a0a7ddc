/** Of what the result of a cycle is made, and what its parts are worth over whole runs. */
module CycleResults {
  import opened Text
  import opened Commons
  import opened AerospikeStat
  import opened Sending
  import opened StatsRefresher
  import opened Runs
  import opened CacheRuns
  import opened NamespaceItems
  import opened WholeCycle
  import NS = NamespaceProcessor
  import Node = NodeProcessor
  import SetsOf = SetsProcessor
  import Index = SindexProcessor
  import XD = XdrProcessor
  import Lat = LatencyProcessor
  import Loop = StatLoop
  import NamespaceSends

  // ----- Identity -----

  /** The identity under which a cycle sends: the cluster name and the service address as the server told them, or in
      Kubernetes the name of the pod. */
  function Identity(env: Env, m: Machine, s: Step): Ids
    requires s.two.Answer?
  {
    Ids(Get(s.two.values, "cluster-name"),
        match env.cfg.kubernetesPodName
        case Some(pod) => pod
        case None => Get(s.two.values, ServiceKey(m, s.ambient)))
  }

  /** What a cycle with both answers remembers of the node. */
  lemma IdentityIsRead(env: Env, m: Machine, s: Step)
    requires StepReady(env, m, s) && Replied(s)
    ensures IdsAfter(env, m, s) == Identity(env, m, s)
    ensures var after := Next(env, m, s);
            && after.ids == Identity(env, m, s) && after.build == Get(s.two.values, "build")
            && after.nodeId == Get(s.two.values, "node:") && after.infokeyService == ServiceKey(m, s.ambient)
  {
    hide KeysFor, CachedReady, Lat.RefreshReady, Sanitized, NS.WithMaps, NS.Names, PressureDue, Node.Sinks;
    hide NS.LearnKeys, Node.Learn, CachesAfter, ItemsOf;
  }

  /** Some cycle whose first request was answered had certificates. */
  predicate EverSecured(run: Run)
  {
    exists i | 0 <= i < |run| :: run[i].one.Answer? && run[i].ambient.certificates
  }

  lemma StepKeepsKey(env: Env, m: Machine, s: Step)
    requires StepReady(env, m, s)
    ensures Next(env, m, s).infokeyService == if s.one.Answer? then ServiceKey(m, s.ambient) else m.infokeyService
  {
    hide KeysFor, RepliesReady, CommandsReady, Sanitized, NS.WithMaps, NS.Names, PressureDue, Node.Sinks, AfterReplies;
    if Replied(s) {
      IdentityIsRead(env, m, s);
    }
  }

  /** Over all runs: the service address is asked for in the clear until certificates have loaded, and under the TLS key
      from then on. */
  lemma {:induction false} ServiceKeyIsHistory(env: Env, now: int, run: Run)
    requires Possible(env, now, run)
    ensures State(env, now, run).infokeyService
         == if EverSecured(run) then "service-tls-std" else "service-clear-std"
  {
    hide StepReady, Next;
    if run != [] {
      var front, s := run[..|run| - 1], run[|run| - 1];
      ServiceKeyIsHistory(env, now, front);
      StepKeepsKey(env, State(env, now, front), s);
      assert forall i | 0 <= i < |front| :: front[i] == run[i];
      assert EverSecured(run) <==> EverSecured(front) || (s.one.Answer? && s.ambient.certificates);
    }
  }

  /** The reply as the processors see it: every value sanitized, none added or lost. */
  lemma ReplyIsSanitized(env: Env, raw: map<string, string>)
    ensures Sanitized(env, raw).Keys == raw.Keys
    ensures forall key | key in raw :: Sanitized(env, raw)[key] == env.lib.sanitizeUtf8(raw[key])
  {
  }

  // ----- Result -----

  /** The walks of a cycle are walks of its replies. */
  lemma WalksAreReady(env: Env, m: Machine, s: Step)
    requires StepReady(env, m, s) && Replied(s)
    ensures var ids, raw, k := Identity(env, m, s), Sanitized(env, s.two.values), StepKeys(env, m, s);
            && NS.KeysReady(env, raw, k.namespaces, s.orders.namespaces)
            && Node.AgentsSafe(env, Node.Agents(raw))
            && IsOrder(s.orders.config, Node.ConfigOf(raw)) && IsOrder(s.orders.statistics, Node.StatisticsOf(raw))
            && Loop.Ready(SetsOf.Jobs(ids, Split(Get(raw, "sets"), ';')), s.orders.sets)
            && (forall n | 0 <= n < |k.sindex| :: Index.Decodes(k.sindex[n]))
            && Loop.Ready(Index.Jobs(ids, raw, k.sindex), s.orders.sindex)
            && Loop.Ready(XD.Jobs(ids, raw, k.xdr), s.orders.xdr)
            && Lat.RefreshReady(env, k.latency, raw, s.orders.latencies)
  {
    IdentityIsRead(env, m, s);
    hide KeysFor, IdsAfter, Identity, Sanitized, NS.KeysReady, Node.AgentsSafe, IsOrder, Loop.Ready, Index.Decodes;
    hide Lat.RefreshReady, SetsOf.Jobs, Index.Jobs, XD.Jobs, CommandsReady, Split, Node.ConfigOf, Node.StatisticsOf;
  }

  /** What the six processors send, one after the other, each for its own keys and out of the same reply. */
  ghost function Made(env: Env, m: Machine, s: Step): seq<Stat>
    requires StepReady(env, m, s) && Replied(s)
  {
    WalksAreReady(env, m, s);
    var ids, raw, k := Identity(env, m, s), Sanitized(env, s.two.values), StepKeys(env, m, s);
    var sinkCount := |Split(Get(s.one.values, "logs"), ';')|;
    Emitted(m.caches.namespaces, NS.Items(env, ids, raw, k.namespaces, s.orders.namespaces))
    + Emitted(m.caches.node, Node.Items(env, ids, raw, sinkCount, s.orders.config, s.orders.statistics))
    + Emitted(m.caches.sets, Loop.Items(env, SetsOf.Jobs(ids, Split(Get(raw, "sets"), ';')), s.orders.sets))
    + Emitted(m.caches.sindex, Loop.Items(env, Index.Jobs(ids, raw, k.sindex), s.orders.sindex))
    + Emitted(m.caches.xdr, Loop.Items(env, XD.Jobs(ids, raw, k.xdr), s.orders.xdr))
    + Lat.RefreshStats(env, ids, k.latency, raw, s.orders.latencies)
  }

  lemma StatsAreMade(env: Env, m: Machine, s: Step)
    requires StepReady(env, m, s) && Replied(s)
    ensures var at := Identified(env, Prepared(m, s.one.values, s.ambient), s.two.values);
            StatsOfCycle(env, at, StepKeys(env, m, s), Sanitized(env, s.two.values), s.orders) == Made(env, m, s)
  {
    WalksAreReady(env, m, s);
    IdentityIsRead(env, m, s);
    hide KeysFor, Identity, Sanitized, NS.KeysReady, Node.AgentsSafe, IsOrder, Loop.Ready, Index.Decodes;
    hide Lat.RefreshReady, SetsOf.Jobs, Index.Jobs, XD.Jobs, CommandsReady, Split, Node.ConfigOf, Node.StatisticsOf;
    hide NS.Items, Node.Items, Loop.Items, Lat.RefreshStats, Emitted, NS.WithMaps, NS.Names, PressureDue;
  }

  /** The result of a cycle, exactly: nothing if one of its requests fails; otherwise the stats of all six processors
      and the user statistics behind them, none left out and none added. It fails if a request or the user statistics
      do. */
  lemma ResultIsMade(env: Env, m: Machine, s: Step)
    requires StepReady(env, m, s)
    ensures Outcome(env, m, s).failed <==> !Replied(s) || s.ambient.users.FetchFailed?
    ensures Outcome(env, m, s).stats ==
              if !Replied(s) then []
              else Made(env, m, s) + if s.ambient.users.Fetched? then s.ambient.users.stats else []
  {
    hide Made, StatsOfCycle, Identified, Prepared, Sanitized, StepKeys, RepliesReady, CommandsReady;
    if Replied(s) {
      StatsAreMade(env, m, s);
    }
  }

  // ----- Whole runs -----

  lemma NamedIsDescribed(env: Env, item: Item)
    requires Named(env, item)
    ensures Describes(env, Namespace, item.key, item.built)
  {
    hide GetMetricType;
  }

  lemma StepDescribed(env: Env, m: Machine, s: Step)
    requires StepReady(env, m, s)
    ensures NamedItems(env, Namespace, StepItems(env, m, s).namespaces)
  {
    hide StepReady, StepItems, Named, Describes;
    StepNamed(env, m, s);
    var items := StepItems(env, m, s).namespaces;
    forall n | 0 <= n < |items|
      ensures Describes(env, Namespace, items[n].key, items[n].built)
    {
      NamedIsDescribed(env, items[n]);
    }
  }

  /** After any run every descriptor in the namespace cache is named like its key: the precondition under which the
      replies to namespace keys go out as they say. */
  lemma {:induction false} NamespaceCacheIsNamed(env: Env, now: int, run: Run)
    requires Possible(env, now, run)
    ensures NamedCache(env, Namespace, State(env, now, run).caches.namespaces)
  {
    hide StepReady, Next, StepItems, Describes, NamedItems, CacheAfter;
    if run != [] {
      var front, s := run[..|run| - 1], run[|run| - 1];
      var m := State(env, now, front);
      NamespaceCacheIsNamed(env, now, front);
      StepCaches(env, m, s);
      StepDescribed(env, m, s);
      NamedAfter(env, Namespace, m.caches.namespaces, StepItems(env, m, s).namespaces);
    }
  }

  /** The stats are those that a namespace reply must send: one for each of its senders, telling what the reply says. */
  ghost predicate AnswersFor(env: Env, ids: Ids, ns: string, stats: map<string, string>, order: seq<string>,
                             out: seq<Stat>)
  {
    var senders := Picked(order, NamespaceSends.Sender(env, stats));
    && |out| == |senders|
    && (forall n | 0 <= n < |out| :: NamespaceSends.Tells(env, ids, ns, stats, senders[n], out[n]))
    && (forall stat :: stat in senders <==> NamespaceSends.GoesOut(env, stats, stat))
    && (forall i, j | 0 <= i < j < |senders| :: senders[i] != senders[j])
  }

  /** The stats stand somewhere in the result in one piece. */
  ghost predicate Answered(env: Env, ids: Ids, ns: string, stats: map<string, string>, order: seq<string>,
                           out: seq<Stat>)
  {
    exists i, j | 0 <= i <= j <= |out| :: AnswersFor(env, ids, ns, stats, order, out[i..j])
  }

  lemma BeforeIsNamed(env: Env, cache: Cache, parts: seq<seq<Item>>, n: nat)
    requires n < |parts| && NamedCache(env, Namespace, cache) && NamedItems(env, Namespace, Flat(parts))
    ensures NamedCache(env, Namespace, CacheAfter(cache, Flat(parts[..n])))
  {
    FlatSplit(parts, n);
    var before := Flat(parts[..n]);
    assert forall i | 0 <= i < |before| :: before[i] == Flat(parts)[i];
    hide Describes, Flat, NamedCache;
    NamedAfter(env, Namespace, cache, before);
  }

  lemma PartAnswers(env: Env, ids: Ids, ns: string, stats: map<string, string>, order: seq<string>, cache: Cache,
                    parts: seq<seq<Item>>, n: nat)
    requires IsOrder(order, stats) && n < |parts| && parts[n] == NS.StatItems(env, ids, ns, stats, order)
    requires NamedCache(env, Namespace, cache) && NamedItems(env, Namespace, Flat(parts))
    ensures var out := Emitted(cache, Flat(parts));
            Answered(env, ids, ns, stats, order, out)
  {
    hide StepItems, Emitted, CacheAfter, Flat, AnswersFor, NamedCache, NamedItems, NS.StatItems;
    BeforeIsNamed(env, cache, parts, n);
    PartIsSent(cache, parts, n);
    var before := CacheAfter(cache, Flat(parts[..n]));
    ReplyAnswers(env, ids, ns, stats, order, before);
    var i := |Flat(parts[..n])|;
    assert Emitted(cache, Flat(parts))[i..i + |parts[n]|] == Emitted(before, parts[n]);
  }

  lemma ReplyAnswers(env: Env, ids: Ids, ns: string, stats: map<string, string>, order: seq<string>, cache: Cache)
    requires IsOrder(order, stats) && NamedCache(env, Namespace, cache)
    ensures AnswersFor(env, ids, ns, stats, order, Emitted(cache, NS.StatItems(env, ids, ns, stats, order)))
  {
    NamespaceSends.ReplyGoesOut(env, ids, ns, stats, order, cache);
    hide NamedCache, Emitted, NS.StatItems, Picked, NamespaceSends.Tells, NamespaceSends.GoesOut, IsOrder;
  }

  lemma PartIs(env: Env, ids: Ids, raw: map<string, string>, keys: seq<string>, orders: seq<seq<string>>, n: nat,
               ns: string)
    requires NS.KeysReady(env, raw, keys, orders) && n < |keys| && keys[n] == "namespace/" + ns
    ensures |orders| == |keys| && IsOrder(orders[n], StatsOf(Get(raw, "namespace/" + ns), ';'))
    ensures NamespaceSends.KeyParts(env, ids, raw, keys, orders)[n]
         == NS.StatItems(env, ids, RemoveAll(ns, "namespace/"), StatsOf(Get(raw, "namespace/" + ns), ';'), orders[n])
  {
    assert NS.ItemSafe(env, raw, keys[n]) && IsOrder(orders[n], NS.ReplyOf(raw, keys[n]));
    NamespaceSends.KeysBring(env, ids, raw, ns, []);
    NamespaceSends.KeysBring(env, ids, raw, ns, orders[n]);
    hide StatsOf, RemoveAll, NS.StatItems, NS.KeyItems, NS.ReplyOf, NS.ItemSafe, Get, Split, NS.RosterItems;
    hide NS.PressureItems;
  }

  lemma ReplyIsSent(env: Env, ids: Ids, raw: map<string, string>, keys: seq<string>, orders: seq<seq<string>>,
                    cache: Cache, n: nat, ns: string)
    requires NS.KeysReady(env, raw, keys, orders) && n < |keys| && keys[n] == "namespace/" + ns
    requires NamedCache(env, Namespace, cache) && NamedItems(env, Namespace, NS.Items(env, ids, raw, keys, orders))
    ensures |orders| == |keys|
    ensures var out := Emitted(cache, NS.Items(env, ids, raw, keys, orders));
            Answered(env, ids, RemoveAll(ns, "namespace/"), StatsOf(Get(raw, "namespace/" + ns), ';'), orders[n], out)
  {
    hide *;
    PartIs(env, ids, raw, keys, orders, n, ns);
    NamespaceSends.RefreshIsFlat(env, ids, raw, keys, orders);
    PartAnswers(env, ids, RemoveAll(ns, "namespace/"), StatsOf(Get(raw, "namespace/" + ns), ';'), orders[n], cache,
                NamespaceSends.KeyParts(env, ids, raw, keys, orders), n);
  }

  lemma Front(a: seq<Stat>, b: seq<Stat>, c: seq<Stat>, d: seq<Stat>, e: seq<Stat>, f: seq<Stat>, g: seq<Stat>)
    ensures var out := a + b + c + d + e + f + g; |a| <= |out| && out[..|a|] == a
  {
  }

  /** The items of the namespace processor in a cycle. */
  ghost function OwnItems(env: Env, m: Machine, s: Step): seq<Item>
    requires StepReady(env, m, s) && Replied(s)
  {
    WalksAreReady(env, m, s);
    NS.Items(env, Identity(env, m, s), Sanitized(env, s.two.values), StepKeys(env, m, s).namespaces,
             s.orders.namespaces)
  }

  /** The namespace processor's part of the result comes first. */
  lemma OwnPart(env: Env, m: Machine, s: Step)
    requires StepReady(env, m, s) && Replied(s)
    ensures var own, out := Emitted(m.caches.namespaces, OwnItems(env, m, s)), Outcome(env, m, s).stats;
            |own| <= |out| && out[..|own|] == own
  {
    WalksAreReady(env, m, s);
    ResultIsMade(env, m, s);
    hide RepliesReady, CommandsReady, KeysFor, Identity, IdsAfter, Sanitized, NS.KeysReady, NS.Items, Emitted, Outcome;
    hide Node.Items, Loop.Items, Lat.RefreshStats, Index.Jobs, XD.Jobs, SetsOf.Jobs, Split, Node.AgentsSafe, IsOrder;
    hide Loop.Ready, Index.Decodes, Lat.RefreshReady;
    var ids, raw, k := Identity(env, m, s), Sanitized(env, s.two.values), StepKeys(env, m, s);
    Front(Emitted(m.caches.namespaces, OwnItems(env, m, s)),
          Emitted(m.caches.node, Node.Items(env, ids, raw, |Split(Get(s.one.values, "logs"), ';')|, s.orders.config,
                                            s.orders.statistics)),
          Emitted(m.caches.sets, Loop.Items(env, SetsOf.Jobs(ids, Split(Get(raw, "sets"), ';')), s.orders.sets)),
          Emitted(m.caches.sindex, Loop.Items(env, Index.Jobs(ids, raw, k.sindex), s.orders.sindex)),
          Emitted(m.caches.xdr, Loop.Items(env, XD.Jobs(ids, raw, k.xdr), s.orders.xdr)),
          Lat.RefreshStats(env, ids, k.latency, raw, s.orders.latencies),
          if s.ambient.users.Fetched? then s.ambient.users.stats else []);
  }

  lemma OwnIsNamed(env: Env, m: Machine, s: Step)
    requires StepReady(env, m, s) && Replied(s)
    ensures NamedItems(env, Namespace, OwnItems(env, m, s))
  {
    WalksAreReady(env, m, s);
    IdentityIsRead(env, m, s);
    StepDescribed(env, m, s);
    hide RepliesReady, CommandsReady, KeysFor, Identity, IdsAfter, Sanitized, NS.KeysReady, NS.Items, NamedItems;
    hide Node.Items, Loop.Items, Index.Jobs, XD.Jobs, SetsOf.Jobs, Split, Node.AgentsSafe, IsOrder, Loop.Ready;
    hide Index.Decodes, Lat.RefreshReady;
    assert OwnItems(env, m, s) == StepItems(env, m, s).namespaces;
  }

  lemma OwnItemsAre(env: Env, m: Machine, s: Step)
    requires StepReady(env, m, s) && Replied(s)
    ensures var ids, raw, keys := Identity(env, m, s), Sanitized(env, s.two.values), StepKeys(env, m, s).namespaces;
            && NS.KeysReady(env, raw, keys, s.orders.namespaces)
            && OwnItems(env, m, s) == NS.Items(env, ids, raw, keys, s.orders.namespaces)
  {
    WalksAreReady(env, m, s);
    hide RepliesReady, KeysFor, Identity, Sanitized, NS.KeysReady, NS.Items, CommandsReady, Node.AgentsSafe, IsOrder;
    hide Loop.Ready, Index.Decodes, Lat.RefreshReady, Index.Jobs, XD.Jobs, SetsOf.Jobs, Split;
  }

  lemma SliceOfFront(out: seq<Stat>, n: nat, i: nat, j: nat)
    requires i <= j <= n <= |out|
    ensures out[..n][i..j] == out[i..j]
  {
    forall k | 0 <= k < j - i
      ensures out[..n][i..j][k] == out[i..j][k]
    {
    }
  }

  lemma AnsweredInFront(env: Env, ids: Ids, ns: string, stats: map<string, string>, order: seq<string>,
                        own: seq<Stat>, out: seq<Stat>)
    requires |own| <= |out| && out[..|own|] == own && Answered(env, ids, ns, stats, order, own)
    ensures Answered(env, ids, ns, stats, order, out)
  {
    hide AnswersFor;
    var i, j :| 0 <= i <= j <= |own| && AnswersFor(env, ids, ns, stats, order, own[i..j]);
    SliceOfFront(out, |own|, i, j);
  }

  /** End to end, over all runs: among the stats that a cycle returns stand, in one piece, those of each namespace that
      its first request lists: one for each convertible stat with a name, with the number that the sanitized text reads
      as, under its own name and labels. */
  lemma NamespaceReplyIsSent(env: Env, now: int, run: Run, s: Step, n: nat, ns: string)
    requires Possible(env, now, run) && StepReady(env, State(env, now, run), s) && Replied(s)
    requires var keys := StepKeys(env, State(env, now, run), s).namespaces; n < |keys| && keys[n] == "namespace/" + ns
    ensures n < |s.orders.namespaces|
    ensures var m := State(env, now, run);
            Answered(env, Identity(env, m, s), RemoveAll(ns, "namespace/"),
                     StatsOf(Get(Sanitized(env, s.two.values), "namespace/" + ns), ';'), s.orders.namespaces[n],
                     Outcome(env, m, s).stats)
  {
    NamespaceCacheIsNamed(env, now, run);
    CycleReplyIsSent(env, State(env, now, run), s, n, ns);
    hide Possible, State, StepReady, StepKeys, Answered, Outcome, StatsOf, Sanitized, RemoveAll, Identity;
  }

  lemma CycleReplyIsSent(env: Env, m: Machine, s: Step, n: nat, ns: string)
    requires NamedCache(env, Namespace, m.caches.namespaces) && StepReady(env, m, s) && Replied(s)
    requires var keys := StepKeys(env, m, s).namespaces; n < |keys| && keys[n] == "namespace/" + ns
    ensures n < |s.orders.namespaces|
    ensures Answered(env, Identity(env, m, s), RemoveAll(ns, "namespace/"),
                     StatsOf(Get(Sanitized(env, s.two.values), "namespace/" + ns), ';'), s.orders.namespaces[n],
                     Outcome(env, m, s).stats)
  {
    hide RepliesReady, CommandsReady, KeysFor, Outcome, Answered, StatsOf, Sanitized, RemoveAll, Identity, NamedCache;
    hide NS.KeysReady, NS.Items, OwnItems, NamedItems, Emitted, Get;
    OwnPart(env, m, s);
    OwnIsNamed(env, m, s);
    OwnItemsAre(env, m, s);
    ReplyIsSent(env, Identity(env, m, s), Sanitized(env, s.two.values), StepKeys(env, m, s).namespaces,
                s.orders.namespaces, m.caches.namespaces, n, ns);
    AnsweredInFront(env, Identity(env, m, s), RemoveAll(ns, "namespace/"),
                    StatsOf(Get(Sanitized(env, s.two.values), "namespace/" + ns), ';'), s.orders.namespaces[n],
                    Emitted(m.caches.namespaces, OwnItems(env, m, s)), Outcome(env, m, s).stats);
  }
}
