/** Metric descriptors, the allow and type rules that fill them, and the memo caches that keep them. */
module AerospikeStat {
  import opened Text
  import opened Wrappers

  datatype Context = Namespace | NodeStats | Sets | Sindex | Xdr | Latencies | Users
                   | SysMemory | SysNetstat | SysNetwork | SysFilefd

  datatype MetricType = Gauge | Counter

  datatype Stat = Stat(context: Context, name: string, mtype: MetricType, isAllowed: bool, isConfig: bool,
                       value: real, labels: seq<string>, labelValues: seq<string>)

  /** Calls into code that is not part of this model. Every result holds for whatever these functions compute. */
  datatype Library = Library(
    parseFloat: string -> Option<real>,
    parseBool: string -> Option<bool>,
    globMatch: (string, string) -> bool,
    parsedVersionAtLeast: (string, string) -> Option<bool>,
    matchArrayStat: (string, string) -> Option<(string, string, string)>,
    decodeBase64: string -> Option<string>,
    trimSpace: string -> string,
    sanitizeUtf8: string -> string)

  /** The configuration, which is constant after start. */
  datatype Config = Config(
    allowlist: Context -> seq<string>,
    blocklist: Context -> seq<string>,
    gauges: Context -> set<string>,
    disableSindexMetrics: bool,
    disableLatenciesMetrics: bool,
    latencyBucketsCount: nat,
    latenciesAllowlistEnabled: bool,
    latenciesAllowlist: seq<string>,
    latenciesBlocklist: seq<string>,
    kubernetesPodName: Option<string>)

  datatype Env = Env(lib: Library, cfg: Config)

  /** The two identity labels that every metric carries. */
  datatype Ids = Ids(clusterName: string, service: string)

  /** commons.TryConvert: a float, else a boolean as 0 or 1. */
  function TryConvert(env: Env, s: string): Option<real>
  {
    match env.lib.parseFloat(s)
    case Some(f) => Some(f)
    case None =>
      match env.lib.parseBool(s)
      case Some(b) => Some(if b then 1.0 else 0.0)
      case None => None
  }

  /** None stands for the error return. */
  function BuildAtLeast(env: Env, build: string, ref: string): Option<bool>
  {
    if env.lib.trimSpace(build) == "" then None else env.lib.parsedVersionAtLeast(build, ref)
  }

  // ----- Allow rules and metric types -----

  predicate AnyMatch(env: Env, stat: string, patterns: seq<string>)
  {
    exists p | p in patterns :: p != "" && env.lib.globMatch(p, stat)
  }

  method LoopPatterns(env: Env, stat: string, patterns: seq<string>) returns (found: bool)
    ensures found == AnyMatch(env, stat, patterns)
  {
    for i := 0 to |patterns|
      invariant !AnyMatch(env, stat, patterns[..i])
    {
      if patterns[i] != "" {
        if env.lib.globMatch(patterns[i], stat) {
          assert patterns[i] in patterns;
          return true;
        }
      }
    }
    assert patterns[..|patterns|] == patterns;
    found := false;
  }

  /** The contexts whose stats the configuration can filter. */
  predicate IsFiltered(context: Context)
  {
    context == Namespace || context == NodeStats || context == Sets || context == Sindex || context == Xdr
  }

  /** The blocklist wins over the allowlist; an empty allowlist allows all the rest. */
  predicate IsMetricAllowed(env: Env, context: Context, stat: string)
  {
    if !IsFiltered(context) then true
    else if AnyMatch(env, stat, env.cfg.blocklist(context)) then false
    else env.cfg.allowlist(context) == [] || AnyMatch(env, stat, env.cfg.allowlist(context))
  }

  predicate IsGauge(env: Env, context: Context, stat: string)
  {
    context != Latencies && context != Users && stat in env.cfg.gauges(context)
  }

  function GetMetricType(env: Env, context: Context, name: string): MetricType
  {
    var bare := RemoveAll(name, "storage-engine");
    if context == Latencies || context == Users || '-' in bare || IsGauge(env, context, bare) then Gauge else Counter
  }

  /** A newly built descriptor: no value and no labels yet. */
  function NewStat(env: Env, context: Context, name: string, allowed: bool): Stat
  {
    Stat(context, name, GetMetricType(env, context, name), allowed, '-' in name, 0.0, [], [])
  }

  /** updateValues acts on the caller's copy of the descriptor, never on the cached one. */
  function UpdateValues(stat: Stat, value: real, labels: seq<string>, labelValues: seq<string>): Stat
  {
    stat.(value := value, labels := labels, labelValues := labelValues)
  }

  // ----- Memo caches -----

  type Cache = map<string, Stat>

  /** One emission: the cache key it looks up, the descriptor it would build, and what it sends. */
  datatype Item = Item(key: string, built: Stat, value: real, labels: seq<string>, labelValues: seq<string>)

  function Remember(cache: Cache, item: Item): Cache
  {
    if item.key in cache then cache else cache[item.key := item.built]
  }

  function Emission(cache: Cache, item: Item): Stat
  {
    UpdateValues(if item.key in cache then cache[item.key] else item.built, item.value, item.labels, item.labelValues)
  }

  /** The emission of a processor that has no cache. */
  function Uncached(item: Item): Stat
  {
    UpdateValues(item.built, item.value, item.labels, item.labelValues)
  }

  function CacheAfter(cache: Cache, items: seq<Item>): Cache
  {
    if items == [] then cache else Remember(CacheAfter(cache, items[..|items| - 1]), items[|items| - 1])
  }

  function Emitted(cache: Cache, items: seq<Item>): (stats: seq<Stat>)
    ensures |stats| == |items|
  {
    if items == [] then []
    else
      var front := items[..|items| - 1];
      Emitted(cache, front) + [Emission(CacheAfter(cache, front), items[|items| - 1])]
  }

  lemma {:induction false} CacheAppend(cache: Cache, a: seq<Item>, b: seq<Item>)
    ensures CacheAfter(cache, a + b) == CacheAfter(CacheAfter(cache, a), b)
  {
    if b == [] {
      assert a + b == a;
    } else {
      CacheAppend(cache, a, b[..|b| - 1]);
      assert (a + b)[..|a + b| - 1] == a + b[..|b| - 1];
    }
  }

  lemma {:induction false} EmittedAppend(cache: Cache, a: seq<Item>, b: seq<Item>)
    ensures Emitted(cache, a + b) == Emitted(cache, a) + Emitted(CacheAfter(cache, a), b)
  {
    if b == [] {
      assert a + b == a;
    } else {
      var front := b[..|b| - 1];
      EmittedAppend(cache, a, front);
      CacheAppend(cache, a, front);
      assert (a + b)[..|a + b| - 1] == a + front;
    }
  }

  /** Two batches of items, one after the other, are one batch. */
  lemma MemoAppend(cache: Cache, a: seq<Item>, b: seq<Item>)
    ensures CacheAfter(cache, a + b) == CacheAfter(CacheAfter(cache, a), b)
    ensures Emitted(cache, a + b) == Emitted(cache, a) + Emitted(CacheAfter(cache, a), b)
  {
    CacheAppend(cache, a, b);
    EmittedAppend(cache, a, b);
  }

  lemma MemoNothing(cache: Cache)
    ensures CacheAfter(cache, []) == cache && Emitted(cache, []) == []
  {
  }

  lemma MemoOne(cache: Cache, item: Item)
    ensures CacheAfter(cache, [item]) == Remember(cache, item) && Emitted(cache, [item]) == [Emission(cache, item)]
  {
    assert [item][..0] == [];
  }

  /** The descriptor that a cache started empty has kept for a key: that of the first item with this key. */
  function FirstSeen(items: seq<Item>, key: string): Option<Stat>
  {
    if items == [] then None
    else if items[0].key == key then Some(items[0].built)
    else FirstSeen(items[1..], key)
  }

  lemma {:induction false} CacheKeepsFirstSeen(cache: Cache, items: seq<Item>, key: string)
    ensures key in CacheAfter(cache, items) <==> key in cache || FirstSeen(items, key).Some?
    ensures key in CacheAfter(cache, items) ==>
              CacheAfter(cache, items)[key] == if key in cache then cache[key] else FirstSeen(items, key).value
    decreases |items|
  {
    if items != [] {
      CacheKeepsFirstSeen(Remember(cache, items[0]), items[1..], key);
      CacheAppend(cache, [items[0]], items[1..]);
      assert [items[0]] + items[1..] == items;
      assert [items[0]][..0] == [];
      assert CacheAfter(cache, [items[0]]) == Remember(cache, items[0]);
    }
  }

  lemma {:induction false} EmittedAt(cache: Cache, items: seq<Item>, n: nat)
    requires n < |items|
    ensures Emitted(cache, items)[n] == Emission(CacheAfter(cache, items[..n]), items[n])
  {
    if n < |items| - 1 {
      EmittedAt(cache, items[..|items| - 1], n);
      assert items[..|items| - 1][..n] == items[..n];
    }
  }

  ghost predicate IsDescriptor(stat: Stat)
  {
    stat.value == 0.0 && stat.labels == [] && stat.labelValues == []
  }

  /** When the cache is transparent: an emission equals the uncached one exactly when the first
      item with the same key built the same descriptor. */
  lemma {:induction false} CacheTransparent(items: seq<Item>, n: nat)
    requires n < |items|
    requires forall i | 0 <= i < |items| :: IsDescriptor(items[i].built)
    ensures Emitted(map[], items)[n] == Uncached(items[n])
       <==> FirstSeen(items, items[n].key) == Some(items[n].built)
  {
    EmittedAt(map[], items, n);
    CacheKeepsFirstSeen(map[], items[..n], items[n].key);
    FirstSeenAppend(items[..n], items[n..], items[n].key);
    assert items[..n] + items[n..] == items;
    FirstSeenIsDescriptor(items[..n], items[n].key);
  }

  lemma {:induction false} FirstSeenAppend(a: seq<Item>, b: seq<Item>, key: string)
    ensures FirstSeen(a + b, key) == if FirstSeen(a, key).Some? then FirstSeen(a, key) else FirstSeen(b, key)
  {
    if a == [] {
      assert a + b == b;
    } else {
      FirstSeenAppend(a[1..], b, key);
      assert (a + b)[1..] == a[1..] + b;
    }
  }

  lemma {:induction false} FirstSeenIsDescriptor(items: seq<Item>, key: string)
    requires forall i | 0 <= i < |items| :: IsDescriptor(items[i].built)
    ensures FirstSeen(items, key).Some? ==> IsDescriptor(FirstSeen(items, key).value)
  {
    if items != [] && items[0].key != key {
      FirstSeenIsDescriptor(items[1..], key);
    }
  }

  // ----- Coherence: every descriptor is the one that belongs to its key -----

  ghost predicate Coherent(descriptor: string -> Stat, items: seq<Item>)
  {
    forall i | 0 <= i < |items| :: items[i].built == descriptor(items[i].key)
  }

  ghost predicate CoherentStore(descriptor: string -> Stat, cache: Cache)
  {
    forall k | k in cache :: cache[k] == descriptor(k)
  }

  /** Coherent items leave a coherent cache, and emit what no cache at all would emit. */
  lemma {:induction false} CoherentCache(descriptor: string -> Stat, cache: Cache, items: seq<Item>)
    requires CoherentStore(descriptor, cache) && Coherent(descriptor, items)
    ensures CoherentStore(descriptor, CacheAfter(cache, items))
    ensures forall n | 0 <= n < |items| :: Emitted(cache, items)[n] == Uncached(items[n])
  {
    if items != [] {
      var front := items[..|items| - 1];
      CoherentCache(descriptor, cache, front);
      assert forall n | 0 <= n < |front| :: front[n] == items[n];
    }
  }

  lemma CoherentAppend(descriptor: string -> Stat, a: seq<Item>, b: seq<Item>)
    requires Coherent(descriptor, a) && Coherent(descriptor, b)
    ensures Coherent(descriptor, a + b)
  {
  }

  lemma NothingCoherent(descriptor: string -> Stat)
    ensures Coherent(descriptor, []) && CoherentStore(descriptor, map[])
  {
  }

  // ----- Labels -----

  /** Labels and values pair up, and the identity of the node comes first. */
  predicate Carries(ids: Ids, labels: seq<string>, labelValues: seq<string>)
  {
    && |labels| == |labelValues| && |labels| >= 2
    && labels[0] == "cluster_name" && labelValues[0] == ids.clusterName
    && labels[1] == "service" && labelValues[1] == ids.service
  }

  lemma CarriesMore(ids: Ids, labels: seq<string>, labelValues: seq<string>, more: seq<string>, moreValues: seq<string>)
    requires Carries(ids, labels, labelValues) && |more| == |moreValues|
    ensures Carries(ids, labels + more, labelValues + moreValues)
  {
  }

  ghost predicate Labelled(ids: Ids, items: seq<Item>)
  {
    forall i | 0 <= i < |items| :: Carries(ids, items[i].labels, items[i].labelValues)
  }

  ghost predicate LabelledStats(ids: Ids, stats: seq<Stat>)
  {
    forall i | 0 <= i < |stats| :: Carries(ids, stats[i].labels, stats[i].labelValues)
  }

  ghost predicate PairedStats(stats: seq<Stat>)
  {
    forall i | 0 <= i < |stats| :: |stats[i].labels| == |stats[i].labelValues|
  }

  lemma LabelledArePaired(ids: Ids, stats: seq<Stat>, more: seq<Stat>)
    requires LabelledStats(ids, stats) && PairedStats(more)
    ensures PairedStats(stats) && PairedStats(stats + more)
  {
  }

  lemma NothingLabelled(ids: Ids)
    ensures Labelled(ids, []) && LabelledStats(ids, [])
  {
  }

  lemma LabelledStatsAppend(ids: Ids, a: seq<Stat>, b: seq<Stat>)
    requires LabelledStats(ids, a) && LabelledStats(ids, b)
    ensures LabelledStats(ids, a + b)
  {
    hide Carries;
  }

  lemma LabelledAppend(ids: Ids, a: seq<Item>, b: seq<Item>)
    requires Labelled(ids, a) && Labelled(ids, b)
    ensures Labelled(ids, a + b)
  {
    hide Carries;
  }

  lemma {:induction false} LabelledEmissions(ids: Ids, cache: Cache, items: seq<Item>)
    requires Labelled(ids, items)
    ensures LabelledStats(ids, Emitted(cache, items))
  {
    forall n | 0 <= n < |items|
      ensures Carries(ids, Emitted(cache, items)[n].labels, Emitted(cache, items)[n].labelValues)
    {
      EmittedAt(cache, items, n);
    }
  }
}
