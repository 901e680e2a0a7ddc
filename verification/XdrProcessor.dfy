/** The XDR processor: statistics and configuration per data centre, and per data centre and namespace. */
module XdrProcessor {
  import opened Text
  import opened Commons
  import opened AerospikeStat
  import opened SharedState
  import opened StatLoop
  import NamespaceProcessor

  const XDR_METADATA := "get-config:context=xdr"

  /** The four levels that XDR is asked at. */
  datatype Level = DcStats | DcConfig | NamespaceConfig | NamespaceStats

  const XDR_STAT := "get-stats:context=xdr;dc="
  const XDR_CONFIG := "get-config:context=xdr;dc="

  function LevelKey(level: Level, dc: string, ns: string): string
  {
    match level
    case DcStats => XDR_STAT + dc
    case DcConfig => XDR_CONFIG + dc
    case NamespaceConfig => XDR_CONFIG + dc + ";namespace=" + ns
    case NamespaceStats => XDR_STAT + dc + ";namespace=" + ns
  }

  function LevelPrefix(level: Level): string
  {
    match level
    case DcStats => ""
    case DcConfig => "dc_"
    case NamespaceConfig => "dc_namespace_"
    case NamespaceStats => "dc_namespace_"
  }

  predicate HasNamespace(level: Level)
  {
    level == NamespaceConfig || level == NamespaceStats
  }

  // ----- Keys -----

  function NamespaceKeys(dc: string, names: seq<string>): seq<string>
  {
    if names == [] then []
    else
      var ns := names[|names| - 1];
      NamespaceKeys(dc, names[..|names| - 1]) + [LevelKey(NamespaceConfig, dc, ns), LevelKey(NamespaceStats, dc, ns)]
  }

  function DcKeys(dc: string, names: seq<string>): seq<string>
  {
    if dc == "" then [] else [LevelKey(DcStats, dc, ""), LevelKey(DcConfig, dc, "")] + NamespaceKeys(dc, names)
  }

  function AllKeys(dcs: seq<string>, names: seq<string>): seq<string>
  {
    if dcs == [] then [] else AllKeys(dcs[..|dcs| - 1], names) + DcKeys(dcs[|dcs| - 1], names)
  }

  function Dcs(passOne: map<string, string>): seq<string>
  {
    Split(Get(StatsOf(Get(passOne, XDR_METADATA), ';'), "dcs"), ',')
  }

  function PassTwo(passOne: map<string, string>): seq<string>
  {
    AllKeys(Dcs(passOne), NamespaceProcessor.Names(passOne))
  }

  /** constructMetricNamePrefix: data centre, namespace and metric prefix of a key. */
  function DecodeKey(key: string): (string, string, string)
  {
    var kv := StatsOf(key, ';');
    var config, stats, named := "get-config:context" in kv, "get-stats:context" in kv, "namespace" in kv;
    (Get(kv, "dc"), Get(kv, "namespace"),
     if config && named then "dc_namespace_" else if stats && named then "dc_namespace_" else if config then "dc_"
     else "")
  }

  function Verb(level: Level): string
  {
    if level == DcConfig || level == NamespaceConfig then "get-config:context" else "get-stats:context"
  }

  lemma Verbs(level: Level)
    ensures '=' !in Verb(level) && ';' !in Verb(level) && Verb(level) != "dc" && Verb(level) != "namespace"
    ensures Verb(level) == "get-config:context" || Verb(level) == "get-stats:context"
    ensures '=' !in "dc" && ';' !in "dc" && '=' !in "namespace" && ';' !in "namespace" && ';' !in "xdr"
            && "dc" != "namespace"
    ensures "get-config:context" != "get-stats:context" && |"get-config:context"| > 9 && |"get-stats:context"| > 9
  {
  }

  lemma KeyStarts()
    ensures XDR_STAT == "get-stats:context" + "=" + "xdr" + [';'] + "dc="
    ensures XDR_CONFIG == "get-config:context" + "=" + "xdr" + [';'] + "dc="
    ensures ";namespace=" == [';'] + "namespace="
    ensures "dc=" == "dc" + "=" && "namespace=" == "namespace" + "="
  {
  }

  lemma KeyShape(level: Level, dc: string, ns: string)
    ensures var head := Verb(level) + "=" + "xdr" + [';'] + ("dc" + "=" + dc);
            LevelKey(level, dc, ns) == if HasNamespace(level) then head + [';'] + ("namespace" + "=" + ns) else head
  {
    KeyStarts();
    var start := Verb(level) + "=" + "xdr" + [';'];
    Regroup(start, "dc=", dc);
    Regroup([';'], "namespace=", ns);
    Regroup(start + ("dc=" + dc), [';'], "namespace=" + ns);
    Regroup(start + ("dc=" + dc), ";namespace=", ns);
  }

  lemma KeyParses(level: Level, dc: string, ns: string)
    requires ';' !in dc && ';' !in ns
    ensures var kv := map[Verb(level) := "xdr"]["dc" := dc];
            StatsOf(LevelKey(level, dc, ns), ';') == if HasNamespace(level) then kv["namespace" := ns] else kv
  {
    KeyShape(level, dc, ns);
    Verbs(level);
    hide StatsOf, LevelKey, Verb;
    var first := Verb(level) + "=" + "xdr";
    StatsOne(';', Verb(level), "xdr");
    StatsSnoc(first, ';', "dc", dc);
    if HasNamespace(level) {
      StatsSnoc(first + [';'] + ("dc" + "=" + dc), ';', "namespace", ns);
    }
  }

  /** The codec: a key built at any level is decoded to the data centre, namespace and prefix it was built from. */
  lemma DecodeUndoesBuild(level: Level, dc: string, ns: string)
    requires ';' !in dc && ';' !in ns
    ensures DecodeKey(LevelKey(level, dc, ns)) == (dc, if HasNamespace(level) then ns else "", LevelPrefix(level))
  {
    hide StatsOf, LevelKey;
    KeyParses(level, dc, ns);
    Verbs(level);
  }

  /** A key stems from a level, a data centre and a namespace. */
  ghost predicate BuiltFrom(key: string, level: Level, dc: string, ns: string)
  {
    ';' !in dc && ';' !in ns && key == LevelKey(level, dc, ns)
  }

  ghost predicate Built(key: string)
  {
    exists level, dc, ns :: BuiltFrom(key, level, dc, ns)
  }

  lemma {:induction false} NamespaceKeysBuilt(dc: string, names: seq<string>)
    requires ';' !in dc && forall n | 0 <= n < |names| :: ';' !in names[n]
    ensures forall n | 0 <= n < |NamespaceKeys(dc, names)| :: Built(NamespaceKeys(dc, names)[n])
  {
    hide LevelKey;
    if names != [] {
      var ns := names[|names| - 1];
      NamespaceKeysBuilt(dc, names[..|names| - 1]);
      assert BuiltFrom(LevelKey(NamespaceConfig, dc, ns), NamespaceConfig, dc, ns);
      assert BuiltFrom(LevelKey(NamespaceStats, dc, ns), NamespaceStats, dc, ns);
    }
  }

  lemma {:induction false} AllKeysBuilt(dcs: seq<string>, names: seq<string>)
    requires (forall n | 0 <= n < |dcs| :: ';' !in dcs[n]) && (forall n | 0 <= n < |names| :: ';' !in names[n])
    ensures forall n | 0 <= n < |AllKeys(dcs, names)| :: Built(AllKeys(dcs, names)[n])
  {
    hide LevelKey, NamespaceKeys;
    if dcs != [] {
      var dc := dcs[|dcs| - 1];
      AllKeysBuilt(dcs[..|dcs| - 1], names);
      NamespaceKeysBuilt(dc, names);
      assert ';' !in "";
      assert BuiltFrom(LevelKey(DcStats, dc, ""), DcStats, dc, "");
      assert BuiltFrom(LevelKey(DcConfig, dc, ""), DcConfig, dc, "");
    }
  }

  /** For every pass-one reply: each key asked for was built at some level, and is decoded to just that. */
  lemma PassTwoDecodes(passOne: map<string, string>, n: nat)
    requires n < |PassTwo(passOne)|
    ensures exists level, dc, ns ::
              BuiltFrom(PassTwo(passOne)[n], level, dc, ns)
              && DecodeKey(PassTwo(passOne)[n]) == (dc, if HasNamespace(level) then ns else "", LevelPrefix(level))
  {
    hide AllKeys, Split, StatsOf, DecodeKey, LevelKey;
    var list := StatsOf(Get(passOne, XDR_METADATA), ';');
    var dcs := Get(list, "dcs");
    assert ';' !in dcs by {
      if "dcs" in list {
        ParsedKeysAreClean(Get(passOne, XDR_METADATA), ';', "dcs");
      }
    }
    SplitKeepsAbsence(dcs, ',', ';');
    AllKeysBuilt(Dcs(passOne), NamespaceProcessor.Names(passOne));
    var key := PassTwo(passOne)[n];
    assert Built(key);
    var level, dc, ns :| BuiltFrom(key, level, dc, ns);
    DecodeUndoesBuild(level, dc, ns);
  }

  // ----- Replies -----

  function JobOf(ids: Ids, raw: map<string, string>, key: string): (job: Job)
    ensures Carries(ids, job.labels, job.labelValues) && job.context == Xdr
  {
    var (dc, ns, prefix) := DecodeKey(key);
    if |ns| > 0 then
      Job(Xdr, prefix, ["cluster_name", "service", "dc", "ns"], [ids.clusterName, ids.service, dc, ns],
          StatsOf(Get(raw, key), ';'))
    else
      Job(Xdr, prefix, ["cluster_name", "service", "dc"], [ids.clusterName, ids.service, dc],
          StatsOf(Get(raw, key), ';'))
  }

  /** The reply to a key is named with the prefix, and labelled with the data centre and namespace, that the key
      was built from; an empty namespace is no label. */
  lemma ReplyIsLabelled(ids: Ids, raw: map<string, string>, level: Level, dc: string, ns: string)
    requires ';' !in dc && ';' !in ns
    ensures var job := JobOf(ids, raw, LevelKey(level, dc, ns));
            && job.prefix == LevelPrefix(level)
            && |job.labels| == |job.labelValues| == (if HasNamespace(level) && ns != "" then 4 else 3)
            && job.labels[2] == "dc" && job.labelValues[2] == dc
            && (HasNamespace(level) && ns != "" ==> job.labels[3] == "ns" && job.labelValues[3] == ns)
  {
    hide StatsOf, LevelKey, DecodeKey;
    DecodeUndoesBuild(level, dc, ns);
  }

  function Jobs(ids: Ids, raw: map<string, string>, keys: seq<string>): (jobs: seq<Job>)
    ensures |jobs| == |keys|
    ensures forall n | 0 <= n < |jobs| :: Carries(ids, jobs[n].labels, jobs[n].labelValues) && jobs[n].context == Xdr
  {
    if keys == [] then [] else Jobs(ids, raw, keys[..|keys| - 1]) + [JobOf(ids, raw, keys[|keys| - 1])]
  }

  lemma JobsNext(ids: Ids, raw: map<string, string>, keys: seq<string>, n: nat)
    requires n < |keys|
    ensures Jobs(ids, raw, keys[..n + 1]) == Jobs(ids, raw, keys[..n]) + [JobOf(ids, raw, keys[n])]
  {
    hide JobOf;
    assert keys[..n + 1][..n] == keys[..n];
  }

  lemma NamespaceKeysNext(dc: string, names: seq<string>, n: nat)
    requires n < |names|
    ensures NamespaceKeys(dc, names[..n + 1])
         == NamespaceKeys(dc, names[..n])
           + [LevelKey(NamespaceConfig, dc, names[n]), LevelKey(NamespaceStats, dc, names[n])]
  {
    hide LevelKey;
    assert names[..n + 1][..n] == names[..n];
  }

  lemma AllKeysNext(dcs: seq<string>, names: seq<string>, n: nat)
    requires n < |dcs|
    ensures AllKeys(dcs[..n + 1], names) == AllKeys(dcs[..n], names) + DcKeys(dcs[n], names)
  {
    hide DcKeys;
    assert dcs[..n + 1][..n] == dcs[..n];
  }

  lemma PassTwoIs(passOne: map<string, string>, dcs: seq<string>, names: seq<string>)
    requires dcs == Dcs(passOne) && names == NamespaceProcessor.Names(passOne)
    ensures PassTwo(passOne) == AllKeys(dcs, names) && AllKeys(dcs[..0], names) == []
  {
    hide Split, StatsOf, DcKeys;
  }

  class XdrStatsProcessor {
    const env: Env
    const shared: StatProcessorSharedState
    var xdrMetrics: Cache

    constructor (env: Env, shared: StatProcessorSharedState)
      ensures this.env == env && this.shared == shared && xdrMetrics == map[]
    {
      this.env, this.shared, xdrMetrics := env, shared, map[];
    }

    method PassTwoKeys(passOneStats: map<string, string>) returns (keys: seq<string>)
      ensures keys == PassTwo(passOneStats)
    {
      hide *;
      var dcs, names := Dcs(passOneStats), NamespaceProcessor.Names(passOneStats);
      PassTwoIs(passOneStats, dcs, names);
      keys := [];
      for n := 0 to |dcs|
        invariant keys == AllKeys(dcs[..n], names)
      {
        AllKeysNext(dcs, names, n);
        var more := KeysOfDc(dcs[n], names);
        keys := keys + more;
      }
      assert dcs[..|dcs|] == dcs;
    }

    /** The keys of one data centre; the empty name has none. */
    method KeysOfDc(dc: string, names: seq<string>) returns (keys: seq<string>)
      ensures keys == DcKeys(dc, names)
    {
      hide LevelKey, NamespaceKeys;
      if dc == "" {
        return [];
      }
      keys := [LevelKey(DcStats, dc, "")];
      keys := keys + [LevelKey(DcConfig, dc, "")];
      var more := KeysOfNames(dc, names);
      keys := keys + more;
    }

    method KeysOfNames(dc: string, names: seq<string>) returns (keys: seq<string>)
      ensures keys == NamespaceKeys(dc, names)
    {
      assert NamespaceKeys(dc, names[..0]) == [];
      hide LevelKey, NamespaceKeys;
      keys := [];
      for n := 0 to |names|
        invariant keys == NamespaceKeys(dc, names[..n])
      {
        NamespaceKeysNext(dc, names, n);
        keys := keys + [LevelKey(NamespaceConfig, dc, names[n]), LevelKey(NamespaceStats, dc, names[n])];
      }
      assert names[..|names|] == names;
    }

    method Refresh(infoKeys: seq<string>, raw: map<string, string>) returns (out: seq<Stat>,
                                                                             ghost orders: seq<seq<string>>)
      modifies this`xdrMetrics
      ensures Ready(Jobs(shared.GetIds(), raw, infoKeys), orders)
      ensures var items := Items(env, Jobs(shared.GetIds(), raw, infoKeys), orders);
              xdrMetrics == CacheAfter(old(xdrMetrics), items) && out == Emitted(old(xdrMetrics), items)
    {
      hide CacheAfter, Emitted, JobItems, JobOf, Items, Jobs;
      out, orders := [], [];
      NoItems(env);
      MemoNothing(xdrMetrics);
      assert Jobs(shared.GetIds(), raw, infoKeys[..0]) == [];
      for n := 0 to |infoKeys|
        invariant Ready(Jobs(shared.GetIds(), raw, infoKeys[..n]), orders)
        invariant var items := Items(env, Jobs(shared.GetIds(), raw, infoKeys[..n]), orders);
                  xdrMetrics == CacheAfter(old(xdrMetrics), items) && out == Emitted(old(xdrMetrics), items)
      {
        ghost var jobs := Jobs(shared.GetIds(), raw, infoKeys[..n]);
        var job := JobOf(shared.GetIds(), raw, infoKeys[n]);
        var cache, more, order := EmitStats(env, job, xdrMetrics);
        xdrMetrics := cache;
        JobsNext(shared.GetIds(), raw, infoKeys, n);
        ItemsSnoc(env, jobs, orders, job, order);
        MemoAppend(old(xdrMetrics), Items(env, jobs, orders), JobItems(env, job, order));
        out, orders := out + more, orders + [order];
      }
      assert infoKeys[..|infoKeys|] == infoKeys;
    }
  }

  // ----- A witness -----

  /** The reply of a server that gives one stat for a data centre and for a namespace of it. */
  function LagReply(dc: string, ns: string, value: string): map<string, string>
  {
    map[LevelKey(DcStats, dc, "") := "lag" + "=" + value, LevelKey(NamespaceStats, dc, ns) := "lag" + "=" + value]
  }

  /** A stat that a data centre reports for itself and for a namespace: of the four replies to the keys of the data
      centre, the last one goes out under the name that the first one gave to the stat. */
  lemma NamespaceStatMisnamed(env: Env, ids: Ids, dc: string, ns: string, value: string)
    requires dc != "" && ';' !in dc && ';' !in ns && ';' !in value && TryConvert(env, value).Some?
    ensures var jobs, orders := Jobs(ids, LagReply(dc, ns, value), DcKeys(dc, [ns])), [["lag"], [], [], ["lag"]];
            && Ready(jobs, orders) && |Items(env, jobs, orders)| == 2
            && Emitted(map[], Items(env, jobs, orders))[1].name == "lag"
            && Uncached(Items(env, jobs, orders)[1]).name == "dc_namespace_lag"
  {
    hide *;
    var raw := LagReply(dc, ns, value);
    var first, second := JobOf(ids, raw, LevelKey(DcStats, dc, "")), JobOf(ids, raw, LevelKey(NamespaceStats, dc, ns));
    var third, fourth := JobOf(ids, raw, LevelKey(DcConfig, dc, "")),
      JobOf(ids, raw, LevelKey(NamespaceConfig, dc, ns));
    LagJobs(ids, dc, ns, value);
    var a := LagItem(env, first, value);
    var b := LagItem(env, second, value);
    FourKeys(ids, raw, dc, ns);
    FourReplies(env, first, third, fourth, second, a, b);
    LagNames(env, a, b);
  }

  lemma LagReplies(dc: string, ns: string, value: string)
    ensures var raw := LagReply(dc, ns, value);
            && Get(raw, LevelKey(DcStats, dc, "")) == "lag" + "=" + value
            && Get(raw, LevelKey(NamespaceStats, dc, ns)) == "lag" + "=" + value
            && Get(raw, LevelKey(DcConfig, dc, "")) == "" && Get(raw, LevelKey(NamespaceConfig, dc, ns)) == ""
  {
    assert LevelKey(DcStats, dc, "")[4] == 's' && LevelKey(NamespaceStats, dc, ns)[4] == 's';
    assert LevelKey(DcConfig, dc, "")[4] == 'c' && LevelKey(NamespaceConfig, dc, ns)[4] == 'c';
    hide LevelKey;
  }

  lemma LagStats(value: string)
    requires ';' !in value
    ensures StatsOf("lag" + "=" + value, ';') == map["lag" := value] && StatsOf("", ';') == map[]
  {
    assert '=' !in "lag" && ';' !in "lag";
    StatsOne(';', "lag", value);
    NoStats();
  }

  lemma JobFields(ids: Ids, raw: map<string, string>, level: Level, dc: string, ns: string)
    requires ';' !in dc && ';' !in ns
    ensures var job := JobOf(ids, raw, LevelKey(level, dc, ns));
            job.context == Xdr && job.prefix == LevelPrefix(level)
              && job.stats == StatsOf(Get(raw, LevelKey(level, dc, ns)), ';')
  {
    hide StatsOf, LevelKey, DecodeKey;
    DecodeUndoesBuild(level, dc, ns);
  }

  lemma LagJobs(ids: Ids, dc: string, ns: string, value: string)
    requires ';' !in dc && ';' !in ns && ';' !in value
    ensures var raw := LagReply(dc, ns, value);
            var first, second := JobOf(ids, raw, LevelKey(DcStats, dc, "")),
              JobOf(ids, raw, LevelKey(NamespaceStats, dc, ns));
            && first.stats == map["lag" := value] && second.stats == map["lag" := value]
            && first.prefix == "" && second.prefix == "dc_namespace_" && first.context == Xdr && second.context == Xdr
            && JobOf(ids, raw, LevelKey(DcConfig, dc, "")).stats == map[]
            && JobOf(ids, raw, LevelKey(NamespaceConfig, dc, ns)).stats == map[]
  {
    hide StatsOf, LevelKey, DecodeKey, LagReply, Get, JobOf;
    var raw := LagReply(dc, ns, value);
    LagReplies(dc, ns, value);
    LagStats(value);
    JobFields(ids, raw, DcStats, dc, "");
    JobFields(ids, raw, DcConfig, dc, "");
    JobFields(ids, raw, NamespaceConfig, dc, ns);
    JobFields(ids, raw, NamespaceStats, dc, ns);
  }

  lemma NoStats()
    ensures StatsOf("", ';') == map[]
  {
    SplitAbsent("", ';');
    assert [""][..0] == [];
  }

  lemma FourKeys(ids: Ids, raw: map<string, string>, dc: string, ns: string)
    requires dc != ""
    ensures Jobs(ids, raw, DcKeys(dc, [ns]))
         == [JobOf(ids, raw, LevelKey(DcStats, dc, "")), JobOf(ids, raw, LevelKey(DcConfig, dc, "")),
             JobOf(ids, raw, LevelKey(NamespaceConfig, dc, ns)), JobOf(ids, raw, LevelKey(NamespaceStats, dc, ns))]
  {
    hide LevelKey, JobOf;
    var keys := DcKeys(dc, [ns]);
    assert NamespaceKeys(dc, [ns][..0]) == [];
    NamespaceKeysNext(dc, [ns], 0);
    assert [ns][..1] == [ns];
    assert keys == [LevelKey(DcStats, dc, ""), LevelKey(DcConfig, dc, ""), LevelKey(NamespaceConfig, dc, ns),
                    LevelKey(NamespaceStats, dc, ns)];
    assert Jobs(ids, raw, keys[..0]) == [];
    hide Jobs, DcKeys, NamespaceKeys;
    JobsNext(ids, raw, keys, 0);
    JobsNext(ids, raw, keys, 1);
    JobsNext(ids, raw, keys, 2);
    JobsNext(ids, raw, keys, 3);
    assert keys[..4] == keys;
  }

  lemma FourReplies(env: Env, first: Job, second: Job, third: Job, fourth: Job, a: Item, b: Item)
    requires IsOrder([a.key], first.stats) && second.stats == map[] && third.stats == map[]
             && IsOrder([a.key], fourth.stats)
    requires JobItems(env, first, [a.key]) == [a] && JobItems(env, fourth, [a.key]) == [b] && a.key == b.key
    ensures var jobs, orders := [first, second, third, fourth], [[a.key], [], [], [a.key]];
            && Ready(jobs, orders) && Items(env, jobs, orders) == [a, b]
    ensures Emitted(map[], [a, b]) == [Uncached(a), UpdateValues(a.built, b.value, b.labels, b.labelValues)]
  {
    hide *;
    var k := [a.key];
    EmptyReply(env, second);
    EmptyReply(env, third);
    OneReply(env, first, k, a);
    NextReply(env, [first], [k], [a], second, [], []);
    assert [first] + [second] == [first, second] && [k] + [[]] == [k, []] && [a] + [] == [a];
    LastTwoReplies(env, first, second, third, fourth, k, a, b);
    TwoEmissions(a, b);
  }

  lemma OneReply(env: Env, first: Job, k: seq<string>, a: Item)
    requires IsOrder(k, first.stats) && JobItems(env, first, k) == [a]
    ensures Ready([first], [k]) && Items(env, [first], [k]) == [a]
  {
    hide *;
    NoItems(env);
    NextReply(env, [], [], [], first, k, [a]);
    assert [] + [first] == [first] && [] + [k] == [k] && [] + [a] == [a];
  }

  lemma LastTwoReplies(env: Env, first: Job, second: Job, third: Job, fourth: Job, k: seq<string>, a: Item, b: Item)
    requires Ready([first, second], [k, []]) && Items(env, [first, second], [k, []]) == [a]
    requires IsOrder([], third.stats) && JobItems(env, third, []) == [] && IsOrder(k, fourth.stats)
             && JobItems(env, fourth, k) == [b]
    ensures var jobs, orders := [first, second, third, fourth], [k, [], [], k];
            Ready(jobs, orders) && Items(env, jobs, orders) == [a, b]
  {
    hide *;
    NextReply(env, [first, second], [k, []], [a], third, [], []);
    assert [first, second] + [third] == [first, second, third] && [k, []] + [[]] == [k, [], []] && [a] + [] == [a];
    NextReply(env, [first, second, third], [k, [], []], [a], fourth, k, [b]);
    assert [first, second, third] + [fourth] == [first, second, third, fourth] && [k, [], []] + [k] == [k, [], [], k];
    assert [a] + [b] == [a, b];
  }

  lemma NextReply(env: Env, jobs: seq<Job>, orders: seq<seq<string>>, items: seq<Item>, job: Job, order: seq<string>,
                  more: seq<Item>)
    requires Ready(jobs, orders) && Items(env, jobs, orders) == items
    requires IsOrder(order, job.stats) && JobItems(env, job, order) == more
    ensures Ready(jobs + [job], orders + [order]) && Items(env, jobs + [job], orders + [order]) == items + more
  {
    ItemsSnoc(env, jobs, orders, job, order);
    hide *;
  }

  lemma EmptyReply(env: Env, job: Job)
    requires job.stats == map[]
    ensures IsOrder([], job.stats) && JobItems(env, job, []) == []
  {
  }

  lemma TwoEmissions(a: Item, b: Item)
    requires a.key == b.key
    ensures Emitted(map[], [a, b]) == [Uncached(a), UpdateValues(a.built, b.value, b.labels, b.labelValues)]
  {
    hide CacheAfter, Emitted;
    assert [a] + [b] == [a, b];
    MemoOne(map[], a);
    MemoOne(Remember(map[], a), b);
    MemoAppend(map[], [a], [b]);
  }

  /** The only item of a reply that holds one convertible stat. */
  lemma LagItem(env: Env, job: Job, value: string) returns (item: Item)
    requires job.stats == map["lag" := value] && TryConvert(env, value).Some?
    ensures JobItems(env, job, ["lag"]) == [item] && IsOrder(["lag"], job.stats)
    ensures item == Item("lag", NewStat(env, job.context, job.prefix + "lag", IsMetricAllowed(env, job.context, "lag")),
                         TryConvert(env, value).value, job.labels, job.labelValues)
  {
    hide NewStat, IsMetricAllowed;
    item := StatItem(env, job, "lag")[0];
    assert [] + ["lag"] == ["lag"];
    JobItemsSnoc(env, job, [], "lag");
  }

  lemma LagNames(env: Env, a: Item, b: Item)
    requires a.built == NewStat(env, Xdr, "" + "lag", IsMetricAllowed(env, Xdr, "lag"))
    requires b.built == NewStat(env, Xdr, "dc_namespace_" + "lag", IsMetricAllowed(env, Xdr, "lag"))
    ensures UpdateValues(a.built, b.value, b.labels, b.labelValues).name == "lag"
            && Uncached(b).name == "dc_namespace_lag"
  {
    assert "" + "lag" == "lag" && "dc_namespace_" + "lag" == "dc_namespace_lag";
  }
}
