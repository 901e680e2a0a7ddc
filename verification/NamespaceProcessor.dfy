/** The namespace processor: per-namespace stats, index pressure and rosters, and what their replies
    teach it about later requests. */
module NamespaceProcessor {
  import opened Text
  import opened Wrappers
  import opened Commons
  import opened AerospikeStat
  import opened SharedState
  import opened HistogramSwitches

  // ----- Info keys -----

  const INDEX_PRESSURE := "index-pressure"

  /** Ten minutes, in nanoseconds. */
  const FETCH_INTERVAL := 600_000_000_000

  function Names(passOne: map<string, string>): seq<string>
  {
    Split(Get(passOne, "namespaces"), ';')
  }

  function NamespaceKey(ns: string): string
  {
    "namespace/" + ns
  }

  function RosterKey(ns: string): string
  {
    "roster:namespace=" + ns
  }

  predicate Consistent(sc: map<string, bool>, ns: string)
  {
    ns in sc && sc[ns]
  }

  /** The keys for a list of namespaces, whose strong-consistency flags are known so far. */
  function NameKeys(names: seq<string>, sc: map<string, bool>): seq<string>
  {
    if names == [] then []
    else
      var ns := names[|names| - 1];
      NameKeys(names[..|names| - 1], sc) + [NamespaceKey(ns)] + if Consistent(sc, ns) then [RosterKey(ns)] else []
  }

  predicate CanSendPressure(flash: bool, previousFetch: int, now: int)
  {
    flash && now - previousFetch >= FETCH_INTERVAL
  }

  function PassTwo(names: seq<string>, sc: map<string, bool>, pressure: bool): seq<string>
  {
    NameKeys(names, sc) + if pressure then [INDEX_PRESSURE] else []
  }

  /** Every listed namespace has a benchmark map. */
  function WithMaps(benchmarks: map<string, Benchmarks>, names: seq<string>): map<string, Benchmarks>
  {
    benchmarks + map ns | ns in names && ns !in benchmarks :: map[]
  }

  datatype Route = ToNamespace | ToPressure | ToRoster | ToNobody

  /** The dispatch of Refresh. */
  function RouteOf(key: string): Route
  {
    if "namespace" <= key then ToNamespace
    else if INDEX_PRESSURE <= key then ToPressure
    else if "roster" <= key then ToRoster
    else ToNobody
  }

  function NameOf(key: string): string
  {
    RemoveAll(key, "namespace/")
  }

  // ----- Items -----

  function Persistence(stat: string): (string, bool)
  {
    if "index-type" <= stat then ("index-type", '[' in stat)
    else if "sindex-type" <= stat then ("sindex-type", '[' in stat)
    else if "storage-engine" <= stat then ("storage-engine", '[' in stat)
    else ("", false)
  }

  const NS_LABELS := ["cluster_name", "service", "ns"]

  /** Name and labels of a stat; an array stat that the pattern does not match has no name. */
  function Describe(env: Env, ids: Ids, ns: string, stats: map<string, string>, stat: string): (string, seq<string>,
                                                                                                seq<string>)
  {
    var (device, isArray) := Persistence(stat);
    if !isArray then (stat, NS_LABELS, [ids.clusterName, ids.service, ns])
    else
      match env.lib.matchArrayStat(device, stat)
      case None => ("", [], [])
      case Some((kind, index, metric)) =>
        (device + "_" + kind + "_" + metric,
         NS_LABELS + [kind + "_index", kind],
         [ids.clusterName, ids.service, ns, index, Get(stats, device + "." + kind + "[" + index + "]")])
  }

  /** The label that tells the persistence type, if the reply gives one. */
  function TypeLabel(stats: map<string, string>, stat: string): (seq<string>, seq<string>)
  {
    var device := Persistence(stat).0;
    if device == "index-type" && Get(stats, "index-type") != "" then (["index"], [Get(stats, "index-type")])
    else if device == "sindex-type" && Get(stats, "sindex-type") != "" then (["sindex"], [Get(stats, "sindex-type")])
    else if Get(stats, "storage-engine") != "" then (["storage_engine"], [Get(stats, "storage-engine")])
    else ([], [])
  }

  /** The allow flag belongs to the raw stat, the descriptor to the constructed name. */
  function StatItem(env: Env, ids: Ids, ns: string, stats: map<string, string>, stat: string): seq<Item>
    requires stat in stats
  {
    match TryConvert(env, stats[stat])
    case None => []
    case Some(value) =>
      var (name, labels, values) := Describe(env, ids, ns, stats, stat);
      var (label', value') := TypeLabel(stats, stat);
      if name == "" then []
      else
        var built := NewStat(env, Namespace, name, IsMetricAllowed(env, Namespace, stat));
        [Item(name, built, value, labels + label', values + value')]
  }

  function StatItems(env: Env, ids: Ids, ns: string, stats: map<string, string>, order: seq<string>): seq<Item>
    requires forall stat | stat in order :: stat in stats
  {
    if order == [] then []
    else StatItems(env, ids, ns, stats, order[..|order| - 1]) + StatItem(env, ids, ns, stats, order[|order| - 1])
  }

  /** A convertible stat of an index type whose reply says flash. */
  predicate ShowsFlash(env: Env, stats: map<string, string>, stat: string)
  {
    && stat in stats && TryConvert(env, stats[stat]).Some?
    && var device := Persistence(stat).0;
       (device == "index-type" || device == "sindex-type") && Contains(Get(stats, device), "flash")
  }

  predicate ReplyShowsFlash(env: Env, stats: map<string, string>)
  {
    exists stat | stat in stats :: ShowsFlash(env, stats, stat)
  }

  const PRESSURE_NAMES := ["index_pressure_namespace", "index_pressure_total_memory", "index_pressure_dirty_memory"]

  /** Reading past the three names is a Go panic. */
  predicate PressureSafe(env: Env, text: string)
  {
    forall piece | piece in Split(text, ';') :: PieceSafe(env, Split(piece, ':'))
  }

  predicate PieceSafe(env: Env, values: seq<string>)
  {
    forall i | 3 <= i < |values| :: TryConvert(env, values[i]).None?
  }

  function PressureItem(env: Env, ids: Ids, values: seq<string>, i: nat): seq<Item>
    requires 1 <= i < |values| && PieceSafe(env, values)
  {
    match TryConvert(env, values[i])
    case None => []
    case Some(value) =>
      var name := PRESSURE_NAMES[i];
      [Item(name, NewStat(env, Namespace, name, IsMetricAllowed(env, Namespace, name)), value,
            NS_LABELS, [ids.clusterName, ids.service, values[0]])]
  }

  /** The items of the first n values of a piece. */
  function PieceItems(env: Env, ids: Ids, values: seq<string>, n: nat): seq<Item>
    requires 1 <= n <= |values| && PieceSafe(env, values)
  {
    if n == 1 then [] else PieceItems(env, ids, values, n - 1) + PressureItem(env, ids, values, n - 1)
  }

  function PressureItems(env: Env, ids: Ids, pieces: seq<string>): seq<Item>
    requires forall piece | piece in pieces :: PieceSafe(env, Split(piece, ':'))
  {
    if pieces == [] then []
    else
      var piece := pieces[|pieces| - 1];
      var values := Split(piece, ':');
      PressureItems(env, ids, pieces[..|pieces| - 1]) + PieceItems(env, ids, values, |values|)
  }

  function RosterItem(env: Env, ids: Ids, ns: string, stats: map<string, string>, stat: string): Item
    requires stat in stats
  {
    var name := "pseudo_" + stat + "_size";
    var count := if stats[stat] != "null" && stats[stat] != "" then |Split(stats[stat], ',')| as real else 0.0;
    Item(name, NewStat(env, Namespace, name, IsMetricAllowed(env, Namespace, name)), count,
         NS_LABELS, [ids.clusterName, ids.service, ns])
  }

  function RosterItems(env: Env, ids: Ids, ns: string, stats: map<string, string>, order: seq<string>): seq<Item>
    requires forall stat | stat in order :: stat in stats
  {
    if order == [] then []
    else RosterItems(env, ids, ns, stats, order[..|order| - 1]) + [RosterItem(env, ids, ns, stats, order[|order| - 1])]
  }

  /** The namespace that a roster key was built for. Without '=' in the key, Go panics. */
  function RosterName(key: string): string
    requires '=' in key
  {
    TwoPieces(key, '=');
    Split(key, '=')[1]
  }

  lemma TwoPieces(s: string, c: char)
    requires c in s
    ensures |Split(s, c)| >= 2
  {
    IndexOfAbsent(s, c);
  }

  /** The reply behind a key, as a map. */
  function ReplyOf(raw: map<string, string>, key: string): map<string, string>
  {
    if RouteOf(key) == ToRoster then StatsOf(Get(raw, key), ':') else StatsOf(Get(raw, key), ';')
  }

  /** The calls that do not panic: the pressure values fit their names, the roster key names a namespace ... */
  predicate ItemSafe(env: Env, raw: map<string, string>, key: string)
  {
    match RouteOf(key)
    case ToNamespace => true
    case ToPressure => PressureSafe(env, Get(raw, key))
    case ToRoster => Get(raw, key) != "" ==> '=' in key
    case ToNobody => true
  }

  /** ... and the benchmark map that is written to exists. */
  predicate KeySafe(env: Env, benchmarks: map<string, Benchmarks>, raw: map<string, string>, key: string)
  {
    ItemSafe(env, raw, key) && (RouteOf(key) == ToNamespace ==> NameOf(key) in benchmarks)
  }

  function KeyItems(env: Env, ids: Ids, raw: map<string, string>, key: string, order: seq<string>): seq<Item>
    requires ItemSafe(env, raw, key)
    requires forall stat | stat in order :: stat in ReplyOf(raw, key)
  {
    match RouteOf(key)
    case ToNamespace => StatItems(env, ids, NameOf(key), ReplyOf(raw, key), order)
    case ToPressure => PressureItems(env, ids, Split(Get(raw, key), ';'))
    case ToRoster =>
      if Get(raw, key) == "" then [] else RosterItems(env, ids, RosterName(key), ReplyOf(raw, key), order)
    case ToNobody => []
  }

  ghost predicate KeysReady(env: Env, raw: map<string, string>, keys: seq<string>, orders: seq<seq<string>>)
  {
    |orders| == |keys|
    && forall n | 0 <= n < |keys| :: ItemSafe(env, raw, keys[n]) && IsOrder(orders[n], ReplyOf(raw, keys[n]))
  }

  /** All items of a Refresh. */
  function Items(env: Env, ids: Ids, raw: map<string, string>, keys: seq<string>, orders: seq<seq<string>>): seq<Item>
    requires KeysReady(env, raw, keys, orders)
  {
    if keys == [] then []
    else
      var n := |keys| - 1;
      Items(env, ids, raw, keys[..n], orders[..n]) + KeyItems(env, ids, raw, keys[n], orders[n])
  }

  lemma ItemsSnoc(env: Env, ids: Ids, raw: map<string, string>, keys: seq<string>, orders: seq<seq<string>>,
                  key: string, order: seq<string>)
    requires KeysReady(env, raw, keys, orders) && ItemSafe(env, raw, key) && IsOrder(order, ReplyOf(raw, key))
    ensures KeysReady(env, raw, keys + [key], orders + [order])
    ensures Items(env, ids, raw, keys + [key], orders + [order])
         == Items(env, ids, raw, keys, orders) + KeyItems(env, ids, raw, key, order)
  {
    hide KeyItems, ItemSafe;
    assert (keys + [key])[..|keys|] == keys && (orders + [order])[..|orders|] == orders;
  }

  // ----- What replies teach -----

  datatype Learned = Learned(sc: map<string, bool>, flash: bool, benchmarks: map<string, Benchmarks>)

  function BenchmarksOf(benchmarks: map<string, Benchmarks>, ns: string): Benchmarks
  {
    if ns in benchmarks then benchmarks[ns] else map[]
  }

  function ReRepl(ns: string): string
  {
    "{" + ns + "}-" + "re-repl"
  }

  predicate SaysTrue(env: Env, value: string)
  {
    env.lib.trimSpace(value) == "true"
  }

  /** The reply to a namespace's stats sets its benchmarks, the flash latch and the consistency flag. */
  function Learn(env: Env, l: Learned, ns: string, stats: map<string, string>): Learned
  {
    Learned(
      if "strong-consistency" in stats then l.sc[ns := SaysTrue(env, stats["strong-consistency"])] else l.sc,
      l.flash || ReplyShowsFlash(env, stats),
      var switched := SwitchAll(env, OfNamespace(ns), stats, BenchmarksOf(l.benchmarks, ns));
      l.benchmarks[ns := switched["re-repl" := ReRepl(ns)]])
  }

  function LearnKey(env: Env, l: Learned, raw: map<string, string>, key: string): Learned
  {
    if RouteOf(key) == ToNamespace then Learn(env, l, NameOf(key), ReplyOf(raw, key)) else l
  }

  function LearnKeys(env: Env, l: Learned, raw: map<string, string>, keys: seq<string>): Learned
  {
    if keys == [] then l else LearnKey(env, LearnKeys(env, l, raw, keys[..|keys| - 1]), raw, keys[|keys| - 1])
  }

  lemma StatItemsSnoc(env: Env, ids: Ids, ns: string, stats: map<string, string>, order: seq<string>, stat: string)
    requires forall x | x in order + [stat] :: x in stats
    ensures (forall x | x in order :: x in stats) && stat in stats
    ensures StatItems(env, ids, ns, stats, order + [stat])
         == StatItems(env, ids, ns, stats, order) + StatItem(env, ids, ns, stats, stat)
  {
    hide StatItem;
    assert forall x | x in order :: x in order + [stat];
    assert stat in order + [stat];
    assert (order + [stat])[..|order|] == order;
  }

  lemma RosterItemsSnoc(env: Env, ids: Ids, ns: string, stats: map<string, string>, order: seq<string>, stat: string)
    requires forall x | x in order + [stat] :: x in stats
    ensures (forall x | x in order :: x in stats) && stat in stats
    ensures RosterItems(env, ids, ns, stats, order + [stat])
         == RosterItems(env, ids, ns, stats, order) + [RosterItem(env, ids, ns, stats, stat)]
  {
    hide RosterItem;
    assert forall x | x in order :: x in order + [stat];
    assert stat in order + [stat];
    assert (order + [stat])[..|order|] == order;
  }

  lemma KeysStart(sc: map<string, bool>, benchmarks: map<string, Benchmarks>, names: seq<string>)
    ensures NameKeys(names[..0], sc) == [] && WithMaps(benchmarks, names[..0]) == benchmarks
  {
  }

  lemma KeysNext(sc: map<string, bool>, names: seq<string>, n: nat)
    requires n < |names|
    ensures NameKeys(names[..n + 1], sc)
         == NameKeys(names[..n], sc) + [NamespaceKey(names[n])]
           + (if Consistent(sc, names[n]) then [RosterKey(names[n])] else [])
  {
    assert names[..n + 1][..n] == names[..n];
  }

  lemma MapsAt(benchmarks: map<string, Benchmarks>, names: seq<string>, ns: string)
    ensures var maps := WithMaps(benchmarks, names);
            && (ns in maps <==> ns in benchmarks || ns in names)
            && (ns in maps ==> maps[ns] == BenchmarksOf(benchmarks, ns))
  {
  }

  lemma MapsNext(benchmarks: map<string, Benchmarks>, names: seq<string>, n: nat)
    requires n < |names|
    ensures var maps := WithMaps(benchmarks, names[..n]);
            WithMaps(benchmarks, names[..n + 1]) == if names[n] in maps then maps else maps[names[n] := map[]]
  {
    hide WithMaps;
    assert names[..n + 1] == names[..n] + [names[n]];
    var maps := WithMaps(benchmarks, names[..n]);
    var next := if names[n] in maps then maps else maps[names[n] := map[]];
    forall ns
      ensures (ns in WithMaps(benchmarks, names[..n + 1]) <==> ns in next)
           && (ns in next ==> WithMaps(benchmarks, names[..n + 1])[ns] == next[ns])
    {
      MapsAt(benchmarks, names[..n], ns);
      MapsAt(benchmarks, names[..n + 1], ns);
    }
  }

  lemma LoopStarts(env: Env, ids: Ids, ns: string, stats: map<string, string>, benchmarks: Benchmarks)
    ensures StatItems(env, ids, ns, stats, []) == []
            && SwitchLoop(env, OfNamespace(ns), stats, [], benchmarks) == benchmarks
  {
  }

  class NamespaceStatsProcessor {
    const env: Env
    const shared: StatProcessorSharedState
    var namespaceStats: Cache
    var namespaceSCstatus: map<string, bool>
    var isFlashStatSentByServer: bool
    var idxPressurePreviousFetchTime: int

    ghost function Knows(): Learned
      reads this, shared
    {
      Learned(namespaceSCstatus, isFlashStatSentByServer, shared.namespaceBenchmarks)
    }

    constructor (env: Env, shared: StatProcessorSharedState, now: int)
      ensures this.env == env && this.shared == shared
      ensures namespaceStats == map[] && namespaceSCstatus == map[] && !isFlashStatSentByServer
      ensures idxPressurePreviousFetchTime == now
    {
      this.env, this.shared := env, shared;
      namespaceStats, namespaceSCstatus := map[], map[];
      isFlashStatSentByServer, idxPressurePreviousFetchTime := false, now;
    }

    /** The clock is read twice: to check the interval, and to stamp the request. */
    method PassTwoKeys(passOneStats: map<string, string>, checkTime: int, stampTime: int) returns (keys: seq<string>)
      modifies this`idxPressurePreviousFetchTime, shared`namespaceBenchmarks
      ensures var due := CanSendPressure(isFlashStatSentByServer, old(idxPressurePreviousFetchTime), checkTime);
              && keys == PassTwo(Names(passOneStats), namespaceSCstatus, due)
              && idxPressurePreviousFetchTime == (if due then stampTime else old(idxPressurePreviousFetchTime))
      ensures shared.namespaceBenchmarks == WithMaps(old(shared.namespaceBenchmarks), Names(passOneStats))
    {
      hide NameKeys, WithMaps;
      var names := Names(passOneStats);
      keys := [];
      KeysStart(namespaceSCstatus, shared.namespaceBenchmarks, names);
      for n := 0 to |names|
        invariant keys == NameKeys(names[..n], namespaceSCstatus)
        invariant shared.namespaceBenchmarks == WithMaps(old(shared.namespaceBenchmarks), names[..n])
        invariant idxPressurePreviousFetchTime == old(idxPressurePreviousFetchTime)
      {
        var ns := names[n];
        KeysNext(namespaceSCstatus, names, n);
        MapsNext(old(shared.namespaceBenchmarks), names, n);
        keys := keys + ["namespace/" + ns];
        if ns !in shared.namespaceBenchmarks {
          shared.namespaceBenchmarks := shared.namespaceBenchmarks[ns := map[]];
        }
        if ns in namespaceSCstatus && namespaceSCstatus[ns] {
          keys := keys + ["roster:namespace=" + ns];
        }
      }
      assert names[..|names|] == names;
      if isFlashStatSentByServer && checkTime - idxPressurePreviousFetchTime >= FETCH_INTERVAL {
        keys := keys + [INDEX_PRESSURE];
        idxPressurePreviousFetchTime := stampTime;
      }
    }

    /** Looks a descriptor up, or builds and keeps it, and fills a copy of it. */
    method Emit(item: Item) returns (stat: Stat)
      modifies this`namespaceStats
      ensures namespaceStats == Remember(old(namespaceStats), item)
      ensures stat == Emission(old(namespaceStats), item)
    {
      if item.key in namespaceStats {
        stat := namespaceStats[item.key];
      } else {
        stat := item.built;
        namespaceStats := namespaceStats[item.key := stat];
      }
      stat := UpdateValues(stat, item.value, item.labels, item.labelValues);
    }

    method EmitAll(items: seq<Item>) returns (stats: seq<Stat>)
      requires |items| <= 1
      modifies this`namespaceStats
      ensures namespaceStats == CacheAfter(old(namespaceStats), items) && stats == Emitted(old(namespaceStats), items)
    {
      MemoNothing(namespaceStats);
      stats := [];
      if items != [] {
        assert items == [items[0]];
        MemoOne(namespaceStats, items[0]);
        var stat := Emit(items[0]);
        stats := [stat];
      }
    }

    /** setFlagFlashStatSentByServer: the flag is a latch. */
    method SetFlag(indexType: string)
      modifies this`isFlashStatSentByServer
      ensures isFlashStatSentByServer == (old(isFlashStatSentByServer) || Contains(indexType, "flash"))
    {
      if |indexType| > 0 && !isFlashStatSentByServer {
        isFlashStatSentByServer := !isFlashStatSentByServer && Contains(indexType, "flash");
      }
    }

    /** The part of the stat loop that concerns persistence types. */
    method NotePersistence(stats: map<string, string>, stat: string)
      requires stat in stats && TryConvert(env, stats[stat]).Some?
      modifies this`isFlashStatSentByServer
      ensures isFlashStatSentByServer == (old(isFlashStatSentByServer) || ShowsFlash(env, stats, stat))
    {
      var device := Persistence(stat).0;
      if device == "index-type" && Get(stats, "index-type") != "" {
        SetFlag(Get(stats, "index-type"));
      } else if device == "sindex-type" && Get(stats, "sindex-type") != "" {
        SetFlag(Get(stats, "sindex-type"));
      }
    }

    /** The part of the stat loop that concerns latency benchmarks: the map of `ns` must exist. */
    method NoteBenchmark(ns: string, stats: map<string, string>, stat: string, pv: real)
      requires stat in stats && TryConvert(env, stats[stat]) == Some(pv)
      requires ns in shared.namespaceBenchmarks
      modifies shared`namespaceBenchmarks
      ensures shared.namespaceBenchmarks
           == old(shared.namespaceBenchmarks)[ns := Switch(env, OfNamespace(ns), stats, stat,
                                                           old(shared.namespaceBenchmarks)[ns])]
    {
      hide Contains, RemoveAll, IsHistogramStat;
      if IsHistogramStat(stat) {
        if pv == 1.0 {
          var command := "{" + ns + "}-" + stat;
          if Contains(command, "enable-") {
            command := RemoveAll(command, "enable-");
          }
          if Contains(command, "hist-") {
            command := RemoveAll(command, "hist-");
          }
          RemoveAllFixes("{" + ns + "}-" + stat, "enable-");
          RemoveAllFixes(RemoveAll("{" + ns + "}-" + stat, "enable-"), "hist-");
          assert command == Command(OfNamespace(ns), stat);
          var entries := shared.namespaceBenchmarks[ns][stat := command];
          shared.namespaceBenchmarks := shared.namespaceBenchmarks[ns := entries];
        } else {
          shared.namespaceBenchmarks := shared.namespaceBenchmarks[ns := shared.namespaceBenchmarks[ns] - {stat}];
        }
      }
    }

    /** One round of the stat loop. */
    method RefreshStat(ns: string, stats: map<string, string>, stat: string) returns (out: seq<Stat>)
      requires stat in stats && ns in shared.namespaceBenchmarks
      modifies this`namespaceStats, this`isFlashStatSentByServer, shared`namespaceBenchmarks
      ensures var items := StatItem(env, shared.GetIds(), ns, stats, stat);
              namespaceStats == CacheAfter(old(namespaceStats), items) && out == Emitted(old(namespaceStats), items)
      ensures isFlashStatSentByServer == (old(isFlashStatSentByServer) || ShowsFlash(env, stats, stat))
      ensures shared.namespaceBenchmarks
           == old(shared.namespaceBenchmarks)[ns := Switch(env, OfNamespace(ns), stats, stat,
                                                           old(shared.namespaceBenchmarks)[ns])]
    {
      hide CacheAfter, Emitted, Describe, TypeLabel, NewStat, IsMetricAllowed;
      MemoNothing(namespaceStats);
      var pv := TryConvert(env, stats[stat]);
      if pv.None? {
        return [];
      }
      var (name, labels, values) := Describe(env, shared.GetIds(), ns, stats, stat);
      var (label', value') := TypeLabel(stats, stat);
      NotePersistence(stats, stat);
      out := [];
      if name != "" {
        var built := NewStat(env, Namespace, name, IsMetricAllowed(env, Namespace, stat));
        out := EmitAll([Item(name, built, pv.value, labels + label', values + value')]);
      }
      NoteBenchmark(ns, stats, stat, pv.value);
    }

    /** The stat loop, in the order that Go happens to walk the reply. */
    method RefreshStats(ns: string, stats: map<string, string>) returns (out: seq<Stat>, ghost order: seq<string>)
      requires ns in shared.namespaceBenchmarks
      modifies this`namespaceStats, this`isFlashStatSentByServer, shared`namespaceBenchmarks
      ensures IsOrder(order, stats)
      ensures var items := StatItems(env, shared.GetIds(), ns, stats, order);
              namespaceStats == CacheAfter(old(namespaceStats), items) && out == Emitted(old(namespaceStats), items)
      ensures isFlashStatSentByServer == (old(isFlashStatSentByServer) || ReplyShowsFlash(env, stats))
      ensures shared.namespaceBenchmarks
           == old(shared.namespaceBenchmarks)[ns := SwitchLoop(env, OfNamespace(ns), stats, order,
                                                               old(shared.namespaceBenchmarks)[ns])]
    {
      hide StatItem, CacheAfter, Emitted, ShowsFlash, Switch, StatItems, SwitchLoop;
      ghost var maps := shared.namespaceBenchmarks;
      out, order := [], [];
      LoopStarts(env, shared.GetIds(), ns, stats, maps[ns]);
      MemoNothing(namespaceStats);
      assert maps == maps[ns := maps[ns]];
      var todo := stats.Keys;
      while todo != {}
        invariant todo <= stats.Keys
        invariant forall k :: k in order <==> k in stats && k !in todo
        invariant forall i, j | 0 <= i < j < |order| :: order[i] != order[j]
        invariant var items := StatItems(env, shared.GetIds(), ns, stats, order);
                  namespaceStats == CacheAfter(old(namespaceStats), items) && out == Emitted(old(namespaceStats), items)
        invariant isFlashStatSentByServer
               == (old(isFlashStatSentByServer) || exists k | k in order :: ShowsFlash(env, stats, k))
        invariant shared.namespaceBenchmarks == maps[ns := SwitchLoop(env, OfNamespace(ns), stats, order, maps[ns])]
        decreases todo
      {
        var stat :| stat in todo;
        StatItemsSnoc(env, shared.GetIds(), ns, stats, order, stat);
        SwitchLoopSnoc(env, OfNamespace(ns), stats, order, stat, maps[ns]);
        MemoAppend(old(namespaceStats), StatItems(env, shared.GetIds(), ns, stats, order),
                   StatItem(env, shared.GetIds(), ns, stats, stat));
        var more := RefreshStat(ns, stats, stat);
        out, order, todo := out + more, order + [stat], todo - {stat};
      }
      assert ReplyShowsFlash(env, stats) <==> exists k | k in order :: ShowsFlash(env, stats, k);
    }

    method RefreshNamespaceStats(key: string, raw: map<string, string>) returns (out: seq<Stat>,
                                                                                 ghost order: seq<string>)
      requires RouteOf(key) == ToNamespace && NameOf(key) in shared.namespaceBenchmarks
      modifies this`namespaceStats, this`isFlashStatSentByServer, this`namespaceSCstatus, shared`namespaceBenchmarks
      ensures IsOrder(order, ReplyOf(raw, key))
      ensures var items := StatItems(env, shared.GetIds(), NameOf(key), ReplyOf(raw, key), order);
              namespaceStats == CacheAfter(old(namespaceStats), items) && out == Emitted(old(namespaceStats), items)
      ensures Knows() == Learn(env, old(Knows()), NameOf(key), ReplyOf(raw, key))
    {
      hide StatItems, CacheAfter, Emitted, ReplyShowsFlash, SwitchAll, SwitchLoop, RemoveAll, StatsOf;
      var ns := NameOf(key);
      var stats := ParseStats(Get(raw, key), ';');
      assert stats == ReplyOf(raw, key);
      hide ReplyOf, RouteOf, NameOf;
      out, order := RefreshStats(ns, stats);
      SwitchLoopIgnoresOrder(env, OfNamespace(ns), stats, order, old(shared.namespaceBenchmarks)[ns]);
      var entries := shared.namespaceBenchmarks[ns]["re-repl" := "{" + ns + "}-" + "re-repl"];
      shared.namespaceBenchmarks := shared.namespaceBenchmarks[ns := entries];
      if "strong-consistency" in stats {
        namespaceSCstatus := namespaceSCstatus[ns := env.lib.trimSpace(stats["strong-consistency"]) == "true"];
      }
    }

    /** The values of one index-pressure piece. */
    method RefreshPiece(values: seq<string>) returns (out: seq<Stat>)
      requires |values| >= 1 && PieceSafe(env, values)
      modifies this`namespaceStats
      ensures var items := PieceItems(env, shared.GetIds(), values, |values|);
              namespaceStats == CacheAfter(old(namespaceStats), items) && out == Emitted(old(namespaceStats), items)
    {
      hide CacheAfter, Emitted, PressureItem;
      out := [];
      MemoNothing(namespaceStats);
      for i := 1 to |values|
        invariant var items := PieceItems(env, shared.GetIds(), values, i);
                  namespaceStats == CacheAfter(old(namespaceStats), items) && out == Emitted(old(namespaceStats), items)
      {
        var one := PressureItem(env, shared.GetIds(), values, i);
        MemoAppend(old(namespaceStats), PieceItems(env, shared.GetIds(), values, i), one);
        OneItem(env, shared.GetIds(), values, i);
        var more := EmitAll(one);
        out := out + more;
      }
    }

    method RefreshIndexPressure(key: string, raw: map<string, string>) returns (out: seq<Stat>)
      requires PressureSafe(env, Get(raw, key))
      modifies this`namespaceStats
      ensures var items := PressureItems(env, shared.GetIds(), Split(Get(raw, key), ';'));
              namespaceStats == CacheAfter(old(namespaceStats), items) && out == Emitted(old(namespaceStats), items)
    {
      hide CacheAfter, Emitted, PieceItems, PieceSafe;
      var pieces := Split(Get(raw, key), ';');
      out := [];
      MemoNothing(namespaceStats);
      for n := 0 to |pieces|
        invariant var items := PressureItems(env, shared.GetIds(), pieces[..n]);
                  namespaceStats == CacheAfter(old(namespaceStats), items) && out == Emitted(old(namespaceStats), items)
      {
        assert pieces[n] in pieces;
        var values := Split(pieces[n], ':');
        assert pieces[..n + 1][..n] == pieces[..n];
        MemoAppend(old(namespaceStats), PressureItems(env, shared.GetIds(), pieces[..n]),
                   PieceItems(env, shared.GetIds(), values, |values|));
        var more := RefreshPiece(values);
        out := out + more;
      }
      assert pieces[..|pieces|] == pieces;
    }

    method RefreshRoster(ns: string, stats: map<string, string>) returns (out: seq<Stat>, ghost order: seq<string>)
      modifies this`namespaceStats
      ensures IsOrder(order, stats)
      ensures var items := RosterItems(env, shared.GetIds(), ns, stats, order);
              namespaceStats == CacheAfter(old(namespaceStats), items) && out == Emitted(old(namespaceStats), items)
    {
      hide CacheAfter, Emitted, RosterItem;
      out, order := [], [];
      MemoNothing(namespaceStats);
      var todo := stats.Keys;
      while todo != {}
        invariant todo <= stats.Keys
        invariant forall k :: k in order <==> k in stats && k !in todo
        invariant forall i, j | 0 <= i < j < |order| :: order[i] != order[j]
        invariant var items := RosterItems(env, shared.GetIds(), ns, stats, order);
                  namespaceStats == CacheAfter(old(namespaceStats), items) && out == Emitted(old(namespaceStats), items)
        decreases todo
      {
        var stat :| stat in todo;
        var item := RosterItem(env, shared.GetIds(), ns, stats, stat);
        RosterItemsSnoc(env, shared.GetIds(), ns, stats, order, stat);
        MemoAppend(old(namespaceStats), RosterItems(env, shared.GetIds(), ns, stats, order), [item]);
        var more := EmitAll([item]);
        out, order, todo := out + more, order + [stat], todo - {stat};
      }
    }

    method RefreshRosterStats(key: string, raw: map<string, string>) returns (out: seq<Stat>, ghost order: seq<string>)
      requires RouteOf(key) == ToRoster && (Get(raw, key) != "" ==> '=' in key)
      modifies this`namespaceStats
      ensures IsOrder(order, ReplyOf(raw, key))
      ensures var items := if Get(raw, key) == "" then []
                           else RosterItems(env, shared.GetIds(), RosterName(key), ReplyOf(raw, key), order);
              namespaceStats == CacheAfter(old(namespaceStats), items) && out == Emitted(old(namespaceStats), items)
    {
      hide CacheAfter, Emitted, RosterItems;
      MemoNothing(namespaceStats);
      if Get(raw, key) == "" {
        EmptyReply(':');
        return [], [];
      }
      var stats := ParseStats(Get(raw, key), ':');
      out, order := RefreshRoster(RosterName(key), stats);
    }

    /** One key of Refresh, dispatched on its prefix. */
    method RefreshKey(key: string, raw: map<string, string>) returns (out: seq<Stat>, ghost order: seq<string>)
      requires KeySafe(env, shared.namespaceBenchmarks, raw, key)
      modifies this`namespaceStats, this`isFlashStatSentByServer, this`namespaceSCstatus, shared`namespaceBenchmarks
      ensures IsOrder(order, ReplyOf(raw, key))
      ensures var items := KeyItems(env, shared.GetIds(), raw, key, order);
              namespaceStats == CacheAfter(old(namespaceStats), items) && out == Emitted(old(namespaceStats), items)
      ensures Knows() == LearnKey(env, old(Knows()), raw, key)
    {
      hide CacheAfter, Emitted, StatItems, PressureItems, RosterItems, Learn;
      MemoNothing(namespaceStats);
      out := [];
      if "namespace" <= key {
        out, order := RefreshNamespaceStats(key, raw);
      } else {
        if INDEX_PRESSURE <= key {
          out := RefreshIndexPressure(key, raw);
        } else if "roster" <= key {
          out, order := RefreshRosterStats(key, raw);
          return;
        }
        order := SomeOrder(ReplyOf(raw, key));
      }
    }

    /** Dispatches every key; the calls must be free of panics. */
    method Refresh(infoKeys: seq<string>, raw: map<string, string>) returns (out: seq<Stat>,
                                                                             ghost orders: seq<seq<string>>)
      requires forall key | key in infoKeys :: KeySafe(env, shared.namespaceBenchmarks, raw, key)
      modifies this`namespaceStats, this`isFlashStatSentByServer, this`namespaceSCstatus, shared`namespaceBenchmarks
      ensures KeysReady(env, raw, infoKeys, orders)
      ensures var items := Items(env, shared.GetIds(), raw, infoKeys, orders);
              namespaceStats == CacheAfter(old(namespaceStats), items) && out == Emitted(old(namespaceStats), items)
      ensures Knows() == LearnKeys(env, old(Knows()), raw, infoKeys)
    {
      hide CacheAfter, Emitted, KeyItems, ItemSafe, LearnKey, Items;
      out, orders := [], [];
      NoItems(env, shared.GetIds(), raw);
      MemoNothing(namespaceStats);
      for n := 0 to |infoKeys|
        invariant KeysReady(env, raw, infoKeys[..n], orders)
        invariant var items := Items(env, shared.GetIds(), raw, infoKeys[..n], orders);
                  namespaceStats == CacheAfter(old(namespaceStats), items) && out == Emitted(old(namespaceStats), items)
        invariant Knows() == LearnKeys(env, old(Knows()), raw, infoKeys[..n])
        invariant shared.namespaceBenchmarks.Keys == old(shared.namespaceBenchmarks).Keys
      {
        var key := infoKeys[n];
        assert key in infoKeys;
        LearningKeepsNames(env, Knows(), raw, key);
        assert infoKeys[..n + 1] == infoKeys[..n] + [key] && infoKeys[..n + 1][..n] == infoKeys[..n];
        var more, order := RefreshKey(key, raw);
        ItemsSnoc(env, shared.GetIds(), raw, infoKeys[..n], orders, key, order);
        MemoAppend(old(namespaceStats), Items(env, shared.GetIds(), raw, infoKeys[..n], orders),
                   KeyItems(env, shared.GetIds(), raw, key, order));
        out, orders := out + more, orders + [order];
      }
      assert infoKeys[..|infoKeys|] == infoKeys;
    }
  }

  lemma NoItems(env: Env, ids: Ids, raw: map<string, string>)
    ensures KeysReady(env, raw, [], []) && Items(env, ids, raw, [], []) == []
  {
  }

  lemma OneItem(env: Env, ids: Ids, values: seq<string>, i: nat)
    requires 1 <= i < |values| && PieceSafe(env, values)
    ensures |PressureItem(env, ids, values, i)| <= 1
  {
  }

  lemma LearningKeepsNames(env: Env, l: Learned, raw: map<string, string>, key: string)
    requires KeySafe(env, l.benchmarks, raw, key)
    ensures LearnKey(env, l, raw, key).benchmarks.Keys == l.benchmarks.Keys
  {
    hide SwitchAll;
  }

  /** Every map has an order. */
  lemma SomeOrder(m: map<string, string>) returns (order: seq<string>)
    ensures IsOrder(order, m)
  {
    order := [];
    var todo := m.Keys;
    while todo != {}
      invariant todo <= m.Keys
      invariant forall k :: k in order <==> k in m && k !in todo
      invariant forall i, j | 0 <= i < j < |order| :: order[i] != order[j]
      decreases todo
    {
      var k :| k in todo;
      order, todo := order + [k], todo - {k};
    }
  }

  lemma EmptyReply(sep: char)
    requires sep != '='
    ensures StatsOf("", sep) == map[]
  {
    SplitAbsent("", sep);
    assert [""][..0] == [];
  }
}
