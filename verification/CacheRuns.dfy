/** The memo caches over whole runs: what they hold, and when an emission is what it would be without them. */
module CacheRuns {
  import opened Wrappers
  import opened AerospikeStat
  import opened StatsRefresher
  import opened Runs
  import opened RequestHistory
  import opened NamespaceItems
  import NS = NamespaceProcessor
  import Node = NodeProcessor
  import SetsOf = SetsProcessor
  import Index = SindexProcessor
  import XD = XdrProcessor
  import Loop = StatLoop

  // ----- Every emission of a run -----

  const NO_ITEMS := CycleItems([], [], [], [], [])

  function Plus(a: CycleItems, b: CycleItems): CycleItems
  {
    CycleItems(a.namespaces + b.namespaces, a.node + b.node, a.sets + b.sets, a.sindex + b.sindex, a.xdr + b.xdr)
  }

  /** The items of one cycle. */
  ghost function StepItems(env: Env, m: Machine, s: Step): CycleItems
    requires StepReady(env, m, s)
  {
    if Replied(s) then ItemsOf(env, IdsAfter(env, m, s), |Node.Sinks(s.one.values)|, StepKeys(env, m, s),
                               ReplyIn(env, s), s.orders)
    else NO_ITEMS
  }

  /** The items of all cycles so far. */
  ghost function Trace(env: Env, now: int, run: Run): CycleItems
    requires Possible(env, now, run)
  {
    if run == [] then NO_ITEMS
    else Plus(Trace(env, now, run[..|run| - 1]), StepItems(env, State(env, now, run[..|run| - 1]), run[|run| - 1]))
  }

  lemma StepCaches(env: Env, m: Machine, s: Step)
    requires StepReady(env, m, s)
    ensures Next(env, m, s).caches == CachesAfter(m.caches, StepItems(env, m, s))
  {
    hide CacheAfter, ItemsOf, KeysFor, CachedReady, NS.LearnKeys, Node.Learn, Sanitized, NS.WithMaps, NS.Names;
    hide Node.Sinks;
    CachesKept(m.caches);
  }

  lemma CachesKept(c: Caches)
    ensures CachesAfter(c, NO_ITEMS) == c
  {
  }

  lemma CachesAppend(c: Caches, a: CycleItems, b: CycleItems)
    ensures CachesAfter(CachesAfter(c, a), b) == CachesAfter(c, Plus(a, b))
  {
    hide CacheAfter;
    CacheAppend(c.namespaces, a.namespaces, b.namespaces);
    CacheAppend(c.node, a.node, b.node);
    CacheAppend(c.sets, a.sets, b.sets);
    CacheAppend(c.sindex, a.sindex, b.sindex);
    CacheAppend(c.xdr, a.xdr, b.xdr);
  }

  const EMPTY := Caches(map[], map[], map[], map[], map[])

  /** The caches after a run are those that its items fill, from nothing. */
  lemma {:induction false} CachesAreTrace(env: Env, now: int, run: Run)
    requires Possible(env, now, run)
    ensures State(env, now, run).caches == CachesAfter(EMPTY, Trace(env, now, run))
  {
    if run == [] {
      CachesKept(EMPTY);
    } else {
      var front, s := run[..|run| - 1], run[|run| - 1];
      CachesAreTrace(env, now, front);
      StateOfRun(env, now, run);
      StepCaches(env, State(env, now, front), s);
      CachesAppend(EMPTY, Trace(env, now, front), StepItems(env, State(env, now, front), s));
      hide State, Possible, Next, StepReady, StepItems, CachesAfter;
    }
  }

  /** An emission of the next cycle is an emission of the whole run. */
  lemma EmissionOfRun(before: seq<Item>, items: seq<Item>, n: nat)
    requires n < |items|
    ensures Emitted(CacheAfter(map[], before), items)[n] == Emitted(map[], before + items)[|before| + n]
    ensures (before + items)[|before| + n] == items[n]
  {
    EmittedAppend(map[], before, items);
    hide CacheAfter;
  }

  // ----- XDR: the first prefix seen names the stat for good -----

  lemma {:induction false} XdrPrefixed(env: Env, now: int, run: Run)
    requires Possible(env, now, run)
    ensures Loop.AllPrefixed(env, Xdr, Trace(env, now, run).xdr)
  {
    if run != [] {
      var front, s := run[..|run| - 1], run[|run| - 1];
      XdrPrefixed(env, now, front);
      StateOfRun(env, now, run);
      XdrStepPrefixed(env, State(env, now, front), s);
      hide State, Possible, Next, StepReady, StepItems, Loop.Prefixed;
    }
  }

  lemma XdrStepPrefixed(env: Env, m: Machine, s: Step)
    requires StepReady(env, m, s)
    ensures Loop.AllPrefixed(env, Xdr, StepItems(env, m, s).xdr)
  {
    hide NS.Items, Node.Items, Loop.Items, Loop.AllPrefixed, XD.Jobs, KeysFor, Sanitized;
    if Replied(s) {
      Loop.ItemsPrefixed(env, Xdr, XD.Jobs(IdsAfter(env, m, s), ReplyIn(env, s), StepKeys(env, m, s).xdr),
                         s.orders.xdr);
    } else {
      NothingPrefixed(env);
    }
  }

  lemma NothingPrefixed(env: Env)
    ensures Loop.AllPrefixed(env, Xdr, [])
  {
  }

  /** Over all runs: an XDR emission carries the name, type and flags that its level means exactly when the
      first emission ever of the same stat name was made for a level with the same prefix. */
  lemma XdrNameIsFirstSeen(env: Env, now: int, run: Run, s: Step, n: nat)
    requires Possible(env, now, run) && StepReady(env, State(env, now, run), s)
    requires n < |StepItems(env, State(env, now, run), s).xdr|
    ensures var m, items := State(env, now, run), StepItems(env, State(env, now, run), s).xdr;
            (Emitted(m.caches.xdr, items)[n] == Uncached(items[n])
             <==> Loop.FirstPrefix(Trace(env, now, run).xdr + items, items[n].key) == Some(Loop.PrefixOf(items[n])))
  {
    hide *;
    var m := State(env, now, run);
    var before, items := Trace(env, now, run).xdr, StepItems(env, m, s).xdr;
    XdrPrefixed(env, now, run);
    XdrStepPrefixed(env, m, s);
    PrefixedAppend(env, before, items);
    CachesAreTrace(env, now, run);
    CachePicked(Trace(env, now, run));
    EmissionOfRun(before, items, n);
    Loop.PrefixTransparent(env, Xdr, before + items, |before| + n);
  }

  lemma PrefixedAppend(env: Env, a: seq<Item>, b: seq<Item>)
    requires Loop.AllPrefixed(env, Xdr, a) && Loop.AllPrefixed(env, Xdr, b)
    ensures Loop.AllPrefixed(env, Xdr, a + b)
  {
    hide Loop.Prefixed;
  }

  lemma CachePicked(items: CycleItems)
    ensures CachesAfter(EMPTY, items).xdr == CacheAfter(map[], items.xdr)
    ensures CachesAfter(EMPTY, items).namespaces == CacheAfter(map[], items.namespaces)
  {
  }

  // ----- Node, sets and secondary indexes: the caches are always coherent -----

  /** The descriptors that belong to the keys of the node, set and secondary-index caches. */
  ghost predicate CoherentItems(env: Env, items: CycleItems)
  {
    && Coherent(Node.DescriptorOf(env), items.node)
    && Coherent(Loop.DescriptorOf(env, Sets, ""), items.sets)
    && Coherent(Loop.DescriptorOf(env, Sindex, ""), items.sindex)
  }

  ghost predicate CoherentCaches(env: Env, c: Caches)
  {
    && CoherentStore(Node.DescriptorOf(env), c.node)
    && CoherentStore(Loop.DescriptorOf(env, Sets, ""), c.sets)
    && CoherentStore(Loop.DescriptorOf(env, Sindex, ""), c.sindex)
  }

  lemma StepCoherent(env: Env, m: Machine, s: Step)
    requires StepReady(env, m, s)
    ensures CoherentItems(env, StepItems(env, m, s))
  {
    hide NS.Items, Node.Items, Loop.Items, KeysFor, Sanitized, Coherent, Node.AgentsSafe, Node.DescriptorOf;
    hide Loop.DescriptorOf, SetsOf.Jobs, Index.Jobs;
    if Replied(s) {
      var ids, raw, keys := IdsAfter(env, m, s), ReplyIn(env, s), StepKeys(env, m, s);
      Node.ItemsCoherent(env, ids, raw, |Node.Sinks(s.one.values)|, s.orders.config, s.orders.statistics);
      Loop.ItemsCoherent(env, SetsOf.Jobs(ids, SetsOf.Pieces(raw)), s.orders.sets, Sets, "");
      Loop.ItemsCoherent(env, Index.Jobs(ids, raw, keys.sindex), s.orders.sindex, Sindex, "");
    } else {
      NothingCoherent(Node.DescriptorOf(env));
      NothingCoherent(Loop.DescriptorOf(env, Sets, ""));
      NothingCoherent(Loop.DescriptorOf(env, Sindex, ""));
    }
  }

  lemma CoherentNext(env: Env, c: Caches, items: CycleItems)
    requires CoherentCaches(env, c) && CoherentItems(env, items)
    ensures CoherentCaches(env, CachesAfter(c, items))
    ensures forall n | 0 <= n < |items.node| :: Emitted(c.node, items.node)[n] == Uncached(items.node[n])
    ensures forall n | 0 <= n < |items.sets| :: Emitted(c.sets, items.sets)[n] == Uncached(items.sets[n])
    ensures forall n | 0 <= n < |items.sindex| :: Emitted(c.sindex, items.sindex)[n] == Uncached(items.sindex[n])
  {
    hide CacheAfter, Emitted, Coherent, CoherentStore, Node.DescriptorOf, Loop.DescriptorOf;
    CoherentCache(Node.DescriptorOf(env), c.node, items.node);
    CoherentCache(Loop.DescriptorOf(env, Sets, ""), c.sets, items.sets);
    CoherentCache(Loop.DescriptorOf(env, Sindex, ""), c.sindex, items.sindex);
  }

  lemma NewCachesCoherent(env: Env)
    ensures CoherentCaches(env, EMPTY)
  {
  }

  /** Over all runs: every entry of the node, set and secondary-index caches is the freshly built descriptor of
      its key: stat names and user agents never collide in the node cache. */
  lemma {:induction false} CachesAreCoherent(env: Env, now: int, run: Run)
    requires Possible(env, now, run)
    ensures CoherentCaches(env, State(env, now, run).caches)
  {
    hide CoherentCaches, CachesAfter, StepItems, Next, StepReady;
    NewCachesCoherent(env);
    if run != [] {
      var front, s := run[..|run| - 1], run[|run| - 1];
      CachesAreCoherent(env, now, front);
      StateOfRun(env, now, run);
      var m := State(env, now, front);
      hide State, Possible;
      StepCaches(env, m, s);
      StepCoherent(env, m, s);
      CoherentNext(env, m.caches, StepItems(env, m, s));
    }
  }

  /** Hence what these three processors emit is what they would emit without a cache. */
  lemma CachesAreTransparent(env: Env, now: int, run: Run, s: Step)
    requires Possible(env, now, run) && StepReady(env, State(env, now, run), s)
    ensures var c, items := State(env, now, run).caches, StepItems(env, State(env, now, run), s);
            && (forall n | 0 <= n < |items.node| :: Emitted(c.node, items.node)[n] == Uncached(items.node[n]))
            && (forall n | 0 <= n < |items.sets| :: Emitted(c.sets, items.sets)[n] == Uncached(items.sets[n]))
            && (forall n | 0 <= n < |items.sindex| :: Emitted(c.sindex, items.sindex)[n] == Uncached(items.sindex[n]))
  {
    hide *;
    var m := State(env, now, run);
    CachesAreCoherent(env, now, run);
    StepCoherent(env, m, s);
    CoherentNext(env, m.caches, StepItems(env, m, s));
  }

  // ----- Namespaces: the first allow flag seen stays -----

  /** The allow flag under which a constructed name was first seen. */
  function FirstFlag(items: seq<Item>, key: string): Option<bool>
  {
    if items == [] then None
    else if items[0].key == key then Some(items[0].built.isAllowed)
    else FirstFlag(items[1..], key)
  }

  lemma {:induction false} FirstSeenIsFirstFlag(env: Env, items: seq<Item>, key: string)
    requires AllNamed(env, items)
    ensures FirstSeen(items, key) ==
              match FirstFlag(items, key)
              case None => None
              case Some(flag) => Some(NewStat(env, Namespace, key, flag))
  {
    hide NewStat;
    if items != [] {
      assert Named(env, items[0]);
      if items[0].key != key {
        FirstSeenIsFirstFlag(env, items[1..], key);
      }
    }
  }

  lemma FlagTells(env: Env, name: string, a: bool, b: bool)
    ensures NewStat(env, Namespace, name, a) == NewStat(env, Namespace, name, b) <==> a == b
    ensures IsDescriptor(NewStat(env, Namespace, name, a))
  {
  }

  lemma FlagTransparent(env: Env, items: seq<Item>, n: nat)
    requires AllNamed(env, items) && n < |items|
    ensures Emitted(map[], items)[n] == Uncached(items[n])
            <==> FirstFlag(items, items[n].key) == Some(items[n].built.isAllowed)
  {
    hide NewStat, Emitted, FirstSeen, FirstFlag, IsDescriptor, Uncached;
    var item := items[n];
    assert Named(env, item);
    forall i | 0 <= i < |items|
      ensures IsDescriptor(items[i].built)
    {
      assert Named(env, items[i]);
      FlagTells(env, items[i].key, items[i].built.isAllowed, true);
    }
    CacheTransparent(items, n);
    FirstSeenIsFirstFlag(env, items, item.key);
    if FirstFlag(items, item.key).Some? {
      FlagTells(env, item.key, FirstFlag(items, item.key).value, item.built.isAllowed);
    }
  }

  lemma StepNamed(env: Env, m: Machine, s: Step)
    requires StepReady(env, m, s)
    ensures AllNamed(env, StepItems(env, m, s).namespaces)
  {
    hide NS.Items, NS.KeysReady, Node.Items, Loop.Items, KeysFor, Sanitized, Named, Carries;
    if Replied(s) {
      ItemsWellMade(env, IdsAfter(env, m, s), ReplyIn(env, s), StepKeys(env, m, s).namespaces, s.orders.namespaces);
    }
  }

  lemma NamedAppend(env: Env, a: seq<Item>, b: seq<Item>)
    requires AllNamed(env, a) && AllNamed(env, b)
    ensures AllNamed(env, a + b)
  {
    hide Named;
  }

  lemma {:induction false} TraceNamed(env: Env, now: int, run: Run)
    requires Possible(env, now, run)
    ensures AllNamed(env, Trace(env, now, run).namespaces)
  {
    hide Named, StepItems, StepReady, Next;
    if run != [] {
      var front, s := run[..|run| - 1], run[|run| - 1];
      TraceNamed(env, now, front);
      StateOfRun(env, now, run);
      hide State, Possible, AllNamed;
      StepNamed(env, State(env, now, front), s);
      NamedAppend(env, Trace(env, now, front).namespaces, StepItems(env, State(env, now, front), s).namespaces);
    }
  }

  /** Over all runs: a namespace emission is what it would be without the cache exactly when the first raw stat
      ever seen under its constructed name had the same allow flag. */
  lemma AllowFlagIsFirstSeen(env: Env, now: int, run: Run, s: Step, n: nat)
    requires Possible(env, now, run) && StepReady(env, State(env, now, run), s)
    requires n < |StepItems(env, State(env, now, run), s).namespaces|
    ensures var m, items := State(env, now, run), StepItems(env, State(env, now, run), s).namespaces;
            (Emitted(m.caches.namespaces, items)[n] == Uncached(items[n])
             <==> FirstFlag(Trace(env, now, run).namespaces + items, items[n].key) == Some(items[n].built.isAllowed))
  {
    hide *;
    var m := State(env, now, run);
    var before, items := Trace(env, now, run).namespaces, StepItems(env, m, s).namespaces;
    TraceNamed(env, now, run);
    StepNamed(env, m, s);
    NamedAppend(env, before, items);
    CachesAreTrace(env, now, run);
    CachePicked(Trace(env, now, run));
    EmissionOfRun(before, items, n);
    FlagTransparent(env, before + items, |before| + n);
  }
}
