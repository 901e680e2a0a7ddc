/** Which allow flags the order of Go's map walks decides: for one reply, for a cycle, and over whole runs. */
module FlagOrder {
  import opened Text
  import opened Wrappers
  import opened Commons
  import opened AerospikeStat
  import opened StatsRefresher
  import opened Runs
  import opened CacheRuns
  import opened NamespaceItems
  import opened MapOrder
  import NS = NamespaceProcessor
  import Node = NodeProcessor
  import Index = SindexProcessor
  import XD = XdrProcessor
  import Lat = LatencyProcessor
  import Loop = StatLoop

  // ----- One reply -----

  /** The name under which a stat of a reply is cached, if it is sent at all. */
  function Brings(env: Env, stats: map<string, string>, stat: string): Option<string>
    requires stat in stats
  {
    var name := NS.Describe(env, Ids("", ""), "", stats, stat).0;
    if TryConvert(env, stats[stat]).None? || name == "" then None else Some(name)
  }

  lemma ItemBrings(env: Env, ids: Ids, ns: string, stats: map<string, string>, stat: string)
    requires stat in stats
    ensures var items := NS.StatItem(env, ids, ns, stats, stat);
            match Brings(env, stats, stat)
            case None => items == []
            case Some(name) =>
              && |items| == 1 && items[0].key == name
              && items[0].built == NewStat(env, Namespace, name, IsMetricAllowed(env, Namespace, stat))
  {
    hide NewStat, IsMetricAllowed, TryConvert, NS.Persistence, NS.TypeLabel;
  }

  /** All stats of a reply that bring this name have one allow flag. */
  ghost predicate NameAgrees(env: Env, stats: map<string, string>, name: string)
  {
    forall a, b | a in stats && b in stats
      && Brings(env, stats, a) == Some(name) && Brings(env, stats, b) == Some(name) ::
      IsMetricAllowed(env, Namespace, a) == IsMetricAllowed(env, Namespace, b)
  }

  /** So it is for every name that is not yet in the cache. */
  ghost predicate FlagsAgree(env: Env, stats: map<string, string>, cache: Cache)
  {
    forall name | name !in cache :: NameAgrees(env, stats, name)
  }

  /** The descriptor kept for a name comes from some stat that brings it. */
  lemma {:induction false} SeenFrom(env: Env, ids: Ids, ns: string, stats: map<string, string>, order: seq<string>,
                                    name: string)
    requires forall stat | stat in order :: stat in stats
    ensures var seen := FirstSeen(NS.StatItems(env, ids, ns, stats, order), name);
            && (seen.Some? <==> exists stat | stat in order :: Brings(env, stats, stat) == Some(name))
            && (seen.Some? ==> exists stat | stat in order ::
                  Brings(env, stats, stat) == Some(name)
                  && seen.value == NewStat(env, Namespace, name, IsMetricAllowed(env, Namespace, stat)))
  {
    hide NewStat, IsMetricAllowed, Brings, NS.StatItem;
    if order != [] {
      var front, last := order[..|order| - 1], order[|order| - 1];
      SeenFrom(env, ids, ns, stats, front, name);
      ItemBrings(env, ids, ns, stats, last);
      FirstSeenAppend(NS.StatItems(env, ids, ns, stats, front), NS.StatItem(env, ids, ns, stats, last), name);
      assert forall stat :: stat in order <==> stat in front || stat == last;
    }
  }

  /** If the first stat of an order brings a name, its descriptor is kept. */
  lemma {:induction false} SeenFirst(env: Env, ids: Ids, ns: string, stats: map<string, string>, order: seq<string>,
                                     name: string)
    requires order != [] && (forall stat | stat in order :: stat in stats) && Brings(env, stats, order[0]) == Some(name)
    ensures FirstSeen(NS.StatItems(env, ids, ns, stats, order), name)
         == Some(NewStat(env, Namespace, name, IsMetricAllowed(env, Namespace, order[0])))
  {
    hide NewStat, IsMetricAllowed, Brings, NS.StatItem;
    var front, last := order[..|order| - 1], order[|order| - 1];
    ItemBrings(env, ids, ns, stats, last);
    FirstSeenAppend(NS.StatItems(env, ids, ns, stats, front), NS.StatItem(env, ids, ns, stats, last), name);
    if front != [] {
      SeenFirst(env, ids, ns, stats, front, name);
    }
  }

  /** Any stat can come first. */
  lemma OrderFrom(stats: map<string, string>, first: string) returns (order: seq<string>)
    requires first in stats
    ensures IsOrder(order, stats) && order != [] && order[0] == first
  {
    var rest := NS.SomeOrder(map stat | stat in stats && stat != first :: stats[stat]);
    order := [first] + rest;
    assert first !in rest;
    assert forall stat :: stat in order <==> stat == first || stat in rest;
  }

  lemma Conflict(env: Env, ids: Ids, ns: string, stats: map<string, string>, name: string)
      returns (x: seq<string>, y: seq<string>)
    requires !NameAgrees(env, stats, name)
    ensures IsOrder(x, stats) && IsOrder(y, stats)
    ensures FirstSeen(NS.StatItems(env, ids, ns, stats, x), name)
         != FirstSeen(NS.StatItems(env, ids, ns, stats, y), name)
  {
    hide NewStat, IsMetricAllowed, Brings, NS.StatItems;
    var a, b :| a in stats && b in stats && Brings(env, stats, a) == Some(name) && Brings(env, stats, b) == Some(name)
                && IsMetricAllowed(env, Namespace, a) != IsMetricAllowed(env, Namespace, b);
    x := OrderFrom(stats, a);
    y := OrderFrom(stats, b);
    SeenFirst(env, ids, ns, stats, x, name);
    SeenFirst(env, ids, ns, stats, y, name);
    FlagOfNew(env, name, IsMetricAllowed(env, Namespace, a));
    FlagOfNew(env, name, IsMetricAllowed(env, Namespace, b));
  }

  lemma Agreement(env: Env, ids: Ids, ns: string, stats: map<string, string>, x: seq<string>, y: seq<string>,
                  name: string)
    requires IsOrder(x, stats) && IsOrder(y, stats) && NameAgrees(env, stats, name)
    ensures FirstSeen(NS.StatItems(env, ids, ns, stats, x), name)
         == FirstSeen(NS.StatItems(env, ids, ns, stats, y), name)
  {
    hide NewStat, IsMetricAllowed, Brings, NS.StatItems, FirstSeen;
    SeenFrom(env, ids, ns, stats, x, name);
    SeenFrom(env, ids, ns, stats, y, name);
  }

  /** The cache after the first-seen descriptors of the names that it does not hold yet. */
  lemma SameCaches(cache: Cache, a: seq<Item>, b: seq<Item>)
    ensures CacheAfter(cache, a) == CacheAfter(cache, b)
       <==> forall name | name !in cache :: FirstSeen(a, name) == FirstSeen(b, name)
  {
    hide CacheAfter, FirstSeen;
    var x, y := CacheAfter(cache, a), CacheAfter(cache, b);
    forall name
      ensures name !in cache ==> (FirstSeen(a, name) == FirstSeen(b, name)
                                  <==> ((name in x <==> name in y) && (name in x && name in y ==> x[name] == y[name])))
      ensures name in cache ==> name in x && name in y && x[name] == y[name]
    {
      CacheKeepsFirstSeen(cache, a, name);
      CacheKeepsFirstSeen(cache, b, name);
    }
    if forall name | name !in cache :: FirstSeen(a, name) == FirstSeen(b, name) {
      assert x.Keys == y.Keys;
    }
  }

  /** For every reply and every cache: the order in which the reply is walked has no influence on the cache if and only
      if no two stats that bring one name, not yet in the cache, differ in their allow flag. */
  lemma OrderDecidesFlag(env: Env, ids: Ids, ns: string, stats: map<string, string>, cache: Cache)
    ensures (forall a, b | IsOrder(a, stats) && IsOrder(b, stats) ::
               CacheAfter(cache, NS.StatItems(env, ids, ns, stats, a))
               == CacheAfter(cache, NS.StatItems(env, ids, ns, stats, b)))
       <==> FlagsAgree(env, stats, cache)
  {
    hide CacheAfter, FirstSeen, NameAgrees, NS.StatItems;
    if FlagsAgree(env, stats, cache) {
      forall a, b | IsOrder(a, stats) && IsOrder(b, stats)
        ensures CacheAfter(cache, NS.StatItems(env, ids, ns, stats, a))
             == CacheAfter(cache, NS.StatItems(env, ids, ns, stats, b))
      {
        forall name | name !in cache
          ensures FirstSeen(NS.StatItems(env, ids, ns, stats, a), name)
               == FirstSeen(NS.StatItems(env, ids, ns, stats, b), name)
        {
          Agreement(env, ids, ns, stats, a, b, name);
        }
        SameCaches(cache, NS.StatItems(env, ids, ns, stats, a), NS.StatItems(env, ids, ns, stats, b));
      }
    } else {
      var name :| name !in cache && !NameAgrees(env, stats, name);
      var x, y := Conflict(env, ids, ns, stats, name);
      SameCaches(cache, NS.StatItems(env, ids, ns, stats, x), NS.StatItems(env, ids, ns, stats, y));
    }
  }

  // ----- Two files of a storage engine -----

  lemma TwoOrders(stats: map<string, string>, a: string, b: string, order: seq<string>)
    requires stats.Keys == {a, b} && a != b
    ensures IsOrder([a, b], stats) && IsOrder([b, a], stats)
    ensures IsOrder(order, stats) ==> order == [a, b] || order == [b, a]
  {
    if IsOrder(order, stats) {
      assert forall k | 0 <= k < |order| :: order[k] in order && order[k] in stats.Keys;
      assert a in order && b in order;
      if |order| > 2 {
        assert order[0] != order[1] && order[0] != order[2] && order[1] != order[2];
      }
    }
  }

  predicate IsFileAge(env: Env, stat: string, index: string)
  {
    env.lib.matchArrayStat("storage-engine", stat) == Some(("file", index, "age"))
      && NS.Persistence(stat) == ("storage-engine", true)
  }

  lemma FileAgeBrings(env: Env, stats: map<string, string>, stat: string, index: string)
    requires stat in stats && TryConvert(env, stats[stat]).Some? && IsFileAge(env, stat, index)
    ensures Brings(env, stats, stat) == Some("storage-engine" + "_" + "file" + "_" + "age")
  {
    hide TryConvert, NS.Persistence;
  }

  lemma FileNames(env: Env)
    requires env.lib.matchArrayStat("storage-engine", "storage-engine.file[0].age") == Some(("file", "0", "age"))
    requires env.lib.matchArrayStat("storage-engine", "storage-engine.file[1].age") == Some(("file", "1", "age"))
    ensures "storage-engine.file[0].age" != "storage-engine.file[1].age"
    ensures IsFileAge(env, "storage-engine.file[0].age", "0") && IsFileAge(env, "storage-engine.file[1].age", "1")
  {
    var a, b := "storage-engine.file[0].age", "storage-engine.file[1].age";
    assert a[20] == '0' && b[20] == '1' && a[19] == '[' && b[19] == '[';
    assert a[0] == 's' && b[0] == 's' && a[1] == 't' && b[1] == 't';
  }

  /** For instance, one file age that is allowed and one that is blocked. */
  lemma FileAgesCollide(env: Env, ids: Ids, ns: string, value: string)
    requires TryConvert(env, value).Some?
    requires env.lib.matchArrayStat("storage-engine", "storage-engine.file[0].age") == Some(("file", "0", "age"))
    requires env.lib.matchArrayStat("storage-engine", "storage-engine.file[1].age") == Some(("file", "1", "age"))
    requires IsMetricAllowed(env, Namespace, "storage-engine.file[0].age")
          != IsMetricAllowed(env, Namespace, "storage-engine.file[1].age")
    ensures var a, b := "storage-engine.file[0].age", "storage-engine.file[1].age";
            var stats := map[a := value, b := value];
            && IsOrder([a, b], stats) && IsOrder([b, a], stats)
            && CacheAfter(map[], NS.StatItems(env, ids, ns, stats, [a, b]))
               != CacheAfter(map[], NS.StatItems(env, ids, ns, stats, [b, a]))
  {
    FileNames(env);
    TwoAges(env, ids, ns, value, "storage-engine.file[0].age", "storage-engine.file[1].age", "0", "1");
  }

  lemma TwoAges(env: Env, ids: Ids, ns: string, value: string, a: string, b: string, i: string, j: string)
    requires TryConvert(env, value).Some? && a != b && IsFileAge(env, a, i) && IsFileAge(env, b, j)
    requires IsMetricAllowed(env, Namespace, a) != IsMetricAllowed(env, Namespace, b)
    ensures var stats := map[a := value, b := value];
            && IsOrder([a, b], stats) && IsOrder([b, a], stats)
            && CacheAfter(map[], NS.StatItems(env, ids, ns, stats, [a, b]))
               != CacheAfter(map[], NS.StatItems(env, ids, ns, stats, [b, a]))
  {
    hide CacheAfter, NS.StatItems, IsMetricAllowed, TryConvert, Brings, IsFileAge;
    var stats := map[a := value, b := value];
    assert stats.Keys == {a, b};
    FileAgeBrings(env, stats, a, i);
    FileAgeBrings(env, stats, b, j);
    TwoOrders(stats, a, b, []);
    OrderDecidesFlag(env, ids, ns, stats, map[]);
    assert !NameAgrees(env, stats, "storage-engine" + "_" + "file" + "_" + "age");
    var x, y :| IsOrder(x, stats) && IsOrder(y, stats)
                && CacheAfter(map[], NS.StatItems(env, ids, ns, stats, x))
                   != CacheAfter(map[], NS.StatItems(env, ids, ns, stats, y));
    TwoOrders(stats, a, b, x);
    TwoOrders(stats, a, b, y);
  }

  // ----- The replies of a cycle -----

  /** The name of a roster stat. */
  function RosterStat(stat: string): string
  {
    "pseudo_" + stat + "_size"
  }

  /** Some stat of the reply to a key brings the name, in whatever order the reply is walked. */
  ghost predicate KeyBrings(env: Env, ids: Ids, raw: map<string, string>, key: string, name: string)
    requires NS.ItemSafe(env, raw, key)
  {
    var reply := NS.ReplyOf(raw, key);
    match NS.RouteOf(key)
    case ToNamespace => exists stat | stat in reply :: Brings(env, reply, stat) == Some(name)
    case ToPressure => FirstSeen(NS.PressureItems(env, ids, Split(Get(raw, key), ';')), name).Some?
    case ToRoster => Get(raw, key) != "" && exists stat | stat in reply :: RosterStat(stat) == name
    case ToNobody => false
  }

  lemma {:induction false} RosterSees(env: Env, ids: Ids, ns: string, stats: map<string, string>, order: seq<string>,
                                      name: string)
    requires forall stat | stat in order :: stat in stats
    ensures FirstSeen(NS.RosterItems(env, ids, ns, stats, order), name)
         == if exists stat | stat in order :: RosterStat(stat) == name
            then Some(NewStat(env, Namespace, name, IsMetricAllowed(env, Namespace, name))) else None
  {
    hide NewStat, IsMetricAllowed, Split;
    if order != [] {
      var front, last := order[..|order| - 1], order[|order| - 1];
      RosterSees(env, ids, ns, stats, front, name);
      FirstSeenAppend(NS.RosterItems(env, ids, ns, stats, front), [NS.RosterItem(env, ids, ns, stats, last)], name);
      assert forall stat :: stat in order <==> stat in front || stat == last;
      assert RosterStat(last) == NS.RosterItem(env, ids, ns, stats, last).key;
    }
  }

  lemma KeySees(env: Env, ids: Ids, raw: map<string, string>, key: string, order: seq<string>, name: string)
    requires NS.ItemSafe(env, raw, key) && IsOrder(order, NS.ReplyOf(raw, key))
    ensures FirstSeen(NS.KeyItems(env, ids, raw, key, order), name).Some? <==> KeyBrings(env, ids, raw, key, name)
  {
    hide NS.StatItems, NS.RosterItems, NS.PressureItems, NS.ReplyOf, NS.RosterName, NS.PressureSafe, Split, Brings;
    hide RosterStat, NewStat, IsMetricAllowed;
    match NS.RouteOf(key)
    case ToNamespace => SeenFrom(env, ids, NS.NameOf(key), NS.ReplyOf(raw, key), order, name);
    case ToPressure =>
    case ToRoster =>
      if Get(raw, key) != "" {
        RosterSees(env, ids, NS.RosterName(key), NS.ReplyOf(raw, key), order, name);
      }
    case ToNobody =>
  }

  /** The reply to the key does not let the order decide about the name. */
  ghost predicate KeyAgrees(env: Env, raw: map<string, string>, key: string, name: string)
  {
    NS.RouteOf(key) == NS.ToNamespace ==> NameAgrees(env, NS.ReplyOf(raw, key), name)
  }

  lemma KeySeesAlike(env: Env, ids: Ids, raw: map<string, string>, key: string, a: seq<string>, b: seq<string>,
                     name: string)
    requires NS.ItemSafe(env, raw, key) && IsOrder(a, NS.ReplyOf(raw, key)) && IsOrder(b, NS.ReplyOf(raw, key))
    requires KeyAgrees(env, raw, key, name)
    ensures FirstSeen(NS.KeyItems(env, ids, raw, key, a), name) == FirstSeen(NS.KeyItems(env, ids, raw, key, b), name)
  {
    hide NS.StatItems, NS.RosterItems, NS.PressureItems, NS.ReplyOf, NS.RosterName, NS.PressureSafe, Split, NameAgrees;
    hide RosterStat, NewStat, IsMetricAllowed;
    match NS.RouteOf(key)
    case ToNamespace => Agreement(env, ids, NS.NameOf(key), NS.ReplyOf(raw, key), a, b, name);
    case ToPressure =>
    case ToRoster =>
      if Get(raw, key) != "" {
        RosterSees(env, ids, NS.RosterName(key), NS.ReplyOf(raw, key), a, name);
        RosterSees(env, ids, NS.RosterName(key), NS.ReplyOf(raw, key), b, name);
      }
    case ToNobody =>
  }

  /** All calls for these keys are safe, so that the replies can be walked. */
  predicate ItemsSafe(env: Env, raw: map<string, string>, keys: seq<string>)
  {
    forall n | 0 <= n < |keys| :: NS.ItemSafe(env, raw, keys[n])
  }

  /** The first of the keys whose reply brings the name does not let the order decide about it. */
  ghost predicate FirstAgrees(env: Env, ids: Ids, raw: map<string, string>, keys: seq<string>, name: string)
    requires ItemsSafe(env, raw, keys)
  {
    if keys == [] then true
    else
      var n := |keys| - 1;
      FirstAgrees(env, ids, raw, keys[..n], name)
      && (KeyAgrees(env, raw, keys[n], name) || Brought(env, ids, raw, keys[..n], name))
  }

  /** The reply to one of the keys brings the name. */
  ghost predicate Brought(env: Env, ids: Ids, raw: map<string, string>, keys: seq<string>, name: string)
    requires ItemsSafe(env, raw, keys)
  {
    exists n | 0 <= n < |keys| :: KeyBrings(env, ids, raw, keys[n], name)
  }

  lemma {:induction false} ItemsSee(env: Env, ids: Ids, raw: map<string, string>, keys: seq<string>,
                                    orders: seq<seq<string>>, name: string)
    requires NS.KeysReady(env, raw, keys, orders)
    ensures ItemsSafe(env, raw, keys)
    ensures FirstSeen(NS.Items(env, ids, raw, keys, orders), name).Some? <==> Brought(env, ids, raw, keys, name)
  {
    hide NS.KeyItems, NS.ItemSafe, NS.ReplyOf, KeyBrings;
    if keys != [] {
      var n := |keys| - 1;
      ItemsSee(env, ids, raw, keys[..n], orders[..n], name);
      KeySees(env, ids, raw, keys[n], orders[n], name);
      FirstSeenAppend(NS.Items(env, ids, raw, keys[..n], orders[..n]), NS.KeyItems(env, ids, raw, keys[n], orders[n]),
                      name);
      assert forall k | 0 <= k < n :: keys[..n][k] == keys[k];
    }
  }

  lemma {:induction false} ItemsSeeAlike(env: Env, ids: Ids, raw: map<string, string>, keys: seq<string>,
                                         a: seq<seq<string>>, b: seq<seq<string>>, name: string)
    requires NS.KeysReady(env, raw, keys, a) && NS.KeysReady(env, raw, keys, b) && ItemsSafe(env, raw, keys)
    requires FirstAgrees(env, ids, raw, keys, name)
    ensures FirstSeen(NS.Items(env, ids, raw, keys, a), name) == FirstSeen(NS.Items(env, ids, raw, keys, b), name)
  {
    hide NS.KeyItems, NS.ItemSafe, NS.ReplyOf, KeyBrings, KeyAgrees, Brought, FirstSeen;
    if keys != [] {
      var n := |keys| - 1;
      ItemsSeeAlike(env, ids, raw, keys[..n], a[..n], b[..n], name);
      ItemsSee(env, ids, raw, keys[..n], a[..n], name);
      FirstSeenAppend(NS.Items(env, ids, raw, keys[..n], a[..n]), NS.KeyItems(env, ids, raw, keys[n], a[n]), name);
      FirstSeenAppend(NS.Items(env, ids, raw, keys[..n], b[..n]), NS.KeyItems(env, ids, raw, keys[n], b[n]), name);
      if KeyAgrees(env, raw, keys[n], name) {
        KeySeesAlike(env, ids, raw, keys[n], a[n], b[n], name);
      }
    }
  }

  lemma {:induction false} SomeOrders(env: Env, raw: map<string, string>, keys: seq<string>)
      returns (orders: seq<seq<string>>)
    requires ItemsSafe(env, raw, keys)
    ensures NS.KeysReady(env, raw, keys, orders)
  {
    hide NS.ItemSafe, NS.ReplyOf, IsOrder;
    if keys == [] {
      orders := [];
    } else {
      var n := |keys| - 1;
      var front := SomeOrders(env, raw, keys[..n]);
      var last := NS.SomeOrder(NS.ReplyOf(raw, keys[n]));
      orders := front + [last];
    }
  }

  /** If the first reply that brings a name disagrees about it, two orders leave different descriptors. */
  lemma {:induction false} ItemsConflict(env: Env, ids: Ids, raw: map<string, string>, keys: seq<string>, name: string)
      returns (x: seq<seq<string>>, y: seq<seq<string>>)
    requires ItemsSafe(env, raw, keys) && !FirstAgrees(env, ids, raw, keys, name)
    ensures NS.KeysReady(env, raw, keys, x) && NS.KeysReady(env, raw, keys, y)
    ensures FirstSeen(NS.Items(env, ids, raw, keys, x), name) != FirstSeen(NS.Items(env, ids, raw, keys, y), name)
  {
    hide NS.ItemSafe, NS.ReplyOf, KeyBrings, NameAgrees, Brought, FirstSeen, NS.StatItems;
    var n := |keys| - 1;
    var front, last := keys[..n], keys[n];
    var u, v: seq<string>;
    if FirstAgrees(env, ids, raw, front, name) {
      x := SomeOrders(env, raw, front);
      y := x;
      u, v := Conflict(env, ids, NS.NameOf(last), NS.ReplyOf(raw, last), name);
      ItemsSee(env, ids, raw, front, x, name);
    } else {
      x, y := ItemsConflict(env, ids, raw, front, name);
      ItemsSee(env, ids, raw, front, x, name);
      ItemsSee(env, ids, raw, front, y, name);
      u := NS.SomeOrder(NS.ReplyOf(raw, last));
      v := u;
    }
    NS.ItemsSnoc(env, ids, raw, front, x, last, u);
    NS.ItemsSnoc(env, ids, raw, front, y, last, v);
    FirstSeenAppend(NS.Items(env, ids, raw, front, x), NS.KeyItems(env, ids, raw, last, u), name);
    FirstSeenAppend(NS.Items(env, ids, raw, front, y), NS.KeyItems(env, ids, raw, last, v), name);
    assert keys == front + [last];
    x, y := x + [u], y + [v];
  }

  /** Every name that is not in the cache yet is settled by the first reply that brings it. */
  ghost predicate Settled(env: Env, ids: Ids, raw: map<string, string>, keys: seq<string>, cache: Cache)
    requires ItemsSafe(env, raw, keys)
  {
    forall name | name !in cache :: FirstAgrees(env, ids, raw, keys, name)
  }

  /** For the replies to a list of keys: the orders in which they are walked have no influence on the cache if and only
      if every new name is settled. */
  lemma OrdersDecideFlags(env: Env, ids: Ids, raw: map<string, string>, keys: seq<string>, cache: Cache)
    requires ItemsSafe(env, raw, keys)
    ensures (forall a, b | NS.KeysReady(env, raw, keys, a) && NS.KeysReady(env, raw, keys, b) ::
               CacheAfter(cache, NS.Items(env, ids, raw, keys, a))
               == CacheAfter(cache, NS.Items(env, ids, raw, keys, b)))
       <==> Settled(env, ids, raw, keys, cache)
  {
    hide CacheAfter, FirstSeen, NS.Items, NS.KeysReady, FirstAgrees, ItemsSafe;
    if Settled(env, ids, raw, keys, cache) {
      forall a, b | NS.KeysReady(env, raw, keys, a) && NS.KeysReady(env, raw, keys, b)
        ensures CacheAfter(cache, NS.Items(env, ids, raw, keys, a))
             == CacheAfter(cache, NS.Items(env, ids, raw, keys, b))
      {
        SettledAlike(env, ids, raw, keys, cache, a, b);
      }
    } else {
      var name :| name !in cache && !FirstAgrees(env, ids, raw, keys, name);
      var x, y := ItemsConflict(env, ids, raw, keys, name);
      SameCaches(cache, NS.Items(env, ids, raw, keys, x), NS.Items(env, ids, raw, keys, y));
    }
  }

  lemma SettledAlike(env: Env, ids: Ids, raw: map<string, string>, keys: seq<string>, cache: Cache,
                     a: seq<seq<string>>, b: seq<seq<string>>)
    requires NS.KeysReady(env, raw, keys, a) && NS.KeysReady(env, raw, keys, b) && ItemsSafe(env, raw, keys)
    requires Settled(env, ids, raw, keys, cache)
    ensures CacheAfter(cache, NS.Items(env, ids, raw, keys, a)) == CacheAfter(cache, NS.Items(env, ids, raw, keys, b))
  {
    hide CacheAfter, FirstSeen, NS.Items, NS.KeysReady, FirstAgrees, ItemsSafe;
    forall name | name !in cache
      ensures FirstSeen(NS.Items(env, ids, raw, keys, a), name) == FirstSeen(NS.Items(env, ids, raw, keys, b), name)
    {
      ItemsSeeAlike(env, ids, raw, keys, a, b, name);
    }
    SameCaches(cache, NS.Items(env, ids, raw, keys, a), NS.Items(env, ids, raw, keys, b));
  }

  // ----- Cycles -----

  /** The replies of the cycle settle every name that is new in it. */
  ghost predicate StepSettled(env: Env, m: Machine, s: Step)
    requires StepReady(env, m, s)
  {
    Replied(s) ==>
      var raw, keys := Sanitized(env, s.two.values), StepKeys(env, m, s).namespaces;
      ItemsSafe(env, raw, keys) && Settled(env, IdsAfter(env, m, s), raw, keys, m.caches.namespaces)
  }

  /** The namespace items of a cycle, and what it takes to walk its namespace replies in another order. */
  lemma CycleParts(env: Env, m: Machine, s: Step)
    requires StepReady(env, m, s) && Replied(s)
    ensures var raw, keys := Sanitized(env, s.two.values), StepKeys(env, m, s).namespaces;
            && NS.KeysReady(env, raw, keys, s.orders.namespaces) && ItemsSafe(env, raw, keys)
            && Next(env, m, s).caches.namespaces
               == CacheAfter(m.caches.namespaces,
                             NS.Items(env, IdsAfter(env, m, s), raw, keys, s.orders.namespaces))
  {
    hide KeysFor, Node.AgentsSafe, Loop.Ready, IsOrder, CommandsReady, Identified, Prepared, Sanitized;
    hide Lat.RefreshReady, NS.Items, NS.ItemSafe, Node.Items, Loop.Items, CacheAfter;
    StepCaches(env, m, s);
  }

  lemma SameParts(env: Env, m: Machine, s: Step, t: Step)
    requires StepReady(env, m, s) && StepReady(env, m, t) && SameButOrders(s, t) && Replied(s)
    ensures StepKeys(env, m, s).namespaces == StepKeys(env, m, t).namespaces
            && IdsAfter(env, m, s) == IdsAfter(env, m, t)
  {
    hide RepliesReady, Identified, Prepared, NS.PassTwo, NS.Names, PressureDue;
  }

  /** The same cycle, with the namespace replies walked in other orders. */
  lemma Rewalked(env: Env, m: Machine, s: Step, orders: seq<seq<string>>) returns (t: Step)
    requires StepReady(env, m, s) && Replied(s)
    requires NS.KeysReady(env, Sanitized(env, s.two.values), StepKeys(env, m, s).namespaces, orders)
    ensures StepReady(env, m, t) && SameButOrders(s, t) && t.orders.namespaces == orders
  {
    t := s.(orders := s.orders.(namespaces := orders));
    hide NS.KeysReady, Node.AgentsSafe, Loop.Ready, IsOrder, Identified, Prepared, Sanitized, NS.PassTwo, Node.PassTwo;
    hide Index.PassTwo, XD.PassTwo, Lat.PassTwo, Lat.RefreshReady, NS.WithMaps, NS.Names, Lat.IsEntryOrder;
    hide Index.Decodes;
    assert CommandsReady(m, t.one.values, t.orders);
    assert StepKeys(env, m, t) == StepKeys(env, m, s);
  }

  /** For every state and every cycle: the orders in which Go walks its maps have no influence on the next state if and
      only if the cycle is settled. */
  lemma CycleOrdersDecide(env: Env, m: Machine, s: Step)
    requires StepReady(env, m, s)
    ensures (forall t | StepReady(env, m, t) && SameButOrders(s, t) :: Next(env, m, t) == Next(env, m, s))
       <==> StepSettled(env, m, s)
  {
    hide RepliesReady, CommandsReady, Next, Settled, ItemsSafe, NS.Items, NS.KeysReady, CacheAfter, Sanitized;
    hide StepKeys, IdsAfter;
    if StepSettled(env, m, s) {
      forall t | StepReady(env, m, t) && SameButOrders(s, t)
        ensures Next(env, m, t) == Next(env, m, s)
      {
        SettledStep(env, m, s, t);
      }
    } else {
      CycleParts(env, m, s);
      var raw, keys, ids := Sanitized(env, s.two.values), StepKeys(env, m, s).namespaces, IdsAfter(env, m, s);
      OrdersDecideFlags(env, ids, raw, keys, m.caches.namespaces);
      var a, b :| NS.KeysReady(env, raw, keys, a) && NS.KeysReady(env, raw, keys, b)
                  && CacheAfter(m.caches.namespaces, NS.Items(env, ids, raw, keys, a))
                     != CacheAfter(m.caches.namespaces, NS.Items(env, ids, raw, keys, b));
      var t := Rewalked(env, m, s, a);
      var u := Rewalked(env, m, s, b);
      RewalkedParts(env, m, s, t);
      RewalkedParts(env, m, s, u);
      assert Next(env, m, t) != Next(env, m, u);
    }
  }

  lemma RewalkedParts(env: Env, m: Machine, s: Step, t: Step)
    requires StepReady(env, m, s) && StepReady(env, m, t) && SameButOrders(s, t) && Replied(s)
    ensures var raw, keys := Sanitized(env, s.two.values), StepKeys(env, m, s).namespaces;
            && NS.KeysReady(env, raw, keys, t.orders.namespaces)
            && Next(env, m, t).caches.namespaces
               == CacheAfter(m.caches.namespaces,
                             NS.Items(env, IdsAfter(env, m, s), raw, keys, t.orders.namespaces))
  {
    hide StepReady, Next, ItemsSafe, NS.Items, NS.KeysReady, CacheAfter, Sanitized, StepKeys, IdsAfter;
    SameParts(env, m, s, t);
    CycleParts(env, m, t);
  }

  lemma SettledStep(env: Env, m: Machine, s: Step, t: Step)
    requires StepReady(env, m, s) && StepReady(env, m, t) && SameButOrders(s, t) && StepSettled(env, m, s)
    ensures Next(env, m, t) == Next(env, m, s)
  {
    SameIsAlike(m);
    CyclesAlike(env, m, m, t, s);
    if Replied(s) {
      CycleParts(env, m, s);
      RewalkedParts(env, m, s, t);
      SettledAlike(env, IdsAfter(env, m, s), Sanitized(env, s.two.values), StepKeys(env, m, s).namespaces,
                   m.caches.namespaces, t.orders.namespaces, s.orders.namespaces);
    } else {
      NoReplySame(env, m, s, t);
    }
    hide StepReady, Next, Settled, ItemsSafe, NS.Items, NS.KeysReady, CacheAfter, Sanitized, StepKeys, IdsAfter;
    hide SameButFlags;
  }

  lemma NoReplySame(env: Env, m: Machine, s: Step, t: Step)
    requires StepReady(env, m, s) && StepReady(env, m, t) && SameButOrders(s, t) && !Replied(s)
    ensures Next(env, m, t) == Next(env, m, s)
  {
    hide RepliesReady, CommandsReady, Prepared;
  }

  // ----- Runs -----

  /** Every cycle of the run is settled. */
  ghost predicate RunSettled(env: Env, now: int, run: Run)
    requires Possible(env, now, run)
  {
    run == []
    || (RunSettled(env, now, run[..|run| - 1])
        && StepSettled(env, State(env, now, run[..|run| - 1]), run[|run| - 1]))
  }

  lemma ReadyAlike(env: Env, m: Machine, n: Machine, s: Step)
    requires Alike(m, n) && StepReady(env, m, s)
    ensures StepReady(env, n, s)
  {
    hide RepliesReady, NS.PassTwo, NS.WithMaps, NS.Names, Lat.IsEntryOrder, IsOrder, NS.CanSendPressure, AlikeCaches;
    hide Node.PassTwo, Index.PassTwo, XD.PassTwo, Lat.PassTwo, SameButFlags;
  }

  /** An entry of the namespace cache stays. */
  lemma EntriesStay(env: Env, m: Machine, s: Step, name: string)
    requires StepReady(env, m, s) && name in m.caches.namespaces
    ensures name in Next(env, m, s).caches.namespaces
            && Next(env, m, s).caches.namespaces[name] == m.caches.namespaces[name]
  {
    hide StepReady, Next, StepItems, CacheAfter;
    StepCaches(env, m, s);
    CacheKeepsFirstSeen(m.caches.namespaces, StepItems(env, m, s).namespaces, name);
  }

  /** States that differ go on to differ. */
  lemma DifferenceStays(env: Env, m: Machine, n: Machine, s: Step)
    requires Alike(m, n) && m != n && StepReady(env, m, s) && StepReady(env, n, s)
    ensures Next(env, m, s) != Next(env, n, s)
  {
    hide StepReady, Next;
    var name :| name in m.caches.namespaces && m.caches.namespaces[name] != n.caches.namespaces[name];
    EntriesStay(env, m, s, name);
    EntriesStay(env, n, s, name);
  }

  lemma {:induction false} UnsettledRun(env: Env, now: int, run: Run) returns (other: Run)
    requires Possible(env, now, run) && !RunSettled(env, now, run)
    ensures Possible(env, now, other) && RunsSameButOrders(run, other)
    ensures State(env, now, other) != State(env, now, run)
  {
    hide StepReady, Next, Alike, StepSettled;
    var front, s := run[..|run| - 1], run[|run| - 1];
    var m := State(env, now, front);
    if RunSettled(env, now, front) {
      CycleOrdersDecide(env, m, s);
      var t :| StepReady(env, m, t) && SameButOrders(s, t) && Next(env, m, t) != Next(env, m, s);
      other := front + [t];
    } else {
      var before := UnsettledRun(env, now, front);
      OrderLeavesNoTrace(env, now, before, front);
      var n := State(env, now, before);
      OrderLeavesNoTrace(env, now, front, before);
      ReadyAlike(env, m, n, s);
      DifferenceStays(env, m, n, s);
      other := before + [s];
    }
    assert other[..|other| - 1] == other[..|run| - 1];
  }

  lemma {:induction false} SettledRun(env: Env, now: int, run: Run, other: Run)
    requires Possible(env, now, run) && Possible(env, now, other) && RunsSameButOrders(run, other)
    requires RunSettled(env, now, run)
    ensures State(env, now, other) == State(env, now, run)
  {
    hide StepReady, Next, StepSettled;
    if run != [] {
      var n := |run| - 1;
      SettledRun(env, now, run[..n], other[..n]);
      SettledStep(env, State(env, now, run[..n]), run[n], other[n]);
    }
  }

  /** Over all runs: Go's map orders have no influence on the state if and only if every cycle of the run is settled. */
  lemma RunOrdersDecide(env: Env, now: int, run: Run)
    requires Possible(env, now, run)
    ensures (forall other | Possible(env, now, other) && RunsSameButOrders(run, other) ::
               State(env, now, other) == State(env, now, run))
       <==> RunSettled(env, now, run)
  {
    hide Possible, State, RunsSameButOrders, RunSettled;
    if RunSettled(env, now, run) {
      forall other | Possible(env, now, other) && RunsSameButOrders(run, other)
        ensures State(env, now, other) == State(env, now, run)
      {
        SettledRun(env, now, run, other);
      }
    } else {
      var other := UnsettledRun(env, now, run);
    }
  }
}
