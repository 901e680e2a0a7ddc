/** The items of the namespace processor: their descriptors, and whose labels they carry. */
module NamespaceItems {
  import opened Text
  import opened AerospikeStat
  import opened NamespaceProcessor
  import opened InfoKeys

  /** The descriptor of a namespace stat is named after its key; its allow flag is that of the raw stat. */
  predicate Named(env: Env, item: Item)
  {
    item.built == NewStat(env, Namespace, item.key, item.built.isAllowed)
  }

  ghost predicate AllNamed(env: Env, items: seq<Item>)
  {
    forall n | 0 <= n < |items| :: Named(env, items[n])
  }

  ghost predicate WellMade(env: Env, ids: Ids, items: seq<Item>)
  {
    AllNamed(env, items) && Labelled(ids, items)
  }

  /** The items are about one namespace. */
  ghost predicate About(ns: string, items: seq<Item>)
  {
    forall n | 0 <= n < |items| ::
      |items[n].labels| >= 3 && |items[n].labelValues| >= 3 && items[n].labels[2] == "ns"
        && items[n].labelValues[2] == ns
  }

  lemma WellMadeAppend(env: Env, ids: Ids, a: seq<Item>, b: seq<Item>)
    requires WellMade(env, ids, a) && WellMade(env, ids, b)
    ensures WellMade(env, ids, a + b)
  {
    hide Named, Carries;
  }

  lemma AboutAppend(ns: string, a: seq<Item>, b: seq<Item>)
    requires About(ns, a) && About(ns, b)
    ensures About(ns, a + b)
  {
  }

  lemma NothingIsWellMade(env: Env, ids: Ids, ns: string)
    ensures WellMade(env, ids, []) && About(ns, [])
  {
  }

  lemma FlagOfNew(env: Env, name: string, flag: bool)
    ensures NewStat(env, Namespace, name, flag).isAllowed == flag
  {
  }

  lemma NamespaceLabels(ids: Ids, ns: string)
    ensures Carries(ids, NS_LABELS, [ids.clusterName, ids.service, ns])
    ensures |NS_LABELS| == 3 && NS_LABELS[2] == "ns"
  {
  }

  lemma StatItemWellMade(env: Env, ids: Ids, ns: string, stats: map<string, string>, stat: string)
    requires stat in stats
    ensures WellMade(env, ids, StatItem(env, ids, ns, stats, stat)) && About(ns, StatItem(env, ids, ns, stats, stat))
  {
    var (name, labels, values) := Describe(env, ids, ns, stats, stat);
    FlagOfNew(env, name, IsMetricAllowed(env, Namespace, stat));
    hide NewStat, IsMetricAllowed, TryConvert, Persistence;
  }

  /** Every stat of a reply is emitted under the identity of the node and the name of the namespace. */
  lemma {:induction false} StatItemsWellMade(env: Env, ids: Ids, ns: string, stats: map<string, string>,
                                             order: seq<string>)
    requires forall stat | stat in order :: stat in stats
    ensures WellMade(env, ids, StatItems(env, ids, ns, stats, order))
            && About(ns, StatItems(env, ids, ns, stats, order))
  {
    hide StatItem, WellMade, About;
    NothingIsWellMade(env, ids, ns);
    if order != [] {
      var front, one := StatItems(env, ids, ns, stats, order[..|order| - 1]),
        StatItem(env, ids, ns, stats, order[|order| - 1]);
      StatItemsWellMade(env, ids, ns, stats, order[..|order| - 1]);
      StatItemWellMade(env, ids, ns, stats, order[|order| - 1]);
      WellMadeAppend(env, ids, front, one);
      AboutAppend(ns, front, one);
    }
  }

  lemma PressureItemWellMade(env: Env, ids: Ids, values: seq<string>, i: nat)
    requires 1 <= i < |values| && PieceSafe(env, values)
    ensures WellMade(env, ids, PressureItem(env, ids, values, i)) && About(values[0], PressureItem(env, ids, values, i))
  {
    if i < 3 {
      FlagOfNew(env, PRESSURE_NAMES[i], IsMetricAllowed(env, Namespace, PRESSURE_NAMES[i]));
    }
    NamespaceLabels(ids, values[0]);
    hide NewStat, IsMetricAllowed, TryConvert, Carries;
  }

  lemma {:induction false} PieceItemsWellMade(env: Env, ids: Ids, values: seq<string>, n: nat)
    requires 1 <= n <= |values| && PieceSafe(env, values)
    ensures WellMade(env, ids, PieceItems(env, ids, values, n)) && About(values[0], PieceItems(env, ids, values, n))
  {
    hide PressureItem, WellMade, PieceSafe, About;
    NothingIsWellMade(env, ids, values[0]);
    if n > 1 {
      PieceItemsWellMade(env, ids, values, n - 1);
      PressureItemWellMade(env, ids, values, n - 1);
      WellMadeAppend(env, ids, PieceItems(env, ids, values, n - 1), PressureItem(env, ids, values, n - 1));
      AboutAppend(values[0], PieceItems(env, ids, values, n - 1), PressureItem(env, ids, values, n - 1));
    }
  }

  lemma {:induction false} PressureItemsWellMade(env: Env, ids: Ids, pieces: seq<string>)
    requires forall piece | piece in pieces :: PieceSafe(env, Split(piece, ':'))
    ensures WellMade(env, ids, PressureItems(env, ids, pieces))
  {
    hide PieceItems, WellMade, PieceSafe, Split;
    NothingIsWellMade(env, ids, "");
    if pieces != [] {
      var front, values := pieces[..|pieces| - 1], Split(pieces[|pieces| - 1], ':');
      PressureItemsWellMade(env, ids, front);
      assert pieces[|pieces| - 1] in pieces;
      PieceItemsWellMade(env, ids, values, |values|);
      WellMadeAppend(env, ids, PressureItems(env, ids, front), PieceItems(env, ids, values, |values|));
    }
  }

  lemma {:induction false} RosterItemsWellMade(env: Env, ids: Ids, ns: string, stats: map<string, string>,
                                               order: seq<string>)
    requires forall stat | stat in order :: stat in stats
    ensures WellMade(env, ids, RosterItems(env, ids, ns, stats, order))
            && About(ns, RosterItems(env, ids, ns, stats, order))
  {
    if order != [] {
      RosterItemsWellMade(env, ids, ns, stats, order[..|order| - 1]);
      var name := "pseudo_" + order[|order| - 1] + "_size";
      FlagOfNew(env, name, IsMetricAllowed(env, Namespace, name));
    }
    hide NewStat, IsMetricAllowed, Split;
  }

  lemma KeyItemsWellMade(env: Env, ids: Ids, raw: map<string, string>, key: string, order: seq<string>)
    requires ItemSafe(env, raw, key) && forall stat | stat in order :: stat in ReplyOf(raw, key)
    ensures WellMade(env, ids, KeyItems(env, ids, raw, key, order))
  {
    hide WellMade, PieceSafe, Split, StatItems, RosterItems, PressureItems, ReplyOf;
    NothingIsWellMade(env, ids, "");
    match RouteOf(key)
    case ToNamespace => StatItemsWellMade(env, ids, NameOf(key), ReplyOf(raw, key), order);
    case ToPressure => PressureItemsWellMade(env, ids, Split(Get(raw, key), ';'));
    case ToRoster =>
      if Get(raw, key) != "" {
        RosterItemsWellMade(env, ids, RosterName(key), ReplyOf(raw, key), order);
      }
    case ToNobody =>
  }

  /** All items of a refresh carry the identity of the node, and are named after their cache key. */
  lemma {:induction false} ItemsWellMade(env: Env, ids: Ids, raw: map<string, string>, keys: seq<string>,
                                         orders: seq<seq<string>>)
    requires KeysReady(env, raw, keys, orders)
    ensures WellMade(env, ids, Items(env, ids, raw, keys, orders))
  {
    hide WellMade, KeyItems, ItemSafe, ReplyOf;
    NothingIsWellMade(env, ids, "");
    if keys != [] {
      var n := |keys| - 1;
      ItemsWellMade(env, ids, raw, keys[..n], orders[..n]);
      KeyItemsWellMade(env, ids, raw, keys[n], orders[n]);
      WellMadeAppend(env, ids, Items(env, ids, raw, keys[..n], orders[..n]),
                     KeyItems(env, ids, raw, keys[n], orders[n]));
    }
  }

  /** The reply to a key is labelled with the namespace that the key was built for: for stats unless the name
      holds "namespace/", for rosters unless it holds '='. */
  lemma RepliesAreLabelled(env: Env, ids: Ids, raw: map<string, string>, ns: string, stats: seq<string>,
                           roster: seq<string>)
    requires forall stat | stat in stats :: stat in ReplyOf(raw, NamespaceKey(ns))
    requires forall stat | stat in roster :: stat in ReplyOf(raw, RosterKey(ns))
    ensures ItemSafe(env, raw, NamespaceKey(ns)) && ItemSafe(env, raw, RosterKey(ns))
    ensures !Contains(ns, "namespace/") ==> About(ns, KeyItems(env, ids, raw, NamespaceKey(ns), stats))
    ensures '=' !in ns ==> About(ns, KeyItems(env, ids, raw, RosterKey(ns), roster))
  {
    hide About, StatItems, RosterItems, ReplyOf, RouteOf, RosterName, NameOf, NamespaceKey, RosterKey, Contains;
    RoutesApart(ns);
    NameIsReadBack(ns);
    RosterNameIsReadBack(ns);
    NothingIsWellMade(env, ids, ns);
    StatItemsWellMade(env, ids, NameOf(NamespaceKey(ns)), ReplyOf(raw, NamespaceKey(ns)), stats);
    RosterItemsWellMade(env, ids, RosterName(RosterKey(ns)), ReplyOf(raw, RosterKey(ns)), roster);
  }
}
