/** From items to stats: what is sent for an item, whatever the cache holds, and lists made part by part. */
module Sending {
  import opened AerospikeStat

  // ----- Parts -----

  function Flat<T>(parts: seq<seq<T>>): seq<T>
  {
    if parts == [] then [] else parts[0] + Flat(parts[1..])
  }

  lemma {:induction false} FlatSnoc<T>(parts: seq<seq<T>>, part: seq<T>)
    ensures Flat(parts + [part]) == Flat(parts) + part
    decreases |parts|
  {
    if parts == [] {
      assert parts + [part] == [part] && [part][1..] == [];
    } else {
      FlatSnoc(parts[1..], part);
      assert (parts + [part])[1..] == parts[1..] + [part];
    }
  }

  lemma {:induction false} FlatAppend<T>(a: seq<seq<T>>, b: seq<seq<T>>)
    ensures Flat(a + b) == Flat(a) + Flat(b)
    decreases |a|
  {
    if a == [] {
      assert a + b == b;
    } else {
      FlatAppend(a[1..], b);
      assert (a + b)[1..] == a[1..] + b;
    }
  }

  lemma CutAt<T>(s: seq<T>, n: nat)
    requires n < |s|
    ensures s == (s[..n] + [s[n]]) + s[n + 1..]
  {
  }

  lemma FlatSplit<T>(parts: seq<seq<T>>, n: nat)
    requires n < |parts|
    ensures Flat(parts) == Flat(parts[..n]) + parts[n] + Flat(parts[n + 1..])
  {
    var a, b := parts[..n], parts[n + 1..];
    CutAt(parts, n);
    hide *;
    FlatAppend(a + [parts[n]], b);
    FlatSnoc(a, parts[n]);
  }

  /** The elements that a condition picks, in order. */
  function Picked(order: seq<string>, p: string -> bool): seq<string>
  {
    if order == [] then [] else (if p(order[0]) then [order[0]] else []) + Picked(order[1..], p)
  }

  lemma {:induction false} PickedSnoc(order: seq<string>, x: string, p: string -> bool)
    ensures Picked(order + [x], p) == Picked(order, p) + if p(x) then [x] else []
    decreases |order|
  {
    if order == [] {
      assert order + [x] == [x] && [x][1..] == [];
    } else {
      PickedSnoc(order[1..], x, p);
      assert (order + [x])[1..] == order[1..] + [x];
    }
  }

  lemma {:induction false} PickedExactly(order: seq<string>, p: string -> bool)
    requires forall i, j | 0 <= i < j < |order| :: order[i] != order[j]
    ensures forall x :: x in Picked(order, p) <==> x in order && p(x)
    ensures forall i, j | 0 <= i < j < |Picked(order, p)| :: Picked(order, p)[i] != Picked(order, p)[j]
    decreases |order|
  {
    if order != [] {
      PickedExactly(order[1..], p);
      assert order == [order[0]] + order[1..];
      assert order[0] !in order[1..];
    }
  }

  // ----- What is sent -----

  /** Value and labels are those of the item. */
  lemma SentAsIs(cache: Cache, items: seq<Item>, n: nat)
    requires n < |items|
    ensures var s := Emitted(cache, items)[n];
            s.value == items[n].value && s.labels == items[n].labels && s.labelValues == items[n].labelValues
  {
    EmittedAt(cache, items, n);
    hide CacheAfter, Emitted;
  }

  /** A descriptor for a key, whatever its allow flag. */
  predicate Describes(env: Env, context: Context, key: string, stat: Stat)
  {
    && stat.context == context && stat.name == key && stat.mtype == GetMetricType(env, context, key)
    && (stat.isConfig <==> '-' in key)
  }

  /** Every descriptor in the cache is named like its key. */
  ghost predicate NamedCache(env: Env, context: Context, cache: Cache)
  {
    forall key | key in cache :: Describes(env, context, key, cache[key])
  }

  ghost predicate NamedItems(env: Env, context: Context, items: seq<Item>)
  {
    forall n | 0 <= n < |items| :: Describes(env, context, items[n].key, items[n].built)
  }

  lemma NamedAfter(env: Env, context: Context, cache: Cache, items: seq<Item>)
    requires NamedCache(env, context, cache) && NamedItems(env, context, items)
    ensures NamedCache(env, context, CacheAfter(cache, items))
  {
    hide Describes;
    if items != [] {
      NamedAfter(env, context, cache, items[..|items| - 1]);
    }
  }

  lemma SentUnderKey(env: Env, context: Context, cache: Cache, items: seq<Item>, n: nat)
    requires NamedCache(env, context, cache) && NamedItems(env, context, items) && n < |items|
    ensures Describes(env, context, items[n].key, Emitted(cache, items)[n])
  {
    EmittedAt(cache, items, n);
    assert forall i | 0 <= i < n :: items[..n][i] == items[i];
    NamedAfter(env, context, cache, items[..n]);
    hide CacheAfter, Emitted, GetMetricType;
  }

  /** Parts are sent one after the other, each under what the parts before it have left in the cache. */
  lemma PartIsSent(cache: Cache, parts: seq<seq<Item>>, n: nat)
    requires n < |parts|
    ensures var before, out := Flat(parts[..n]), Emitted(cache, Flat(parts));
            && |before| + |parts[n]| <= |out|
            && out[|before|..|before| + |parts[n]|] == Emitted(CacheAfter(cache, before), parts[n])
  {
    var before, part, behind := Flat(parts[..n]), parts[n], Flat(parts[n + 1..]);
    FlatSplit(parts, n);
    EmittedAppend(cache, before + part, behind);
    EmittedAppend(cache, before, part);
    hide Emitted, CacheAfter, Flat;
  }
}
