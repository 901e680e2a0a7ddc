/** The stat loop that the set, secondary-index and XDR processors share: every convertible stat of
    a reply is emitted under a descriptor kept by stat name. */
module StatLoop {
  import opened Wrappers
  import opened Commons
  import opened AerospikeStat

  /** One reply to emit: its context, the prefix of its metric names, its labels and its stats. */
  datatype Job = Job(context: Context, prefix: string, labels: seq<string>, labelValues: seq<string>, stats: map<string,
                     string>)

  /** The cache key is the bare stat name, the metric name has the prefix. */
  function StatItem(env: Env, job: Job, stat: string): seq<Item>
    requires stat in job.stats
  {
    match TryConvert(env, job.stats[stat])
    case None => []
    case Some(value) =>
      [Item(stat, NewStat(env, job.context, job.prefix + stat, IsMetricAllowed(env, job.context, stat)), value,
            job.labels, job.labelValues)]
  }

  function JobItems(env: Env, job: Job, order: seq<string>): seq<Item>
    requires forall stat | stat in order :: stat in job.stats
  {
    if order == [] then []
    else JobItems(env, job, order[..|order| - 1]) + StatItem(env, job, order[|order| - 1])
  }

  ghost predicate Ready(jobs: seq<Job>, orders: seq<seq<string>>)
  {
    |orders| == |jobs| && forall n | 0 <= n < |jobs| :: IsOrder(orders[n], jobs[n].stats)
  }

  function Items(env: Env, jobs: seq<Job>, orders: seq<seq<string>>): seq<Item>
    requires Ready(jobs, orders)
  {
    if jobs == [] then []
    else
      var n := |jobs| - 1;
      Items(env, jobs[..n], orders[..n]) + JobItems(env, jobs[n], orders[n])
  }

  lemma JobItemsSnoc(env: Env, job: Job, order: seq<string>, stat: string)
    requires forall x | x in order + [stat] :: x in job.stats
    ensures (forall x | x in order :: x in job.stats) && stat in job.stats
    ensures JobItems(env, job, order + [stat]) == JobItems(env, job, order) + StatItem(env, job, stat)
  {
    hide StatItem;
    assert forall x | x in order :: x in order + [stat];
    assert stat in order + [stat];
    assert (order + [stat])[..|order|] == order;
  }

  lemma ItemsSnoc(env: Env, jobs: seq<Job>, orders: seq<seq<string>>, job: Job, order: seq<string>)
    requires Ready(jobs, orders) && IsOrder(order, job.stats)
    ensures Ready(jobs + [job], orders + [order])
    ensures Items(env, jobs + [job], orders + [order]) == Items(env, jobs, orders) + JobItems(env, job, order)
  {
    hide JobItems, IsOrder;
    assert (jobs + [job])[..|jobs|] == jobs && (orders + [order])[..|orders|] == orders;
  }

  lemma NoItems(env: Env)
    ensures Ready([], []) && Items(env, [], []) == []
  {
  }

  /** The loop over one reply, in the order that Go happens to walk it. */
  method EmitStats(env: Env, job: Job, cache: Cache) returns (cache': Cache, out: seq<Stat>, ghost order: seq<string>)
    ensures IsOrder(order, job.stats)
    ensures cache' == CacheAfter(cache, JobItems(env, job, order)) && out == Emitted(cache, JobItems(env, job, order))
  {
    hide CacheAfter, Emitted, NewStat, IsMetricAllowed;
    cache', out, order := cache, [], [];
    MemoNothing(cache);
    var todo := job.stats.Keys;
    while todo != {}
      invariant todo <= job.stats.Keys
      invariant forall k :: k in order <==> k in job.stats && k !in todo
      invariant forall i, j | 0 <= i < j < |order| :: order[i] != order[j]
      invariant cache' == CacheAfter(cache, JobItems(env, job, order))
                && out == Emitted(cache, JobItems(env, job, order))
      decreases todo
    {
      var stat :| stat in todo;
      todo := todo - {stat};
      JobItemsSnoc(env, job, order, stat);
      MemoAppend(cache, JobItems(env, job, order), StatItem(env, job, stat));
      MemoNothing(cache');
      order := order + [stat];
      var pv := TryConvert(env, job.stats[stat]);
      if pv.Some? {
        var item := StatItem(env, job, stat)[0];
        MemoOne(cache', item);
        var metric;
        if stat in cache' {
          metric := cache'[stat];
        } else {
          metric := item.built;
          cache' := cache'[stat := metric];
        }
        metric := UpdateValues(metric, pv.value, job.labels, job.labelValues);
        out := out + [metric];
      }
    }
  }

  // ----- Labels -----

  lemma {:induction false} JobLabelled(env: Env, ids: Ids, job: Job, order: seq<string>)
    requires Carries(ids, job.labels, job.labelValues) && forall stat | stat in order :: stat in job.stats
    ensures Labelled(ids, JobItems(env, job, order))
  {
    hide NewStat, IsMetricAllowed, Carries;
    if order != [] {
      JobLabelled(env, ids, job, order[..|order| - 1]);
    }
  }

  lemma {:induction false} ItemsLabelled(env: Env, ids: Ids, jobs: seq<Job>, orders: seq<seq<string>>)
    requires Ready(jobs, orders) && forall n | 0 <= n < |jobs| :: Carries(ids, jobs[n].labels, jobs[n].labelValues)
    ensures Labelled(ids, Items(env, jobs, orders))
  {
    hide JobItems, Carries;
    if jobs != [] {
      var n := |jobs| - 1;
      ItemsLabelled(env, ids, jobs[..n], orders[..n]);
      JobLabelled(env, ids, jobs[n], orders[n]);
    }
  }

  // ----- One prefix -----

  /** The descriptors that belong to the stats of a context whose metric names all have one prefix. */
  function DescriptorOf(env: Env, context: Context, prefix: string): string -> Stat
  {
    stat => NewStat(env, context, prefix + stat, IsMetricAllowed(env, context, stat))
  }

  lemma {:induction false} JobCoherent(env: Env, job: Job, order: seq<string>)
    requires forall stat | stat in order :: stat in job.stats
    ensures Coherent(DescriptorOf(env, job.context, job.prefix), JobItems(env, job, order))
  {
    hide NewStat, IsMetricAllowed;
    if order != [] {
      JobCoherent(env, job, order[..|order| - 1]);
    }
  }

  lemma {:induction false} ItemsCoherent(env: Env, jobs: seq<Job>, orders: seq<seq<string>>, context: Context,
                                         prefix: string)
    requires Ready(jobs, orders) && forall n | 0 <= n < |jobs| :: jobs[n].context == context && jobs[n].prefix == prefix
    ensures Coherent(DescriptorOf(env, context, prefix), Items(env, jobs, orders))
  {
    hide JobItems, DescriptorOf, Coherent;
    if jobs == [] {
      NothingCoherent(DescriptorOf(env, context, prefix));
    } else {
      var n := |jobs| - 1;
      ItemsCoherent(env, jobs[..n], orders[..n], context, prefix);
      JobCoherent(env, jobs[n], orders[n]);
      CoherentAppend(DescriptorOf(env, context, prefix), Items(env, jobs[..n], orders[..n]),
                     JobItems(env, jobs[n], orders[n]));
    }
  }

  // ----- Prefixes -----

  /** The item was built for a prefix in front of its cache key. */
  predicate Prefixed(env: Env, context: Context, item: Item)
  {
    |item.key| <= |item.built.name|
    && item.built == NewStat(env, context, PrefixOf(item) + item.key, IsMetricAllowed(env, context, item.key))
  }

  function PrefixOf(item: Item): string
  {
    if |item.key| <= |item.built.name| then item.built.name[..|item.built.name| - |item.key|] else ""
  }

  ghost predicate AllPrefixed(env: Env, context: Context, items: seq<Item>)
  {
    forall n | 0 <= n < |items| :: Prefixed(env, context, items[n])
  }

  /** The prefix under which a stat was first seen. */
  function FirstPrefix(items: seq<Item>, key: string): Option<string>
  {
    if items == [] then None
    else if items[0].key == key then Some(PrefixOf(items[0]))
    else FirstPrefix(items[1..], key)
  }

  lemma {:induction false} JobPrefixed(env: Env, job: Job, order: seq<string>)
    requires forall stat | stat in order :: stat in job.stats
    ensures AllPrefixed(env, job.context, JobItems(env, job, order))
    ensures forall n | 0 <= n < |JobItems(env, job, order)| :: PrefixOf(JobItems(env, job, order)[n]) == job.prefix
  {
    if order != [] {
      JobPrefixed(env, job, order[..|order| - 1]);
      var stat := order[|order| - 1];
      assert (job.prefix + stat)[..|job.prefix|] == job.prefix;
    }
  }

  lemma {:induction false} ItemsPrefixed(env: Env, context: Context, jobs: seq<Job>, orders: seq<seq<string>>)
    requires Ready(jobs, orders) && forall n | 0 <= n < |jobs| :: jobs[n].context == context
    ensures AllPrefixed(env, context, Items(env, jobs, orders))
  {
    hide Prefixed, JobItems;
    if jobs != [] {
      var n := |jobs| - 1;
      ItemsPrefixed(env, context, jobs[..n], orders[..n]);
      JobPrefixed(env, jobs[n], orders[n]);
    }
  }

  lemma {:induction false} FirstSeenIsFirstPrefix(env: Env, context: Context, items: seq<Item>, key: string)
    requires AllPrefixed(env, context, items)
    ensures FirstSeen(items, key) ==
              match FirstPrefix(items, key)
              case None => None
              case Some(prefix) => Some(NewStat(env, context, prefix + key, IsMetricAllowed(env, context, key)))
  {
    hide NewStat, IsMetricAllowed;
    if items != [] {
      assert Prefixed(env, context, items[0]);
      if items[0].key != key {
        FirstSeenIsFirstPrefix(env, context, items[1..], key);
      }
    }
  }

  lemma SamePrefix(env: Env, context: Context, p: string, q: string, key: string, allowed: bool)
    ensures NewStat(env, context, p + key, allowed) == NewStat(env, context, q + key, allowed) <==> p == q
  {
    assert (p + key)[..|p + key| - |key|] == p && (q + key)[..|q + key| - |key|] == q;
  }

  /** Over any history of emissions: what is sent is what was meant, name included, exactly when the
      stat was first seen under the same prefix. */
  lemma PrefixTransparent(env: Env, context: Context, items: seq<Item>, n: nat)
    requires AllPrefixed(env, context, items) && n < |items|
    ensures Emitted(map[], items)[n] == Uncached(items[n])
            <==> FirstPrefix(items, items[n].key) == Some(PrefixOf(items[n]))
  {
    var item := items[n];
    assert Prefixed(env, context, item);
    forall i | 0 <= i < |items|
      ensures IsDescriptor(items[i].built)
    {
      assert Prefixed(env, context, items[i]);
    }
    CacheTransparent(items, n);
    FirstSeenIsFirstPrefix(env, context, items, item.key);
    hide NewStat;
    if FirstPrefix(items, item.key).Some? {
      SamePrefix(env, context, FirstPrefix(items, item.key).value, PrefixOf(item), item.key,
                 IsMetricAllowed(env, context, item.key));
    }
  }
}
