/** What the set, secondary-index and XDR processors ask for, and what goes out for the replies, in terms of the texts
    alone. */
module LoopSends {
  import opened Text
  import opened Commons
  import opened AerospikeStat
  import opened Readings
  import opened Sending
  import opened StatLoop
  import NS = NamespaceProcessor
  import SetsOf = SetsProcessor
  import Index = SindexProcessor
  import XD = XdrProcessor

  // ----- One reply -----

  function Sender(env: Env, stats: map<string, string>): string -> bool
  {
    stat => stat in stats && Convertible(env.lib, stats[stat])
  }

  /** Number, labels and cache key of what is sent for a stat. */
  predicate ItemTells(env: Env, job: Job, stat: string, item: Item)
  {
    && stat in job.stats && Reads(env.lib, job.stats[stat], item.value) && item.key == stat
    && item.labels == job.labels && item.labelValues == job.labelValues
    && Describes(env, job.context, job.prefix + stat, item.built)
    && (item.built.isAllowed <==> IsMetricAllowed(env, job.context, stat))
  }

  lemma StatTells(env: Env, job: Job, stat: string)
    requires stat in job.stats
    ensures var items := StatItem(env, job, stat);
            if Convertible(env.lib, job.stats[stat]) then |items| == 1 && ItemTells(env, job, stat, items[0])
            else items == []
  {
    ConvertsExactly(env, job.stats[stat]);
    NewDescribes(env, job.context, job.prefix + stat, IsMetricAllowed(env, job.context, stat));
    hide NewStat, IsMetricAllowed, TryConvert, Reads, Convertible, Describes;
  }

  lemma NewDescribes(env: Env, context: Context, name: string, allowed: bool)
    ensures Describes(env, context, name, NewStat(env, context, name, allowed))
    ensures NewStat(env, context, name, allowed).isAllowed == allowed
  {
    hide GetMetricType;
  }

  lemma {:induction false} JobTells(env: Env, job: Job, order: seq<string>)
    requires forall stat | stat in order :: stat in job.stats
    ensures var items, senders := JobItems(env, job, order), Picked(order, Sender(env, job.stats));
            |items| == |senders| && forall n | 0 <= n < |items| :: ItemTells(env, job, senders[n], items[n])
  {
    hide ItemTells, StatItem, Convertible;
    if order != [] {
      var front, last := order[..|order| - 1], order[|order| - 1];
      assert order == front + [last];
      assert last in order;
      JobTells(env, job, front);
      StatTells(env, job, last);
      PickedSnoc(front, last, Sender(env, job.stats));
    }
  }

  /** Number and labels of what is sent for a stat. */
  predicate Tells(env: Env, job: Job, stat: string, s: Stat)
  {
    && stat in job.stats && Reads(env.lib, job.stats[stat], s.value)
    && s.labels == job.labels && s.labelValues == job.labelValues
  }

  lemma FilledDescribes(env: Env, context: Context, name: string, item: Item)
    requires Describes(env, context, name, item.built)
    ensures Describes(env, context, name, Uncached(item)) && Uncached(item).isAllowed == item.built.isAllowed
  {
    hide GetMetricType;
  }

  /** For any reply: one stat is sent for each convertible stat, with the number that its text reads as and the labels
      of the reply, in whatever order it is walked and whatever is cached. Whatever is sent as without a cache is named
      with the prefix of the reply, and allowed or blocked by its bare name. */
  lemma ReplyGoesOut(env: Env, job: Job, order: seq<string>, cache: Cache)
    requires IsOrder(order, job.stats)
    ensures var out, senders := Emitted(cache, JobItems(env, job, order)), Picked(order, Sender(env, job.stats));
            && |out| == |senders|
            && (forall n | 0 <= n < |out| :: Tells(env, job, senders[n], out[n]))
            && (forall n | 0 <= n < |out| && out[n] == Uncached(JobItems(env, job, order)[n]) ::
                  && Describes(env, job.context, job.prefix + senders[n], out[n])
                  && (out[n].isAllowed <==> IsMetricAllowed(env, job.context, senders[n])))
            && (forall stat :: stat in senders <==> stat in job.stats && Convertible(env.lib, job.stats[stat]))
            && (forall i, j | 0 <= i < j < |senders| :: senders[i] != senders[j])
  {
    hide Reads, Convertible, Picked, Emitted, JobItems, Describes, IsMetricAllowed, CacheAfter;
    var items, senders := JobItems(env, job, order), Picked(order, Sender(env, job.stats));
    JobTells(env, job, order);
    PickedExactly(order, Sender(env, job.stats));
    assert forall stat :: Sender(env, job.stats)(stat) <==> stat in job.stats && Convertible(env.lib, job.stats[stat]);
    assert forall stat | stat in job.stats :: stat in order;
    var out := Emitted(cache, items);
    forall n | 0 <= n < |out|
      ensures Tells(env, job, senders[n], out[n])
    {
      assert ItemTells(env, job, senders[n], items[n]);
      SentAsIs(cache, items, n);
    }
    forall n | 0 <= n < |out| && out[n] == Uncached(items[n])
      ensures Describes(env, job.context, job.prefix + senders[n], out[n])
              && (out[n].isAllowed <==> IsMetricAllowed(env, job.context, senders[n]))
    {
      assert ItemTells(env, job, senders[n], items[n]);
      FilledDescribes(env, job.context, job.prefix + senders[n], items[n]);
    }
  }

  // ----- All replies of a refresh -----

  ghost function PartsOf(env: Env, jobs: seq<Job>, orders: seq<seq<string>>): (parts: seq<seq<Item>>)
    requires Ready(jobs, orders)
    ensures |parts| == |jobs|
  {
    seq(|jobs|, n requires 0 <= n < |jobs| => JobItems(env, jobs[n], orders[n]))
  }

  lemma ReadyFront(jobs: seq<Job>, orders: seq<seq<string>>)
    requires Ready(jobs, orders) && jobs != []
    ensures var n := |jobs| - 1; Ready(jobs[..n], orders[..n]) && IsOrder(orders[n], jobs[n].stats)
  {
    hide IsOrder;
  }

  lemma PartsNext(env: Env, jobs: seq<Job>, orders: seq<seq<string>>)
    requires Ready(jobs, orders) && jobs != []
    ensures var n := |jobs| - 1;
            && Ready(jobs[..n], orders[..n]) && IsOrder(orders[n], jobs[n].stats)
            && PartsOf(env, jobs, orders)
               == PartsOf(env, jobs[..n], orders[..n]) + [JobItems(env, jobs[n], orders[n])]
  {
    hide JobItems;
    var n := |jobs| - 1;
    var front, orders' := jobs[..n], orders[..n];
    assert forall k | 0 <= k < n :: front[k] == jobs[k] && orders'[k] == orders[k];
  }

  /** A refresh sends what its replies give, one after the other, and nothing else. */
  lemma {:induction false} RefreshIsFlat(env: Env, jobs: seq<Job>, orders: seq<seq<string>>)
    requires Ready(jobs, orders)
    ensures Items(env, jobs, orders) == Flat(PartsOf(env, jobs, orders))
  {
    hide JobItems, PartsOf;
    if jobs == [] {
      NoParts(env, orders);
    } else {
      var n := |jobs| - 1;
      ReadyFront(jobs, orders);
      PartsNext(env, jobs, orders);
      ItemsLast(env, jobs, orders);
      var part := JobItems(env, jobs[n], orders[n]);
      RefreshIsFlat(env, jobs[..n], orders[..n]);
      hide Flat, Items, IsOrder;
      FlatSnoc(PartsOf(env, jobs[..n], orders[..n]), part);
    }
  }

  lemma NoParts(env: Env, orders: seq<seq<string>>)
    requires Ready([], orders)
    ensures Items(env, [], orders) == [] && PartsOf(env, [], orders) == []
  {
  }

  lemma ItemsLast(env: Env, jobs: seq<Job>, orders: seq<seq<string>>)
    requires Ready(jobs, orders) && jobs != []
    ensures var n := |jobs| - 1;
            && Ready(jobs[..n], orders[..n]) && IsOrder(orders[n], jobs[n].stats)
            && Items(env, jobs, orders)
               == Items(env, jobs[..n], orders[..n]) + JobItems(env, jobs[n], orders[n])
  {
    hide JobItems;
  }

  // ----- Sets -----

  /** Set n of a reply is labelled with the namespace and set that it names, and its stats are those of its text. */
  lemma {:induction false} SetIs(ids: Ids, pieces: seq<string>, n: nat)
    requires n < |pieces|
    ensures var job, stats := SetsOf.Jobs(ids, pieces)[n], StatsOf(pieces[n], ':');
            && job.context == Sets && job.prefix == "" && job.stats == stats
            && job.labels == ["cluster_name", "service", "ns", "set"]
            && job.labelValues == [ids.clusterName, ids.service, Get(stats, "ns"), Get(stats, "set")]
  {
    hide StatsOf;
    if n < |pieces| - 1 {
      SetIs(ids, pieces[..|pieces| - 1], n);
    }
  }

  // ----- Secondary indexes -----

  /** The key for an entry of the index list. */
  function IndexKey(ns: string, index: string): string
  {
    "sindex-stat:namespace=" + ns + ";indexname=" + index
  }

  predicate NamesNamespace(entry: string)
  {
    Get(StatsOf(entry, ':'), "ns") != ""
  }

  function KeyOfEntry(entry: string): string
  {
    IndexKey(Get(StatsOf(entry, ':'), "ns"), Get(StatsOf(entry, ':'), "indexname"))
  }

  lemma CommandIs(entry: string)
    ensures Index.CommandOf(entry) == if NamesNamespace(entry) then [KeyOfEntry(entry)] else []
  {
    hide StatsOf;
  }

  lemma {:induction false} CommandsAre(entries: seq<string>, key: string)
    ensures key in Index.CommandsOf(entries)
       <==> exists entry | entry in entries :: NamesNamespace(entry) && key == KeyOfEntry(entry)
    ensures |Index.CommandsOf(entries)| == |Picked(entries, NamesNamespace)|
  {
    hide NamesNamespace, KeyOfEntry, Index.CommandOf;
    if entries != [] {
      var front, last := entries[..|entries| - 1], entries[|entries| - 1];
      assert entries == front + [last];
      CommandsAre(front, key);
      CommandIs(last);
      PickedSnoc(front, last, NamesNamespace);
      assert forall entry :: entry in entries <==> entry in front || entry == last;
    }
  }

  /** Exactly the entries of the index list that name a namespace are asked for, each once, unless switched off. */
  lemma IndexesAreAsked(env: Env, one: map<string, string>, key: string)
    ensures var entries := Split(Get(one, "sindex-list:"), ';');
            && (key in Index.PassTwo(env, one) <==>
                  !env.cfg.disableSindexMetrics
                  && exists entry | entry in entries :: NamesNamespace(entry) && key == KeyOfEntry(entry))
            && |Index.PassTwo(env, one)|
               == if env.cfg.disableSindexMetrics then 0 else |Picked(entries, NamesNamespace)|
  {
    hide Split, Index.CommandsOf, NamesNamespace, KeyOfEntry, Picked;
    CommandsAre(Split(Get(one, "sindex-list:"), ';'), key);
  }

  /** An entry ns=a:indexname=b gives the key that is decoded to a and b, if neither name holds a '='. */
  lemma EntryIsDecoded(a: string, b: string)
    requires Index.Listed(a) && Index.Listed(b) && a != ""
    ensures var entry := "ns" + "=" + a + [':'] + ("indexname" + "=" + b);
            && NamesNamespace(entry) && KeyOfEntry(entry) == IndexKey(a, b)
            && Index.Decodes(IndexKey(a, b))
            && (Index.DecodeNames(IndexKey(a, b)) == (a, b) <==> '=' !in a && '=' !in b)
  {
    assert '=' !in "ns" && ':' !in "ns" && '=' !in "indexname" && ':' !in "indexname" && "ns" != "indexname";
    assert IndexKey(a, b) == Index.SindexKey(a, b);
    hide StatsOf, Index.Decodes, Index.DecodeNames, Index.SindexKey, IndexKey;
    StatsOne(':', "ns", a);
    StatsSnoc("ns" + "=" + a, ':', "indexname", b);
    Index.DecodeUndoesBuild(a, b);
  }

  /** The reply to key n is labelled with the names that the key is decoded to, and its stats are those of its text. */
  lemma {:induction false} IndexIs(ids: Ids, raw: map<string, string>, keys: seq<string>, n: nat)
    requires (forall i | 0 <= i < |keys| :: Index.Decodes(keys[i])) && n < |keys|
    ensures var job := Index.Jobs(ids, raw, keys)[n];
            && job.context == Sindex && job.prefix == "" && job.stats == StatsOf(Get(raw, keys[n]), ';')
            && job.labels == ["cluster_name", "service", "ns", "sindex"]
            && job.labelValues
               == [ids.clusterName, ids.service, Index.DecodeNames(keys[n]).0, Index.DecodeNames(keys[n]).1]
  {
    hide StatsOf, Index.Decodes, Index.DecodeNames;
    if n < |keys| - 1 {
      IndexIs(ids, raw, keys[..|keys| - 1], n);
    }
  }

  // ----- XDR -----

  /** A key at one of the four levels, as text. */
  predicate IsXdrKey(key: string, dc: string, names: seq<string>)
  {
    || key == "get-stats:context=xdr;dc=" + dc || key == "get-config:context=xdr;dc=" + dc
    || exists ns | ns in names ::
         || key == "get-config:context=xdr;dc=" + dc + ";namespace=" + ns
         || key == "get-stats:context=xdr;dc=" + dc + ";namespace=" + ns
  }

  lemma {:induction false} NamespaceKeysAre(dc: string, names: seq<string>, key: string)
    ensures key in XD.NamespaceKeys(dc, names) <==>
              exists ns | ns in names ::
                || key == "get-config:context=xdr;dc=" + dc + ";namespace=" + ns
                || key == "get-stats:context=xdr;dc=" + dc + ";namespace=" + ns
    ensures |XD.NamespaceKeys(dc, names)| == 2 * |names|
  {
    if names != [] {
      var front, last := names[..|names| - 1], names[|names| - 1];
      assert names == front + [last];
      NamespaceKeysAre(dc, front, key);
      assert forall ns :: ns in names <==> ns in front || ns == last;
      assert XD.LevelKey(XD.NamespaceConfig, dc, last) == "get-config:context=xdr;dc=" + dc + ";namespace=" + last;
      assert XD.LevelKey(XD.NamespaceStats, dc, last) == "get-stats:context=xdr;dc=" + dc + ";namespace=" + last;
      hide XD.LevelKey;
    }
  }

  lemma DcKeysAre(dc: string, names: seq<string>, key: string)
    ensures key in XD.DcKeys(dc, names) <==> dc != "" && IsXdrKey(key, dc, names)
    ensures |XD.DcKeys(dc, names)| == if dc == "" then 0 else 2 + 2 * |names|
  {
    NamespaceKeysAre(dc, names, key);
    assert XD.LevelKey(XD.DcStats, dc, "") == "get-stats:context=xdr;dc=" + dc;
    assert XD.LevelKey(XD.DcConfig, dc, "") == "get-config:context=xdr;dc=" + dc;
    hide XD.LevelKey, XD.NamespaceKeys;
  }

  function NonEmpty(): string -> bool
  {
    dc => dc != ""
  }

  lemma {:induction false} AllKeysAre(dcs: seq<string>, names: seq<string>, key: string)
    ensures key in XD.AllKeys(dcs, names) <==> exists dc | dc in dcs :: dc != "" && IsXdrKey(key, dc, names)
    ensures |XD.AllKeys(dcs, names)| == |Picked(dcs, NonEmpty())| * (2 + 2 * |names|)
  {
    hide IsXdrKey, XD.DcKeys;
    if dcs != [] {
      var front, last := dcs[..|dcs| - 1], dcs[|dcs| - 1];
      assert dcs == front + [last];
      AllKeysAre(front, names, key);
      DcKeysAre(last, names, key);
      PickedSnoc(front, last, NonEmpty());
      assert forall dc :: dc in dcs <==> dc in front || dc == last;
      Times(|Picked(front, NonEmpty())|, 2 + 2 * |names|);
    }
  }

  lemma Times(a: nat, b: nat)
    ensures (a + 1) * b == a * b + b
  {
  }

  /** For every first reply: XDR is asked for at all four levels of every data centre with a name and every listed
      namespace, and for nothing else, and no key is left out. */
  lemma XdrIsAsked(one: map<string, string>, key: string)
    ensures var dcs := Split(Get(StatsOf(Get(one, "get-config:context=xdr"), ';'), "dcs"), ',');
            var names := Split(Get(one, "namespaces"), ';');
            && (key in XD.PassTwo(one) <==> exists dc | dc in dcs :: dc != "" && IsXdrKey(key, dc, names))
            && |XD.PassTwo(one)| == |Picked(dcs, NonEmpty())| * (2 + 2 * |names|)
  {
    hide Split, StatsOf, XD.AllKeys, IsXdrKey, Picked;
    AllKeysAre(XD.Dcs(one), NS.Names(one), key);
  }

  /** The reply to key n carries what the key is decoded to. */
  lemma {:induction false} XdrReplyIs(ids: Ids, raw: map<string, string>, keys: seq<string>, n: nat)
    requires n < |keys|
    ensures var job, (dc, ns, prefix) := XD.Jobs(ids, raw, keys)[n], XD.DecodeKey(keys[n]);
            && job.context == Xdr && job.prefix == prefix && job.stats == StatsOf(Get(raw, keys[n]), ';')
            && job.labels == ["cluster_name", "service", "dc"] + (if ns == "" then [] else ["ns"])
            && job.labelValues == [ids.clusterName, ids.service, dc] + (if ns == "" then [] else [ns])
  {
    hide StatsOf, XD.DecodeKey;
    if n < |keys| - 1 {
      XdrReplyIs(ids, raw, keys[..|keys| - 1], n);
    }
  }
}
