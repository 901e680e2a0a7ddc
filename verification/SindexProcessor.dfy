/** The secondary-index processor. */
module SindexProcessor {
  import opened Text
  import opened Commons
  import opened AerospikeStat
  import opened SharedState
  import opened StatLoop

  const SINDEX_LIST := "sindex-list:"
  const SINDEX_STAT := "sindex-stat:namespace="

  function SindexKey(ns: string, index: string): string
  {
    SINDEX_STAT + ns + ";indexname=" + index
  }

  /** The command for one entry of the index list, if it names a namespace. */
  function CommandOf(entry: string): seq<string>
  {
    var stats := StatsOf(entry, ':');
    if Get(stats, "ns") != "" then [SindexKey(Get(stats, "ns"), Get(stats, "indexname"))] else []
  }

  function CommandsOf(entries: seq<string>): seq<string>
  {
    if entries == [] then [] else CommandsOf(entries[..|entries| - 1]) + CommandOf(entries[|entries| - 1])
  }

  function PassTwo(env: Env, passOne: map<string, string>): seq<string>
  {
    if env.cfg.disableSindexMetrics then [] else CommandsOf(Split(Get(passOne, SINDEX_LIST), ';'))
  }

  /** Where getNamespaceAndSindexName does not index out of range. */
  predicate Decodes(key: string)
  {
    var outer := Split(key, ':');
    |outer| >= 2
    && var fields := Split(outer[1], ';');
       |fields| >= 2 && |Split(fields[0], '=')| >= 2 && |Split(fields[1], '=')| >= 2
  }

  function DecodeNames(key: string): (string, string)
    requires Decodes(key)
  {
    var fields := Split(Split(key, ':')[1], ';');
    (Split(fields[0], '=')[1], Split(fields[1], '=')[1])
  }

  /** A name that an index list can hold: the list is cut at ';' and its entries at ':'. */
  predicate Listed(name: string)
  {
    ';' !in name && ':' !in name
  }

  lemma FieldAfterFirst(name: string, value: string)
    requires '=' !in name
    ensures |Split(name + "=" + value, '=')| >= 2
    ensures Split(name + "=" + value, '=')[1] == Split(value, '=')[0]
  {
    assert name + "=" + value == name + ['='] + value;
    SplitAppend(name, '=', value);
  }

  lemma OuterParts(key: string, first: string, second: string)
    requires key == "sindex-stat" + [':'] + (first + [';'] + second)
    requires Listed(first) && Listed(second)
    ensures |Split(key, ':')| >= 2 && Split(Split(key, ':')[1], ';') == [first, second]
  {
    var inner := first + [';'] + second;
    assert ':' !in "sindex-stat";
    SplitAppend("sindex-stat", ':', inner);
    SplitAbsent(inner, ':');
    SplitAppend(first, ';', second);
    SplitAbsent(second, ';');
  }

  lemma KeyShape(ns: string, index: string)
    requires Listed(ns) && Listed(index)
    ensures var first, second := "namespace" + "=" + ns, "indexname" + "=" + index;
            && SindexKey(ns, index) == "sindex-stat" + [':'] + (first + [';'] + second)
            && Listed(first) && Listed(second)
  {
    Literals();
    Regroup("sindex-stat" + [':'], "namespace=", ns);
    Regroup([';'], "indexname=", index);
    Regroup("sindex-stat" + [':'] + ("namespace=" + ns), [';'], "indexname=" + index);
    Regroup("sindex-stat" + [':'], "namespace=" + ns, [';'] + ("indexname=" + index));
    Regroup("namespace=" + ns, [';'], "indexname=" + index);
    Regroup(SINDEX_STAT + ns, ";indexname=", index);
  }

  lemma Literals()
    ensures SINDEX_STAT == "sindex-stat" + [':'] + "namespace=" && ";indexname=" == [';'] + "indexname="
    ensures "namespace" + "=" == "namespace=" && "indexname" + "=" == "indexname="
    ensures Listed("namespace=") && Listed("indexname=")
  {
  }

  /** Decoding a built key never indexes out of range, and keeps of each name what precedes its first '='. */
  lemma DecodeBuilt(ns: string, index: string)
    requires Listed(ns) && Listed(index)
    ensures Decodes(SindexKey(ns, index))
    ensures DecodeNames(SindexKey(ns, index)) == (Split(ns, '=')[0], Split(index, '=')[0])
  {
    KeyShape(ns, index);
    var first, second := "namespace" + "=" + ns, "indexname" + "=" + index;
    hide Split, SindexKey, Listed;
    OuterParts(SindexKey(ns, index), first, second);
    assert '=' !in "namespace" && '=' !in "indexname";
    FieldAfterFirst("namespace", ns);
    FieldAfterFirst("indexname", index);
  }

  lemma FirstFieldIsAll(s: string)
    ensures Split(s, '=')[0] == s <==> '=' !in s
  {
    IndexOfAbsent(s, '=');
  }

  /** The codec is exact precisely for names that hold no '='. */
  lemma DecodeUndoesBuild(ns: string, index: string)
    requires Listed(ns) && Listed(index)
    ensures Decodes(SindexKey(ns, index))
    ensures DecodeNames(SindexKey(ns, index)) == (ns, index) <==> '=' !in ns && '=' !in index
  {
    hide Split, Decodes;
    DecodeBuilt(ns, index);
    FirstFieldIsAll(ns);
    FirstFieldIsAll(index);
  }

  /** For instance, the replies of an index i of a namespace called a=b are labelled with namespace a. */
  lemma NamesAreCut()
    ensures Decodes(SindexKey("a=b", "i")) && DecodeNames(SindexKey("a=b", "i")) == ("a", "i")
  {
    assert Listed("a=b") && Listed("i");
    hide Decodes, DecodeNames, SindexKey;
    DecodeBuilt("a=b", "i");
    assert "a=b" == "a" + ['='] + "b";
    SplitAppend("a", '=', "b");
    SplitAbsent("i", '=');
  }

  lemma CommandDecodes(entry: string)
    requires ';' !in entry
    ensures forall n | 0 <= n < |CommandOf(entry)| :: Decodes(CommandOf(entry)[n])
  {
    var stats := StatsOf(entry, ':');
    NamesAreListed(entry, "ns");
    NamesAreListed(entry, "indexname");
    DecodeBuilt(Get(stats, "ns"), Get(stats, "indexname"));
  }

  lemma NamesAreListed(entry: string, k: string)
    requires ';' !in entry
    ensures Listed(Get(StatsOf(entry, ':'), k))
  {
    if k in StatsOf(entry, ':') {
      ParsedKeysAreClean(entry, ':', k);
      ParsedAvoids(entry, ':', ';', k);
    }
  }

  /** No key that PassTwoKeys builds, from any reply, makes the decoder index out of range. */
  lemma {:induction false} CommandsDecode(entries: seq<string>)
    requires forall n | 0 <= n < |entries| :: ';' !in entries[n]
    ensures forall n | 0 <= n < |CommandsOf(entries)| :: Decodes(CommandsOf(entries)[n])
  {
    hide Decodes, CommandOf;
    if entries != [] {
      CommandsDecode(entries[..|entries| - 1]);
      CommandDecodes(entries[|entries| - 1]);
    }
  }

  lemma PassTwoDecodes(env: Env, passOne: map<string, string>)
    ensures forall n | 0 <= n < |PassTwo(env, passOne)| :: Decodes(PassTwo(env, passOne)[n])
  {
    hide Decodes, CommandsOf;
    CommandsDecode(Split(Get(passOne, SINDEX_LIST), ';'));
  }

  function JobOf(ids: Ids, raw: map<string, string>, key: string): (job: Job)
    requires Decodes(key)
    ensures Carries(ids, job.labels, job.labelValues) && job.context == Sindex && job.prefix == ""
  {
    var (ns, index) := DecodeNames(key);
    Job(Sindex, "", ["cluster_name", "service", "ns", "sindex"], [ids.clusterName, ids.service, ns, index],
        StatsOf(Get(raw, key), ';'))
  }

  /** The reply to a key is labelled with the namespace and index it was built for, if neither holds a '='. */
  lemma ReplyIsLabelled(ids: Ids, raw: map<string, string>, ns: string, index: string)
    requires Listed(ns) && Listed(index)
    ensures Decodes(SindexKey(ns, index))
    ensures var job := JobOf(ids, raw, SindexKey(ns, index));
            && |job.labels| == |job.labelValues| == 4 && job.labels[2] == "ns" && job.labels[3] == "sindex"
            && (job.labelValues[2] == ns && job.labelValues[3] == index <==> '=' !in ns && '=' !in index)
  {
    hide StatsOf, SindexKey, DecodeNames, Decodes, Listed;
    DecodeUndoesBuild(ns, index);
  }

  function Jobs(ids: Ids, raw: map<string, string>, keys: seq<string>): (jobs: seq<Job>)
    requires forall n | 0 <= n < |keys| :: Decodes(keys[n])
    ensures |jobs| == |keys|
    ensures forall n | 0 <= n < |jobs| ::
              Carries(ids, jobs[n].labels, jobs[n].labelValues) && jobs[n].context == Sindex && jobs[n].prefix == ""
  {
    if keys == [] then [] else Jobs(ids, raw, keys[..|keys| - 1]) + [JobOf(ids, raw, keys[|keys| - 1])]
  }

  /** Switched off, there is nothing to emit, whatever the keys. */
  function RefreshJobs(env: Env, ids: Ids, raw: map<string, string>, keys: seq<string>): seq<Job>
    requires env.cfg.disableSindexMetrics || forall n | 0 <= n < |keys| :: Decodes(keys[n])
  {
    if env.cfg.disableSindexMetrics then [] else Jobs(ids, raw, keys)
  }

  lemma NoKeysNoJobs(env: Env, ids: Ids, raw: map<string, string>, keys: seq<string>)
    requires env.cfg.disableSindexMetrics ==> keys == []
    requires forall n | 0 <= n < |keys| :: Decodes(keys[n])
    ensures RefreshJobs(env, ids, raw, keys) == Jobs(ids, raw, keys)
  {
  }

  lemma JobsNext(ids: Ids, raw: map<string, string>, keys: seq<string>, n: nat)
    requires n < |keys| && forall i | 0 <= i < |keys| :: Decodes(keys[i])
    ensures Jobs(ids, raw, keys[..n + 1]) == Jobs(ids, raw, keys[..n]) + [JobOf(ids, raw, keys[n])]
  {
    hide Decodes, JobOf;
    assert keys[..n + 1][..n] == keys[..n];
  }

  lemma CommandsNext(entries: seq<string>, n: nat)
    requires n < |entries|
    ensures CommandsOf(entries[..n + 1]) == CommandsOf(entries[..n]) + CommandOf(entries[n])
  {
    assert entries[..n + 1][..n] == entries[..n];
  }

  class SindexStatsProcessor {
    const env: Env
    const shared: StatProcessorSharedState
    var sindexMetrics: Cache

    constructor (env: Env, shared: StatProcessorSharedState)
      ensures this.env == env && this.shared == shared && sindexMetrics == map[]
    {
      this.env, this.shared, sindexMetrics := env, shared, map[];
    }

    method PassTwoKeys(passOneStats: map<string, string>) returns (commands: seq<string>)
      ensures commands == PassTwo(env, passOneStats)
    {
      hide CommandOf;
      commands := [];
      if env.cfg.disableSindexMetrics {
        return;
      }
      var entries := Split(Get(passOneStats, SINDEX_LIST), ';');
      for n := 0 to |entries|
        invariant commands == CommandsOf(entries[..n])
      {
        CommandsNext(entries, n);
        var command := CommandOf(entries[n]);
        commands := commands + command;
      }
      assert entries[..|entries|] == entries;
    }

    /** Switched on, every key must decode. */
    method Refresh(infoKeys: seq<string>, raw: map<string, string>) returns (out: seq<Stat>,
                                                                             ghost orders: seq<seq<string>>)
      requires env.cfg.disableSindexMetrics || forall n | 0 <= n < |infoKeys| :: Decodes(infoKeys[n])
      modifies this`sindexMetrics
      ensures Ready(RefreshJobs(env, shared.GetIds(), raw, infoKeys), orders)
      ensures var items := Items(env, RefreshJobs(env, shared.GetIds(), raw, infoKeys), orders);
              sindexMetrics == CacheAfter(old(sindexMetrics), items) && out == Emitted(old(sindexMetrics), items)
    {
      hide CacheAfter, Emitted, JobItems, JobOf, Items, Jobs, Decodes;
      out, orders := [], [];
      NoItems(env);
      MemoNothing(sindexMetrics);
      if env.cfg.disableSindexMetrics {
        return;
      }
      assert Jobs(shared.GetIds(), raw, infoKeys[..0]) == [];
      for n := 0 to |infoKeys|
        invariant Ready(Jobs(shared.GetIds(), raw, infoKeys[..n]), orders)
        invariant var items := Items(env, Jobs(shared.GetIds(), raw, infoKeys[..n]), orders);
                  sindexMetrics == CacheAfter(old(sindexMetrics), items) && out == Emitted(old(sindexMetrics), items)
      {
        ghost var jobs := Jobs(shared.GetIds(), raw, infoKeys[..n]);
        var job := JobOf(shared.GetIds(), raw, infoKeys[n]);
        var cache, more, order := EmitStats(env, job, sindexMetrics);
        sindexMetrics := cache;
        JobsNext(shared.GetIds(), raw, infoKeys, n);
        ItemsSnoc(env, jobs, orders, job, order);
        MemoAppend(old(sindexMetrics), Items(env, jobs, orders), JobItems(env, job, order));
        out, orders := out + more, orders + [order];
      }
      assert infoKeys[..|infoKeys|] == infoKeys;
    }
  }
}
