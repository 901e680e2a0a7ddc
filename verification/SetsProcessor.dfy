/** The set processor. */
module SetsProcessor {
  import opened Text
  import opened Commons
  import opened AerospikeStat
  import opened SharedState
  import opened StatLoop

  const KEY_SETS := "sets"

  function JobOf(ids: Ids, piece: string): Job
  {
    var stats := StatsOf(piece, ':');
    Job(Sets, "", ["cluster_name", "service", "ns", "set"],
        [ids.clusterName, ids.service, Get(stats, "ns"), Get(stats, "set")], stats)
  }

  function Jobs(ids: Ids, pieces: seq<string>): (jobs: seq<Job>)
    ensures |jobs| == |pieces|
    ensures forall n | 0 <= n < |jobs| ::
              Carries(ids, jobs[n].labels, jobs[n].labelValues) && jobs[n].context == Sets && jobs[n].prefix == ""
  {
    if pieces == [] then [] else Jobs(ids, pieces[..|pieces| - 1]) + [JobOf(ids, pieces[|pieces| - 1])]
  }

  function Pieces(raw: map<string, string>): seq<string>
  {
    Split(Get(raw, KEY_SETS), ';')
  }

  lemma JobsNext(ids: Ids, pieces: seq<string>, n: nat)
    requires n < |pieces|
    ensures Jobs(ids, pieces[..n + 1]) == Jobs(ids, pieces[..n]) + [JobOf(ids, pieces[n])]
  {
    assert pieces[..n + 1][..n] == pieces[..n];
  }

  class SetsStatsProcessor {
    const env: Env
    const shared: StatProcessorSharedState
    var setMetrics: Cache

    constructor (env: Env, shared: StatProcessorSharedState)
      ensures this.env == env && this.shared == shared && setMetrics == map[]
    {
      this.env, this.shared, setMetrics := env, shared, map[];
    }

    method Refresh(raw: map<string, string>) returns (out: seq<Stat>, ghost orders: seq<seq<string>>)
      modifies this`setMetrics
      ensures Ready(Jobs(shared.GetIds(), Pieces(raw)), orders)
      ensures var items := Items(env, Jobs(shared.GetIds(), Pieces(raw)), orders);
              setMetrics == CacheAfter(old(setMetrics), items) && out == Emitted(old(setMetrics), items)
    {
      hide CacheAfter, Emitted, JobItems, JobOf, Items, Jobs;
      var pieces := Pieces(raw);
      out, orders := [], [];
      NoItems(env);
      MemoNothing(setMetrics);
      assert Jobs(shared.GetIds(), pieces[..0]) == [];
      for n := 0 to |pieces|
        invariant Ready(Jobs(shared.GetIds(), pieces[..n]), orders)
        invariant var items := Items(env, Jobs(shared.GetIds(), pieces[..n]), orders);
                  setMetrics == CacheAfter(old(setMetrics), items) && out == Emitted(old(setMetrics), items)
      {
        ghost var jobs := Jobs(shared.GetIds(), pieces[..n]);
        var job := JobOf(shared.GetIds(), pieces[n]);
        var cache, more, order := EmitStats(env, job, setMetrics);
        setMetrics := cache;
        JobsNext(shared.GetIds(), pieces, n);
        ItemsSnoc(env, jobs, orders, job, order);
        MemoAppend(old(setMetrics), Items(env, jobs, orders), JobItems(env, job, order));
        out, orders := out + more, orders + [order];
      }
      assert pieces[..|pieces|] == pieces;
    }
  }
}
