/** What the latency processor asks for, and which of the parsed histograms go out. */
module LatencySends {
  import opened Text
  import opened Commons
  import opened AerospikeStat
  import opened SharedState
  import opened Sending
  import opened LatencyParser
  import opened LatencyProcessor
  import NodeSends

  // ----- Requests -----

  /** The command for some entry of the benchmarks. */
  ghost predicate IsHistogramCommand(namespaces: map<string, Benchmarks>, service: Benchmarks, key: string)
  {
    || (exists ns, stat | ns in namespaces && stat in namespaces[ns] :: key == "latencies:hist=" + namespaces[ns][stat])
    || (exists stat | stat in service :: key == "latencies:hist=" + service[stat])
  }

  lemma {:induction false} EntryCommandsAre(namespaces: map<string, Benchmarks>, order: seq<Entry>, key: string)
    requires forall e | e in order :: e.0 in namespaces && e.1 in namespaces[e.0]
    ensures key in EntryCommands(namespaces, order)
       <==> exists e | e in order :: key == "latencies:hist=" + namespaces[e.0][e.1]
  {
    if order != [] {
      var front, last := order[..|order| - 1], order[|order| - 1];
      assert order == front + [last];
      assert last in order;
      EntryCommandsAre(namespaces, front, key);
      assert forall e :: e in order <==> e in front || e == last;
    }
  }

  lemma {:induction false} ServiceCommandsAre(service: Benchmarks, order: seq<string>, key: string)
    requires forall stat | stat in order :: stat in service
    ensures key in ServiceCommands(service, order)
       <==> exists stat | stat in order :: key == "latencies:hist=" + service[stat]
  {
    if order != [] {
      var front, last := order[..|order| - 1], order[|order| - 1];
      assert order == front + [last];
      assert last in order;
      ServiceCommandsAre(service, front, key);
      assert forall stat :: stat in order <==> stat in front || stat == last;
    }
  }

  /** What is asked for: nothing while the metrics are off or the build is not known; "latency:" from a build before
      5.1.0.0; and otherwise "latencies:" with one command for each benchmark entry, in whatever order. */
  lemma LatencyIsAsked(env: Env, build: string, namespaces: map<string, Benchmarks>, service: Benchmarks,
                       entries: seq<Entry>, stats: seq<string>, key: string)
    requires IsEntryOrder(entries, namespaces) && IsOrder(stats, service)
    ensures var keys := PassTwo(env, build, namespaces, service, entries, stats);
            && (key in keys <==>
                  && !env.cfg.disableLatenciesMetrics
                  && ((NodeSends.BuildKnown(env.lib, build, "5.1.0.0", false) && key == "latency:")
                      || (NodeSends.BuildKnown(env.lib, build, "5.1.0.0", true)
                          && (key == "latencies:" || IsHistogramCommand(namespaces, service, key)))))
            && (!env.cfg.disableLatenciesMetrics && NodeSends.BuildKnown(env.lib, build, "5.1.0.0", true) ==>
                  |keys| == 1 + |entries| + |stats|)
  {
    EntryCommandsAre(namespaces, entries, key);
    ServiceCommandsAre(service, stats, key);
    assert (exists e | e in entries :: key == "latencies:hist=" + namespaces[e.0][e.1])
      <==> (exists ns, stat | ns in namespaces && stat in namespaces[ns] ::
              key == "latencies:hist=" + namespaces[ns][stat]) by {
      if ns, stat :| ns in namespaces && stat in namespaces[ns] && key == "latencies:hist=" + namespaces[ns][stat] {
        assert (ns, stat) in entries;
      }
      if e :| e in entries && key == "latencies:hist=" + namespaces[e.0][e.1] {
        assert e.0 in namespaces && e.1 in namespaces[e.0];
      }
    }
    hide EntryCommands, ServiceCommands;
  }

  // ----- Replies -----

  /** The server speaks the current format exactly if it answers "latencies:"; then every key has its own reply. */
  lemma FormatIsTold(env: Env, raw: map<string, string>, key: string)
    ensures "latencies:" in raw && raw["latencies:"] != "" ==>
              LatencyResult(env, raw, key)
              == Parse(Current, env.lib, Get(raw, key), env.cfg.latencyBucketsCount, map[])
    ensures "latencies:" !in raw || raw["latencies:"] == "" ==>
              LatencyResult(env, raw, key)
              == Parse(Legacy, env.lib, Get(raw, "latency:"), env.cfg.latencyBucketsCount, map[])
  {
    hide Parse;
  }

  /** The operations that the two lists let through: with the allowlist on those in it, and never those that are
      blocked. */
  predicate LetThrough(cfg: Config, op: string)
  {
    if op in cfg.latenciesBlocklist then false
    else if cfg.latenciesAllowlistEnabled then op in cfg.latenciesAllowlist
    else true
  }

  ghost function PairParts(env: Env, ids: Ids, res: Latencies, order: seq<Entry>): (parts: seq<seq<Stat>>)
    requires AllBalanced(res) && Covers(res, order)
    ensures |parts| == |order|
  {
    seq(|order|, n requires 0 <= n < |order| =>
      var (ns, op) := order[n];
      assert order[n] in order;
      if LetThrough(env.cfg, op) then Group(env, ids, ns, op, res[ns][op], |res[ns][op].bucketLabels|) else [])
  }

  lemma LetThroughIs(cfg: Config, op: string)
    ensures LetThrough(cfg, op) <==> Unfiltered(cfg, op)
  {
  }

  /** Out go the groups of exactly the operations that the lists let through, and nothing else. */
  lemma {:induction false} ListsDecide(env: Env, ids: Ids, res: Latencies, order: seq<Entry>)
    requires AllBalanced(res) && Covers(res, order)
    ensures Emissions(env, ids, res, order) == Flat(PairParts(env, ids, res, order))
  {
    hide Group, Balanced, Unfiltered, LetThrough;
    if order != [] {
      var n := |order| - 1;
      var front, last := order[..n], order[n];
      assert front + [last] == order;
      EmissionsSnoc(env, ids, res, front, last);
      ListsDecide(env, ids, res, front);
      LetThroughIs(env.cfg, last.1);
      var parts, part := PairParts(env, ids, res, front), PairParts(env, ids, res, order)[n];
      assert PairParts(env, ids, res, order) == parts + [part];
      FlatSnoc(parts, part);
    }
  }

  ghost function KeyParts(env: Env, ids: Ids, keys: seq<string>, raw: map<string, string>,
                          orders: seq<seq<Entry>>): (parts: seq<seq<Stat>>)
    requires RefreshReady(env, keys, raw, orders)
    ensures |parts| == |keys|
  {
    seq(|keys|, n requires 0 <= n < |keys| =>
      ResultIsBalanced(env, raw, keys[n]);
      Emissions(env, ids, LatencyResult(env, raw, keys[n]).value, orders[n]))
  }

  /** A refresh sends what each key gives, one after the other, and nothing else. */
  lemma {:induction false} RefreshIsFlat(env: Env, ids: Ids, keys: seq<string>, raw: map<string, string>,
                                         orders: seq<seq<Entry>>)
    requires RefreshReady(env, keys, raw, orders)
    ensures RefreshStats(env, ids, keys, raw, orders) == Flat(KeyParts(env, ids, keys, raw, orders))
  {
    hide LatencyResult, Emissions, AllBalanced;
    if keys != [] {
      var n := |keys| - 1;
      RefreshIsFlat(env, ids, keys[..n], raw, orders[..n]);
      ResultIsBalanced(env, raw, keys[n]);
      var parts := KeyParts(env, ids, keys[..n], raw, orders[..n]);
      var part := Emissions(env, ids, LatencyResult(env, raw, keys[n]).value, orders[n]);
      assert KeyParts(env, ids, keys, raw, orders) == parts + [part];
      FlatSnoc(parts, part);
    }
  }
}
