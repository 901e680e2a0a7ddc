/** A cycle from outside: which keys it requests, and of what its result is made. */
module WholeCycle {
  import opened Text
  import opened Commons
  import opened AerospikeStat
  import opened StatsRefresher
  import NS = NamespaceProcessor
  import Node = NodeProcessor
  import Index = SindexProcessor
  import XD = XdrProcessor
  import Lat = LatencyProcessor
  import NodeSends
  import LoopSends
  import LatencySends
  import LogSinks

  // ----- Requests -----

  /** The key under which the server tells its service address: once certificates have loaded, the TLS one. */
  function ServiceKey(m: Machine, ambient: Ambient): string
  {
    if ambient.certificates then "service-tls-std" else m.infokeyService
  }

  /** The second request holds the four identity keys and the keys of all six processors, each as often as its processor
      asks for it, and nothing else. */
  lemma AllAreRequested(env: Env, m: Machine, s: Step)
    requires StepReady(env, m, s) && s.one.Answer?
    ensures |Requests(env, m, s)| == 2
    ensures var k := StepKeys(env, m, s);
            multiset(Requests(env, m, s)[1])
            == multiset{"cluster-name", ServiceKey(m, s.ambient), "build", "node:"} + multiset(k.namespaces)
               + multiset(k.node) + multiset(k.sets) + multiset(k.sindex) + multiset(k.xdr) + multiset(k.latency)
  {
    hide StepKeys, RepliesReady, NS.WithMaps, NS.Names, PressureDue, Node.Sinks;
  }

  /** The namespace keys: one for each listed namespace, its roster if it is known to be consistent, and index pressure
      if some reply has shown flash and ten minutes have gone by. */
  predicate IsNamespaceKey(m: Machine, one: map<string, string>, ambient: Ambient, key: string)
  {
    || (exists ns | ns in Split(Get(one, "namespaces"), ';') ::
          || key == "namespace/" + ns
          || (key == "roster:namespace=" + ns && ns in m.learned.sc && m.learned.sc[ns]))
    || (key == "index-pressure" && m.learned.flash
        && ambient.checkTime - m.previousFetch >= 10 * 60 * 1_000_000_000)
  }

  lemma {:induction false} NameKeysAre(names: seq<string>, sc: map<string, bool>, key: string)
    ensures key in NS.NameKeys(names, sc) <==>
              exists ns | ns in names ::
                key == "namespace/" + ns || (key == "roster:namespace=" + ns && ns in sc && sc[ns])
    ensures |NS.NameKeys(names, sc)| >= |names|
  {
    if names != [] {
      var front, last := names[..|names| - 1], names[|names| - 1];
      assert names == front + [last];
      NameKeysAre(front, sc, key);
      assert forall ns :: ns in names <==> ns in front || ns == last;
    }
  }

  lemma NamespaceKeysAre(m: Machine, one: map<string, string>, ambient: Ambient, key: string)
    ensures key in NS.PassTwo(NS.Names(one), m.learned.sc, PressureDue(m, ambient))
       <==> IsNamespaceKey(m, one, ambient, key)
  {
    hide Split, NS.NameKeys;
    NameKeysAre(NS.Names(one), m.learned.sc, key);
  }

  /** The first request asks for what the processors make their keys from. */
  lemma FirstRequest(env: Env, m: Machine, s: Step, key: string)
    requires StepReady(env, m, s)
    ensures |Requests(env, m, s)| >= 1
    ensures key in Requests(env, m, s)[0] <==>
              || key == "namespaces" || key == "logs" || key == "get-config:context=xdr" || key == "build"
              || (key == "sindex-list:" && !env.cfg.disableSindexMetrics)
  {
    hide StepKeys, RepliesReady, Prepared, SecondRequest;
  }

  /** Exactly what a cycle requests once its first request is answered, from the texts of that answer and from what
      earlier cycles have left. */
  ghost predicate IsRequested(env: Env, m: Machine, one: map<string, string>, ambient: Ambient, key: string)
  {
    // the identity of the node
    || key == "cluster-name" || key == ServiceKey(m, ambient) || key == "build" || key == "node:"
    // namespaces
    || IsNamespaceKey(m, one, ambient, key)
    // the node
    || key == "get-config:context=service" || key == "statistics"
    || (exists sink | sink in Split(Get(one, "logs"), ';') :: key == "log/" + LogSinks.IdOf(sink))
    || (key == "user-agents" && NodeSends.BuildKnown(env.lib, Get(one, "build"), "8.1.0.0", true))
    // sets
    || key == "sets"
    // secondary indexes
    || (!env.cfg.disableSindexMetrics
        && exists entry | entry in Split(Get(one, "sindex-list:"), ';') ::
             LoopSends.NamesNamespace(entry) && key == LoopSends.KeyOfEntry(entry))
    // XDR
    || (exists dc | dc in Split(Get(StatsOf(Get(one, "get-config:context=xdr"), ';'), "dcs"), ',') ::
          dc != "" && LoopSends.IsXdrKey(key, dc, Split(Get(one, "namespaces"), ';')))
    // latencies
    || (!env.cfg.disableLatenciesMetrics
        && (|| (NodeSends.BuildKnown(env.lib, Get(one, "build"), "5.1.0.0", false) && key == "latency:")
            || (NodeSends.BuildKnown(env.lib, Get(one, "build"), "5.1.0.0", true)
                && (key == "latencies:"
                    || LatencySends.IsHistogramCommand(m.learned.benchmarks, m.service, key)))))
  }

  /** Empty maps add no commands. */
  lemma MapsAddNoCommand(m: Machine, names: seq<string>, key: string)
    ensures LatencySends.IsHistogramCommand(NS.WithMaps(m.learned.benchmarks, names), m.service, key)
       <==> LatencySends.IsHistogramCommand(m.learned.benchmarks, m.service, key)
  {
    hide NS.WithMaps;
    var maps := NS.WithMaps(m.learned.benchmarks, names);
    forall ns
      ensures ns in m.learned.benchmarks ==> ns in maps && maps[ns] == m.learned.benchmarks[ns]
      ensures ns in maps && ns !in m.learned.benchmarks ==> maps[ns] == map[]
    {
      NS.MapsAt(m.learned.benchmarks, names, ns);
    }
  }

  lemma LatencyKeysAre(env: Env, m: Machine, one: map<string, string>, orders: Orders, key: string)
    requires CommandsReady(m, one, orders)
    ensures key in Lat.PassTwo(env, Get(one, "build"), NS.WithMaps(m.learned.benchmarks, NS.Names(one)), m.service,
                               orders.entries, orders.stats)
       <==> && !env.cfg.disableLatenciesMetrics
            && (|| (NodeSends.BuildKnown(env.lib, Get(one, "build"), "5.1.0.0", false) && key == "latency:")
                || (NodeSends.BuildKnown(env.lib, Get(one, "build"), "5.1.0.0", true)
                    && (key == "latencies:"
                        || LatencySends.IsHistogramCommand(m.learned.benchmarks, m.service, key))))
  {
    hide NS.WithMaps, NS.Names, LatencySends.IsHistogramCommand, NodeSends.BuildKnown, Lat.PassTwo;
    LatencySends.LatencyIsAsked(env, Get(one, "build"), NS.WithMaps(m.learned.benchmarks, NS.Names(one)), m.service,
                                orders.entries, orders.stats, key);
    MapsAddNoCommand(m, NS.Names(one), key);
  }

  lemma InSum(all: seq<string>, four: multiset<string>, k: Keys, key: string)
    requires multiset(all) == four + multiset(k.namespaces) + multiset(k.node) + multiset(k.sets) + multiset(k.sindex)
                              + multiset(k.xdr) + multiset(k.latency)
    ensures key in all <==> key in four || key in k.namespaces || key in k.node || key in k.sets || key in k.sindex
                            || key in k.xdr || key in k.latency
  {
    assert key in all <==> key in multiset(all);
  }

  lemma RequestedIs(env: Env, m: Machine, s: Step, key: string)
    requires StepReady(env, m, s) && s.one.Answer?
    ensures |Requests(env, m, s)| == 2
    ensures key in Requests(env, m, s)[1] <==>
              var k := StepKeys(env, m, s);
              || key == "cluster-name" || key == ServiceKey(m, s.ambient) || key == "build" || key == "node:"
              || key in k.namespaces || key in k.node || key in k.sets || key in k.sindex || key in k.xdr
              || key in k.latency
  {
    hide RepliesReady, KeysFor, SecondRequest, Prepared, Keys.All, CommandsReady, PassOneKeys, ServiceKey, Requests;
    AllAreRequested(env, m, s);
    InSum(Requests(env, m, s)[1], multiset{"cluster-name", ServiceKey(m, s.ambient), "build", "node:"},
          StepKeys(env, m, s), key);
  }

  /** For every state and every answered first request, key by key: what the second request holds. */
  lemma RequestsExactly(env: Env, m: Machine, s: Step, key: string)
    requires StepReady(env, m, s) && s.one.Answer?
    ensures |Requests(env, m, s)| == 2
    ensures key in Requests(env, m, s)[1] <==> IsRequested(env, m, s.one.values, s.ambient, key)
  {
    var one := s.one.values;
    RequestedIs(env, m, s, key);
    NamespaceKeysAre(m, one, s.ambient, key);
    NodeSends.NodeIsAsked(env, one, key);
    LoopSends.IndexesAreAsked(env, one, key);
    LoopSends.XdrIsAsked(one, key);
    LatencyKeysAre(env, m, one, s.orders, key);
    assert StepKeys(env, m, s).sets == ["sets"];
    hide Requests, RepliesReady, NS.PassTwo, Node.PassTwo, Index.PassTwo, XD.PassTwo, Lat.PassTwo, NS.WithMaps;
    hide NS.Names, Split, StatsOf, LoopSends.NamesNamespace, LoopSends.KeyOfEntry, LoopSends.IsXdrKey;
    hide LatencySends.IsHistogramCommand, NodeSends.BuildKnown, IsNamespaceKey, LogSinks.IdOf, ServiceKey;
  }

  lemma SameRequested(env: Env, m: Machine, one: map<string, string>, other: map<string, string>, ambient: Ambient,
                      key: string)
    requires Get(one, "namespaces") == Get(other, "namespaces") && Get(one, "logs") == Get(other, "logs")
    requires Get(one, "get-config:context=xdr") == Get(other, "get-config:context=xdr")
    requires Get(one, "build") == Get(other, "build")
    requires !env.cfg.disableSindexMetrics ==> Get(one, "sindex-list:") == Get(other, "sindex-list:")
    ensures IsRequested(env, m, one, ambient, key) <==> IsRequested(env, m, other, ambient, key)
  {
    hide Split, StatsOf, LoopSends.IsXdrKey, LoopSends.NamesNamespace, LoopSends.KeyOfEntry;
    hide LatencySends.IsHistogramCommand, NodeSends.BuildKnown, LogSinks.IdOf, ServiceKey, Get;
  }

  /** The first request asks for all that the second one depends on: whatever else first answers differ in, if they
      agree on its keys, the second requests hold the same. */
  lemma FirstSuffices(env: Env, m: Machine, s: Step, t: Step, key: string)
    requires StepReady(env, m, s) && StepReady(env, m, t) && s.one.Answer? && t.one.Answer? && s.ambient == t.ambient
    requires forall k | k in Requests(env, m, s)[0] :: Get(s.one.values, k) == Get(t.one.values, k)
    ensures |Requests(env, m, s)| == |Requests(env, m, t)| == 2
    ensures key in Requests(env, m, s)[1] <==> key in Requests(env, m, t)[1]
  {
    hide *;
    RequestsExactly(env, m, s, key);
    RequestsExactly(env, m, t, key);
    FirstRequest(env, m, s, "namespaces");
    FirstRequest(env, m, s, "logs");
    FirstRequest(env, m, s, "sindex-list:");
    FirstRequest(env, m, s, "get-config:context=xdr");
    FirstRequest(env, m, s, "build");
    SameRequested(env, m, s.one.values, t.one.values, s.ambient, key);
  }

  lemma XdrIsRequested(env: Env, m: Machine, s: Step, dc: string, key: string)
    requires StepReady(env, m, s) && s.one.Answer?
    requires dc in Split(Get(StatsOf(Get(s.one.values, "get-config:context=xdr"), ';'), "dcs"), ',') && dc != ""
    requires LoopSends.IsXdrKey(key, dc, Split(Get(s.one.values, "namespaces"), ';'))
    ensures |Requests(env, m, s)| == 2 && key in Requests(env, m, s)[1]
  {
    RequestsExactly(env, m, s, key);
    hide Requests, StepReady, Split, StatsOf, LoopSends.IsXdrKey, IsNamespaceKey, LoopSends.NamesNamespace;
    hide LoopSends.KeyOfEntry, LatencySends.IsHistogramCommand, NodeSends.BuildKnown, LogSinks.IdOf, ServiceKey, Get;
  }

  lemma FourLevels(dc: string, ns: string)
    ensures var names := [ns];
            && LoopSends.IsXdrKey("get-stats:context=xdr;dc=" + dc, dc, names)
            && LoopSends.IsXdrKey("get-config:context=xdr;dc=" + dc, dc, names)
            && LoopSends.IsXdrKey("get-stats:context=xdr;dc=" + dc + ";namespace=" + ns, dc, names)
            && LoopSends.IsXdrKey("get-config:context=xdr;dc=" + dc + ";namespace=" + ns, dc, names)
  {
    assert ns in [ns];
  }

  /** For instance, with a data centre dc1 and a namespace test all four XDR keys are requested. */
  lemma FourXdrKeys(env: Env, m: Machine, s: Step)
    requires StepReady(env, m, s) && s.one.Answer?
    requires Get(s.one.values, "get-config:context=xdr") == "dcs=dc1" && Get(s.one.values, "namespaces") == "test"
    ensures |Requests(env, m, s)| == 2
    ensures var second := Requests(env, m, s)[1];
            && "get-stats:context=xdr;dc=" + "dc1" in second && "get-config:context=xdr;dc=" + "dc1" in second
            && "get-stats:context=xdr;dc=" + "dc1" + ";namespace=" + "test" in second
            && "get-config:context=xdr;dc=" + "dc1" + ";namespace=" + "test" in second
  {
    OneCentre();
    FourLevels("dc1", "test");
    assert "dc1" in ["dc1"];
    hide *;
    XdrIsRequested(env, m, s, "dc1", "get-stats:context=xdr;dc=" + "dc1");
    XdrIsRequested(env, m, s, "dc1", "get-config:context=xdr;dc=" + "dc1");
    XdrIsRequested(env, m, s, "dc1", "get-stats:context=xdr;dc=" + "dc1" + ";namespace=" + "test");
    XdrIsRequested(env, m, s, "dc1", "get-config:context=xdr;dc=" + "dc1" + ";namespace=" + "test");
  }

  lemma OneCentre()
    ensures Split("test", ';') == ["test"]
    ensures Split(Get(StatsOf("dcs=dc1", ';'), "dcs"), ',') == ["dc1"]
  {
    assert "dcs=dc1" == "dcs" + "=" + "dc1" && '=' !in "dcs" && ';' !in "dcs" && ';' !in "dc1" && ',' !in "dc1";
    hide StatsOf, Split;
    StatsOne(';', "dcs", "dc1");
    SplitAbsent("dc1", ',');
    SplitAbsent("test", ';');
  }
}
