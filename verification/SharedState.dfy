/** The state that the processors share. */
module SharedState {
  import opened AerospikeStat

  const INFOKEY_SERVICE_CLEAR_STD := "service-clear-std"
  const INFOKEY_SERVICE_TLS_STD := "service-tls-std"

  /** Benchmarks of a namespace: the enabled histogram stats and their latency commands. */
  type Benchmarks = map<string, string>

  class StatProcessorSharedState {
    var service: string
    var clusterName: string
    var build: string
    var nodeId: string
    var infokeyService: string
    var serviceBenchmarks: Benchmarks
    var namespaceBenchmarks: map<string, Benchmarks>

    const infokeyClusterName := "cluster-name"
    const infokeyBuild := "build"
    const infokeyNodeId := "node:"

    constructor ()
      ensures service == "" && clusterName == "" && build == "" && nodeId == ""
      ensures infokeyService == INFOKEY_SERVICE_CLEAR_STD
      ensures serviceBenchmarks == map[] && namespaceBenchmarks == map[]
    {
      service, clusterName, build, nodeId := "", "", "", "";
      infokeyService := INFOKEY_SERVICE_CLEAR_STD;
      serviceBenchmarks, namespaceBenchmarks := map[], map[];
    }

    function GetIds(): Ids
      reads this
    {
      Ids(clusterName, service)
    }
  }
}
