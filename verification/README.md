# The scrape engine of the Aerospike Prometheus exporter, modelled and proved

The exporter scrapes an Aerospike node in cycles. A cycle makes two rounds of info requests: the first asks for
metadata, every stat processor turns the reply into info keys, and the second round asks for those. The replies are
parsed into stats, and what they teach (latency benchmarks, strong consistency, flash indexes) decides what later
cycles ask for. The stats then feed an index of OpenTelemetry series, and an export gate holds data back until enough
refreshes have succeeded. This project models that engine and proves what it keeps over every run.

## How the model is built

* `Text`, `Numerals`: Go's string and number operations on byte strings, and their laws.
* `Commons`, `AerospikeStat`: `k=v` lists, metric descriptors, allow rules and metric types, and the memo caches as one
  machine that every processor uses. `Readings` and `Sending` say what texts mean as numbers, which metrics are allowed
  and typed how, and what is sent for an item.
* `LatencyParser`: the reader is a class over a text and a position; both parsers are methods with loops, proved
  against the function `Parse`. `LatencyLaws`, `LegacyPanics`, `EndOfInput` and `MissingDelimiters` prove the laws of
  `Parse` in both formats, and `HistogramShapes` carries the shape of a histogram from the text of a reply to the stats
  that go out. `HistogramMeaning` says what its numbers and labels mean.
* `NamespaceProcessor`, `NodeProcessor`, `SetsProcessor`, `SindexProcessor`, `XdrProcessor`, `LatencyProcessor`: one
  class per processor over the shared state, each method proved against a specification on values. `StatLoop` and
  `HistogramSwitches` hold what they share, `InfoKeys` and `NamespaceItems` the laws of the namespace processor,
  `LogSinks` a law of the node processor. `NamespaceSends`, `NodeSends`, `LoopSends` and `LatencySends` say, on the texts
  of requests and replies alone, what each processor asks for and what goes out; `Switching` says what a reply switches.
* `StatsRefresher`: the cycle, as a class that talks to an arbitrary server, and as a transition system
  (`Machine`, `Step`, `Next`, `Outcome`, `Requests`) that the class is proved to follow. `WholeCycle` and
  `CycleResults` say what a cycle requests and returns, key by key and part by part.
* `Runs`, `RequestHistory`, `CacheRuns`, `CycleLaws`, `SafeCycles`: theorems over every run of the transition system.
  `MapOrder`, `FlagOrder` and `PushOrder` say exactly what the order of map walks can and cannot change
  (`Permutations` holds the list lemmas).
* `MetricKeys`, `OtelIndex`, `OtelExecutor`, `ExportGate`, `OtelRuns`, `PushedValues`: the flattened keys, the
  series index, the executor class over heap objects, the export gate, and end-to-end theorems.
* `ShmKey`: the bit fields of shared-memory keys.

Conventions. Go walks a map in an arbitrary order: a method picks the next key freely and returns the order as a ghost
result, and the theorems hold for all orders. The method that carries out a cycle returns the step it took in the same
way, so every cycle of the class is a step of the transition system. The server is an arbitrary list of replies and
failures; clock readings, certificates and user statistics come with each step (`Ambient`). Calls into library code are
functions in `Library`, and nothing is assumed of them unless a lemma says so. A Go panic (a write to a nil map, an
index out of range) is a precondition that says exactly when it does not happen, or a `None` result. Caches store
struct values, so filling in a value never changes a cached descriptor.

## What the proofs brought to light

* `ReadUntil` drops the last byte when the delimiter is missing. The last byte of a latency reply is therefore ignored,
  except where it is all that there is of the values of a section (`LastByte`, `LastByteIsIgnored`, both exact), and a
  reply that ends without ";" loses a digit: an unterminated total of 12 reads as 1 (`UnterminatedTotal`). The parser
  tolerates the end of input there (`latency_info_parser.go` line 259); `MissingDelimiter` says exactly when that is
  harmless.
* The comment above the bucket loop (lines 264-266) speaks of leaving out zero buckets. The code keeps them all, and so
  does the model (`NumeralBuckets`, `ZeroBucketsAreKept`).
* The XDR cache is keyed by the bare stat name, the metric name has a prefix. The first level ever seen fixes the name
  for good (`XdrNameIsFirstSeen`, `NamespaceStatMisnamed`).
* Array stats of a namespace are cached under a name without index. The allow flag of the first raw stat stays
  (`AllowFlagIsFirstSeen`), and which one is first can depend on Go's map order: exactly when the first reply that
  brings a name disagrees about it (`OrderDecidesFlag`, `CycleOrdersDecide`, `RunOrdersDecide`; `FileAgesCollide` for
  the two files of a storage engine). Nothing else depends on map order, over all runs: `OrderLeavesNoTrace`,
  `RunsPermute`. The OTel loop does not read the flag at all, so it pushes blocked stats too, and no exception remains
  (`BlockedIsPushed`, `PushesPermute`).
* The latency command is cut out of the text "{namespace}-stat", name included: a namespace whose name holds "enable-"
  or "hist-" is asked for under another name (`CommandNamesNamespace`, `OtherNamespaceIsAsked`).
* A namespace name that holds "namespace/" is read back wrongly and can lead to a write to a nil map (`MapsExist`,
  `NestedNameHasNoMap`); names with "=" are cut in roster and index keys (`RosterNameIsReadBack`, `RosterNameIsCut`;
  `SindexProcessor.DecodeUndoesBuild`, `SindexProcessor.NamesAreCut`).
* The legacy latency parser indexes out of range when a section has more numbers than labels (`LegacyPanicsExactly`,
  `ReplyIsRead`, `OneLabelTwoValues`); the current one never does (`CurrentNeverPanics`). `NoPanicExactly` and
  `SafetyIsHistory` say exactly which cycles panic.
* Log levels are asked for by sink id but read under the numbers from 0 on; `LevelsAreTold` says exactly when these are
  the same.
* Series can share a key, and then an index entry. Every set of series is safe exactly when no two of them do
  (`ValueIsLast`, `ReportsAreLast`). The clean series are such a set, and no series can be added to it: each other one
  shares its key with a clean one (`CleanExactly`). What makes a series unclean is a "|" with a "=" behind it, or a
  separator in a label key (`PipesCollide`); within one metric it takes a value that holds the mark of the next label
  (`SettledExactly`). User-agent entries can do so (`AgentsCollide`).

## Model

| member | source | states |
|---|---|---|
| Commons.ParseStats | internal/pkg/commons/utils.go:27-42 | The loop over the pieces builds the map of their k=v pairs, for every text and one-byte separator. |
| Commons.LastPairWins | internal/pkg/commons/utils.go:27-42 | A key reads v exactly when the last piece carrying this key has value v. |
| Commons.ParsedKeysAreClean | internal/pkg/commons/utils.go:27-42 | On every input no key holds "=" or the separator and no value holds the separator. |
| Commons.ParseUndoesPrint | internal/pkg/commons/utils.go:27-42 | Printing a map as k=v pairs in any order and parsing it gives the map back, when keys are free of "=" and the separator and values of the separator. |
| AerospikeStat.LoopPatterns | internal/pkg/statprocessors/utils.go:109-122 | The loop with early return finds a match exactly when some non-empty pattern matches. |
| AerospikeStat.CacheKeepsFirstSeen | internal/pkg/statprocessors/sp_xdr.go:117-130 | A memo cache keeps, for every key, its old entry or else the first descriptor seen for the key. |
| AerospikeStat.CacheTransparent | internal/pkg/statprocessors/sp_namespaces.go:244-257 | An emission equals that of a processor without a cache exactly when the first item with the same key built the same descriptor. |
| AerospikeStat.CoherentCache | internal/pkg/statprocessors/sp_node_stats.go:124-138 | If every item builds the descriptor that belongs to its key, so does every cache entry, and every emission is the uncached one. |
| Readings.ConvertsExactly | internal/pkg/commons/utils.go:44-57 | A text converts exactly to the float it parses as, or else to 1 or 0 as the boolean it parses as; it does not convert exactly if neither parser takes it. |
| Readings.AllowedExactly | internal/pkg/statprocessors/utils.go:43-97 | In the five filtered contexts a stat is allowed exactly if no non-empty block pattern matches it and an allow pattern does or there are none; elsewhere always. |
| Readings.BlockingRemoves | internal/pkg/statprocessors/utils.go:22-41 | More block patterns never allow more. |
| Readings.GaugeExactly | internal/pkg/statprocessors/utils.go:153-173 | A metric is a gauge exactly if its context is latencies or users, or the rest of its name without "storage-engine" holds a "-" or is listed as a gauge. |
| Readings.StorageTypes | internal/pkg/statprocessors/utils.go:153-173 | A storage-engine metric has the type of what follows the prefix. |
| Sending.PartIsSent | internal/pkg/statprocessors/sp_xdr.go:117-140 | Parts of a refresh go out one after the other, each as its own emission under what the parts before it have left in the cache. |
| LatencyParser.LatencyInfoParser.PeekAndExpect | internal/pkg/statprocessors/latency_info_parser.go:25-37 | Tells whether the unread text starts with the expected one, and does not move. |
| LatencyParser.LatencyInfoParser.Expect | internal/pkg/statprocessors/latency_info_parser.go:41-54 | Advances over the expected length or to the end, and succeeds exactly when the expected text stood there. |
| LatencyParser.LatencyInfoParser.ReadUntil | internal/pkg/statprocessors/latency_info_parser.go:57-71 | Returns the bytes before the delimiter; without a delimiter it reaches the end, drops the last of two or more bytes, and reports end of input. |
| LatencyParser.ReadNamespaceAndOperation | internal/pkg/statprocessors/latency_info_parser.go:187-218 | Reads a section head: error, "go on", or namespace and operation, leaving the reader behind them. |
| LatencyParser.ParseLatencyInfo | internal/pkg/statprocessors/latency_info_parser.go:225-317 | The imperative parser over the reader computes the specification Parse on every byte string, and terminates. |
| LatencyParser.ParseLatencyInfoLegacy | internal/pkg/statprocessors/latency_info_parser.go:81-185 | The legacy parser computes Parse for its format; None stands for its index-out-of-range panic. |
| LatencyParser.RoundConsumes | internal/pkg/statprocessors/latency_info_parser.go:228-317 | Every round that goes on consumes at least one byte: the measure behind termination. |
| LatencyLaws.RoundTrip | internal/pkg/statprocessors/latency_info_parser.go:81-317 | In both formats, for every list of sections (with data, batch-index, empty, junk) whose labels suffice, parsing the printed text yields exactly the effect of the sections, one after the other. |
| LegacyPanics.ReplyIsRead | internal/pkg/statprocessors/latency_info_parser.go:81-317 | For every printed reply in both formats: parsing yields the effect of the sections if labels suffice in all of them, and indexes out of range otherwise. |
| LatencyLaws.LastSectionWins | internal/pkg/statprocessors/latency_info_parser.go:161-181 | The effect of the sections is last-wins: each namespace and operation reads the last section that feeds it, batch-index sections under the empty namespace. |
| LatencyLaws.LimitOnlyCuts | internal/pkg/statprocessors/latency_info_parser.go:267-293 | On every text, well formed or not, in both formats, as long as the unlimited parse does not panic: the result with limit L > 0 is the unlimited one with each bucket list cut to its first min(L, n) + 1 entries. |
| LatencyLaws.CurrentNeverPanics | internal/pkg/statprocessors/latency_info_parser.go:225-317 | The current format is parsed without a panic on every byte string. |
| LatencyLaws.PowerBucketAt | internal/pkg/statprocessors/latency_info_parser.go:277-293 | Bucket k carries the label 1<<k and the operations not above it, computed from field k + 1. |
| LatencyLaws.NumeralBuckets | internal/pkg/statprocessors/latency_info_parser.go:264-293 | Numerals give all their buckets up to the limit, with labels by format, whatever their values: no bucket is left out for being zero. |
| LatencyLaws.ZeroBucketsAreKept | internal/pkg/statprocessors/latency_info_parser.go:264-293 | A witness: of two buckets that hold no more than the one in front of them both are kept. |
| HistogramMeaning.SectionAddsUp | internal/pkg/statprocessors/latency_info_parser.go:264-293 | For any section text, in both formats and under every limit: bucket 0 is the total, and every other bucket plus its own percentage of the total is the total. |
| HistogramMeaning.ReplyMeans | internal/pkg/statprocessors/latency_info_parser.go:81-317 | For every printed reply in both formats: the histogram of a namespace and operation has the total, adding-up buckets, labels (powers of two, or the reply labels without their decoration) and time unit of the last section that feeds the pair; a pair that no section feeds has none. |
| HistogramMeaning.HalfOfThem | internal/pkg/statprocessors/latency_info_parser.go:277-293 | A witness: "{test}-read:msec,100,50,0;" gives the buckets 100, 50, 100 at +Inf, 1, 2 in ms. |
| EndOfInput.LastByte | internal/pkg/statprocessors/latency_info_parser.go:57-71 | For every text and both formats: if parsing breaks off just where the values of a section would begin, the last byte is read as those values; otherwise it has no influence on the result at all. |
| EndOfInput.LastByteIsIgnored | internal/pkg/statprocessors/latency_info_parser.go:57-71 | For every text s and both formats, s + c is parsed like s + ";" if and only if not (parsing s breaks off where values would begin, c is a number, and its histogram is not there already). |
| EndOfInput.LastByteOfReply | internal/pkg/statprocessors/latency_info_parser.go:57-71 | For any printed reply, in both formats, ending in a data or batch-index section without ";": its last byte is ignored exactly when it follows a non-empty values text, or is no number, or repeats the histogram that is there, or the parser has panicked before. |
| MissingDelimiters.MissingDelimiter | internal/pkg/statprocessors/latency_info_parser.go:119-121 | In both formats (the current one at 258-262): behind any printed sections, an unterminated last section is read like the terminated one exactly when the lost byte of its values does not change a converted field or the panic at it, or the two differ by a single total that is there already, or the parser has panicked before. |
| MissingDelimiters.UnterminatedTotal | internal/pkg/statprocessors/latency_info_parser.go:57-71 | A witness that it can matter: a total of 12 is read as 12 with ";" and as 1 without. |
| LegacyPanics.LegacyPanicsExactly | internal/pkg/statprocessors/latency_info_parser.go:133-150 | For every text: the legacy parser indexes out of range exactly when a section that it gets to has more fields than labels, the limit does not stop before the labels run out, and the fields up to the first unlabelled one are numbers. |
| LegacyPanics.RepliesPanic | internal/pkg/statprocessors/latency_info_parser.go:133-150 | Hence a printed reply makes the parser panic, whatever follows it, as soon as some section has more values than labels and no limit stops the loop first. |
| LegacyPanics.OneLabelTwoValues | internal/pkg/statprocessors/latency_info_parser.go:133-150 | A witness: "{a}-r:t,o;t,1,2;" makes the legacy parser index out of range. |
| LatencyProcessor.LatencyStatsProcessor.PassTwoKeys | internal/pkg/statprocessors/sp_latency.go:27-49 | No keys, the legacy key, or the latency commands, by configuration and build; the map order is returned. |
| LatencyProcessor.LatencyStatsProcessor.GetLatenciesCommands | internal/pkg/statprocessors/sp_latency.go:52-76 | "latencies:" and one command for each benchmark entry, in whatever order the maps are walked. |
| LatencyProcessor.EntryCommandAt | internal/pkg/statprocessors/sp_latency.go:61-66 | Command n is the histogram command of entry n of the walk. |
| LatencyProcessor.LatencyStatsProcessor.ParseSingleLatenciesKey | internal/pkg/statprocessors/sp_latency.go:115-196 | Parses the reply in the format that the server speaks and emits the buckets of every unfiltered pair. |
| LatencyProcessor.LatencyStatsProcessor.Refresh | internal/pkg/statprocessors/sp_latency.go:85-113 | The emissions of all keys, in order. |
| LatencyProcessor.OneCountPerGroup | internal/pkg/statprocessors/sp_latency.go:146-191 | Each namespace and operation sends exactly one _count stat, right behind its le="+Inf" bucket and equal to it. |
| LatencyProcessor.OneCountPerPair | internal/pkg/statprocessors/sp_latency.go:131-193 | As many _count stats as unfiltered pairs of namespace and operation, in whatever order the result is walked. |
| LatencySends.LatencyIsAsked | internal/pkg/statprocessors/sp_latency.go:27-76 | Exactly what is asked for: nothing while off or with an unknown build, "latency:" before build 5.1.0.0, otherwise "latencies:" and one command for each benchmark entry. |
| LatencySends.FormatIsTold | internal/pkg/statprocessors/sp_latency.go:115-127 | The current format is parsed exactly if "latencies:" has an answer, and then each key by its own reply; otherwise the legacy reply. |
| LatencySends.ListsDecide | internal/pkg/statprocessors/sp_latency.go:87-139 | What goes out are the groups of exactly the operations that the two lists let through, one after the other: with the allowlist on those in it, and never those in the blocklist. |
| LatencySends.RefreshIsFlat | internal/pkg/statprocessors/sp_latency.go:85-113 | A refresh sends what each key gives, one after the other, and nothing else. |
| LatencyProcessor.BucketsAreSent | internal/pkg/statprocessors/sp_latency.go:146-171 | Every bucket of a pair goes out in order, under its own boundary and with its own value. |
| LatencyProcessor.SafeExactly | internal/pkg/statprocessors/sp_latency.go:115-127 | Parsing the reply to a key comes to a result exactly when the server speaks the current format or the legacy text does not overrun its labels. |
| HistogramShapes.SectionIsShaped | internal/pkg/statprocessors/latency_info_parser.go:267-293 | Any values text with total >= 0 and non-increasing percentages gives, under every limit and however short, bucket values that do not fall and lie between 0 and the total, at increasing powers of two up to bucket 63. |
| HistogramShapes.ReplyIsShaped | internal/pkg/statprocessors/latency_info_parser.go:225-317 | Hence every histogram that parsing a printed reply of such sections holds, for whatever namespace and operation, has this shape. |
| HistogramShapes.SeriesAreShaped | internal/pkg/statprocessors/sp_latency.go:115-196 | End to end: every unfiltered namespace and operation of such a reply goes out in one piece, which is its own group of stats, under its namespace label: "+Inf" bucket, equal _count, and buckets of this shape, in whatever order the result is walked. |
| HistogramShapes.LabelsGrow | internal/pkg/statprocessors/latency_info_parser.go:280-285 | Boundaries of different buckets differ, as numbers and as printed labels. |
| LatencyProcessor.ResultIsBalanced | internal/pkg/statprocessors/latency_info_parser.go:295-305 | Every parsed histogram has as many labels as values, at least one, and "+Inf" first. |
| HistogramSwitches.SwitchLoopIgnoresOrder | internal/pkg/statprocessors/sp_namespaces.go:259-277 | Whatever order the reply is walked in, the benchmarks end up the same, and equal to an order-free description. |
| HistogramSwitches.CommandNamesNamespace | internal/pkg/statprocessors/sp_namespaces.go:263-271 | The latency command of a namespace histogram names that very namespace exactly when the name holds neither "enable-" nor "hist-", for every name. |
| HistogramSwitches.OtherNamespaceIsAsked | internal/pkg/statprocessors/sp_namespaces.go:263-271 | A witness: the histograms of namespace "enable-a" are asked for as those of namespace "a". |
| Switching.ReplySwitches | internal/pkg/statprocessors/sp_namespaces.go:259-277 | By the two parsers: a histogram stat of a reply is switched on by 1, off by any other number, on by true and off by false when the text is no number, and left alone by any other text. |
| Switching.Unprefixed | internal/pkg/statprocessors/sp_namespaces.go:263-271 | The commands for enable-benchmarks-op and enable-hist-op are benchmarks-op and op, when op holds none of the prefixes. |
| Switching.InfoIsSwitched | internal/pkg/statprocessors/sp_node_stats.go:137-156 | A witness: enable-hist-info=true reads as 1 and stands in the service benchmarks as info; enable-hist-info=false reads as 0 and does not stand. |
| NamespaceProcessor.NamespaceStatsProcessor.PassTwoKeys | internal/pkg/statprocessors/sp_namespaces.go:69-98 | The keys for the listed namespaces, rosters for those known consistent, index pressure if due; creates missing benchmark maps and stamps the fetch time. |
| NamespaceProcessor.NamespaceStatsProcessor.RefreshNamespaceStats | internal/pkg/statprocessors/sp_namespaces.go:185-290 | Emits every convertible stat through the cache and learns benchmarks, re-repl, the flash latch and the consistency flag from the reply. |
| NamespaceProcessor.NamespaceStatsProcessor.RefreshIndexPressure | internal/pkg/statprocessors/sp_namespaces.go:125-182 | Emits the named values of every piece of the reply, provided no value beyond the three names converts. |
| NamespaceProcessor.NamespaceStatsProcessor.RefreshRosterStats | internal/pkg/statprocessors/sp_namespaces.go:376-425 | Emits the roster sizes under the namespace read from the key. |
| NamespaceProcessor.NamespaceStatsProcessor.SetFlag | internal/pkg/statprocessors/sp_namespaces.go:364-373 | The flash flag is a latch. |
| NamespaceProcessor.NamespaceStatsProcessor.Refresh | internal/pkg/statprocessors/sp_namespaces.go:100-122 | Dispatches every key by its prefix; the new cache, the emissions and all that is learned are those of the keys in order. |
| InfoKeys.RoutesApart | internal/pkg/statprocessors/sp_namespaces.go:76-122 | Each kind of key reaches the handler it was built for. |
| InfoKeys.NameIsReadBack | internal/pkg/statprocessors/sp_namespaces.go:188-188 | The namespace is read back from its key exactly when the name does not hold "namespace/". |
| InfoKeys.RosterNameIsReadBack | internal/pkg/statprocessors/sp_namespaces.go:376-387 | A roster key gives back its namespace exactly when the name holds no "=". |
| InfoKeys.RosterNameIsCut | internal/pkg/statprocessors/sp_namespaces.go:376-387 | A witness: the roster of namespace "a=b" is labelled "a". |
| InfoKeys.RosterKeysOf | internal/pkg/statprocessors/sp_namespaces.go:76-88 | A roster key is among the keys exactly for a listed namespace that is known to be consistent. |
| NamespaceItems.RepliesAreLabelled | internal/pkg/statprocessors/sp_namespaces.go:185-425 | The reply to a stats or roster key is labelled with the namespace the key was built for, unless the name holds "namespace/" or "=". |
| NamespaceSends.ReplyGoesOut | internal/pkg/statprocessors/sp_namespaces.go:185-257 | For every reply, walk order and cache with named descriptors: there are exactly as many stats as convertible stats with a name; each has the number its text reads as, its own or constructed name, the labels cluster_name, service, ns, for array stats index and element, and the persistence label. |
| NamespaceSends.PlainStatIsSent | internal/pkg/statprocessors/sp_namespaces.go:185-257 | A reply k=v of one plain stat goes out as one stat named k, with the number that v reads as and the three labels. |
| NamespaceSends.ObjectsAreSent | internal/pkg/statprocessors/sp_namespaces.go:185-257 | A witness: objects=5 goes out as 5 under the name objects and the three labels. |
| NamespaceSends.PressureGoesOut | internal/pkg/statprocessors/sp_namespaces.go:125-182 | Of a piece ns:total:dirty, exactly the values that read as numbers go out: the first as total memory and the second as dirty memory, under the namespace of the piece. |
| NamespaceSends.RosterGoesOut | internal/pkg/statprocessors/sp_namespaces.go:376-425 | For each list of a roster reply its size goes out: 0 if empty or "null", else one more than it has commas. |
| NamespaceSends.FlashExactly | internal/pkg/statprocessors/sp_namespaces.go:224-240 | A reply shows flash exactly if it has a convertible index-type or sindex-type stat and says that this type holds "flash". |
| NamespaceSends.KeysBring | internal/pkg/statprocessors/sp_namespaces.go:100-122 | Which reply, separator, handler and name belong to each of the three kinds of keys. |
| NamespaceSends.RefreshIsFlat | internal/pkg/statprocessors/sp_namespaces.go:100-122 | A refresh sends what each key brings, one after the other, and nothing else. |
| NamespaceSends.PressureIsFlat | internal/pkg/statprocessors/sp_namespaces.go:125-182 | An index-pressure reply sends what its pieces give, one after the other, and nothing else. |
| InfoKeys.MapsExist | internal/pkg/statprocessors/sp_namespaces.go:76-88 | The writes into the nested benchmark maps never hit a missing map if and only if every listed name, stripped of "namespace/", has a map or is listed. |
| InfoKeys.NestedNameHasNoMap | internal/pkg/statprocessors/sp_namespaces.go:76-88 | A witness: with "namespace/a" as the only namespace the stats handler would write to the missing map of "a". |
| InfoKeys.CleanNamesAreSafe | internal/pkg/statprocessors/sp_namespaces.go:76-122 | For names free of "namespace/" every key routed to the stats handler names a listed namespace whose map exists. |
| SafeCycles.NoPanicExactly | internal/pkg/statprocessors/statsrefresh.go:63-165 | An answered cycle panics nowhere if and only if the listed names are covered, index pressure is well formed when due, every user agent can be taken apart, and no legacy latency section overruns its labels. |
| SafeCycles.MapsAreListed | internal/pkg/statprocessors/sp_namespaces.go:76-88 | After any run without a panic, exactly the namespaces that were ever listed have a benchmark map. |
| SafeCycles.SafetyIsHistory | internal/pkg/statprocessors/sp_namespaces.go:76-290 | Over all runs without a panic so far: the next answered cycle is safe exactly when every listed name, stripped of "namespace/", is listed now or was before, and the other processors are safe. |
| NodeProcessor.NodeStatsProcessor.PassTwoKeys | internal/pkg/statprocessors/sp_node_stats.go:39-62 | Service configuration, statistics, one key per log sink, and user agents for builds from 8.1.0.0. |
| NodeProcessor.NodeStatsProcessor.ParseLogSinkDetails | internal/pkg/statprocessors/sp_node_stats.go:64-80 | One log key per sink, and the sink count of this reply. |
| NodeProcessor.NodeStatsProcessor.HandleRefresh | internal/pkg/statprocessors/sp_node_stats.go:111-160 | Emits every convertible stat through the cache, and switches the service benchmarks independently of the map order. |
| NodeProcessor.NodeStatsProcessor.HandleLogSinkStats | internal/pkg/statprocessors/sp_node_stats.go:162-187 | The two log-level stats tell whether any counted sink is set to the level. |
| LogSinks.LevelsAreTold | internal/pkg/statprocessors/sp_node_stats.go:64-80 | For every list of sinks: the two stats tell the levels of the sinks in every reply to the keys asked for, if and only if every sink id is a numeral below the number of sinks (the keys read are at 166-178). |
| NodeProcessor.NodeStatsProcessor.HandleUserAgentsStats | internal/pkg/statprocessors/sp_node_stats.go:208-252 | Emits one stat for each decodable user agent, provided its entry has the "=" that the decoder indexes behind. |
| NodeProcessor.NodeStatsProcessor.Refresh | internal/pkg/statprocessors/sp_node_stats.go:85-109 | Configuration, statistics, log sinks and user agents, in this order, with the benchmarks learned from the first two. |
| NodeProcessor.AgentDecodes | internal/pkg/statprocessors/sp_node_stats.go:254-288 | A user-agent entry as the server prints it is decoded to version, application and count; missing fields read "unknown". |
| NodeProcessor.ItemsCoherent | internal/pkg/statprocessors/sp_node_stats.go:111-288 | Every item of a refresh builds the descriptor that belongs to its cache key: stat names hold no "=", user-agent keys do. |
| NodeSends.NodeIsAsked | internal/pkg/statprocessors/sp_node_stats.go:39-80 | Exactly what is asked for: configuration, statistics, one log key per sink, and user agents from build 8.1.0.0; and no key is left out. |
| NodeSends.ReplyGoesOut | internal/pkg/statprocessors/sp_node_stats.go:111-136 | For every configuration or statistics reply: exactly one stat for each convertible stat, with its name, the number its text reads as, its flag and the identity labels. |
| NodeSends.LevelsGoOut | internal/pkg/statprocessors/sp_node_stats.go:162-206 | Two stats tell whether a counted sink is set to DEBUG and to DETAIL, as 1 or 0. |
| NodeSends.AgentGoesOut | internal/pkg/statprocessors/sp_node_stats.go:208-288 | A printed user-agent entry goes out with its version, application and count. |
| NodeSends.AgentIsSkipped | internal/pkg/statprocessors/sp_node_stats.go:208-288 | An entry that does not decode, or whose count is no number, sends nothing. |
| NodeSends.RefreshIsFlat | internal/pkg/statprocessors/sp_node_stats.go:85-109 | A refresh sends configuration, statistics, log levels and one part per user agent, in this order, and nothing else. |
| StatLoop.EmitStats | internal/pkg/statprocessors/sp_xdr.go:111-147 | The stat loop over one reply fills the cache and sends what its items say, in the order the map was walked. |
| StatLoop.PrefixTransparent | internal/pkg/statprocessors/sp_xdr.go:117-130 | Over any history of emissions, what is sent is what was meant exactly when the stat was first seen under the same prefix. |
| LoopSends.ReplyGoesOut | internal/pkg/statprocessors/sp_xdr.go:111-147 | For every reply of the shared loop, walk order and cache: exactly one stat for each convertible stat, with the number its text reads as and the labels of the reply; name and flag are those of the reply whenever the emission is the uncached one. |
| LoopSends.RefreshIsFlat | internal/pkg/statprocessors/sp_xdr.go:66-81 | A refresh sends what each reply gives, one after the other, and nothing else. |
| LoopSends.SetIs | internal/pkg/statprocessors/sp_sets.go:39-74 | Set n of a reply carries the namespace and set that its text names. |
| SetsProcessor.SetsStatsProcessor.Refresh | internal/pkg/statprocessors/sp_sets.go:39-74 | One emission per convertible stat of every set in the reply. |
| SindexProcessor.SindexStatsProcessor.PassTwoKeys | internal/pkg/statprocessors/sp_sindex.go:40-73 | One key per listed index that names a namespace; none when switched off. |
| SindexProcessor.SindexStatsProcessor.Refresh | internal/pkg/statprocessors/sp_sindex.go:75-117 | One emission per convertible stat of every index key; nothing when switched off. |
| SindexProcessor.DecodeUndoesBuild | internal/pkg/statprocessors/sp_sindex.go:62-130 | Decoding a built key gives back namespace and index exactly when neither name holds "=". |
| SindexProcessor.NamesAreCut | internal/pkg/statprocessors/sp_sindex.go:119-130 | A witness: index "i" of namespace "a=b" is labelled with namespace "a". |
| SindexProcessor.ReplyIsLabelled | internal/pkg/statprocessors/sp_sindex.go:87-110 | The reply to a key is labelled with the namespace and index it was built for, exactly when neither holds "=". |
| SindexProcessor.PassTwoDecodes | internal/pkg/statprocessors/sp_sindex.go:119-130 | No key built from any reply makes the decoder index out of range. |
| LoopSends.IndexesAreAsked | internal/pkg/statprocessors/sp_sindex.go:40-73 | Exactly the entries of the index list that name a namespace are asked for, each once, unless switched off. |
| LoopSends.EntryIsDecoded | internal/pkg/statprocessors/sp_sindex.go:62-130 | An entry ns=a:indexname=b gives a key that is decoded to a and b exactly when neither holds "=". |
| LoopSends.IndexIs | internal/pkg/statprocessors/sp_sindex.go:75-117 | The reply to a key carries the names that the key is decoded to. |
| XdrProcessor.XdrStatsProcessor.PassTwoKeys | internal/pkg/statprocessors/sp_xdr.go:35-63 | Two keys per data centre and two per data centre and namespace, none for an empty name. |
| XdrProcessor.XdrStatsProcessor.Refresh | internal/pkg/statprocessors/sp_xdr.go:66-81 | The emissions of all keys in order, named with the prefix that each key decodes to. |
| XdrProcessor.DecodeUndoesBuild | internal/pkg/statprocessors/sp_xdr.go:85-109 | A key built at any of the four levels is decoded to the data centre, namespace and prefix it was built from. |
| XdrProcessor.PassTwoDecodes | internal/pkg/statprocessors/sp_xdr.go:35-109 | For every pass-one reply, each key asked for was built at some level and is decoded to just that. |
| LoopSends.XdrIsAsked | internal/pkg/statprocessors/sp_xdr.go:35-63 | For every first reply, as texts: exactly the keys at all four levels of every named data centre and every listed namespace are asked for, and none is left out. |
| LoopSends.XdrReplyIs | internal/pkg/statprocessors/sp_xdr.go:85-147 | The reply to a key carries the data centre, namespace and prefix that the key is decoded to. |
| XdrProcessor.ReplyIsLabelled | internal/pkg/statprocessors/sp_xdr.go:111-143 | The reply to a key carries the prefix, data centre and namespace that the key was built from. |
| XdrProcessor.NamespaceStatMisnamed | internal/pkg/statprocessors/sp_xdr.go:66-147 | A witness, from the keys of one data centre with one namespace and a reply lag=value to both stats keys: the lag of the namespace goes out under the name of the data centre. |
| StatsRefresher.StatsRefresher.PassTwo | internal/pkg/statprocessors/statsrefresh.go:93-114 | Every processor makes its keys from the pass-one reply; the shared state changes just as Prepared says. |
| StatsRefresher.StatsRefresher.Sanitize | internal/pkg/statprocessors/statsrefresh.go:134-137 | The loop that rewrites the reply sanitizes every value once, in any order. |
| StatsRefresher.StatsRefresher.Refresh | internal/pkg/statprocessors/statsrefresh.go:63-165 | The whole cycle against an arbitrary server: new state, result and requests are those of the transition system, and each processor gets exactly the keys it asked for. |
| StatsRefresher.SafetyReaches | internal/pkg/statprocessors/statsrefresh.go:139-149 | What the safety of a cycle means for each processor: no handler can panic on its keys. |
| WholeCycle.FirstRequest | internal/pkg/statprocessors/statsrefresh.go:72-88 | The first request holds exactly the five metadata keys, the index list only if secondary indexes are on. |
| WholeCycle.FirstSuffices | internal/pkg/statprocessors/statsrefresh.go:93-114 | It asks for all that the second request depends on: first answers that agree on these keys lead to the same second request. |
| WholeCycle.AllAreRequested | internal/pkg/statprocessors/statsrefresh.go:103-121 | The second request holds the four identity keys and the keys of all six processors, each as often as its processor asks for it, and nothing else. |
| WholeCycle.RequestsExactly | internal/pkg/statprocessors/statsrefresh.go:93-121 | For every state and first answer, key by key and as texts: exactly what the second request holds, across all processors. |
| WholeCycle.FourXdrKeys | internal/pkg/statprocessors/statsrefresh.go:103-121 | A witness: with data centre dc1 and namespace test all four XDR keys are in the second request. |
| CycleResults.IdentityIsRead | internal/pkg/statprocessors/statsrefresh.go:123-132 | Cluster name, service, build and node id are taken from the second answer as it came, the service from the TLS key once certificates have loaded, or from the pod name. |
| CycleResults.ServiceKeyIsHistory | internal/pkg/statprocessors/statsrefresh.go:90-101 | Over all runs: the service is asked for in the clear until certificates have loaded in an answered cycle, and under the TLS key from then on. |
| CycleResults.ReplyIsSanitized | internal/pkg/statprocessors/statsrefresh.go:134-137 | The processors see the same keys, with every value sanitized. |
| CycleResults.ResultIsMade | internal/pkg/statprocessors/statsrefresh.go:139-165 | The result of a cycle, exactly: the stats of the six processors, each for its own keys and out of the same sanitized answer, and the user statistics behind them; nothing left out, nothing added. |
| CycleResults.NamespaceCacheIsNamed | internal/pkg/statprocessors/sp_namespaces.go:244-252 | After any run every descriptor in the namespace cache is named and typed like its key. |
| CycleResults.NamespaceReplyIsSent | internal/pkg/statprocessors/statsrefresh.go:139-149 | End to end over all runs: the result of a cycle holds in one piece, for each listed namespace, one stat for each convertible stat with a name, telling what the answer says. |
| Runs.StepLearns | internal/pkg/statprocessors/sp_namespaces.go:185-290 | A cycle teaches exactly the replies to its namespaces; rosters, index pressure and empty maps teach nothing. |
| Runs.KnowledgeIsHistory | internal/pkg/statprocessors/sp_namespaces.go:69-290 | After any run, what the namespace processor knows is what the replies of the server so far have taught, whatever the map orders. |
| Runs.BenchmarksAreHistory | internal/pkg/statprocessors/sp_namespaces.go:259-280 | After any run, a namespace's benchmarks hold a histogram stat exactly when the latest reply giving it a convertible value gave 1, re-repl from its first reply onwards, and nothing else. |
| Runs.FlagsAreHistory | internal/pkg/statprocessors/sp_namespaces.go:224-287 | After any run, consistency is what the latest reply carrying it said, and the flash latch is set exactly when some reply showed flash. |
| RequestHistory.RosterIsGated | internal/pkg/statprocessors/sp_namespaces.go:76-88 | A cycle asks for a roster exactly when its pass-one reply lists the namespace and the latest earlier reply carrying strong-consistency said true. |
| RequestHistory.NoRosterAtFirst | internal/pkg/statprocessors/sp_namespaces.go:76-88 | Hence never in the first cycle. |
| RequestHistory.LatencyRequest | internal/pkg/statprocessors/sp_latency.go:52-76 | A cycle asks for "latencies:" and exactly one command per namespace or service entry standing at the end of the cycle before. |
| RequestHistory.LatencyEntriesAreHistory | internal/pkg/statprocessors/sp_latency.go:61-66 | The namespace entries of that request are those that history says are on, and re-repl. |
| RequestHistory.ServiceBenchmarksAreHistory | internal/pkg/statprocessors/sp_node_stats.go:137-156 | After any run, the service benchmarks hold a stat exactly when the latest service reply giving it a convertible value gave 1. |
| RequestHistory.PressureIsRateLimited | internal/pkg/statprocessors/sp_namespaces.go:350-361 | With a clock that never runs backwards: the N-th index-pressure request comes at least N times ten minutes after the start, and any two are that far apart. |
| RequestHistory.AskedPressureIsRequested | internal/pkg/statprocessors/sp_namespaces.go:90-93 | The key is in the request exactly when the interval check says so. |
| RequestHistory.PressureFollowsFlash | internal/pkg/statprocessors/sp_namespaces.go:350-373 | No index-pressure request precedes a reply whose index type holds "flash". |
| RequestHistory.FlashIsLatched | internal/pkg/statprocessors/sp_namespaces.go:364-373 | The flash flag never resets, over any run. |
| CacheRuns.CachesAreTrace | internal/pkg/statprocessors/sp_xdr.go:111-147 | After any run, each cache is what the items of all cycles so far fill it with. |
| CacheRuns.XdrNameIsFirstSeen | internal/pkg/statprocessors/sp_xdr.go:117-130 | Over all runs: an XDR emission is what its level means exactly when the first emission ever of the stat had the same prefix. |
| CacheRuns.AllowFlagIsFirstSeen | internal/pkg/statprocessors/sp_namespaces.go:215-257 | Over all runs: a namespace emission is the uncached one exactly when the first raw stat ever seen under its constructed name had the same allow flag. |
| FlagOrder.OrderDecidesFlag | internal/pkg/statprocessors/sp_namespaces.go:185-257 | For every reply and cache: the order in which the reply is walked has no influence on the cache if and only if no two of its stats that bring one name, not yet cached, differ in their allow flag. |
| FlagOrder.OrdersDecideFlags | internal/pkg/statprocessors/sp_namespaces.go:100-257 | The same for all replies of a refresh: exactly when, for every name not yet cached, the first reply that brings it does not disagree about its flag. |
| FlagOrder.CycleOrdersDecide | internal/pkg/statprocessors/statsrefresh.go:63-165 | For every state and cycle: map orders have no influence on the next state if and only if the namespace replies of the cycle settle every new name in this sense. |
| FlagOrder.RunOrdersDecide | internal/pkg/statprocessors/statsrefresh.go:63-165 | Over all runs: map orders have no influence on the state after a run if and only if every cycle of it is settled. |
| FlagOrder.FileAgesCollide | internal/pkg/statprocessors/sp_namespaces.go:215-257 | A witness: storage-engine.file[0].age and storage-engine.file[1].age, one allowed and one blocked, leave different caches in the two orders. |
| CacheRuns.CachesAreCoherent | internal/pkg/statprocessors/sp_node_stats.go:122-135 | Over all runs: every entry of the node, set and secondary-index caches is the freshly built descriptor of its key. |
| CacheRuns.CachesAreTransparent | internal/pkg/statprocessors/sp_node_stats.go:122-135 | Hence everything these three processors emit is what they would emit without a cache. |
| CycleLaws.CycleStatsLabelled | internal/pkg/statprocessors/statsrefresh.go:123-149 | Every stat of a cycle pairs labels and values, and carries first the cluster name and service that this cycle read. |
| CycleLaws.OutcomePaired | internal/pkg/statprocessors/aerospike_stat.go:54-59 | Every stat that a cycle returns has as many label values as labels. |
| CycleLaws.FailedCycleFrame | internal/pkg/statprocessors/statsrefresh.go:84-121 | A cycle failing in its first request changes nothing; one failing in its second changes only the pressure time, the sink count, the service key, and adds empty benchmark maps. |
| CycleLaws.AnswersAloneTeach | internal/pkg/statprocessors/statsrefresh.go:63-165 | Two runs with the same answered replies know the same: failed cycles in between, clocks, certificates and map orders leave no trace in it. |
| MapOrder.CacheIgnoresOrder | internal/pkg/statprocessors/sp_xdr.go:111-147 | The set, index and XDR caches do not depend on the order in which replies are walked. |
| MapOrder.NodeCacheIgnoresOrder | internal/pkg/statprocessors/sp_node_stats.go:111-160 | Nor does the node cache. |
| MapOrder.OrderLeavesNoTrace | internal/pkg/statprocessors/statsrefresh.go:63-165 | Over all runs: two runs that meet the same replies and readings in different map orders end in states that are the same but for allow flags in the namespace cache. |
| MapOrder.RequestsPermute | internal/pkg/statprocessors/statsrefresh.go:93-121 | From two such states, cycles that differ only in map orders ask for the same keys, each as often. |
| MapOrder.CyclesAlike | internal/pkg/statprocessors/statsrefresh.go:63-165 | They lead to two such states again, fail alike, and return the same stats, each as often, up to the allow flags of namespace stats. |
| MapOrder.RunsPermute | internal/pkg/statprocessors/statsrefresh.go:63-165 | Hence every cycle of two such runs makes the same requests and returns the same stats up to order and allow flags, and fails in both or in neither. |
| MapOrder.NamedPermute | internal/pkg/statprocessors/sp_namespaces.go:215-257 | Items of the namespace processor sent in another order, from caches that differ only in flags, are the same stats up to the flag: the constructed name decides everything else that is cached. |
| OtelExecutor.OtelExecutor.ConstructMetricKey | internal/pkg/executors/otel_metrics.go:110-122 | The builder loop yields the flattened key of name and labels. |
| MetricKeys.EveryKeyIsRead | internal/pkg/executors/otel_metrics.go:110-122 | Every text is the key of a clean series: no "=" behind a "&#124;" in name and values, neither in label keys. |
| MetricKeys.ReadBackExactly | internal/pkg/executors/otel_metrics.go:110-122 | A series is read back from its key if and only if it is clean. |
| MetricKeys.KeyIsInjective | internal/pkg/executors/otel_metrics.go:110-122 | Clean series share a key only if they are equal. |
| MetricKeys.CleanExactly | internal/pkg/executors/otel_metrics.go:110-122 | Exactly, for all series: a series is clean if and only if it is the only clean one with its key, so every other series collides with a clean one. |
| MetricKeys.SettledExactly | internal/pkg/executors/otel_metrics.go:110-122 | Exactly, among series of one name with the same label keys (free of "&#124;"): those in which no value holds the mark "&#124;key=" of the label behind it never collide, and every other one collides with one of them. |
| MetricKeys.PipesCollide | internal/pkg/executors/otel_metrics.go:110-122 | A family of collisions: behind any series, any two label keys have values with "&#124;" and "=" that make two different series share a key. |
| OtelExecutor.OtelExecutor.GetGaugeMetric | internal/pkg/executors/otel_metrics.go:124-165 | Returns the gauge under the key, or creates it with value 0 and exactly one gated callback. |
| OtelExecutor.OtelExecutor.GetCounterMetric | internal/pkg/executors/otel_metrics.go:167-209 | The same for counters. |
| OtelExecutor.OtelExecutor.GetNodeUpGaugeMetric | internal/pkg/executors/otel_metrics.go:212-250 | The same for the node status, whose callback is not gated. |
| OtelExecutor.OtelExecutor.Store | internal/pkg/executors/otel_metrics.go:86-102 | Storing into a metric changes the value of its own series and no other: metrics are never shared. |
| OtelExecutor.OtelExecutor.SendNodeUp | internal/pkg/executors/otel_metrics.go:21-29 | Updates the node-status series. |
| OtelExecutor.OtelExecutor.ProcessAndPushStats | internal/pkg/executors/otel_metrics.go:44-108 | The loop applies one update per stat: qualified name, renamed and common labels, kind by configuration, value truncated towards zero. |
| PushedValues.StatsArePushed | internal/pkg/executors/otel_metrics.go:44-108 | For any list of stats there is one update for each, in order: its qualified and normalized name, its labels renamed with the common ones behind, gauge exactly if it is one or all are to be, and its value without the fraction. |
| PushedValues.LastStatIsReported | internal/pkg/executors/otel_metrics.go:86-157 | After any history of pushes to series that share no key, a collection reports for the last stat of a series exactly the whole number towards zero from its value. |
| PushedValues.WholeOf | internal/pkg/executors/otel_metrics.go:86-101 | A witness: 7 is what is stored for 7.9, and -7 for -7.9. |
| OtelIndex.CallbacksMatchInstruments | internal/pkg/executors/otel_metrics.go:148-163 | After any updates: as many callbacks as gauges and counters together, and no two for one key. |
| OtelIndex.SlotIsLast | internal/pkg/executors/otel_metrics.go:86-102 | For all updates: the value kept under a key is that of the last update under this key. |
| OtelIndex.ValueIsLast | internal/pkg/executors/otel_metrics.go:86-102 | For every set of series: after every history of updates of them the keyed index holds for each the value of its last update, if and only if no two of them share a key. |
| OtelIndex.SeriesStandAlone | internal/pkg/executors/otel_metrics.go:86-122 | Among series that share no key, what is stored and registered under the key of a series is its own last value and its own registration. |
| OtelIndex.CleanApart | internal/pkg/executors/otel_metrics.go:110-122 | The clean series are such a set. |
| OtelIndex.HooksAreFirst | internal/pkg/executors/otel_metrics.go:133-164 | For all updates: what is registered under a key is what the first update under it asked for, and nothing else is registered. |
| OtelIndex.ObservedExactly | internal/pkg/executors/otel_metrics.go:149-157 | For all updates: a collection reports under each key the series that came first there with the value that came last, exactly when its callback speaks. |
| OtelIndex.HeardIsLast | internal/pkg/executors/otel_metrics.go:149-157 | Among series that share no key that is the last value of the series itself. |
| OtelIndex.ReportsAreLast | internal/pkg/executors/otel_metrics.go:149-157 | For every set of series: after every history of updates of them a collection reports exactly the last value of each, if and only if no two of them share a key. |
| OtelIndex.ObservedOnce | internal/pkg/executors/otel_metrics.go:149-157 | A collection reports no key twice. |
| OtelExecutor.OtelExecutor.Collect | internal/pkg/executors/otel_metrics.go:149-157 | The callbacks read the stored values: a collection is an observation of the index. |
| OtelExecutor.NodeUpApart | internal/pkg/executors/otel_metrics.go:53-59 | No stat of any context is named like the node status. |
| OtelExecutor.CollectedExactly | internal/pkg/executors/otel_metrics.go:149-241 | For all updates by stats and node status: a report is made exactly while the server is connected, and for the node status also while it is not. |
| OtelExecutor.OtelExecutor.HandleAerospikeMetrics | internal/pkg/executors/otel_executor.go:259-299 | Node status, refresh counter and stats of one refresh; the counter follows the record of successes and failures. |
| OtelExecutor.OtelExecutor.HandleSystemInfoMetrics | internal/pkg/executors/otel_executor.go:301-311 | The system-info stats of one tick are pushed in order; an error pushes nothing. |
| PushedValues.CycleIsPushed | internal/pkg/executors/otel_executor.go:259-299 | For a cycle: the node status, 1 or 0, under the common labels and the identity as far as it is known, and if the cycle did not fail one update for each of its stats. |
| PushedValues.TickIsPushed | internal/pkg/executors/otel_executor.go:259-311 | Over all runs: every tick adds the push of its cycle and one update for each system-info stat, in this order, and nothing else. |
| OtelExecutor.OtelExecutor.Export | internal/pkg/executors/otel_executor.go:62-72 | An export is forwarded exactly when the server is disconnected or the last three recorded refreshes succeeded. |
| ExportGate.CounterTells | internal/pkg/executors/otel_executor.go:271-293 | Over every interleaving of refreshes and exports: the counter has reached n exactly when the last n recorded refreshes succeeded. |
| ExportGate.ForwardedAfterThree | internal/pkg/executors/otel_executor.go:62-72 | Forwarded exactly when disconnected or after three successes in a row. |
| OtelRuns.RunIsCollected | internal/pkg/executors/otel_executor.go:259-311 | End to end over any run of scrape cycles with their system-info pushes: a collection reports under each key the first pushed series with the last pushed value, while connected or for the node status. |
| OtelRuns.UnsharedRunIsCollected | internal/pkg/executors/otel_executor.go:259-311 | When no two pushed series share a key, a collection after the run reports exactly the last pushed value of each series. |
| PushOrder.BlockedIsPushed | internal/pkg/executors/otel_metrics.go:44-108 | Every stat is pushed, blocked or not: the allow flag has no influence on its update. |
| PushOrder.PushesPermute | internal/pkg/executors/otel_executor.go:259-311 | Over all runs: two runs that differ only in map orders push the same updates, each as often; the flag exception disappears. |
| OtelRuns.AgentsCollide | internal/pkg/statprocessors/sp_node_stats.go:208-288 | A witness: two user-agent entries whose version and application hold "&#124;" are sent as two series and share one key. |
| OtelRuns.NodeUpTells | internal/pkg/executors/otel_executor.go:271-290 | The node status pushed for a cycle is 1 exactly when the cycle succeeded, and a failed cycle pushes nothing else. |
| OtelRuns.ForwardedRun | internal/pkg/executors/otel_executor.go:62-72 | Right after a cycle, an export reaches the endpoint of a connected server only if this cycle and the two before it succeeded. |
| ShmKey.FieldsMakeKey | internal/pkg/dataprovider/host_sysinfo_utils.go:180-206 | For every int64 key: prefix * 2^24 + instance * 2^20 + namespace * 2^12 + suffix is the key modulo 2^32. |
| ShmKey.KeyMakesFields | internal/pkg/dataprovider/host_sysinfo_utils.go:180-206 | Any fields within their widths are those of exactly the keys with these low 32 bits. |
| ShmKey.DecodedReadsBack | internal/pkg/dataprovider/host_sysinfo_utils.go:198-205 | Reading the decoded strings back yields the low 32 bits, and the hex key the whole unsigned key. |
| ShmKey.DecodeIsInjective | internal/pkg/dataprovider/host_sysinfo_utils.go:180-206 | No two keys decode to the same strings. |
| ShmKey.SegmentHasType | internal/pkg/dataprovider/host_sysinfo_utils.go:83-90 | A key is an Aerospike segment exactly when its decoded type is not "other". |
| ShmKey.TypeIsTold | internal/pkg/dataprovider/host_sysinfo_utils.go:83-90 | The top byte of the low 32 bits tells the type: 0xae, 0xa2 and 0xad are primary index, secondary index and data, and exactly these are Aerospike segments. |
| ShmKey.Widths | internal/pkg/dataprovider/host_sysinfo_utils.go:198-205 | The hex key has at least eight digits and the prefix two, behind "0x". |

## Left out

- LatencyParser.LatencyInfoParser.Expect: takes a non-empty text, because all callers pass one byte; the buffer size of bufio.Reader, which could split a longer text, is not modelled.
- LatencyParser.ParseLatencyInfoLegacy: what Go prints or recovers after the panic is not modelled, only that it happens.
- EndOfInput.LastByte: assumes that strconv.ParseFloat rejects the empty string; so do LastByteIsIgnored and LastByteOfReply.
- NamespaceProcessor.NamespaceStatsProcessor.RefreshIndexPressure: replies with more than three convertible fields per namespace make Go index out of range; they are excluded by the precondition.
- StatsRefresher.StatsRefresher.Refresh: cycles in which a processor would panic are excluded by NoPanic, which is stated on the replies.
- CycleLaws.OutcomePaired: the user statistics are taken to pair their labels, because the code that builds them is not part of this model.
- OtelRuns.ForwardedRun: the asynchronous export is placed right after a cycle; ExportGate.CounterTells covers every other placement.
- ParseFloat, ParseBool, glob matching, version comparison, the array-stat pattern, base64, TrimSpace and UTF-8 sanitizing are uninterpreted functions, the same for a whole run.
- Values are real numbers: IEEE rounding, NaN, infinities, and float-to-int64 conversion outside the int64 range are not modelled.
- Go strings are sequences of characters that stand for bytes; UTF-8 decoding is not modelled.
- User statistics and host system information are inputs, not modelled processors: the same patterns with less state.
- The network connection, login, TLS, retries and certificate loading: a provider gives an arbitrary reply or an error.
- The Prometheus listener, HTTP, authentication, signals, secrets, cloud metadata and reading /proc: input and output.
- Configuration loading and validation: the configuration is constant after start.
- The OpenTelemetry SDK: creating an instrument and registering a callback always succeed, and an export is the decision to forward.
- Appending to the shared slice of common labels builds a new sequence here; Go may reuse spare capacity of the slice.
- The order in which the configured common labels are walked: any sequence of common labels is allowed, the same for a whole run.
- The goroutine and ticker around the executor: refreshes and exports are steps in any order.
- Log output.
