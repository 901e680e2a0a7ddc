/** The shape of latency histograms, from the text of a reply to the series that go out. */
module HistogramShapes {
  import opened Text
  import opened Numerals
  import opened AerospikeStat
  import opened LatencyParser
  import opened LatencyLaws
  import opened LatencyProcessor

  // ----- Values as the server means them -----

  /** Fields that read as numbers behind the first are percentages, and no later one is larger. */
  predicate Percentages(lib: Library, fields: seq<string>)
  {
    && (forall i | 1 <= i < |fields|
        && lib.parseFloat(fields[i]).Some? :: 0.0 <= lib.parseFloat(fields[i]).value <= 100.0)
    && (forall i, j | 1 <= i < j < |fields| && lib.parseFloat(fields[i]).Some? && lib.parseFloat(fields[j]).Some? ::
          lib.parseFloat(fields[j]).value <= lib.parseFloat(fields[i]).value)
  }

  /** A total that is not negative, and falling percentages. */
  predicate Proper(lib: Library, fields: seq<string>)
  {
    |fields| >= 1 && Percentages(lib, fields)
      && (lib.parseFloat(fields[0]).Some? ==> lib.parseFloat(fields[0]).value >= 0.0)
  }

  lemma Product(a: real, b: real)
    requires a >= 0.0 && b >= 0.0
    ensures a * b >= 0.0
  {
  }

  lemma BelowBounds(total: real, p: real)
    requires total >= 0.0 && 0.0 <= p <= 100.0
    ensures 0.0 <= Below(total, p) <= total
  {
    Product(p, total);
    Product(100.0 - p, total);
    assert (100.0 - p) * total == 100.0 * total - p * total;
  }

  lemma BelowMonotone(total: real, p: real, q: real)
    requires total >= 0.0 && q <= p
    ensures Below(total, p) <= Below(total, q)
  {
    Product(p - q, total);
    assert (p - q) * total == p * total - q * total;
  }

  // ----- The shape of what is parsed -----

  /** Behind "+Inf" the buckets do not fall, lie between 0 and the total, and carry increasing powers of two, as far
      as a 64-bit shift can make them. */
  ghost predicate Shaped(h: Histogram)
  {
    && |h.bucketLabels| == |h.bucketValues| >= 1 && h.bucketLabels[0] == "+Inf" && h.bucketValues[0] >= 0.0
    && (forall j, k | 1 <= j <= k < |h.bucketValues| ::
          0.0 <= h.bucketValues[j] <= h.bucketValues[k] <= h.bucketValues[0])
    && (forall j | 1 <= j < |h.bucketLabels| && j <= 63 :: h.bucketLabels[j] == Itoa(Pow2(j - 1)))
  }

  /** The labels of different buckets differ, as numbers and as texts. */
  lemma LabelsGrow(j: nat, k: nat)
    requires j < k
    ensures Pow2(j) < Pow2(k) && Itoa(Pow2(j)) != Itoa(Pow2(k))
  {
    hide Itoa;
    Pow2Grows(j, k);
    if Itoa(Pow2(j)) == Itoa(Pow2(k)) {
      ItoaInjective(Pow2(j), Pow2(k));
    }
  }

  lemma BucketsAreShaped(lib: Library, fields: seq<string>, total: real, limit: nat, j: nat, k: nat)
    requires total >= 0.0 && Percentages(lib, fields)
    requires var bs := BucketsFrom(lib, fields, Powers, total, limit, 1); bs.Some? && j <= k < |bs.value.values|
    ensures var bs := BucketsFrom(lib, fields, Powers, total, limit, 1).value;
            && |bs.labels| == |bs.values| && 0.0 <= bs.values[j] <= bs.values[k] <= total
            && (k < 63 ==> bs.labels[k] == Itoa(Pow2(k)))
  {
    hide Below, BucketsFrom, Itoa;
    SameLengths(lib, fields, Powers, total, limit, 1);
    PowerBucketAt(lib, fields, total, limit, 1, j);
    PowerBucketAt(lib, fields, total, limit, 1, k);
    var p, q := Number(lib, fields[1 + j]), Number(lib, fields[1 + k]);
    BelowBounds(total, p);
    BelowBounds(total, q);
    BelowMonotone(total, p, q);
  }

  /** Any values text with proper fields is read as a histogram of this shape, whatever its length and the limit. */
  lemma SectionIsShaped(lib: Library, values: Read, limit: nat, timeUnit: string)
    requires Proper(lib, Split(values.text, ',')) && Build(lib, values, Powers, limit, timeUnit).Found?
    ensures Shaped(Build(lib, values, Powers, limit, timeUnit).histogram)
  {
    var h := Build(lib, values, Powers, limit, timeUnit).histogram;
    var fields := Split(values.text, ',');
    hide BucketsFrom, Split, Percentages, Itoa, Pow2;
    var total := lib.parseFloat(fields[0]).value;
    var bs := BucketsFrom(lib, fields, Powers, total, limit, 1).value;
    SameLengths(lib, fields, Powers, total, limit, 1);
    assert h.bucketLabels == ["+Inf"] + bs.labels && h.bucketValues == [total] + bs.values;
    forall j, k | 1 <= j <= k < |h.bucketValues|
      ensures 0.0 <= h.bucketValues[j] <= h.bucketValues[k] <= h.bucketValues[0]
    {
      BucketsAreShaped(lib, fields, total, limit, j - 1, k - 1);
    }
    forall j | 1 <= j < |h.bucketLabels| && j <= 63
      ensures h.bucketLabels[j] == Itoa(Pow2(j - 1))
    {
      BucketsAreShaped(lib, fields, total, limit, j - 1, j - 1);
    }
  }

  ghost predicate ProperReply(lib: Library, ps: seq<Printed>)
  {
    AllPrinted(Current, lib, ps) && forall k | 0 <= k < |ps| && ps[k].Filled() :: Proper(lib, ps[k].values)
  }

  lemma NumeralsAreShaped(lib: Library, start: Start, values: seq<string>, limit: nat)
    requires WellStarted(Current, start) && |values| >= 1 && AllNumeric(lib, values) && Proper(lib, values)
    ensures LabelsFit(LabellingOf(start), |values|, limit) && Shaped(HistogramOf(lib, start, values, limit))
  {
    BuildNumerals(lib, values, start, limit, "");
    assert forall k | 0 <= k < |values| :: Numeric(lib, values[k]);
    SplitOfJoin(values, ',');
    hide Shaped, HistogramOf, Build, Split, Join, Proper;
    SectionIsShaped(lib, Read(Join(values, ','), false, ""), limit, UnitOf(start));
  }

  lemma {:induction false} LastSectionIsShaped(lib: Library, ps: seq<Printed>, limit: nat, ns: string, op: string)
    requires ProperReply(lib, ps) && AllFit(ps, limit)
    ensures var h := LastSection(Current, lib, ps, limit, ns, op); h.Some? ==> Shaped(h.value)
  {
    hide Shaped, HistogramOf, WellNamed, Proper, Fits, WellStarted;
    if ps != [] {
      var last := ps[|ps| - 1];
      assert WellPrinted(Current, lib, last);
      LastSectionIsShaped(lib, ps[..|ps| - 1], limit, ns, op);
      if Feeds(last, ns, op) {
        NumeralsAreShaped(lib, last.start, last.values, limit);
      }
    }
  }

  /** Every histogram that parsing a printed reply yields has the shape. */
  lemma ReplyIsShaped(lib: Library, ps: seq<Printed>, limit: nat, ns: string, op: string)
    requires ProperReply(lib, ps)
    ensures Parse(Current, lib, PrintAll(ps), limit, map[]).Some?
    ensures var h := Lookup(Parse(Current, lib, PrintAll(ps), limit, map[]).value, ns, op);
            h.Some? ==> Shaped(h.value)
  {
    CurrentFits(lib, ps, limit);
    hide Shaped, Parse, PrintAll, EffectAll, LastSection, Lookup, AllPrinted, AllFit, Proper;
    RoundTrip(Current, lib, ps, limit);
    LastSectionWins(Current, lib, ps, limit, ns, op);
    LastSectionIsShaped(lib, ps, limit, ns, op);
  }

  // ----- The shape of what goes out -----

  /** The stats of one operation: the "+Inf" bucket, the count equal to it, and buckets at increasing powers of two
      whose values do not fall and lie between 0 and the count. */
  ghost predicate IsSeries(stats: seq<Stat>, prefix: string)
  {
    && |stats| >= 2
    && stats[0].name == prefix + "_bucket" && Boundary(stats[0]) == "+Inf"
    && stats[1].name == prefix + "_count" && stats[1].value == stats[0].value
    && (forall i | 2 <= i < |stats| ::
          stats[i].name == prefix + "_bucket" && (i <= 64 ==> Boundary(stats[i]) == Itoa(Pow2(i - 2))))
    && (forall i, j | 2 <= i <= j < |stats| :: 0.0 <= stats[i].value <= stats[j].value <= stats[1].value)
  }

  lemma SaidIsSeries(group: seq<Stat>, h: Histogram, prefix: string, bucket: string, count: string)
    requires Shaped(h) && |group| == |h.bucketLabels| + 1 && bucket == prefix + "_bucket" && count == prefix + "_count"
    requires forall i | 0 <= i < |h.bucketLabels| :: Says(group[if i == 0 then 0 else i + 1], bucket, h.bucketLabels[i],
                                                          h.bucketValues[i])
    requires group[1].name == count && group[1].value == group[0].value
    ensures IsSeries(group, prefix)
  {
    hide Itoa, Pow2, Boundary;
    assert Says(group[0], bucket, h.bucketLabels[0], h.bucketValues[0]);
    forall i | 2 <= i < |group|
      ensures Says(group[i], bucket, h.bucketLabels[i - 1], h.bucketValues[i - 1])
    {
      assert Says(group[if i - 1 == 0 then 0 else i], bucket, h.bucketLabels[i - 1], h.bucketValues[i - 1]);
    }
  }

  lemma GroupIsSeries(env: Env, ids: Ids, ns: string, op: string, h: Histogram)
    requires Balanced(h) && Shaped(h)
    ensures IsSeries(Group(env, ids, ns, op, h, |h.bucketLabels|), op + "_" + h.timeUnit)
  {
    hide *;
    var group, prefix := Group(env, ids, ns, op, h, |h.bucketLabels|), op + "_" + h.timeUnit;
    SameSize(h);
    OneCountPerGroup(env, ids, ns, op, h);
    forall i | 0 <= i < |h.bucketLabels|
      ensures Says(group[if i == 0 then 0 else i + 1], prefix + "_bucket", h.bucketLabels[i], h.bucketValues[i])
    {
      BucketsAreSent(env, ids, ns, op, h, i);
    }
    SaidIsSeries(group, h, prefix, prefix + "_bucket", prefix + "_count");
  }

  lemma SameSize(h: Histogram)
    requires Balanced(h)
    ensures |h.bucketLabels| == |h.bucketValues| >= 1
  {
  }

  /** A latency stat is a gauge, and its labels are the identity of the node, the boundary if it is a bucket, and the
      namespace unless it is blank. */
  predicate Tells(env: Env, ids: Ids, ns: string, stat: Stat)
  {
    var blank := env.lib.trimSpace(ns) == "";
    var n := |stat.labels| - if blank then 0 else 1;
    && stat.context == Latencies && stat.mtype == Gauge && stat.isAllowed
    && |stat.labels| == |stat.labelValues| && n >= 2
    && stat.labels[..n] == ["cluster_name", "service"] + (if n == 2 then [] else ["le"])
    && stat.labelValues[..2] == [ids.clusterName, ids.service]
    && (!blank ==> stat.labels[n] == "ns" && stat.labelValues[n] == ns)
  }

  lemma NewLatency(env: Env, name: string)
    ensures var s := NewStat(env, Latencies, name, IsMetricAllowed(env, Latencies, name));
            s.context == Latencies && s.mtype == Gauge && s.isAllowed
  {
  }

  lemma AppendedLabels(labels: seq<string>, more: string)
    ensures (labels + [more])[..|labels|] == labels && (labels + [more])[|labels|] == more
    ensures labels[..|labels|] == labels
  {
  }

  lemma StatsTell(env: Env, ids: Ids, ns: string, op: string, h: Histogram, i: nat)
    requires Balanced(h) && i < |h.bucketLabels|
    ensures Tells(env, ids, ns, BucketStat(env, ids, ns, op, h, i))
    ensures Tells(env, ids, ns, CountStat(env, ids, ns, op, h))
  {
    NewLatency(env, op + "_" + h.timeUnit + "_bucket");
    NewLatency(env, op + "_" + h.timeUnit + "_count");
    hide NewStat, IsMetricAllowed;
    var identity := ["cluster_name", "service"];
    assert identity + ["le"] == ["cluster_name", "service", "le"] && identity + [] == identity;
    AppendedLabels(["cluster_name", "service", "le"], "ns");
    AppendedLabels(identity, "ns");
    AppendedLabels([ids.clusterName, ids.service, h.bucketLabels[i]], ns);
    AppendedLabels([ids.clusterName, ids.service], ns);
    var bucket, count := BucketStat(env, ids, ns, op, h, i), CountStat(env, ids, ns, op, h);
    assert bucket.labelValues[..2] == [ids.clusterName, ids.service];
    assert count.labelValues[..2] == [ids.clusterName, ids.service];
  }

  lemma {:induction false} GroupTells(env: Env, ids: Ids, ns: string, op: string, h: Histogram, n: nat)
    requires Balanced(h) && n <= |h.bucketLabels|
    ensures forall i | 0 <= i < |Group(env, ids, ns, op, h, n)| :: Tells(env, ids, ns, Group(env, ids, ns, op, h, n)[i])
  {
    hide Tells, BucketStat, CountStat;
    if n > 0 {
      GroupTells(env, ids, ns, op, h, n - 1);
      StatsTell(env, ids, ns, op, h, n - 1);
    }
  }

  lemma SliceOfFront(front: seq<Stat>, more: seq<Stat>, n: nat, m: nat)
    requires n <= m <= |front|
    ensures (front + more)[n..m] == front[n..m]
  {
  }

  lemma SliceOfEnd(front: seq<Stat>, more: seq<Stat>)
    ensures (front + more)[|front|..|front + more|] == more
  {
  }

  /** What a pair sends stands in one piece among the emissions. */
  lemma {:induction false} GroupsAreSent(env: Env, ids: Ids, res: Latencies, order: seq<Entry>, e: Entry)
    requires AllBalanced(res) && Covers(res, order) && e in order && Unfiltered(env.cfg, e.1)
    ensures exists n, m | 0 <= n <= m <= |Emissions(env, ids, res, order)| ::
              Emissions(env, ids, res, order)[n..m]
                == Group(env, ids, e.0, e.1, res[e.0][e.1], |res[e.0][e.1].bucketLabels|)
  {
    hide Group, Balanced, Unfiltered, Emissions;
    var front, last := order[..|order| - 1], order[|order| - 1];
    assert front + [last] == order;
    EmissionsSnoc(env, ids, res, front, last);
    var before := Emissions(env, ids, res, front);
    var more := if Unfiltered(env.cfg, last.1)
      then Group(env, ids, last.0, last.1, res[last.0][last.1], |res[last.0][last.1].bucketLabels|) else [];
    assert Emissions(env, ids, res, order) == before + more;
    if e == last {
      SliceOfEnd(before, more);
    } else {
      GroupsAreSent(env, ids, res, front, e);
      var n, m :| 0 <= n <= m <= |before| &&
        before[n..m] == Group(env, ids, e.0, e.1, res[e.0][e.1], |res[e.0][e.1].bucketLabels|);
      SliceOfFront(before, more, n, m);
    }
  }

  lemma EntryIsShaped(env: Env, raw: map<string, string>, key: string, ps: seq<Printed>, e: Entry)
    requires Get(raw, "latencies:") != "" && Get(raw, key) == PrintAll(ps) && ProperReply(env.lib, ps)
    requires LatencyResult(env, raw, key).Some?
    ensures var res := LatencyResult(env, raw, key).value;
            e.0 in res && e.1 in res[e.0] ==> Shaped(res[e.0][e.1])
  {
    ReplyIsShaped(env.lib, ps, env.cfg.latencyBucketsCount, e.0, e.1);
    hide Parse, PrintAll, ProperReply, Shaped;
  }

  /** In one piece among the emissions stands the group of the entry: a series of the shape, under its labels. */
  ghost predicate SentAsSeries(env: Env, ids: Ids, res: Latencies, e: Entry, sent: seq<Stat>)
    requires e.0 in res && e.1 in res[e.0] && Balanced(res[e.0][e.1])
  {
    var h := res[e.0][e.1];
    exists n, m | 0 <= n <= m <= |sent| ::
      && sent[n..m] == Group(env, ids, e.0, e.1, h, |h.bucketLabels|)
      && IsSeries(sent[n..m], e.1 + "_" + h.timeUnit)
      && forall i | n <= i < m :: Tells(env, ids, e.0, sent[i])
  }

  lemma EntryIsSent(env: Env, ids: Ids, res: Latencies, order: seq<Entry>, e: Entry)
    requires AllBalanced(res) && Covers(res, order) && e in order && Unfiltered(env.cfg, e.1)
    requires Shaped(res[e.0][e.1])
    ensures SentAsSeries(env, ids, res, e, Emissions(env, ids, res, order))
  {
    hide Emissions, Group, IsSeries, Shaped, Balanced, Unfiltered, Tells;
    var sent, h := Emissions(env, ids, res, order), res[e.0][e.1];
    GroupTells(env, ids, e.0, e.1, h, |h.bucketLabels|);
    GroupsAreSent(env, ids, res, order, e);
    GroupIsSeries(env, ids, e.0, e.1, h);
    var n, m :| 0 <= n <= m <= |sent| && sent[n..m] == Group(env, ids, e.0, e.1, h, |h.bucketLabels|);
    assert forall i | n <= i < m :: sent[i] == sent[n..m][i - n];
  }

  /** End to end: when the server sends proper sections, every namespace and operation that is not filtered goes out as
      one series of this shape under its own labels, in whatever order the result is walked. */
  lemma SeriesAreShaped(env: Env, ids: Ids, raw: map<string, string>, key: string, ps: seq<Printed>, order: seq<Entry>,
                        e: Entry)
    requires Get(raw, "latencies:") != "" && Get(raw, key) == PrintAll(ps) && ProperReply(env.lib, ps)
    requires LatencyResult(env, raw, key).Some? && IsEntryOrder(order, LatencyResult(env, raw, key).value)
    requires e in order && Unfiltered(env.cfg, e.1)
    ensures AllBalanced(LatencyResult(env, raw, key).value)
    ensures var res := LatencyResult(env, raw, key).value;
            SentAsSeries(env, ids, res, e, Emissions(env, ids, res, order))
  {
    hide Emissions, Shaped, Unfiltered, LatencyResult, PrintAll, ProperReply, SentAsSeries, Balanced;
    ResultIsBalanced(env, raw, key);
    EntryIsShaped(env, raw, key, ps, e);
    EntryIsSent(env, ids, LatencyResult(env, raw, key).value, order, e);
  }
}
