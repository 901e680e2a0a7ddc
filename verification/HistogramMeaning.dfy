/** What the numbers, labels and time unit of a parsed histogram mean, in terms of the text of its section. */
module HistogramMeaning {
  import opened Text
  import opened Numerals
  import opened Wrappers
  import opened AerospikeStat
  import opened LatencyParser
  import opened LatencyLaws
  import opened LegacyPanics

  // ----- Values -----

  /** A bucket and its share above the boundary make up the total. */
  predicate AddsUp(total: real, percentage: real, bucket: real)
  {
    bucket + percentage * total / 100.0 == total
  }

  lemma BucketAddsUp(total: real, percentage: real)
    ensures AddsUp(total, percentage, Below(total, percentage))
  {
  }

  /** The buckets behind the total, wherever they come from. */
  lemma BucketsAddUp(lib: Library, fields: seq<string>, labelling: Labelling, total: real, limit: nat, k: nat)
    requires var bs := BucketsFrom(lib, fields, labelling, total, limit, 1); bs.Some? && k < |bs.value.values|
    ensures var bs := BucketsFrom(lib, fields, labelling, total, limit, 1).value;
            && |bs.labels| == |bs.values|
            && k + 1 < |fields| && lib.parseFloat(fields[k + 1]).Some?
            && AddsUp(total, Number(lib, fields[k + 1]), bs.values[k])
  {
    hide BucketsFrom, Below, AddsUp;
    SameLengths(lib, fields, labelling, total, limit, 1);
    BucketAt(lib, fields, labelling, total, limit, 1, k);
    BucketAddsUp(total, Number(lib, fields[k + 1]));
  }

  lemma FoundIs(lib: Library, values: Read, labelling: Labelling, limit: nat, timeUnit: string)
    requires Build(lib, values, labelling, limit, timeUnit).Found?
    ensures var h, fields := Build(lib, values, labelling, limit, timeUnit).histogram, Split(values.text, ',');
            && lib.parseFloat(fields[0]).Some?
            && var total := Number(lib, fields[0]);
               var bs := BucketsFrom(lib, fields, labelling, total, limit, 1);
               && bs.Some? && |bs.value.labels| == |bs.value.values|
               && h.bucketLabels == ["+Inf"] + bs.value.labels && h.bucketValues == [total] + bs.value.values
  {
    var fields := Split(values.text, ',');
    SameLengths(lib, fields, labelling, Number(lib, fields[0]), limit, 1);
    hide BucketsFrom, Split;
  }

  /** Any section, well formed or not, in either format: bucket 0 is the total, and every other bucket adds up with the
      percentage of its own field. */
  lemma SectionAddsUp(lib: Library, values: Read, labelling: Labelling, limit: nat, timeUnit: string)
    requires Build(lib, values, labelling, limit, timeUnit).Found?
    ensures var h, fields := Build(lib, values, labelling, limit, timeUnit).histogram, Split(values.text, ',');
            && 1 <= |h.bucketLabels| == |h.bucketValues| <= |fields|
            && (forall k | 0 <= k < |h.bucketValues| :: lib.parseFloat(fields[k]).Some?)
            && h.bucketLabels[0] == "+Inf" && h.bucketValues[0] == Number(lib, fields[0])
            && (forall k | 1 <= k < |h.bucketValues| ::
                  AddsUp(h.bucketValues[0], Number(lib, fields[k]), h.bucketValues[k]))
  {
    FoundIs(lib, values, labelling, limit, timeUnit);
    var h, fields := Build(lib, values, labelling, limit, timeUnit).histogram, Split(values.text, ',');
    assert |fields| >= 1;
    hide BucketsFrom, Build, Split, AddsUp;
    if |h.bucketValues| > 1 {
      BucketsAddUp(lib, fields, labelling, Number(lib, fields[0]), limit, |h.bucketValues| - 2);
    }
    forall k | 1 <= k < |h.bucketValues|
      ensures lib.parseFloat(fields[k]).Some?
              && AddsUp(h.bucketValues[0], Number(lib, fields[k]), h.bucketValues[k])
    {
      BucketsAddUp(lib, fields, labelling, Number(lib, fields[0]), limit, k - 1);
    }
  }

  // ----- Labels and time unit -----

  /** Every byte of the text is one of these. */
  predicate Consists(text: string, bytes: string)
  {
    forall i | 0 <= i < |text| :: text[i] in bytes
  }

  /** The text is the core with such bytes around it, and the core neither begins nor ends with one. */
  ghost predicate Core(text: string, bytes: string, core: string)
  {
    && (exists a, b :: Consists(a, bytes) && Consists(b, bytes) && text == a + core + b)
    && (core != "" ==> core[0] !in bytes && core[|core| - 1] !in bytes)
  }

  lemma {:induction false} TrimIsCore(text: string, bytes: string)
    ensures Core(text, bytes, Trim(text, bytes))
    decreases |text|
  {
    var core := Trim(text, bytes);
    if text == "" {
      assert text == "" + core + "" && Consists("", bytes);
    } else if text[0] in bytes {
      TrimIsCore(text[1..], bytes);
      var a, b :| Consists(a, bytes) && Consists(b, bytes) && text[1..] == a + core + b;
      assert text == ([text[0]] + a) + core + b;
      assert Consists([text[0]] + a, bytes);
    } else if text[|text| - 1] in bytes {
      var n := |text| - 1;
      TrimIsCore(text[..n], bytes);
      var a, b :| Consists(a, bytes) && Consists(b, bytes) && text[..n] == a + core + b;
      assert text == a + core + (b + [text[n]]);
      assert Consists(b + [text[n]], bytes);
    } else {
      assert text == "" + core + "" && Consists("", bytes);
    }
  }

  /** The unit is what stands in front of a final "ec", or all of the text. */
  ghost predicate ShortUnit(text: string, unit: string)
  {
    text == unit + "ec" || (text == unit && !exists front :: text == front + "ec")
  }

  lemma UnitIsShort(text: string)
    ensures ShortUnit(text, TrimSuffix(text, "ec"))
  {
    var suffix := "ec";
    if front :| text == front + suffix {
      assert text[|text| - 2..] == suffix;
      assert text == text[..|text| - 2] + suffix;
    }
  }

  /** What a histogram must be for a printed section. */
  ghost predicate Means(lib: Library, p: Printed, limit: nat, h: Histogram)
    requires p.Filled() && AllNumeric(lib, p.values)
  {
    var n := if limit > 0 && limit < |p.values| - 1 then limit + 1 else |p.values|;
    && |h.bucketLabels| == |h.bucketValues| == n >= 1
    && h.bucketLabels[0] == "+Inf"
    && (forall k | 0 <= k < n :: Numeric(lib, p.values[k]))
    && h.bucketValues[0] == Number(lib, p.values[0])
    && (forall k | 1 <= k < n :: AddsUp(h.bucketValues[0], Number(lib, p.values[k]), h.bucketValues[k]))
    && match p.start
       case Unit(unit) =>
         && ShortUnit(unit, h.timeUnit)
         && forall k | 1 <= k < n && k <= 63 :: h.bucketLabels[k] == Itoa(Pow2(k - 1))
       case Labels(_, names, _) =>
         && h.timeUnit == "ms" && (n > 1 ==> n <= |names|)
         && forall k | 1 <= k < n :: Core(names[k], "><=ms", h.bucketLabels[k])
  }

  /** The numbers of a printed section. */
  lemma NumbersMean(lib: Library, p: Printed, limit: nat)
    requires p.Filled() && |p.values| >= 1 && AllNumeric(lib, p.values) && Fits(p, limit)
    ensures var h := HistogramOf(lib, p.start, p.values, limit);
            && |h.bucketLabels| == |h.bucketValues| == 1 + BucketsUsed(|p.values|, limit) <= |p.values|
            && h.bucketLabels[0] == "+Inf" && h.bucketValues[0] == Number(lib, p.values[0])
            && (forall k | 1 <= k < |h.bucketValues| ::
                  lib.parseFloat(p.values[k]).Some?
                  && AddsUp(h.bucketValues[0], Number(lib, p.values[k]), h.bucketValues[k]))
  {
    var values := Read(Join(p.values, ','), false, "");
    assert forall k | 0 <= k < |p.values| :: Numeric(lib, p.values[k]);
    BuildNumerals(lib, p.values, p.start, limit, "");
    SplitOfJoin(p.values, ',');
    hide Build, Split, Join, AddsUp, BucketLabels, Counts, UnitOf, LabellingOf;
    SectionAddsUp(lib, values, LabellingOf(p.start), limit, UnitOf(p.start));
  }

  /** Its labels and time unit. */
  lemma NamesMean(lib: Library, p: Printed, limit: nat)
    requires p.Filled() && |p.values| >= 1 && AllNumeric(lib, p.values) && Fits(p, limit)
    ensures var h := HistogramOf(lib, p.start, p.values, limit);
            match p.start
            case Unit(unit) =>
              && ShortUnit(unit, h.timeUnit)
              && forall k | 1 <= k < |h.bucketLabels| && k <= 63 :: h.bucketLabels[k] == Itoa(Pow2(k - 1))
            case Labels(_, names, _) =>
              && h.timeUnit == "ms" && (|h.bucketLabels| > 1 ==> |h.bucketLabels| <= |names|)
              && forall k | 1 <= k < |h.bucketLabels| :: Core(names[k], "><=ms", h.bucketLabels[k])
  {
    hide Core, ShortUnit, Pow2, Itoa, Trim, Counts;
    if p.start.Unit? {
      UnitIsShort(p.start.unit);
    } else {
      forall k | 1 <= k < |HistogramOf(lib, p.start, p.values, limit).bucketLabels|
        ensures Core(p.start.names[k], "><=ms", HistogramOf(lib, p.start, p.values, limit).bucketLabels[k])
      {
        TrimIsCore(p.start.names[k], "><=ms");
      }
    }
    hide TrimSuffix;
  }

  lemma SectionMeans(format: Format, lib: Library, p: Printed, limit: nat)
    requires WellPrinted(format, lib, p) && Fits(p, limit) && p.Filled()
    ensures Means(lib, p, limit, HistogramOf(lib, p.start, p.values, limit))
  {
    assert forall k | 0 <= k < |p.values| :: Numeric(lib, p.values[k]);
    hide HistogramOf, AddsUp, Core, ShortUnit, Pow2, Itoa, WellNamed;
    NumbersMean(lib, p, limit);
    NamesMean(lib, p, limit);
  }

  // ----- Replies -----

  /** Section k is the last one that feeds the pair. */
  predicate LastFeeds(ps: seq<Printed>, k: int, ns: string, op: string)
  {
    && 0 <= k < |ps| && Feeds(ps[k], ns, op) && forall j | k < j < |ps| :: !Feeds(ps[j], ns, op)
  }

  lemma {:induction false} LastSectionMeans(format: Format, lib: Library, ps: seq<Printed>, limit: nat, ns: string,
                                            op: string)
    requires AllPrinted(format, lib, ps) && AllFit(ps, limit)
    ensures match LastSection(format, lib, ps, limit, ns, op)
            case None => forall k | 0 <= k < |ps| :: !Feeds(ps[k], ns, op)
            case Some(h) => exists k :: LastFeeds(ps, k, ns, op) && WellPrinted(format, lib, ps[k])
                                        && Means(lib, ps[k], limit, h)
  {
    hide Means, HistogramOf, WellStarted, WellNamed, AllNumeric;
    if ps != [] {
      var n := |ps| - 1;
      var front, last := ps[..n], ps[n];
      assert WellPrinted(format, lib, last) && Fits(last, limit);
      if Feeds(last, ns, op) {
        SectionMeans(format, lib, last, limit);
        assert LastFeeds(ps, n, ns, op);
      } else {
        LastSectionMeans(format, lib, front, limit, ns, op);
        var h := LastSection(format, lib, front, limit, ns, op);
        assert forall k | 0 <= k < n :: front[k] == ps[k];
        if h.Some? {
          var k :| LastFeeds(front, k, ns, op) && WellPrinted(format, lib, front[k])
                   && Means(lib, front[k], limit, h.value);
          assert LastFeeds(ps, k, ns, op);
        }
      }
    }
  }

  /** Every printed reply, in both formats: the histogram that parsing yields for a namespace and operation has the
      total, the buckets, the labels and the time unit of the last section that feeds the pair, and a pair that no
      section feeds has none. */
  lemma ReplyMeans(format: Format, lib: Library, ps: seq<Printed>, limit: nat, ns: string, op: string)
    requires AllPrinted(format, lib, ps) && AllFit(ps, limit)
    ensures Parse(format, lib, PrintAll(ps), limit, map[]).Some?
    ensures match Lookup(Parse(format, lib, PrintAll(ps), limit, map[]).value, ns, op)
            case None => forall k | 0 <= k < |ps| :: !Feeds(ps[k], ns, op)
            case Some(h) => exists k :: LastFeeds(ps, k, ns, op) && WellPrinted(format, lib, ps[k])
                                        && Means(lib, ps[k], limit, h)
  {
    hide Parse, PrintAll, EffectAll, LastSection, Lookup, Means, AllPrinted, AllFit, WellStarted, WellNamed, AllNumeric;
    ReplyIsRead(format, lib, ps, limit);
    LastSectionWins(format, lib, ps, limit, ns, op);
    LastSectionMeans(format, lib, ps, limit, ns, op);
  }

  // ----- For instance -----

  lemma HalfJoined()
    ensures Join(["100", "50", "0"], ',') == "100,50,0"
  {
    var v := ["100", "50", "0"];
    assert v[1..] == ["50", "0"] && v[1..][1..] == ["0"];
    assert Join(["50", "0"], ',') == "50,0";
    assert Join(v, ',') == "100" + [','] + "50,0";
  }

  lemma HalfTexts()
    ensures PrintAll([Data("test", "read", Unit("msec"), ["100", "50", "0"])]) == "{test}-read:msec,100,50,0;"
    ensures "msec" == "ms" + "ec"
  {
    var p := Data("test", "read", Unit("msec"), ["100", "50", "0"]);
    HalfJoined();
    hide Join;
    assert [p][1..] == [];
    assert PrintStart(p.start) == "msec,";
    assert PrintBody(p) == "msec,100,50,0;";
    assert PrintHead(p) == "{test}-read:";
    hide PrintBody, PrintHead;
    assert PrintAll([p]) == PrintHead(p) + PrintBody(p) + "";
  }

  lemma HalfValues(lib: Library, start: Start, values: seq<string>)
    requires start == Unit("ms" + "ec") && |values| == 3 && AllNumeric(lib, values)
    requires Number(lib, values[0]) == 100.0 && lib.parseFloat(values[1]) == Some(50.0)
             && lib.parseFloat(values[2]) == Some(0.0)
    ensures HistogramOf(lib, start, values, 0) == Histogram(["+Inf", "1", "2"], [100.0, 50.0, 100.0], "ms")
  {
    FirstPowers();
    assert ("ms" + "ec")[2..] == "ec" && ("ms" + "ec")[..2] == "ms";
    hide BucketLabels;
    assert Counts(lib, 100.0, values, 2) == [50.0, 100.0];
    hide Counts;
    assert ["+Inf"] + ["1", "2"] == ["+Inf", "1", "2"] && [100.0] + [50.0, 100.0] == [100.0, 50.0, 100.0];
  }

  lemma HalfReads(lib: Library)
    requires lib.parseFloat("100") == Some(100.0) && lib.parseFloat("50") == Some(50.0)
             && lib.parseFloat("0") == Some(0.0)
    ensures var p := Data("test", "read", Unit("msec"), ["100", "50", "0"]);
            WellPrinted(Current, lib, p) && AllNumeric(lib, p.values) && Number(lib, p.values[0]) == 100.0
  {
    assert Numeric(lib, "100") && Numeric(lib, "50") && Numeric(lib, "0");
  }

  /** Of 100 operations with half above 1 and none above 2: 50 up to 1, and 100 up to 2. */
  lemma HalfOfThem(lib: Library)
    requires lib.parseFloat("100") == Some(100.0) && lib.parseFloat("50") == Some(50.0)
             && lib.parseFloat("0") == Some(0.0)
    ensures Parse(Current, lib, "{test}-read:msec,100,50,0;", 0, map[])
         == Some(map["test" := map["read" := Histogram(["+Inf", "1", "2"], [100.0, 50.0, 100.0], "ms")]])
  {
    var p := Data("test", "read", Unit("msec"), ["100", "50", "0"]);
    var start, values := p.start, p.values;
    HalfReads(lib);
    HalfTexts();
    hide *;
    OneSection(lib, p);
    HalfValues(lib, start, values);
    RoundTrip(Current, lib, [p], 0);
  }
}
