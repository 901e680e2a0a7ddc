/** Laws of the latency parsers: the round trip of printed replies in both formats, and the effect of the bucket
    limit on any text. */
module LatencyLaws {
  import opened Text
  import opened Numerals
  import opened Wrappers
  import opened AerospikeStat
  import opened LatencyParser

  // ----- Round trip -----

  /** What stands in front of the values of a section: the time unit, or in the legacy format a time stamp, the
      labels, and a second time stamp. */
  datatype Start = Unit(unit: string) | Labels(stamp: string, names: seq<string>, stamp2: string)

  /** A reply as the server prints it, section by section. */
  datatype Printed =
    | Data(ns: string, op: string, start: Start, values: seq<string>)
    | Batch(op: string, start: Start, values: seq<string>)
    | Empty(ns: string, op: string)
    | EmptyBatch(op: string)
    | Junk(text: string)
  {
    predicate Filled()
    {
      Data? || Batch?
    }
  }

  function PrintHead(p: Printed): string
  {
    match p
    case Data(ns, op, _, _) => "{" + ns + "}" + "-" + op + ":"
    case Batch(op, _, _) => op + ":"
    case Empty(ns, op) => "{" + ns + "}" + "-" + op + ":"
    case EmptyBatch(op) => op + ":"
    case Junk(text) => text
  }

  function PrintStart(start: Start): string
  {
    match start
    case Unit(unit) => unit + ","
    case Labels(stamp, names, stamp2) => stamp + "," + (Join(names, ',') + ";" + (stamp2 + ","))
  }

  function PrintBody(p: Printed): string
  {
    if p.Filled() then PrintStart(p.start) + Join(p.values, ',') + ";" else ";"
  }

  function PrintAll(ps: seq<Printed>): string
  {
    if ps == [] then "" else PrintHead(ps[0]) + PrintBody(ps[0]) + PrintAll(ps[1..])
  }

  predicate WellNamed(p: Printed)
  {
    match p
    case Data(ns, op, _, _) => '}' !in ns && ':' !in op && !(ns == "" && op == "")
    case Empty(ns, op) => '}' !in ns && ':' !in op && !(ns == "" && op == "")
    case Batch(op, _, _) => "batch-index" <= op && ':' !in op
    case EmptyBatch(op) => "batch-index" <= op && ':' !in op
    case Junk(text) => text != "" && text[0] != '{' && !("batch-index" <= text) && ';' !in text
  }

  /** The start belongs to the format, and its parts do not hold what ends them. */
  predicate WellStarted(format: Format, start: Start)
  {
    match start
    case Unit(unit) => format == Current && ',' !in unit && !(unit != "" && unit[0] == ';')
    case Labels(stamp, names, stamp2) =>
      && format == Legacy && ',' !in stamp && !(stamp != "" && stamp[0] == ';') && ',' !in stamp2
      && |names| >= 1 && forall k | 0 <= k < |names| :: ',' !in names[k] && ';' !in names[k]
  }

  function LabellingOf(start: Start): Labelling
  {
    match start
    case Unit(_) => Powers
    case Labels(_, names, _) => Named(names)
  }

  function UnitOf(start: Start): string
  {
    match start
    case Unit(unit) => TrimSuffix(unit, "ec")
    case Labels(_, _, _) => "ms"
  }

  predicate WellFilled(format: Format, lib: Library, p: Printed)
  {
    p.Filled() ==> WellStarted(format, p.start) && |p.values| >= 1 && AllNumeric(lib, p.values)
  }

  /** The section is printed as the server prints it in this format. */
  predicate WellPrinted(format: Format, lib: Library, p: Printed)
  {
    WellNamed(p) && WellFilled(format, lib, p)
  }

  /** There are labels for all values, or the limit ends the loop before the labels run out. */
  predicate LabelsFit(labelling: Labelling, count: nat, limit: nat)
  {
    labelling.Named? ==> count <= |labelling.names| || (limit > 0 && limit < |labelling.names|)
  }

  predicate Fits(p: Printed, limit: nat)
  {
    p.Filled() ==> LabelsFit(LabellingOf(p.start), |p.values|, limit)
  }

  predicate Numeric(lib: Library, v: string)
  {
    ',' !in v && ';' !in v && lib.parseFloat(v).Some?
  }

  predicate AllNumeric(lib: Library, values: seq<string>)
  {
    forall k | 0 <= k < |values| :: Numeric(lib, values[k])
  }

  function Number(lib: Library, v: string): real
    requires lib.parseFloat(v).Some?
  {
    lib.parseFloat(v).value
  }

  function Min(a: nat, b: nat): nat
  {
    if a <= b then a else b
  }

  /** How many buckets stand behind the total. */
  function BucketsUsed(count: nat, limit: nat): nat
    requires count >= 1
  {
    if limit > 0 then Min(limit, count - 1) else count - 1
  }

  /** The histogram of a list of numerals: the total, then the operations not above the boundary of each bucket. */
  function HistogramOf(lib: Library, start: Start, values: seq<string>, limit: nat): Histogram
    requires |values| >= 1 && AllNumeric(lib, values) && LabelsFit(LabellingOf(start), |values|, limit)
  {
    var n := BucketsUsed(|values|, limit);
    assert Numeric(lib, values[0]);
    var total := Number(lib, values[0]);
    Histogram(["+Inf"] + BucketLabels(LabellingOf(start), n), [total] + Counts(lib, total, values, n), UnitOf(start))
  }

  /** The labels of the first n buckets: powers of two, or those of the reply without their decoration. */
  function BucketLabels(labelling: Labelling, n: nat): (labels: seq<string>)
    requires labelling.Named? && n > 0 ==> n < |labelling.names|
    ensures |labels| == n
  {
    seq(n, k requires 0 <= k < n => match labelling
                                    case Powers => Itoa(ShiftOne(k))
                                    case Named(names) => Trim(names[k + 1], "><=ms"))
  }

  function Counts(lib: Library, total: real, values: seq<string>, n: nat): (counts: seq<real>)
    requires n < |values| && AllNumeric(lib, values)
    ensures |counts| == n
  {
    seq(n, k requires 0 <= k < n => assert Numeric(lib, values[k + 1]); Below(total, Number(lib, values[k + 1])))
  }

  predicate AllPrinted(format: Format, lib: Library, ps: seq<Printed>)
  {
    forall k | 0 <= k < |ps| :: WellPrinted(format, lib, ps[k])
  }

  predicate AllFit(ps: seq<Printed>, limit: nat)
  {
    forall k | 0 <= k < |ps| :: Fits(ps[k], limit)
  }

  /** What a section contributes. */
  function Effect(format: Format, lib: Library, p: Printed, limit: nat, res: Latencies): Latencies
    requires WellPrinted(format, lib, p) && Fits(p, limit)
  {
    if p.Data? then Put(res, p.ns, p.op, HistogramOf(lib, p.start, p.values, limit))
    else if p.Batch? then Put(res, "", p.op, HistogramOf(lib, p.start, p.values, limit))
    else res
  }

  function EffectAll(format: Format, lib: Library, ps: seq<Printed>, limit: nat, res: Latencies): Latencies
    requires AllPrinted(format, lib, ps) && AllFit(ps, limit)
  {
    if ps == [] then res else EffectAll(format, lib, ps[1..], limit, Effect(format, lib, ps[0], limit, res))
  }

  /** Element by element, the buckets that are read. */
  lemma {:induction false} BucketAt(lib: Library, fields: seq<string>, labelling: Labelling, total: real, limit: nat,
                                    i: nat, k: nat)
    requires i >= 1
    requires var bs := BucketsFrom(lib, fields, labelling, total, limit, i); bs.Some? && k < |bs.value.labels|
    ensures var bs := BucketsFrom(lib, fields, labelling, total, limit, i).value;
            && |bs.labels| == |bs.values|
            && i + k < |fields| && lib.parseFloat(fields[i + k]).Some?
            && LabelAt(labelling, i + k) == Some(bs.labels[k])
            && bs.values[k] == Below(total, Number(lib, fields[i + k]))
    decreases k
  {
    hide Below, LabelAt;
    SameLengths(lib, fields, labelling, total, limit, i);
    if k > 0 {
      BucketAt(lib, fields, labelling, total, limit, i + 1, k - 1);
    }
  }

  /** In the current format bucket k carries a power of two. */
  lemma PowerBucketAt(lib: Library, fields: seq<string>, total: real, limit: nat, i: nat, k: nat)
    requires i >= 1
    requires var bs := BucketsFrom(lib, fields, Powers, total, limit, i); bs.Some? && k < |bs.value.labels|
    ensures var bs := BucketsFrom(lib, fields, Powers, total, limit, i).value;
            && |bs.labels| == |bs.values|
            && i + k < |fields| && lib.parseFloat(fields[i + k]).Some?
            && bs.labels[k] == Itoa(ShiftOne(i + k - 1))
            && bs.values[k] == Below(total, Number(lib, fields[i + k]))
  {
    hide Below, Itoa, ShiftOne, BucketsFrom;
    BucketAt(lib, fields, Powers, total, limit, i, k);
  }

  lemma {:induction false} SameLengths(lib: Library, fields: seq<string>, labelling: Labelling, total: real, limit: nat,
                                       i: nat)
    requires i >= 1
    requires BucketsFrom(lib, fields, labelling, total, limit, i).Some?
    ensures var bs := BucketsFrom(lib, fields, labelling, total, limit, i).value; |bs.labels| == |bs.values|
    decreases |fields| - i
  {
    if i < |fields| && lib.parseFloat(fields[i]).Some? && !(limit > 0 && i >= limit) {
      SameLengths(lib, fields, labelling, total, limit, i + 1);
    }
  }

  lemma {:induction false} BucketCount(lib: Library, fields: seq<string>, labelling: Labelling, total: real, limit: nat,
                                       i: nat)
    requires 1 <= i <= |fields| && AllNumeric(lib, fields) && LabelsFit(labelling, |fields|, limit)
    requires limit > 0 ==> i <= limit
    ensures BucketsFrom(lib, fields, labelling, total, limit, i).Some?
    ensures |BucketsFrom(lib, fields, labelling, total, limit, i).value.labels|
         == BucketsUsed(|fields|, limit) - (i - 1)
    decreases |fields| - i
  {
    hide Below, Itoa, ShiftOne, Trim;
    if i < |fields| {
      assert Numeric(lib, fields[i]);
      if !(limit > 0 && i >= limit) {
        BucketCount(lib, fields, labelling, total, limit, i + 1);
      }
    }
  }

  /** Numerals give all their buckets, whatever their values: none is left out. */
  lemma {:induction false} NumeralBuckets(lib: Library, values: seq<string>, labelling: Labelling, total: real,
                                          limit: nat)
    requires |values| >= 1 && AllNumeric(lib, values) && LabelsFit(labelling, |values|, limit)
    ensures var n := BucketsUsed(|values|, limit);
            && (labelling.Named? && n > 0 ==> n < |labelling.names|)
            && BucketsFrom(lib, values, labelling, total, limit, 1)
              == Some(Buckets(BucketLabels(labelling, n), Counts(lib, total, values, n)))
  {
    BucketCount(lib, values, labelling, total, limit, 1);
    SameLengths(lib, values, labelling, total, limit, 1);
    hide BucketsFrom;
    var bs := BucketsFrom(lib, values, labelling, total, limit, 1).value;
    var n := |bs.labels|;
    forall k | 0 <= k < n
      ensures bs.labels[k] == BucketLabels(labelling, n)[k] && bs.values[k] == Counts(lib, total, values, n)[k]
    {
      BucketAt(lib, values, labelling, total, limit, 1, k);
    }
    assert bs.labels == BucketLabels(labelling, n);
    assert bs.values == Counts(lib, total, values, n);
  }

  lemma BuildNumerals(lib: Library, values: seq<string>, start: Start, limit: nat, rest: string)
    requires |values| >= 1 && AllNumeric(lib, values) && LabelsFit(LabellingOf(start), |values|, limit)
    ensures Build(lib, Read(Join(values, ','), false, rest), LabellingOf(start), limit, UnitOf(start))
         == Found(HistogramOf(lib, start, values, limit), rest)
  {
    assert forall k | 0 <= k < |values| :: Numeric(lib, values[k]);
    SplitOfJoin(values, ',');
    assert Numeric(lib, values[0]);
    hide BucketsFrom, BucketLabels, Counts, Split, Join;
    NumeralBuckets(lib, values, LabellingOf(start), Number(lib, values[0]), limit);
  }

  lemma {:induction false} JoinStaysFree(parts: seq<string>, c: char, d: char)
    requires c != d && forall k | 0 <= k < |parts| :: d !in parts[k]
    ensures d !in Join(parts, c)
    decreases |parts|
  {
    if |parts| > 1 {
      JoinStaysFree(parts[1..], c, d);
    }
  }

  lemma HeadOfSection(ns: string, op: string, rest: string)
    requires '}' !in ns && ':' !in op
    ensures ReadHead("{" + ns + "}" + "-" + op + ":" + rest) == if ns == "" && op == "" then Skip(rest)
                                                                else Body(ns, op, rest)
  {
    var t := "{" + ns + "}" + "-" + op + ":" + rest;
    var inner := "-" + (op + [':'] + rest);
    assert t[1..] == ns + ['}'] + inner;
    UntilFound(ns, '}', inner);
    assert inner[1..] == op + [':'] + rest;
    UntilFound(op, ':', rest);
  }

  lemma HeadOfBatch(op: string, rest: string)
    requires "batch-index" <= op && ':' !in op
    ensures ReadHead(op + ":" + rest) == Body("", op, rest)
  {
    UntilFound(op, ':', rest);
    assert op + ":" + rest == op + [':'] + rest;
    assert "batch-index" <= op + ":" + rest;
  }

  lemma HeadOfJunk(text: string, rest: string)
    requires WellNamed(Junk(text))
    ensures ReadHead(text + ";" + rest) == Skip(rest)
  {
    var t := text + ";" + rest;
    var pat := "batch-index";
    assert ';' !in pat;
    PrefixAcross(text, ';', rest, pat);
    assert t == text + [';'] + rest;
    assert t[1..] == text[1..] + [';'] + rest;
    UntilFound(text[1..], ';', rest);
  }

  /** The head of a printed section is read back, up to its body. */
  lemma HeadIsRead(p: Printed, rest: string)
    requires WellNamed(p)
    ensures match p
            case Data(ns, op, _, _) => ReadHead(PrintHead(p) + rest) == Body(ns, op, rest)
            case Batch(op, _, _) => ReadHead(PrintHead(p) + rest) == Body("", op, rest)
            case Empty(ns, op) => ReadHead(PrintHead(p) + rest) == Body(ns, op, rest)
            case EmptyBatch(op) => ReadHead(PrintHead(p) + rest) == Body("", op, rest)
            case Junk(text) => true
  {
    match p
    case Data(ns, op, _, _) => HeadOfSection(ns, op, rest);
    case Batch(op, _, _) => HeadOfBatch(op, rest);
    case Empty(ns, op) => HeadOfSection(ns, op, rest);
    case EmptyBatch(op) => HeadOfBatch(op, rest);
    case Junk(text) =>
  }

  /** What stands in front of the values is read back, whatever follows. */
  lemma StartIsRead(format: Format, start: Start, tail: string)
    requires WellStarted(format, start)
    ensures ReadOpening(format, PrintStart(start) + tail) == Opening(LabellingOf(start), UnitOf(start), tail)
    ensures PrintStart(start) != "" && (PrintStart(start) + tail)[0] != ';'
  {
    var t := PrintStart(start) + tail;
    match start
    case Unit(unit) =>
      assert t == unit + [','] + tail;
      UntilFound(unit, ',', tail);
      assert unit == "" ==> t[0] == ',';
    case Labels(stamp, names, stamp2) =>
      var labels := Join(names, ',');
      hide Join;
      assert t == stamp + [','] + (labels + [';'] + (stamp2 + [','] + tail));
      assert stamp == "" ==> t[0] == ',';
      JoinStaysFree(names, ',', ';');
      UntilFound(stamp, ',', labels + [';'] + (stamp2 + [','] + tail));
      UntilFound(labels, ';', stamp2 + [','] + tail);
      UntilFound(stamp2, ',', tail);
      SplitOfJoin(names, ',');
      hide Until, Split;
  }

  lemma ValuesAreRead(lib: Library, values: seq<string>, rest: string)
    requires AllNumeric(lib, values)
    ensures Until(Join(values, ',') + ";" + rest, ';') == Read(Join(values, ','), false, rest)
  {
    var vs := Join(values, ',');
    assert forall k | 0 <= k < |values| :: Numeric(lib, values[k]);
    JoinStaysFree(values, ',', ';');
    hide Join;
    assert vs + ";" + rest == vs + [';'] + rest;
    UntilFound(vs, ';', rest);
  }

  lemma BodyParts(p: Printed, rest: string)
    requires p.Filled()
    ensures PrintBody(p) + rest == PrintStart(p.start) + (Join(p.values, ',') + ";" + rest)
  {
  }

  lemma BodyIsRead(format: Format, lib: Library, p: Printed, limit: nat, rest: string)
    requires WellFilled(format, lib, p) && p.Filled() && Fits(p, limit)
    ensures var t := PrintBody(p) + rest;
            && t != "" && t[0] != ';'
            && ReadBody(format, lib, t, limit) == Found(HistogramOf(lib, p.start, p.values, limit), rest)
  {
    BodyParts(p, rest);
    hide HistogramOf, PrintStart, PrintBody, ReadOpening, Build, Until, WellStarted, Join;
    StartIsRead(format, p.start, Join(p.values, ',') + ";" + rest);
    ValuesAreRead(lib, p.values, rest);
    BuildNumerals(lib, p.values, p.start, limit, rest);
  }

  lemma FilledIsRead(format: Format, lib: Library, p: Printed, limit: nat, rest: string, t: string, res: Latencies)
    requires WellPrinted(format, lib, p) && p.Filled() && Fits(p, limit)
    requires t == PrintHead(p) + (PrintBody(p) + rest)
    ensures ParseRound(format, lib, t, limit, res) == Next(Effect(format, lib, p, limit, res), rest)
  {
    hide HistogramOf, PrintStart, PrintHead, PrintBody, ReadHead, ReadBody, WellStarted;
    HeadIsRead(p, PrintBody(p) + rest);
    BodyIsRead(format, lib, p, limit, rest);
  }

  lemma EmptyIsRead(format: Format, lib: Library, p: Printed, limit: nat, rest: string, t: string, res: Latencies)
    requires WellNamed(p) && (p.Empty? || p.EmptyBatch?)
    requires t == PrintHead(p) + (";" + rest)
    ensures ParseRound(format, lib, t, limit, res) == Next(res, rest)
  {
    hide ReadHead, ReadBody, PrintHead;
    HeadIsRead(p, ";" + rest);
    assert (";" + rest)[1..] == rest;
  }

  lemma JunkIsRead(format: Format, lib: Library, text: string, limit: nat, rest: string, t: string, res: Latencies)
    requires WellNamed(Junk(text)) && t == text + ";" + rest
    ensures ParseRound(format, lib, t, limit, res) == Next(res, rest)
  {
    hide ReadHead, ReadBody;
    HeadOfJunk(text, rest);
  }

  /** One round reads one printed section. */
  lemma SectionIsRead(format: Format, lib: Library, p: Printed, limit: nat, rest: string, t: string, res: Latencies)
    requires WellPrinted(format, lib, p) && Fits(p, limit)
    requires t == PrintHead(p) + PrintBody(p) + rest
    ensures ParseRound(format, lib, t, limit, res) == Next(Effect(format, lib, p, limit, res), rest)
  {
    hide ParseRound, HistogramOf, PrintStart;
    assert t == PrintHead(p) + (PrintBody(p) + rest);
    if p.Junk? {
      JunkIsRead(format, lib, p.text, limit, rest, t, res);
    } else if p.Filled() {
      FilledIsRead(format, lib, p, limit, rest, t, res);
    } else {
      EmptyIsRead(format, lib, p, limit, rest, t, res);
    }
  }

  /** Printed sections are read one by one, whatever text follows them. */
  lemma {:induction false} SectionsAreRead(format: Format, lib: Library, ps: seq<Printed>, tail: string, limit: nat,
                                           res: Latencies)
    requires AllPrinted(format, lib, ps) && AllFit(ps, limit)
    ensures Parse(format, lib, PrintAll(ps) + tail, limit, res)
         == Parse(format, lib, tail, limit, EffectAll(format, lib, ps, limit, res))
    decreases |ps|
  {
    hide ParseRound, PrintHead, PrintBody, Effect, WellPrinted, Fits, Parse;
    if ps == [] {
      assert PrintAll(ps) + tail == tail;
    } else {
      var t, rest := PrintAll(ps) + tail, PrintAll(ps[1..]) + tail;
      assert t == PrintHead(ps[0]) + PrintBody(ps[0]) + rest;
      ParseUnfolds(format, lib, t, limit, res);
      SectionIsRead(format, lib, ps[0], limit, rest, t, res);
      SectionsAreRead(format, lib, ps[1..], tail, limit, Effect(format, lib, ps[0], limit, res));
    }
  }

  /** Round trip, in both formats: parsing a printed reply gives exactly what its sections contribute, in order. */
  lemma RoundTrip(format: Format, lib: Library, ps: seq<Printed>, limit: nat)
    requires AllPrinted(format, lib, ps) && AllFit(ps, limit)
    ensures Parse(format, lib, PrintAll(ps), limit, map[]) == Some(EffectAll(format, lib, ps, limit, map[]))
  {
    hide EffectAll, PrintAll, Parse, AllPrinted, AllFit;
    SectionsAreRead(format, lib, ps, "", limit, map[]);
    ParseUnfolds(format, lib, "", limit, EffectAll(format, lib, ps, limit, map[]));
    assert PrintAll(ps) + "" == PrintAll(ps);
  }

  function Lookup(res: Latencies, ns: string, op: string): Option<Histogram>
  {
    if ns in res && op in res[ns] then Some(res[ns][op]) else None
  }

  predicate Feeds(p: Printed, ns: string, op: string)
  {
    (p.Data? && p.ns == ns && p.op == op) || (p.Batch? && ns == "" && p.op == op)
  }

  /** In the current format there are always labels. */
  lemma CurrentFits(lib: Library, ps: seq<Printed>, limit: nat)
    requires AllPrinted(Current, lib, ps)
    ensures AllFit(ps, limit)
  {
    forall k | 0 <= k < |ps|
      ensures Fits(ps[k], limit)
    {
      assert WellPrinted(Current, lib, ps[k]);
    }
  }

  /** The histogram of the last section that feeds a namespace and operation. */
  function LastSection(format: Format, lib: Library, ps: seq<Printed>, limit: nat, ns: string,
                       op: string): Option<Histogram>
    requires AllPrinted(format, lib, ps) && AllFit(ps, limit)
  {
    if ps == [] then None
    else
      var last := ps[|ps| - 1];
      assert WellPrinted(format, lib, last) && Fits(last, limit);
      if Feeds(last, ns, op) then Some(HistogramOf(lib, last.start, last.values, limit))
      else LastSection(format, lib, ps[..|ps| - 1], limit, ns, op)
  }

  lemma {:induction false} EffectSnoc(format: Format, lib: Library, ps: seq<Printed>, p: Printed, limit: nat,
                                      res: Latencies)
    requires AllPrinted(format, lib, ps + [p]) && AllFit(ps + [p], limit)
    ensures AllPrinted(format, lib, ps) && AllFit(ps, limit) && WellPrinted(format, lib, p) && Fits(p, limit)
    ensures EffectAll(format, lib, ps + [p], limit, res)
         == Effect(format, lib, p, limit, EffectAll(format, lib, ps, limit, res))
    decreases |ps|
  {
    hide Effect, WellPrinted, Fits;
    assert forall k | 0 <= k < |ps| :: ps[k] == (ps + [p])[k];
    assert (ps + [p])[|ps|] == p;
    if ps == [] {
      assert ps + [p] == [p] && [p][1..] == [];
    } else {
      assert (ps + [p])[1..] == ps[1..] + [p];
      EffectSnoc(format, lib, ps[1..], p, limit, Effect(format, lib, ps[0], limit, res));
    }
  }

  /** The sections are last-wins: a namespace and operation read the last section that feeds them. */
  lemma {:induction false} LastSectionWins(format: Format, lib: Library, ps: seq<Printed>, limit: nat, ns: string,
                                           op: string)
    requires AllPrinted(format, lib, ps) && AllFit(ps, limit)
    ensures Lookup(EffectAll(format, lib, ps, limit, map[]), ns, op) == LastSection(format, lib, ps, limit, ns, op)
    decreases |ps|
  {
    hide HistogramOf, WellPrinted, Fits;
    if ps != [] {
      var front, p := ps[..|ps| - 1], ps[|ps| - 1];
      assert front + [p] == ps;
      LastSectionWins(format, lib, front, limit, ns, op);
      EffectSnoc(format, lib, front, p, limit, map[]);
    }
  }

  // ----- Buckets of no operations -----

  lemma ZeroTexts()
    ensures PrintAll([Data("a", "r", Unit("ms"), ["9", "0", "0"])]) == "{a}-r:ms,9,0,0;"
  {
    var p := Data("a", "r", Unit("ms"), ["9", "0", "0"]);
    assert [p][1..] == [];
    var v := p.values;
    assert v[1..] == ["0", "0"] && v[1..][1..] == ["0"];
    assert Join(["0", "0"], ',') == "0,0";
    assert Join(v, ',') == "9,0,0";
    assert PrintStart(p.start) == "ms,";
  }

  lemma FirstPowers()
    ensures BucketLabels(Powers, 2) == ["1", "2"]
  {
    assert Pow2(0) == 1 && Pow2(1) == 2;
    assert Itoa(1) == "1" && Itoa(2) == "2";
  }

  lemma ZeroHistogram(lib: Library, unit: string, values: seq<string>)
    requires |values| == 3 && AllNumeric(lib, values) && Number(lib, values[0]) == 9.0
    requires lib.parseFloat(values[1]) == Some(0.0) && lib.parseFloat(values[2]) == Some(0.0)
    ensures HistogramOf(lib, Unit(unit), values, 0)
         == Histogram(["+Inf", "1", "2"], [9.0, 9.0, 9.0], TrimSuffix(unit, "ec"))
  {
    FirstPowers();
    hide BucketLabels;
    assert Counts(lib, 9.0, values, 2) == [9.0, 9.0];
    hide Counts;
    assert ["+Inf"] + ["1", "2"] == ["+Inf", "1", "2"] && [9.0] + [9.0, 9.0] == [9.0, 9.0, 9.0];
  }

  lemma OneSection(lib: Library, p: Printed)
    requires WellPrinted(Current, lib, p) && p.Data?
    ensures AllPrinted(Current, lib, [p]) && AllFit([p], 0)
    ensures EffectAll(Current, lib, [p], 0, map[]) == map[p.ns := map[p.op := HistogramOf(lib, p.start, p.values, 0)]]
  {
    hide HistogramOf, WellNamed;
    assert [p][1..] == [];
  }

  /** For instance, of two buckets that hold nothing more than the one in front of them both are kept. */
  lemma ZeroBucketsAreKept(lib: Library)
    requires lib.parseFloat("9") == Some(9.0) && lib.parseFloat("0") == Some(0.0)
    ensures Parse(Current, lib, "{a}-r:ms,9,0,0;", 0, map[])
         == Some(map["a" := map["r" := Histogram(["+Inf", "1", "2"], [9.0, 9.0, 9.0], "ms")]])
  {
    var values := ["9", "0", "0"];
    var p := Data("a", "r", Unit("ms"), values);
    assert Numeric(lib, "9") && Numeric(lib, "0");
    assert WellPrinted(Current, lib, p) && TrimSuffix("ms", "ec") == "ms";
    hide *;
    ZeroTexts();
    ZeroValues(lib);
    OneSection(lib, p);
    RoundTrip(Current, lib, [p], 0);
  }

  lemma ZeroValues(lib: Library)
    requires lib.parseFloat("9") == Some(9.0) && lib.parseFloat("0") == Some(0.0)
    ensures var values := ["9", "0", "0"];
            && AllNumeric(lib, values) && LabelsFit(LabellingOf(Unit("ms")), |values|, 0)
            && HistogramOf(lib, Unit("ms"), values, 0) == Histogram(["+Inf", "1", "2"], [9.0, 9.0, 9.0], "ms")
  {
    assert Numeric(lib, "9") && Numeric(lib, "0");
    assert TrimSuffix("ms", "ec") == "ms";
    ZeroHistogram(lib, "ms", ["9", "0", "0"]);
    hide HistogramOf;
  }

  // ----- The bucket limit -----

  function Take<T>(s: seq<T>, n: nat): seq<T>
  {
    if n <= |s| then s[..n] else s
  }

  lemma TakeCons<T>(x: T, s: seq<T>, n: nat)
    ensures Take([x] + s, n + 1) == [x] + Take(s, n)
  {
  }

  lemma TakeShort<T>(n: nat)
    requires n >= 1
    ensures Take<T>([], n) == [] && forall x: T ::
                                      Take([x], n) == [x] && forall x: T, s: seq<T> :: Take([x] + s, 1) == [x]
  {
  }

  /** The first min(limit, n) + 1 entries of the n + 1 buckets. */
  function Cut(h: Histogram, limit: nat): Histogram
  {
    h.(bucketLabels := Take(h.bucketLabels, limit + 1), bucketValues := Take(h.bucketValues, limit + 1))
  }

  function CutAll(res: Latencies, limit: nat): Latencies
  {
    map ns | ns in res :: map op | op in res[ns] :: Cut(res[ns][op], limit)
  }

  lemma {:induction false} CutBuckets(lib: Library, fields: seq<string>, labelling: Labelling, total: real, limit: nat,
                                      i: nat)
    requires 1 <= i <= limit
    requires BucketsFrom(lib, fields, labelling, total, 0, i).Some?
    ensures var full := BucketsFrom(lib, fields, labelling, total, 0, i).value;
            BucketsFrom(lib, fields, labelling, total, limit, i)
              == Some(Buckets(Take(full.labels, limit - i + 1), Take(full.values, limit - i + 1)))
    decreases |fields| - i
  {
    hide Below, LabelAt, Take;
    TakeShort<string>(limit - i + 1);
    TakeShort<real>(limit - i + 1);
    if i < |fields| && lib.parseFloat(fields[i]).Some? && i < limit {
      var le, value := LabelAt(labelling, i).value, Below(total, lib.parseFloat(fields[i]).value);
      CutBuckets(lib, fields, labelling, total, limit, i + 1);
      var more := BucketsFrom(lib, fields, labelling, total, 0, i + 1).value;
      TakeCons(le, more.labels, limit - i);
      TakeCons(value, more.values, limit - i);
    }
  }

  lemma CutBuild(lib: Library, values: Read, labelling: Labelling, limit: nat, timeUnit: string)
    requires limit > 0
    ensures match Build(lib, values, labelling, 0, timeUnit)
            case Halt => Build(lib, values, labelling, limit, timeUnit) == Halt
            case Panic => true
            case Found(h, rest) => Build(lib, values, labelling, limit, timeUnit) == Found(Cut(h, limit), rest)
  {
    var fields := Split(values.text, ',');
    var total := lib.parseFloat(fields[0]);
    if total.Some? && BucketsFrom(lib, fields, labelling, total.value, 0, 1).Some? {
      CutBuckets(lib, fields, labelling, total.value, limit, 1);
      var full := BucketsFrom(lib, fields, labelling, total.value, 0, 1).value;
      TakeCons("+Inf", full.labels, limit);
      TakeCons(total.value, full.values, limit);
    }
  }

  lemma CutBody(format: Format, lib: Library, t: string, limit: nat)
    requires limit > 0
    ensures match ReadBody(format, lib, t, 0)
            case Halt => ReadBody(format, lib, t, limit) == Halt
            case Panic => true
            case Found(h, rest) => ReadBody(format, lib, t, limit) == Found(Cut(h, limit), rest)
  {
    hide Build, ReadOpening;
    var opening := ReadOpening(format, t);
    if opening.Opening? {
      CutBuild(lib, Until(opening.rest, ';'), opening.labelling, limit, opening.timeUnit);
    }
  }

  lemma CutPut(res: Latencies, ns: string, op: string, h: Histogram, limit: nat)
    ensures CutAll(Put(res, ns, op, h), limit) == Put(CutAll(res, limit), ns, op, Cut(h, limit))
  {
    var a, b := CutAll(Put(res, ns, op, h), limit), Put(CutAll(res, limit), ns, op, Cut(h, limit));
    assert a.Keys == b.Keys;
    forall n | n in a
      ensures a[n] == b[n]
    {
      assert a[n].Keys == b[n].Keys;
    }
  }

  /** Two runs over the same text, well formed or not, in either format: when the run without a
      limit ends without a panic, the run with a limit finds the same namespaces, operations and
      time units, and the first limit + 1 entries of every bucket list. */
  lemma {:induction false} LimitOnlyCuts(format: Format, lib: Library, t: string, limit: nat, res: Latencies)
    requires limit > 0
    requires Parse(format, lib, t, 0, res).Some?
    ensures Parse(format, lib, t, limit, CutAll(res, limit)) == Some(CutAll(Parse(format, lib, t, 0, res).value, limit))
    decreases |t|
  {
    ParseUnfolds(format, lib, t, 0, res);
    ParseUnfolds(format, lib, t, limit, CutAll(res, limit));
    var head := ReadHead(t);
    if head.Body? {
      CutBody(format, lib, head.rest, limit);
      var section := ReadBody(format, lib, head.rest, 0);
      if section.Found? {
        CutPut(res, head.ns, head.op, section.histogram, limit);
      }
    }
    match ParseRound(format, lib, t, 0, res)
    case Done =>
    case Crash =>
    case Next(res', rest) => LimitOnlyCuts(format, lib, rest, limit, res');
  }

  lemma BodyNeverPanics(lib: Library, t: string, limit: nat)
    ensures ReadBody(Current, lib, t, limit) != Panic
  {
    var opening := ReadOpening(Current, t);
    if opening.Opening? {
      var fields := Split(Until(opening.rest, ';').text, ',');
      if lib.parseFloat(fields[0]).Some? {
        PowersNeverPanic(lib, fields, lib.parseFloat(fields[0]).value, limit, 1);
      }
    }
    hide BucketsFrom, Split, Until;
  }

  /** The current format never panics. */
  lemma {:induction false} CurrentNeverPanics(lib: Library, t: string, limit: nat, res: Latencies)
    ensures Parse(Current, lib, t, limit, res).Some?
    decreases |t|
  {
    ParseUnfolds(Current, lib, t, limit, res);
    var head := ReadHead(t);
    if head.Body? {
      BodyNeverPanics(lib, head.rest, limit);
    }
    hide ReadHead, ReadBody, Parse;
    match ParseRound(Current, lib, t, limit, res)
    case Done =>
    case Crash =>
    case Next(res', rest) => CurrentNeverPanics(lib, rest, limit, res');
  }
}
