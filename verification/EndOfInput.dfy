/** What the latency parsers make of the end of their input. */
module EndOfInput {
  import opened Text
  import opened Wrappers
  import opened AerospikeStat
  import opened LatencyParser
  import opened LatencyLaws
  import opened LegacyPanics

  // ----- The last byte of a text -----

  lemma UntilLastByte(s: string, c: char, delim: char)
    ensures delim in s ==>
              var u := Until(s, delim);
              !u.eof && Until(s + [c], delim) == Read(u.text, false, u.rest + [c]) && |u.rest| < |s|
    ensures delim !in s ==> Until(s, delim).eof
    ensures delim !in s ==>
              Until(s + [c], delim) == if c == delim then Read(s, false, "")
                                       else Read(if s == "" then [c] else s, true, "")
  {
    var i := IndexOf(s, delim);
    IndexOfAbsent(s, delim);
    if i < |s| {
      assert s + [c] == s[..i] + [delim] + (s[i + 1..] + [c]);
      UntilFound(s[..i], delim, s[i + 1..] + [c]);
    } else if c == delim {
      assert s + [c] == s + [delim] + "";
      UntilFound(s, delim, "");
    } else {
      UntilEnd(s + [c], delim);
      assert (s + [c])[..|s|] == s;
    }
  }

  /** Nothing is left to parse behind such a head. */
  predicate DeadEnd(head: Head)
  {
    head.Stop? || head.rest == ""
  }

  /** One more byte: a head that was complete stays the same, one that was not comes to nothing. */
  predicate Lengthened(short: Head, long: Head, c: char, size: nat)
  {
    match short
    case Stop => DeadEnd(long)
    case Skip(rest) => |rest| < size && long == Skip(rest + [c])
    case Body(ns, op, rest) => |rest| < size && long == Body(ns, op, rest + [c])
  }

  lemma BatchLastByte(s: string, c: char)
    requires "batch-index" <= s
    ensures Lengthened(ReadHead(s), ReadHead(s + [c]), c, |s|)
  {
    UntilLastByte(s, c, ':');
    assert "batch-index" <= s + [c];
  }

  /** A text that turns into "batch-index" only with its last byte comes to nothing. */
  lemma BatchCompletes(s: string, c: char)
    requires !("batch-index" <= s) && "batch-index" <= s + [c]
    ensures ReadHead(s) == Stop && ReadHead(s + [c]) == Stop
  {
    hide IndexOf;
    assert |s| == 10;
    assert s + [c] == "batch-index";
    assert forall i | 0 <= i < |s| :: s[i] == "batch-index"[i];
    UntilEnd("batch-index", ':');
    UntilEnd(s[1..], ';');
  }

  lemma JunkLastByte(s: string, c: char)
    requires s != "" && s[0] != '{' && !("batch-index" <= s) && !("batch-index" <= s + [c])
    ensures Lengthened(ReadHead(s), ReadHead(s + [c]), c, |s|)
  {
    var t := s + [c];
    assert t[1..] == s[1..] + [c] && t[0] == s[0];
    UntilLastByte(s[1..], c, ';');
  }

  lemma OperationLastByte(ns: string, r: string, c: char)
    ensures Lengthened(ReadOperation(ns, r), ReadOperation(ns, r + [c]), c, |r|)
  {
    var x := r + [c];
    if r == "" {
      assert x[1..] == "";
    } else {
      assert x[1..] == r[1..] + [c] && x[0] == r[0];
      UntilLastByte(r[1..], c, ':');
    }
  }

  lemma BraceLastByte(s: string, c: char)
    requires s != "" && s[0] == '{'
    ensures Lengthened(ReadHead(s), ReadHead(s + [c]), c, |s|)
  {
    var t := s + [c];
    assert t[1..] == s[1..] + [c] && t[0] == '{';
    assert ReadOperation(s[1..], "") == Stop;
    hide ReadOperation;
    UntilLastByte(s[1..], c, '}');
    if '}' in s[1..] {
      OperationLastByte(Until(s[1..], '}').text, Until(s[1..], '}').rest, c);
    }
  }

  lemma HeadLastByte(s: string, c: char)
    ensures Lengthened(ReadHead(s), ReadHead(s + [c]), c, |s|)
  {
    if "batch-index" <= s {
      BatchLastByte(s, c);
    } else if "batch-index" <= s + [c] {
      BatchCompletes(s, c);
    } else if s == "" {
      assert [c][1..] == "" && s + [c] == [c];
    } else if s[0] == '{' {
      BraceLastByte(s, c);
    } else {
      JunkLastByte(s, c);
    }
  }

  lemma OpeningLastByte(format: Format, t: string, c: char)
    ensures match ReadOpening(format, t)
            case NoValues => ReadOpening(format, t + [c]).Opening? ==> ReadOpening(format, t + [c]).rest == ""
            case Opening(labelling, timeUnit, rest) =>
              |rest| < |t| && ReadOpening(format, t + [c]) == Opening(labelling, timeUnit, rest + [c])
  {
    hide Until, IndexOf;
    UntilEnd("", ';');
    UntilEnd("", ',');
    UntilLastByte(t, c, ',');
    if format == Legacy && ',' in t {
      var q := Until(t, ',').rest;
      UntilLastByte(q, c, ';');
      if ';' in q {
        UntilLastByte(Until(q, ';').rest, c, ',');
      }
    }
  }

  /** A section whose values are about to begin where the text breaks off, and the result so far. */
  datatype Open = Open(ns: string, op: string, timeUnit: string, res: Latencies)

  /** Whether parsing breaks off just where the values of a section would begin: behind the comma that
      precedes them. */
  function BreaksOff(format: Format, lib: Library, t: string, limit: nat, res: Latencies): Option<Open>
    decreases |t|, 1
  {
    HeadConsumes(t);
    match ReadHead(t)
    case Stop => None
    case Skip(rest) => BreaksOff(format, lib, rest, limit, res)
    case Body(ns, op, rest) => BreaksOffIn(format, lib, rest, ns, op, limit, res)
  }

  /** The same from behind a section head. */
  function BreaksOffIn(format: Format, lib: Library, t: string, ns: string, op: string, limit: nat,
                       res: Latencies): Option<Open>
    decreases |t|, 2
  {
    if t == "" then None
    else if t[0] == ';' then BreaksOff(format, lib, t[1..], limit, res)
    else
      match ReadOpening(format, t)
      case NoValues => None
      case Opening(_, timeUnit, tail) =>
        if tail == "" then Some(Open(ns, op, timeUnit, res))
        else if ';' !in tail then None
        else
          BodyShrinks(format, lib, t, limit);
          match ReadBody(format, lib, t, limit)
          case Halt => None
          case Panic => None
          case Found(h, rest) => BreaksOff(format, lib, rest, limit, Put(res, ns, op, h))
  }

  /** What a single byte of values reads as: a total, if it is a digit. */
  function ByteReads(lib: Library, c: char): Option<real>
  {
    if c == ';' || c == ',' then None else lib.parseFloat([c])
  }

  /** The result when the values consist of one byte. */
  function WithByte(lib: Library, open: Open, c: char): Latencies
  {
    match ByteReads(lib, c)
    case None => open.res
    case Some(total) => Put(open.res, open.ns, open.op, Histogram(["+Inf"], [total], open.timeUnit))
  }

  lemma OneByte(lib: Library, labelling: Labelling, timeUnit: string, c: char, limit: nat)
    requires lib.parseFloat("") == None
    ensures Build(lib, Until([c], ';'), labelling, limit, timeUnit) ==
              match ByteReads(lib, c)
              case None => Halt
              case Some(total) => Found(Histogram(["+Inf"], [total], timeUnit), "")
  {
    UntilLastByte("", c, ';');
    assert "" + [c] == [c];
    SplitAbsent("", ',');
    if c == ',' {
      SplitAppend("", ',', "");
      assert "" + [','] + "" == [c];
    } else {
      SplitAbsent([c], ',');
    }
    assert forall total: real :: BucketsFrom(lib, [[c]], labelling, total, limit, 1) == Some(Buckets([], []));
    assert ["+Inf"] + [] == ["+Inf"] && forall total: real :: [total] + [] == [total];
    hide BucketsFrom, Until;
  }

  lemma NoByte(lib: Library, labelling: Labelling, timeUnit: string, limit: nat)
    requires lib.parseFloat("") == None
    ensures Build(lib, Until("", ';'), labelling, limit, timeUnit) == Halt
  {
    hide BucketsFrom;
    SplitAbsent("", ',');
  }

  /** Values of two or more bytes: the last one is lost, or is the delimiter, or starts another section. */
  lemma BuildLastByte(lib: Library, q: string, c: char, labelling: Labelling, limit: nat, timeUnit: string)
    requires q != ""
    ensures ';' !in q ==>
              Build(lib, Until(q + [c], ';'), labelling, limit, timeUnit)
              == Build(lib, Read(q, true, ""), labelling, limit, timeUnit)
    ensures ';' in q ==>
              match Build(lib, Until(q, ';'), labelling, limit, timeUnit)
              case Halt => Build(lib, Until(q + [c], ';'), labelling, limit, timeUnit) == Halt
              case Panic => Build(lib, Until(q + [c], ';'), labelling, limit, timeUnit) == Panic
              case Found(h, rest) => Build(lib, Until(q + [c], ';'), labelling, limit, timeUnit) == Found(h, rest + [c])
  {
    hide BucketsFrom;
    UntilLastByte(q, c, ';');
  }

  /** Parsing from behind a section head. */
  function AfterHead(format: Format, lib: Library, t: string, ns: string, op: string, limit: nat,
                     res: Latencies): Option<Latencies>
  {
    if t != "" && t[0] == ';' then Parse(format, lib, t[1..], limit, res)
    else Outcome(format, lib, ReadBody(format, lib, t, limit), ns, op, limit, res)
  }

  /** Parsing from behind a section. */
  function Outcome(format: Format, lib: Library, section: Section, ns: string, op: string, limit: nat,
                   res: Latencies): Option<Latencies>
  {
    match section
    case Halt => Some(res)
    case Panic => None
    case Found(h, rest) => Parse(format, lib, rest, limit, Put(res, ns, op, h))
  }

  function FromHead(format: Format, lib: Library, head: Head, limit: nat, res: Latencies): Option<Latencies>
  {
    match head
    case Stop => Some(res)
    case Skip(rest) => Parse(format, lib, rest, limit, res)
    case Body(ns, op, rest) => AfterHead(format, lib, rest, ns, op, limit, res)
  }

  lemma ParseFromHead(format: Format, lib: Library, t: string, limit: nat, res: Latencies)
    ensures Parse(format, lib, t, limit, res) == FromHead(format, lib, ReadHead(t), limit, res)
  {
    hide ReadBody, ReadHead;
    ParseUnfolds(format, lib, t, limit, res);
  }

  lemma ParseNothing(format: Format, lib: Library, limit: nat, res: Latencies)
    ensures Parse(format, lib, "", limit, res) == Some(res)
    ensures AfterHead(format, lib, "", "", "", limit, res) == Some(res)
  {
    ParseUnfolds(format, lib, "", limit, res);
  }

  /** A body of one byte or none adds nothing. */
  lemma ShortBody(format: Format, lib: Library, c: char, ns: string, op: string, limit: nat, res: Latencies)
    requires lib.parseFloat("") == None
    ensures AfterHead(format, lib, [c], ns, op, limit, res) == Some(res)
  {
    ParseNothing(format, lib, limit, res);
    OpeningLastByte(format, "", c);
    assert "" + [c] == [c] && [c][1..] == "";
    assert ReadOpening(format, "") == NoValues;
    var opening := ReadOpening(format, [c]);
    if opening.Opening? {
      NoByte(lib, opening.labelling, opening.timeUnit, limit);
    }
    hide Build, ReadOpening, Parse;
  }

  lemma DeadEndResult(format: Format, lib: Library, head: Head, limit: nat, res: Latencies)
    requires DeadEnd(head)
    ensures FromHead(format, lib, head, limit, res) == Some(res)
  {
    ParseUnfolds(format, lib, "", limit, res);
  }

  lemma NoValuesLastByte(format: Format, lib: Library, t: string, c: char, limit: nat)
    requires ReadOpening(format, t) == NoValues && lib.parseFloat("") == None
    ensures ReadBody(format, lib, t + [c], limit) == Halt
  {
    OpeningLastByte(format, t, c);
    var opening := ReadOpening(format, t + [c]);
    if opening.Opening? {
      NoByte(lib, opening.labelling, opening.timeUnit, limit);
    }
    hide Build, ReadOpening, Until;
  }

  /** Where values would begin, the byte is the values. */
  lemma BodyOfOneByte(format: Format, lib: Library, t: string, c: char, ns: string, op: string, limit: nat,
                      res: Latencies)
    requires ReadOpening(format, t).Opening? && ReadOpening(format, t).rest == "" && lib.parseFloat("") == None
    ensures Outcome(format, lib, ReadBody(format, lib, t + [c], limit), ns, op, limit, res)
         == Some(WithByte(lib, Open(ns, op, ReadOpening(format, t).timeUnit, res), c))
  {
    var opening := ReadOpening(format, t);
    OpeningLastByte(format, t, c);
    OneByte(lib, opening.labelling, opening.timeUnit, c, limit);
    assert "" + [c] == [c];
    hide Build, ReadOpening, Until, Parse;
    match ByteReads(lib, c)
    case None =>
    case Some(total) =>
      ParseNothing(format, lib, limit, Put(res, ns, op, Histogram(["+Inf"], [total], opening.timeUnit)));
  }

  /** What parsing s and one more byte comes to, given where parsing s breaks off. */
  ghost predicate LastByteLaw(format: Format, lib: Library, open: Option<Open>, c: char, d: char, x: Option<Latencies>,
                              y: Option<Latencies>)
  {
    match open
    case None => x == y
    case Some(o) => x == Some(WithByte(lib, o, c)) && y == Some(WithByte(lib, o, d))
  }

  /** The law of the last byte, for every text and either format. If parsing breaks off where values would begin,
      the last byte is all there is of them; otherwise it has no influence at all. */
  lemma {:induction false} LastByte(format: Format, lib: Library, s: string, c: char, d: char, limit: nat,
                                    res: Latencies)
    requires lib.parseFloat("") == None
    ensures LastByteLaw(format, lib, BreaksOff(format, lib, s, limit, res), c, d,
                        Parse(format, lib, s + [c], limit, res), Parse(format, lib, s + [d], limit, res))
    decreases |s|, 1
  {
    HeadLastByte(s, c);
    HeadLastByte(s, d);
    ParseFromHead(format, lib, s + [c], limit, res);
    ParseFromHead(format, lib, s + [d], limit, res);
    var head := ReadHead(s);
    hide ReadHead, WithByte, AfterHead, Parse;
    match head {
      case Stop =>
        DeadEndResult(format, lib, ReadHead(s + [c]), limit, res);
        DeadEndResult(format, lib, ReadHead(s + [d]), limit, res);
      case Skip(rest) =>
        LastByte(format, lib, rest, c, d, limit, res);
      case Body(ns, op, rest) =>
        LastByteOfBody(format, lib, rest, c, d, ns, op, limit, res);
    }
  }

  lemma {:induction false} LastByteOfBody(format: Format, lib: Library, t: string, c: char, d: char,
                                          ns: string, op: string, limit: nat, res: Latencies)
    requires lib.parseFloat("") == None
    ensures LastByteLaw(format, lib, BreaksOffIn(format, lib, t, ns, op, limit, res), c, d,
                        AfterHead(format, lib, t + [c], ns, op, limit, res),
                        AfterHead(format, lib, t + [d], ns, op, limit, res))
    decreases |t|, 2
  {
    var x, y := t + [c], t + [d];
    if t == "" {
      assert x == [c] && y == [d];
      ShortBody(format, lib, c, ns, op, limit, res);
      ShortBody(format, lib, d, ns, op, limit, res);
    } else if t[0] == ';' {
      assert x[1..] == t[1..] + [c] && y[1..] == t[1..] + [d];
      LastByte(format, lib, t[1..], c, d, limit, res);
    } else {
      LastByteOfValues(format, lib, t, c, d, ns, op, limit, res);
    }
  }

  lemma {:induction false} LastByteOfValues(format: Format, lib: Library, t: string, c: char, d: char,
                                            ns: string, op: string, limit: nat, res: Latencies)
    requires lib.parseFloat("") == None && t != "" && t[0] != ';'
    ensures LastByteLaw(format, lib, BreaksOffIn(format, lib, t, ns, op, limit, res), c, d,
                        Outcome(format, lib, ReadBody(format, lib, t + [c], limit), ns, op, limit, res),
                        Outcome(format, lib, ReadBody(format, lib, t + [d], limit), ns, op, limit, res))
    decreases |t|, 1
  {
    hide WithByte, Build, Until, ReadOpening, Parse;
    OpeningLastByte(format, t, c);
    OpeningLastByte(format, t, d);
    match ReadOpening(format, t)
    case NoValues =>
      NoValuesLastByte(format, lib, t, c, limit);
      NoValuesLastByte(format, lib, t, d, limit);
    case Opening(labelling, timeUnit, tail) =>
      if tail == "" {
        BodyOfOneByte(format, lib, t, c, ns, op, limit, res);
        BodyOfOneByte(format, lib, t, d, ns, op, limit, res);
      } else {
        BuildLastByte(lib, tail, c, labelling, limit, timeUnit);
        BuildLastByte(lib, tail, d, labelling, limit, timeUnit);
        var section := ReadBody(format, lib, t, limit);
        if ';' in tail && section.Found? {
          BodyEnds(format, lib, t, limit);
          LastByte(format, lib, section.rest, c, d, limit, Put(res, ns, op, section.histogram));
        }
      }
  }

  lemma BodyEnds(format: Format, lib: Library, t: string, limit: nat)
    requires ReadOpening(format, t).Opening? && ';' in ReadOpening(format, t).rest
             && ReadBody(format, lib, t, limit).Found?
    ensures |ReadBody(format, lib, t, limit).rest| < |t|
  {
    UntilLastByte(ReadOpening(format, t).rest, 'x', ';');
    OpeningLastByte(format, t, 'x');
    hide Until, ReadOpening, BucketsFrom;
  }

  /** Whether a byte that is all there is of the values adds a histogram that was not there. */
  predicate ByteMatters(lib: Library, open: Option<Open>, c: char)
  {
    match open
    case None => false
    case Some(o) =>
      match ByteReads(lib, c)
      case None => false
      case Some(total) => Lookup(o.res, o.ns, o.op) != Some(Histogram(["+Inf"], [total], o.timeUnit))
  }

  /** The exact law: the last byte of a text is read like ';' (that is, it is ignored), unless it is a numeral on
      its own where values would begin. */
  lemma LastByteIsIgnored(format: Format, lib: Library, s: string, c: char, limit: nat, res: Latencies)
    requires lib.parseFloat("") == None
    ensures Parse(format, lib, s + [c], limit, res) == Parse(format, lib, s + [';'], limit, res)
       <==> !ByteMatters(lib, BreaksOff(format, lib, s, limit, res), c)
  {
    hide Parse, BreaksOff;
    LastByte(format, lib, s, c, ';', limit, res);
    var open := BreaksOff(format, lib, s, limit, res);
    if open.Some? && ByteReads(lib, c).Some? {
      PutTells(open.value.res, open.value.ns, open.value.op,
               Histogram(["+Inf"], [ByteReads(lib, c).value], open.value.timeUnit));
    }
  }

  lemma PutTells(res: Latencies, ns: string, op: string, h: Histogram)
    ensures Put(res, ns, op, h) == res <==> Lookup(res, ns, op) == Some(h)
  {
    assert Lookup(Put(res, ns, op, h), ns, op) == Some(h);
    if Lookup(res, ns, op) == Some(h) {
      assert res[ns][op := h] == res[ns];
    }
  }

  // ----- Where replies break off -----

  /** The names under which a section is kept, and a section whose values are to come. */
  function NamesOf(p: Printed): (string, string)
    requires p.Filled()
  {
    if p.Data? then (p.ns, p.op) else ("", p.op)
  }

  predicate Begun(format: Format, p: Printed)
  {
    p.Filled() && WellNamed(p) && WellStarted(format, p.start)
  }

  /** A section up to its values, and then some text. */
  function Cutoff(p: Printed, v: string): string
    requires p.Filled()
  {
    PrintHead(p) + (PrintStart(p.start) + v)
  }

  lemma CutoffParts(format: Format, p: Printed, v: string)
    requires Begun(format, p)
    ensures ReadHead(Cutoff(p, v)) == Body(NamesOf(p).0, NamesOf(p).1, PrintStart(p.start) + v)
    ensures ReadOpening(format, PrintStart(p.start) + v) == Opening(LabellingOf(p.start), UnitOf(p.start), v)
    ensures PrintStart(p.start) != "" && (PrintStart(p.start) + v)[0] != ';'
  {
    hide PrintStart, PrintHead, ReadHead, ReadOpening;
    HeadIsRead(p, PrintStart(p.start) + v);
    StartIsRead(format, p.start, v);
  }

  /** Parsing a section that is not followed by another one. */
  lemma SectionResult(format: Format, lib: Library, p: Printed, v: string, limit: nat, res: Latencies)
    requires Begun(format, p)
    ensures Parse(format, lib, Cutoff(p, v), limit, res)
         == Outcome(format, lib, Build(lib, Until(v, ';'), LabellingOf(p.start), limit, UnitOf(p.start)), NamesOf(p).0,
                    NamesOf(p).1, limit, res)
  {
    CutoffParts(format, p, v);
    ParseFromHead(format, lib, Cutoff(p, v), limit, res);
    hide Build, Outcome, Until, ReadHead, ReadOpening, Parse, Cutoff, PrintStart;
  }

  lemma {:induction false} RepliesGoOn(format: Format, lib: Library, ps: seq<Printed>, tail: string, limit: nat,
                                       res: Latencies)
    requires AllPrinted(format, lib, ps) && AllFit(ps, limit)
    ensures BreaksOff(format, lib, PrintAll(ps) + tail, limit, res)
         == BreaksOff(format, lib, tail, limit, EffectAll(format, lib, ps, limit, res))
    decreases |ps|
  {
    hide BreaksOff, PrintHead, PrintBody, Effect, WellPrinted, Fits;
    if ps == [] {
      assert PrintAll(ps) + tail == tail;
    } else {
      var p, rest := ps[0], PrintAll(ps[1..]) + tail;
      assert PrintAll(ps) + tail == PrintHead(p) + (PrintBody(p) + rest);
      SectionGoesOn(format, lib, p, rest, limit, res);
      RepliesGoOn(format, lib, ps[1..], tail, limit, Effect(format, lib, p, limit, res));
    }
  }

  lemma SkippedGoesOn(format: Format, lib: Library, t: string, rest: string, limit: nat, res: Latencies)
    requires ReadHead(t) == Skip(rest)
    ensures BreaksOff(format, lib, t, limit, res) == BreaksOff(format, lib, rest, limit, res)
  {
    hide ReadHead;
  }

  lemma EmptyGoesOn(format: Format, lib: Library, t: string, ns: string, op: string, rest: string, limit: nat,
                    res: Latencies)
    requires ReadHead(t) == Body(ns, op, ";" + rest)
    ensures BreaksOff(format, lib, t, limit, res) == BreaksOff(format, lib, rest, limit, res)
  {
    assert (";" + rest)[1..] == rest;
    hide ReadHead;
  }

  lemma FilledGoesOn(format: Format, lib: Library, t: string, ns: string, op: string, body: string, h: Histogram,
                     rest: string, limit: nat, res: Latencies)
    requires ReadHead(t) == Body(ns, op, body) && body != "" && body[0] != ';'
    requires ReadOpening(format, body).Opening? && ';' in ReadOpening(format, body).rest
    requires ReadBody(format, lib, body, limit) == Found(h, rest)
    ensures BreaksOff(format, lib, t, limit, res) == BreaksOff(format, lib, rest, limit, Put(res, ns, op, h))
  {
    hide ReadHead, ReadBody, ReadOpening, Put;
    assert BreaksOff(format, lib, t, limit, res) == BreaksOffIn(format, lib, body, ns, op, limit, res);
  }

  /** A printed section does not break off. */
  lemma SectionGoesOn(format: Format, lib: Library, p: Printed, rest: string, limit: nat, res: Latencies)
    requires WellPrinted(format, lib, p) && Fits(p, limit)
    ensures BreaksOff(format, lib, PrintHead(p) + (PrintBody(p) + rest), limit, res)
         == BreaksOff(format, lib, rest, limit, Effect(format, lib, p, limit, res))
  {
    hide ReadHead, HistogramOf, WellNamed, ReadBody, ReadOpening, BreaksOff, Put, LabelsFit, PrintStart, WellStarted;
    var t := PrintHead(p) + (PrintBody(p) + rest);
    if p.Junk? {
      assert t == p.text + ";" + rest;
      HeadOfJunk(p.text, rest);
      SkippedGoesOn(format, lib, t, rest, limit, res);
    } else if p.Filled() {
      HeadIsRead(p, PrintBody(p) + rest);
      BodyIsRead(format, lib, p, limit, rest);
      FilledOpens(format, lib, p, rest);
      FilledGoesOn(format, lib, t, NamesOf(p).0, NamesOf(p).1, PrintBody(p) + rest,
                   HistogramOf(lib, p.start, p.values, limit), rest, limit, res);
    } else {
      HeadIsRead(p, ";" + rest);
      EmptyGoesOn(format, lib, t, if p.Empty? then p.ns else "", p.op, rest, limit, res);
    }
  }

  lemma FilledOpens(format: Format, lib: Library, p: Printed, rest: string)
    requires WellFilled(format, lib, p) && p.Filled()
    ensures var tail := Join(p.values, ',') + ";" + rest;
            ReadOpening(format, PrintBody(p) + rest) == Opening(LabellingOf(p.start), UnitOf(p.start), tail)
              && tail != "" && ';' in tail
  {
    var vs := Join(p.values, ',');
    var tail := vs + ";" + rest;
    BodyParts(p, rest);
    hide PrintStart, PrintBody, ReadOpening, Join;
    StartIsRead(format, p.start, tail);
    assert tail[|vs|] == ';';
  }

  /** Any printed reply followed by a section without its delimiter breaks off where values would begin exactly
      when the section has none. */
  lemma ReplyBreaksOff(format: Format, lib: Library, ps: seq<Printed>, p: Printed, v: string, limit: nat,
                       res: Latencies)
    requires AllPrinted(format, lib, ps) && AllFit(ps, limit) && Begun(format, p) && ';' !in v
    ensures BreaksOff(format, lib, PrintAll(ps) + Cutoff(p, v), limit, res) ==
              if v == "" then Some(Open(NamesOf(p).0, NamesOf(p).1, UnitOf(p.start),
                                        EffectAll(format, lib, ps, limit, res))) else None
  {
    RepliesGoOn(format, lib, ps, Cutoff(p, v), limit, res);
    CutoffParts(format, p, v);
    hide ReadHead, ReadOpening, EffectAll, PrintAll, Cutoff, ReadBody, PrintStart;
  }

  /** For replies in both formats: the last byte behind any values text of one byte or more is ignored; behind no
      values at all it counts exactly if it is a numeral (and would not repeat what is already there). Behind a section
      that makes the parser panic nothing counts. */
  lemma LastByteOfReply(format: Format, lib: Library, ps: seq<Printed>, p: Printed, v: string, c: char, limit: nat)
    requires AllPrinted(format, lib, ps) && Begun(format, p) && ';' !in v && lib.parseFloat("") == None
    ensures var t := PrintAll(ps) + Cutoff(p, v);
            (Parse(format, lib, t + [c], limit, map[]) == Parse(format, lib, t + [';'], limit, map[])
             <==> v != "" || c == ';' || c == ',' || lib.parseFloat([c]) == None || !AllFit(ps, limit)
                  || Lookup(EffectAll(format, lib, ps, limit, map[]), NamesOf(p).0, NamesOf(p).1)
                     == Some(Histogram(["+Inf"], [lib.parseFloat([c]).value], UnitOf(p.start))))
  {
    if AllFit(ps, limit) {
      ReplyBreaksOff(format, lib, ps, p, v, limit, map[]);
      LastByteIsIgnored(format, lib, PrintAll(ps) + Cutoff(p, v), c, limit, map[]);
    } else {
      Regroup(PrintAll(ps), Cutoff(p, v), [c]);
      Regroup(PrintAll(ps), Cutoff(p, v), [';']);
      RepliesPanic(format, lib, ps, Cutoff(p, v) + [c], limit, map[]);
      RepliesPanic(format, lib, ps, Cutoff(p, v) + [';'], limit, map[]);
    }
    hide Parse, BreaksOff, EffectAll, PrintAll, Cutoff, Lookup;
  }
}
