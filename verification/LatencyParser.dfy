/** The cursor parser of the "latencies:" and "latency:" replies. A text is read by a class that
    keeps a position; what it reads is specified by functions on the unread rest of the text. */
module LatencyParser {
  import opened Text
  import opened Numerals
  import opened Wrappers
  import opened AerospikeStat

  /** One histogram: bucket 0 is "+Inf" with the total, bucket i > 0 has the operations up to its label. */
  datatype Histogram = Histogram(bucketLabels: seq<string>, bucketValues: seq<real>, timeUnit: string)

  type Latencies = map<string, map<string, Histogram>>

  datatype Format = Current | Legacy

  // ----- Specification: reading -----

  /** The outcome of ReadUntil: the text it returns, whether it reports the end of input, and the unread rest. */
  datatype Read = Read(text: string, eof: bool, rest: string)

  /** ReadUntil takes the text up to the delimiter. Without a delimiter it reports the end of
      input and still drops the last byte, unless that byte is all there is. */
  function Until(t: string, delim: char): Read
  {
    var i := IndexOf(t, delim);
    if i < |t| then Read(t[..i], false, t[i + 1..])
    else Read(if |t| <= 1 then t else t[..|t| - 1], true, "")
  }

  lemma UntilFound(a: string, delim: char, b: string)
    requires delim !in a
    ensures Until(a + [delim] + b, delim) == Read(a, false, b)
  {
    IndexOfAppend(a, delim, b);
    var t := a + [delim] + b;
    assert t[..|a|] == a && t[|a| + 1..] == b;
  }

  lemma UntilEnd(t: string, delim: char)
    requires delim !in t
    ensures Until(t, delim) == Read(if |t| <= 1 then t else t[..|t| - 1], true, "")
  {
    IndexOfAbsent(t, delim);
  }

  /** The head of a section: stop parsing, go on with the next section, or read a body. */
  datatype Head = Stop | Skip(rest: string) | Body(ns: string, op: string, rest: string)

  function ReadHead(t: string): Head
  {
    if "batch-index" <= t then
      var op := Until(t, ':');
      if op.eof then Stop else Body("", op.text, op.rest)
    else if t == "" then Stop
    else if t[0] != '{' then
      var junk := Until(t[1..], ';');
      if junk.eof then Stop else Skip(junk.rest)
    else
      var ns := Until(t[1..], '}');
      if ns.eof then Stop else ReadOperation(ns.text, ns.rest)
  }

  /** From behind the closing brace of the namespace. */
  function ReadOperation(ns: string, t: string): Head
  {
    if t == "" || t[0] != '-' then Stop
    else
      var op := Until(t[1..], ':');
      if op.eof then Stop
      else if ns == "" && op.text == "" then Skip(op.rest)
      else Body(ns, op.text, op.rest)
  }

  // ----- Specification: buckets -----

  /** Labels and values of the buckets, side by side. */
  datatype Buckets = Buckets(labels: seq<string>, values: seq<real>)

  /** The label of bucket i >= 1. The current format counts in powers of two; the legacy format
      reads its own list of labels, and indexing past its end is a Go panic (None). */
  datatype Labelling = Powers | Named(names: seq<string>)

  function LabelAt(labelling: Labelling, i: nat): Option<string>
    requires i >= 1
  {
    match labelling
    case Powers => Some(Itoa(ShiftOne(i - 1)))
    case Named(names) => if i < |names| then Some(Trim(names[i], "><=ms")) else None
  }

  function Below(total: real, percentage: real): real
  {
    total - percentage * total / 100.0
  }

  /** The buckets from field i on; a field that is no number, or the limit, ends them. None is a panic. */
  function BucketsFrom(lib: Library, fields: seq<string>, labelling: Labelling, total: real, limit: nat,
                       i: nat): Option<Buckets>
    requires i >= 1
    decreases |fields| - i
  {
    if i >= |fields| then Some(Buckets([], []))
    else
      match lib.parseFloat(fields[i])
      case None => Some(Buckets([], []))
      case Some(percentage) =>
        match LabelAt(labelling, i)
        case None => None
        case Some(le) =>
          var value := Below(total, percentage);
          if limit > 0 && i >= limit then Some(Buckets([le], [value]))
          else
            match BucketsFrom(lib, fields, labelling, total, limit, i + 1)
            case None => None
            case Some(more) => Some(Buckets([le] + more.labels, [value] + more.values))
  }

  /** The body of a section: parsing ends, the process panics, or a histogram is read. */
  datatype Section = Halt | Panic | Found(histogram: Histogram, rest: string)

  function Build(lib: Library, values: Read, labelling: Labelling, limit: nat, timeUnit: string): Section
  {
    var fields := Split(values.text, ',');
    match lib.parseFloat(fields[0])
    case None => Halt
    case Some(total) =>
      match BucketsFrom(lib, fields, labelling, total, limit, 1)
      case None => Panic
      case Some(bs) => Found(Histogram(["+Inf"] + bs.labels, [total] + bs.values, timeUnit), values.rest)
  }

  /** What precedes the values of a section: how buckets are labelled, the time unit, and the text from the
      values on. Without the delimiters there are no values. */
  datatype Opening = NoValues | Opening(labelling: Labelling, timeUnit: string, rest: string)

  function ReadOpening(format: Format, t: string): Opening
  {
    match format
    case Current =>
      var unit := Until(t, ',');
      if unit.eof then NoValues else Opening(Powers, TrimSuffix(unit.text, "ec"), unit.rest)
    case Legacy =>
      var stamp := Until(t, ',');
      if stamp.eof then NoValues
      else
        var names := Until(stamp.rest, ';');
        if names.eof then NoValues
        else
          var stamp2 := Until(names.rest, ',');
          if stamp2.eof then NoValues else Opening(Named(Split(names.text, ',')), "ms", stamp2.rest)
  }

  function ReadBody(format: Format, lib: Library, t: string, limit: nat): Section
  {
    match ReadOpening(format, t)
    case NoValues => Halt
    case Opening(labelling, timeUnit, rest) => Build(lib, Until(rest, ';'), labelling, limit, timeUnit)
  }

  // ----- Specification: whole texts -----

  function Put(res: Latencies, ns: string, op: string, histogram: Histogram): Latencies
  {
    res[ns := (if ns in res then res[ns] else map[])[op := histogram]]
  }

  /** What one round of the loop does to the result and to the unread text. */
  datatype Round = Done | Crash | Next(res: Latencies, rest: string)

  function ParseRound(format: Format, lib: Library, t: string, limit: nat, res: Latencies): Round
  {
    match ReadHead(t)
    case Stop => Done
    case Skip(rest) => Next(res, rest)
    case Body(ns, op, rest) =>
      if rest != "" && rest[0] == ';' then Next(res, rest[1..])
      else
        match ReadBody(format, lib, rest, limit)
        case Halt => Done
        case Panic => Crash
        case Found(histogram, rest') => Next(Put(res, ns, op, histogram), rest')
  }

  /** Termination: a round that goes on has consumed at least one byte. */
  lemma RoundConsumes(format: Format, lib: Library, t: string, limit: nat, res: Latencies)
    requires ParseRound(format, lib, t, limit, res).Next?
    ensures |ParseRound(format, lib, t, limit, res).rest| < |t|
  {
    HeadConsumes(t);
    var head := ReadHead(t);
    if head.Body? {
      BodyShrinks(format, lib, head.rest, limit);
    }
  }

  lemma HeadConsumes(t: string)
    ensures ReadHead(t).Skip? || ReadHead(t).Body? ==> |ReadHead(t).rest| < |t|
  {
  }

  lemma BodyShrinks(format: Format, lib: Library, t: string, limit: nat)
    ensures ReadBody(format, lib, t, limit).Found? ==> |ReadBody(format, lib, t, limit).rest| <= |t|
  {
  }

  /** The result of parsing; None is a panic. */
  function Parse(format: Format, lib: Library, t: string, limit: nat, res: Latencies): Option<Latencies>
    decreases |t|
  {
    match ParseRound(format, lib, t, limit, res)
    case Done => Some(res)
    case Crash => None
    case Next(res', rest) =>
      RoundConsumes(format, lib, t, limit, res);
      Parse(format, lib, rest, limit, res')
  }

  lemma ParseUnfolds(format: Format, lib: Library, t: string, limit: nat, res: Latencies)
    ensures match ParseRound(format, lib, t, limit, res)
            case Done => Parse(format, lib, t, limit, res) == Some(res)
            case Crash => Parse(format, lib, t, limit, res) == None
            case Next(res', rest) =>
              |rest| < |t| && Parse(format, lib, t, limit, res) == Parse(format, lib, rest, limit, res')
  {
    if ParseRound(format, lib, t, limit, res).Next? {
      RoundConsumes(format, lib, t, limit, res);
    }
  }

  // ----- The reader -----

  class LatencyInfoParser {
    const data: string
    var pos: nat

    ghost predicate Valid()
      reads this
    {
      pos <= |data|
    }

    ghost function Rest(): string
      requires Valid()
      reads this
    {
      data[pos..]
    }

    constructor (s: string)
      ensures Valid() && Rest() == s
    {
      data, pos := s, 0;
    }

    /** Does not advance. */
    method PeekAndExpect(s: string) returns (ok: bool)
      requires Valid()
      ensures ok <==> s <= Rest()
    {
      if pos + |s| > |data| {
        return false;
      }
      ok := data[pos..pos + |s|] == s;
    }

    /** Advances by |s| bytes, or to the end of the input, whether or not they are the expected ones. */
    method Expect(s: string) returns (ok: bool)
      requires Valid() && |s| > 0
      modifies this
      ensures Valid()
      ensures ok <==> s <= old(Rest())
      ensures Rest() == if |s| <= |old(Rest())| then old(Rest())[|s|..] else ""
    {
      var end := if pos + |s| <= |data| then pos + |s| else |data|;
      ok := data[pos..end] == s;
      assert Rest()[..end - pos] == data[pos..end];
      pos := end;
    }

    /** bufio.Reader.ReadBytes: up to and including the delimiter, or all of the rest. */
    method ReadBytes(delim: char) returns (v: string, eof: bool)
      requires Valid()
      modifies this
      ensures Valid()
      ensures var t, i := old(Rest()), IndexOf(old(Rest()), delim);
              if i < |t| then !eof && v == t[..i + 1] && Rest() == t[i + 1..]
              else eof && v == t && Rest() == ""
    {
      var start := pos;
      eof := false;
      while pos < |data| && data[pos] != delim
        invariant start <= pos <= |data|
        invariant delim !in data[start..pos]
      {
        pos := pos + 1;
      }
      var t := data[start..];
      if pos < |data| {
        assert t == data[start..pos] + [delim] + data[pos + 1..];
        IndexOfAppend(data[start..pos], delim, data[pos + 1..]);
        pos := pos + 1;
      } else {
        assert t == data[start..pos];
        IndexOfAbsent(t, delim);
        eof := true;
      }
      v := data[start..pos];
    }

    method ReadUntil(delim: char) returns (text: string, eof: bool)
      requires Valid()
      modifies this
      ensures Valid()
      ensures Read(text, eof, Rest()) == Until(old(Rest()), delim)
    {
      var v;
      v, eof := ReadBytes(delim);
      if |v| == 0 {
        return v, eof;
      } else if |v| == 1 {
        if v[0] == delim {
          return "", eof;
        }
        return v, eof;
      }
      text := v[..|v| - 1];
    }
  }

  /** Both names empty and no error means: this was not a section, go on. */
  method ReadNamespaceAndOperation(ip: LatencyInfoParser) returns (ns: string, op: string, err: bool)
    requires ip.Valid()
    modifies ip
    ensures ip.Valid()
    ensures err <==> ReadHead(old(ip.Rest())).Stop?
    ensures !err && ns == "" && op == "" ==> ReadHead(old(ip.Rest())) == Skip(ip.Rest())
    ensures !err && !(ns == "" && op == "") ==> ReadHead(old(ip.Rest())) == Body(ns, op, ip.Rest())
  {
    ns, op := "", "";
    var batch := ip.PeekAndExpect("batch-index");
    if batch {
      UntilKeepsPrefix(ip.Rest());
      op, err := ip.ReadUntil(':');
      return;
    }
    var brace := ip.Expect("{");
    if !brace {
      var junk;
      junk, err := ip.ReadUntil(';');
      return;
    }
    var name;
    name, err := ip.ReadUntil('}');
    if err {
      return;
    }
    var dash := ip.Expect("-");
    if !dash {
      return "", "", true;
    }
    op, err := ip.ReadUntil(':');
    ns := name;
  }

  lemma UntilKeepsPrefix(t: string)
    requires "batch-index" <= t
    ensures Until(t, ':').text != ""
  {
  }

  lemma PowersNeverPanic(lib: Library, fields: seq<string>, total: real, limit: nat, i: nat)
    requires i >= 1
    ensures BucketsFrom(lib, fields, Powers, total, limit, i).Some?
    decreases |fields| - i
  {
  }

  /** The bucket loop of parseLatencyInfo. */
  method BuildPowerBuckets(lib: Library, fields: seq<string>, total: real, limit: nat)
      returns (labels: seq<string>, values: seq<real>)
    ensures var bs := BucketsFrom(lib, fields, Powers, total, limit, 1);
            bs.Some? && labels == ["+Inf"] + bs.value.labels && values == [total] + bs.value.values
  {
    hide Below, Itoa, ShiftOne, Trim;
    labels, values := ["+Inf"], [total];
    var i := 1;
    PowersNeverPanic(lib, fields, total, limit, 1);
    ghost var all := BucketsFrom(lib, fields, Powers, total, limit, 1).value;
    while i < |fields|
      invariant i >= 1
      invariant BucketsFrom(lib, fields, Powers, total, limit, i).Some?
      invariant var more := BucketsFrom(lib, fields, Powers, total, limit, i).value;
                ["+Inf"] + all.labels == labels + more.labels && [total] + all.values == values + more.values
    {
      PowersNeverPanic(lib, fields, total, limit, i + 1);
      var percentage := lib.parseFloat(fields[i]);
      if percentage.None? {
        break;
      }
      labels := labels + [Itoa(ShiftOne(i - 1))];
      values := values + [Below(total, percentage.value)];
      if limit > 0 && i >= limit {
        break;
      }
      i := i + 1;
    }
  }

  /** The time unit and the bucket values of a section. */
  method ReadCurrentBody(ip: LatencyInfoParser, lib: Library, limit: nat) returns (err: bool, histogram: Histogram)
    requires ip.Valid()
    modifies ip
    ensures ip.Valid()
    ensures ReadBody(Current, lib, old(ip.Rest()), limit) == if err then Halt else Found(histogram, ip.Rest())
  {
    histogram := Histogram([], [], "");
    var unit, values, eof;
    unit, err := ip.ReadUntil(',');
    if err {
      return;
    }
    unit := TrimSuffix(unit, "ec");
    values, eof := ip.ReadUntil(';');
    var fields := Split(values, ',');
    var total := lib.parseFloat(fields[0]);
    if total.None? {
      return true, histogram;
    }
    var labels, counts := BuildPowerBuckets(lib, fields, total.value, limit);
    histogram := Histogram(labels, counts, unit);
  }

  /** One round of the loop of parseLatencyInfo: `more` tells whether the loop goes on. */
  method CurrentRound(ip: LatencyInfoParser, lib: Library, limit: nat, res: Latencies) returns (more: bool,
                                                                                                res': Latencies)
    requires ip.Valid()
    modifies ip
    ensures ip.Valid()
    ensures ParseRound(Current, lib, old(ip.Rest()), limit, res) == if more then Next(res', ip.Rest()) else Done
    ensures !more ==> res' == res
  {
    res' := res;
    var ns, op, err := ReadNamespaceAndOperation(ip);
    if err {
      return false, res;
    }
    if ns == "" && op == "" {
      return true, res;
    }
    var empty := ip.PeekAndExpect(";");
    if empty {
      more := ip.Expect(";");
      return;
    }
    var histogram;
    err, histogram := ReadCurrentBody(ip, lib, limit);
    if err {
      return false, res;
    }
    more, res' := true, Put(res, ns, op, histogram);
  }

  /** parseLatencyInfo */
  method ParseLatencyInfo(lib: Library, s: string, limit: nat) returns (res: Latencies)
    ensures Parse(Current, lib, s, limit, map[]) == Some(res)
  {
    var ip := new LatencyInfoParser(s);
    res := map[];
    var more := true;
    while more
      invariant ip.Valid()
      invariant Parse(Current, lib, s, limit, map[])
             == if more then Parse(Current, lib, ip.Rest(), limit, res) else Some(res)
      decreases more, |ip.Rest()|
    {
      ParseUnfolds(Current, lib, ip.Rest(), limit, res);
      more, res := CurrentRound(ip, lib, limit, res);
    }
  }

  /** The bucket loop of parseLatencyInfoLegacy; `panics` when a value has no label. */
  method BuildNamedBuckets(lib: Library, fields: seq<string>, names: seq<string>, total: real, limit: nat)
      returns (panics: bool, labels: seq<string>, values: seq<real>)
    ensures match BucketsFrom(lib, fields, Named(names), total, limit, 1)
            case None => panics
            case Some(bs) => !panics && labels == ["+Inf"] + bs.labels && values == [total] + bs.values
  {
    hide Below, Itoa, ShiftOne, Trim;
    panics, labels, values := false, ["+Inf"], [total];
    var i := 1;
    ghost var all := BucketsFrom(lib, fields, Named(names), total, limit, 1);
    while i < |fields|
      invariant i >= 1
      invariant match BucketsFrom(lib, fields, Named(names), total, limit, i)
                case None => all.None?
                case Some(more) => all.Some? && ["+Inf"] + all.value.labels == labels + more.labels
                                   && [total] + all.value.values == values + more.values
    {
      var percentage := lib.parseFloat(fields[i]);
      if percentage.None? {
        break;
      }
      if i >= |names| {
        return true, labels, values;
      }
      labels := labels + [Trim(names[i], "><=ms")];
      values := values + [Below(total, percentage.value)];
      if limit > 0 && i >= limit {
        break;
      }
      i := i + 1;
    }
  }

  /** A time stamp, the labels, and another time stamp. */
  method ReadLegacyOpening(ip: LatencyInfoParser) returns (names: seq<string>, err: bool)
    requires ip.Valid()
    modifies ip
    ensures ip.Valid()
    ensures ReadOpening(Legacy, old(ip.Rest())) == if err then NoValues else Opening(Named(names), "ms", ip.Rest())
  {
    hide Until;
    names := [];
    var stamp, text;
    stamp, err := ip.ReadUntil(',');
    if err {
      return;
    }
    text, err := ip.ReadUntil(';');
    if err {
      return;
    }
    stamp, err := ip.ReadUntil(',');
    if err {
      return;
    }
    names := Split(text, ',');
  }

  /** Two time stamps, the labels and the values of a section. */
  method ReadLegacyBody(ip: LatencyInfoParser, lib: Library, limit: nat) returns (section: Section)
    requires ip.Valid()
    modifies ip
    ensures ip.Valid()
    ensures section == ReadBody(Legacy, lib, old(ip.Rest()), limit)
    ensures section.Found? ==> section.rest == ip.Rest()
  {
    hide Until, ReadOpening;
    var names, err := ReadLegacyOpening(ip);
    if err {
      return Halt;
    }
    var values;
    values, err := ip.ReadUntil(';');
    var fields := Split(values, ',');
    var total := lib.parseFloat(fields[0]);
    if total.None? {
      return Halt;
    }
    var panics, labels, counts := BuildNamedBuckets(lib, fields, names, total.value, limit);
    if panics {
      return Panic;
    }
    section := Found(Histogram(labels, counts, "ms"), ip.data[ip.pos..]);
  }

  /** One round of the loop of parseLatencyInfoLegacy. */
  method LegacyRound(ip: LatencyInfoParser, lib: Library, limit: nat, res: Latencies)
      returns (more: bool, panics: bool, res': Latencies)
    requires ip.Valid()
    modifies ip
    ensures ip.Valid()
    ensures ParseRound(Legacy, lib, old(ip.Rest()), limit, res) ==
              if panics then Crash else if more then Next(res', ip.Rest()) else Done
    ensures !more ==> res' == res
  {
    panics, res' := false, res;
    var ns, op, err := ReadNamespaceAndOperation(ip);
    if err {
      return false, false, res;
    }
    if ns == "" && op == "" {
      return true, false, res;
    }
    var empty := ip.PeekAndExpect(";");
    if empty {
      more := ip.Expect(";");
      return;
    }
    var section := ReadLegacyBody(ip, lib, limit);
    match section {
      case Halt => more := false;
      case Panic => more, panics := false, true;
      case Found(histogram, _) => more, res' := true, Put(res, ns, op, histogram);
    }
  }

  /** parseLatencyInfoLegacy; None stands for the panic of indexing past the labels. */
  method ParseLatencyInfoLegacy(lib: Library, s: string, limit: nat) returns (out: Option<Latencies>)
    ensures out == Parse(Legacy, lib, s, limit, map[])
  {
    var ip := new LatencyInfoParser(s);
    var res: Latencies, more := map[], true;
    while more
      invariant ip.Valid()
      invariant Parse(Legacy, lib, s, limit, map[])
             == if more then Parse(Legacy, lib, ip.Rest(), limit, res) else Some(res)
      decreases more, |ip.Rest()|
    {
      ParseUnfolds(Legacy, lib, ip.Rest(), limit, res);
      var panics;
      more, panics, res := LegacyRound(ip, lib, limit, res);
      if panics {
        return None;
      }
    }
    out := Some(res);
  }
}
