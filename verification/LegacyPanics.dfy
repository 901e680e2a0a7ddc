/** Exactly when the parser of the legacy format indexes past its labels. */
module LegacyPanics {
  import opened Text
  import opened Wrappers
  import opened AerospikeStat
  import opened LatencyParser
  import opened LatencyLaws

  /** There are more values than labels, the limit does not stop the loop before the labels run out, and all
      fields up to the first one without a label are numbers. Label 0 goes with the total. */
  predicate Overruns(lib: Library, fields: seq<string>, names: seq<string>, limit: nat)
  {
    |names| < |fields| && (limit > 0 ==> |names| <= limit)
      && forall j | 0 <= j <= |names| :: lib.parseFloat(fields[j]).Some?
  }

  lemma {:induction false} BucketsPanic(lib: Library, fields: seq<string>, names: seq<string>, total: real, limit: nat,
                                        i: nat)
    requires 1 <= i <= |names| && (limit > 0 ==> i <= limit)
    ensures BucketsFrom(lib, fields, Named(names), total, limit, i) == None <==>
              |names| < |fields| && (limit > 0 ==> |names| <= limit)
                && forall j | i <= j <= |names| :: lib.parseFloat(fields[j]).Some?
    decreases |names| - i
  {
    hide Below, Trim;
    if i < |names| && i < |fields| && lib.parseFloat(fields[i]).Some? && !(limit > 0 && i >= limit) {
      BucketsPanic(lib, fields, names, total, limit, i + 1);
    }
  }

  lemma BuildPanics(lib: Library, values: Read, names: seq<string>, limit: nat, timeUnit: string)
    requires |names| >= 1
    ensures Build(lib, values, Named(names), limit, timeUnit) == Panic
            <==> Overruns(lib, Split(values.text, ','), names, limit)
  {
    var fields := Split(values.text, ',');
    if lib.parseFloat(fields[0]).Some? {
      BucketsPanic(lib, fields, names, lib.parseFloat(fields[0]).value, limit, 1);
    }
    hide BucketsFrom, Split;
  }

  /** The values of the section at the beginning of a text overrun its labels. */
  predicate SectionOverruns(lib: Library, t: string, limit: nat)
  {
    var opening := ReadOpening(Legacy, t);
    opening.Opening? && opening.labelling.Named?
    && Overruns(lib, Split(Until(opening.rest, ';').text, ','), opening.labelling.names, limit)
  }

  lemma SectionPanics(lib: Library, t: string, limit: nat)
    ensures ReadBody(Legacy, lib, t, limit) == Panic <==> SectionOverruns(lib, t, limit)
  {
    hide Until, Build;
    var opening := ReadOpening(Legacy, t);
    if opening.Opening? {
      BuildPanics(lib, Until(opening.rest, ';'), opening.labelling.names, limit, opening.timeUnit);
    }
  }

  /** The text behind a section that is read, if it is; it does not depend on what the section holds. */
  function Behind(lib: Library, t: string): Option<string>
  {
    match ReadOpening(Legacy, t)
    case NoValues => None
    case Opening(_, _, rest) =>
      var values := Until(rest, ';');
      if lib.parseFloat(Split(values.text, ',')[0]).Some? then Some(values.rest) else None
  }

  lemma BehindFound(lib: Library, t: string, limit: nat)
    ensures !SectionOverruns(lib, t, limit) ==>
              match Behind(lib, t)
              case None => ReadBody(Legacy, lib, t, limit) == Halt
              case Some(rest) => ReadBody(Legacy, lib, t, limit).Found? && ReadBody(Legacy, lib, t, limit).rest == rest
    ensures Behind(lib, t).Some? ==> |Behind(lib, t).value| <= |t|
  {
    SectionPanics(lib, t, limit);
    hide SectionOverruns, BucketsFrom, Split;
  }

  /** Some section that the parser gets to overruns its labels: a condition on the text alone. */
  predicate TextOverruns(lib: Library, t: string, limit: nat)
    decreases |t|
  {
    HeadConsumes(t);
    match ReadHead(t)
    case Stop => false
    case Skip(rest) => TextOverruns(lib, rest, limit)
    case Body(_, _, rest) =>
      if rest != "" && rest[0] == ';' then TextOverruns(lib, rest[1..], limit)
      else
        BehindFound(lib, rest, limit);
        SectionOverruns(lib, rest, limit)
        || (Behind(lib, rest).Some? && TextOverruns(lib, Behind(lib, rest).value, limit))
  }

  /** The legacy parser panics on a text exactly when a section that it gets to overruns its labels. */
  lemma {:induction false} LegacyPanicsExactly(lib: Library, t: string, limit: nat, res: Latencies)
    ensures Parse(Legacy, lib, t, limit, res) == None <==> TextOverruns(lib, t, limit)
    decreases |t|
  {
    hide Parse, ReadBody, SectionOverruns, Behind;
    ParseUnfolds(Legacy, lib, t, limit, res);
    HeadConsumes(t);
    match ReadHead(t)
    case Stop =>
    case Skip(rest) => LegacyPanicsExactly(lib, rest, limit, res);
    case Body(ns, op, rest) =>
      if rest != "" && rest[0] == ';' {
        LegacyPanicsExactly(lib, rest[1..], limit, res);
      } else {
        SectionPanics(lib, rest, limit);
        BehindFound(lib, rest, limit);
        var section := ReadBody(Legacy, lib, rest, limit);
        if section.Found? {
          LegacyPanicsExactly(lib, section.rest, limit, Put(res, ns, op, section.histogram));
        }
      }
  }

  // ----- Printed replies -----

  lemma NumeralsOverrun(lib: Library, values: seq<string>, labelling: Labelling, limit: nat)
    requires |values| >= 1 && AllNumeric(lib, values) && !LabelsFit(labelling, |values|, limit)
    ensures labelling.Named? && Overruns(lib, values, labelling.names, limit)
  {
    assert forall k | 0 <= k < |values| :: Numeric(lib, values[k]);
  }

  lemma BuildCrashes(lib: Library, values: seq<string>, start: Start, limit: nat, rest: string)
    requires |values| >= 1 && AllNumeric(lib, values) && !LabelsFit(LabellingOf(start), |values|, limit)
    requires LabellingOf(start).Named? ==> |LabellingOf(start).names| >= 1
    ensures Build(lib, Read(Join(values, ','), false, rest), LabellingOf(start), limit, UnitOf(start)) == Panic
  {
    NumeralsOverrun(lib, values, LabellingOf(start), limit);
    assert forall k | 0 <= k < |values| :: Numeric(lib, values[k]);
    hide Split, Join, Overruns, Build;
    SplitOfJoin(values, ',');
    BuildPanics(lib, Read(Join(values, ','), false, rest), LabellingOf(start).names, limit, UnitOf(start));
  }

  lemma BodyCrashes(format: Format, lib: Library, p: Printed, limit: nat, rest: string)
    requires WellFilled(format, lib, p) && !Fits(p, limit)
    ensures var t := PrintBody(p) + rest;
            t != "" && t[0] != ';' && ReadBody(format, lib, t, limit) == Panic
  {
    BodyParts(p, rest);
    assert LabellingOf(p.start).Named? ==> |LabellingOf(p.start).names| >= 1;
    hide PrintStart, PrintBody, ReadOpening, Build, Until, Join, WellStarted, LabellingOf;
    StartIsRead(format, p.start, Join(p.values, ',') + ";" + rest);
    ValuesAreRead(lib, p.values, rest);
    BuildCrashes(lib, p.values, p.start, limit, rest);
  }

  /** A printed section whose labels run out makes the parser panic, whatever follows it. */
  lemma SectionCrashes(format: Format, lib: Library, p: Printed, limit: nat, rest: string, res: Latencies)
    requires WellPrinted(format, lib, p) && !Fits(p, limit)
    ensures Parse(format, lib, PrintHead(p) + (PrintBody(p) + rest), limit, res) == None
  {
    var t := PrintBody(p) + rest;
    BodyCrashes(format, lib, p, limit, rest);
    hide PrintBody, PrintHead, ReadHead, ReadBody, WellFilled, Parse;
    HeadIsRead(p, t);
    ParseUnfolds(format, lib, PrintHead(p) + t, limit, res);
  }

  lemma {:induction false} RepliesPanic(format: Format, lib: Library, ps: seq<Printed>, tail: string, limit: nat,
                                        res: Latencies)
    requires AllPrinted(format, lib, ps) && !AllFit(ps, limit)
    ensures Parse(format, lib, PrintAll(ps) + tail, limit, res) == None
    decreases |ps|
  {
    hide WellPrinted, Fits, Parse, ParseRound, PrintHead, PrintBody, Effect;
    var p, t, rest := ps[0], PrintAll(ps) + tail, PrintAll(ps[1..]) + tail;
    assert t == PrintHead(p) + PrintBody(p) + rest == PrintHead(p) + (PrintBody(p) + rest);
    assert forall k | 0 < k < |ps| :: ps[k] == ps[1..][k - 1];
    if Fits(p, limit) {
      SectionIsRead(format, lib, p, limit, rest, t, res);
      ParseUnfolds(format, lib, t, limit, res);
      RepliesPanic(format, lib, ps[1..], tail, limit, Effect(format, lib, p, limit, res));
    } else {
      SectionCrashes(format, lib, p, limit, rest, res);
    }
  }

  /** Every printed reply, in both formats: parsing gives what the sections contribute, unless some section has more
      values than labels and no limit in the way; then it panics. */
  lemma ReplyIsRead(format: Format, lib: Library, ps: seq<Printed>, limit: nat)
    requires AllPrinted(format, lib, ps)
    ensures Parse(format, lib, PrintAll(ps), limit, map[])
         == if AllFit(ps, limit) then Some(EffectAll(format, lib, ps, limit, map[])) else None
  {
    hide *;
    if AllFit(ps, limit) {
      RoundTrip(format, lib, ps, limit);
    } else {
      RepliesPanic(format, lib, ps, "", limit, map[]);
      assert PrintAll(ps) + "" == PrintAll(ps);
    }
  }

  /** For instance, one label and two values, of which the second has no label. */
  lemma OneLabelTwoValues(lib: Library)
    requires lib.parseFloat("1").Some? && lib.parseFloat("2").Some?
    ensures Parse(Legacy, lib, "{a}-r:t,o;t,1,2;", 0, map[]) == None
  {
    var p := Data("a", "r", Labels("t", ["o"], "t"), ["1", "2"]);
    WitnessText();
    assert Numeric(lib, "1") && Numeric(lib, "2");
    assert AllPrinted(Legacy, lib, [p]);
    assert !Fits([p][0], 0);
    hide *;
    ReplyIsRead(Legacy, lib, [p], 0);
  }

  lemma WitnessText()
    ensures PrintAll([Data("a", "r", Labels("t", ["o"], "t"), ["1", "2"])]) == "{a}-r:t,o;t,1,2;"
  {
    var p := Data("a", "r", Labels("t", ["o"], "t"), ["1", "2"]);
    assert [p][1..] == [];
    assert Join(["1", "2"], ',') == "1,2" by { assert ["1", "2"][1..] == ["2"]; }
    assert PrintStart(p.start) == "t,o;t,";
  }
}
