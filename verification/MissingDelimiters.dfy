/** What a missing last delimiter of a latency reply changes. */
module MissingDelimiters {
  import opened Text
  import opened Wrappers
  import opened AerospikeStat
  import opened LatencyParser
  import opened LatencyLaws
  import opened LegacyPanics
  import opened EndOfInput

  // ----- A values text and its last byte -----

  predicate HasLabel(labelling: Labelling, j: nat)
  {
    labelling.Named? ==> j < |labelling.names|
  }

  /** Whether the bucket loop gets to convert field n. */
  predicate Reaches(lib: Library, fields: seq<string>, labelling: Labelling, limit: nat, i: nat, n: nat)
    requires n < |fields|
  {
    (limit > 0 ==> n <= limit) && forall j | i <= j < n :: lib.parseFloat(fields[j]).Some? && HasLabel(labelling, j)
  }

  /** Whether losing its last byte changes what field n > 0 contributes: it is a number only with it, or only without
      it; or it has a label, and is another percentage under a total that is not zero. */
  predicate Changes(lib: Library, labelling: Labelling, total: real, w: string, n: nat)
  {
    var cut := if w == "" then None else lib.parseFloat(w[..|w| - 1]);
    lib.parseFloat(w).Some? != cut.Some?
    || (HasLabel(labelling, n) && cut.Some? && total != 0.0 && lib.parseFloat(w) != cut)
  }

  lemma BelowInjective(total: real, p: real, q: real)
    ensures Below(total, p) == Below(total, q) <==> total == 0.0 || p == q
  {
    if Below(total, p) == Below(total, q) {
      assert (p - q) * total == p * total - q * total == 0.0;
    }
  }

  /** The fields of a values text, and those of the same text without its last byte. */
  predicate LosesLastByte(f: seq<string>, g: seq<string>)
  {
    && |f| >= 1
    && var n := |f| - 1;
       g == if f[n] == "" then f[..n] else f[..n] + [f[n][..|f[n]| - 1]]
  }

  lemma LosesCons(a: string, f: seq<string>, g: seq<string>)
    requires LosesLastByte(f, g)
    ensures LosesLastByte([a] + f, [a] + g)
  {
    assert ([a] + f)[..|f|] == [a] + f[..|f| - 1];
  }

  lemma {:induction false} SplitWithoutLast(v: string, c: char)
    requires v != ""
    ensures LosesLastByte(Split(v, c), Split(v[..|v| - 1], c))
    decreases |v|
  {
    var i, u := IndexOf(v, c), v[..|v| - 1];
    IndexOfAbsent(v, c);
    if i == |v| {
      SplitAbsent(v, c);
      SplitAbsent(u, c);
    } else {
      var a, rest := v[..i], v[i + 1..];
      hide Split, IndexOf;
      assert v == a + [c] + rest;
      SplitAppend(a, c, rest);
      if rest == "" {
        assert u == a;
        SplitAbsent(u, c);
        SplitAbsent("", c);
        assert [a, ""][..1] == [a];
      } else {
        SplitWithoutLast(rest, c);
        assert u == a + [c] + rest[..|rest| - 1];
        SplitAppend(a, c, rest[..|rest| - 1]);
        LosesCons(a, Split(rest, c), Split(rest[..|rest| - 1], c));
      }
    }
  }

  lemma StopsAlike(lib: Library, f: seq<string>, g: seq<string>, labelling: Labelling, total: real, limit: nat, i: nat)
    requires 1 <= i < |f| && i < |g| && f[i] == g[i]
    requires lib.parseFloat(f[i]).None? || !HasLabel(labelling, i) || (limit > 0 && i >= limit)
    ensures BucketsFrom(lib, f, labelling, total, limit, i) == BucketsFrom(lib, g, labelling, total, limit, i)
  {
    LabelsEnd(labelling, i);
    hide Below, LabelAt;
  }

  lemma ReachesOn(lib: Library, f: seq<string>, labelling: Labelling, limit: nat, i: nat, n: nat)
    requires i < n < |f|
    ensures Reaches(lib, f, labelling, limit, i, n)
       <==> lib.parseFloat(f[i]).Some? && HasLabel(labelling, i) && Reaches(lib, f, labelling, limit, i + 1, n)
    ensures limit > 0 && i >= limit ==> !Reaches(lib, f, labelling, limit, i, n)
  {
    hide HasLabel;
  }

  lemma LastDiffers(lib: Library, f: seq<string>, g: seq<string>, labelling: Labelling, total: real, limit: nat)
    requires LosesLastByte(f, g) && |f| >= 2
    ensures var n := |f| - 1;
            BucketsFrom(lib, f, labelling, total, limit, n) == BucketsFrom(lib, g, labelling, total, limit, n)
            <==> !Changes(lib, labelling, total, f[n], n)
  {
    var n := |f| - 1;
    LabelsEnd(labelling, n);
    LastBucket(lib, f, labelling, total, limit);
    hide Below, LabelAt, HasLabel;
    if f[n] == "" {
      assert BucketsFrom(lib, g, labelling, total, limit, n) == Some(Buckets([], []));
    } else {
      LastBucket(lib, g, labelling, total, limit);
      if lib.parseFloat(f[n]).Some? && lib.parseFloat(g[n]).Some? {
        BelowInjective(total, lib.parseFloat(f[n]).value, lib.parseFloat(g[n]).value);
      }
    }
    hide BucketsFrom;
  }

  lemma {:induction false} BucketsWithoutLast(lib: Library, f: seq<string>, g: seq<string>, labelling: Labelling,
                                              total: real, limit: nat, i: nat)
    requires LosesLastByte(f, g) && 1 <= i < |f| && (limit > 0 ==> i <= limit)
    ensures BucketsFrom(lib, f, labelling, total, limit, i) == BucketsFrom(lib, g, labelling, total, limit, i)
       <==> !(Reaches(lib, f, labelling, limit, i, |f| - 1)
              && Changes(lib, labelling, total, f[|f| - 1], |f| - 1))
    decreases |f| - i
  {
    hide BucketsFrom, Changes, HasLabel;
    var n := |f| - 1;
    if i == n {
      LastDiffers(lib, f, g, labelling, total, limit);
    } else {
      assert g[i] == f[i];
      LabelsEnd(labelling, i);
      ReachesOn(lib, f, labelling, limit, i, n);
      hide Reaches, LosesLastByte, LabelAt;
      if lib.parseFloat(f[i]).Some? && HasLabel(labelling, i) && !(limit > 0 && i >= limit) {
        BucketsWithoutLast(lib, f, g, labelling, total, limit, i + 1);
        ConsInjective(lib, f, g, labelling, total, limit, i);
      } else {
        StopsAlike(lib, f, g, labelling, total, limit, i);
      }
    }
  }

  lemma LabelsEnd(labelling: Labelling, i: nat)
    requires i >= 1
    ensures LabelAt(labelling, i).Some? <==> HasLabel(labelling, i)
  {
  }

  lemma ConsInjective(lib: Library, f: seq<string>, g: seq<string>, labelling: Labelling, total: real, limit: nat,
                      i: nat)
    requires 1 <= i < |f| && i < |g| && f[i] == g[i] && lib.parseFloat(f[i]).Some? && !(limit > 0 && i >= limit)
    requires LabelAt(labelling, i).Some?
    ensures BucketsFrom(lib, f, labelling, total, limit, i) == BucketsFrom(lib, g, labelling, total, limit, i)
       <==> BucketsFrom(lib, f, labelling, total, limit, i + 1) == BucketsFrom(lib, g, labelling, total, limit, i + 1)
  {
    hide Below, LabelAt;
    var a, b := BucketsFrom(lib, f, labelling, total, limit, i + 1),
      BucketsFrom(lib, g, labelling, total, limit, i + 1);
    var le, value := LabelAt(labelling, i).value, Below(total, lib.parseFloat(f[i]).value);
    if a.Some? && b.Some? {
      assert ([le] + a.value.labels)[1..] == a.value.labels && ([le] + b.value.labels)[1..] == b.value.labels;
      assert ([value] + a.value.values)[1..] == a.value.values && ([value] + b.value.values)[1..] == b.value.values;
    }
  }

  lemma LastBucket(lib: Library, f: seq<string>, labelling: Labelling, total: real, limit: nat)
    requires |f| >= 2
    ensures var n := |f| - 1;
            BucketsFrom(lib, f, labelling, total, limit, n) ==
              match lib.parseFloat(f[n])
              case None => Some(Buckets([], []))
              case Some(p) =>
                match LabelAt(labelling, n)
                case None => None
                case Some(le) => Some(Buckets([le], [Below(total, p)]))
  {
    hide Below, LabelAt;
    var n := |f| - 1;
    assert BucketsFrom(lib, f, labelling, total, limit, n + 1) == Some(Buckets([], []));
    if lib.parseFloat(f[n]).Some? && LabelAt(labelling, n).Some? {
      var le, value := LabelAt(labelling, n).value, Below(total, lib.parseFloat(f[n]).value);
      assert [le] + [] == [le] && [value] + [] == [value];
    }
  }

  /** Whether a values text without its delimiter is read as another histogram than with it: the byte
      that is lost belongs to a field that is converted, and converts to something else without it. */
  predicate DelimiterMatters(lib: Library, labelling: Labelling, v: string, limit: nat)
  {
    |v| >= 2
    && var f := Split(v, ',');
       var n := |f| - 1;
       if n == 0 then lib.parseFloat(v) != lib.parseFloat(v[..|v| - 1])
       else Reaches(lib, f, labelling, limit, 0, n) && Changes(lib, labelling, lib.parseFloat(f[0]).value, f[n], n)
  }

  lemma SameTotal(x: real, a: Option<Buckets>, b: Option<Buckets>, u: string)
    requires a.Some? && b.Some?
    ensures Histogram(["+Inf"] + a.value.labels, [x] + a.value.values, u)
         == Histogram(["+Inf"] + b.value.labels, [x] + b.value.values, u)
       <==> a == b
  {
    var inf := ["+Inf"];
    assert (inf + a.value.labels)[1..] == a.value.labels && (inf + b.value.labels)[1..] == b.value.labels;
    assert ([x] + a.value.values)[1..] == a.value.values && ([x] + b.value.values)[1..] == b.value.values;
  }

  lemma SeveralWithoutLast(lib: Library, v: string, labelling: Labelling, limit: nat, u: string)
    requires |v| >= 2 && ',' in v && HasLabel(labelling, 0)
    ensures var closed, open := Build(lib, Read(v, false, ""), labelling, limit, u),
            Build(lib, Read(v[..|v| - 1], true, ""), labelling, limit, u);
            && (closed == open <==> !DelimiterMatters(lib, labelling, v, limit))
            && (closed == Halt <==> open == Halt)
  {
    SplitWithoutLast(v, ',');
    var f, g := Split(v, ','), Split(v[..|v| - 1], ',');
    var n := |f| - 1;
    IndexOfAbsent(v, ',');
    assert n >= 1 && f[0] == g[0];
    hide BucketsFrom, Split;
    if lib.parseFloat(f[0]).Some? {
      var total := lib.parseFloat(f[0]).value;
      BucketsWithoutLast(lib, f, g, labelling, total, limit, 1);
      assert Reaches(lib, f, labelling, limit, 0, n) == Reaches(lib, f, labelling, limit, 1, n);
      var a, b := BucketsFrom(lib, f, labelling, total, limit, 1), BucketsFrom(lib, g, labelling, total, limit, 1);
      hide Reaches, Changes;
      if a.Some? && b.Some? {
        SameTotal(total, a, b, u);
      }
    } else {
      assert !Reaches(lib, f, labelling, limit, 0, n);
    }
  }

  /** A section of one field. */
  lemma OneField(lib: Library, w: string, eof: bool, labelling: Labelling, limit: nat, u: string)
    requires ',' !in w
    ensures Build(lib, Read(w, eof, ""), labelling, limit, u) ==
              match lib.parseFloat(w)
              case None => Halt
              case Some(total) => Found(Histogram(["+Inf"], [total], u), "")
  {
    SplitAbsent(w, ',');
    if lib.parseFloat(w).Some? {
      var total := lib.parseFloat(w).value;
      assert BucketsFrom(lib, [w], labelling, total, limit, 1) == Some(Buckets([], []));
      assert ["+Inf"] + [] == ["+Inf"] && [total] + [] == [total];
    }
    hide BucketsFrom;
  }

  lemma BuildWithoutLast(lib: Library, v: string, labelling: Labelling, limit: nat, u: string)
    requires |v| >= 2 && HasLabel(labelling, 0)
    ensures Build(lib, Read(v, false, ""), labelling, limit, u)
         == Build(lib, Read(v[..|v| - 1], true, ""), labelling, limit, u)
       <==> !DelimiterMatters(lib, labelling, v, limit)
  {
    if ',' in v {
      hide Build;
      SeveralWithoutLast(lib, v, labelling, limit, u);
    } else {
      SplitAbsent(v, ',');
      OneField(lib, v, false, labelling, limit, u);
      OneField(lib, v[..|v| - 1], true, labelling, limit, u);
      hide Build, Split;
      assert forall x: real, y: real :: [x] == [y] ==> [x][0] == [y][0];
    }
  }

  // ----- The missing delimiter of a reply -----

  /** The one case in which a section that is read only with its delimiter, or only without it, makes no
      difference: its single field gives a total that is already there. */
  predicate Repeats(lib: Library, v: string, res: Latencies, ns: string, op: string, timeUnit: string)
  {
    |v| >= 2 && ',' !in v
    && var full, cut := lib.parseFloat(v), lib.parseFloat(v[..|v| - 1]);
       full.Some? != cut.Some?
       && Lookup(res, ns, op) == Some(Histogram(["+Inf"], [if full.Some? then full.value else cut.value], timeUnit))
  }

  /** In both formats: an unterminated last section of a reply is read like the terminated one exactly when losing the
      last byte of its values does not matter, or repeats what is there, or the parser has panicked before. */
  lemma MissingDelimiter(format: Format, lib: Library, ps: seq<Printed>, p: Printed, v: string, limit: nat)
    requires AllPrinted(format, lib, ps) && Begun(format, p) && ';' !in v
    ensures var t := PrintAll(ps) + Cutoff(p, v);
            (Parse(format, lib, t, limit, map[]) == Parse(format, lib, t + ";", limit, map[])
             <==> !DelimiterMatters(lib, LabellingOf(p.start), v, limit) || !AllFit(ps, limit)
                  || Repeats(lib, v, EffectAll(format, lib, ps, limit, map[]), NamesOf(p).0, NamesOf(p).1,
                             UnitOf(p.start)))
  {
    Regroup(PrintAll(ps), Cutoff(p, v), ";");
    CutoffMore(p, v);
    hide DelimiterMatters, Repeats, NamesOf, EffectAll, PrintAll, Cutoff, Build, Outcome, Parse, AllPrinted, Begun;
    if AllFit(ps, limit) {
      FittingDelimiter(format, lib, ps, p, v, limit);
    } else {
      RepliesPanic(format, lib, ps, Cutoff(p, v), limit, map[]);
      RepliesPanic(format, lib, ps, Cutoff(p, v) + ";", limit, map[]);
    }
  }

  lemma CutoffMore(p: Printed, v: string)
    requires p.Filled()
    ensures Cutoff(p, v) + ";" == Cutoff(p, v + ";")
  {
    hide PrintHead, PrintStart;
  }

  lemma FittingDelimiter(format: Format, lib: Library, ps: seq<Printed>, p: Printed, v: string, limit: nat)
    requires AllPrinted(format, lib, ps) && AllFit(ps, limit) && Begun(format, p) && ';' !in v
    ensures Parse(format, lib, PrintAll(ps) + Cutoff(p, v), limit, map[])
         == Parse(format, lib, PrintAll(ps) + Cutoff(p, v + ";"), limit, map[])
       <==> !DelimiterMatters(lib, LabellingOf(p.start), v, limit)
            || Repeats(lib, v, EffectAll(format, lib, ps, limit, map[]), NamesOf(p).0, NamesOf(p).1, UnitOf(p.start))
  {
    assert HasLabel(LabellingOf(p.start), 0);
    var before, tail := EffectAll(format, lib, ps, limit, map[]), v + ";";
    assert tail == v + [';'] + "";
    UntilFound(v, ';', "");
    UntilEnd(v, ';');
    hide *;
    SectionsAreRead(format, lib, ps, Cutoff(p, v), limit, map[]);
    SectionsAreRead(format, lib, ps, Cutoff(p, tail), limit, map[]);
    SectionResult(format, lib, p, v, limit, before);
    SectionResult(format, lib, p, tail, limit, before);
    LastSectionResult(format, lib, NamesOf(p).0, NamesOf(p).1, LabellingOf(p.start), UnitOf(p.start), v, limit, before);
  }

  lemma PutDiffers(res: Latencies, ns: string, op: string, g: Histogram, h: Histogram)
    ensures Put(res, ns, op, g) == Put(res, ns, op, h) <==> g == h
  {
    assert Lookup(Put(res, ns, op, g), ns, op) == Some(g) && Lookup(Put(res, ns, op, h), ns, op) == Some(h);
  }

  predicate Ends(section: Section)
  {
    section.Found? ==> section.rest == ""
  }

  /** Two ways to end a text come to the same if they read the same, or one of them repeats what is there. */
  lemma OutcomesAgree(format: Format, lib: Library, a: Section, b: Section, ns: string, op: string, limit: nat,
                      res: Latencies)
    requires Ends(a) && Ends(b)
    ensures Outcome(format, lib, a, ns, op, limit, res) == Outcome(format, lib, b, ns, op, limit, res) <==>
              a == b || (a.Found? && b == Halt && Lookup(res, ns, op) == Some(a.histogram))
              || (a == Halt && b.Found? && Lookup(res, ns, op) == Some(b.histogram))
  {
    hide Parse, Put, Lookup;
    if a.Found? {
      ParseNothing(format, lib, limit, Put(res, ns, op, a.histogram));
      PutTells(res, ns, op, a.histogram);
    }
    if b.Found? {
      ParseNothing(format, lib, limit, Put(res, ns, op, b.histogram));
      PutTells(res, ns, op, b.histogram);
    }
    if a.Found? && b.Found? {
      PutDiffers(res, ns, op, a.histogram, b.histogram);
    }
  }

  lemma BuildEnds(lib: Library, v: string, eof: bool, labelling: Labelling, limit: nat, u: string)
    ensures Ends(Build(lib, Read(v, eof, ""), labelling, limit, u))
  {
    hide BucketsFrom, Split;
  }

  lemma LastSectionResult(format: Format, lib: Library, ns: string, op: string, labelling: Labelling, u: string,
                          v: string, limit: nat, res: Latencies)
    requires HasLabel(labelling, 0)
    ensures var closed := Build(lib, Read(v, false, ""), labelling, limit, u);
            var open := Build(lib, Read(if |v| <= 1 then v else v[..|v| - 1], true, ""), labelling, limit, u);
            (Outcome(format, lib, closed, ns, op, limit, res) == Outcome(format, lib, open, ns, op, limit, res)
             <==> !DelimiterMatters(lib, labelling, v, limit) || Repeats(lib, v, res, ns, op, u))
  {
    var cut := if |v| <= 1 then v else v[..|v| - 1];
    var closed, open := Build(lib, Read(v, false, ""), labelling, limit, u),
      Build(lib, Read(cut, true, ""), labelling, limit, u);
    BuildEnds(lib, v, false, labelling, limit, u);
    BuildEnds(lib, cut, true, labelling, limit, u);
    OutcomesAgree(format, lib, closed, open, ns, op, limit, res);
    if |v| <= 1 {
      SameText(lib, v, labelling, limit, u);
    } else {
      BuildWithoutLast(lib, v, labelling, limit, u);
      if ',' in v {
        SeveralWithoutLast(lib, v, labelling, limit, u);
      } else {
        OneField(lib, v, false, labelling, limit, u);
        OneField(lib, cut, true, labelling, limit, u);
      }
      hide DelimiterMatters;
    }
    hide BucketsFrom, Build, Outcome, Lookup, Split;
  }

  lemma SameText(lib: Library, v: string, labelling: Labelling, limit: nat, u: string)
    ensures Build(lib, Read(v, false, ""), labelling, limit, u) == Build(lib, Read(v, true, ""), labelling, limit, u)
  {
  }

  lemma TwelveTexts()
    ensures Begun(Current, Data("a", "r", Unit("ms"), []))
    ensures Cutoff(Data("a", "r", Unit("ms"), []), "12") == "{a}-r:ms,12"
            && Cutoff(Data("a", "r", Unit("ms"), []), "12;") == "{a}-r:ms,12;"
    ensures TrimSuffix("ms", "ec") == "ms" && "12"[..1] == "1" && ',' !in "1" && ',' !in "12"
    ensures Until("12", ';') == Read("1", true, "") && Until("12;", ';') == Read("12", false, "")
  {
    assert "12;" == "12" + [';'] + "" && "12"[..1] == "1";
    UntilEnd("12", ';');
    UntilFound("12", ';', "");
  }

  /** Parsing ends behind a section of one field. */
  lemma OneFieldResult(lib: Library, ns: string, op: string, w: string, eof: bool, u: string)
    requires ',' !in w && lib.parseFloat(w).Some?
    ensures Outcome(Current, lib, Build(lib, Read(w, eof, ""), Powers, 0, u), ns, op, 0, map[])
         == Some(map[ns := map[op := Histogram(["+Inf"], [lib.parseFloat(w).value], u)]])
  {
    hide Parse, Build;
    OneField(lib, w, eof, Powers, 0, u);
    ParseNothing(Current, lib, 0, Put(map[], ns, op, Histogram(["+Inf"], [lib.parseFloat(w).value], u)));
  }

  /** For instance, an unterminated total of 12 is read as 1. */
  lemma UnterminatedTotal(lib: Library)
    requires lib.parseFloat("12") == Some(12.0) && lib.parseFloat("1") == Some(1.0)
    ensures Parse(Current, lib, "{a}-r:ms,12", 0, map[])
         == Some(map["a" := map["r" := Histogram(["+Inf"], [1.0], "ms")]])
    ensures Parse(Current, lib, "{a}-r:ms,12;", 0, map[])
         == Some(map["a" := map["r" := Histogram(["+Inf"], [12.0], "ms")]])
  {
    hide *;
    var p := Data("a", "r", Unit("ms"), []);
    TwelveTexts();
    UnitParts("a", "r", "ms");
    SectionResult(Current, lib, p, "12", 0, map[]);
    SectionResult(Current, lib, p, "12;", 0, map[]);
    OneFieldResult(lib, "a", "r", "1", true, "ms");
    OneFieldResult(lib, "a", "r", "12", false, "ms");
  }

  lemma UnitParts(ns: string, op: string, unit: string)
    ensures var p := Data(ns, op, Unit(unit), []);
            NamesOf(p) == (ns, op) && LabellingOf(p.start) == Powers && UnitOf(p.start) == TrimSuffix(unit, "ec")
  {
  }
}
