/** The string operations the exporter leans on, on Go strings seen as sequences of bytes:
    Split, Join, Contains, ReplaceAll with an empty replacement, TrimSuffix and Trim. */
module Text {

  /** The position of the first `c` in `s`, or |s| when there is none. */
  function IndexOf(s: string, c: char): (i: nat)
    ensures i <= |s|
    ensures forall j | 0 <= j < i :: s[j] != c
    ensures i < |s| ==> s[i] == c
  {
    if s == "" || s[0] == c then 0 else 1 + IndexOf(s[1..], c)
  }

  /** strings.Split with a one-byte separator. */
  function Split(s: string, c: char): (parts: seq<string>)
    ensures |parts| >= 1
    ensures forall k | 0 <= k < |parts| :: c !in parts[k]
    decreases |s|
  {
    var i := IndexOf(s, c);
    if i == |s| then [s] else [s[..i]] + Split(s[i + 1..], c)
  }

  function Join(parts: seq<string>, c: char): string
  {
    if |parts| == 0 then "" else if |parts| == 1 then parts[0] else parts[0] + [c] + Join(parts[1..], c)
  }

  /** strings.Contains */
  predicate Contains(s: string, pat: string)
  {
    pat <= s || (s != "" && Contains(s[1..], pat))
  }

  /** strings.ReplaceAll(s, pat, ""): occurrences are found from the left and do not overlap. */
  function RemoveAll(s: string, pat: string): string
    requires pat != ""
    decreases |s|
  {
    if s == "" then ""
    else if pat <= s then RemoveAll(s[|pat|..], pat)
    else [s[0]] + RemoveAll(s[1..], pat)
  }

  /** strings.TrimSuffix */
  function TrimSuffix(s: string, suffix: string): string
  {
    if |suffix| <= |s| && s[|s| - |suffix|..] == suffix then s[..|s| - |suffix|] else s
  }

  /** strings.Trim: drops bytes of `cut` from both ends. */
  function Trim(s: string, cut: string): string
    decreases |s|
  {
    if s == "" then ""
    else if s[0] in cut then Trim(s[1..], cut)
    else if s[|s| - 1] in cut then Trim(s[..|s| - 1], cut)
    else s
  }

  /** A lookup in a Go map[string]string: an absent key reads as the empty string. */
  function Get(m: map<string, string>, k: string): string
  {
    if k in m then m[k] else ""
  }

  // ----- IndexOf and Split -----

  lemma {:induction false} IndexOfAppend(a: string, c: char, b: string)
    requires c !in a
    ensures IndexOf(a + [c] + b, c) == |a|
  {
    var s := a + [c] + b;
    assert s[|a|] == c;
    assert forall j | 0 <= j < |a| :: s[j] == a[j];
  }

  lemma IndexOfAbsent(s: string, c: char)
    ensures IndexOf(s, c) == |s| <==> c !in s
  {
    if c in s {
      var j :| 0 <= j < |s| && s[j] == c;
    }
  }

  lemma {:induction false} SplitAppend(a: string, c: char, b: string)
    requires c !in a
    ensures Split(a + [c] + b, c) == [a] + Split(b, c)
  {
    IndexOfAppend(a, c, b);
    var s := a + [c] + b;
    assert s[..|a|] == a && s[|a| + 1..] == b;
  }

  lemma SplitAbsent(s: string, c: char)
    requires c !in s
    ensures Split(s, c) == [s]
  {
    IndexOfAbsent(s, c);
  }

  /** Split undoes Join. */
  lemma {:induction false} SplitOfJoin(parts: seq<string>, c: char)
    requires |parts| >= 1
    requires forall k | 0 <= k < |parts| :: c !in parts[k]
    ensures Split(Join(parts, c), c) == parts
    decreases |parts|
  {
    if |parts| == 1 {
      SplitAbsent(parts[0], c);
    } else {
      SplitOfJoin(parts[1..], c);
      SplitAppend(parts[0], c, Join(parts[1..], c));
    }
  }

  lemma Regroup<T>(a: seq<T>, b: seq<T>, c: seq<T>)
    ensures (a + b) + c == a + (b + c)
  {
  }

  /** A last piece is split off. */
  lemma SplitSnoc(s: string, c: char, piece: string)
    requires c !in piece
    ensures Split(s + [c] + piece, c) == Split(s, c) + [piece]
  {
    SplitAbsent(piece, c);
    SplitAcross(s, c, piece);
  }

  /** A separator cuts a text into parts that are split apart. */
  lemma {:induction false} SplitAcross(a: string, c: char, b: string)
    ensures Split(a + [c] + b, c) == Split(a, c) + Split(b, c)
    decreases |a|
  {
    var i := IndexOf(a, c);
    IndexOfAbsent(a, c);
    var x, y := a[..i], if i < |a| then a[i + 1..] else "";
    hide Split, IndexOf;
    if i == |a| {
      SplitAbsent(a, c);
      SplitAppend(a, c, b);
    } else {
      SplitAcross(y, c, b);
      assert a == x + [c] + y;
      Regroup(x + [c], y, [c]);
      Regroup(x + [c], y + [c], b);
      SplitAppend(x, c, y);
      SplitAppend(x, c, y + [c] + b);
      Regroup([x], Split(y, c), Split(b, c));
    }
  }

  /** A byte absent from the text is absent from all its pieces. */
  lemma {:induction false} SplitKeepsAbsence(s: string, c: char, d: char)
    requires d !in s
    ensures forall k | 0 <= k < |Split(s, c)| :: d !in Split(s, c)[k]
    decreases |s|
  {
    var i := IndexOf(s, c);
    if i < |s| {
      SplitKeepsAbsence(s[i + 1..], c, d);
    }
  }

  // ----- Contains and RemoveAll -----

  lemma RemoveAllAbsent(s: string, pat: string)
    requires pat != "" && !Contains(s, pat)
    ensures RemoveAll(s, pat) == s
  {
  }

  lemma {:induction false} RemoveAllShrinks(s: string, pat: string)
    requires pat != ""
    ensures |RemoveAll(s, pat)| <= |s|
    ensures Contains(s, pat) ==> |RemoveAll(s, pat)| < |s|
    decreases |s|
  {
    if s != "" {
      if pat <= s {
        RemoveAllShrinks(s[|pat|..], pat);
      } else {
        RemoveAllShrinks(s[1..], pat);
      }
    }
  }

  /** Removal leaves a text alone exactly when the pattern does not occur in it. */
  lemma RemoveAllFixes(s: string, pat: string)
    requires pat != ""
    ensures RemoveAll(s, pat) == s <==> !Contains(s, pat)
  {
    if Contains(s, pat) {
      RemoveAllShrinks(s, pat);
    } else {
      RemoveAllAbsent(s, pat);
    }
  }

  lemma RemoveAllLeading(pat: string, s: string)
    requires pat != ""
    ensures RemoveAll(pat + s, pat) == RemoveAll(s, pat)
  {
    assert (pat + s)[|pat|..] == s;
  }

  lemma PrefixAcross(a: string, c: char, b: string, pat: string)
    requires c !in pat
    ensures pat <= a + [c] + b <==> pat <= a
  {
    var s := a + [c] + b;
    assert s[|a|] == c;
    assert |pat| <= |a| ==> s[..|pat|] == a[..|pat|];
    assert forall k | 0 <= k < |pat| :: pat[k] != c;
    assert pat <= s ==> forall k | 0 <= k < |pat| :: pat[k] == s[k];
  }

  /** A byte that the pattern does not use cuts the text into parts that are treated apart. */
  lemma {:induction false} RemoveAllAcross(a: string, c: char, b: string, pat: string)
    requires pat != "" && c !in pat
    ensures RemoveAll(a + [c] + b, pat) == RemoveAll(a, pat) + [c] + RemoveAll(b, pat)
    decreases |a|
  {
    var s := a + [c] + b;
    PrefixAcross(a, c, b, pat);
    if a == "" {
      assert s[1..] == b;
    } else if pat <= a {
      assert s[|pat|..] == a[|pat|..] + [c] + b;
      RemoveAllAcross(a[|pat|..], c, b, pat);
    } else {
      assert s[1..] == a[1..] + [c] + b;
      RemoveAllAcross(a[1..], c, b, pat);
    }
  }
}
