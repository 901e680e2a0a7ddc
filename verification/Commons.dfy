/** ParseStats: a `k=v` list cut at a separator, read into a map. */
module Commons {
  import opened Text
  import opened Wrappers

  /** The key and value of a piece `k=v`; none for a piece without '='.
      Only the first '=' separates: the value keeps any further ones. */
  function Pair(piece: string): Option<(string, string)>
  {
    var i := IndexOf(piece, '=');
    if i == |piece| then None else Some((piece[..i], piece[i + 1..]))
  }

  function PutPair(m: map<string, string>, piece: string): map<string, string>
  {
    match Pair(piece)
    case None => m
    case Some(kv) => m[kv.0 := kv.1]
  }

  function PutPairs(pieces: seq<string>): map<string, string>
  {
    if pieces == [] then map[] else PutPair(PutPairs(pieces[..|pieces| - 1]), pieces[|pieces| - 1])
  }

  /** What ParseStats computes. */
  function StatsOf(s: string, sep: char): map<string, string>
  {
    PutPairs(Split(s, sep))
  }

  lemma PutPairsNext(pieces: seq<string>, n: nat)
    requires n < |pieces|
    ensures PutPairs(pieces[..n + 1]) == PutPair(PutPairs(pieces[..n]), pieces[n])
  {
    assert pieces[..n + 1][..n] == pieces[..n];
  }

  method ParseStats(s: string, sep: char) returns (stats: map<string, string>)
    ensures stats == StatsOf(s, sep)
  {
    stats := map[];
    var pieces := Split(s, sep);
    for n := 0 to |pieces|
      invariant stats == PutPairs(pieces[..n])
    {
      PutPairsNext(pieces, n);
      var i := IndexOf(pieces[n], '=');
      if i < |pieces[n]| {
        stats := stats[pieces[n][..i] := pieces[n][i + 1..]];
      }
    }
    assert pieces[..|pieces|] == pieces;
  }

  // ----- What every result looks like -----

  /** A piece carries (k, v) exactly when it is the text k=v with no '=' in k. */
  lemma PairIsText(piece: string, k: string, v: string)
    ensures Pair(piece) == Some((k, v)) <==> '=' !in k && piece == k + "=" + v
  {
    if '=' !in k && piece == k + "=" + v {
      assert piece == k + ['='] + v;
      IndexOfAppend(k, '=', v);
      assert piece[..|k|] == k && piece[|k| + 1..] == v;
    }
    var i := IndexOf(piece, '=');
    if i < |piece| {
      assert piece == piece[..i] + "=" + piece[i + 1..];
    }
  }

  predicate HasKey(piece: string, k: string)
  {
    Pair(piece).Some? && Pair(piece).value.0 == k
  }

  /** Piece n is the last one with key k, and its value is v. */
  predicate LastPair(pieces: seq<string>, k: string, v: string, n: int)
  {
    0 <= n < |pieces| && Pair(pieces[n]) == Some((k, v)) && forall j | n < j < |pieces| :: !HasKey(pieces[j], k)
  }

  /** Repeated keys are last-wins: k reads v exactly when the last piece with key k has value v. */
  lemma {:induction false} LastPairWins(pieces: seq<string>, k: string, v: string)
    ensures (k in PutPairs(pieces) && PutPairs(pieces)[k] == v) <==> exists n :: LastPair(pieces, k, v, n)
  {
    if pieces != [] {
      var last := |pieces| - 1;
      var front := pieces[..last];
      LastPairWins(front, k, v);
      if HasKey(pieces[last], k) {
        assert Pair(pieces[last]) == Some((k, v)) ==> LastPair(pieces, k, v, last);
        assert forall n :: LastPair(pieces, k, v, n) ==> n == last;
      } else {
        if n :| LastPair(front, k, v, n) {
          assert LastPair(pieces, k, v, n);
        }
        if n :| LastPair(pieces, k, v, n) {
          assert n < last;
          assert LastPair(front, k, v, n);
        }
      }
    }
  }

  /** On every input: no key holds '=' or the separator, and no value holds the separator. */
  lemma {:induction false} ParsedKeysAreClean(s: string, sep: char, k: string)
    requires k in StatsOf(s, sep)
    ensures '=' !in k && sep !in k && sep !in StatsOf(s, sep)[k]
  {
    var pieces, v := Split(s, sep), StatsOf(s, sep)[k];
    LastPairWins(pieces, k, v);
    var n :| LastPair(pieces, k, v, n);
    PairIsText(pieces[n], k, v);
    assert forall i | 0 <= i < |k| :: pieces[n][i] == k[i];
    assert forall i | 0 <= i < |v| :: pieces[n][|k| + 1 + i] == v[i];
  }

  /** A byte absent from the text is absent from all keys and values. */
  lemma ParsedAvoids(s: string, sep: char, d: char, k: string)
    requires k in StatsOf(s, sep) && d !in s
    ensures d !in k && d !in StatsOf(s, sep)[k]
  {
    hide PutPairs, Split;
    var pieces, v := Split(s, sep), StatsOf(s, sep)[k];
    LastPairWins(pieces, k, v);
    var n :| LastPair(pieces, k, v, n);
    SplitKeepsAbsence(s, sep, d);
    PairIsText(pieces[n], k, v);
    PartsAvoid(k, v, pieces[n], d);
  }

  lemma PartsAvoid(k: string, v: string, piece: string, d: char)
    requires piece == k + "=" + v && d !in piece
    ensures d !in k && d !in v
  {
    assert forall i | 0 <= i < |k| :: piece[i] == k[i];
    assert forall i | 0 <= i < |v| :: piece[|k| + 1 + i] == v[i];
  }

  /** One more pair at the end of a text. */
  lemma StatsSnoc(s: string, sep: char, k: string, v: string)
    requires '=' !in k && sep !in k && sep !in v && sep != '='
    ensures StatsOf(s + [sep] + (k + "=" + v), sep) == StatsOf(s, sep)[k := v]
  {
    hide Split;
    var piece := k + "=" + v;
    SplitSnoc(s, sep, piece);
    PairIsText(piece, k, v);
    assert (Split(s, sep) + [piece])[..|Split(s, sep)|] == Split(s, sep);
  }

  lemma StatsOne(sep: char, k: string, v: string)
    requires '=' !in k && sep !in k && sep !in v && sep != '='
    ensures StatsOf(k + "=" + v, sep) == map[k := v]
  {
    var piece := k + "=" + v;
    SplitAbsent(piece, sep);
    PairIsText(piece, k, v);
    assert [piece][..|[piece]| - 1] == [];
    assert PutPairs([piece]) == PutPair(PutPairs([]), piece);
  }

  // ----- Round trip -----

  /** A permutation of the keys of a map: the order in which Go walks it. */
  ghost predicate IsOrder<K(!new), V>(order: seq<K>, m: map<K, V>)
  {
    && (forall k :: k in order <==> k in m)
    && (forall i, j | 0 <= i < j < |order| :: order[i] != order[j])
  }

  function Render(m: map<string, string>, order: seq<string>): (pieces: seq<string>)
    requires forall k | k in order :: k in m
    ensures |pieces| == |order|
  {
    if order == [] then []
    else Render(m, order[..|order| - 1]) + [order[|order| - 1] + "=" + m[order[|order| - 1]]]
  }

  lemma {:induction false} RenderAt(m: map<string, string>, order: seq<string>, n: nat)
    requires forall k | k in order :: k in m
    requires n < |order|
    ensures Render(m, order)[n] == order[n] + "=" + m[order[n]]
  {
    if n < |order| - 1 {
      RenderAt(m, order[..|order| - 1], n);
    }
  }

  ghost predicate Printable(m: map<string, string>, sep: char)
  {
    forall k | k in m :: '=' !in k && sep !in k && sep !in m[k]
  }

  /** ParseStats undoes printing, in whatever order the pairs were printed. */
  lemma {:induction false} ParseUndoesPrint(m: map<string, string>, order: seq<string>, sep: char)
    requires sep != '=' && Printable(m, sep) && IsOrder(order, m)
    ensures StatsOf(Join(Render(m, order), sep), sep) == m
  {
    var pieces := Render(m, order);
    forall n | 0 <= n < |pieces|
      ensures sep !in pieces[n]
    {
      RenderAt(m, order, n);
      assert order[n] in m;
    }
    if pieces == [] {
      assert m.Keys == {};
      assert Split("", sep) == [""];
      assert PutPairs([""]) == PutPair(PutPairs([""][..0]), "");
      assert m == map[];
    } else {
      SplitOfJoin(pieces, sep);
      PutRendered(m, order);
      assert PutPairs(pieces) == m;
    }
  }

  lemma {:induction false} PutRendered(m: map<string, string>, order: seq<string>)
    requires forall k | k in order :: k in m && '=' !in k
    ensures PutPairs(Render(m, order)).Keys == set k | k in order
    ensures forall k | k in order :: PutPairs(Render(m, order))[k] == m[k]
  {
    if order != [] {
      var front, k := order[..|order| - 1], order[|order| - 1];
      PutRendered(m, front);
      var pieces := Render(m, order);
      assert pieces[..|pieces| - 1] == Render(m, front);
      PairIsText(pieces[|pieces| - 1], k, m[k]);
      assert forall x | x in order :: x in front || x == k;
    }
  }
}
