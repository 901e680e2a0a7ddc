/** The flattened keys under which the OTel executor finds its instruments: which series they tell apart. */
module MetricKeys {
  import opened Text
  import opened Wrappers

  datatype Label = Label(key: string, value: string)

  /** A metric name with its label pairs, in order. */
  datatype Series = Series(name: string, labels: seq<Label>)

  function LabelText(l: Label): string
  {
    l.key + "=" + l.value
  }

  function MetricKey(s: Series): string
    decreases |s.labels|
  {
    if s.labels == [] then s.name
    else
      var last := |s.labels| - 1;
      MetricKey(s.(labels := s.labels[..last])) + ['|'] + LabelText(s.labels[last])
  }

  lemma KeySnoc(s: Series, l: Label)
    ensures MetricKey(s.(labels := s.labels + [l])) == MetricKey(s) + ['|'] + LabelText(l)
  {
    assert (s.labels + [l])[..|s.labels|] == s.labels;
  }

  // ----- Reading a key back -----

  /** No '=' stands behind a '|', so the text cannot be mistaken for one in which a label begins. */
  predicate BeginsNoLabel(text: string)
  {
    forall i | 0 <= i < |text| && text[i] == '|' :: '=' !in text[i + 1..]
  }

  predicate CleanLabel(l: Label)
  {
    '|' !in l.key && '=' !in l.key && BeginsNoLabel(l.value)
  }

  predicate Clean(s: Series)
  {
    BeginsNoLabel(s.name) && forall l | l in s.labels :: CleanLabel(l)
  }

  /** The last '|' among the first n bytes that has a '=' behind it. */
  function LastBar(text: string, n: nat): (bar: Option<nat>)
    requires n <= |text|
    ensures bar.Some? ==>
              && bar.value < n && text[bar.value] == '|' && '=' in text[bar.value + 1..]
              && forall j | bar.value < j < n && text[j] == '|' :: '=' !in text[j + 1..]
    ensures bar.None? ==> forall j | 0 <= j < n && text[j] == '|' :: '=' !in text[j + 1..]
  {
    if n == 0 then None
    else if text[n - 1] == '|' && '=' in text[n..] then Some(n - 1)
    else LastBar(text, n - 1)
  }

  /** The text behind a bar, cut at its first '='. */
  function ReadLabel(text: string): Label
    requires '=' in text
  {
    IndexOfAbsent(text, '=');
    var i := IndexOf(text, '=');
    Label(text[..i], text[i + 1..])
  }

  /** Every text is the key of a series: its last label begins at the last bar that has a '=' behind it. */
  function ReadKey(text: string): Series
    decreases |text|
  {
    match LastBar(text, |text|)
    case None => Series(text, [])
    case Some(i) =>
      var front := ReadKey(text[..i]);
      front.(labels := front.labels + [ReadLabel(text[i + 1..])])
  }

  lemma NoBar(text: string)
    ensures BeginsNoLabel(text) <==> LastBar(text, |text|) == None
  {
  }

  lemma OneLastBar(text: string, i: nat)
    requires i < |text| && text[i] == '|' && '=' in text[i + 1..]
    requires forall j | i < j < |text| && text[j] == '|' :: '=' !in text[j + 1..]
    ensures LastBar(text, |text|) == Some(i)
  {
  }

  lemma Suffix(text: string, i: nat, j: nat)
    requires i + j <= |text|
    ensures text[i..][j..] == text[i + j..]
  {
  }

  lemma SuffixBegins(text: string, i: nat)
    requires i <= |text| && forall j | i <= j < |text| && text[j] == '|' :: '=' !in text[j + 1..]
    ensures BeginsNoLabel(text[i..])
  {
    var rest := text[i..];
    forall j | 0 <= j < |rest| && rest[j] == '|'
      ensures '=' !in rest[j + 1..]
    {
      var k := i + j;
      assert text[k] == '|' && '=' !in text[k + 1..];
      Suffix(text, i, j + 1);
    }
  }

  lemma NoBarBefore(text: string, e: nat)
    requires BeginsNoLabel(text) && e < |text| && text[e] == '='
    ensures '|' !in text[..e]
  {
    forall j | 0 <= j < e
      ensures text[j] != '|'
    {
      assert text[e] == text[j + 1..][e - j - 1];
    }
  }

  lemma LabelIsClean(text: string)
    requires BeginsNoLabel(text) && '=' in text
    ensures CleanLabel(ReadLabel(text)) && LabelText(ReadLabel(text)) == text
  {
    IndexOfAbsent(text, '=');
    var e := IndexOf(text, '=');
    NoBarBefore(text, e);
    SuffixBegins(text, e + 1);
    hide BeginsNoLabel;
    assert text == text[..e] + "=" + text[e + 1..];
  }

  lemma LabelIsRead(l: Label)
    requires CleanLabel(l)
    ensures '=' in LabelText(l) && ReadLabel(LabelText(l)) == l
  {
    var text := LabelText(l);
    assert text[|l.key|] == '=';
    assert text == l.key + ['='] + l.value;
    IndexOfAppend(l.key, '=', l.value);
    assert text[..|l.key|] == l.key && text[|l.key| + 1..] == l.value;
  }

  lemma LabelBegins(l: Label)
    requires CleanLabel(l)
    ensures BeginsNoLabel(LabelText(l))
  {
    var text, n := LabelText(l), |l.key| + 1;
    forall i | 0 <= i < |text| && text[i] == '|'
      ensures '=' !in text[i + 1..]
    {
      assert i >= n && l.value[i - n] == '|';
      assert text[i + 1..] == l.value[i - n + 1..];
    }
  }

  /** A text with a '=', and no label beginning in it, is the last label behind any bar. */
  lemma LastBarIsHere(front: string, tail: string)
    requires BeginsNoLabel(tail) && '=' in tail
    ensures var text := front + ['|'] + tail;
            LastBar(text, |text|) == Some(|front|) && text[..|front|] == front && text[|front| + 1..] == tail
  {
    var text, n := front + ['|'] + tail, |front| + 1;
    assert text[|front|] == '|' && text[n..] == tail && text[..|front|] == front;
    forall j | |front| < j < |text| && text[j] == '|'
      ensures '=' !in text[j + 1..]
    {
      assert tail[j - n] == '|';
      assert text[j + 1..] == tail[j - n + 1..];
    }
    hide LastBar;
    OneLastBar(text, |front|);
  }

  lemma OneMoreClean(s: Series, l: Label)
    requires Clean(s) && CleanLabel(l)
    ensures Clean(s.(labels := s.labels + [l]))
  {
    hide CleanLabel, BeginsNoLabel;
  }

  lemma CutAt(text: string, i: nat)
    requires i < |text|
    ensures text == text[..i] + [text[i]] + text[i + 1..]
  {
  }

  /** Every text is the key of a clean series. */
  lemma {:induction false} EveryKeyIsRead(text: string)
    ensures Clean(ReadKey(text)) && MetricKey(ReadKey(text)) == text
    decreases |text|
  {
    hide LastBar, ReadLabel, CleanLabel, LabelText;
    NoBar(text);
    if LastBar(text, |text|).Some? {
      var i := LastBar(text, |text|).value;
      SuffixBegins(text, i + 1);
      CutAt(text, i);
      assert ReadKey(text)
          == ReadKey(text[..i]).(labels := ReadKey(text[..i]).labels + [ReadLabel(text[i + 1..])]);
      hide *;
      LabelIsClean(text[i + 1..]);
      EveryKeyIsRead(text[..i]);
      KeySnoc(ReadKey(text[..i]), ReadLabel(text[i + 1..]));
      OneMoreClean(ReadKey(text[..i]), ReadLabel(text[i + 1..]));
    }
  }

  lemma {:induction false} CleanIsReadBack(s: Series)
    requires Clean(s)
    ensures ReadKey(MetricKey(s)) == s
    decreases |s.labels|
  {
    hide CleanLabel, LabelText, ReadLabel, LastBar, BeginsNoLabel;
    if s.labels == [] {
      NoBar(s.name);
    } else {
      var front, l := s.(labels := s.labels[..|s.labels| - 1]), s.labels[|s.labels| - 1];
      assert s.labels == front.labels + [l];
      assert CleanLabel(l);
      CleanIsReadBack(front);
      LabelIsRead(l);
      LabelBegins(l);
      LastBarIsHere(MetricKey(front), LabelText(l));
    }
  }

  /** A series is read back from its key exactly when it is clean. */
  lemma ReadBackExactly(s: Series)
    ensures ReadKey(MetricKey(s)) == s <==> Clean(s)
  {
    EveryKeyIsRead(MetricKey(s));
    if Clean(s) {
      CleanIsReadBack(s);
    }
  }

  /** Clean series never share a key. */
  lemma KeyIsInjective(a: Series, b: Series)
    requires Clean(a) && Clean(b)
    ensures MetricKey(a) == MetricKey(b) <==> a == b
  {
    ReadBackExactly(a);
    ReadBackExactly(b);
    hide MetricKey, ReadKey, Clean;
  }

  /** And every other series does share its key with a clean one: the condition is exact. */
  lemma CleanExactly(s: Series)
    ensures Clean(s) <==> forall t | Clean(t) && MetricKey(t) == MetricKey(s) :: t == s
  {
    hide MetricKey, ReadKey, Clean;
    ReadBackExactly(s);
    EveryKeyIsRead(MetricKey(s));
    if Clean(s) {
      forall t | Clean(t) && MetricKey(t) == MetricKey(s)
        ensures t == s
      {
        KeyIsInjective(t, s);
      }
    }
  }

  // ----- Series of one metric -----

  /** What follows does not tell apart what is already the same. */
  lemma {:induction false} KeysGoOn(a: Series, b: Series, more: seq<Label>)
    requires MetricKey(a) == MetricKey(b)
    ensures MetricKey(a.(labels := a.labels + more)) == MetricKey(b.(labels := b.labels + more))
    decreases |more|
  {
    hide *;
    if more == [] {
      assert a.labels + more == a.labels && b.labels + more == b.labels;
    } else {
      var front, l := more[..|more| - 1], more[|more| - 1];
      assert more == front + [l];
      KeysGoOn(a, b, front);
      OneMoreLabel(a, front, l);
      OneMoreLabel(b, front, l);
    }
  }

  lemma OneMoreLabel(s: Series, front: seq<Label>, l: Label)
    ensures MetricKey(s.(labels := s.labels + (front + [l])))
         == MetricKey(s.(labels := s.labels + front)) + ['|'] + LabelText(l)
  {
    hide *;
    Regroup(s.labels, front, [l]);
    KeySnoc(s.(labels := s.labels + front), l);
  }

  /** A label value with a '=' behind a '|' can make two series of one metric, with the same label keys, share a key. */
  lemma PipesCollide(s: Series, x: string, y: string, more: seq<Label>)
    ensures var a := s.(labels := s.labels + [Label(x, "1|" + y + "=2"), Label(y, "3")] + more);
            var b := s.(labels := s.labels + [Label(x, "1"), Label(y, "2|" + y + "=3")] + more);
            a != b && MetricKey(a) == MetricKey(b)
  {
    var l, m, l', m' := Label(x, "1|" + y + "=2"), Label(y, "3"), Label(x, "1"), Label(y, "2|" + y + "=3");
    var a, b := s.(labels := s.labels + [l, m]), s.(labels := s.labels + [l', m']);
    assert l.value != l'.value;
    assert (a.labels + more)[|s.labels|] == l && (b.labels + more)[|s.labels|] == l';
    SameTail(x, y);
    hide MetricKey, LabelText;
    TwoMore(s, l, m);
    TwoMore(s, l', m');
    KeysGoOn(a, b, more);
  }

  lemma TwoMore(s: Series, l: Label, m: Label)
    ensures MetricKey(s.(labels := s.labels + [l, m])) == MetricKey(s) + (['|'] + LabelText(l) + ['|'] + LabelText(m))
  {
    hide MetricKey, LabelText;
    KeySnoc(s, l);
    KeySnoc(s.(labels := s.labels + [l]), m);
    assert s.labels + [l] + [m] == s.labels + [l, m];
    Regroup(MetricKey(s) + ['|'], LabelText(l), ['|']);
    Regroup(MetricKey(s), ['|'], LabelText(l));
    Regroup(MetricKey(s), ['|'] + LabelText(l), ['|']);
    Regroup(MetricKey(s), ['|'] + LabelText(l) + ['|'], LabelText(m));
  }

  lemma SameTail(x: string, y: string)
    ensures ['|'] + LabelText(Label(x, "1|" + y + "=2")) + ['|'] + LabelText(Label(y, "3"))
         == ['|'] + LabelText(Label(x, "1")) + ['|'] + LabelText(Label(y, "2|" + y + "=3"))
  {
    var left := ['|'] + LabelText(Label(x, "1|" + y + "=2")) + ['|'] + LabelText(Label(y, "3"));
    var right := ['|'] + LabelText(Label(x, "1")) + ['|'] + LabelText(Label(y, "2|" + y + "=3"));
    var middle := "|" + x + "=1|" + y + "=2|" + y + "=3";
    assert left == middle && right == middle;
  }

  // ----- Series of one name with the same label keys -----

  /** What introduces the value of a label. */
  function Mark(key: string): string
  {
    "|" + key + "="
  }

  function KeyTail(labels: seq<Label>): string
  {
    if labels == [] then "" else Mark(labels[0].key) + (labels[0].value + KeyTail(labels[1..]))
  }

  lemma {:induction false} KeyTailSnoc(labels: seq<Label>, l: Label)
    ensures KeyTail(labels + [l]) == KeyTail(labels) + ['|'] + LabelText(l)
    decreases |labels|
  {
    if labels == [] {
      assert labels + [l] == [l] && [l][1..] == [];
    } else {
      KeyTailSnoc(labels[1..], l);
      assert (labels + [l])[1..] == labels[1..] + [l];
      hide LabelText, Mark;
      Regroup(labels[0].value, KeyTail(labels[1..]), ['|']);
      Regroup(labels[0].value, KeyTail(labels[1..]) + ['|'], LabelText(l));
      Regroup(Mark(labels[0].key), labels[0].value + KeyTail(labels[1..]), ['|']);
      Regroup(Mark(labels[0].key), labels[0].value + KeyTail(labels[1..]) + ['|'], LabelText(l));
    }
  }

  lemma {:induction false} KeyIsTailed(s: Series)
    ensures MetricKey(s) == s.name + KeyTail(s.labels)
    decreases |s.labels|
  {
    hide LabelText;
    if s.labels == [] {
      assert s.name + "" == s.name;
    } else {
      var front, l := s.(labels := s.labels[..|s.labels| - 1]), s.labels[|s.labels| - 1];
      assert s.labels == front.labels + [l];
      KeyIsTailed(front);
      KeyTailSnoc(front.labels, l);
      hide KeyTail, MetricKey;
      KeySnoc(front, l);
      Regroup(s.name, KeyTail(front.labels), ['|']);
      Regroup(s.name, KeyTail(front.labels) + ['|'], LabelText(l));
    }
  }

  /** No value holds the mark of the label that follows it. */
  predicate Settled(labels: seq<Label>)
  {
    forall i | 0 <= i < |labels| - 1 :: !Contains(labels[i].value, Mark(labels[i + 1].key))
  }

  predicate PlainKeys(labels: seq<Label>)
  {
    forall i | 0 <= i < |labels| :: '|' !in labels[i].key
  }

  predicate SameKeys(a: seq<Label>, b: seq<Label>)
  {
    |a| == |b| && forall i | 0 <= i < |a| :: a[i].key == b[i].key
  }

  lemma {:induction false} ContainsAt(s: string, pat: string)
    ensures Contains(s, pat) <==> exists i :: 0 <= i <= |s| && pat <= s[i..]
  {
    assert s[0..] == s;
    if !(pat <= s) && s != "" {
      ContainsAt(s[1..], pat);
      forall i | 0 <= i <= |s[1..]|
        ensures s[1..][i..] == s[i + 1..]
      {
        Suffix(s, 1, i);
      }
      if i :| 0 <= i <= |s| && pat <= s[i..] {
        assert pat <= s[1..][i - 1..];
      }
    }
  }

  /** Where a pattern occurs first. */
  lemma FirstOccurrence(s: string, pat: string) returns (before: string, behind: string)
    requires Contains(s, pat) && pat != ""
    ensures s == before + pat + behind && !Contains(before, pat)
    decreases |s|
  {
    if pat <= s {
      before, behind := "", s[|pat|..];
    } else {
      var rest;
      rest, behind := FirstOccurrence(s[1..], pat);
      before := [s[0]] + rest;
      assert before[1..] == rest;
      Regroup([s[0]], rest, pat);
      Regroup([s[0]], rest + pat, behind);
      assert s == [s[0]] + s[1..];
      assert before <= s;
    }
  }

  lemma NoEarlier(v: string, k: string, r: string, v': string, r': string)
    requires '|' !in k && v + (Mark(k) + r) == v' + (Mark(k) + r') && !Contains(v', Mark(k))
    ensures |v| >= |v'|
  {
    var mark := Mark(k);
    var text := v + (mark + r);
    assert forall i | 0 < i < |mark| :: mark[i] != '|';
    assert forall j | |v| < j < |v| + |mark| :: text[j] == mark[j - |v|] && text[j] != '|';
    if |v| < |v'| {
      assert text[|v'|] == '|';
      assert |v| + |mark| <= |v'|;
      assert text[|v|..|v| + |mark|] == mark;
      assert v'[|v|..] == text[|v|..|v'|];
      assert mark <= v'[|v|..];
      ContainsAt(v', mark);
    }
  }

  /** Up to the first mark, the values are the same. */
  lemma SameValue(v: string, k: string, r: string, v': string, r': string)
    requires '|' !in k && v + (Mark(k) + r) == v' + (Mark(k) + r')
    requires !Contains(v, Mark(k)) && !Contains(v', Mark(k))
    ensures v == v' && r == r'
  {
    NoEarlier(v, k, r, v', r');
    NoEarlier(v', k, r', v, r);
    var text, n := v + (Mark(k) + r), |v| + |Mark(k)|;
    assert v == text[..|v|] && v' == text[..|v|];
    assert r == text[n..] && (v' + (Mark(k) + r'))[n..] == r';
  }

  lemma MarkCancels(k: string, x: string, y: string)
    requires Mark(k) + x == Mark(k) + y
    ensures x == y
  {
    assert x == (Mark(k) + x)[|Mark(k)|..] && y == (Mark(k) + y)[|Mark(k)|..];
  }

  /** Settled labels with the same keys are told apart. */
  lemma {:induction false} SettledTell(a: seq<Label>, b: seq<Label>)
    requires SameKeys(a, b) && PlainKeys(a) && Settled(a) && Settled(b) && KeyTail(a) == KeyTail(b)
    ensures a == b
    decreases |a|
  {
    if a != [] {
      var m, n := a[1..], b[1..];
      assert a[0].key == b[0].key && a == [a[0]] + m && b == [b[0]] + n;
      RestSettled(a);
      RestSettled(b);
      assert forall i | 0 <= i < |m| :: m[i] == a[i + 1] && n[i] == b[i + 1];
      hide Mark, Contains, Settled, PlainKeys;
      MarkCancels(a[0].key, a[0].value + KeyTail(m), b[0].value + KeyTail(n));
      if m == [] {
        assert a[0].value + "" == a[0].value && b[0].value + "" == b[0].value;
      } else {
        SameValue(a[0].value, m[0].key, m[0].value + KeyTail(m[1..]), b[0].value, n[0].value + KeyTail(n[1..]));
      }
      SettledTell(m, n);
      assert a[0] == b[0];
    }
  }

  lemma RestSettled(a: seq<Label>)
    requires a != [] && Settled(a)
    ensures Settled(a[1..]) && (PlainKeys(a) ==> PlainKeys(a[1..]))
    ensures |a| > 1 ==> !Contains(a[0].value, Mark(a[1].key)) && (PlainKeys(a) ==> '|' !in a[1].key)
  {
    hide Contains, Mark;
    assert forall i | 0 <= i < |a| - 1 :: a[1..][i] == a[i + 1];
  }

  lemma MoreSettled(l: Label, a: seq<Label>)
    requires Settled(a) && (a != [] ==> !Contains(l.value, Mark(a[0].key)))
    ensures Settled([l] + a)
  {
    hide Contains, Mark;
    assert forall i | 0 < i < |a| :: ([l] + a)[i] == a[i - 1];
  }

  lemma SameKeysMore(l: Label, m: Label, a: seq<Label>, b: seq<Label>)
    requires SameKeys(a, b) && l.key == m.key
    ensures SameKeys([l] + a, [m] + b)
  {
  }

  lemma KeyTailCons(l: Label, a: seq<Label>)
    ensures KeyTail([l] + a) == Mark(l.key) + (l.value + KeyTail(a))
  {
    assert ([l] + a)[1..] == a;
  }

  /** All labels can be cut at the first marks, into settled ones that look the same in the key. */
  lemma {:induction false} SettledTwin(a: seq<Label>) returns (b: seq<Label>)
    ensures SameKeys(a, b) && Settled(b) && KeyTail(b) == KeyTail(a)
    decreases |a|
  {
    if |a| <= 1 {
      return a;
    }
    var l, m, more := a[0], a[1], a[2..];
    assert a == [l] + ([m] + more);
    var rest;
    hide Settled, Contains, KeyTail, Mark;
    if Contains(l.value, Mark(m.key)) {
      MarkIsText(m.key);
      var before, behind := FirstOccurrence(l.value, Mark(m.key));
      var m' := Label(m.key, behind + Mark(m.key) + m.value);
      rest := SettledTwin([m'] + more);
      b := [Label(l.key, before)] + rest;
      MoreSettled(Label(l.key, before), rest);
      KeyTailCons(Label(l.key, before), rest);
      KeyTailCons(m', more);
      ShiftMark(before, Mark(m.key), behind, m.value, KeyTail(more));
      SameKeysMore(m, m', more, more);
      assert SameKeys([m] + more, rest);
      SameKeysMore(l, Label(l.key, before), [m] + more, rest);
    } else {
      rest := SettledTwin([m] + more);
      b := [l] + rest;
      MoreSettled(l, rest);
      KeyTailCons(l, rest);
      SameKeysMore(l, l, [m] + more, rest);
    }
    KeyTailCons(m, more);
    KeyTailCons(l, [m] + more);
  }

  lemma MarkIsText(k: string)
    ensures Mark(k) != ""
  {
  }

  lemma ShiftMark(before: string, mark: string, behind: string, v: string, tail: string)
    ensures before + (mark + (behind + mark + v + tail)) == before + mark + behind + (mark + (v + tail))
  {
  }

  /** Among the series of one name with the same label keys, the settled ones never share a key, and every other one
      does share its key with a settled one: the condition is exact. */
  lemma SettledExactly(s: Series)
    requires PlainKeys(s.labels)
    ensures Settled(s.labels) <==>
              forall t: Series | t.name == s.name && SameKeys(s.labels, t.labels) && Settled(t.labels)
                                 && MetricKey(t) == MetricKey(s) :: t == s
  {
    hide Settled, PlainKeys, MetricKey, KeyTail;
    KeyIsTailed(s);
    forall t: Series | t.name == s.name && Settled(s.labels) && SameKeys(s.labels, t.labels) && Settled(t.labels)
                       && MetricKey(t) == MetricKey(s)
      ensures t == s
    {
      KeyIsTailed(t);
      NameCancels(s.name, KeyTail(s.labels), KeyTail(t.labels));
      SettledTell(s.labels, t.labels);
    }
    var b := SettledTwin(s.labels);
    KeyIsTailed(s.(labels := b));
    assert s.(labels := b).name == s.name;
  }

  lemma NameCancels(name: string, x: string, y: string)
    requires name + x == name + y
    ensures x == y
  {
    assert x == (name + x)[|name|..] && y == (name + y)[|name|..];
  }
}
