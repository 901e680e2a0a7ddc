/** The log keys that the node processor asks for, and those that it reads. */
module LogSinks {
  import opened Text
  import opened Numerals
  import opened NodeProcessor

  /** The id of a sink, as it stands in the list of sinks. */
  function IdOf(sink: string): string
  {
    Split(sink, ':')[0]
  }

  /** Every id is one of the numerals from 0 up to the number of sinks. */
  ghost predicate IdsCount(sinks: seq<string>)
  {
    forall sink | sink in sinks :: exists i: nat :: i < |sinks| && IdOf(sink) == Itoa(i)
  }

  /** The log keys of a reply were all asked for. */
  ghost predicate Answers(raw: map<string, string>, sinks: seq<string>)
  {
    forall key | key in raw && "log/" <= key :: key in SinkKeys(sinks)
  }

  /** Some sink that was asked for is set to the level. */
  predicate AnySink(raw: map<string, string>, sinks: seq<string>, level: string)
  {
    exists key | key in SinkKeys(sinks) :: Contains(Get(raw, key), level)
  }

  lemma {:induction false} KeysOfSinks(sinks: seq<string>, key: string)
    ensures key in SinkKeys(sinks) <==> exists sink | sink in sinks :: key == SinkKey(sink)
  {
    hide SinkKey;
    if sinks != [] {
      var front, last := sinks[..|sinks| - 1], sinks[|sinks| - 1];
      assert sinks == front + [last];
      KeysOfSinks(front, key);
    }
  }

  lemma SameKey(sink: string, i: nat)
    ensures SinkKey(sink) == "log/" + Itoa(i) <==> IdOf(sink) == Itoa(i)
    ensures "log/" <= SinkKey(sink) && "log/" <= "log/" + Itoa(i)
  {
    hide Split, Itoa;
    assert SinkKey(sink)[4..] == IdOf(sink) && ("log/" + Itoa(i))[4..] == Itoa(i);
  }

  lemma NothingHolds(level: string)
    requires level != ""
    ensures !Contains("", level) && Contains(level, level)
  {
  }

  /** What is read is what was asked for, if the ids count. */
  lemma CountedAreRead(raw: map<string, string>, sinks: seq<string>, level: string)
    requires IdsCount(sinks) && Answers(raw, sinks) && level != ""
    ensures SinkAt(raw, |sinks|, level) <==> AnySink(raw, sinks, level)
  {
    hide Contains, SinkKeys, Itoa, IdOf, SinkKey;
    NothingHolds(level);
    if SinkAt(raw, |sinks|, level) {
      var i: nat :| i < |sinks| && Contains(SinkText(raw, i), level);
      var key := "log/" + Itoa(i);
      SameKey("", i);
      assert key in raw;
    }
    if AnySink(raw, sinks, level) {
      var key :| key in SinkKeys(sinks) && Contains(Get(raw, key), level);
      KeysOfSinks(sinks, key);
      var sink :| sink in sinks && key == SinkKey(sink);
      var i: nat :| i < |sinks| && IdOf(sink) == Itoa(i);
      SameKey(sink, i);
      assert Contains(SinkText(raw, i), level);
    }
  }

  /** A sink whose id does not count is never read. */
  lemma UncountedIsUnread(sinks: seq<string>, sink: string, level: string) returns (raw: map<string, string>)
    requires sink in sinks && level != "" && forall i: nat | i < |sinks| :: IdOf(sink) != Itoa(i)
    ensures Answers(raw, sinks) && AnySink(raw, sinks, level) && !SinkAt(raw, |sinks|, level)
  {
    hide Contains, SinkKeys, Itoa, IdOf, SinkKey;
    NothingHolds(level);
    raw := map[SinkKey(sink) := level];
    KeysOfSinks(sinks, SinkKey(sink));
    assert Get(raw, SinkKey(sink)) == level;
    forall i: nat | i < |sinks|
      ensures SinkText(raw, i) == ""
    {
      SameKey(sink, i);
    }
  }

  /** For every list of sinks: the log-level stats tell the level of the sinks in every reply to the keys that were
      asked for, if and only if the ids of the sinks are numerals below their number. */
  lemma LevelsAreTold(sinks: seq<string>, level: string)
    requires level != ""
    ensures (forall raw | Answers(raw, sinks) :: SinkAt(raw, |sinks|, level) <==> AnySink(raw, sinks, level))
       <==> IdsCount(sinks)
  {
    hide SinkAt, AnySink, Answers, Itoa, IdOf;
    if IdsCount(sinks) {
      forall raw | Answers(raw, sinks)
        ensures SinkAt(raw, |sinks|, level) <==> AnySink(raw, sinks, level)
      {
        CountedAreRead(raw, sinks, level);
      }
    } else {
      var sink :| sink in sinks && forall i: nat | i < |sinks| :: IdOf(sink) != Itoa(i);
      var raw := UncountedIsUnread(sinks, sink, level);
    }
  }
}
