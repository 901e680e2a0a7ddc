/** The gate in front of the OTel exporter: it holds exports back until enough refreshes have succeeded. */
module ExportGate {

  /** A refresh was recorded as a success or a failure, or the SDK asked for an export. */
  datatype GateEvent = Refreshed(ok: bool) | ExportAsked(connected: bool)

  /** The refresh counter: a failure resets it, a success increments it, an export leaves it. */
  function RefreshCount(events: seq<GateEvent>): nat
  {
    if events == [] then 0
    else
      match events[|events| - 1]
      case Refreshed(ok) => if ok then RefreshCount(events[..|events| - 1]) + 1 else 0
      case ExportAsked(_) => RefreshCount(events[..|events| - 1])
  }

  predicate Forwards(connected: bool, counter: int)
  {
    !(connected && counter <= 2)
  }

  /** The recorded refreshes alone. */
  function Recorded(events: seq<GateEvent>): seq<bool>
  {
    if events == [] then []
    else
      Recorded(events[..|events| - 1]) + match events[|events| - 1] case Refreshed(ok) => [ok] case ExportAsked(_) => []
  }

  predicate LastSucceeded(recorded: seq<bool>, n: nat)
  {
    |recorded| >= n && forall i | |recorded| - n <= i < |recorded| :: recorded[i]
  }

  lemma LastSnoc(recorded: seq<bool>, ok: bool, n: nat)
    requires n > 0
    ensures LastSucceeded(recorded + [ok], n) <==> ok && LastSucceeded(recorded, n - 1)
  {
    var more := recorded + [ok];
    assert more[|recorded|] == ok;
    assert forall i | 0 <= i < |recorded| :: more[i] == recorded[i];
  }

  /** Over every interleaving: the counter has reached n exactly when the last n recorded refreshes succeeded. */
  lemma {:induction false} CounterTells(events: seq<GateEvent>, n: nat)
    ensures RefreshCount(events) >= n <==> LastSucceeded(Recorded(events), n)
  {
    if events != [] && n > 0 {
      var front, last := events[..|events| - 1], events[|events| - 1];
      match last
      case Refreshed(ok) =>
        CounterTells(front, n - 1);
        assert Recorded(events) == Recorded(front) + [ok];
        LastSnoc(Recorded(front), ok, n);
      case ExportAsked(_) =>
        CounterTells(front, n);
        assert Recorded(events) == Recorded(front);
    }
  }

  /** An export is forwarded exactly when the server is disconnected or the last three recorded refreshes succeeded. */
  lemma ForwardedAfterThree(events: seq<GateEvent>, connected: bool)
    ensures Forwards(connected, RefreshCount(events)) <==> !connected || LastSucceeded(Recorded(events), 3)
  {
    CounterTells(events, 3);
  }

  lemma RefreshCountNext(events: seq<GateEvent>, ok: bool)
    ensures RefreshCount(events + [Refreshed(ok)]) == if ok then RefreshCount(events) + 1 else 0
  {
    assert (events + [Refreshed(ok)])[..|events|] == events;
  }

  lemma ExportChangesNothing(events: seq<GateEvent>, connected: bool)
    ensures RefreshCount(events + [ExportAsked(connected)]) == RefreshCount(events)
    ensures Recorded(events + [ExportAsked(connected)]) == Recorded(events)
  {
    assert (events + [ExportAsked(connected)])[..|events|] == events;
  }
}
