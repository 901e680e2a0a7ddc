/** The series that the OTel executor keeps: one observable instrument and one callback for each metric name
    with its labels, found by a flattened key. */
module OtelIndex {
  import opened Wrappers
  import opened AerospikeStat
  import opened MetricKeys

  // ----- Updates and the index -----

  /** What is registered for a series: its instrument, and a callback that is silent while the server is
      disconnected if it is gated. */
  datatype Hook = Hook(kind: MetricType, series: Series, desc: string, gated: bool)

  datatype Update = Update(hook: Hook, value: int)

  /** Stored values by key, and all registrations in order. */
  datatype Index = Index(gauges: map<string, int>, counters: map<string, int>, hooks: seq<Hook>)
  {
    function Values(kind: MetricType): map<string, int>
    {
      if kind == Gauge then gauges else counters
    }
  }

  const NEW_INDEX := Index(map[], map[], [])

  function Put(index: Index, kind: MetricType, key: string, value: int): Index
  {
    if kind == Gauge then index.(gauges := index.gauges[key := value])
    else index.(counters := index.counters[key := value])
  }

  /** Use the instrument of a series, or create and register it with value 0. */
  function Register(index: Index, hook: Hook): Index
  {
    if MetricKey(hook.series) in index.Values(hook.kind) then index
    else Put(index, hook.kind, MetricKey(hook.series), 0).(hooks := index.hooks + [hook])
  }

  function Apply(index: Index, u: Update): Index
  {
    Put(Register(index, u.hook), u.hook.kind, MetricKey(u.hook.series), u.value)
  }

  function ApplyAll(index: Index, us: seq<Update>): Index
  {
    if us == [] then index else Apply(ApplyAll(index, us[..|us| - 1]), us[|us| - 1])
  }

  lemma ApplySnoc(index: Index, us: seq<Update>, u: Update)
    ensures ApplyAll(index, us + [u]) == Apply(ApplyAll(index, us), u)
  {
    hide Apply;
    assert (us + [u])[..|us|] == us;
  }

  lemma {:induction false} ApplyAppend(index: Index, a: seq<Update>, b: seq<Update>)
    ensures ApplyAll(index, a + b) == ApplyAll(ApplyAll(index, a), b)
  {
    hide Apply;
    if b == [] {
      assert a + b == a;
    } else {
      ApplyAppend(index, a, b[..|b| - 1]);
      assert (a + b)[..|a + b| - 1] == a + b[..|b| - 1];
    }
  }

  // ----- Keys and callbacks -----

  ghost predicate KeysFound(index: Index)
  {
    forall i | 0 <= i < |index.hooks| :: MetricKey(index.hooks[i].series) in index.Values(index.hooks[i].kind)
  }

  /** One callback for each instrument: every key was registered just once. */
  ghost predicate WellFormed(index: Index)
  {
    && |index.hooks| == |index.gauges| + |index.counters|
    && KeysFound(index)
    && (forall i, j | 0 <= i < j < |index.hooks| ::
          index.hooks[i].kind != index.hooks[j].kind
            || MetricKey(index.hooks[i].series) != MetricKey(index.hooks[j].series))
  }

  lemma RegisterWellFormed(index: Index, hook: Hook)
    requires WellFormed(index)
    ensures WellFormed(Register(index, hook)) && MetricKey(hook.series) in Register(index, hook).Values(hook.kind)
  {
    hide MetricKey;
    var key := MetricKey(hook.series);
    if key !in index.Values(hook.kind) {
      OneMore(index.Values(hook.kind), key, 0);
    }
  }

  lemma PutWellFormed(index: Index, kind: MetricType, key: string, value: int)
    requires WellFormed(index) && key in index.Values(kind)
    ensures WellFormed(Put(index, kind, key, value))
  {
    hide MetricKey;
    SameSize(index.gauges, Put(index, kind, key, value).gauges);
    SameSize(index.counters, Put(index, kind, key, value).counters);
  }

  lemma ApplyWellFormed(index: Index, u: Update)
    requires WellFormed(index)
    ensures WellFormed(Apply(index, u))
  {
    hide MetricKey, WellFormed, Register, Put;
    RegisterWellFormed(index, u.hook);
    PutWellFormed(Register(index, u.hook), u.hook.kind, MetricKey(u.hook.series), u.value);
  }

  lemma SameSize(a: map<string, int>, b: map<string, int>)
    requires a.Keys == b.Keys
    ensures |a| == |b|
  {
    assert |a| == |a.Keys| && |b| == |b.Keys|;
  }

  lemma OneMore(m: map<string, int>, key: string, value: int)
    requires key !in m
    ensures |m[key := value]| == |m| + 1
  {
    assert m[key := value].Keys == m.Keys + {key};
    assert |m| == |m.Keys| && |m[key := value]| == |m[key := value].Keys|;
  }

  /** After any updates whatever: as many callbacks as gauges and counters together, no two for one key. */
  lemma {:induction false} CallbacksMatchInstruments(us: seq<Update>)
    ensures WellFormed(ApplyAll(NEW_INDEX, us))
  {
    hide Apply, MetricKey;
    if us != [] {
      CallbacksMatchInstruments(us[..|us| - 1]);
      ApplyWellFormed(ApplyAll(NEW_INDEX, us[..|us| - 1]), us[|us| - 1]);
    }
  }

  // ----- What is stored and registered under a key -----

  /** The last update under a key, of whatever series. */
  function LastUnder(us: seq<Update>, kind: MetricType, key: string): Option<Update>
  {
    if us == [] then None
    else
      var u := us[|us| - 1];
      if u.hook.kind == kind && MetricKey(u.hook.series) == key then Some(u) else LastUnder(us[..|us| - 1], kind, key)
  }

  /** What the first update under a key registered. */
  function FirstUnder(us: seq<Update>, kind: MetricType, key: string): Option<Hook>
  {
    if us == [] then None
    else
      var u, before := us[|us| - 1], FirstUnder(us[..|us| - 1], kind, key);
      if before.Some? then before
      else if u.hook.kind == kind && MetricKey(u.hook.series) == key then Some(u.hook)
      else None
  }

  /** The value stored under a key. */
  function Slot(index: Index, kind: MetricType, key: string): Option<int>
  {
    if key in index.Values(kind) then Some(index.Values(kind)[key]) else None
  }

  lemma ApplyAt(index: Index, u: Update, kind: MetricType, key: string)
    ensures Slot(Apply(index, u), kind, key) ==
              if u.hook.kind == kind && MetricKey(u.hook.series) == key then Some(u.value) else Slot(index, kind, key)
    ensures Apply(index, u).hooks
         == if Slot(index, u.hook.kind, MetricKey(u.hook.series)).Some? then index.hooks else index.hooks + [u.hook]
  {
    hide MetricKey;
  }

  /** For all updates whatever: a key holds the value of the last update under it. */
  lemma {:induction false} SlotIsLast(us: seq<Update>, kind: MetricType, key: string)
    ensures Slot(ApplyAll(NEW_INDEX, us), kind, key) ==
              match LastUnder(us, kind, key)
              case None => None
              case Some(u) => Some(u.value)
  {
    hide Apply, MetricKey;
    if us != [] {
      SlotIsLast(us[..|us| - 1], kind, key);
      ApplyAt(ApplyAll(NEW_INDEX, us[..|us| - 1]), us[|us| - 1], kind, key);
    }
  }

  lemma {:induction false} FirstAndLast(us: seq<Update>, kind: MetricType, key: string)
    ensures FirstUnder(us, kind, key).Some? <==> LastUnder(us, kind, key).Some?
    ensures FirstUnder(us, kind, key).Some? ==>
              FirstUnder(us, kind, key).value.kind == kind && MetricKey(FirstUnder(us, kind, key).value.series) == key
    ensures LastUnder(us, kind, key).Some? ==> MetricKey(LastUnder(us, kind, key).value.hook.series) == key
  {
    hide MetricKey;
    if us != [] {
      FirstAndLast(us[..|us| - 1], kind, key);
    }
  }

  /** For all updates whatever: registered is, under every key, what the first update under it asked for. */
  lemma {:induction false} HooksAreFirst(us: seq<Update>, hook: Hook)
    ensures hook in ApplyAll(NEW_INDEX, us).hooks <==> FirstUnder(us, hook.kind, MetricKey(hook.series)) == Some(hook)
  {
    hide Apply, MetricKey, Slot;
    if us != [] {
      var front, u := us[..|us| - 1], us[|us| - 1];
      var before := ApplyAll(NEW_INDEX, front);
      HooksAreFirst(front, hook);
      ApplyAt(before, u, u.hook.kind, MetricKey(u.hook.series));
      SlotIsLast(front, u.hook.kind, MetricKey(u.hook.series));
      FirstAndLast(front, u.hook.kind, MetricKey(u.hook.series));
    }
  }

  // ----- Last write wins, by series -----

  /** The value of the last update of a series. */
  function LastValue(us: seq<Update>, kind: MetricType, series: Series): Option<int>
  {
    if us == [] then None
    else
      var u := us[|us| - 1];
      if u.hook.kind == kind && u.hook.series == series then Some(u.value)
      else LastValue(us[..|us| - 1], kind, series)
  }

  /** No two series of the set share a key. */
  ghost predicate Unshared(these: iset<Series>)
  {
    forall a, b | a in these && b in these && MetricKey(a) == MetricKey(b) :: a == b
  }

  ghost predicate Over(these: iset<Series>, us: seq<Update>)
  {
    forall i | 0 <= i < |us| :: us[i].hook.series in these
  }

  /** Among series that share no key, what is stored and registered under the key of a series is its own. */
  lemma {:induction false} SeriesStandAlone(these: iset<Series>, us: seq<Update>, kind: MetricType, series: Series)
    requires Unshared(these) && Over(these, us) && series in these
    ensures match LastUnder(us, kind, MetricKey(series))
            case None => LastValue(us, kind, series) == None
            case Some(u) => LastValue(us, kind, series) == Some(u.value)
    ensures FirstUnder(us, kind, MetricKey(series)).Some?
            ==> FirstUnder(us, kind, MetricKey(series)).value.series == series
  {
    hide MetricKey;
    if us != [] {
      SeriesStandAlone(these, us[..|us| - 1], kind, series);
      assert us[|us| - 1].hook.series in these;
    }
  }

  /** After every history of updates of these series, each holds the value of its last update. */
  ghost predicate LastWriteWins(these: iset<Series>, kind: MetricType)
  {
    forall us, series | Over(these, us) && series in these ::
      Slot(ApplyAll(NEW_INDEX, us), kind, MetricKey(series)) == LastValue(us, kind, series)
  }

  /** Two updates, with the values 1 and 2. */
  function OneTwo(kind: MetricType, a: Series, b: Series): seq<Update>
  {
    [Update(Hook(kind, a, "", true), 1), Update(Hook(kind, b, "", true), 2)]
  }

  lemma OneTwoTells(these: iset<Series>, kind: MetricType, a: Series, b: Series)
    requires a in these && b in these && a != b && MetricKey(a) == MetricKey(b)
    ensures var us := OneTwo(kind, a, b);
            && Over(these, us)
            && LastValue(us, kind, a) == Some(1)
            && LastUnder(us, kind, MetricKey(a)) == Some(us[1]) && us[1].value == 2
  {
    hide MetricKey;
    var us := OneTwo(kind, a, b);
    assert us[..1] == [us[0]] && us[0].hook.series == a;
  }

  /** For every set of series: the keyed index refines last-write-wins over it exactly when no two series of the set
      share a key. */
  lemma ValueIsLast(these: iset<Series>, kind: MetricType)
    ensures LastWriteWins(these, kind) <==> Unshared(these)
  {
    hide ApplyAll, MetricKey, Slot, LastUnder, LastValue, Over;
    if Unshared(these) {
      forall us, series | Over(these, us) && series in these
        ensures Slot(ApplyAll(NEW_INDEX, us), kind, MetricKey(series)) == LastValue(us, kind, series)
      {
        SlotIsLast(us, kind, MetricKey(series));
        SeriesStandAlone(these, us, kind, series);
      }
    } else {
      var a, b :| a in these && b in these && MetricKey(a) == MetricKey(b) && a != b;
      var us := OneTwo(kind, a, b);
      OneTwoTells(these, kind, a, b);
      SlotIsLast(us, kind, MetricKey(a));
      assert Slot(ApplyAll(NEW_INDEX, us), kind, MetricKey(a)) != LastValue(us, kind, a);
    }
  }

  /** The clean series are such a set. */
  ghost const CLEAN: iset<Series> := iset series: Series | Clean(series)

  lemma CleanApart()
    ensures Unshared(CLEAN)
  {
    hide MetricKey, Clean;
    forall a, b | a in CLEAN && b in CLEAN && MetricKey(a) == MetricKey(b)
      ensures a == b
    {
      KeyIsInjective(a, b);
    }
  }

  // ----- Observation -----

  datatype Observation = Observation(kind: MetricType, series: Series, value: int)

  predicate Speaks(hook: Hook, connected: bool)
  {
    connected || !hook.gated
  }

  /** What the first n callbacks report. */
  function ObserveFirst(index: Index, connected: bool, n: nat): seq<Observation>
    requires n <= |index.hooks|
    requires KeysFound(index)
  {
    if n == 0 then []
    else
      var hook := index.hooks[n - 1];
      ObserveFirst(index, connected, n - 1)
      + if Speaks(hook, connected) then [Observation(hook.kind, hook.series,
                                                     index.Values(hook.kind)[MetricKey(hook.series)])] else []
  }

  function Observe(index: Index, connected: bool): seq<Observation>
    requires KeysFound(index)
  {
    ObserveFirst(index, connected, |index.hooks|)
  }

  lemma {:induction false} ObservedByHook(index: Index, connected: bool, n: nat, o: Observation)
    requires n <= |index.hooks|
    requires KeysFound(index)
    ensures o in ObserveFirst(index, connected, n) <==>
              exists i | 0 <= i < n ::
                Speaks(index.hooks[i], connected) && o.kind == index.hooks[i].kind && o.series == index.hooks[i].series
                && o.value == index.Values(o.kind)[MetricKey(o.series)]
  {
    hide MetricKey, Speaks;
    if n > 0 {
      ObservedByHook(index, connected, n - 1, o);
    }
  }

  /** The series came first under its key, and the value came last. */
  predicate Heard(us: seq<Update>, o: Observation)
  {
    var key := MetricKey(o.series);
    && LastUnder(us, o.kind, key).Some? && LastUnder(us, o.kind, key).value.value == o.value
    && FirstUnder(us, o.kind, key).Some? && FirstUnder(us, o.kind, key).value.series == o.series
  }

  /** Among series that share no key, that is to have had this value last. */
  lemma HeardIsLast(these: iset<Series>, us: seq<Update>, o: Observation)
    requires Unshared(these) && Over(these, us) && o.series in these
    ensures Heard(us, o) <==> LastValue(us, o.kind, o.series) == Some(o.value)
  {
    hide MetricKey, LastUnder, FirstUnder, LastValue, Unshared, Over;
    SeriesStandAlone(these, us, o.kind, o.series);
    FirstAndLast(us, o.kind, MetricKey(o.series));
  }

  /** For all updates whatever, a collection reports under every key the series that came first there, with the value
      that came last, if the server is connected or that series was registered without the gate. */
  lemma ObservedExactly(us: seq<Update>, connected: bool, o: Observation)
    ensures WellFormed(ApplyAll(NEW_INDEX, us))
    ensures o in Observe(ApplyAll(NEW_INDEX, us), connected)
       <==> Heard(us, o) && Speaks(FirstUnder(us, o.kind, MetricKey(o.series)).value, connected)
  {
    hide ApplyAll, MetricKey, ObserveFirst, Speaks, FirstUnder, LastUnder;
    CallbacksMatchInstruments(us);
    var index, key := ApplyAll(NEW_INDEX, us), MetricKey(o.series);
    ObservedByHook(index, connected, |index.hooks|, o);
    SlotIsLast(us, o.kind, key);
    FirstAndLast(us, o.kind, key);
    if FirstUnder(us, o.kind, key).Some? {
      HooksAreFirst(us, FirstUnder(us, o.kind, key).value);
    }
    forall i | 0 <= i < |index.hooks|
      ensures FirstUnder(us, index.hooks[i].kind, MetricKey(index.hooks[i].series)) == Some(index.hooks[i])
    {
      HooksAreFirst(us, index.hooks[i]);
    }
  }

  /** A collection reports a value for a series exactly when that is the value of its last update. */
  ghost predicate ReportsLast(us: seq<Update>, kind: MetricType, series: Series, value: int)
  {
    && KeysFound(ApplyAll(NEW_INDEX, us))
    && (Observation(kind, series, value) in Observe(ApplyAll(NEW_INDEX, us), true)
        <==> LastValue(us, kind, series) == Some(value))
  }

  lemma ReportsHeard(us: seq<Update>, kind: MetricType, series: Series, value: int)
    ensures ReportsLast(us, kind, series, value)
       <==> (Heard(us, Observation(kind, series, value)) <==> LastValue(us, kind, series) == Some(value))
  {
    hide ApplyAll, Observe, Heard, LastValue;
    ObservedExactly(us, true, Observation(kind, series, value));
  }

  /** And for every set of series: that is so after every history of updates of the set, exactly when no two of its
      series share a key. */
  lemma ReportsAreLast(these: iset<Series>, kind: MetricType)
    ensures (forall us, series, value | Over(these, us) && series in these :: ReportsLast(us, kind, series, value))
       <==> Unshared(these)
  {
    hide ReportsLast, MetricKey, LastUnder, FirstUnder, LastValue, Over;
    if Unshared(these) {
      forall us, series, value | Over(these, us) && series in these
        ensures ReportsLast(us, kind, series, value)
      {
        ReportsHeard(us, kind, series, value);
        HeardIsLast(these, us, Observation(kind, series, value));
      }
    } else {
      var a, b :| a in these && b in these && MetricKey(a) == MetricKey(b) && a != b;
      OneTwoTells(these, kind, a, b);
      ReportsHeard(OneTwo(kind, a, b), kind, a, 1);
    }
  }

  lemma {:induction false} ObservedOnce(index: Index, connected: bool, n: nat, i: nat, j: nat)
    requires WellFormed(index) && n <= |index.hooks| && i < j < |ObserveFirst(index, connected, n)|
    ensures var a, b := ObserveFirst(index, connected, n)[i], ObserveFirst(index, connected, n)[j];
            a.kind != b.kind || MetricKey(a.series) != MetricKey(b.series)
  {
    hide MetricKey, Speaks;
    if j < |ObserveFirst(index, connected, n - 1)| {
      ObservedOnce(index, connected, n - 1, i, j);
    } else {
      var a := ObserveFirst(index, connected, n - 1)[i];
      ObservedByHook(index, connected, n - 1, a);
    }
  }
}
