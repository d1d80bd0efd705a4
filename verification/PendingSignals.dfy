/**
 Pending signals (src/event.rs:276-326): `mark` sets a bit and then counts, `acquire_pending` looks at the
 count and then scans and clears the bits. The object with its methods comes last; first the same
 steps with any number of marks going on while the bits are scanned. The counter is unbounded.
 */
module PendingSignals {
  import opened Common

  const SIGNAL_COUNT: nat := 64

  type Signal = s: nat | s < SIGNAL_COUNT

  type MarkId = nat

  /** A mark that has set its bit; whether it has counted, and whether its signal has been reported since. */
  datatype Mark = Mark(sig: Signal, counted: bool, reported: bool)

  /** Where acquire_pending is. `due` are the unreported marks that had counted when it looked at the counter. */
  datatype Acquire =
    | Idle
    | Loaded(count: nat, due: set<MarkId>)
    | Scanning(i: nat, result: set<Signal>, due: set<MarkId>)
    | Clearing(bit: Signal, result: set<Signal>, due: set<MarkId>)

  datatype State = State(
    counter: nat,
    received: set<Signal>,
    lastCounter: nat,
    acquire: Acquire,
    marks: map<MarkId, Mark>)

  const START := State(0, {}, 0, Idle, map[])

  datatype Event =
    | SetBit(m: MarkId, sig: Signal)
    | Count(m: MarkId)
    | LoadCounter
    | CompareCounter
    | LoadBit
    | ClearBit
    | Return

  predicate Enabled(s: State, e: Event) {
    match e
    case SetBit(m, _) => m !in s.marks
    case Count(m) => m in s.marks && !s.marks[m].counted
    case LoadCounter => s.acquire.Idle?
    case CompareCounter => s.acquire.Loaded?
    case LoadBit => s.acquire.Scanning? && s.acquire.i < SIGNAL_COUNT
    case ClearBit => s.acquire.Clearing?
    case Return => s.acquire.Scanning? && s.acquire.i == SIGNAL_COUNT
  }

  function Due(s: State): set<MarkId> {
    set m | m in s.marks && s.marks[m].counted && !s.marks[m].reported
  }

  function Reported(marks: map<MarkId, Mark>, result: set<Signal>): map<MarkId, Mark> {
    map m | m in marks :: if marks[m].sig in result then marks[m].(reported := true) else marks[m]
  }

  function Apply(s: State, e: Event): State
    requires Enabled(s, e)
  {
    match e
    case SetBit(m, sig) => s.(received := s.received + {sig}, marks := s.marks[m := Mark(sig, false, false)])
    case Count(m) => s.(counter := s.counter + 1, marks := s.marks[m := s.marks[m].(counted := true)])
    case LoadCounter => s.(acquire := Loaded(s.counter, Due(s)))
    case CompareCounter =>
      if s.acquire.count == s.lastCounter then s.(acquire := Idle)
      else s.(lastCounter := s.acquire.count, acquire := Scanning(0, {}, s.acquire.due))
    case LoadBit =>
      var a := s.acquire;
      if a.i in s.received then s.(acquire := Clearing(a.i, a.result + {a.i}, a.due))
      else s.(acquire := Scanning(a.i + 1, a.result, a.due))
    case ClearBit =>
      var a := s.acquire;
      s.(received := s.received - {a.bit}, acquire := Scanning(a.bit + 1, a.result, a.due))
    case Return => s.(acquire := Idle, marks := Reported(s.marks, s.acquire.result))
  }

  // ---------------------------------------------------------------- invariant

  /** The running acquire_pending has seen this bit. */
  predicate Seen(s: State, sig: Signal) {
    (s.acquire.Scanning? || s.acquire.Clearing?) && sig in s.acquire.result
  }

  /** It will still come to this bit. */
  predicate Ahead(s: State, sig: Signal) {
    (s.acquire.Scanning? && s.acquire.i <= sig) || (s.acquire.Clearing? && s.acquire.bit < sig)
  }

  /** An unreported mark is about to be reported, or its bit is set and a scan is certain: the running one, the
      next one, or one after the mark has counted. */
  predicate NotLost(s: State, mark: Mark) {
    || mark.reported
    || Seen(s, mark.sig)
    || (mark.sig in s.received && (mark.counted ==> s.lastCounter < s.counter || Ahead(s, mark.sig)))
  }

  /** What had counted before is seen before acquire_pending returns. */
  predicate DueSound(s: State) {
    match s.acquire
    case Idle => true
    case Loaded(count, due) => count <= s.counter && (due != {} ==> s.lastCounter < count) && AreDue(s, due)
    case Scanning(i, result, due) => i <= SIGNAL_COUNT && AreDue(s, due)
    case Clearing(bit, result, due) => bit in result && bit in s.received && AreDue(s, due)
  }

  predicate AreDue(s: State, due: set<MarkId>) {
    forall m <- due ::
      && m in s.marks
      && (Seen(s, s.marks[m].sig) || (s.marks[m].sig in s.received && (s.acquire.Loaded? || Ahead(s, s.marks[m].sig))))
  }

  predicate SignalMarked(s: State, sig: Signal) {
    exists m :: m in s.marks && s.marks[m].sig == sig
  }

  predicate Inv(s: State) {
    && s.lastCounter <= s.counter
    && (forall m <- s.marks :: NotLost(s, s.marks[m]))
    && DueSound(s)
    && (forall sig <- s.received :: SignalMarked(s, sig))
    && (s.acquire.Scanning? || s.acquire.Clearing? ==> forall sig <- s.acquire.result :: SignalMarked(s, sig))
  }

  lemma MarkedStays(s: State, s': State)
    requires forall m <- s.marks :: m in s'.marks && s'.marks[m].sig == s.marks[m].sig
    ensures forall sig: Signal :: SignalMarked(s, sig) ==> SignalMarked(s', sig)
  {
    forall sig: Signal | SignalMarked(s, sig) ensures SignalMarked(s', sig) {
      var m :| m in s.marks && s.marks[m].sig == sig;
      assert m in s'.marks && s'.marks[m].sig == sig;
    }
  }

  lemma MarkStep(s: State, e: Event)
    requires Inv(s) && Enabled(s, e) && (e.SetBit? || e.Count?)
    ensures Inv(Apply(s, e))
  {
    var s' := Apply(s, e);
    MarkedStays(s, s');
    if e.SetBit? {
      assert e.m in s'.marks && s'.marks[e.m].sig == e.sig;
      assert SignalMarked(s', e.sig);
    }
  }

  lemma LookStep(s: State, e: Event)
    requires Inv(s) && Enabled(s, e) && (e.LoadCounter? || e.CompareCounter?)
    ensures Inv(Apply(s, e))
  {
    var s' := Apply(s, e);
    MarkedStays(s, s');
    if e.LoadCounter? {
      forall m <- Due(s) ensures s.lastCounter < s.counter && s.marks[m].sig in s.received {
        assert NotLost(s, s.marks[m]);
      }
    }
  }

  lemma ScanStep(s: State, e: Event)
    requires Inv(s) && Enabled(s, e) && (e.LoadBit? || e.ClearBit?)
    ensures Inv(Apply(s, e))
  {
    var s' := Apply(s, e);
    MarkedStays(s, s');
    forall m <- s'.marks ensures NotLost(s', s'.marks[m]) {
      assert NotLost(s, s.marks[m]);
    }
  }

  lemma ReturnStep(s: State)
    requires Inv(s) && Enabled(s, Return)
    ensures Inv(Apply(s, Return))
  {
    var s' := Apply(s, Return);
    MarkedStays(s, s');
    forall m <- s'.marks ensures NotLost(s', s'.marks[m]) {
      assert NotLost(s, s.marks[m]);
    }
  }

  lemma StepKeepsInv(s: State, e: Event)
    requires Inv(s) && Enabled(s, e)
    ensures Inv(Apply(s, e))
  {
    if e.SetBit? || e.Count? {
      MarkStep(s, e);
    } else if e.LoadCounter? || e.CompareCounter? {
      LookStep(s, e);
    } else if e.Return? {
      ReturnStep(s);
    } else {
      ScanStep(s, e);
    }
  }

  // ---------------------------------------------------------------- whole runs

  predicate Possible(s: State, events: seq<Event>)
    decreases |events|
  {
    events == [] || (Enabled(s, events[0]) && Possible(Apply(s, events[0]), events[1..]))
  }

  function After(s: State, events: seq<Event>): State
    requires Possible(s, events)
    decreases |events|
  {
    if events == [] then s else After(Apply(s, events[0]), events[1..])
  }

  lemma {:induction false} RunKeepsInv(s: State, events: seq<Event>)
    requires Inv(s) && Possible(s, events)
    ensures Inv(After(s, events))
    decreases |events|
  {
    if events != [] {
      StepKeepsInv(s, events[0]);
      RunKeepsInv(Apply(s, events[0]), events[1..]);
    }
  }

  /** No signal is lost: in every run each mark is reported by an acquire_pending that ends after the mark
      began, or is seen by the running one, or its bit is set and it is certain to be scanned. */
  lemma NoSignalLost(events: seq<Event>, m: MarkId)
    requires Possible(START, events) && m in After(START, events).marks
    ensures NotLost(After(START, events), After(START, events).marks[m])
  {
    RunKeepsInv(START, events);
  }

  /** Whatever had been marked before acquire_pending looked at the counter, and was not reported yet, is in what it
      returns; and if it returns at once, there was nothing. */
  lemma AcquireReportsEarlierMarks(events: seq<Event>, m: MarkId)
    requires Possible(START, events)
    requires var a := After(START, events).acquire; !a.Idle? && m in a.due
    ensures var s := After(START, events);
            && m in s.marks
            && (Enabled(s, Return) ==> s.marks[m].sig in s.acquire.result)
            && (Enabled(s, CompareCounter) ==> s.acquire.count != s.lastCounter)
  {
    RunKeepsInv(START, events);
  }

  /** Nothing is reported that was not marked. */
  lemma OnlyMarkedSignals(events: seq<Event>, sig: Signal)
    requires Possible(START, events)
    requires var a := After(START, events).acquire; (a.Scanning? || a.Clearing?) && sig in a.result
    ensures SignalMarked(After(START, events), sig)
  {
    RunKeepsInv(START, events);
  }

  // ---------------------------------------------------------------- reports are backed by marks

  /** This step finds the bit of `sig` set and puts it into the result. */
  predicate Reports(s: State, e: Event, sig: Signal) {
    e.LoadBit? && s.acquire.Scanning? && s.acquire.i == sig && sig in s.received
  }

  function ReportCount(s: State, events: seq<Event>, sig: Signal): nat
    requires Possible(s, events)
    decreases |events|
  {
    if events == [] then 0
    else (if Reports(s, events[0], sig) then 1 else 0) + ReportCount(Apply(s, events[0]), events[1..], sig)
  }

  function MarkCount(events: seq<Event>, sig: Signal): nat {
    if events == [] then 0
    else (if events[0].SetBit? && events[0].sig == sig then 1 else 0) + MarkCount(events[1..], sig)
  }

  /** The bit is set and not just about to be cleared, having been reported. */
  predicate Unreported(s: State, sig: Signal) {
    sig in s.received && !(s.acquire.Clearing? && s.acquire.bit == sig)
  }

  lemma {:induction false} ReportsAreBacked(s: State, events: seq<Event>, sig: Signal)
    requires Inv(s) && Possible(s, events)
    ensures ReportCount(s, events, sig) <= MarkCount(events, sig) + (if Unreported(s, sig) then 1 else 0)
    decreases |events|
  {
    if events != [] {
      StepKeepsInv(s, events[0]);
      ReportsAreBacked(Apply(s, events[0]), events[1..], sig);
      hide NotLost, AreDue, SignalMarked, Due, Reported;
    }
  }

  /** After any run that leaves the bit of a signal cleared, or just reported, the signal is from then on
      reported at most as often as it is marked from then on: each report needs a mark since the last one. */
  lemma EachReportNeedsAMark(before: seq<Event>, later: seq<Event>, sig: Signal)
    requires Possible(START, before) && Possible(After(START, before), later)
    requires !Unreported(After(START, before), sig)
    ensures ReportCount(After(START, before), later, sig) <= MarkCount(later, sig)
  {
    RunKeepsInv(START, before);
    ReportsAreBacked(After(START, before), later, sig);
  }

  // ---------------------------------------------------------------- the object

  class PendingSignals {
    var counter: nat
    const received: array<bool>
    var lastCounter: nat

    ghost predicate Valid()
      reads this
    {
      received.Length == SIGNAL_COUNT && lastCounter <= counter
    }

    ghost function Bits(): set<nat>
      reads received
    {
      set i | 0 <= i < received.Length && received[i]
    }

    constructor ()
      ensures Valid() && Bits() == {} && counter == lastCounter && fresh(received)
    {
      received := new bool[SIGNAL_COUNT](_ => false);
      counter, lastCounter := 0, 0;
    }

    /** A signal out of range is ignored. */
    method Mark(sig: nat)
      requires Valid()
      modifies this`counter, received
      ensures Valid()
      ensures sig < SIGNAL_COUNT ==> Bits() == old(Bits()) + {sig} && counter == old(counter) + 1
      ensures sig >= SIGNAL_COUNT ==> Bits() == old(Bits()) && counter == old(counter)
    {
      if sig < received.Length {
        received[sig] := true;
        counter := counter + 1;
      }
    }

    method AcquirePending() returns (result: set<nat>)
      requires Valid()
      modifies this`lastCounter, received
      ensures Valid() && lastCounter == counter
      ensures result == if old(lastCounter) == counter then {} else old(Bits())
      ensures Bits() == old(Bits()) - result
    {
      var count := counter;
      if count == lastCounter {
        return {};
      }
      lastCounter := count;
      result := {};
      for i := 0 to received.Length
        invariant lastCounter == counter
        invariant result == set k | 0 <= k < i && old(received[k])
        invariant forall k :: 0 <= k < received.Length ==> received[k] == (k >= i && old(received[k]))
      {
        if received[i] {
          result := result + {i};
          received[i] := false;
        }
      }
    }
  }
}
