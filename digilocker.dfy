/** The DigiLocker consent dialog: two flags, `isLoading` and `isCompleted`,
    driven by three chained timers after the user allows access. Each timer
    callback is an explicit event; the callbacks the dialog makes to its
    parent are logged. */
module DigiLocker {
  import Seqs

  /** The three timer callbacks that `handleAllow` chains: the end of the
      simulated connection, the report to the parent, and the reset. */
  datatype Timer = ConnectionDone | Report | ClearCompleted

  datatype Callback = VerificationComplete | OpenChange(open: bool)

  /** The two flags, the timers scheduled and not yet fired, and the
      callbacks made so far. */
  datatype State = State(isLoading: bool, isCompleted: bool, pending: seq<Timer>, emitted: seq<Callback>)

  const Initial: State := State(false, false, [], [])

  /** Neither flag is set and nothing is scheduled: the consent text and
      both buttons are shown. */
  predicate Idle(s: State) {
    !s.isLoading && !s.isCompleted && s.pending == []
  }

  /** The reachable configurations: idle, connecting, completed awaiting the
      report, completed awaiting the reset. */
  predicate Inv(s: State) {
    Idle(s) ||
    (s.isLoading && !s.isCompleted && s.pending == [ConnectionDone]) ||
    (!s.isLoading && s.isCompleted && s.pending == [Report]) ||
    (!s.isLoading && s.isCompleted && s.pending == [ClearCompleted])
  }

  /** `handleAllow`: sets the loading flag and schedules the first timer. */
  function Allow(s: State): (r: State)
    ensures r.isLoading && r.isCompleted == s.isCompleted
    ensures r.pending == s.pending + [ConnectionDone] && r.emitted == s.emitted
  {
    s.(isLoading := true, pending := s.pending + [ConnectionDone])
  }

  /** `pending` without its `i`-th timer. */
  function Without(pending: seq<Timer>, i: nat): (r: seq<Timer>)
    requires i < |pending|
    ensures |r| == |pending| - 1
  {
    pending[..i] + pending[i + 1..]
  }

  /** The `i`-th scheduled timer fires: the first clears loading, sets
      completed and schedules the report; the report calls
      `onVerificationComplete` then `onOpenChange(false)` and schedules the
      reset; the reset clears completed. */
  function FireTimer(s: State, i: nat): (r: State)
    requires i < |s.pending|
    ensures s.pending[i] == ConnectionDone ==>
              r == State(false, true, Without(s.pending, i) + [Report], s.emitted)
    ensures s.pending[i] == Report ==>
              r == s.(pending := Without(s.pending, i) + [ClearCompleted],
                      emitted := s.emitted + [VerificationComplete, OpenChange(false)])
    ensures s.pending[i] == ClearCompleted ==>
              r == s.(isCompleted := false, pending := Without(s.pending, i))
  {
    var rest := Without(s.pending, i);
    match s.pending[i]
    case ConnectionDone => s.(isLoading := false, isCompleted := true, pending := rest + [Report])
    case Report => s.(pending := rest + [ClearCompleted],
                      emitted := s.emitted + [VerificationComplete, OpenChange(false)])
    case ClearCompleted => s.(isCompleted := false, pending := rest)
  }

  /** `handleClose`, the dialog's own close control: closes only when
      neither flag is set. */
  function Close(s: State): (r: State)
    ensures !s.isLoading && !s.isCompleted ==> r == s.(emitted := s.emitted + [OpenChange(false)])
    ensures s.isLoading || s.isCompleted ==> r == s
  {
    if !s.isLoading && !s.isCompleted then s.(emitted := s.emitted + [OpenChange(false)]) else s
  }

  /** The Deny button's handler: closes, and nothing else. */
  function Denied(s: State): (r: State)
    ensures r == s.(emitted := s.emitted + [OpenChange(false)])
  {
    s.(emitted := s.emitted + [OpenChange(false)])
  }

  /** The footer with both buttons is shown while not completed, and the
      buttons are enabled while not loading. */
  predicate ButtonsEnabled(s: State) {
    !s.isCompleted && !s.isLoading
  }

  datatype Event = AllowClicked | DenyClicked | CloseRequested | TimerFired(i: nat)

  function Step(s: State, e: Event): State {
    match e
    case AllowClicked => if ButtonsEnabled(s) then Allow(s) else s
    case DenyClicked => if ButtonsEnabled(s) then Denied(s) else s
    case CloseRequested => Close(s)
    case TimerFired(i) => if i < |s.pending| then FireTimer(s, i) else s
  }

  function Run(s: State, events: seq<Event>): State
    decreases |events|
  {
    if events == [] then s else Run(Step(s, events[0]), events[1..])
  }

  /** Every event keeps the dialog in one of its four configurations. */
  lemma StepKeepsInv(s: State, e: Event)
    requires Inv(s)
    ensures Inv(Step(s, e))
  {
    if e.TimerFired? && e.i < |s.pending| {
      assert e.i == 0;
      assert Without(s.pending, 0) == [];
    }
  }

  lemma {:induction false} RunKeepsInv(s: State, events: seq<Event>)
    requires Inv(s)
    ensures Inv(Run(s, events))
    decreases |events|
  {
    if events != [] {
      StepKeepsInv(s, events[0]);
      RunKeepsInv(Step(s, events[0]), events[1..]);
    }
  }

  /** The two flags are never set together, after any sequence of events. */
  lemma FlagsExclusive(events: seq<Event>)
    ensures var r := Run(Initial, events);
            !(r.isLoading && r.isCompleted)
  {
    RunKeepsInv(Initial, events);
  }

  /** While a request is in flight, neither Allow nor Deny nor closing does
      anything. */
  lemma BusyIgnoresUser(s: State, e: Event)
    requires Inv(s) && (s.isLoading || s.isCompleted) && !e.TimerFired?
    ensures Step(s, e) == s
  {
  }

  /** One request from idle: Allow and the three timers bring the flags back
      to false, with exactly one report of completion followed by a request
      to close. */
  lemma RequestCycle(s: State)
    requires Idle(s)
    ensures Run(s, [AllowClicked, TimerFired(0), TimerFired(0), TimerFired(0)]) ==
            s.(emitted := s.emitted + [VerificationComplete, OpenChange(false)])
  {
    var s1 := Step(s, AllowClicked);
    assert s1.pending == [ConnectionDone];
    var s2 := Step(s1, TimerFired(0));
    assert Without(s1.pending, 0) == [];
    assert s2.pending == [Report];
    var s3 := Step(s2, TimerFired(0));
    assert Without(s2.pending, 0) == [];
    assert s3.pending == [ClearCompleted];
    var s4 := Step(s3, TimerFired(0));
    assert Without(s3.pending, 0) == [];
    assert [AllowClicked, TimerFired(0), TimerFired(0), TimerFired(0)][1..] ==
           [TimerFired(0), TimerFired(0), TimerFired(0)];
    assert [TimerFired(0), TimerFired(0), TimerFired(0)][1..] == [TimerFired(0), TimerFired(0)];
    assert [TimerFired(0), TimerFired(0)][1..] == [TimerFired(0)];
  }

  /** A report to the parent that verification is complete. */
  predicate IsCompletion(c: Callback) {
    c == VerificationComplete
  }

  /** Reports made plus the one still owed by a request in flight. */
  function Owed(s: State): nat {
    Seqs.CountWhere(s.emitted, IsCompletion) + if s.isLoading || s.pending == [Report] then 1 else 0
  }

  /** Only an Allow accepted when idle adds a report to what is owed, and it
      adds exactly one; Deny and closing never report completion. */
  lemma StepOwed(s: State, e: Event)
    requires Inv(s)
    ensures Owed(Step(s, e)) == Owed(s) + if e == AllowClicked && Idle(s) then 1 else 0
  {
    Seqs.CountWhereAppend(s.emitted, [OpenChange(false)], IsCompletion);
    Seqs.CountWhereAppend(s.emitted, [VerificationComplete, OpenChange(false)], IsCompletion);
    assert [VerificationComplete, OpenChange(false)][1..] == [OpenChange(false)];
    if e.TimerFired? && e.i < |s.pending| {
      assert e.i == 0;
      assert Without(s.pending, 0) == [];
    }
  }

  /** The Allow clicks of a run that the dialog accepts. */
  function AcceptedAllows(s: State, events: seq<Event>): nat
    decreases |events|
  {
    if events == [] then 0
    else (if events[0] == AllowClicked && Idle(s) then 1 else 0) +
         AcceptedAllows(Step(s, events[0]), events[1..])
  }

  /** Along any run, every accepted Allow leads to exactly one report of
      completion: those made so far and the one owed by a request still in
      flight add up to the accepted Allow clicks. */
  lemma {:induction false} RunOwed(s: State, events: seq<Event>)
    requires Inv(s)
    ensures Owed(Run(s, events)) == Owed(s) + AcceptedAllows(s, events)
    decreases |events|
  {
    if events != [] {
      StepOwed(s, events[0]);
      StepKeepsInv(s, events[0]);
      RunOwed(Step(s, events[0]), events[1..]);
    }
  }

  /** The dialog as a component instance. */
  class Dialog {
    var isLoading: bool
    var isCompleted: bool
    var pending: seq<Timer>
    var emitted: seq<Callback>

    function Snapshot(): State
      reads this
    {
      State(isLoading, isCompleted, pending, emitted)
    }

    constructor ()
      ensures Snapshot() == Initial
    {
      isLoading, isCompleted, pending, emitted := false, false, [], [];
    }

    method HandleAllow()
      modifies this
      ensures Snapshot() == Allow(old(Snapshot()))
    {
      isLoading := true;
      pending := pending + [ConnectionDone];
    }

    method TimerFires(i: nat)
      requires i < |pending|
      modifies this
      ensures Snapshot() == FireTimer(old(Snapshot()), i)
    {
      var t := pending[i];
      pending := pending[..i] + pending[i + 1..];
      match t
      case ConnectionDone =>
        isLoading := false;
        isCompleted := true;
        pending := pending + [Report];
      case Report =>
        emitted := emitted + [VerificationComplete];
        emitted := emitted + [OpenChange(false)];
        pending := pending + [ClearCompleted];
      case ClearCompleted =>
        isCompleted := false;
    }

    method HandleClose()
      modifies this
      ensures Snapshot() == Close(old(Snapshot()))
    {
      if !isLoading && !isCompleted {
        emitted := emitted + [OpenChange(false)];
      }
    }

    method Deny()
      modifies this
      ensures Snapshot() == Denied(old(Snapshot()))
    {
      emitted := emitted + [OpenChange(false)];
    }
  }
}
