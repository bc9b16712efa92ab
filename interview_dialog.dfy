/** The AI screening interview dialog: a welcome screen, five fixed
    questions walked through one at a time, a simulated analysis pause ended
    by a timer, and a completion screen. The timer callback is an explicit
    event; the callbacks the dialog makes to its parent are logged. */
module InterviewDialog {
  import Seqs

  const Questions: seq<string> := [
    "Can you tell me about yourself and your background?",
    "What is your experience with the technologies listed in the job description?",
    "Describe a challenging project you worked on and how you overcame the obstacles.",
    "What are your career goals for the next five years?",
    "Do you have any questions for us?"
  ]

  /** The index of the last question. */
  const LastIndex: int := |Questions| - 1

  datatype Phase = Welcome | InProgress | Analyzing | Complete

  /** A call the dialog makes to its parent's props. */
  datatype Callback = InterviewComplete | OpenChange(open: bool)

  /** `interviewState`, `currentQuestionIndex`, how many analysis timers are
      scheduled and have not fired yet, and the callbacks made so far. */
  datatype State = State(phase: Phase, index: int, pendingTimers: nat, emitted: seq<Callback>)

  /** The state on first render. */
  const Initial: State := State(Welcome, 0, 0, [])

  /** The question cursor is always on a question. */
  predicate Inv(s: State) {
    0 <= s.index <= LastIndex
  }

  /** The reset effect, run when `isOpen` becomes true: back to the welcome
      screen and the first question, whatever the state was. Scheduled
      timers are not cancelled. */
  function Reset(s: State): (r: State)
    ensures r.phase == Welcome && r.index == 0
    ensures r.pendingTimers == s.pendingTimers && r.emitted == s.emitted
  {
    s.(phase := Welcome, index := 0)
  }

  /** `startInterview`: on to the questions, at the current index. */
  function Start(s: State): (r: State)
    ensures r == s.(phase := InProgress)
  {
    s.(phase := InProgress)
  }

  /** `nextQuestion`: the next question, or after the last one the analysis
      pause with a timer scheduled. */
  function Advance(s: State): (r: State)
    ensures s.index < LastIndex ==> r == s.(index := s.index + 1)
    ensures s.index >= LastIndex ==>
              r == s.(phase := Analyzing, pendingTimers := s.pendingTimers + 1)
  {
    if s.index < LastIndex then s.(index := s.index + 1)
    else s.(phase := Analyzing, pendingTimers := s.pendingTimers + 1)
  }

  /** A scheduled analysis timer fires and sets the completion screen,
      whatever the state is by then. With no timer scheduled nothing fires. */
  function FinishAnalysis(s: State): (r: State)
    ensures s.pendingTimers > 0 ==>
              r == s.(phase := Complete, pendingTimers := s.pendingTimers - 1)
    ensures s.pendingTimers == 0 ==> r == s
  {
    if s.pendingTimers > 0 then s.(phase := Complete, pendingTimers := s.pendingTimers - 1)
    else s
  }

  /** `handleClose`: asks the parent to close the dialog. */
  function RequestClose(s: State): (r: State)
    ensures r == s.(emitted := s.emitted + [OpenChange(false)])
  {
    s.(emitted := s.emitted + [OpenChange(false)])
  }

  /** `handleInterviewCompletion`: reports completion, then closes. */
  function ReportCompletion(s: State): (r: State)
    ensures r == s.(emitted := s.emitted + [InterviewComplete, OpenChange(false)])
  {
    RequestClose(s.(emitted := s.emitted + [InterviewComplete]))
  }

  /** `progressPercentage` for a question index. */
  function Progress(index: int): real {
    (index + 1) as real / |Questions| as real * 100.0
  }

  /** The footer button's label while the questions are shown. */
  function NextLabel(s: State): string {
    if s.index < LastIndex then "Next Question" else "Finish Interview"
  }

  /** What the user and the runtime can do. A button does something only on
      the screen that shows it; the dialog's own close control is always
      there. */
  datatype Event =
    | DialogOpened
    | StartClicked
    | NextClicked
    | AnalysisTimer
    | CloseRequested
    | CloseClicked
    | MoveToNextStageClicked

  function Step(s: State, e: Event): State {
    match e
    case DialogOpened => Reset(s)
    case StartClicked => if s.phase == Welcome then Start(s) else s
    case NextClicked => if s.phase == InProgress then Advance(s) else s
    case AnalysisTimer => FinishAnalysis(s)
    case CloseRequested => RequestClose(s)
    case CloseClicked => if s.phase == Complete then RequestClose(s) else s
    case MoveToNextStageClicked => if s.phase == Complete then ReportCompletion(s) else s
  }

  function Run(s: State, events: seq<Event>): State
    decreases |events|
  {
    if events == [] then s else Run(Step(s, events[0]), events[1..])
  }

  /** A report to the parent that the interview is complete. */
  predicate IsCompletion(c: Callback) {
    c == InterviewComplete
  }

  /** Every event keeps the cursor on a question. */
  lemma StepKeepsInv(s: State, e: Event)
    requires Inv(s)
    ensures Inv(Step(s, e))
  {
  }

  /** The cursor stays on a question in every state reachable from the
      first render. */
  lemma {:induction false} RunKeepsInv(s: State, events: seq<Event>)
    requires Inv(s)
    ensures Inv(Run(s, events))
    decreases |events|
  {
    if events != [] {
      StepKeepsInv(s, events[0]);
      RunKeepsInv(Step(s, events[0]), events[1..]);
    }
  }

  /** Only the start button leaves the welcome screen for the questions, and
      it keeps the index. */
  lemma StartOnlyFromWelcome(s: State, e: Event)
    requires s.phase != InProgress && Step(s, e).phase == InProgress
    ensures s.phase == Welcome && e == StartClicked && Step(s, e).index == s.index
  {
  }

  /** Opening the dialog resets it, whatever happened before. */
  lemma OpenResets(s: State, events: seq<Event>)
    ensures var r := Run(s, events + [DialogOpened]);
            r.phase == Welcome && r.index == 0
  {
    RunAppend(s, events, [DialogOpened]);
  }

  lemma {:induction false} RunAppend(s: State, a: seq<Event>, b: seq<Event>)
    ensures Run(s, a + b) == Run(Run(s, a), b)
    decreases |a|
  {
    if a == [] {
      assert a + b == b;
    } else {
      assert (a + b)[1..] == a[1..] + b;
      RunAppend(Step(s, a[0]), a[1..], b);
    }
  }

  /** `n` presses of the next button from the questions screen. */
  function Nexts(s: State, n: nat): State
    decreases n
  {
    if n == 0 then s else Nexts(Step(s, NextClicked), n - 1)
  }

  /** Below the last question, each press moves one question on and stays on
      the questions screen. */
  lemma {:induction false} NextsAdvance(s: State, n: nat)
    requires s.phase == InProgress && 0 <= s.index && s.index + n <= LastIndex
    ensures Nexts(s, n) == s.(index := s.index + n)
    decreases n
  {
    if n > 0 {
      NextsAdvance(Step(s, NextClicked), n - 1);
    }
  }

  /** From the first question, the first four presses stay on the questions
      and the fifth starts the analysis with one timer more. */
  lemma FifthPressAnalyzes(s: State)
    requires s.phase == InProgress && s.index == 0
    ensures forall n :: 0 <= n <= 4 ==> Nexts(s, n).phase == InProgress && Nexts(s, n).index == n
    ensures Nexts(s, 5) == s.(phase := Analyzing, index := 4, pendingTimers := s.pendingTimers + 1)
  {
    forall n | 0 <= n <= 4
      ensures Nexts(s, n).phase == InProgress && Nexts(s, n).index == n
    {
      NextsAdvance(s, n);
    }
    NextsAdvance(s, 4);
    assert Nexts(s, 5) == Nexts(Step(s, NextClicked), 4);
    NextsAdvance(s, 1);
    assert Nexts(s, 5) == Step(Nexts(s, 4), NextClicked) by {
      NextsShift(s, 4);
    }
  }

  lemma {:induction false} NextsShift(s: State, n: nat)
    ensures Nexts(s, n + 1) == Step(Nexts(s, n), NextClicked)
    decreases n
  {
    if n > 0 {
      NextsShift(Step(s, NextClicked), n - 1);
    }
  }

  /** The button reads 'Finish Interview' exactly when pressing it starts
      the analysis. */
  lemma FinishLabel(s: State)
    requires s.phase == InProgress && Inv(s)
    ensures NextLabel(s) == "Finish Interview" <==> Step(s, NextClicked).phase == Analyzing
  {
  }

  /** A timer scheduled before the dialog was reopened still fires, and
      puts the freshly reset dialog on the completion screen. */
  lemma StaleTimerCompletes(s: State)
    requires s.phase == InProgress && s.index == LastIndex
    ensures var r := Run(s, [NextClicked, DialogOpened, AnalysisTimer]);
            r.phase == Complete && r.index == 0
  {
  }

  /** Only 'Move to Next Stage' on the completion screen reports
      completion, once per press, followed by a request to close. */
  lemma StepCompletionCount(s: State, e: Event)
    ensures var r := Step(s, e);
            Seqs.CountWhere(r.emitted, IsCompletion) ==
            Seqs.CountWhere(s.emitted, IsCompletion) + if e == MoveToNextStageClicked && s.phase == Complete then 1 else 0
    ensures e == MoveToNextStageClicked && s.phase == Complete ==>
              Step(s, e).emitted == s.emitted + [InterviewComplete, OpenChange(false)]
  {
    Seqs.CountWhereAppend(s.emitted, [OpenChange(false)], IsCompletion);
    Seqs.CountWhereAppend(s.emitted, [InterviewComplete, OpenChange(false)], IsCompletion);
    assert [InterviewComplete, OpenChange(false)][1..] == [OpenChange(false)];
  }

  /** Progress is positive, at most 100, and 100 exactly at the last
      question. */
  lemma ProgressBounds(index: int)
    requires 0 <= index <= LastIndex
    ensures 0.0 < Progress(index) <= 100.0
    ensures Progress(index) == 100.0 <==> index == LastIndex
  {
    assert Progress(index) == 20.0 * (index + 1) as real;
  }

  /** The dialog as a component instance: its two state variables, the
      scheduled timers and the callback log. */
  class Dialog {
    var phase: Phase
    var index: int
    var pendingTimers: nat
    var emitted: seq<Callback>

    function Snapshot(): State
      reads this
    {
      State(phase, index, pendingTimers, emitted)
    }

    predicate Valid()
      reads this
    {
      Inv(Snapshot())
    }

    constructor ()
      ensures Snapshot() == Initial && Valid()
    {
      phase, index, pendingTimers, emitted := Welcome, 0, 0, [];
    }

    method Open()
      modifies this
      ensures Snapshot() == Reset(old(Snapshot())) && Valid()
    {
      phase := Welcome;
      index := 0;
    }

    method StartInterview()
      requires Valid()
      modifies this
      ensures Snapshot() == Start(old(Snapshot())) && Valid()
    {
      phase := InProgress;
    }

    method NextQuestion()
      requires Valid()
      modifies this
      ensures Snapshot() == Advance(old(Snapshot())) && Valid()
    {
      if index < |Questions| - 1 {
        index := index + 1;
      } else {
        phase := Analyzing;
        pendingTimers := pendingTimers + 1;
      }
    }

    method AnalysisTimerFires()
      requires Valid()
      modifies this
      ensures Snapshot() == FinishAnalysis(old(Snapshot())) && Valid()
    {
      if pendingTimers > 0 {
        phase := Complete;
        pendingTimers := pendingTimers - 1;
      }
    }

    method HandleClose()
      requires Valid()
      modifies this
      ensures Snapshot() == RequestClose(old(Snapshot())) && Valid()
    {
      emitted := emitted + [OpenChange(false)];
    }

    method HandleInterviewCompletion()
      requires Valid()
      modifies this
      ensures Snapshot() == ReportCompletion(old(Snapshot())) && Valid()
    {
      emitted := emitted + [InterviewComplete];
      HandleClose();
    }

    /** The progress bar's value, in (0, 100]. */
    function ProgressPercentage(): (p: real)
      requires Valid()
      reads this
      ensures 0.0 < p <= 100.0
    {
      ProgressBounds(index);
      Progress(index)
    }
  }
}
