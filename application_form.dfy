/** The candidate application form: its schema, and the `isSubmitting`
    flag that a valid submission sets and a timer clears, resetting the
    fields and showing a toast. The timer callback is an explicit event. */
module ApplicationForm {
  import opened Validation

  datatype ApplicationValues = ApplicationValues(name: string, email: string, role: string)

  const NameMessage: string := "Name must be at least 2 characters."
  const EmailMessage: string := "Please enter a valid email address."
  const RoleMessage: string := "Role must be at least 3 characters."

  /** The form's default values, which `form.reset()` restores. */
  const Defaults: ApplicationValues := ApplicationValues("", "", "")

  predicate ApplicationValid(v: ApplicationValues) {
    MinLength(v.name, 2) && ValidEmail(v.email) && MinLength(v.role, 3)
  }

  /** `applicationSchema.safeParse`: one message per failing field. */
  function ValidateApplication(v: ApplicationValues): (errors: seq<FieldError>)
    ensures errors == [] <==> ApplicationValid(v)
    ensures FieldError("name", NameMessage) in errors <==> |v.name| < 2
    ensures FieldError("email", EmailMessage) in errors <==> !ValidEmail(v.email)
    ensures FieldError("role", RoleMessage) in errors <==> |v.role| < 3
  {
    Check(MinLength(v.name, 2), "name", NameMessage) +
    Check(ValidEmail(v.email), "email", EmailMessage) +
    Check(MinLength(v.role, 3), "role", RoleMessage)
  }

  /** The defaults themselves do not pass: a submission needs the user's
      input. */
  lemma DefaultsInvalid()
    ensures FieldError("name", NameMessage) in ValidateApplication(Defaults)
    ensures FieldError("role", RoleMessage) in ValidateApplication(Defaults)
  {
  }

  const ToastTitle: string := "Application Submitted!"

  /** The flag, the field values, the timers not yet fired, the submissions
      logged and the toasts shown. */
  datatype FormState = FormState(isSubmitting: bool, values: ApplicationValues, pendingTimers: nat,
                                 logged: seq<ApplicationValues>, toasts: seq<string>)

  const Initial: FormState := FormState(false, Defaults, 0, [], [])

  /** `onSubmit`, called by the form with valid values: sets the flag, logs
      the values and schedules the timer. */
  function Submit(s: FormState): (r: FormState)
    ensures r.isSubmitting && r.values == s.values && r.pendingTimers == s.pendingTimers + 1
    ensures r.logged == s.logged + [s.values] && r.toasts == s.toasts
  {
    s.(isSubmitting := true, pendingTimers := s.pendingTimers + 1, logged := s.logged + [s.values])
  }

  /** The timer: clears the flag, shows the toast and resets the fields. */
  function Elapse(s: FormState): (r: FormState)
    ensures s.pendingTimers > 0 ==>
              !r.isSubmitting && r.values == Defaults && r.pendingTimers == s.pendingTimers - 1 &&
              r.toasts == s.toasts + [ToastTitle] && r.logged == s.logged
    ensures s.pendingTimers == 0 ==> r == s
  {
    if s.pendingTimers > 0 then
      s.(isSubmitting := false, values := Defaults, pendingTimers := s.pendingTimers - 1,
         toasts := s.toasts + [ToastTitle])
    else s
  }

  /** The submit button is disabled exactly while submitting. */
  predicate SubmitDisabled(s: FormState) {
    s.isSubmitting
  }

  datatype Event = Edit(values: ApplicationValues) | SubmitClicked | Timer

  /** A click submits only when the button is enabled and the schema
      accepts the values; otherwise the form shows its errors. */
  function Step(s: FormState, e: Event): FormState {
    match e
    case Edit(v) => s.(values := v)
    case SubmitClicked =>
      if !SubmitDisabled(s) && ValidateApplication(s.values) == [] then Submit(s) else s
    case Timer => Elapse(s)
  }

  function Run(s: FormState, events: seq<Event>): FormState
    decreases |events|
  {
    if events == [] then s else Run(Step(s, events[0]), events[1..])
  }

  /** The flag is set exactly while a timer is scheduled, and at most one
      is. */
  predicate Inv(s: FormState) {
    (s.isSubmitting <==> s.pendingTimers == 1) && s.pendingTimers <= 1
  }

  /** Every submission logged is answered by a toast, or by the timer
      still scheduled. */
  predicate Answered(s: FormState) {
    |s.logged| == |s.toasts| + s.pendingTimers
  }

  lemma StepKeepsInv(s: FormState, e: Event)
    requires Inv(s) && Answered(s)
    ensures Inv(Step(s, e)) && Answered(Step(s, e))
  {
  }

  lemma {:induction false} RunKeepsInv(s: FormState, events: seq<Event>)
    requires Inv(s) && Answered(s)
    ensures Inv(Run(s, events)) && Answered(Run(s, events))
    decreases |events|
  {
    if events != [] {
      StepKeepsInv(s, events[0]);
      RunKeepsInv(Step(s, events[0]), events[1..]);
    }
  }

  /** From the first render, at most one submission is in flight, and each
      logged submission gets its toast once its timer fires. */
  lemma ReachableStates(events: seq<Event>)
    ensures Inv(Run(Initial, events)) && Answered(Run(Initial, events))
  {
    RunKeepsInv(Initial, events);
  }

  /** A valid submission followed by its timer: the flag is back to false,
      the fields are empty, and one toast was shown. */
  lemma SubmitCycle(s: FormState)
    requires Inv(s) && !s.isSubmitting && ApplicationValid(s.values)
    ensures var r := Step(Step(s, SubmitClicked), Timer);
            !r.isSubmitting && r.values == Defaults && r.toasts == s.toasts + [ToastTitle] &&
            r.logged == s.logged + [s.values]
  {
  }

  /** The form as a component instance. */
  class Form {
    var isSubmitting: bool
    var values: ApplicationValues
    var pendingTimers: nat
    var logged: seq<ApplicationValues>
    var toasts: seq<string>

    function Snapshot(): FormState
      reads this
    {
      FormState(isSubmitting, values, pendingTimers, logged, toasts)
    }

    constructor ()
      ensures Snapshot() == Initial
    {
      isSubmitting, values, pendingTimers, logged, toasts := false, Defaults, 0, [], [];
    }

    method OnSubmit()
      modifies this
      ensures Snapshot() == Submit(old(Snapshot()))
    {
      isSubmitting := true;
      logged := logged + [values];
      pendingTimers := pendingTimers + 1;
    }

    method TimerFires()
      modifies this
      ensures Snapshot() == Elapse(old(Snapshot()))
    {
      if pendingTimers > 0 {
        pendingTimers := pendingTimers - 1;
        isSubmitting := false;
        toasts := toasts + [ToastTitle];
        values := Defaults;
      }
    }
  }
}
