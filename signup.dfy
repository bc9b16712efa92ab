/** The sign-up page: the form schema with its password-confirmation
    refinement, the split of the display name into first and last name for
    the user document, the mapping from authentication error codes to
    messages, and the `isLoading` flag around a submission. Authentication,
    the document write, toasts and navigation are logged effects; their
    outcomes are inputs. */
module Signup {
  import opened Text
  import opened Validation
  import Seqs

  datatype SignupValues = SignupValues(name: string, email: string, password: string, confirmPassword: string)

  const NameMessage: string := "Name must be at least 2 characters"
  const EmailMessage: string := "Enter a valid email address"
  const PasswordMessage: string := "Password must be at least 6 characters"
  const MismatchMessage: string := "Passwords don't match"

  /** What the schema accepts. */
  predicate SignupValid(v: SignupValues) {
    MinLength(v.name, 2) && ValidEmail(v.email) && MinLength(v.password, 6) &&
    v.password == v.confirmPassword
  }

  /** `formSchema.safeParse`: one message per failing check, the field
      checks first and the refinement last. The refinement still runs when
      a field check has failed, because a failed length or email check does
      not abort the object. */
  function ValidateSignup(v: SignupValues): (errors: seq<FieldError>)
    ensures errors == [] <==> SignupValid(v)
    ensures FieldError("name", NameMessage) in errors <==> |v.name| < 2
    ensures FieldError("email", EmailMessage) in errors <==> !ValidEmail(v.email)
    ensures FieldError("password", PasswordMessage) in errors <==> |v.password| < 6
    ensures FieldError("confirmPassword", MismatchMessage) in errors <==> v.password != v.confirmPassword
    ensures |errors| <= 4
  {
    Check(MinLength(v.name, 2), "name", NameMessage) +
    Check(ValidEmail(v.email), "email", EmailMessage) +
    Check(MinLength(v.password, 6), "password", PasswordMessage) +
    Check(v.password == v.confirmPassword, "confirmPassword", MismatchMessage)
  }

  /** `const [firstName, ...lastNameParts] = name.split(' ')` with
      `firstName || ''` and `lastNameParts.join(' ')`. */
  function SplitName(name: string): (r: (string, string))
    ensures !Contains(r.0, ' ')
  {
    var parts := Split(name, ' ');
    (parts[0], Join(parts[1..], ' '))
  }

  /** With a space in the name, the first name runs up to the first space
      and first name, a space and last name give the name back. */
  lemma SplitNameRoundTrip(name: string)
    requires Contains(name, ' ')
    ensures var (first, last) := SplitName(name);
            first + " " + last == name && |first| < |name| && name[|first|] == ' '
  {
    SplitHeadAndRest(name, ' ');
  }

  /** Without a space, the whole name is the first name and the last name
      is empty. */
  lemma SplitNameSingleWord(name: string)
    requires !Contains(name, ' ')
    ensures SplitName(name) == (name, "")
  {
    JoinSplit(name, ' ');
  }

  const EmailInUseCode: string := "auth/email-already-in-use"
  const NotAllowedCode: string := "auth/operation-not-allowed"
  const EmailInUseMessage: string := "This email is already in use. Please try another one."
  const NotAllowedMessage: string := "Email/Password sign-up is not enabled. Please contact support."
  const GenericMessage: string := "An unexpected error occurred. Please try again."

  /** The message shown for an error with `code`; an error without a code
      has a code matching neither. */
  function SignupErrorMessage(code: string): (m: string)
    ensures m == EmailInUseMessage <==> code == EmailInUseCode
    ensures m == NotAllowedMessage <==> code == NotAllowedCode
    ensures m == GenericMessage <==> code != EmailInUseCode && code != NotAllowedCode
  {
    if code == EmailInUseCode then EmailInUseMessage
    else if code == NotAllowedCode then NotAllowedMessage
    else GenericMessage
  }

  /** How an awaited authentication call ends. */
  datatype AccountOutcome = Created(uid: string, userEmail: string) | AccountFailed(code: string)
  datatype ProfileOutcome = ProfileUpdated | ProfileFailed(code: string)

  /** The user document written to `userAccounts/<uid>`. */
  datatype UserDoc = UserDoc(id: string, email: string, firstName: string, lastName: string,
                             createdAt: string, termsOfServiceAccepted: bool)

  datatype Effect =
    | CreateAccount(email: string, password: string)
    | UpdateDisplayName(displayName: string)
    | WriteUserDoc(doc: UserDoc)
    | LogError(code: string)
    | Toast(title: string, description: string, destructive: bool)
    | Navigate(path: string)

  /** The `catch` block: the error is logged, then one destructive toast
      carries the message for its code. */
  function Failure(code: string): (r: seq<Effect>)
    ensures |r| == 2 && r[0] == LogError(code) && r[1].Toast? && r[1].destructive
    ensures r[1].description == SignupErrorMessage(code)
  {
    [LogError(code), Toast("Signup Failed", SignupErrorMessage(code), true)]
  }

  /** The effects of one `onSubmit` after the flag is set: the account is
      created, the display name set, the user document written when a
      database is available, then a success toast and navigation; any
      failure of the awaited calls ends in the `catch` block. `now` is the
      submission time as an ISO string. */
  function SubmitEffects(v: SignupValues, account: AccountOutcome, profile: ProfileOutcome,
                         hasFirestore: bool, now: string): seq<Effect>
  {
    [CreateAccount(v.email, v.password)] +
    match account
    case AccountFailed(code) => Failure(code)
    case Created(uid, userEmail) =>
      [UpdateDisplayName(v.name)] +
      match profile
      case ProfileFailed(code) => Failure(code)
      case ProfileUpdated =>
        var (first, last) := SplitName(v.name);
        (if hasFirestore then [WriteUserDoc(UserDoc(uid, userEmail, first, last, now, true))] else []) +
        [Toast("Account Created", "You have successfully created an account.", false), Navigate("/dashboard")]
  }

  predicate IsToast(e: Effect) {
    e.Toast?
  }

  /** How many toasts a sequence of effects shows. */
  function ToastCount(effects: seq<Effect>): (n: nat)
    ensures n <= |effects|
  {
    Seqs.CountWhere(effects, IsToast)
  }

  lemma ToastCountSingle(x: Effect)
    ensures ToastCount([x]) == if x.Toast? then 1 else 0
  {
    assert [x][1..] == [];
  }

  lemma FailureOneToast(code: string)
    ensures ToastCount(Failure(code)) == 1
  {
    var f := Failure(code);
    assert f == [f[0]] + [f[1]];
    ToastCountSingle(f[0]);
    ToastCountSingle(f[1]);
    Seqs.CountWhereAppend([f[0]], [f[1]], IsToast);
  }

  /** Every submission first asks for the account, shows exactly one toast,
      and navigates to the dashboard exactly when both awaited calls
      succeed. */
  lemma SubmitOutcome(v: SignupValues, account: AccountOutcome, profile: ProfileOutcome,
                      hasFirestore: bool, now: string)
    ensures var e := SubmitEffects(v, account, profile, hasFirestore, now);
            ToastCount(e) == 1 &&
            (Navigate("/dashboard") in e <==> account.Created? && profile.ProfileUpdated?) &&
            e[0] == CreateAccount(v.email, v.password)
  {
    var e := SubmitEffects(v, account, profile, hasFirestore, now);
    var create := [CreateAccount(v.email, v.password)];
    ToastCountSingle(CreateAccount(v.email, v.password));
    if account.AccountFailed? {
      FailureOneToast(account.code);
      Seqs.CountWhereAppend(create, Failure(account.code), IsToast);
    } else {
      var named := [UpdateDisplayName(v.name)];
      ToastCountSingle(UpdateDisplayName(v.name));
      if profile.ProfileFailed? {
        var f := Failure(profile.code);
        FailureOneToast(profile.code);
        Seqs.CountWhereAppend(named, f, IsToast);
        Seqs.CountWhereAppend(create, named + f, IsToast);
      } else {
        var (first, last) := SplitName(v.name);
        var d := UserDoc(account.uid, account.userEmail, first, last, now, true);
        var written: seq<Effect> := if hasFirestore then [WriteUserDoc(d)] else [];
        var tail := [Toast("Account Created", "You have successfully created an account.", false), Navigate("/dashboard")];
        ToastCountSingle(WriteUserDoc(d));
        assert ToastCount(tail) == 1 by {
          assert tail == [tail[0]] + [Navigate("/dashboard")];
          ToastCountSingle(tail[0]);
          ToastCountSingle(Navigate("/dashboard"));
          Seqs.CountWhereAppend([tail[0]], [Navigate("/dashboard")], IsToast);
        }
        Seqs.CountWhereAppend(written, tail, IsToast);
        Seqs.CountWhereAppend(named, written + tail, IsToast);
        Seqs.CountWhereAppend(create, named + (written + tail), IsToast);
        assert e == create + (named + (written + tail));
      }
    }
  }

  /** The user document carries the name split at its first space. */
  lemma UserDocNames(v: SignupValues, uid: string, userEmail: string, now: string)
    requires Contains(v.name, ' ')
    ensures var e := SubmitEffects(v, Created(uid, userEmail), ProfileUpdated, true, now);
            |e| == 5 && e[2].WriteUserDoc? &&
            e[2].doc.firstName + " " + e[2].doc.lastName == v.name &&
            !Contains(e[2].doc.firstName, ' ')
  {
    SplitNameRoundTrip(v.name);
  }

  /** Only the first effect of a submission asks for an account. */
  lemma SubmitEffectsRequestOnce(v: SignupValues, account: AccountOutcome, profile: ProfileOutcome,
                                 hasFirestore: bool, now: string)
    ensures var e := SubmitEffects(v, account, profile, hasFirestore, now);
            forall k :: 0 < k < |e| ==> !e[k].CreateAccount?
  {
  }

  /** The page: the `isLoading` flag, the values of the submission whose
      calls are awaited, and the effects issued so far. */
  datatype PageState = PageState(isLoading: bool, inFlight: SignupValues, effects: seq<Effect>)

  const InitialPage: PageState := PageState(false, SignupValues("", "", "", ""), [])

  /** `form.handleSubmit(onSubmit)` up to the first await. The resolver
      runs the schema: with any error `onSubmit` is not called; while
      loading the submit button is disabled. Otherwise the flag is set and
      the values are in flight. */
  function Submitted(s: PageState, v: SignupValues): (r: PageState)
    ensures !s.isLoading && ValidateSignup(v) == [] ==> r == s.(isLoading := true, inFlight := v)
    ensures s.isLoading || ValidateSignup(v) != [] ==> r == s
  {
    if !s.isLoading && ValidateSignup(v) == [] then s.(isLoading := true, inFlight := v) else s
  }

  /** The rest of `onSubmit`: the awaited calls end as given, their effects
      are issued for the values in flight, and `finally` clears the flag. */
  function Settled(s: PageState, account: AccountOutcome, profile: ProfileOutcome,
                   hasFirestore: bool, now: string): (r: PageState)
    requires s.isLoading
    ensures !r.isLoading && r.inFlight == s.inFlight
    ensures r.effects == s.effects + SubmitEffects(s.inFlight, account, profile, hasFirestore, now)
  {
    s.(isLoading := false, effects := s.effects + SubmitEffects(s.inFlight, account, profile, hasFirestore, now))
  }

  datatype PageEvent =
    | SubmitClicked(values: SignupValues)
    | CallsSettled(account: AccountOutcome, profile: ProfileOutcome, hasFirestore: bool, now: string)

  /** Awaited calls settle only for a submission in flight. */
  function PageStep(s: PageState, e: PageEvent): PageState {
    match e
    case SubmitClicked(v) => Submitted(s, v)
    case CallsSettled(account, profile, hasFirestore, now) =>
      if s.isLoading then Settled(s, account, profile, hasFirestore, now) else s
  }

  function PageRun(s: PageState, events: seq<PageEvent>): PageState
    decreases |events|
  {
    if events == [] then s else PageRun(PageStep(s, events[0]), events[1..])
  }

  /** Every account request carries an email and a password the schema
      accepted, and every display name sent to the profile update is a
      name the schema accepted. */
  predicate AccountsValid(effects: seq<Effect>) {
    (forall k :: 0 <= k < |effects| && effects[k].CreateAccount? ==>
       ValidEmail(effects[k].email) && |effects[k].password| >= 6) &&
    (forall k :: 0 <= k < |effects| && effects[k].UpdateDisplayName? ==>
       |effects[k].displayName| >= 2)
  }

  /** The values in flight passed the schema, and so did every account
      request made so far. */
  predicate PageInv(s: PageState) {
    (s.isLoading ==> SignupValid(s.inFlight)) && AccountsValid(s.effects)
  }

  lemma PageStepKeepsInv(s: PageState, e: PageEvent)
    requires PageInv(s)
    ensures PageInv(PageStep(s, e))
  {
    if e.CallsSettled? && s.isLoading {
      var added := SubmitEffects(s.inFlight, e.account, e.profile, e.hasFirestore, e.now);
      SubmitEffectsRequestOnce(s.inFlight, e.account, e.profile, e.hasFirestore, e.now);
      var r := PageStep(s, e);
      forall k | 0 <= k < |r.effects| && r.effects[k].CreateAccount?
        ensures ValidEmail(r.effects[k].email) && |r.effects[k].password| >= 6
      {
        if k >= |s.effects| {
          assert r.effects[k] == added[k - |s.effects|];
        }
      }
      forall k | 0 <= k < |r.effects| && r.effects[k].UpdateDisplayName?
        ensures |r.effects[k].displayName| >= 2
      {
        if k >= |s.effects| {
          assert r.effects[k] == added[k - |s.effects|];
        }
      }
    }
  }

  /** Values that fail the schema never reach the authentication service:
      from the first render, after any sequence of clicks and settled calls,
      every account request carries a valid email and a password of at
      least six characters, and every display name sent to the profile
      update has at least two characters. */
  lemma {:induction false} PageRunRequestsOnlyValid(s: PageState, events: seq<PageEvent>)
    requires PageInv(s)
    ensures PageInv(PageRun(s, events))
    decreases |events|
  {
    if events != [] {
      PageStepKeepsInv(s, events[0]);
      PageRunRequestsOnlyValid(PageStep(s, events[0]), events[1..]);
    }
  }

  /** A click with values the schema rejects, or while loading, changes
      nothing: no flag, no account request, no toast. */
  lemma RejectedClickIgnored(s: PageState, v: SignupValues)
    requires s.isLoading || !SignupValid(v)
    ensures PageStep(s, SubmitClicked(v)) == s
  {
  }

  /** The page as a component instance. */
  class SignupPage {
    var isLoading: bool
    var inFlight: SignupValues
    var effects: seq<Effect>

    function Snapshot(): PageState
      reads this
    {
      PageState(isLoading, inFlight, effects)
    }

    constructor ()
      ensures Snapshot() == InitialPage
    {
      isLoading := false;
      inFlight := SignupValues("", "", "", "");
      effects := [];
    }

    /** The submit button is disabled exactly while loading. */
    predicate SubmitDisabled()
      reads this
    {
      isLoading
    }

    /** A click on the submit button, through `form.handleSubmit`. */
    method HandleSubmit(v: SignupValues)
      modifies this
      ensures Snapshot() == Submitted(old(Snapshot()), v)
    {
      if !isLoading && ValidateSignup(v) == [] {
        isLoading := true;
        inFlight := v;
      }
    }

    /** The awaited calls of the submission in flight end as given. */
    method Settle(account: AccountOutcome, profile: ProfileOutcome, hasFirestore: bool, now: string)
      requires isLoading
      modifies this
      ensures Snapshot() == Settled(old(Snapshot()), account, profile, hasFirestore, now)
    {
      effects := effects + SubmitEffects(inFlight, account, profile, hasFirestore, now);
      isLoading := false;
    }
  }
}
