# HireLogic AI — a Dafny model of the recruiting dashboard's logic

HireLogic AI is a Next.js recruiting dashboard. Recruiters see candidates and their interviews, generate
screening questionnaires from a job description, run a simulated AI screening interview, and request
document verification through a DigiLocker consent dialog. Most of the application is presentation.
This project models the logic underneath it:

- **Two dialog state machines.**
  - The AI screening interview (`InterviewDialog`): welcome, five fixed questions, a timed analysis
    pause, completion.
  - The DigiLocker consent dialog (`DigiLocker`): two flags driven by three chained timers, with a
    close guard.
  - Each timer callback is an explicit event, and the state records which timers are scheduled.
  - Each dialog is a class whose methods update its fields. Every method is proved equal to a pure
    step function, and the invariants and event-sequence properties are proved about those step
    functions.
- **The server actions** (`Actions`). The questionnaire action validates the job description and
  maps the generator's outcome to a reply. The interview-questions action validates its input and
  falls back to a fixed question. The language model is not modelled: its outcome is an input.
- **The forms.**
  - Sign-up (`Signup`): schema with the password-confirmation refinement, the split of the name into
    first and last name, the error-code messages, and the `isLoading` lifecycle.
  - Questionnaire form (`QuestionnaireForm`): the toast decision, the result panel, the copy button.
  - Candidate application form (`ApplicationForm`): schema, submission flag, timer and field reset.
  - Recruiter profile (`Profile`): schema, defaults, submission.
- **The dashboard's path logic** (`Layout`): the page title, which sidebar item is highlighted, and
  the sign-in guard.
- **The list queries**:
  - the interviews page's upcoming list: filter, then a stable sort by day (`InterviewsPage`);
  - the dashboard's first five scheduled interviews and its counts (`DashboardPage`);
  - the mock store with its per-candidate interview lists (`Data`).
- **Shared helpers**: `Text` (prefix test, `split`/`join` on one separator), `Seqs` (`filter`,
  `slice(0, n)`, `find`, insertion sort) and `Validation` (zod-style field errors and the email
  pattern).

Effects on the outside world are recorded in the state as a log of what was issued: callbacks to a
parent component, toasts, navigation, clipboard writes, document writes. The outcomes of awaited
calls are parameters.

The model follows the code; in particular:

- The interview dialog has no question-generation step.
- It keeps no answered count and applies no pass threshold.
- It does not cancel its analysis timer when the dialog is closed or reopened.
- The DigiLocker dialog only reports completion to its parent. It writes no document status.

## Model

| member | source | states |
|---|---|---|
| Actions.ParseJobDescription | src/app/actions.ts:7-9 | the description is accepted iff it is present and at least 50 characters long, and is then returned unchanged; a missing field gives zod's null message and a short one the schema's message |
| Actions.JoinMessages | src/app/actions.ts:24 | a single field message is reported as it is; several start with the first message followed by ', ' |
| Actions.HandleGenerateQuestionnaire | src/app/actions.ts:11-42 | an invalid or missing description never reaches the generator and yields an 'Error: ' message with no questionnaire; a valid one is passed to the generator exactly once, unchanged; a non-empty result gives 'success' with that text, an empty one 'Error: Failed to generate questionnaire.', a throw 'Error: An unexpected error occurred on the server.' |
| Actions.ReplyShape | src/app/actions.ts:22-41 | every reply's message is 'success' or starts with 'Error: ', and a questionnaire is present iff the message is 'success', and is then non-empty |
| Actions.PreviousStateIgnored | src/app/actions.ts:11-17 | the reply does not depend on the previous state |
| Actions.HandleGenerateInterviewQuestions | src/app/actions.ts:44-65 | it throws with the fixed message iff resume or role is not a string; otherwise it returns the generated list unchanged, or exactly the one fallback question when the generator throws |
| Actions.FallbackIndistinguishable | src/app/actions.ts:58-64 | a failed generation returns the same value as a generator that produced only the fallback sentence |
| InterviewDialog.Reset | src/components/ai-interview-dialog.tsx:40-46 | reopening sets 'welcome' and index 0 whatever the state was, and keeps scheduled timers and the callback log |
| InterviewDialog.Start | src/components/ai-interview-dialog.tsx:48-50 | starting moves to the questions and changes nothing else |
| InterviewDialog.Advance | src/components/ai-interview-dialog.tsx:52-62 | below the last question the index goes up by one and the screen stays; at the last question the screen becomes 'analyzing' with one more timer, index unchanged |
| InterviewDialog.FinishAnalysis | src/components/ai-interview-dialog.tsx:58-60 | a scheduled timer sets 'complete' whatever the state is by then |
| InterviewDialog.RequestClose | src/components/ai-interview-dialog.tsx:64-66 | closing only asks the parent for `onOpenChange(false)` |
| InterviewDialog.ReportCompletion | src/components/ai-interview-dialog.tsx:68-71 | completion calls `onInterviewComplete` and then `onOpenChange(false)`, nothing else |
| InterviewDialog.RunKeepsInv | src/components/ai-interview-dialog.tsx:16-22 | after any sequence of events the question index stays within 0..4 |
| InterviewDialog.StartOnlyFromWelcome | src/components/ai-interview-dialog.tsx:85-95 | the questions screen is entered only from 'welcome' by the start button, and the index is kept |
| InterviewDialog.OpenResets | src/components/ai-interview-dialog.tsx:40-46 | after any history, opening the dialog leaves it on 'welcome' at index 0 |
| InterviewDialog.NextsAdvance | src/components/ai-interview-dialog.tsx:52-56 | below the last question, n presses of Next move exactly n questions on and stay on the questions screen |
| InterviewDialog.FifthPressAnalyzes | src/components/ai-interview-dialog.tsx:52-61 | from index 0 the first four presses stay on the questions at indexes 1..4, and the fifth starts the analysis at index 4 with one timer more |
| InterviewDialog.FinishLabel | src/components/ai-interview-dialog.tsx:128-133 | the button reads 'Finish Interview' exactly when pressing it starts the analysis |
| InterviewDialog.StaleTimerCompletes | src/components/ai-interview-dialog.tsx:40-60 | finishing, reopening, then the old timer firing leaves the reset dialog on 'complete' at index 0 |
| InterviewDialog.StepCompletionCount | src/components/ai-interview-dialog.tsx:134-139 | only 'Move to Next Stage' on the completion screen reports completion, exactly once per press, followed by a close request |
| InterviewDialog.ProgressBounds | src/components/ai-interview-dialog.tsx:73 | progress lies in (0, 100] and is 100 exactly at the last question |
| InterviewDialog.Progress | src/components/ai-interview-dialog.tsx:73 | (index + 1) / 5 * 100; its bounds are stated by `ProgressBounds` |
| InterviewDialog.NextLabel | src/components/ai-interview-dialog.tsx:128-133 | 'Next Question' below the last question, 'Finish Interview' at it; `FinishLabel` ties it to the press that starts the analysis |
| InterviewDialog.Step | src/components/ai-interview-dialog.tsx:40-139 | an event acts only on the screen that shows its button; `StepKeepsInv`, `RunKeepsInv`, `StartOnlyFromWelcome` and `StepCompletionCount` state its properties |
| InterviewDialog.Dialog.constructor | src/components/ai-interview-dialog.tsx:37-38 | the dialog starts on 'welcome' at index 0 |
| InterviewDialog.Dialog.Open | src/components/ai-interview-dialog.tsx:40-46 | the reset effect updates the fields as `Reset` |
| InterviewDialog.Dialog.StartInterview | src/components/ai-interview-dialog.tsx:48-50 | `startInterview` updates the fields as `Start` |
| InterviewDialog.Dialog.NextQuestion | src/components/ai-interview-dialog.tsx:52-62 | `nextQuestion` updates the fields as `Advance` and keeps the index in range |
| InterviewDialog.Dialog.AnalysisTimerFires | src/components/ai-interview-dialog.tsx:58-60 | the timer callback updates the fields as `FinishAnalysis` |
| InterviewDialog.Dialog.HandleClose | src/components/ai-interview-dialog.tsx:64-66 | `handleClose` logs the close request |
| InterviewDialog.Dialog.HandleInterviewCompletion | src/components/ai-interview-dialog.tsx:68-71 | `handleInterviewCompletion` logs completion then the close request |
| InterviewDialog.Dialog.ProgressPercentage | src/components/ai-interview-dialog.tsx:73 | the progress bar's value lies in (0, 100] |
| DigiLocker.Allow | src/components/digilocker-dialog.tsx:34-36 | allowing sets the loading flag and schedules the first timer, nothing else |
| DigiLocker.FireTimer | src/components/digilocker-dialog.tsx:36-47 | the first timer clears loading, sets completed and schedules the report; the report calls `onVerificationComplete` then `onOpenChange(false)` and schedules the reset; the reset clears completed |
| DigiLocker.Close | src/components/digilocker-dialog.tsx:50-54 | closing asks the parent to close iff neither flag is set, and otherwise changes nothing |
| DigiLocker.Denied | src/components/digilocker-dialog.tsx:100 | Deny only asks the parent to close |
| DigiLocker.ButtonsEnabled | src/components/digilocker-dialog.tsx:98-107 | Deny and Allow are shown while not completed and enabled while not loading; `BusyIgnoresUser` states that busy clicks change nothing |
| DigiLocker.Step | src/components/digilocker-dialog.tsx:34-107 | clicks act only through enabled buttons, closing through the guard, timers as scheduled; `StepKeepsInv` and `StepOwed` state its properties |
| DigiLocker.StepKeepsInv | src/components/digilocker-dialog.tsx:34-54 | every event keeps the dialog in one of four configurations: idle, connecting, completed awaiting the report, completed awaiting the reset |
| DigiLocker.RunKeepsInv | src/components/digilocker-dialog.tsx:34-54 | the four configurations hold after any sequence of events |
| DigiLocker.FlagsExclusive | src/components/digilocker-dialog.tsx:31-48 | `isLoading` and `isCompleted` are never both true in a reachable state |
| DigiLocker.BusyIgnoresUser | src/components/digilocker-dialog.tsx:98-107 | while a request is in flight, Allow, Deny and closing change nothing, so no second request can start |
| DigiLocker.RequestCycle | src/components/digilocker-dialog.tsx:34-48 | from idle, Allow and the three timers restore both flags and add exactly `onVerificationComplete` then `onOpenChange(false)` |
| DigiLocker.StepOwed | src/components/digilocker-dialog.tsx:39-41 | only an Allow accepted when idle adds a completion report, made or owed, and it adds exactly one; Deny and closing never report |
| DigiLocker.RunOwed | src/components/digilocker-dialog.tsx:34-48 | along any run, reports made plus the one owed by a request in flight equal the Allow clicks accepted |
| DigiLocker.Dialog.constructor | src/components/digilocker-dialog.tsx:31-32 | both flags start false with nothing scheduled |
| DigiLocker.Dialog.HandleAllow | src/components/digilocker-dialog.tsx:34-36 | `handleAllow` updates the fields as `Allow` |
| DigiLocker.Dialog.TimerFires | src/components/digilocker-dialog.tsx:36-47 | a timer callback updates the fields as `FireTimer` |
| DigiLocker.Dialog.HandleClose | src/components/digilocker-dialog.tsx:50-54 | `handleClose` updates the fields as `Close` |
| DigiLocker.Dialog.Deny | src/components/digilocker-dialog.tsx:100 | the Deny handler updates the fields as `Denied` |
| Signup.ValidateSignup | src/app/signup/page.tsx:36-48 | no errors iff the values satisfy the schema; each field's message is reported iff its check fails, and "Passwords don't match" on `confirmPassword` iff the passwords differ, also when other checks fail |
| Signup.SplitName | src/app/signup/page.tsx:82-88 | the first name never holds a space |
| Signup.SplitNameRoundTrip | src/app/signup/page.tsx:82-88 | with a space in the name, the first name ends at the first space and first name + ' ' + last name is the name |
| Signup.SplitNameSingleWord | src/app/signup/page.tsx:82-88 | without a space, the first name is the name and the last name is empty |
| Signup.SignupErrorMessage | src/app/signup/page.tsx:101-106 | each of the two known codes gets its own message iff it is that code, and every other error gets the generic message |
| Signup.SubmitOutcome | src/app/signup/page.tsx:67-115 | a submission first asks for the account, shows exactly one toast, and navigates to the dashboard iff account creation and the profile update both succeed |
| Signup.UserDocNames | src/app/signup/page.tsx:81-91 | the user document's first and last name, joined by a space, give back a name that has a space, and the first name has none |
| Signup.Failure | src/app/signup/page.tsx:99-110 | a failure logs the error, then shows one destructive toast whose text is the message for the error's code |
| Signup.SubmitEffects | src/app/signup/page.tsx:67-115 | the effects of `onSubmit` after the flag is set; `SubmitOutcome` and `SubmitEffectsRequestOnce` state their shape |
| Signup.SubmitEffectsRequestOnce | src/app/signup/page.tsx:69-73 | a submission asks for an account once, as its first effect |
| Signup.Submitted | src/app/signup/page.tsx:131 | `handleSubmit` calls `onSubmit` only when the schema reports no error and the button is enabled; `onSubmit` then sets `isLoading` and the values are in flight; otherwise nothing changes |
| Signup.Settled | src/app/signup/page.tsx:69-114 | the awaited calls issue the effects of the values in flight, and `finally` clears `isLoading` on every outcome |
| Signup.PageStepKeepsInv | src/app/signup/page.tsx:67-198 | each click or settled call keeps the in-flight values schema-valid, every account request's email valid and password at least six characters long, and every display name sent to `updateProfile` at least two characters long |
| Signup.PageRunRequestsOnlyValid | src/app/signup/page.tsx:67-198 | after any sequence of clicks and settled calls, every account request carries a schema-valid email and a password of at least six characters, and every display name sent to `updateProfile` has at least two characters |
| Signup.RejectedClickIgnored | src/app/signup/page.tsx:131-198 | a click with values the schema rejects, or while loading, changes nothing |
| Signup.SignupPage.constructor | src/app/signup/page.tsx:53 | the page starts not loading, with no effects |
| Signup.SignupPage.HandleSubmit | src/app/signup/page.tsx:131 | a click updates the fields as `Submitted` |
| Signup.SignupPage.Settle | src/app/signup/page.tsx:69-114 | the end of the awaited calls updates the fields as `Settled` |
| Layout.NavItemsUnderDashboard | src/app/dashboard/layout.tsx:48-57 | every navigation href starts with the first one, '/dashboard' |
| Layout.FindUnderFirstPrefix | src/app/dashboard/layout.tsx:186-187 | when the first href starts every href, `find` by prefix gives the first item or nothing |
| Layout.PageTitleTwoValues | src/app/dashboard/layout.tsx:182-192 | the title is 'Recruiter Profile' iff the path is '/dashboard/profile', and 'Dashboard' for every other path |
| Layout.CandidateDetailsUnreachable | src/app/dashboard/layout.tsx:186-190 | 'Candidate Details' is never returned |
| Layout.AtMostOneActive | src/app/dashboard/layout.tsx:218-258 | for any path at most one top-level sidebar item is active |
| Layout.SubItemUnderParent | src/app/dashboard/layout.tsx:234-249 | 'Interviews to Attend' is active only when 'Interviews' is |
| Layout.InterviewsTitleDisagrees | src/app/dashboard/layout.tsx:182-192 | on '/dashboard/interviews' the sidebar highlights 'Interviews' while the title reads 'Dashboard'; the corrected title reads 'Interviews' |
| Layout.CorrectedTitleFollowsSidebar | src/app/dashboard/layout.tsx:182-192 | the corrected title is 'Candidate Details' on a candidate's page, otherwise the active item's label, or 'Dashboard' when none is active |
| Layout.RedirectBehindSpinner | src/app/dashboard/layout.tsx:175-200 | a redirect is issued only while the spinner shows, and the layout shows only with a signed-in user |
| Layout.GetPageTitle | src/app/dashboard/layout.tsx:182-192 | `getPageTitle` as written; `PageTitleTwoValues` states that it gives only 'Recruiter Profile' and 'Dashboard' |
| Layout.CorrectedPageTitle | src/app/dashboard/layout.tsx:182-192 | the intended title; `CorrectedTitleFollowsSidebar` ties it to the highlighted item |
| Layout.Active | src/app/dashboard/layout.tsx:218-258 | the sidebar's `isActive`: exact match for Dashboard, prefix for the others; `AtMostOneActive` states that at most one holds |
| Layout.ShouldRedirect | src/app/dashboard/layout.tsx:175-179 | the redirect effect's condition; `RedirectBehindSpinner` relates it to the spinner |
| Layout.ShowSpinner | src/app/dashboard/layout.tsx:194-200 | the spinner's condition; `RedirectBehindSpinner` relates it to the redirect |
| Layout.DashboardLayout.constructor | src/app/dashboard/layout.tsx:167 | `isClient` starts false and nothing has been navigated |
| Layout.DashboardLayout.MountEffect | src/app/dashboard/layout.tsx:171-173 | the mount effect sets `isClient` |
| Layout.DashboardLayout.RedirectEffect | src/app/dashboard/layout.tsx:175-179 | a navigation to '/login' is added exactly when `isClient && !isUserLoading && !user` |
| InterviewsPage.ParseDay | src/app/dashboard/interviews/page.tsx:35 | a string gives a day exactly when it is 'YYYY-MM-DD' with month 1..12 and day 1..31, and the day is year * 10000 + month * 100 + day of its digits |
| InterviewsPage.DayKeyOrder | src/app/dashboard/interviews/page.tsx:35-37 | day keys order dates by year, then month, then day |
| InterviewsPage.ParseDayOrder | src/app/dashboard/interviews/page.tsx:35-37 | of two dates that parse, the first has the smaller day iff it comes first by year, then month, then day, and equal days iff year, month and day agree |
| InterviewsPage.StoreDatesParse | src/lib/data.ts:29-41 | every stored interview's date is a well-formed day |
| InterviewsPage.UpcomingInterviews | src/app/dashboard/interviews/page.tsx:28-38 | the list is sorted by day and is a permutation of the filtered interviews: nothing added, dropped or duplicated |
| InterviewsPage.UpcomingMembers | src/app/dashboard/interviews/page.tsx:32-36 | every listed interview is scheduled and dated today or later, and an interview is listed iff it is in the input and passes |
| InterviewsPage.IsUpcoming | src/app/dashboard/interviews/page.tsx:32-36 | the filter's test; `UpcomingMembers` states which interviews pass it |
| InterviewsPage.UpcomingLength | src/app/dashboard/interviews/page.tsx:32-37 | the list is as long as the filter's result |
| InterviewsPage.UpcomingSameDayInStoreOrder | src/app/dashboard/interviews/page.tsx:37 | interviews on the same day appear in the store's order |
| InterviewsPage.RowsOf | src/app/dashboard/interviews/page.tsx:84-101 | one row per joined interview, in order, showing the candidate's name and the interview's type, date and time |
| InterviewsPage.InterviewsPanel | src/app/dashboard/interviews/page.tsx:77-108 | 'No upcoming interviews.' is shown iff the list is empty; otherwise there is one row for each upcoming interview whose candidate is found, in list order, with that candidate's name and the interview's type, date and time |
| InterviewsPage.OrphansRenderNothing | src/app/dashboard/interviews/page.tsx:77-82 | a non-empty list whose candidates are all missing renders no rows and no empty message |
| DashboardPage.UpcomingInterviews | src/app/dashboard/page.tsx:39-41 | at most five interviews, all scheduled |
| DashboardPage.IsScheduled | src/app/dashboard/page.tsx:40 | the filter's test; `UpcomingDropsOnlyWhenFull` states which interviews pass into the list |
| DashboardPage.IsHired | src/app/dashboard/page.tsx:45 | the hired test; `CountsMeaning` states the count it gives |
| DashboardPage.UpcomingIsPrefix | src/app/dashboard/page.tsx:39-41 | the list is the start, in order, of the scheduled subsequence, of length min(5, its length) |
| DashboardPage.UpcomingDropsOnlyWhenFull | src/app/dashboard/page.tsx:39-41 | with fewer than five listed, every scheduled interview is listed |
| DashboardPage.Counts | src/app/dashboard/page.tsx:44-48 | the total is the number of candidates, the hired count is at most the total, and the today count is at most the number of interviews |
| DashboardPage.CountsMeaning | src/app/dashboard/page.tsx:44-48 | the today count is the number of interviews whose date string equals today's, and the hired count the number of hired candidates |
| DashboardPage.RowsOf | src/app/dashboard/page.tsx:168-190 | each row shows its candidate's name and role, the interview's date and time, and links to that candidate |
| DashboardPage.UpcomingTable | src/app/dashboard/page.tsx:161-166 | one row for each of the first five scheduled interviews whose candidate is found, in order, with that candidate's name, role and id and the interview's date and time |
| Data.InterviewsOf | src/lib/data.ts:57 | every interview in a candidate's list has that candidate's id |
| Data.CandidateInterviews | src/lib/data.ts:49-138 | a store candidate's interviews all carry its id |
| Data.InterviewsOfMembers | src/lib/data.ts:57 | a candidate's list holds exactly the store's interviews with its id |
| Data.InterviewsOfKeepsOrder | src/lib/data.ts:57 | the list keeps the store's order |
| Data.CandidateIdsUnique | src/lib/data.ts:49-138 | no two candidates share an id |
| Data.DocumentNamesDistinct | src/lib/data.ts:43-134 | no document name repeats within a candidate |
| Data.EveryInterviewHasCandidate | src/lib/data.ts:29-41 | every interview names one of the store's candidates |
| Data.FilterPartitions | src/lib/data.ts:29-138 | with unique ids, an interview is in the list of its own candidate and no other |
| Data.InterviewsPartitioned | src/lib/data.ts:29-138 | every interview of the store is in exactly one candidate's list |
| Data.CandidateIds | src/lib/data.ts:49-138 | the store's candidate ids in order |
| Data.SharedLists | src/lib/data.ts:43-149 | `allInterviews` is the interview list, and can-3's documents are the module-level list |
| Data.FindCandidate | src/app/dashboard/interviews/page.tsx:79-81 | the candidate found has the id and is in the list; nothing is found iff no candidate has it |
| Data.Joined | src/app/dashboard/interviews/page.tsx:78-82 | the rows' interviews are exactly those of the list whose candidate is found, in list order, each paired with the candidate `find` returns for it |
| Data.JoinedAllFound | src/app/dashboard/interviews/page.tsx:78-82 | when every candidate is found there is one row per interview, in order |
| Data.JoinedNoneFound | src/app/dashboard/page.tsx:161-166 | when no candidate is found nothing is rendered |
| QuestionnaireForm.ToastFor | src/components/questionnaire-form.tsx:52-60 | a destructive 'Error' toast carrying the message is shown iff the message is neither empty nor 'success' |
| QuestionnaireForm.InitialQuiet | src/components/questionnaire-form.tsx:48-60 | the initial state shows no toast and the placeholder |
| QuestionnaireForm.PanelShown | src/components/questionnaire-form.tsx:79-97 | the panel shows when the questionnaire is non-empty; `ToastOrPanel` states when that happens |
| QuestionnaireForm.ToastOrPanel | src/components/questionnaire-form.tsx:52-97 | for every reply of the action exactly one of an 'Error: ' toast or the result panel appears, and the panel iff the generator returned non-empty text for a valid description |
| QuestionnaireForm.SubmitButtonFor | src/components/questionnaire-form.tsx:15-29 | the submit button is disabled, and reads 'Generating...', exactly while pending |
| QuestionnaireForm.Copy | src/components/questionnaire-form.tsx:34-38 | copying writes the text to the clipboard, sets `copied` and schedules one reset |
| QuestionnaireForm.ResetFires | src/components/questionnaire-form.tsx:37 | a scheduled reset clears `copied` and leaves the clipboard alone |
| QuestionnaireForm.CopyThenReset | src/components/questionnaire-form.tsx:34-38 | a copy and its reset leave `copied` false and the timers as before |
| QuestionnaireForm.EarlyReset | src/components/questionnaire-form.tsx:34-38 | after two quick copies the first reset clears `copied` while the second is still scheduled |
| QuestionnaireForm.CopyButton.constructor | src/components/questionnaire-form.tsx:31-32 | `copied` starts false with nothing written or scheduled |
| QuestionnaireForm.CopyButton.OnCopy | src/components/questionnaire-form.tsx:31-38 | `onCopy` updates the fields as `Copy` of the `textToCopy` prop current at the click |
| QuestionnaireForm.CopyButton.ResetTimerFires | src/components/questionnaire-form.tsx:37 | the timer updates the fields as `ResetFires` |
| ApplicationForm.ValidateApplication | src/components/candidate-application-form.tsx:20-24 | no errors iff the values satisfy the schema; the name, email and role messages are reported iff their checks fail |
| ApplicationForm.DefaultsInvalid | src/components/candidate-application-form.tsx:33-37 | the empty defaults fail the name and role checks |
| ApplicationForm.Submit | src/components/candidate-application-form.tsx:40-44 | a submission sets `isSubmitting`, logs the values and schedules the timer |
| ApplicationForm.Elapse | src/components/candidate-application-form.tsx:45-52 | the timer clears `isSubmitting`, shows the toast and resets the three fields to '' |
| ApplicationForm.SubmitDisabled | src/components/candidate-application-form.tsx:97 | the submit button is disabled while submitting; `ReachableStates` states that at most one submission is in flight |
| ApplicationForm.Step | src/components/candidate-application-form.tsx:40-97 | a click submits only when enabled and the schema reports no error; `StepKeepsInv` and `SubmitCycle` state its properties |
| ApplicationForm.StepKeepsInv | src/components/candidate-application-form.tsx:40-53 | each event keeps `isSubmitting` equal to having one timer scheduled, and every logged submission answered by a toast or by the scheduled timer |
| ApplicationForm.RunKeepsInv | src/components/candidate-application-form.tsx:40-53 | the same holds after any sequence of events |
| ApplicationForm.ReachableStates | src/components/candidate-application-form.tsx:30-53 | from the first render at most one submission is in flight and each gets its toast |
| ApplicationForm.SubmitCycle | src/components/candidate-application-form.tsx:40-53 | a valid submission and its timer leave the flag false, the fields empty, one toast and one log entry more |
| ApplicationForm.Form.constructor | src/components/candidate-application-form.tsx:30-38 | the form starts not submitting with empty fields |
| ApplicationForm.Form.OnSubmit | src/components/candidate-application-form.tsx:40-44 | `onSubmit` updates the fields as `Submit` |
| ApplicationForm.Form.TimerFires | src/components/candidate-application-form.tsx:45-52 | the timer updates the fields as `Elapse` |
| Profile.ValidateProfile | src/app/dashboard/profile/page.tsx:27-30 | no errors iff the values satisfy the schema; the name and email messages are reported iff their checks fail |
| Profile.DefaultsValid | src/app/dashboard/profile/page.tsx:40-43 | 'Jane Doe' and 'recruiter@hirelogic.ai' pass the schema |
| Profile.Submit | src/app/dashboard/profile/page.tsx:46-52 | the values are unchanged; the submission is logged and one toast is shown |
| Profile.HandleSubmit | src/app/dashboard/profile/page.tsx:76 | `handleSubmit` reports the schema's errors and runs `onSubmit` exactly when there are none, so invalid values are neither logged nor toasted |
| Profile.DefaultsSubmit | src/app/dashboard/profile/page.tsx:40-76 | submitting the untouched form logs the defaults and shows the toast |
| Seqs.SortBy | src/app/dashboard/interviews/page.tsx:37 | the sort's result is ordered by the key and is a permutation of its input |
| Seqs.SortByStable | src/app/dashboard/interviews/page.tsx:37 | the sort is stable: the elements sharing any key keep their input order |
| Seqs.FilterCount | src/app/dashboard/interviews/page.tsx:33-36 | the filter keeps each passing element exactly as often as it occurs, and nothing else |
| Seqs.Filter | src/app/dashboard/interviews/page.tsx:32-36 | `filter` keeps only passing elements and never grows the list; `FilterCount`, `FilterMember` and `FilterAppend` state the rest |
| Seqs.FilterMember | src/app/dashboard/interviews/page.tsx:32-36 | an element is in the filter iff it is in the input and passes |
| Seqs.FilterAppend | src/app/dashboard/interviews/page.tsx:32-36 | the filter keeps the input's order |
| Seqs.Take | src/app/dashboard/page.tsx:41 | `slice(0, n)` keeps the first min(n, length) elements |
| Seqs.Find | src/app/dashboard/layout.tsx:186 | `find` gives the first element that passes, or nothing iff none passes |
| Text.Split | src/app/signup/page.tsx:82 | `split` gives at least one piece, none holding the separator, and a single piece iff the string has no separator |
| Text.JoinSplit | src/app/signup/page.tsx:82-88 | joining the pieces of a split with the separator gives the string back |
| Validation.Check | src/app/signup/page.tsx:36-48 | a schema check reports nothing iff it holds, and otherwise exactly its message on its field |
| Validation.ValidEmail | src/app/signup/page.tsx:39 | zod 3's email pattern: local part, '@', dot-separated labels, a letter-only top-level domain; `EmailFromParts` states a family of addresses it accepts |
| Validation.EmailFromParts | src/app/dashboard/profile/page.tsx:29 | an address made of a local part, '@', one label, '.' and a top-level domain matches the email pattern |

## Left out

- The language-model flows are not part of this model. The generators are inputs: text or a throw for
  the questionnaire, a list or a throw for the interview questions.
- Firebase authentication and Firestore, `router.push`, `navigator.clipboard` and toast rendering are
  foreign calls. They appear only as logged effects. The outcomes of the awaited authentication calls
  are parameters.
- Logging: the submitted values logged by the profile and application forms and the sign-up page's
  error log are effects. The `console.error` calls in the server actions' `catch` blocks
  (src/app/actions.ts:39, 62) are dropped, because they change no reply.
- Timer durations (500, 1500, 2000 ms) are not modelled. Each callback is an event that may fire at
  any later point, so timers can fire in any order.
- Whether a parent keeps a dialog open is not modelled. A button acts whenever its own screen shows
  it.
- All rendering is left out: JSX layout, styling, icons, avatars, stage badges, `pipelineStats`, the
  landing and login pages and the user menu. This includes the locale formatting of dates
  (`toLocaleDateString`). `InterviewsPage.Row` keeps the stored 'YYYY-MM-DD' text.
- InterviewsPage.ParseDay: dates are ordered day keys, and today is a day key passed in. Timezones and
  the local-midnight versus UTC comparison are dropped. Day-of-month overflow such as '2024-02-30' is
  not rejected; the store's dates are all real days. JavaScript's `Date` also accepts many other
  formats, such as full ISO timestamps and 'Aug 10, 2024'; the model reads only 'YYYY-MM-DD' and
  treats any other string as no date, which the store never holds.
- DashboardPage.Counts: today's ISO date is a parameter, not read from a clock.
- Validation.ValidEmail: zod's `.email()` is written out as zod 3's email pattern, not taken from the
  library. The exact zod version in use is not pinned.
- String lengths count characters, not UTF-16 code units.
- Actions.ParseJobDescription: a form entry is either missing or text. A file upload under that name
  is not modelled.
- InterviewDialog.Progress: it is a real number, not a floating-point value.
- Data.CandidateInterviews: a candidate's `interviews` field is computed from the store, not stored in
  the record.
- Data.SharedLists: can-3's documents aliasing the module-level array is stated as equality of values,
  because values cannot alias.
- Signup.SignupPage: a submission is two methods, split at its first await: the click through
  `handleSubmit`, then the end of the awaited calls. Whether the Firestore handle exists is a
  parameter.

## Findings

| source | as written | input that shows it | evidently intended | confidence | as-written member | corrected member |
|---|---|---|---|---|---|---|
| src/app/dashboard/layout.tsx:182-192 | `getPageTitle` takes the first navigation item whose href starts the path. '/dashboard' is first and starts every dashboard path, so every page except the profile is titled 'Dashboard', and the 'Candidate Details' branch can never run | pathname '/dashboard/interviews': the sidebar highlights 'Interviews' but the title is 'Dashboard' | the title names the highlighted section, and a single candidate's page is titled 'Candidate Details' | medium, not executed | Layout.InterviewsTitleDisagrees | Layout.CorrectedTitleFollowsSidebar |
