# PesaMirror core in Dafny

PesaMirror drives M-Pesa USSD menus on an Android phone without anyone touching the
screen. A transaction reaches the phone in one of two ways: the web client composes an SMS,
or the owner keys one in by hand. This project models the parts of that path that carry
logic, and proves properties of them:

- **SMS trigger** (`SmsTrigger`). The receiver:
  - authorises the sender against the normalised allow-list and the stored PIN;
  - parses the pipe-delimited body (`SM`, `BG`, `PB`, `WA`, tag case ignored) into a request;
  - writes the fresh session record, rolling `pending` back when the dial cannot be started.
- **USSD automation service**:
  - `Screen`: the screen matcher, pure functions over one snapshot of the accessibility node tree (dialog root, input target, keyword target, label click with ancestor walk-up);
  - `Engine`: the event gate, the step executor over the four menu chains and the shared confirm step, the dead-man and close-after-result timers, and the restart check;
  - `HandlerQueue`: the main-thread handler as a queue of posted runnables;
  - `Automation`: properties across these callbacks.
- **Web client**:
  - `SmsBody`: the message builder `buildSmsBody`;
  - `SmsForm`: the per-mode required-field validator and the submit handler;
  - `Keypad`: the numeric keypad drawer's draft state machine, display text and contact-number normalisation.
- **The hand-off** (`Handoff`): what the web client submits is what the phone's receiver parses back into a request.

Shared pieces:
- `Text`: trimming, blank tests, ASCII case folding, split and join.
- `Session`: the persisted session record and its step names.
- `Optional`: nullable values.

Every callback of the service is a pure function. It maps the persisted record (plus, where
the service looks at the screen, the windows the platform offers) to a new record and the
effects it issues, in order:
- set-text and click actions accepted on the dialog,
- the global BACK action,
- cancellations and posts of the handler's runnables.

Each node carries two platform oracles: whether `ACTION_SET_TEXT` and `ACTION_CLICK` succeed
on it. Timer delays are tokens; `Engine.Millis` gives their durations.

## Model

| member | source | states |
|---|---|---|
| `Text.Trim` | web/src/lib/sms.ts:34-40 | `trim()`: the result is blank-free at both ends, is empty exactly when the input is blank, and leaves an unpadded string unchanged |
| `Text.TrimIsInfix` | web/src/lib/sms.ts:34-40 | `trim()` removes only end whitespace: its result sits in the input at some offset, and every character outside it is whitespace |
| `Text.SplitJoin` | app/src/main/java/com/david/amunga/pesamirror/SmsTriggerReceiver.kt:45 | splitting on `d` the join of `d`-free parts gives the parts back, empty parts included |
| `Text.JoinSplit` | app/src/main/java/com/david/amunga/pesamirror/SmsTriggerReceiver.kt:45 | joining the segments of a split restores the string: `split` loses nothing |
| `Session.StepNameRoundTrip` | app/src/main/java/com/david/amunga/pesamirror/UssdAccessibilityService.kt:381-404 | every step survives the round trip through its stored `state` string, so the 24 constants and `""` are pairwise distinct |
| `Screen.WalkLocates` | app/src/main/java/com/david/amunga/pesamirror/UssdAccessibilityService.kt:337-345 | every entry of the pre-order walk, the order of every recursive search, names a node reachable at its own path |
| `Screen.ContainsAnyTextWalk` | app/src/main/java/com/david/amunga/pesamirror/UssdAccessibilityService.kt:212-220 | `rootContainsAnyText` holds exactly when some node of the walk has trimmed text or description containing one of the phrases, case-sensitive |
| `Screen.FirstOfFilter` | app/src/main/java/com/david/amunga/pesamirror/UssdAccessibilityService.kt:281-283 | the first of the collected editables is the first editable in document order; the list is empty exactly when there is none |
| `Screen.FirstOfFiltered` | app/src/main/java/com/david/amunga/pesamirror/UssdAccessibilityService.kt:315-335 | searching a collected list for a second test finds what one pass over the walk finds when it asks for both tests |
| `Screen.LastEligible` | app/src/main/java/com/david/amunga/pesamirror/UssdAccessibilityService.kt:200-207 | the loop returns the last eligible window root, keeps the previous match when no later window qualifies, and only ever returns eligible roots |
| `Screen.DialogRoot` | app/src/main/java/com/david/amunga/pesamirror/UssdAccessibilityService.kt:185-210 | the root is never this app's nor package-less and always shows a USSD marker; an eligible active window wins, otherwise the last eligible window, otherwise none |
| `Screen.InputTarget` | app/src/main/java/com/david/amunga/pesamirror/UssdAccessibilityService.kt:279-290 | the four tiers in order: the first input-focused node when one exists, else the first editable, else the first focusable input, else the first focusable "Edit" class, each first in document order; none exactly when no node qualifies |
| `Screen.SetTextOnTarget` | app/src/main/java/com/david/amunga/pesamirror/UssdAccessibilityService.kt:275-292 | the text lands on the chosen target exactly when that target accepts it; a refusal is final, with no second candidate |
| `Screen.SetTextOnHinted` | app/src/main/java/com/david/amunga/pesamirror/UssdAccessibilityService.kt:315-335 | the write lands on the first node in document order that is editable, has a hint or description matching a keyword (case ignored) and accepts the text; it fails only when every matching editable refuses |
| `Screen.NodesWithText` | app/src/main/java/com/david/amunga/pesamirror/UssdAccessibilityService.kt:243-260 | the collected nodes are exactly the nodes of the tree matching the label, listed as a subsequence of the walk, so in document order |
| `Screen.ClickUp` | app/src/main/java/com/david/amunga/pesamirror/UssdAccessibilityService.kt:233-238 | the click lands on the node or its nearest accepting ancestor, with nothing in between accepting; none exactly when no node on the path accepts |
| `Screen.ClickAmong` | app/src/main/java/com/david/amunga/pesamirror/UssdAccessibilityService.kt:232-240 | the result is the walk-up of the first collected node whose walk-up succeeds, every earlier node's walk-up failing; none exactly when every walk-up fails |
| `Screen.ClickAmongFilter` | app/src/main/java/com/david/amunga/pesamirror/UssdAccessibilityService.kt:229-260 | collecting the matching nodes and then trying their walk-ups in turn gives the same click as one pass over the walk |
| `Screen.ClickFirstMatch` | app/src/main/java/com/david/amunga/pesamirror/UssdAccessibilityService.kt:229-260 | the one-pass reference search: the walk-up of the first entry satisfying the test whose walk-up succeeds, all earlier matching entries failing; none exactly when every matching entry fails |
| `Screen.ClickNodeWithTextIsFirstMatch` | app/src/main/java/com/david/amunga/pesamirror/UssdAccessibilityService.kt:229-260 | `clickNodeWithText` equals the one-pass reference search over the walk with the label test and the walk-up |
| `Screen.ClickNodeWithText` | app/src/main/java/com/david/amunga/pesamirror/UssdAccessibilityService.kt:229-241 | what is clicked accepts the click |
| `Screen.ClickNodeWithTextLands` | app/src/main/java/com/david/amunga/pesamirror/UssdAccessibilityService.kt:229-241 | what is clicked sits at or above a node matching the label |
| `Screen.ClickNodeWithTextFirst` | app/src/main/java/com/david/amunga/pesamirror/UssdAccessibilityService.kt:229-260 | the click is the walk-up of the first matching node in document order whose walk-up succeeds; every earlier matching node's walk-up fails |
| `Screen.ClickNodeWithTextNone` | app/src/main/java/com/david/amunga/pesamirror/UssdAccessibilityService.kt:229-260 | nothing is clicked exactly when no matching node has a clickable node on its way up |
| `Screen.ClickLabels` | app/src/main/java/com/david/amunga/pesamirror/UssdAccessibilityService.kt:356-358 | labels are tried in list order: the result is the click of the first label whose search succeeds, every earlier label failing; none exactly when every label fails |
| `Screen.ClickLabelsFirst` | app/src/main/java/com/david/amunga/pesamirror/UssdAccessibilityService.kt:356-358 | with `clickNodeWithText` as the search, the click is that of the first label for which `clickNodeWithText` finds something |
| `Screen.ClickSendOrOk` | app/src/main/java/com/david/amunga/pesamirror/UssdAccessibilityService.kt:354-359 | what is clicked accepts the click, and "Send" wins whenever it finds a clickable node |
| `Screen.ClickSendOrOkFirst` | app/src/main/java/com/david/amunga/pesamirror/UssdAccessibilityService.kt:354-359 | the click is that of the first of "Send", "OK", "Submit", "Confirm", "SEND", "Ok" that finds something, all earlier labels finding nothing |
| `Screen.ClickSendOrOkNone` | app/src/main/java/com/david/amunga/pesamirror/UssdAccessibilityService.kt:354-359 | nothing is clicked exactly when none of the six labels finds anything |
| `Screen.ClickSendOrOkTarget` | app/src/main/java/com/david/amunga/pesamirror/UssdAccessibilityService.kt:355-357 | what `clickSendOrOk` clicks sits at or above a node whose trimmed text or description equals one of the six labels exactly |
| `Screen.ButtonLabelsMatchExactly` | app/src/main/java/com/david/amunga/pesamirror/UssdAccessibilityService.kt:250-255 | none of the six button labels gets the `"1"` prefix rule: each needs exact equality of trimmed text or description |
| `Screen.MenuDigitPrefix` | app/src/main/java/com/david/amunga/pesamirror/UssdAccessibilityService.kt:250-253 | "1. Send Money" answers to the label "1", while "12. Other" does not |
| `Engine.OnEvent` | app/src/main/java/com/david/amunga/pesamirror/UssdAccessibilityService.kt:27-63 | an irrelevant event, no pending session, `DONE`, or no dialog gives no-op; a first event sets the mode's first step, re-arms the dead-man timer and posts the step after the initial delay; later events supersede queued steps with an immediate one; the gate never touches the dialog |
| `Engine.TypeInInputAndSend` | app/src/main/java/com/david/amunga/pesamirror/UssdAccessibilityService.kt:223-227 | actions are issued exactly when the input target accepted the text: the write first, then the send click if one was found |
| `Engine.TypeAndSend` | app/src/main/java/com/david/amunga/pesamirror/UssdAccessibilityService.kt:90-95 | the digit step moves to its successor and schedules the next step exactly when the digit was accepted, and is a no-op otherwise |
| `Engine.FieldTarget` | app/src/main/java/com/david/amunga/pesamirror/UssdAccessibilityService.kt:99 | for a field, plain target resolution comes first and the keyword match is used only when it fails |
| `Engine.TypeField` | app/src/main/java/com/david/amunga/pesamirror/UssdAccessibilityService.kt:97-104 | a blank value or no accepting target gives no-op; otherwise the write, the click, the successor step and one scheduled step |
| `Engine.PinTarget` | app/src/main/java/com/david/amunga/pesamirror/UssdAccessibilityService.kt:110-111 | for the PIN, the keyword match (`pin`, `mpesa`, `enter`) comes first and plain resolution only when it finds nothing |
| `Engine.PinEntered` | app/src/main/java/com/david/amunga/pesamirror/UssdAccessibilityService.kt:112-122 | with confirmation, the state becomes `CONFIRM_1` with the counter reset and the step is posted after the confirm delay; without it, the record is untouched and the close timer is cancelled and re-armed |
| `Engine.FinishPin` | app/src/main/java/com/david/amunga/pesamirror/UssdAccessibilityService.kt:106-123 | no PIN target gives no-op; otherwise the PIN entry outcome |
| `Engine.ConfirmStep` | app/src/main/java/com/david/amunga/pesamirror/UssdAccessibilityService.kt:156-172 | a visible PIN prompt only reschedules; an accepted "1" re-arms the close timer; a refusal adds one retry and reschedules below 8, and does nothing at 8 |
| `Engine.TableFollowsChains` | app/src/main/java/com/david/amunga/pesamirror/UssdAccessibilityService.kt:125-154 | every table entry's successor is the next step of its mode's chain as the comments give it, and every PIN step is followed by `CONFIRM_1` |
| `Engine.ExecuteRecord` | app/src/main/java/com/david/amunga/pesamirror/UssdAccessibilityService.kt:125-176 | one step changes only the state and the confirm counter; the state moves only to its chain successor, and the counter only resets or grows by one up to 8 |
| `Engine.ExecuteEffects` | app/src/main/java/com/david/amunga/pesamirror/UssdAccessibilityService.kt:85-181 | a step never presses BACK and never touches the dead-man timer |
| `Engine.ProcessNextStep` | app/src/main/java/com/david/amunga/pesamirror/UssdAccessibilityService.kt:85-177 | no pending session or no dialog gives no-op; otherwise one table step on the dialog root, with the record, chain and counter guarantees above |
| `Engine.TimeoutFires` | app/src/main/java/com/david/amunga/pesamirror/UssdAccessibilityService.kt:71-75 | sets `pending` false and `DONE`, cancels the close timer, and touches no dialog |
| `Engine.CloseFires` | app/src/main/java/com/david/amunga/pesamirror/UssdAccessibilityService.kt:78-83 | sets `pending` false and `DONE`, cancels the dead-man timer, and presses BACK exactly once |
| `Engine.OnServiceConnected` | app/src/main/java/com/david/amunga/pesamirror/UssdAccessibilityService.kt:363-378 | connecting issues exactly one effect: the recovery check, posted 60 000 ms later |
| `Engine.RecoveryFires` | app/src/main/java/com/david/amunga/pesamirror/UssdAccessibilityService.kt:370-377 | a session under way (pending, state neither empty nor `DONE`) gets one step evaluation, anything else nothing; the dead-man timer is never armed |
| `Automation.NextDiffers` | app/src/main/java/com/david/amunga/pesamirror/UssdAccessibilityService.kt:127-153 | no digit or field step names itself as its successor |
| `Automation.AdvanceOnlyAfterAcceptedWrite` | app/src/main/java/com/david/amunga/pesamirror/UssdAccessibilityService.kt:90-104 | a digit or field step changes state exactly when it issued actions; then the first action is a write on an accepting node and the last posts the next step |
| `Automation.BlankFieldIsNeverTyped` | app/src/main/java/com/david/amunga/pesamirror/UssdAccessibilityService.kt:98 | a blank stored value gives no action and no state change |
| `Automation.PinGoesToHintedField` | app/src/main/java/com/david/amunga/pesamirror/UssdAccessibilityService.kt:106-113 | the PIN is written to the keyword-matched editable whenever there is one, whatever has focus, and only otherwise to the usual input target |
| `Automation.PinWithoutConfirmRepeats` | app/src/main/java/com/david/amunga/pesamirror/UssdAccessibilityService.kt:118-121 | without confirmation an accepted PIN leaves the record unchanged and re-arms the close timer |
| `Automation.PinWithConfirmMovesOn` | app/src/main/java/com/david/amunga/pesamirror/UssdAccessibilityService.kt:115-117 | with confirmation an accepted PIN sets `CONFIRM_1` with counter 0 and never schedules the close timer |
| `Automation.ConfirmRefusalsCounted` | app/src/main/java/com/david/amunga/pesamirror/UssdAccessibilityService.kt:165-171 | a refused "1" keeps `CONFIRM_1`, counts one retry and reschedules exactly while under 8 |
| `Automation.ConfirmWaitsForPinPrompt` | app/src/main/java/com/david/amunga/pesamirror/UssdAccessibilityService.kt:157-161 | a visible PIN prompt gives no write and no count, only a reschedule |
| `Automation.EventsOutliveTheRetryLimit` | app/src/main/java/com/david/amunga/pesamirror/UssdAccessibilityService.kt:156-172 | at the retry limit a window event still queues an immediate step, and that step still writes "1" |
| `Automation.ConfirmStillEntersOne` | app/src/main/java/com/david/amunga/pesamirror/UssdAccessibilityService.kt:156-165 | the confirm step writes "1" first whenever the input target accepts it, whatever the retry counter |
| `Automation.RetryCounterBounded` | app/src/main/java/com/david/amunga/pesamirror/UssdAccessibilityService.kt:166-170 | the counter stays within 0..8 under events and steps |
| `Automation.FinishedSessionIsInert` | app/src/main/java/com/david/amunga/pesamirror/UssdAccessibilityService.kt:37-40 | after either timer fires, events, steps and the recovery check all do nothing |
| `Automation.ChainFieldsAreUsed` | app/src/main/java/com/david/amunga/pesamirror/UssdAccessibilityService.kt:129-153 | each field a chain types is one its mode uses |
| `Automation.StepKeepsFields` | app/src/main/java/com/david/amunga/pesamirror/UssdAccessibilityService.kt:85-177 | a step never changes a stored field value |
| `Automation.SmsSessionsFillEveryField` | app/src/main/java/com/david/amunga/pesamirror/SmsTriggerReceiver.kt:107-118 | a session started by SMS finds a non-blank stored value at every field step of its chain |
| `HandlerQueue.Remove` | app/src/main/java/com/david/amunga/pesamirror/UssdAccessibilityService.kt:54 | `removeCallbacks` drops every instance of the runnable and keeps everything else |
| `HandlerQueue.RepostLeavesOne` | app/src/main/java/com/david/amunga/pesamirror/UssdAccessibilityService.kt:61-62 | cancelling then posting a runnable leaves exactly one instance of it and leaves other runnables alone |
| `HandlerQueue.EventSupersedesSteps` | app/src/main/java/com/david/amunga/pesamirror/UssdAccessibilityService.kt:53-62 | after an acting event exactly one step evaluation is queued, and after a first event exactly one dead-man timer |
| `HandlerQueue.ScheduledStepsStack` | app/src/main/java/com/david/amunga/pesamirror/UssdAccessibilityService.kt:179-181 | `scheduleNext` posts without cancelling, so each call adds one queued step |
| `HandlerQueue.StepLeavesTimeout` | app/src/main/java/com/david/amunga/pesamirror/UssdAccessibilityService.kt:85-177 | a step evaluation leaves the number of queued dead-man timers unchanged |
| `HandlerQueue.TimersCancelEachOther` | app/src/main/java/com/david/amunga/pesamirror/UssdAccessibilityService.kt:71-83 | whichever timer fires first removes every instance of the other |
| `HandlerQueue.RecoveryLeavesTimeout` | app/src/main/java/com/david/amunga/pesamirror/UssdAccessibilityService.kt:370-377 | the restart check leaves the dead-man timers as it found them |
| `HandlerQueue.ConnectPostsRecovery` | app/src/main/java/com/david/amunga/pesamirror/UssdAccessibilityService.kt:370-377 | connecting adds exactly one queued restart check and leaves the count of every other runnable unchanged |
| `SmsTrigger.KeepDialable` | app/src/main/java/com/david/amunga/pesamirror/SmsTriggerReceiver.kt:132 | the filter keeps only digits and '+' and never lengthens the string |
| `SmsTrigger.KeepDialableKeeps` | app/src/main/java/com/david/amunga/pesamirror/SmsTriggerReceiver.kt:132 | every digit and '+' of the input survives the filter, as often as it occurs |
| `SmsTrigger.KeepDialableFixed` | app/src/main/java/com/david/amunga/pesamirror/SmsTriggerReceiver.kt:132 | a string of digits and '+' only passes the filter unchanged |
| `SmsTrigger.KeepDialableAppend` | app/src/main/java/com/david/amunga/pesamirror/SmsTriggerReceiver.kt:132 | filtering a concatenation filters each part in turn, so the kept characters stay in order |
| `SmsTrigger.NormalizePhone` | app/src/main/java/com/david/amunga/pesamirror/SmsTriggerReceiver.kt:132 | the result holds only digits and '+', so never a delimiter or whitespace; the final `trim` changes nothing |
| `SmsTrigger.InternationalAndLocalAgree` | app/src/main/java/com/david/amunga/pesamirror/SmsTriggerReceiver.kt:132 | "+254x", "254x" and "0x" normalise to the same number |
| `SmsTrigger.RewriteOnlyAtStart` | app/src/main/java/com/david/amunga/pesamirror/SmsTriggerReceiver.kt:132 | the country code is rewritten only at the raw start: "(254)7" normalises to "2547", and normalising again gives "07" |
| `SmsTrigger.NonBlank` | app/src/main/java/com/david/amunga/pesamirror/SmsTriggerReceiver.kt:29 | keeps exactly the non-blank entries |
| `SmsTrigger.AllowList` | app/src/main/java/com/david/amunga/pesamirror/SmsTriggerReceiver.kt:26-31 | the allow-list holds exactly the non-blank normalised comma-separated entries |
| `SmsTrigger.Authorize` | app/src/main/java/com/david/amunga/pesamirror/SmsTriggerReceiver.kt:24-39 | authorised exactly when: trigger enabled, non-empty allow-list, non-blank trimmed PIN, and the normalised sender listed; the credentials carry those non-blank values |
| `SmsTrigger.TagOf` | app/src/main/java/com/david/amunga/pesamirror/SmsTriggerReceiver.kt:47-81 | each tag is recognised exactly when the segment equals it ignoring case |
| `SmsTrigger.Dispatch` | app/src/main/java/com/david/amunga/pesamirror/SmsTriggerReceiver.kt:46-91 | a request is produced only with its tag and enough segments, its fields read from their fixed positions, and every field non-blank |
| `SmsTrigger.ParseBody` | app/src/main/java/com/david/amunga/pesamirror/SmsTriggerReceiver.kt:41-91 | a parsed request always has every field of its mode non-blank |
| `SmsTrigger.UnknownTagIgnored` | app/src/main/java/com/david/amunga/pesamirror/SmsTriggerReceiver.kt:46-91 | a first segment that is none of the four tags in any case starts nothing |
| `SmsTrigger.ParseBodyMapping` | app/src/main/java/com/david/amunga/pesamirror/SmsTriggerReceiver.kt:45-91 | the complete mapping from trimmed segments to requests, both directions: `SM` with three or more segments or with exactly two (sender as phone), `BG`, `PB`, `WA`, and none for blanks, short bodies or other tags |
| `SmsTrigger.DispatchTrimmed` | app/src/main/java/com/david/amunga/pesamirror/SmsTriggerReceiver.kt:46-91 | on already-trimmed segments the dispatch reads each field as it stands, in both directions: the request exactly when tag, segment count and non-blank fields allow it |
| `SmsTrigger.CompleteUsedFields` | app/src/main/java/com/david/amunga/pesamirror/SmsTriggerReceiver.kt:58-85 | a request that passed the blank checks has a non-blank value in every field its mode uses |
| `SmsTrigger.StartSession` | app/src/main/java/com/david/amunga/pesamirror/SmsTriggerReceiver.kt:94-130 | writes `pending` (left true only when the dial started), the empty state, the mode, the PIN and the request's fields; every unused field is `""`, and the settings are untouched |
| `SmsTrigger.Receive` | app/src/main/java/com/david/amunga/pesamirror/SmsTriggerReceiver.kt:21-92 | an unauthorised sender or an unparsable body leaves the store unchanged |
| `SmsTrigger.StartedSessionRecord` | app/src/main/java/com/david/amunga/pesamirror/SmsTriggerReceiver.kt:107-129 | a started session has `pending` equal to the dial outcome, the empty state, the trimmed non-blank PIN, one of the four modes, non-blank used fields and empty unused ones |
| `SmsBody.ModeOf` | web/src/lib/sms.ts:42-55 | a type string selects an unlisted mode exactly when it is none of the five listed values |
| `SmsBody.ModeNameRoundTrip` | web/src/lib/sms.ts:6-12 | every type string survives the cast, and each listed mode is selected by its own listed value |
| `SmsBody.BuildSmsBody` | web/src/lib/sms.ts:22-56 | the message is its segments (tag, then the trimmed values in the mode's order) joined with the pipe delimiter; `SmsBody.BodySplitsIntoSegments` proves the phone's split gives them back |
| `SmsBody.Segments` | web/src/lib/sms.ts:42-55 | every message has at least two segments and starts with its mode's tag |
| `SmsBody.TemplateIsSegmentJoin` | web/src/lib/sms.ts:43-54 | each template string is its segments joined with the delimiter |
| `SmsBody.TrimmedPipeFree` | web/src/lib/sms.ts:34-40 | trimming never introduces the delimiter |
| `SmsBody.BodySplitsIntoSegments` | web/src/lib/sms.ts:42-55 | with delimiter-free values, splitting the message on the delimiter gives the tag and the trimmed values, in the template's order |
| `SmsBody.AmountIsSegment` | web/src/lib/sms.ts:43-54 | every message carries the trimmed amount as a segment |
| `SmsBody.PipeInAmountBreaksSegments` | web/src/lib/sms.ts:34-55 | an amount holding the delimiter breaks the round trip: the split message differs from the intended segments |
| `SmsForm.RequiredFields` | web/src/routes/index.tsx:34-93 | the fields tested for a mode are exactly its required fields, in the refinement's order |
| `SmsForm.Issues` | web/src/routes/index.tsx:34-93 | an issue names a tested field exactly when its value is blank, every issue carries the one message, and fields are reported in order |
| `SmsForm.Validate` | web/src/routes/index.tsx:21-93 | an issue names a field exactly when the type string requires it and its value is blank; one message for all; no field twice |
| `SmsForm.ValidIffRequiredFilled` | web/src/routes/index.tsx:34-93 | a form is valid exactly when every required field is non-blank |
| `SmsForm.OnSubmit` | web/src/routes/index.tsx:123-134 | a message is produced exactly when every required field is non-blank, and it is `buildSmsBody` of the type and the values |
| `SmsForm.BlankAmountAlwaysReported` | web/src/routes/index.tsx:35-41 | a blank amount is always reported, whatever the type, and nothing is submitted |
| `SmsForm.UnrequiredFieldsNeverReported` | web/src/routes/index.tsx:42-92 | a field the type string does not require is never reported |
| `SmsForm.PairedFieldsReportedIndependently` | web/src/routes/index.tsx:61-92 | Paybill's business and account, and Withdraw's agent and store, are each reported exactly when blank, independently |
| `SmsForm.DefaultFormReportsAmountThenPhone` | web/src/routes/index.tsx:104-113 | the form as first shown reports the amount, then the phone |
| `SmsForm.ValidSendMoneyHasPhoneSegment` | web/src/routes/index.tsx:123-134 | a valid Send Money form always yields the three segments `SM`, phone, amount |
| `Handoff.TemplateIsTrimmed` | app/src/main/java/com/david/amunga/pesamirror/SmsTriggerReceiver.kt:41 | a message without empty segments has nothing for the receiver's `trim` to remove |
| `Handoff.ReceiverReadsSegments` | app/src/main/java/com/david/amunga/pesamirror/SmsTriggerReceiver.kt:41-45 | with delimiter-free values and no empty segment, the receiver's trimmed segments are exactly the segments the web client built |
| `Handoff.TagsAreRead` | app/src/main/java/com/david/amunga/pesamirror/SmsTriggerReceiver.kt:46-91 | the receiver reads the tags `SM`, `BG`, `PB` and `WA` written by the client as Send Money, Till, Paybill and Withdraw, and Pochi's `PLB` as no tag |
| `Handoff.PochiNotDispatched` | web/src/lib/sms.ts:45-46 | a Pochi message never yields a request at the receiver |
| `Handoff.ParseBodyDispatches` | app/src/main/java/com/david/amunga/pesamirror/SmsTriggerReceiver.kt:41-45 | a body with two or more segments is not blank, so its segments are dispatched |
| `Handoff.SegmentsDispatched` | app/src/main/java/com/david/amunga/pesamirror/SmsTriggerReceiver.kt:46-91 | the receiver maps each mode's unpadded, gap-free segments to the intended request, with the sender as payee for two-segment `SM` and nothing for Pochi |
| `Handoff.ReceiverMapsSegments` | app/src/main/java/com/david/amunga/pesamirror/SmsTriggerReceiver.kt:41-91 | a body whose receiver segments are a mode's segments parses into the intended request |
| `Handoff.ValidFormSegmentsFilled` | web/src/routes/index.tsx:34-93 | a valid form's message has no empty segment |
| `Handoff.MessageReachesPhone` | web/src/lib/sms.ts:42-55 | the cross-device round trip: a message with delimiter-free values and no empty segment parses into the request carrying the trimmed values |
| `Handoff.SubmittedFormReachesPhone` | web/src/routes/index.tsx:123-134 | whatever the form submits with delimiter-free values starts, at the phone, the request carrying its trimmed values (none for Pochi) |
| `Keypad.DropLast` | web/src/components/NumericKeypadDrawer.tsx:107-109 | `slice(0, -1)`: an empty draft stays empty, otherwise exactly the last character goes |
| `Keypad.TapDigit` | web/src/components/NumericKeypadDrawer.tsx:103-105 | the digit goes at the end of the draft, whose earlier characters stay; value and drawer untouched; undone by backspace (`Keypad.BackspaceUndoesDigit`) and matched by the digit key (`Keypad.DigitKeyMatchesButton`) |
| `Keypad.TapBackspace` | web/src/components/NumericKeypadDrawer.tsx:107-109 | exactly the draft's last character goes, an empty draft stays empty; value and drawer untouched |
| `Keypad.TapClear` | web/src/components/NumericKeypadDrawer.tsx:111-113 | the draft becomes empty; value and drawer untouched |
| `Keypad.Confirm` | web/src/components/NumericKeypadDrawer.tsx:115-118 | the draft becomes the committed value and the drawer closes |
| `Keypad.Open` | web/src/components/NumericKeypadDrawer.tsx:43-45 | the drawer opens with the committed value loaded into the draft |
| `Keypad.SetValue` | web/src/components/NumericKeypadDrawer.tsx:43-45 | a new value from the parent is committed; an open drawer reloads its draft from it, a closed one keeps its draft |
| `Keypad.KeyDown` | web/src/components/NumericKeypadDrawer.tsx:48-64 | a closed drawer and any key other than a digit, Backspace or Enter change nothing; the value changes only on Enter, to the draft |
| `Keypad.DigitKeyMatchesButton` | web/src/components/NumericKeypadDrawer.tsx:51-52 | a physical digit key does what the keypad button for that digit does |
| `Keypad.EditingKeysMatchButtons` | web/src/components/NumericKeypadDrawer.tsx:53-59 | Backspace and Enter do what the backspace and confirm buttons do |
| `Keypad.BackspaceUndoesDigit` | web/src/components/NumericKeypadDrawer.tsx:103-109 | a digit followed by backspace restores the keypad |
| `Keypad.ClearEmptiesDraft` | web/src/components/NumericKeypadDrawer.tsx:111-113 | clear empties the draft and changes nothing else |
| `Keypad.OpenThenConfirmKeepsValue` | web/src/components/NumericKeypadDrawer.tsx:43-45 | opening loads the value into the draft, so confirming straight away keeps the value |
| `Keypad.DismissDiscardsDraft` | web/src/components/NumericKeypadDrawer.tsx:43-45 | a dismissed draft never reaches the value: reopening reloads it |
| `Keypad.KeypadEntersOnlyDigits` | web/src/components/NumericKeypadDrawer.tsx:48-118 | without picked contacts, any sequence of inputs keeps draft and value made of digits only |
| `Keypad.ClosedDrawerIgnoresKeys` | web/src/components/NumericKeypadDrawer.tsx:48-49 | with the drawer closed, any sequence of key presses changes nothing |
| `Keypad.ClosedDrawerOnlyOpens` | web/src/components/NumericKeypadDrawer.tsx:153-256 | with the drawer closed, every input except opening it and a picked contact changes nothing, since the buttons exist only in the open drawer |
| `Keypad.FormatDisplay` | web/src/components/NumericKeypadDrawer.tsx:120-122 | nothing for an empty value; the value itself without a (non-empty) prefix; otherwise prefix, one space, value |
| `Keypad.AmountDisplayHasTwoSpaces` | web/src/routes/index.tsx:273 | the amount field's prefix "KES " puts two spaces before the amount |
| `Keypad.StripSpaces` | web/src/components/NumericKeypadDrawer.tsx:90 | the result holds no whitespace, is never longer, and keeps every other character as often as it occurs |
| `Keypad.StripSpacesAppend` | web/src/components/NumericKeypadDrawer.tsx:90 | stripping a concatenation strips each part in turn, so the kept characters stay in order |
| `Keypad.StripSpacesFixed` | web/src/components/NumericKeypadDrawer.tsx:90 | a string without whitespace is left unchanged |
| `Keypad.NormalizeTel` | web/src/components/NumericKeypadDrawer.tsx:90 | no whitespace and never a leading "+254"; a leading "+254" after stripping becomes "0", and anything else is just stripped |
| `Keypad.NormalizeTelIdempotent` | web/src/components/NumericKeypadDrawer.tsx:90 | normalising a normalised number changes nothing |
| `Keypad.PickContact` | web/src/components/NumericKeypadDrawer.tsx:88-92 | a contact without a number changes nothing; otherwise its normalised number becomes the value |

## Behaviour worth knowing

Behaviour a reader of the code may not expect, as the model states it:

- **Restart recovery does not re-arm the dead-man timer.** The check runs 60 s after the service connects. It only evaluates one step and never re-arms the timer (`Engine.RecoveryFires`, `HandlerQueue.RecoveryLeavesTimeout`).
- **The confirm retry limit only stops self-rescheduling.** A later window event still queues an evaluation, and that evaluation still enters "1" (`Automation.EventsOutliveTheRetryLimit`).
- **`typeField` resolves the plain input target first** and uses the keyword match only when that fails. The PIN step does the opposite (`Engine.FieldTarget`, `Engine.PinTarget`).
- **The PIN step without confirmation, and the confirm step after an accepted "1", never change the state.** Each later evaluation on the same screen repeats its write and re-arms the close timer.
- **Pochi messages never start a session.** The web client tags them `PLB`, which the receiver does not recognise (`Handoff.PochiNotDispatched`).
- **The amount field shows two spaces after "KES".** The prefix already ends in a space and `formatDisplay` adds another (`Keypad.AmountDisplayHasTwoSpaces`).
- **The test at line 44 of the service for the `DONE` state cannot succeed.** Line 40 has already returned on `DONE`; the model keeps the test anyway.
- **The validator's `!x.trim()` is written as "x is blank".** The two agree by the contract of `Text.Trim`.

## Left out

- Android plumbing. This covers service registration, `serviceInfo` flags, `Build.VERSION` branches, and real-time `Handler`/`Looper` scheduling; timers are effect tokens applied to a queue model.
- Platform-owned behaviour, as parameters:
  - `performAction` is a per-node accept oracle;
  - `findFocus(FOCUS_INPUT)` is the first input-focused node in document order;
  - `dialOk` says whether the `try` block of `startUssdFromSms` (SmsTriggerReceiver.kt lines 123-125, the `startActivity` call and the `Toast`) completed;
  - the `SecurePrefs` store is a record value.
- SMS PDU extraction and multipart joining (SmsTriggerReceiver.kt lines 36-43). The receiver takes the sender (or its absence) and the joined body as given strings.
- `Toast`, `Log`, `alert` and the global BACK action's platform effect, beyond recording that BACK is issued.
- `collectNodesWithTextContains`: it is never called.
- Kotlin-only whitespace. Kotlin's `isWhitespace` also counts the ASCII separators U+001C to U+001F, which JavaScript's `trim` keeps. One predicate, `Text.IsSpace`, serves both sides and treats them as text. So the Kotlin trims and blank tests (the allow-list, PIN and body handling in SmsTriggerReceiver.kt, the field and label checks in UssdAccessibilityService.kt) are not modelled for those characters. `Handoff.MessageReachesPhone` and `Handoff.SubmittedFormReachesPhone` do not cover values that end or start with them: the phone trims them off, and the web client sends them.
- Unicode. Non-ASCII whitespace is not whitespace here. Case folding is ASCII only, standing in for `lowercase(Locale.getDefault())`. Digits are ASCII, standing in for Kotlin's `isDigit`.
- `openSmsApp`: a browser navigation side effect that relies on `encodeURIComponent`.
- React rendering, animation, the vaul drawer and react-hook-form/zod wiring. Also the browser Contacts API: its availability check, `select` and its errors. `Keypad.PickContact` receives the first number as a string, `""` when there is none.
- Voice commands, the page shell, routing, the service worker and build configuration: UI and configuration outside the modelled logic.
- Concurrency: the main-thread handler runs callbacks one at a time, so a trace of callbacks is sequential.
- Stored step names outside the 24 the service writes. The step is a datatype, so a record whose `state` string names no known step cannot be represented. Two behaviours on such a record are not modelled: `processNextStep` doing nothing for it (UssdAccessibilityService.kt line 175), and `onAccessibilityEvent` still re-posting an immediate step for it while pending.
