/**
 * The USSD automation engine (UssdAccessibilityService): the event gate, the step
 * executor over the step table, the dead-man and close-after-result timers and the
 * restart check.
 *
 * Every callback is a pure function from the persisted record (and, where the
 * service looks at the screen, the platform's windows) to the new record plus the
 * effects it issues in order: accepted set-text and click actions on the chosen
 * dialog root, the global BACK action, and cancellations and posts of the handler's
 * runnables. Delays are tokens; `Millis` gives their durations.
 */
module Engine {
  import opened Optional
  import opened Text
  import opened Session
  import opened Screen

  /** The runnables the service posts to its handler. */
  datatype Task = StepTask | TimeoutTask | CloseTask | RecoveryTask

  datatype Delay = Immediately | InitialDelay | StepDelay | ConfirmDelay | ResultThenClose | TimeoutDelay | TimeoutCheckDelay

  /** Lines 407-413. */
  function Millis(d: Delay): nat {
    match d
    case Immediately => 0
    case InitialDelay => 1200
    case StepDelay => 650
    case ConfirmDelay => 1500
    case ResultThenClose => 2000
    case TimeoutDelay => 60000
    case TimeoutCheckDelay => 60000
  }

  datatype Effect =
    | SetText(path: Path, value: string)
    | Click(path: Path)
    | Back
    | Cancel(task: Task)
    | Post(task: Task, delay: Delay)

  datatype Outcome = Outcome(prefs: Prefs, effects: seq<Effect>)

  function NoOp(p: Prefs): Outcome {
    Outcome(p, [])
  }

  /** An effect on the dialog rather than on the handler queue. */
  predicate OnScreen(e: Effect) {
    e.SetText? || e.Click? || e.Back?
  }

  datatype EventKind = WindowStateChanged | WindowContentChanged | OtherEventKind

  datatype Event = Event(packageName: Option<string>, kind: EventKind)

  /** What the service sees of the platform at a callback: its own package and the window roots. */
  datatype Platform = Platform(ownPackage: string, activeRoot: Option<Node>, windows: Option<seq<Option<Node>>>)

  function Root(pf: Platform): Option<Node> {
    DialogRoot(pf.ownPackage, pf.activeRoot, pf.windows)
  }

  // ---------------------------------------------------------------- step table

  /** What a step does (the four kinds of line 125-175), with its successor. */
  datatype Action =
    | SendDigit(digit: string, next: Step)
    | FillField(field: Field, next: Step, keywords: seq<string>)
    | FinishWithPin
    | ConfirmOne
    | NoAction

  /** Lines 125-175: the action of every stored step. */
  function StepTable(s: Step): Action {
    match s
    case SM1 => SendDigit("1", SM2)
    case SM2 => SendDigit("1", SMPhone)
    case SMPhone => FillField(PhoneField, SMAmount, ["phone", "number"])
    case SMAmount => FillField(AmountField, SMPin, ["amount"])
    case SMPin => FinishWithPin
    case Till6 => SendDigit("6", Till2)
    case Till2 => SendDigit("2", TillNum)
    case TillNum => FillField(TillField, TillAmount, ["till", "goods"])
    case TillAmount => FillField(AmountField, TillPin, ["amount"])
    case TillPin => FinishWithPin
    case PB6 => SendDigit("6", PB1)
    case PB1 => SendDigit("1", PBBusiness)
    case PBBusiness => FillField(BusinessField, PBAccount, ["business", "paybill"])
    case PBAccount => FillField(AccountField, PBAmount, ["account"])
    case PBAmount => FillField(AmountField, PBPin, ["amount"])
    case PBPin => FinishWithPin
    case WD2 => SendDigit("2", WD1)
    case WD1 => SendDigit("1", WDAgent)
    case WDAgent => FillField(AgentField, WDStore, ["agent"])
    case WDStore => FillField(StoreField, WDAmount, ["store"])
    case WDAmount => FillField(AmountField, WDPin, ["amount"])
    case WDPin => FinishWithPin
    case Confirm1 => ConfirmOne
    case Done => NoAction
    case Idle => NoAction
  }

  /** Lines 46-52: the first step of each mode; any other mode starts like Send Money. */
  function FirstStep(m: Mode): Step {
    match m
    case SendMoney => SM1
    case Till => Till6
    case Paybill => PB6
    case Withdraw => WD2
    case OtherMode => SM1
  }

  /** The menu path of each mode as the source's comments list it: `1 -> 1 -> phone -> amount -> pin` and so on. */
  function Chain(m: Mode): seq<Step> {
    match m
    case SendMoney => [SM1, SM2, SMPhone, SMAmount, SMPin]
    case Till => [Till6, Till2, TillNum, TillAmount, TillPin]
    case Paybill => [PB6, PB1, PBBusiness, PBAccount, PBAmount, PBPin]
    case Withdraw => [WD2, WD1, WDAgent, WDStore, WDAmount, WDPin]
    case OtherMode => [SM1, SM2, SMPhone, SMAmount, SMPin]
  }

  /** The step after `s` in chain `c`, searched from position `i`; `Confirm1` after the chain's last step. */
  function NextIn(c: seq<Step>, s: Step, i: nat): Option<Step>
    decreases |c| - i
  {
    if i >= |c| then None
    else if c[i] == s then (if i + 1 == |c| then Some(Confirm1) else Some(c[i + 1]))
    else NextIn(c, s, i + 1)
  }

  /** The mode whose chain holds `s`; none for the empty, confirm and done steps. */
  function ChainOf(s: Step): Option<Mode> {
    match s
    case SM1 | SM2 | SMPhone | SMAmount | SMPin => Some(SendMoney)
    case Till6 | Till2 | TillNum | TillAmount | TillPin => Some(Till)
    case PB6 | PB1 | PBBusiness | PBAccount | PBAmount | PBPin => Some(Paybill)
    case WD2 | WD1 | WDAgent | WDStore | WDAmount | WDPin => Some(Withdraw)
    case _ => None
  }

  /** The step that may follow `s`: the next one in its chain, `Confirm1` after the last. */
  function Successor(s: Step): Option<Step> {
    match ChainOf(s)
    case None => None
    case Some(m) => NextIn(Chain(m), s, 0)
  }

  // ---------------------------------------------------------------- event gate

  /** Lines 19-25. */
  const PhonePackages: set<string> := {
    "com.android.phone", "com.google.android.dialer", "com.android.dialer",
    "com.samsung.android.dialer", "com.google.android.contacts"}

  /** Lines 30-31. */
  predicate AllowedPackage(pkg: string) {
    pkg in PhonePackages || Contains(pkg, "phone") || Contains(pkg, "dialer") ||
    Contains(pkg, "telecom") || pkg == "android" || StartsWith(pkg, "com.android.")
  }

  /** An event that passes lines 28-35. */
  predicate Relevant(ev: Option<Event>) {
    && ev.Some?
    && ev.value.packageName.Some?
    && AllowedPackage(ev.value.packageName.value)
    && ev.value.kind != OtherEventKind
  }

  /**
   * `onAccessibilityEvent`: a relevant event while a session is pending and a USSD
   * dialog is visible either starts the session (empty state: first step, dead-man
   * timer, delayed first evaluation) or supersedes any queued evaluation with an
   * immediate one. The gate itself never touches the dialog.
   */
  function OnEvent(pf: Platform, p: Prefs, ev: Option<Event>): (r: Outcome)
    ensures forall e :: e in r.effects ==> !OnScreen(e)
    ensures !Relevant(ev) || !p.pending || p.state == Done || Root(pf).None? ==> r == NoOp(p)
    ensures r.prefs == p || (p.state == Idle && r.prefs == p.(state := FirstStep(p.mode)))
    ensures (exists d :: Post(TimeoutTask, d) in r.effects) ==> p.state == Idle
    ensures Relevant(ev) && p.pending && p.state == Idle && Root(pf).Some? ==>
      r == Outcome(p.(state := FirstStep(p.mode)),
        [Cancel(TimeoutTask), Post(TimeoutTask, TimeoutDelay), Cancel(StepTask), Post(StepTask, InitialDelay)])
    ensures Relevant(ev) && p.pending && p.state != Idle && p.state != Done && Root(pf).Some? ==>
      r == Outcome(p, [Cancel(StepTask), Post(StepTask, Immediately)])
  {
    if ev.None? then NoOp(p)
    else if ev.value.packageName.None? then NoOp(p)
    else if !AllowedPackage(ev.value.packageName.value) then NoOp(p)
    else if ev.value.kind != WindowStateChanged && ev.value.kind != WindowContentChanged then NoOp(p)
    else if !p.pending then NoOp(p)
    else if p.state == Done then NoOp(p)
    else if Root(pf).None? then NoOp(p)
    else if p.state == Idle || p.state == Done then
      Outcome(p.(state := FirstStep(p.mode)),
        [Cancel(TimeoutTask), Post(TimeoutTask, TimeoutDelay), Cancel(StepTask), Post(StepTask, InitialDelay)])
    else Outcome(p, [Cancel(StepTask), Post(StepTask, Immediately)])
  }

  // ---------------------------------------------------------------- step executor

  /** Whether `e` cancels or posts the runnable `t`. */
  predicate Schedules(e: Effect, t: Task) {
    (e.Cancel? || e.Post?) && e.task == t
  }

  /** An effect a step evaluation may issue: never BACK, never the dead-man timer. */
  predicate StepEffect(e: Effect) {
    !e.Back? && !Schedules(e, TimeoutTask)
  }

  /**
   * The click of `clickSendOrOk`, whose result the service ignores. The step helpers
   * receive the resolved click target `click` (always `ClickSendOrOk(root)`, see `Execute`).
   */
  function ClickOf(click: Option<Path>): (r: seq<Effect>)
    ensures |r| <= 1
    ensures r == [] <==> click.None?
    ensures r != [] ==> r[0] == Click(click.value)
  {
    if click.Some? then [Click(click.value)] else []
  }

  /** A write accepted at `q` followed by the send/OK click: the actions of one entry. */
  function Entered(q: Path, text: string, click: Option<Path>): (r: seq<Effect>)
    ensures 1 <= |r| <= 2 && r[0] == SetText(q, text)
    ensures forall e :: e in r ==> StepEffect(e) && (e.SetText? || e.Click?)
  {
    [SetText(q, text)] + ClickOf(click)
  }

  /** `typeInInputAndSend`: the actions, or `None` when the input target refused the text. */
  function TypeInInputAndSend(root: Node, click: Option<Path>, text: string): (r: Option<seq<Effect>>)
    ensures r.Some? <==> SetTextOnTarget(root).Some?
    ensures r.Some? ==> r.value == Entered(SetTextOnTarget(root).value, text, click)
  {
    var t := SetTextOnTarget(root);
    if t.None? then None else Some(Entered(t.value, text, click))
  }

  /** `typeAndSend`: the session moves to `next` exactly when the input target accepted the digit. */
  function TypeAndSend(root: Node, click: Option<Path>, p: Prefs, digit: string, next: Step): (r: Outcome)
    ensures SetTextOnTarget(root).None? ==> r == NoOp(p)
    ensures SetTextOnTarget(root).Some? ==>
      r == Outcome(p.(state := next), Entered(SetTextOnTarget(root).value, digit, click) + [Post(StepTask, StepDelay)])
    ensures forall e :: e in r.effects ==> StepEffect(e)
  {
    match TypeInInputAndSend(root, click, digit)
    case None => NoOp(p)
    case Some(acts) => Outcome(p.(state := next), acts + [Post(StepTask, StepDelay)])
  }

  /** `typeField`: plain target resolution first (line 99), the keyword match only when it refuses. */
  function FieldTarget(root: Node, keywords: seq<string>): (r: Option<Path>)
    ensures r.Some? ==> AcceptsTextAt(root, r.value)
    ensures SetTextOnTarget(root).Some? ==> r == SetTextOnTarget(root)
    ensures r.None? <==> SetTextOnTarget(root).None? && SetTextOnHinted(root, keywords).None?
  {
    match SetTextOnTarget(root)
    case Some(q) => Some(q)
    case None => SetTextOnHinted(root, keywords)
  }

  /** `typeField`: a blank value is never typed; otherwise the session advances exactly when a write is accepted. */
  function TypeField(root: Node, click: Option<Path>, p: Prefs, value: string, next: Step, keywords: seq<string>): (r: Outcome)
    ensures IsBlank(value) || FieldTarget(root, keywords).None? ==> r == NoOp(p)
    ensures !IsBlank(value) && FieldTarget(root, keywords).Some? ==>
      r == Outcome(p.(state := next), Entered(FieldTarget(root, keywords).value, value, click) + [Post(StepTask, StepDelay)])
    ensures forall e :: e in r.effects ==> StepEffect(e)
  {
    if IsBlank(value) then NoOp(p)
    else match FieldTarget(root, keywords)
      case None => NoOp(p)
      case Some(q) => Outcome(p.(state := next), Entered(q, value, click) + [Post(StepTask, StepDelay)])
  }

  /** Line 110. */
  const PinKeywords: seq<string> := ["pin", "mpesa", "enter"]

  /** `finishPin`: the keyword match first (lines 110-111), plain target resolution only when it finds nothing. */
  function PinTarget(root: Node): (r: Option<Path>)
    ensures r.Some? ==> AcceptsTextAt(root, r.value)
    ensures SetTextOnHinted(root, PinKeywords).Some? ==> r == SetTextOnHinted(root, PinKeywords)
    ensures r.None? <==> SetTextOnHinted(root, PinKeywords).None? && SetTextOnTarget(root).None?
  {
    match SetTextOnHinted(root, PinKeywords)
    case Some(q) => Some(q)
    case None => SetTextOnTarget(root)
  }

  /**
   * `finishPin` once the PIN was accepted at `q`: either the confirm step follows with a
   * fresh counter, or (no confirm) the step stays and the close-after-result timer is re-armed.
   */
  function PinEntered(q: Path, click: Option<Path>, p: Prefs): (r: Outcome)
    ensures |r.effects| >= 2 && r.effects[0] == SetText(q, p.pin.GetOr(""))
    ensures p.confirmSend ==>
      && r.prefs == p.(state := Confirm1, confirmRetry := 0)
      && r.effects[|r.effects| - 1] == Post(StepTask, ConfirmDelay)
      && !(exists e :: e in r.effects && Schedules(e, CloseTask))
    ensures !p.confirmSend ==>
      && r.prefs == p
      && |r.effects| >= 3
      && r.effects[|r.effects| - 2] == Cancel(CloseTask)
      && r.effects[|r.effects| - 1] == Post(CloseTask, ResultThenClose)
    ensures forall e :: e in r.effects ==> StepEffect(e)
  {
    var acts := Entered(q, p.pin.GetOr(""), click);
    if p.confirmSend then
      Outcome(p.(state := Confirm1, confirmRetry := 0), acts + [Post(StepTask, ConfirmDelay)])
    else
      Outcome(p, acts + [Cancel(CloseTask), Post(CloseTask, ResultThenClose)])
  }

  /** `finishPin`. */
  function FinishPin(root: Node, click: Option<Path>, p: Prefs): (r: Outcome)
    ensures PinTarget(root).None? ==> r == NoOp(p)
    ensures PinTarget(root).Some? ==> r == PinEntered(PinTarget(root).value, click, p)
    ensures forall e :: e in r.effects ==> StepEffect(e)
  {
    match PinTarget(root)
    case None => NoOp(p)
    case Some(q) => PinEntered(q, click, p)
  }

  /** Line 158: the phrases of a PIN prompt still on screen. */
  const PinPrompts: seq<string> := ["Enter M-PESA PIN", "Enter M-Pesa PIN", "Enter PIN"]

  /** Line 406. */
  const MaxConfirmRetries: int := 8

  /**
   * Lines 156-172: the step is never left. A visible PIN prompt only reschedules; an
   * accepted "1" re-arms the close timer; a refusal reschedules while under the limit.
   */
  function ConfirmStep(root: Node, click: Option<Path>, p: Prefs): (r: Outcome)
    ensures ContainsAnyText(root, PinPrompts) ==> r == Outcome(p, [Post(StepTask, StepDelay)])
    ensures !ContainsAnyText(root, PinPrompts) && SetTextOnTarget(root).Some? ==>
      r == Outcome(p, Entered(SetTextOnTarget(root).value, "1", click) + [Cancel(CloseTask), Post(CloseTask, ResultThenClose)])
    ensures !ContainsAnyText(root, PinPrompts) && SetTextOnTarget(root).None? ==>
      r == (if p.confirmRetry < MaxConfirmRetries
            then Outcome(p.(confirmRetry := p.confirmRetry + 1), [Post(StepTask, StepDelay)])
            else NoOp(p))
    ensures forall e :: e in r.effects ==> StepEffect(e)
  {
    if ContainsAnyText(root, PinPrompts) then Outcome(p, [Post(StepTask, StepDelay)])
    else match TypeInInputAndSend(root, click, "1")
      case Some(acts) => Outcome(p, acts + [Cancel(CloseTask), Post(CloseTask, ResultThenClose)])
      case None =>
        if p.confirmRetry < MaxConfirmRetries then
          Outcome(p.(confirmRetry := p.confirmRetry + 1), [Post(StepTask, StepDelay)])
        else NoOp(p)
  }

  /** The SendMoney entries of the table follow the SendMoney chain. */
  lemma SendMoneyFollowsChain(s: Step)
    requires ChainOf(s) == Some(SendMoney)
    ensures StepTable(s).SendDigit? || StepTable(s).FillField? ==> Successor(s) == Some(StepTable(s).next)
    ensures StepTable(s).FinishWithPin? ==> Successor(s) == Some(Confirm1)
  {
    match s
    case SM1 => assert NextIn(Chain(SendMoney), SM1, 0) == Some(SM2);
    case SM2 => assert NextIn(Chain(SendMoney), SM2, 1) == Some(SMPhone);
    case SMPhone => assert NextIn(Chain(SendMoney), SMPhone, 2) == Some(SMAmount);
    case SMAmount => assert NextIn(Chain(SendMoney), SMAmount, 3) == Some(SMPin);
    case SMPin => assert NextIn(Chain(SendMoney), SMPin, 4) == Some(Confirm1);
  }

  /** The Till entries of the table follow the Till chain. */
  lemma TillFollowsChain(s: Step)
    requires ChainOf(s) == Some(Till)
    ensures StepTable(s).SendDigit? || StepTable(s).FillField? ==> Successor(s) == Some(StepTable(s).next)
    ensures StepTable(s).FinishWithPin? ==> Successor(s) == Some(Confirm1)
  {
    match s
    case Till6 => assert NextIn(Chain(Till), Till6, 0) == Some(Till2);
    case Till2 => assert NextIn(Chain(Till), Till2, 1) == Some(TillNum);
    case TillNum => assert NextIn(Chain(Till), TillNum, 2) == Some(TillAmount);
    case TillAmount => assert NextIn(Chain(Till), TillAmount, 3) == Some(TillPin);
    case TillPin => assert NextIn(Chain(Till), TillPin, 4) == Some(Confirm1);
  }

  /** The Paybill entries of the table follow the Paybill chain. */
  lemma PaybillFollowsChain(s: Step)
    requires ChainOf(s) == Some(Paybill)
    ensures StepTable(s).SendDigit? || StepTable(s).FillField? ==> Successor(s) == Some(StepTable(s).next)
    ensures StepTable(s).FinishWithPin? ==> Successor(s) == Some(Confirm1)
  {
    match s
    case PB6 => assert NextIn(Chain(Paybill), PB6, 0) == Some(PB1);
    case PB1 => assert NextIn(Chain(Paybill), PB1, 1) == Some(PBBusiness);
    case PBBusiness => assert NextIn(Chain(Paybill), PBBusiness, 2) == Some(PBAccount);
    case PBAccount => assert NextIn(Chain(Paybill), PBAccount, 3) == Some(PBAmount);
    case PBAmount => assert NextIn(Chain(Paybill), PBAmount, 4) == Some(PBPin);
    case PBPin => assert NextIn(Chain(Paybill), PBPin, 5) == Some(Confirm1);
  }

  /** The Withdraw entries of the table follow the Withdraw chain. */
  lemma WithdrawFollowsChain(s: Step)
    requires ChainOf(s) == Some(Withdraw)
    ensures StepTable(s).SendDigit? || StepTable(s).FillField? ==> Successor(s) == Some(StepTable(s).next)
    ensures StepTable(s).FinishWithPin? ==> Successor(s) == Some(Confirm1)
  {
    match s
    case WD2 => assert NextIn(Chain(Withdraw), WD2, 0) == Some(WD1);
    case WD1 => assert NextIn(Chain(Withdraw), WD1, 1) == Some(WDAgent);
    case WDAgent => assert NextIn(Chain(Withdraw), WDAgent, 2) == Some(WDStore);
    case WDStore => assert NextIn(Chain(Withdraw), WDStore, 3) == Some(WDAmount);
    case WDAmount => assert NextIn(Chain(Withdraw), WDAmount, 4) == Some(WDPin);
    case WDPin => assert NextIn(Chain(Withdraw), WDPin, 5) == Some(Confirm1);
  }

  /** The successor each table entry names is the step after it in its mode's chain. */
  lemma TableFollowsChains(s: Step)
    ensures StepTable(s).SendDigit? || StepTable(s).FillField? ==> Successor(s) == Some(StepTable(s).next)
    ensures StepTable(s).FinishWithPin? ==> Successor(s) == Some(Confirm1)
  {
    match ChainOf(s)
    case Some(SendMoney) => SendMoneyFollowsChain(s);
    case Some(Till) => TillFollowsChain(s);
    case Some(Paybill) => PaybillFollowsChain(s);
    case Some(Withdraw) => WithdrawFollowsChain(s);
    case _ =>
  }

  /** Runs the table entry of the stored step against the dialog root. */
  function Execute(root: Node, click: Option<Path>, p: Prefs): Outcome {
    match StepTable(p.state)
    case SendDigit(digit, next) => TypeAndSend(root, click, p, digit, next)
    case FillField(f, next, keywords) => TypeField(root, click, p, FieldValue(p, f), next, keywords)
    case FinishWithPin => FinishPin(root, click, p)
    case ConfirmOne => ConfirmStep(root, click, p)
    case NoAction => NoOp(p)
  }

  /**
   * One step changes only the step and the confirm counter, the step only along its
   * chain, the counter only by a reset or by one up to the limit.
   */
  lemma ExecuteRecord(root: Node, click: Option<Path>, p: Prefs)
    ensures var r := Execute(root, click, p);
      && r.prefs == p.(state := r.prefs.state, confirmRetry := r.prefs.confirmRetry)
      && (r.prefs.state == p.state || Successor(p.state) == Some(r.prefs.state))
      && (r.prefs.confirmRetry == p.confirmRetry || r.prefs.confirmRetry == 0 ||
          (r.prefs.confirmRetry == p.confirmRetry + 1 && r.prefs.confirmRetry <= MaxConfirmRetries))
  {
    TableFollowsChains(p.state);
    var r := Execute(root, click, p);
    match StepTable(p.state)
    case SendDigit(digit, next) =>
      assert r == TypeAndSend(root, click, p, digit, next);
      assert r.prefs == p || r.prefs == p.(state := next);
    case FillField(f, next, keywords) =>
      assert r == TypeField(root, click, p, FieldValue(p, f), next, keywords);
      assert r.prefs == p || r.prefs == p.(state := next);
    case FinishWithPin =>
      assert r == FinishPin(root, click, p);
      assert r.prefs == p || r.prefs == p.(state := Confirm1, confirmRetry := 0);
    case ConfirmOne =>
      assert r == ConfirmStep(root, click, p);
      assert r.prefs == p || (r.prefs == p.(confirmRetry := p.confirmRetry + 1) && p.confirmRetry < MaxConfirmRetries);
    case NoAction =>
  }

  /** A step never presses BACK and never touches the dead-man timer. */
  lemma ExecuteEffects(root: Node, click: Option<Path>, p: Prefs)
    ensures forall e :: e in Execute(root, click, p).effects ==> StepEffect(e)
  {
  }

  /**
   * `processNextStep`: with a pending session and a USSD dialog on screen, one step.
   * Only the step and the confirm counter of the record ever change, the step only
   * along its chain, the counter only by a reset or by one up to the limit; the step
   * never arms the dead-man timer and never presses BACK.
   */
  function ProcessNextStep(pf: Platform, p: Prefs): (r: Outcome)
    ensures !p.pending || Root(pf).None? ==> r == NoOp(p)
    ensures p.pending && Root(pf).Some? ==> r == Execute(Root(pf).value, ClickSendOrOk(Root(pf).value), p)
    ensures r.prefs == p.(state := r.prefs.state, confirmRetry := r.prefs.confirmRetry)
    ensures r.prefs.state == p.state || Successor(p.state) == Some(r.prefs.state)
    ensures r.prefs.confirmRetry == p.confirmRetry || r.prefs.confirmRetry == 0 ||
      (r.prefs.confirmRetry == p.confirmRetry + 1 && r.prefs.confirmRetry <= MaxConfirmRetries)
    ensures forall e :: e in r.effects ==> StepEffect(e)
  {
    if !p.pending then NoOp(p)
    else match Root(pf)
      case None => NoOp(p)
      case Some(root) =>
        ExecuteRecord(root, ClickSendOrOk(root), p);
        ExecuteEffects(root, ClickSendOrOk(root), p);
        Execute(root, ClickSendOrOk(root), p)
  }

  // ---------------------------------------------------------------- timers

  /** `timeoutRunnable`: the dead-man timer ends the session without touching the dialog. */
  function TimeoutFires(p: Prefs): (r: Outcome)
    ensures !r.prefs.pending && r.prefs.state == Done
    ensures r.prefs == p.(pending := false, state := Done)
    ensures forall e :: e in r.effects ==> !OnScreen(e)
    ensures Cancel(CloseTask) in r.effects
  {
    Outcome(p.(pending := false, state := Done), [Cancel(CloseTask)])
  }

  /** `closeUssdAfterResultRunnable`: ends the session and dismisses the dialog with exactly one BACK. */
  function CloseFires(p: Prefs): (r: Outcome)
    ensures !r.prefs.pending && r.prefs.state == Done
    ensures r.prefs == p.(pending := false, state := Done)
    ensures Cancel(TimeoutTask) in r.effects
    ensures |set i | 0 <= i < |r.effects| && r.effects[i] == Back| == 1
  {
    var effects := [Cancel(TimeoutTask), Back];
    assert (set i | 0 <= i < |effects| && effects[i] == Back) == {1};
    Outcome(p.(pending := false, state := Done), effects)
  }

  // ---------------------------------------------------------------- restart

  /** `onServiceConnected`: schedules the one-shot check, 60 s later. */
  function OnServiceConnected(): (r: seq<Effect>)
    ensures forall e :: e in r ==> e.Post? && e.task == RecoveryTask && Millis(e.delay) == 60000
    ensures |r| == 1
  {
    [Post(RecoveryTask, TimeoutCheckDelay)]
  }

  /** The check of lines 370-377: a session already under way gets one step evaluation. */
  function RecoveryFires(pf: Platform, p: Prefs): (r: Outcome)
    ensures p.pending && p.state != Idle && p.state != Done ==> r == ProcessNextStep(pf, p)
    ensures !p.pending || p.state == Idle || p.state == Done ==> r == NoOp(p)
    ensures forall e :: e in r.effects ==> !Schedules(e, TimeoutTask)
  {
    if p.pending && p.state != Idle && p.state != Done then ProcessNextStep(pf, p) else NoOp(p)
  }
}
