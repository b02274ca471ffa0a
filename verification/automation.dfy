/**
 * Properties of the automation engine across its callbacks: progress is gated on
 * accepted writes, blank values are never typed, the PIN goes to the hinted field,
 * the confirm counter and its limit, the end of a session, and the link between a
 * session started by SMS and the fields its chain types.
 */
module Automation {
  import opened Optional
  import opened Text
  import opened Session
  import opened Screen
  import opened Engine
  import SmsTrigger

  /** A digit or field step never names itself as its successor. */
  lemma NextDiffers(s: Step)
    requires StepTable(s).SendDigit? || StepTable(s).FillField?
    ensures StepTable(s).next != s
  {
  }

  /**
   * For a digit or field step, the session advances exactly when an accepted write
   * happened; the write is then the first effect and lands on a node that accepts text.
   * (`ProcessNextStep` runs `Execute` on the dialog root with the `clickSendOrOk` target.)
   */
  lemma AdvanceOnlyAfterAcceptedWrite(root: Node, click: Option<Path>, p: Prefs)
    requires StepTable(p.state).SendDigit? || StepTable(p.state).FillField?
    ensures var r := Execute(root, click, p);
      && (r.prefs.state != p.state <==> r.effects != [])
      && (r.effects == [] ==> r.prefs == p)
      && (r.effects != [] ==>
            && r.prefs == p.(state := StepTable(p.state).next)
            && r.effects[0].SetText?
            && AcceptsTextAt(root, r.effects[0].path)
            && r.effects[|r.effects| - 1] == Post(StepTask, StepDelay))
  {
    NextDiffers(p.state);
    var r := Execute(root, click, p);
    match StepTable(p.state)
    case SendDigit(digit, next) =>
      assert r == TypeAndSend(root, click, p, digit, next);
    case FillField(f, next, keywords) =>
      assert r == TypeField(root, click, p, FieldValue(p, f), next, keywords);
  }

  /** A field whose stored value is blank is never typed and the session stays on its step. */
  lemma BlankFieldIsNeverTyped(root: Node, click: Option<Path>, p: Prefs)
    requires StepTable(p.state).FillField? && IsBlank(FieldValue(p, StepTable(p.state).field))
    ensures Execute(root, click, p) == NoOp(p)
  {
  }

  /**
   * The PIN is written to the first editable node whose hint names a PIN, whatever has
   * focus; only when there is none does the usual input target get it.
   */
  lemma PinGoesToHintedField(root: Node, click: Option<Path>, p: Prefs)
    requires StepTable(p.state) == FinishWithPin
    ensures var r := Execute(root, click, p);
      && (SetTextOnHinted(root, PinKeywords).None? && SetTextOnTarget(root).None? ==> r == NoOp(p))
      && (SetTextOnHinted(root, PinKeywords).Some? ==>
            r.effects != [] && r.effects[0] == SetText(SetTextOnHinted(root, PinKeywords).value, p.pin.GetOr("")))
      && (SetTextOnHinted(root, PinKeywords).None? && SetTextOnTarget(root).Some? ==>
            r.effects != [] && r.effects[0] == SetText(SetTextOnTarget(root).value, p.pin.GetOr("")))
  {
    assert Execute(root, click, p) == FinishPin(root, click, p);
  }

  /**
   * Without confirmation the PIN step is never left: the record is unchanged and the
   * close timer re-armed, so the next evaluation on the same screen types the PIN again.
   */
  lemma PinWithoutConfirmRepeats(root: Node, click: Option<Path>, p: Prefs)
    requires StepTable(p.state) == FinishWithPin && !p.confirmSend && PinTarget(root).Some?
    ensures var r := Execute(root, click, p);
      && r.prefs == p
      && |r.effects| >= 3
      && r.effects[|r.effects| - 2] == Cancel(CloseTask)
      && r.effects[|r.effects| - 1] == Post(CloseTask, ResultThenClose)
  {
    assert Execute(root, click, p) == PinEntered(PinTarget(root).value, click, p);
  }

  /** With confirmation, an accepted PIN moves to the confirm step with a fresh counter. */
  lemma PinWithConfirmMovesOn(root: Node, click: Option<Path>, p: Prefs)
    requires StepTable(p.state) == FinishWithPin && p.confirmSend && PinTarget(root).Some?
    ensures var r := Execute(root, click, p);
      && r.prefs == p.(state := Confirm1, confirmRetry := 0)
      && r.effects[|r.effects| - 1] == Post(StepTask, ConfirmDelay)
      && forall e :: e in r.effects ==> !Schedules(e, CloseTask)
  {
    assert Execute(root, click, p) == PinEntered(PinTarget(root).value, click, p);
  }

  /**
   * A refused "1" on the confirm step counts one retry and reschedules while under the
   * limit; at the limit nothing is scheduled and the counter stays.
   */
  lemma ConfirmRefusalsCounted(root: Node, click: Option<Path>, p: Prefs)
    requires p.state == Confirm1 && !ContainsAnyText(root, PinPrompts) && SetTextOnTarget(root).None?
    ensures var r := Execute(root, click, p);
      && r.prefs.state == Confirm1
      && r.prefs.confirmRetry == (if p.confirmRetry < MaxConfirmRetries then p.confirmRetry + 1 else p.confirmRetry)
      && (r.effects != [] <==> p.confirmRetry < MaxConfirmRetries)
      && (r.effects != [] ==> r.effects == [Post(StepTask, StepDelay)])
  {
    assert Execute(root, click, p) == ConfirmStep(root, click, p);
  }

  /** While a PIN prompt is still visible, the confirm step only waits and counts nothing. */
  lemma ConfirmWaitsForPinPrompt(root: Node, click: Option<Path>, p: Prefs)
    requires p.state == Confirm1 && ContainsAnyText(root, PinPrompts)
    ensures Execute(root, click, p) == Outcome(p, [Post(StepTask, StepDelay)])
    ensures exists l :: l in Walk(root, []) && ShowsAny(l.node, PinPrompts)
  {
    assert Execute(root, click, p) == ConfirmStep(root, click, p);
    ContainsAnyTextWalk(root, [], PinPrompts);
  }

  /**
   * The retry limit stops only the step's own rescheduling: a later window event still
   * queues an immediate evaluation, and that evaluation still enters "1".
   */
  lemma EventsOutliveTheRetryLimit(pf: Platform, p: Prefs, ev: Option<Event>, click: Option<Path>)
    requires Relevant(ev) && p.pending && p.state == Confirm1 && p.confirmRetry >= MaxConfirmRetries
    requires Root(pf).Some? && !ContainsAnyText(Root(pf).value, PinPrompts)
    requires SetTextOnTarget(Root(pf).value).Some?
    ensures OnEvent(pf, p, ev) == Outcome(p, [Cancel(StepTask), Post(StepTask, Immediately)])
    ensures var r := Execute(Root(pf).value, click, p);
      r.effects != [] && r.effects[0] == SetText(SetTextOnTarget(Root(pf).value).value, "1")
  {
    ConfirmStillEntersOne(Root(pf).value, click, p);
  }

  /** The confirm step enters "1" whenever the input target accepts it, whatever the counter. */
  lemma ConfirmStillEntersOne(root: Node, click: Option<Path>, p: Prefs)
    requires p.state == Confirm1 && !ContainsAnyText(root, PinPrompts) && SetTextOnTarget(root).Some?
    ensures var r := Execute(root, click, p);
      r.effects != [] && r.effects[0] == SetText(SetTextOnTarget(root).value, "1")
  {
    var r := Execute(root, click, p);
    assert r == ConfirmStep(root, click, p);
    var acts := Entered(SetTextOnTarget(root).value, "1", click);
    assert r.effects == acts + [Cancel(CloseTask), Post(CloseTask, ResultThenClose)];
    assert r.effects[0] == acts[0];
  }

  /** The confirm counter stays within 0..8 under events and step evaluations. */
  lemma RetryCounterBounded(pf: Platform, p: Prefs, ev: Option<Event>)
    requires 0 <= p.confirmRetry <= MaxConfirmRetries
    ensures 0 <= ProcessNextStep(pf, p).prefs.confirmRetry <= MaxConfirmRetries
    ensures 0 <= OnEvent(pf, p, ev).prefs.confirmRetry <= MaxConfirmRetries
  {
  }

  /** After either timer ends a session, no event, step or restart check does anything. */
  lemma FinishedSessionIsInert(pf: Platform, p: Prefs, ev: Option<Event>)
    ensures var q := TimeoutFires(p).prefs;
      OnEvent(pf, q, ev) == NoOp(q) && ProcessNextStep(pf, q) == NoOp(q) && RecoveryFires(pf, q) == NoOp(q)
    ensures var q := CloseFires(p).prefs;
      OnEvent(pf, q, ev) == NoOp(q) && ProcessNextStep(pf, q) == NoOp(q) && RecoveryFires(pf, q) == NoOp(q)
  {
  }

  /** Every field a chain types is one the mode uses. */
  lemma ChainFieldsAreUsed(s: Step)
    requires ChainOf(s).Some? && StepTable(s).FillField?
    ensures StepTable(s).field in UsedFields(ChainOf(s).value)
  {
  }

  /** A step evaluation never changes a stored field value. */
  lemma StepKeepsFields(pf: Platform, p: Prefs, f: Field)
    ensures FieldValue(ProcessNextStep(pf, p).prefs, f) == FieldValue(p, f)
  {
    var q := ProcessNextStep(pf, p).prefs;
    assert q == p.(state := q.state, confirmRetry := q.confirmRetry);
  }

  /**
   * A session started by SMS never stalls on a blank field: every field step of the
   * chain of its mode finds a non-blank stored value (which `StepKeepsFields` keeps).
   */
  lemma SmsSessionsFillEveryField(p: Prefs, sender: Option<string>, body: string, dialOk: bool, s: Step)
    requires SmsTrigger.Starts(p, sender, body)
    requires ChainOf(s) == Some(SmsTrigger.Receive(p, sender, body, dialOk).mode) && StepTable(s).FillField?
    ensures !IsBlank(FieldValue(SmsTrigger.Receive(p, sender, body, dialOk), StepTable(s).field))
  {
    SmsTrigger.StartedSessionRecord(p, sender, body, dialOk);
    ChainFieldsAreUsed(s);
  }
}
