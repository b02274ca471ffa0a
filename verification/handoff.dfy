/**
 * The hand-off between the two halves of the system: the message the web form
 * submits is the one the phone's SMS trigger reads back into a request.
 */
module Handoff {
  import opened Optional
  import opened Text
  import B = SmsBody
  import F = SmsForm
  import S = Session
  import R = SmsTrigger

  /** No value starts or ends with whitespace. */
  predicate UnpaddedValues(t: B.Values) {
    && Unpadded(t.phone) && Unpadded(t.till) && Unpadded(t.business) && Unpadded(t.account)
    && Unpadded(t.agent) && Unpadded(t.store) && Unpadded(t.amount)
  }

  lemma TrimmedIsUnpadded(v: B.Values)
    ensures UnpaddedValues(B.Trimmed(v))
  {
    TrimIsUnpadded(v.phone);
    TrimIsUnpadded(v.till);
    TrimIsUnpadded(v.business);
    TrimIsUnpadded(v.account);
    TrimIsUnpadded(v.agent);
    TrimIsUnpadded(v.store);
    TrimIsUnpadded(v.amount);
  }

  /** No segment of the message is empty. */
  predicate NoEmptySegment(m: B.TransactionMode, t: B.Values) {
    forall k :: 0 <= k < |B.Segments(m, t)| ==> B.Segments(m, t)[k] != ""
  }

  /** Segments of unpadded values are unpadded, the tags included. */
  lemma SegmentsAreUnpadded(m: B.TransactionMode, t: B.Values)
    requires UnpaddedValues(t)
    ensures forall k :: 0 <= k < |B.Segments(m, t)| ==> Unpadded(B.Segments(m, t)[k])
  {
  }

  /** A message without empty segments has no whitespace to trim at either end. */
  lemma TemplateIsTrimmed(m: B.TransactionMode, t: B.Values)
    requires UnpaddedValues(t) && NoEmptySegment(m, t)
    ensures Trim(B.Template(m, t)) == B.Template(m, t)
  {
    var segs := B.Segments(m, t);
    SegmentsAreUnpadded(m, t);
    assert Unpadded(segs[0]) && segs[0] != [];
    assert Unpadded(segs[|segs| - 1]) && segs[|segs| - 1] != [];
    B.TemplateIsSegmentJoin(m, t);
    TrimmedJoin(segs, '|');
  }

  /**
   * With delimiter-free values and no empty segment, the receiver's trimmed segments of
   * the message are exactly the segments the web client meant to send.
   */
  lemma ReceiverReadsSegments(m: B.TransactionMode, v: B.Values)
    requires B.PipeFree(v) && NoEmptySegment(m, B.Trimmed(v))
    ensures R.Segments(B.BuildSmsBody(m, v)) == B.BodySegments(m, v)
  {
    var t := B.Trimmed(v);
    var segs := B.Segments(m, t);
    TrimmedIsUnpadded(v);
    TemplateIsTrimmed(m, t);
    B.BodySplitsIntoSegments(m, v);
    SegmentsAreUnpadded(m, t);
    assert R.TrimAll(segs) == segs;
  }

  /**
   * The request the phone starts for a submitted message: the trimmed values in the
   * fields of the matching request, the sender as payee of an unlisted type's `SM`
   * message, and nothing for Pochi, whose `PLB` tag the receiver does not know.
   */
  function Delivered(m: B.TransactionMode, t: B.Values, sender: string): Option<R.Request> {
    match m
    case SendMoney => Some(R.SendMoneyRequest(if t.phone != "" then t.phone else sender, t.amount))
    case Pochi => None
    case Till => Some(R.TillRequest(t.till, t.amount))
    case Paybill => Some(R.PaybillRequest(t.business, t.amount, t.account))
    case Withdraw => Some(R.WithdrawRequest(t.agent, t.amount, t.store))
    case Unlisted(_) => Some(R.SendMoneyRequest(sender, t.amount))
  }

  /** Every segment after the tag is the value of a field the mode requires. */
  lemma FilledSegments(m: B.TransactionMode, t: B.Values)
    requires forall f :: F.IsRequired(m, f) ==> F.ValueOf(t, f) != ""
    ensures NoEmptySegment(m, t)
  {
    assert F.IsRequired(m, S.AmountField);
    match m
    case SendMoney | Pochi =>
      assert F.IsRequired(m, S.PhoneField);
    case Till =>
      assert F.IsRequired(m, S.TillField);
    case Paybill =>
      assert F.IsRequired(m, S.BusinessField) && F.IsRequired(m, S.AccountField);
    case Withdraw =>
      assert F.IsRequired(m, S.AgentField) && F.IsRequired(m, S.StoreField);
    case Unlisted(_) =>
  }

  lemma TrimmedValueOf(v: B.Values, f: S.Field)
    ensures F.ValueOf(B.Trimmed(v), f) == Trim(F.ValueOf(v, f))
  {
  }

  /** A valid form's message has no empty segment. */
  lemma ValidFormSegmentsFilled(form: F.Form)
    requires F.Valid(form)
    ensures NoEmptySegment(B.ModeOf(form.transactionType), B.Trimmed(form.values))
  {
    var m := B.ModeOf(form.transactionType);
    var v := form.values;
    F.ValidIffRequiredFilled(form);
    forall f | F.IsRequired(m, f)
      ensures F.ValueOf(B.Trimmed(v), f) != ""
    {
      TrimmedValueOf(v, f);
    }
    FilledSegments(m, B.Trimmed(v));
  }

  /**
   * The receiver reads each tag the client writes as the tag of the same mode, except
   * Pochi's "PLB", which it does not know.
   */
  lemma TagsAreRead(m: B.TransactionMode)
    ensures R.TagOf(B.TagText(m)) == match m
      case Pochi => R.NoTag
      case Till => R.BG
      case Paybill => R.PB
      case Withdraw => R.WA
      case _ => R.SM
  {
    match m
    case Pochi => assert |B.TagText(m)| == 3;
    case Till => assert EqualsIgnoreCase("BG", "BG");
    case Paybill => assert EqualsIgnoreCase("PB", "PB");
    case Withdraw => assert EqualsIgnoreCase("WA", "WA");
    case _ => assert EqualsIgnoreCase("SM", "SM");
  }

  /** A non-empty unpadded value is not blank. */
  lemma FilledIsNotBlank(s: string)
    requires Unpadded(s) && s != ""
    ensures !IsBlank(s)
  {
    assert IsSpace(s[0]) ==> IsBlank(s) ==> false;
  }

  /** A body of blank text splits into the one empty segment. */
  lemma BlankBodyHasOneSegment(body: string)
    requires IsBlank(Trim(body))
    ensures R.Segments(body) == [""]
  {
    assert Trim(body) == [];
    assert Split([], '|') == [""];
  }

  /** A body with two or more segments is not blank, so its segments are dispatched. */
  lemma ParseBodyDispatches(body: string, sender: string)
    requires |R.Segments(body)| >= 2
    ensures R.ParseBody(body, sender) == R.Dispatch(R.Segments(body), sender)
  {
    if IsBlank(Trim(body)) {
      BlankBodyHasOneSegment(body);
    }
  }

  lemma SendMoneyDispatched(phone: string, amount: string, sender: string)
    requires Unpadded(phone) && Unpadded(amount) && phone != "" && amount != ""
    ensures R.Dispatch(["SM", phone, amount], sender) == Some(R.SendMoneyRequest(phone, amount))
  {
    var parts := ["SM", phone, amount];
    assert EqualsIgnoreCase(parts[0], "SM");
    assert Trim(parts[1]) == phone && Trim(parts[2]) == amount;
    FilledIsNotBlank(phone);
    FilledIsNotBlank(amount);
  }

  lemma SenderPaysDispatched(amount: string, sender: string)
    requires Unpadded(amount) && amount != "" && !IsBlank(sender)
    ensures R.Dispatch(["SM", amount], sender) == Some(R.SendMoneyRequest(sender, amount))
  {
    var parts := ["SM", amount];
    assert EqualsIgnoreCase(parts[0], "SM");
    assert Trim(parts[1]) == amount;
    FilledIsNotBlank(amount);
  }

  lemma PochiNotDispatched(phone: string, amount: string, sender: string)
    ensures R.Dispatch(["PLB", phone, amount], sender).None?
  {
    assert !EqualsIgnoreCase("PLB", "SM") && !EqualsIgnoreCase("PLB", "BG");
    assert !EqualsIgnoreCase("PLB", "PB") && !EqualsIgnoreCase("PLB", "WA");
  }

  lemma TillDispatched(till: string, amount: string, sender: string)
    requires Unpadded(till) && Unpadded(amount) && till != "" && amount != ""
    ensures R.Dispatch(["BG", till, amount], sender) == Some(R.TillRequest(till, amount))
  {
    assert EqualsIgnoreCase("BG", "BG");
    FilledIsNotBlank(till);
    FilledIsNotBlank(amount);
  }

  lemma PaybillDispatched(business: string, amount: string, account: string, sender: string)
    requires Unpadded(business) && Unpadded(amount) && Unpadded(account)
    requires business != "" && amount != "" && account != ""
    ensures R.Dispatch(["PB", business, amount, account], sender) == Some(R.PaybillRequest(business, amount, account))
  {
    assert EqualsIgnoreCase("PB", "PB");
    FilledIsNotBlank(business);
    FilledIsNotBlank(amount);
    FilledIsNotBlank(account);
  }

  lemma WithdrawDispatched(agent: string, amount: string, store: string, sender: string)
    requires Unpadded(agent) && Unpadded(amount) && Unpadded(store)
    requires agent != "" && amount != "" && store != ""
    ensures R.Dispatch(["WA", agent, amount, store], sender) == Some(R.WithdrawRequest(agent, amount, store))
  {
    assert EqualsIgnoreCase("WA", "WA");
    FilledIsNotBlank(agent);
    FilledIsNotBlank(amount);
    FilledIsNotBlank(store);
  }

  /** The receiver's dispatch of each mode's segments yields the delivered request. */
  lemma SegmentsDispatched(m: B.TransactionMode, t: B.Values, sender: string)
    requires UnpaddedValues(t) && NoEmptySegment(m, t) && !IsBlank(sender)
    ensures R.Dispatch(B.Segments(m, t), sender) == Delivered(m, t, sender)
  {
    var segs := B.Segments(m, t);
    match m
    case SendMoney =>
      if t.phone != "" {
        assert segs == ["SM", t.phone, t.amount] && segs[2] != "";
        SendMoneyDispatched(t.phone, t.amount, sender);
      } else {
        assert segs == ["SM", t.amount] && segs[1] != "";
        SenderPaysDispatched(t.amount, sender);
      }
    case Pochi =>
      PochiNotDispatched(t.phone, t.amount, sender);
    case Till =>
      assert segs[1] != "" && segs[2] != "";
      TillDispatched(t.till, t.amount, sender);
    case Paybill =>
      assert segs[1] != "" && segs[2] != "" && segs[3] != "";
      PaybillDispatched(t.business, t.amount, t.account, sender);
    case Withdraw =>
      assert segs[1] != "" && segs[2] != "" && segs[3] != "";
      WithdrawDispatched(t.agent, t.amount, t.store, sender);
    case Unlisted(_) =>
      assert segs[1] != "";
      SenderPaysDispatched(t.amount, sender);
  }

  /** The receiver turns the segments of an unpadded, gap-free message into the delivered request. */
  lemma ReceiverMapsSegments(body: string, m: B.TransactionMode, t: B.Values, sender: string)
    requires R.Segments(body) == B.Segments(m, t)
    requires UnpaddedValues(t) && NoEmptySegment(m, t) && !IsBlank(sender)
    ensures R.ParseBody(body, sender) == Delivered(m, t, sender)
  {
    ParseBodyDispatches(body, sender);
    SegmentsDispatched(m, t, sender);
  }

  /**
   * The cross-device round trip: with delimiter-free values and no empty segment, the
   * phone parses the web client's message into the delivered request. Whitespace is
   * `Text.IsSpace` on both sides, so the separators U+001C to U+001F that only Kotlin
   * trims are outside this statement.
   */
  lemma MessageReachesPhone(m: B.TransactionMode, v: B.Values, sender: string)
    requires B.PipeFree(v) && NoEmptySegment(m, B.Trimmed(v)) && !IsBlank(sender)
    ensures R.ParseBody(B.BuildSmsBody(m, v), sender) == Delivered(m, B.Trimmed(v), sender)
  {
    ReceiverReadsSegments(m, v);
    TrimmedIsUnpadded(v);
    ReceiverMapsSegments(B.BuildSmsBody(m, v), m, B.Trimmed(v), sender);
  }

  /**
   * What the form submits is what the phone runs: a submitted form with delimiter-free
   * values starts the request carrying its trimmed values (none for Pochi).
   */
  lemma SubmittedFormReachesPhone(form: F.Form, sender: string)
    requires F.OnSubmit(form).Some? && B.PipeFree(form.values) && !IsBlank(sender)
    ensures R.ParseBody(F.OnSubmit(form).value, sender)
         == Delivered(B.ModeOf(form.transactionType), B.Trimmed(form.values), sender)
  {
    F.ValidIffRequiredFilled(form);
    ValidFormSegmentsFilled(form);
    MessageReachesPhone(B.ModeOf(form.transactionType), form.values, sender);
  }
}
