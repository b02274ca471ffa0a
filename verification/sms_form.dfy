/**
 * The web form's validator (`smsFormSchema` with its `superRefine` step) and the
 * submit handler that turns a valid form into the message text.
 */
module SmsForm {
  import opened Optional
  import opened Text
  import opened Session
  import T = SmsBody
  import opened SmsBody

  /** Line 21: the one message every issue carries. */
  const RequiredMessage: string := "Please fill all required fields."

  /** A validation issue: the field it points at and its message. */
  datatype Issue = Issue(path: Field, message: string)

  /** The form's eight string fields. */
  datatype Form = Form(transactionType: string, values: Values)

  /** Lines 104-113: the form as first shown. */
  const DefaultForm: Form := Form("SEND_MONEY", Values("", "", "", "", "", "", ""))

  /** The form value a field reads. */
  function ValueOf(v: Values, f: Field): string {
    match f
    case PhoneField => v.phone
    case TillField => v.till
    case BusinessField => v.business
    case AccountField => v.account
    case AgentField => v.agent
    case StoreField => v.store
    case AmountField => v.amount
  }

  /** Whether a mode requires a field: the amount always, the others by mode. */
  predicate IsRequired(m: TransactionMode, f: Field) {
    match f
    case AmountField => true
    case PhoneField => m == T.SendMoney || m == T.Pochi
    case TillField => m == T.Till
    case BusinessField | AccountField => m == T.Paybill
    case AgentField | StoreField => m == T.Withdraw
  }

  /** The order in which the refinement visits the fields. */
  function Rank(f: Field): nat {
    match f
    case AmountField => 0
    case PhoneField => 1
    case TillField => 2
    case BusinessField => 3
    case AccountField => 4
    case AgentField => 5
    case StoreField => 6
  }

  /** Fields listed in the order the refinement visits them, none twice. */
  predicate Ascending(fs: seq<Field>) {
    forall j, k :: 0 <= j < k < |fs| ==> Rank(fs[j]) < Rank(fs[k])
  }

  /**
   * The fields the refinement tests for a mode, in the order it tests them: the amount
   * (lines 35-41), then the phone for Send Money and Pochi (43-51), the till (52-60),
   * business and account (61-76), or agent and store (77-92).
   */
  function RequiredFields(m: TransactionMode): (r: seq<Field>)
    ensures forall f :: f in r <==> IsRequired(m, f)
    ensures Ascending(r)
  {
    [AmountField]
    + match m
      case SendMoney | Pochi => [PhoneField]
      case Till => [TillField]
      case Paybill => [BusinessField, AccountField]
      case Withdraw => [AgentField, StoreField]
      case Unlisted(_) => []
  }

  /**
   * The `if (!data.x.trim()) ctx.addIssue(...)` tests over `fs` in order; the trimmed value
   * is empty exactly when the value is blank (the contract of `Text.Trim`).
   */
  function Issues(v: Values, fs: seq<Field>): (r: seq<Issue>)
    requires Ascending(fs)
    ensures forall i :: i in r <==> i.path in fs && IsBlank(ValueOf(v, i.path)) && i.message == RequiredMessage
    ensures forall j, k :: 0 <= j < k < |r| ==> Rank(r[j].path) < Rank(r[k].path)
  {
    if fs == [] then []
    else
      var rest := Issues(v, fs[1..]);
      assert forall k :: 0 <= k < |rest| ==> rest[k] in rest && rest[k].path in fs[1..];
      (if IsBlank(ValueOf(v, fs[0])) then [Issue(fs[0], RequiredMessage)] else []) + rest
  }

  /**
   * Lines 34-93: the issues the refinement adds, in the order it adds them. An issue
   * names a field exactly when the type string requires that field and its value is
   * blank; every issue has the same message and no field is reported twice.
   */
  function Validate(form: Form): (r: seq<Issue>)
    ensures forall i :: i in r <==>
      IsRequired(ModeOf(form.transactionType), i.path) && IsBlank(ValueOf(form.values, i.path)) && i.message == RequiredMessage
    ensures forall k :: 0 <= k < |r| ==> r[k].message == RequiredMessage
    ensures forall j, k :: 0 <= j < k < |r| ==> Rank(r[j].path) < Rank(r[k].path)
  {
    Issues(form.values, RequiredFields(ModeOf(form.transactionType)))
  }

  /** The resolver lets a form through when the refinement added no issue. */
  predicate Valid(form: Form) {
    Validate(form) == []
  }

  /** A form is valid exactly when every field its type string requires is non-blank. */
  lemma ValidIffRequiredFilled(form: Form)
    ensures Valid(form) <==> forall f :: IsRequired(ModeOf(form.transactionType), f) ==> !IsBlank(ValueOf(form.values, f))
  {
    var r := Validate(form);
    if r != [] {
      assert r[0] in r;
    }
    forall f | IsRequired(ModeOf(form.transactionType), f) && IsBlank(ValueOf(form.values, f))
      ensures r != []
    {
      assert Issue(f, RequiredMessage) in r;
    }
  }

  /**
   * Lines 123-134 behind `handleSubmit`: a valid form yields the message built from its
   * type and values; an invalid one is never submitted.
   */
  function OnSubmit(form: Form): (r: Option<string>)
    ensures r.Some? <==> forall f :: IsRequired(ModeOf(form.transactionType), f) ==> !IsBlank(ValueOf(form.values, f))
    ensures r.Some? ==> r.value == BuildSmsBody(ModeOf(form.transactionType), form.values)
  {
    ValidIffRequiredFilled(form);
    if Valid(form) then Some(BuildSmsBody(ModeOf(form.transactionType), form.values)) else None
  }

  /** The amount is reported whenever it is blank, whatever the type string. */
  lemma BlankAmountAlwaysReported(form: Form)
    requires IsBlank(form.values.amount)
    ensures Issue(AmountField, RequiredMessage) in Validate(form)
    ensures OnSubmit(form).None?
  {
  }

  /** A field the type string does not require is never reported, even when blank. */
  lemma UnrequiredFieldsNeverReported(form: Form, f: Field)
    requires !IsRequired(ModeOf(form.transactionType), f)
    ensures forall i :: i in Validate(form) ==> i.path != f
  {
  }

  /** Paybill and Withdraw report each of their two fields on its own. */
  lemma PairedFieldsReportedIndependently(form: Form)
    requires form.transactionType == "PAYBILL" || form.transactionType == "WITHDRAW"
    ensures var paybill := form.transactionType == "PAYBILL";
      var first := if paybill then BusinessField else AgentField;
      var second := if paybill then AccountField else StoreField;
      && (Issue(first, RequiredMessage) in Validate(form) <==> IsBlank(ValueOf(form.values, first)))
      && (Issue(second, RequiredMessage) in Validate(form) <==> IsBlank(ValueOf(form.values, second)))
  {
  }

  /** The form as first shown reports the amount and then the phone. */
  lemma DefaultFormReportsAmountThenPhone()
    ensures Validate(DefaultForm) == [Issue(AmountField, RequiredMessage), Issue(PhoneField, RequiredMessage)]
  {
  }

  /** A valid Send Money form always yields the three-segment message with the phone. */
  lemma ValidSendMoneyHasPhoneSegment(form: Form)
    requires form.transactionType == "SEND_MONEY" && Valid(form)
    ensures BodySegments(T.SendMoney, form.values) == ["SM", Trim(form.values.phone), Trim(form.values.amount)]
  {
    assert IsRequired(T.SendMoney, PhoneField);
    assert Issue(PhoneField, RequiredMessage) !in Validate(form);
  }
}
