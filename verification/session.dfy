/**
 * The persisted session record shared by the SMS trigger and the USSD automation
 * service (the app's SecurePrefs store), and the step names the automation writes
 * into its `state` key.
 */
module Session {
  import opened Optional

  /** The `mode` key. `OtherMode` stands for any value other than the four modes. */
  datatype Mode = SendMoney | Till | Paybill | Withdraw | OtherMode

  /** The seven transaction fields (also the issue paths of the web form). */
  datatype Field = PhoneField | TillField | BusinessField | AccountField | AgentField | StoreField | AmountField

  /** The `state` key: `Idle` is the empty string, every other value is one of the service's constants. */
  datatype Step =
    | Idle
    | SM1 | SM2 | SMPhone | SMAmount | SMPin
    | Till6 | Till2 | TillNum | TillAmount | TillPin
    | PB6 | PB1 | PBBusiness | PBAccount | PBAmount | PBPin
    | WD2 | WD1 | WDAgent | WDStore | WDAmount | WDPin
    | Confirm1
    | Done

  /** The string stored under the `state` key for each step. */
  function StepName(s: Step): string {
    match s
    case Idle => ""
    case SM1 => "SM_1"
    case SM2 => "SM_2"
    case SMPhone => "SM_PHONE"
    case SMAmount => "SM_AMOUNT"
    case SMPin => "SM_PIN"
    case Till6 => "TILL_6"
    case Till2 => "TILL_2"
    case TillNum => "TILL_NUM"
    case TillAmount => "TILL_AMOUNT"
    case TillPin => "TILL_PIN"
    case PB6 => "PB_6"
    case PB1 => "PB_1"
    case PBBusiness => "PB_BUSINESS"
    case PBAccount => "PB_ACCOUNT"
    case PBAmount => "PB_AMOUNT"
    case PBPin => "PB_PIN"
    case WD2 => "WD_2"
    case WD1 => "WD_1"
    case WDAgent => "WD_AGENT"
    case WDStore => "WD_STORE"
    case WDAmount => "WD_AMOUNT"
    case WDPin => "WD_PIN"
    case Confirm1 => "CONFIRM_1"
    case Done => "DONE"
  }

  /** Reads a stored `state` string back; `None` for strings the service never writes. */
  function ParseStep(name: string): Option<Step> {
    if name == "" then Some(Idle)
    else if name == "SM_1" then Some(SM1)
    else if name == "SM_2" then Some(SM2)
    else if name == "SM_PHONE" then Some(SMPhone)
    else if name == "SM_AMOUNT" then Some(SMAmount)
    else if name == "SM_PIN" then Some(SMPin)
    else if name == "TILL_6" then Some(Till6)
    else if name == "TILL_2" then Some(Till2)
    else if name == "TILL_NUM" then Some(TillNum)
    else if name == "TILL_AMOUNT" then Some(TillAmount)
    else if name == "TILL_PIN" then Some(TillPin)
    else if name == "PB_6" then Some(PB6)
    else if name == "PB_1" then Some(PB1)
    else if name == "PB_BUSINESS" then Some(PBBusiness)
    else if name == "PB_ACCOUNT" then Some(PBAccount)
    else if name == "PB_AMOUNT" then Some(PBAmount)
    else if name == "PB_PIN" then Some(PBPin)
    else if name == "WD_2" then Some(WD2)
    else if name == "WD_1" then Some(WD1)
    else if name == "WD_AGENT" then Some(WDAgent)
    else if name == "WD_STORE" then Some(WDStore)
    else if name == "WD_AMOUNT" then Some(WDAmount)
    else if name == "WD_PIN" then Some(WDPin)
    else if name == "CONFIRM_1" then Some(Confirm1)
    else if name == "DONE" then Some(Done)
    else None
  }

  lemma SendMoneyNamesRoundTrip(s: Step)
    requires s.Idle? || s.SM1? || s.SM2? || s.SMPhone? || s.SMAmount? || s.SMPin?
    ensures ParseStep(StepName(s)) == Some(s)
  {
  }

  lemma TillNamesRoundTrip(s: Step)
    requires s.Till6? || s.Till2? || s.TillNum? || s.TillAmount? || s.TillPin?
    ensures ParseStep(StepName(s)) == Some(s)
  {
  }

  lemma PaybillNamesRoundTrip(s: Step)
    requires s.PB6? || s.PB1? || s.PBBusiness?
    ensures ParseStep(StepName(s)) == Some(s)
  {
  }

  lemma PaybillEntryNamesRoundTrip(s: Step)
    requires s.PBAccount? || s.PBAmount? || s.PBPin?
    ensures ParseStep(StepName(s)) == Some(s)
  {
  }

  lemma WithdrawNamesRoundTrip(s: Step)
    requires s.WD2? || s.WD1? || s.WDAgent?
    ensures ParseStep(StepName(s)) == Some(s)
  {
  }

  lemma WithdrawEntryNamesRoundTrip(s: Step)
    requires s.WDStore? || s.WDAmount? || s.WDPin?
    ensures ParseStep(StepName(s)) == Some(s)
  {
  }

  /** Every step survives the round trip through its stored name, so the names are pairwise distinct. */
  lemma StepNameRoundTrip(s: Step)
    ensures ParseStep(StepName(s)) == Some(s)
  {
    if s.Idle? || s.SM1? || s.SM2? || s.SMPhone? || s.SMAmount? || s.SMPin? {
      SendMoneyNamesRoundTrip(s);
    } else if s.Till6? || s.Till2? || s.TillNum? || s.TillAmount? || s.TillPin? {
      TillNamesRoundTrip(s);
    } else if s.PB6? || s.PB1? || s.PBBusiness? {
      PaybillNamesRoundTrip(s);
    } else if s.PBAccount? || s.PBAmount? || s.PBPin? {
      PaybillEntryNamesRoundTrip(s);
    } else if s.WD2? || s.WD1? || s.WDAgent? {
      WithdrawNamesRoundTrip(s);
    } else if s.WDStore? || s.WDAmount? || s.WDPin? {
      WithdrawEntryNamesRoundTrip(s);
    }
  }

  /**
   * The whole store. `pin` and `allowedSenders` are nullable because the SMS receiver
   * reads them with a `null` default; every other string is read with a `""` default,
   * so absence and `""` coincide for it.
   */
  datatype Prefs = Prefs(
    pending: bool,
    state: Step,
    mode: Mode,
    amount: string,
    pin: Option<string>,
    phone: string,
    till: string,
    business: string,
    account: string,
    agent: string,
    store: string,
    confirmSend: bool,
    confirmRetry: int,
    smsTriggerEnabled: bool,
    allowedSenders: Option<string>)

  /** The stored value of one transaction field. */
  function FieldValue(p: Prefs, f: Field): string {
    match f
    case PhoneField => p.phone
    case TillField => p.till
    case BusinessField => p.business
    case AccountField => p.account
    case AgentField => p.agent
    case StoreField => p.store
    case AmountField => p.amount
  }

  /** The fields a mode's USSD chain types into the dialog. */
  function UsedFields(m: Mode): set<Field> {
    match m
    case SendMoney => {PhoneField, AmountField}
    case Till => {TillField, AmountField}
    case Paybill => {BusinessField, AccountField, AmountField}
    case Withdraw => {AgentField, StoreField, AmountField}
    case OtherMode => {AmountField}
  }
}
