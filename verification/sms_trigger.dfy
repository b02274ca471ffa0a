/**
 * The SMS trigger (SmsTriggerReceiver): authorises the sender against the allow-list,
 * parses the pipe-delimited body into a transaction request, writes the fresh session
 * record and rolls `pending` back when the dial cannot be started.
 *
 * The PDU extraction is not modelled: the receiver's input is the sender address (or
 * its absence) and the joined message body as given strings.
 */
module SmsTrigger {
  import opened Optional
  import opened Text
  import opened Session

  /** A parsed trigger message; each constructor carries exactly the fields its mode uses. */
  datatype Request =
    | SendMoneyRequest(phone: string, amount: string)
    | TillRequest(till: string, amount: string)
    | PaybillRequest(business: string, amount: string, account: string)
    | WithdrawRequest(agent: string, amount: string, store: string)

  function ModeOf(req: Request): Mode {
    match req
    case SendMoneyRequest(_, _) => SendMoney
    case TillRequest(_, _) => Till
    case PaybillRequest(_, _, _) => Paybill
    case WithdrawRequest(_, _, _) => Withdraw
  }

  /** The value a request gives a field; `""` for the fields its mode does not use. */
  function RequestField(req: Request, f: Field): string {
    match (req, f)
    case (SendMoneyRequest(phone, _), PhoneField) => phone
    case (TillRequest(till, _), TillField) => till
    case (PaybillRequest(business, _, _), BusinessField) => business
    case (PaybillRequest(_, _, account), AccountField) => account
    case (WithdrawRequest(agent, _, _), AgentField) => agent
    case (WithdrawRequest(_, _, store), StoreField) => store
    case (_, AmountField) => req.amount
    case _ => ""
  }

  // ---------------------------------------------------------------- phone numbers

  predicate IsDialable(c: char) {
    IsDigit(c) || c == '+'
  }

  /** Keeps only the digits and '+' characters, in order. */
  function KeepDialable(s: string): (r: string)
    ensures |r| <= |s|
    ensures forall k :: 0 <= k < |r| ==> IsDigit(r[k]) || r[k] == '+'
  {
    if |s| == 0 then ""
    else (if IsDigit(s[0]) || s[0] == '+' then [s[0]] else []) + KeepDialable(s[1..])
  }

  /** A string of digits and '+' only is kept whole. */
  lemma {:induction false} KeepDialableFixed(s: string)
    requires forall k :: 0 <= k < |s| ==> IsDialable(s[k])
    ensures KeepDialable(s) == s
  {
    if |s| > 0 {
      KeepDialableFixed(s[1..]);
      assert s == [s[0]] + s[1..];
    }
  }

  /** Every digit and '+' of `s` survives, as often as it occurs in `s`. */
  lemma {:induction false} KeepDialableKeeps(s: string)
    ensures forall c :: IsDialable(c) ==> multiset(KeepDialable(s))[c] == multiset(s)[c]
  {
    if |s| > 0 {
      KeepDialableKeeps(s[1..]);
      assert s == [s[0]] + s[1..];
    }
  }

  lemma {:induction false} KeepDialableAppend(a: string, b: string)
    ensures KeepDialable(a + b) == KeepDialable(a) + KeepDialable(b)
  {
    if |a| == 0 {
      assert a + b == b;
    } else {
      assert (a + b)[0] == a[0];
      assert (a + b)[1..] == a[1..] + b;
      KeepDialableAppend(a[1..], b);
    }
  }

  /** The regular-expression replacement of `^\+?254` by `"0"`: at most one rewrite, at offset 0. */
  function RewriteCountryCode(s: string): string {
    if StartsWith(s, "+254") then "0" + s[4..]
    else if StartsWith(s, "254") then "0" + s[3..]
    else s
  }

  /**
   * `normalizePhone`: the Kenyan country code at the very start becomes the trunk prefix
   * "0", then everything but digits and '+' is dropped.
   */
  function NormalizePhone(s: string): (r: string)
    ensures forall k :: 0 <= k < |r| ==> IsDigit(r[k]) || r[k] == '+'
    ensures '|' !in r && ',' !in r
    ensures Trim(r) == r
    ensures r == KeepDialable(RewriteCountryCode(s))
  {
    var kept := KeepDialable(RewriteCountryCode(s));
    assert |kept| > 0 ==> !IsSpace(kept[0]) && !IsSpace(kept[|kept| - 1]);
    assert Trim(kept) == kept;
    Trim(kept)
  }

  /** "+254…", "254…" and "0…" spellings of one subscriber number normalise alike. */
  lemma InternationalAndLocalAgree(x: string)
    ensures NormalizePhone("+254" + x) == NormalizePhone("0" + x)
    ensures NormalizePhone("254" + x) == NormalizePhone("0" + x)
  {
    var international := "+254" + x;
    var bare := "254" + x;
    var local := "0" + x;
    assert RewriteCountryCode(international) == local by {
      assert international[..4] == "+254";
      assert international[4..] == x;
    }
    assert RewriteCountryCode(bare) == local by {
      assert bare[0] == '2';
      assert bare[..3] == "254";
      assert bare[3..] == x;
    }
    assert RewriteCountryCode(local) == local by {
      assert local[0] == '0';
    }
  }

  /**
   * The rewrite only looks at the raw start: a country code behind punctuation
   * survives, so normalising is not idempotent.
   */
  lemma RewriteOnlyAtStart()
    ensures NormalizePhone("(254)7") == "2547"
    ensures NormalizePhone(NormalizePhone("(254)7")) == "07"
  {
    var raw := "(254)7";
    assert raw[0] == '(';
    assert RewriteCountryCode(raw) == raw;
    assert KeepDialable("7") == "7" by { assert "7"[1..] == ""; }
    assert KeepDialable(")7") == "7" by { assert ")7"[1..] == "7"; }
    assert KeepDialable("4)7") == "47" by { assert "4)7"[1..] == ")7"; }
    assert KeepDialable("54)7") == "547" by { assert "54)7"[1..] == "4)7"; }
    assert KeepDialable("254)7") == "2547" by { assert "254)7"[1..] == "54)7"; }
    assert KeepDialable(raw) == "2547" by { assert raw[1..] == "254)7"; }
    var once := "2547";
    assert once[0] == '2' && once[..3] == "254" && once[3..] == "7";
    assert RewriteCountryCode(once) == "07";
    assert KeepDialable("07") == "07" by { assert "07"[1..] == "7"; }
  }

  /** The non-blank members of `xs`, in order. */
  function NonBlank(xs: seq<string>): (r: seq<string>)
    ensures forall s :: s in r <==> s in xs && !IsBlank(s)
  {
    if |xs| == 0 then []
    else (if IsBlank(xs[0]) then [] else [xs[0]]) + NonBlank(xs[1..])
  }

  function NormalizeEach(entries: seq<string>): (r: seq<string>)
    ensures |r| == |entries|
    ensures forall k :: 0 <= k < |r| ==> r[k] == NormalizePhone(Trim(entries[k]))
  {
    seq(|entries|, k requires 0 <= k < |entries| => NormalizePhone(Trim(entries[k])))
  }

  /** Lines 26-29: the comma-separated entries, each trimmed and normalised, blank ones dropped. */
  function AllowList(raw: string): (r: seq<string>)
    ensures forall s :: s in r <==> s in NormalizeEach(Split(raw, ',')) && !IsBlank(s)
  {
    NonBlank(NormalizeEach(Split(raw, ',')))
  }

  // ---------------------------------------------------------------- authorisation

  /** What the receiver holds once the sender is authorised: the normalised sender and the trimmed PIN. */
  datatype Credentials = Credentials(sender: string, pin: string)

  /** Lines 24-39: trigger enabled, non-empty allow-list, non-blank PIN, listed sender. */
  function Authorize(p: Prefs, sender: Option<string>): (r: Option<Credentials>)
    ensures r.Some? <==>
      && p.smsTriggerEnabled
      && p.allowedSenders.Some?
      && |AllowList(p.allowedSenders.value)| > 0
      && p.pin.Some? && !IsBlank(Trim(p.pin.value))
      && sender.Some?
      && NormalizePhone(Trim(sender.value)) in AllowList(p.allowedSenders.value)
    ensures r.Some? ==> r.value.pin == Trim(p.pin.value) && !IsBlank(r.value.pin)
    ensures r.Some? ==> r.value.sender == NormalizePhone(Trim(sender.value)) && !IsBlank(r.value.sender)
  {
    if !p.smsTriggerEnabled then None
    else match p.allowedSenders
      case None => None
      case Some(raw) =>
        var allowed := AllowList(raw);
        if |allowed| == 0 then None
        else match p.pin
          case None => None
          case Some(stored) =>
            var pin := Trim(stored);
            if IsBlank(pin) then None
            else match sender
              case None => None
              case Some(address) =>
                var from := NormalizePhone(Trim(address));
                if from !in allowed then None
                else Some(Credentials(from, pin))
  }

  // ---------------------------------------------------------------- body parsing

  function TrimAll(xs: seq<string>): (r: seq<string>)
    ensures |r| == |xs|
    ensures forall k :: 0 <= k < |r| ==> r[k] == Trim(xs[k])
  {
    seq(|xs|, k requires 0 <= k < |xs| => Trim(xs[k]))
  }

  /** The trimmed segments the receiver reads: the trimmed body split on '|', each segment trimmed. */
  function Segments(body: string): (r: seq<string>)
    ensures |r| >= 1
  {
    TrimAll(Split(Trim(body), '|'))
  }

  /** The fields of a request that its mode uses are all non-blank. */
  predicate Complete(req: Request) {
    match req
    case SendMoneyRequest(phone, amount) => !IsBlank(phone) && !IsBlank(amount)
    case TillRequest(till, amount) => !IsBlank(till) && !IsBlank(amount)
    case PaybillRequest(business, amount, account) => !IsBlank(business) && !IsBlank(amount) && !IsBlank(account)
    case WithdrawRequest(agent, amount, store) => !IsBlank(agent) && !IsBlank(amount) && !IsBlank(store)
  }

  /** A complete request has a non-blank value in every field its mode uses. */
  lemma CompleteUsedFields(req: Request)
    requires Complete(req)
    ensures forall f :: f in UsedFields(ModeOf(req)) ==> !IsBlank(RequestField(req, f))
  {
  }

  /** The first segment's tag, compared ignoring case. */
  datatype Tag = SM | BG | PB | WA | NoTag

  function TagOf(seg: string): (t: Tag)
    ensures t == SM <==> EqualsIgnoreCase(seg, "SM")
    ensures t == BG <==> EqualsIgnoreCase(seg, "BG")
    ensures t == PB <==> EqualsIgnoreCase(seg, "PB")
    ensures t == WA <==> EqualsIgnoreCase(seg, "WA")
  {
    // The four tags already differ in their first letter.
    assert LowerChar('S') == 's' && LowerChar('B') == 'b' && LowerChar('P') == 'p' && LowerChar('W') == 'w';
    assert EqualsIgnoreCase(seg, "SM") ==> LowerChar(seg[0]) == 's';
    assert EqualsIgnoreCase(seg, "BG") ==> LowerChar(seg[0]) == 'b';
    assert EqualsIgnoreCase(seg, "PB") ==> LowerChar(seg[0]) == 'p';
    assert EqualsIgnoreCase(seg, "WA") ==> LowerChar(seg[0]) == 'w';
    if EqualsIgnoreCase(seg, "SM") then SM
    else if EqualsIgnoreCase(seg, "BG") then BG
    else if EqualsIgnoreCase(seg, "PB") then PB
    else if EqualsIgnoreCase(seg, "WA") then WA
    else NoTag
  }

  /**
   * Lines 45-91 on the trimmed segments: the `when` branches in source order. `sender`
   * is the normalised sender, the phone of a two-segment `SM` message.
   */
  function Dispatch(parts: seq<string>, sender: string): (r: Option<Request>)
    requires |parts| >= 1
    ensures r.Some? ==> Complete(r.value)
    ensures r.Some? && r.value.SendMoneyRequest? ==>
      && TagOf(parts[0]) == SM && |parts| >= 2
      && r.value.phone == (if |parts| >= 3 then Trim(parts[1]) else sender)
      && r.value.amount == Trim(parts[if |parts| >= 3 then 2 else 1])
    ensures r.Some? && r.value.TillRequest? ==>
      TagOf(parts[0]) == BG && |parts| >= 3 && r.value == TillRequest(parts[1], parts[2])
    ensures r.Some? && r.value.PaybillRequest? ==>
      TagOf(parts[0]) == PB && |parts| >= 4 && r.value == PaybillRequest(parts[1], parts[2], parts[3])
    ensures r.Some? && r.value.WithdrawRequest? ==>
      TagOf(parts[0]) == WA && |parts| >= 4 && r.value == WithdrawRequest(parts[1], parts[2], parts[3])
  {
    match TagOf(parts[0])
    case SM =>
      if |parts| >= 2 then
        var phone := if |parts| >= 3 then Trim(parts[1]) else sender;
        var amount := if |parts| >= 3 then Trim(parts[2]) else Trim(parts[1]);
        if !IsBlank(amount) && !IsBlank(phone) then Some(SendMoneyRequest(phone, amount)) else None
      else None
    case BG =>
      if |parts| >= 3 then
        var till := parts[1];
        var amount := parts[2];
        if !IsBlank(till) && !IsBlank(amount) then Some(TillRequest(till, amount)) else None
      else None
    case PB =>
      if |parts| >= 4 then
        var business := parts[1];
        var amount := parts[2];
        var account := parts[3];
        if !IsBlank(business) && !IsBlank(amount) && !IsBlank(account) then
          Some(PaybillRequest(business, amount, account))
        else None
      else None
    case WA =>
      if |parts| >= 4 then
        var agent := parts[1];
        var amount := parts[2];
        var store := parts[3];
        if !IsBlank(agent) && !IsBlank(amount) && !IsBlank(store) then
          Some(WithdrawRequest(agent, amount, store))
        else None
      else None
    case NoTag => None
  }

  /** Lines 41-45: a blank body is dropped, otherwise its trimmed segments are dispatched. */
  function ParseBody(body: string, sender: string): (r: Option<Request>)
    ensures r.Some? ==> Complete(r.value)
  {
    var b := Trim(body);
    if IsBlank(b) then None
    else Dispatch(TrimAll(Split(b, '|')), sender)
  }

  /** A first segment that is none of the four tags, in any letter case, never starts a session. */
  lemma UnknownTagIgnored(body: string, sender: string)
    requires TagOf(Segments(body)[0]) == NoTag
    ensures ParseBody(body, sender).None?
  {
  }

  /**
   * The segment mapping, both directions: `SM` with three or more segments reads
   * phone and amount from segments 1 and 2, with exactly two it takes the sender as
   * phone; `BG`, `PB` and `WA` read their fields from fixed positions; any blank
   * required field, too few segments or another tag yields nothing.
   */
  lemma {:induction false} ParseBodyMapping(body: string, sender: string)
    requires !IsBlank(sender)
    ensures var segs := Segments(body);
      ParseBody(body, sender) ==
        match TagOf(segs[0])
        case SM =>
          if |segs| >= 3 && !IsBlank(segs[1]) && !IsBlank(segs[2]) then Some(SendMoneyRequest(segs[1], segs[2]))
          else if |segs| == 2 && !IsBlank(segs[1]) then Some(SendMoneyRequest(sender, segs[1]))
          else None
        case BG =>
          if |segs| >= 3 && !IsBlank(segs[1]) && !IsBlank(segs[2]) then Some(TillRequest(segs[1], segs[2])) else None
        case PB =>
          if |segs| >= 4 && !IsBlank(segs[1]) && !IsBlank(segs[2]) && !IsBlank(segs[3]) then
            Some(PaybillRequest(segs[1], segs[2], segs[3]))
          else None
        case WA =>
          if |segs| >= 4 && !IsBlank(segs[1]) && !IsBlank(segs[2]) && !IsBlank(segs[3]) then
            Some(WithdrawRequest(segs[1], segs[2], segs[3]))
          else None
        case NoTag => None
  {
    var segs := Segments(body);
    var b := Trim(body);
    if IsBlank(b) {
      assert b == [];
      assert Split(b, '|') == [""];
      assert segs == [""];
      assert Lower("") == "";
      assert TagOf("") == NoTag;
    } else {
      assert segs == TrimAll(Split(b, '|'));
      forall k | 0 <= k < |segs|
        ensures Trim(segs[k]) == segs[k]
      {
        TrimIdempotent(Split(b, '|')[k]);
      }
      DispatchTrimmed(segs, sender);
    }
  }

  /** On segments that are already trimmed, `Dispatch` reads its fields as they stand. */
  lemma DispatchTrimmed(segs: seq<string>, sender: string)
    requires |segs| >= 1 && !IsBlank(sender)
    requires forall k :: 0 <= k < |segs| ==> Trim(segs[k]) == segs[k]
    ensures Dispatch(segs, sender) ==
      match TagOf(segs[0])
      case SM =>
        if |segs| >= 3 && !IsBlank(segs[1]) && !IsBlank(segs[2]) then Some(SendMoneyRequest(segs[1], segs[2]))
        else if |segs| == 2 && !IsBlank(segs[1]) then Some(SendMoneyRequest(sender, segs[1]))
        else None
      case BG =>
        if |segs| >= 3 && !IsBlank(segs[1]) && !IsBlank(segs[2]) then Some(TillRequest(segs[1], segs[2])) else None
      case PB =>
        if |segs| >= 4 && !IsBlank(segs[1]) && !IsBlank(segs[2]) && !IsBlank(segs[3]) then
          Some(PaybillRequest(segs[1], segs[2], segs[3]))
        else None
      case WA =>
        if |segs| >= 4 && !IsBlank(segs[1]) && !IsBlank(segs[2]) && !IsBlank(segs[3]) then
          Some(WithdrawRequest(segs[1], segs[2], segs[3]))
        else None
      case NoTag => None
  {
    if |segs| >= 3 {
      assert Trim(segs[1]) == segs[1] && Trim(segs[2]) == segs[2];
    } else if |segs| == 2 {
      assert Trim(segs[1]) == segs[1];
    }
  }

  // ---------------------------------------------------------------- session start

  /**
   * `startUssdFromSms`: the fresh record (pending, empty state, mode, amount, PIN, the
   * mode's fields and "" for the others), with `pending` reset when the dial intent
   * could not be started (`dialOk` says whether the `try` block around `startActivity`
   * and the `Toast` completed).
   */
  function StartSession(p: Prefs, pin: string, req: Request, dialOk: bool): (r: Prefs)
    ensures r.pending == dialOk && r.state == Idle
    ensures r.mode == ModeOf(req) && r.pin == Some(pin)
    ensures forall f :: FieldValue(r, f) == RequestField(req, f)
    ensures forall f :: f !in UsedFields(r.mode) ==> FieldValue(r, f) == ""
    ensures r.confirmSend == p.confirmSend && r.confirmRetry == p.confirmRetry
    ensures r.smsTriggerEnabled == p.smsTriggerEnabled && r.allowedSenders == p.allowedSenders
  {
    var written := p.(
      pending := true, state := Idle, mode := ModeOf(req),
      amount := req.amount, pin := Some(pin),
      phone := RequestField(req, PhoneField), till := RequestField(req, TillField),
      business := RequestField(req, BusinessField), account := RequestField(req, AccountField),
      agent := RequestField(req, AgentField), store := RequestField(req, StoreField));
    if dialOk then written else written.(pending := false)
  }

  /** `onReceive` from the store, the sender and the body to the new store. */
  function Receive(p: Prefs, sender: Option<string>, body: string, dialOk: bool): (r: Prefs)
    ensures Authorize(p, sender).None? ==> r == p
    ensures Authorize(p, sender).Some? && ParseBody(body, Authorize(p, sender).value.sender).None? ==> r == p
  {
    match Authorize(p, sender)
    case None => p
    case Some(c) =>
      match ParseBody(body, c.sender)
      case None => p
      case Some(req) => StartSession(p, c.pin, req, dialOk)
  }

  /** Whether the message starts a session (dial outcome aside). */
  predicate Starts(p: Prefs, sender: Option<string>, body: string) {
    Authorize(p, sender).Some? && ParseBody(body, Authorize(p, sender).value.sender).Some?
  }

  /**
   * A started session is written with `pending` exactly when the dial succeeded, an
   * empty step, the trimmed stored PIN and non-blank values in every field its mode
   * uses; no dangling pending session remains after a failed dial.
   */
  lemma {:induction false} StartedSessionRecord(p: Prefs, sender: Option<string>, body: string, dialOk: bool)
    requires Starts(p, sender, body)
    ensures var r := Receive(p, sender, body, dialOk);
      && r.pending == dialOk
      && r.state == Idle
      && r.pin == Some(Trim(p.pin.value)) && !IsBlank(r.pin.value)
      && r.mode != OtherMode
      && (forall f :: f in UsedFields(r.mode) ==> !IsBlank(FieldValue(r, f)))
      && (forall f :: f !in UsedFields(r.mode) ==> FieldValue(r, f) == "")
  {
    var c := Authorize(p, sender).value;
    var req := ParseBody(body, c.sender).value;
    var r := Receive(p, sender, body, dialOk);
    assert r == StartSession(p, c.pin, req, dialOk);
    assert Complete(req);
    assert req.SendMoneyRequest? || req.TillRequest? || req.PaybillRequest? || req.WithdrawRequest?;
    CompleteUsedFields(req);
    forall f | f in UsedFields(r.mode)
      ensures !IsBlank(FieldValue(r, f))
    {
      assert FieldValue(r, f) == RequestField(req, f);
    }
  }
}
