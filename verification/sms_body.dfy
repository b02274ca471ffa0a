/**
 * The web client's message builder (`buildSmsBody`): the trimmed form values joined
 * with '|' behind a transaction tag, in the layout the phone's SMS trigger reads.
 */
module SmsBody {
  import opened Text

  /** The form's transaction type: one of the five listed values, or any other string. */
  datatype TransactionMode = SendMoney | Pochi | Paybill | Till | Withdraw | Unlisted(value: string)

  /** Lines 6-12: the values the form offers, in the order shown. */
  const TransactionTypes: seq<string> := ["SEND_MONEY", "POCHI", "PAYBILL", "TILL", "WITHDRAW"]

  /** The `as TransactionMode` cast followed by the `switch`: which case a type string selects. */
  function ModeOf(name: string): (m: TransactionMode)
    ensures m.Unlisted? <==> name !in TransactionTypes
  {
    if name == "SEND_MONEY" then SendMoney
    else if name == "POCHI" then Pochi
    else if name == "PAYBILL" then Paybill
    else if name == "TILL" then Till
    else if name == "WITHDRAW" then Withdraw
    else Unlisted(name)
  }

  /** The type string of a mode. */
  function NameOf(m: TransactionMode): string {
    match m
    case SendMoney => "SEND_MONEY"
    case Pochi => "POCHI"
    case Paybill => "PAYBILL"
    case Till => "TILL"
    case Withdraw => "WITHDRAW"
    case Unlisted(name) => name
  }

  /** Every type string survives the cast, and every listed mode is selected by its own string. */
  lemma ModeNameRoundTrip(name: string, m: TransactionMode)
    ensures NameOf(ModeOf(name)) == name
    ensures !m.Unlisted? ==> ModeOf(NameOf(m)) == m && NameOf(m) in TransactionTypes
  {
  }

  /** The seven value fields of the form. */
  datatype Values = Values(phone: string, till: string, business: string, account: string,
                           agent: string, store: string, amount: string)

  /** The tag each mode's message starts with (`SM` for Send Money and any unlisted type). */
  function TagText(m: TransactionMode): string {
    match m
    case Pochi => "PLB"
    case Till => "BG"
    case Paybill => "PB"
    case Withdraw => "WA"
    case _ => "SM"
  }

  /** The values after `.trim()`, which `buildSmsBody` applies to each before use. */
  function Trimmed(v: Values): Values {
    Values(Trim(v.phone), Trim(v.till), Trim(v.business), Trim(v.account),
           Trim(v.agent), Trim(v.store), Trim(v.amount))
  }

  /** The segments of a message built from already trimmed values, in the order the phone reads them. */
  function Segments(m: TransactionMode, t: Values): (r: seq<string>)
    ensures |r| >= 2 && r[0] == TagText(m)
  {
    match m
    case SendMoney => if t.phone != "" then ["SM", t.phone, t.amount] else ["SM", t.amount]
    case Pochi => ["PLB", t.phone, t.amount]
    case Till => ["BG", t.till, t.amount]
    case Paybill => ["PB", t.business, t.amount, t.account]
    case Withdraw => ["WA", t.agent, t.amount, t.store]
    case Unlisted(_) => ["SM", t.amount]
  }

  /** The segments of the message for the form values `v`. */
  function BodySegments(m: TransactionMode, v: Values): seq<string> {
    Segments(m, Trimmed(v))
  }

  /** The template strings of `buildSmsBody`, filled with already trimmed values. */
  function Template(m: TransactionMode, t: Values): string {
    match m
    case SendMoney => if t.phone != "" then "SM|" + t.phone + "|" + t.amount else "SM|" + t.amount
    case Pochi => "PLB|" + t.phone + "|" + t.amount
    case Till => "BG|" + t.till + "|" + t.amount
    case Paybill => "PB|" + t.business + "|" + t.amount + "|" + t.account
    case Withdraw => "WA|" + t.agent + "|" + t.amount + "|" + t.store
    case Unlisted(_) => "SM|" + t.amount
  }

  /** `buildSmsBody`: every value is trimmed first; a Send Money message without phone drops its segment. */
  function BuildSmsBody(m: TransactionMode, v: Values): (r: string)
    ensures r == Join(BodySegments(m, v), '|')
  {
    TemplateIsSegmentJoin(m, Trimmed(v));
    Template(m, Trimmed(v))
  }

  lemma Join2(a: string, b: string, d: char)
    ensures Join([a, b], d) == a + [d] + b
  {
    assert [a, b][1..] == [b];
  }

  lemma Join3(a: string, b: string, c: string, d: char)
    ensures Join([a, b, c], d) == a + [d] + b + [d] + c
  {
    assert [a, b, c][1..] == [b, c];
    Join2(b, c, d);
  }

  lemma Join4(a: string, b: string, c: string, e: string, d: char)
    ensures Join([a, b, c, e], d) == a + [d] + b + [d] + c + [d] + e
  {
    assert [a, b, c, e][1..] == [b, c, e];
    Join3(b, c, e, d);
  }

  /** Each template is the join of its parts. */
  lemma TemplateIsJoin(tag: string, a: string, b: string, c: string)
    ensures tag + "|" + a == Join([tag, a], '|')
    ensures tag + "|" + a + "|" + b == Join([tag, a, b], '|')
    ensures tag + "|" + a + "|" + b + "|" + c == Join([tag, a, b, c], '|')
  {
    Join2(tag, a, '|');
    Join3(tag, a, b, '|');
    Join4(tag, a, b, c, '|');
  }

  /** Each template is its segments joined with '|'. */
  lemma TemplateIsSegmentJoin(m: TransactionMode, t: Values)
    ensures Template(m, t) == Join(Segments(m, t), '|')
  {
    if m == SendMoney {
      assert "SM|" == "SM" + "|";
      TemplateIsJoin("SM", t.phone, t.amount, "");
      TemplateIsJoin("SM", t.amount, "", "");
    } else if m == Pochi {
      assert "PLB|" == "PLB" + "|";
      TemplateIsJoin("PLB", t.phone, t.amount, "");
    } else if m == Till {
      assert "BG|" == "BG" + "|";
      TemplateIsJoin("BG", t.till, t.amount, "");
    } else if m == Paybill {
      assert "PB|" == "PB" + "|";
      TemplateIsJoin("PB", t.business, t.amount, t.account);
    } else if m == Withdraw {
      assert "WA|" == "WA" + "|";
      TemplateIsJoin("WA", t.agent, t.amount, t.store);
    } else {
      assert "SM|" == "SM" + "|";
      TemplateIsJoin("SM", t.amount, "", "");
    }
  }

  /** No value carries the delimiter. */
  predicate PipeFree(v: Values) {
    && '|' !in v.phone && '|' !in v.till && '|' !in v.business && '|' !in v.account
    && '|' !in v.agent && '|' !in v.store && '|' !in v.amount
  }

  /** Trimming keeps values delimiter-free. */
  lemma TrimmedPipeFree(v: Values)
    requires PipeFree(v)
    ensures PipeFree(Trimmed(v))
  {
    TrimKeepsAbsent(v.phone, '|');
    TrimKeepsAbsent(v.till, '|');
    TrimKeepsAbsent(v.business, '|');
    TrimKeepsAbsent(v.account, '|');
    TrimKeepsAbsent(v.agent, '|');
    TrimKeepsAbsent(v.store, '|');
    TrimKeepsAbsent(v.amount, '|');
  }

  /** Delimiter-free values give delimiter-free segments. */
  lemma SegmentsPipeFree(m: TransactionMode, t: Values)
    requires PipeFree(t)
    ensures forall k :: 0 <= k < |Segments(m, t)| ==> '|' !in Segments(m, t)[k]
  {
    assert '|' !in TagText(m);
  }

  /**
   * With delimiter-free values the message splits back into exactly its segments: the
   * tag followed by the trimmed values, none lost or merged.
   */
  lemma BodySplitsIntoSegments(m: TransactionMode, v: Values)
    requires PipeFree(v)
    ensures Split(BuildSmsBody(m, v), '|') == BodySegments(m, v)
  {
    TrimmedPipeFree(v);
    SegmentsPipeFree(m, Trimmed(v));
    SplitJoin(Segments(m, Trimmed(v)), '|');
    TemplateIsSegmentJoin(m, Trimmed(v));
  }

  /** Every message carries the amount as one of its segments. */
  lemma AmountIsSegment(m: TransactionMode, t: Values)
    ensures t.amount in Segments(m, t)
  {
    if m.Unlisted? || (m == SendMoney && t.phone == "") {
      assert Segments(m, t)[1] == t.amount;
    } else {
      assert Segments(m, t)[2] == t.amount;
    }
  }

  /**
   * A delimiter inside the amount cannot survive the round trip: the split message
   * differs from the segments the form meant to send.
   */
  lemma PipeInAmountBreaksSegments(m: TransactionMode, v: Values)
    requires '|' in Trim(v.amount)
    ensures Split(BuildSmsBody(m, v), '|') != BodySegments(m, v)
  {
    AmountIsSegment(m, Trimmed(v));
    var parts := Split(BuildSmsBody(m, v), '|');
    assert forall x :: x in parts ==> '|' !in x;
  }
}
