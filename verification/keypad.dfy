/**
 * The numeric keypad drawer of the web form: a draft string edited by on-screen keys
 * and the physical keyboard while the drawer is open, committed to the field's value
 * on confirm; plus the field's display text and the contact-number normalisation.
 */
module Keypad {
  import opened Optional
  import opened Text

  /** The field's committed value, whether the drawer is open, and the draft being edited. */
  datatype Keypad = Keypad(value: string, open: bool, draft: string)

  // ---------------------------------------------------------------- draft edits

  /** `prev.slice(0, -1)`: the draft without its last character; an empty draft stays empty. */
  function DropLast(draft: string): (r: string)
    ensures |draft| == 0 ==> r == ""
    ensures |draft| > 0 ==> |r| == |draft| - 1 && r + [draft[|draft| - 1]] == draft
  {
    if |draft| == 0 then "" else draft[..|draft| - 1]
  }

  /** Lines 103-105: a keypad button appends its digit. */
  function TapDigit(k: Keypad, d: char): (r: Keypad)
    ensures r.value == k.value && r.open == k.open
    ensures |r.draft| == |k.draft| + 1 && r.draft[..|k.draft|] == k.draft && r.draft[|k.draft|] == d
  {
    k.(draft := k.draft + [d])
  }

  /** Lines 107-109: the backspace button drops the draft's last character, if any. */
  function TapBackspace(k: Keypad): (r: Keypad)
    ensures r.value == k.value && r.open == k.open
    ensures |k.draft| == 0 ==> r.draft == ""
    ensures |k.draft| > 0 ==> r.draft + [k.draft[|k.draft| - 1]] == k.draft
  {
    k.(draft := DropLast(k.draft))
  }

  /** Lines 111-113: the clear button empties the draft. */
  function TapClear(k: Keypad): (r: Keypad)
    ensures r.draft == "" && r.value == k.value && r.open == k.open
  {
    k.(draft := "")
  }

  /** Lines 115-118: the draft becomes the field's value and the drawer closes. */
  function Confirm(k: Keypad): (r: Keypad)
    ensures r.value == k.draft && !r.open
    ensures r.draft == r.value
  {
    Keypad(k.draft, false, k.draft)
  }

  /** Opening the drawer; the effect at lines 43-45 then loads the committed value into the draft. */
  function Open(k: Keypad): (r: Keypad)
    ensures r.open && r.value == k.value && r.draft == k.value
  {
    Keypad(k.value, true, k.value)
  }

  /** Dismissing the drawer without confirming: the value stays, the draft is abandoned. */
  function Dismiss(k: Keypad): Keypad {
    k.(open := false)
  }

  /** The parent sets a new value (a picked contact); an open drawer reloads its draft (lines 43-45). */
  function SetValue(k: Keypad, value: string): (r: Keypad)
    ensures r.value == value && r.open == k.open
    ensures k.open ==> r.draft == value
    ensures !k.open ==> r.draft == k.draft
  {
    Keypad(value, k.open, if k.open then value else k.draft)
  }

  /** `/^[0-9]$/.test(key)`: the key name is exactly one ASCII digit. */
  predicate IsDigitKey(key: string) {
    |key| == 1 && IsDigit(key[0])
  }

  /**
   * Lines 48-64: the window key listener, registered only while the drawer is open. A
   * digit key appends, Backspace drops the last character, Enter commits and closes, and
   * any other key is ignored.
   */
  function KeyDown(k: Keypad, key: string): (r: Keypad)
    ensures !k.open ==> r == k
    ensures k.open && !IsDigitKey(key) && key != "Backspace" && key != "Enter" ==> r == k
    ensures r.value != k.value ==> key == "Enter" && r.value == k.draft
  {
    if !k.open then k
    else if IsDigitKey(key) then k.(draft := k.draft + key)
    else if key == "Backspace" then k.(draft := DropLast(k.draft))
    else if key == "Enter" then Keypad(k.draft, false, k.draft)
    else k
  }

  /** A physical digit key does what the on-screen button for that digit does. */
  lemma DigitKeyMatchesButton(k: Keypad, d: char)
    requires k.open && IsDigit(d)
    ensures KeyDown(k, [d]) == TapDigit(k, d)
  {
  }

  /** Backspace and Enter on the keyboard do what the Backspace and confirm buttons do. */
  lemma EditingKeysMatchButtons(k: Keypad)
    requires k.open
    ensures KeyDown(k, "Backspace") == TapBackspace(k)
    ensures KeyDown(k, "Enter") == Confirm(k)
  {
    assert !IsDigitKey("Backspace") && !IsDigitKey("Enter");
  }

  /** A digit followed by backspace restores the draft. */
  lemma BackspaceUndoesDigit(k: Keypad, d: char)
    ensures TapBackspace(TapDigit(k, d)) == k
  {
    assert (k.draft + [d])[..|k.draft|] == k.draft;
  }

  /** Clearing empties the draft, and the value and drawer stay as they were. */
  lemma ClearEmptiesDraft(k: Keypad)
    ensures TapClear(k).draft == "" && TapClear(k).value == k.value && TapClear(k).open == k.open
  {
  }

  /** Opening and confirming straight away leaves the value as it was, with the drawer closed. */
  lemma OpenThenConfirmKeepsValue(k: Keypad)
    ensures Confirm(Open(k)) == Keypad(k.value, false, k.value)
  {
  }

  /** A draft abandoned by dismissing never reaches the value: reopening reloads the value. */
  lemma DismissDiscardsDraft(k: Keypad)
    ensures Open(Dismiss(k)).draft == k.value && Open(Dismiss(k)).value == k.value
  {
  }

  // ---------------------------------------------------------------- traces

  /** The inputs the drawer reacts to. */
  datatype Input =
    | OpenDrawer
    | DismissDrawer
    | Button(digit: char)
    | BackspaceButton
    | ClearButton
    | ConfirmButton
    | Key(name: string)
    | Picked(value: string)

  /** One input; the on-screen buttons exist only inside the open drawer (lines 153-256). */
  function Step(k: Keypad, i: Input): Keypad {
    match i
    case OpenDrawer => Open(k)
    case DismissDrawer => Dismiss(k)
    case Button(d) => if k.open then TapDigit(k, d) else k
    case BackspaceButton => if k.open then TapBackspace(k) else k
    case ClearButton => if k.open then TapClear(k) else k
    case ConfirmButton => if k.open then Confirm(k) else k
    case Key(name) => KeyDown(k, name)
    case Picked(v) => SetValue(k, v)
  }

  function Run(k: Keypad, inputs: seq<Input>): Keypad
    decreases |inputs|
  {
    if |inputs| == 0 then k else Run(Step(k, inputs[0]), inputs[1..])
  }

  /**
   * With the drawer closed only opening it or a picked contact changes anything: the
   * buttons are not on screen and the key listener is not registered.
   */
  lemma ClosedDrawerOnlyOpens(k: Keypad, i: Input)
    requires !k.open && !i.OpenDrawer? && !i.Picked?
    ensures Step(k, i) == k
  {
  }

  /** Inputs that only ever enter digits: the keypad buttons carry digits and no contact is picked. */
  predicate DigitInput(i: Input) {
    match i
    case Button(d) => IsDigit(d)
    case Picked(_) => false
    case _ => true
  }

  /** Value and draft both hold digits only. */
  predicate DigitsOnly(k: Keypad) {
    AllDigits(k.value) && AllDigits(k.draft)
  }

  lemma StepKeepsDigits(k: Keypad, i: Input)
    requires DigitsOnly(k) && DigitInput(i)
    ensures DigitsOnly(Step(k, i))
  {
    if i.Key? && k.open && IsDigitKey(i.name) {
      assert Step(k, i).draft == k.draft + i.name;
    }
  }

  /**
   * Without picked contacts, the keypad never lets anything but digits into the draft
   * or the committed value, over any sequence of inputs.
   */
  lemma {:induction false} KeypadEntersOnlyDigits(k: Keypad, inputs: seq<Input>)
    requires DigitsOnly(k)
    requires forall j :: 0 <= j < |inputs| ==> DigitInput(inputs[j])
    ensures DigitsOnly(Run(k, inputs))
    decreases |inputs|
  {
    if |inputs| > 0 {
      StepKeepsDigits(k, inputs[0]);
      KeypadEntersOnlyDigits(Step(k, inputs[0]), inputs[1..]);
    }
  }

  /** While the drawer is closed no key press changes anything: the listener is not registered. */
  lemma {:induction false} ClosedDrawerIgnoresKeys(k: Keypad, keys: seq<string>)
    requires !k.open
    ensures Run(k, seq(|keys|, j requires 0 <= j < |keys| => Key(keys[j]))) == k
    decreases |keys|
  {
    if |keys| > 0 {
      var inputs := seq(|keys|, j requires 0 <= j < |keys| => Key(keys[j]));
      assert inputs[1..] == seq(|keys| - 1, j requires 0 <= j < |keys| - 1 => Key(keys[1..][j]));
      ClosedDrawerIgnoresKeys(k, keys[1..]);
    }
  }

  // ---------------------------------------------------------------- display and contacts

  /**
   * Lines 120-122: nothing for an empty value (the placeholder shows), the value itself
   * without a prefix (an empty prefix counts as none), otherwise prefix, a space, value.
   */
  function FormatDisplay(raw: string, prefix: Option<string>): (r: Option<string>)
    ensures r.None? <==> raw == ""
    ensures r.Some? ==> |r.value| >= |raw| && r.value[|r.value| - |raw|..] == raw
    ensures r.Some? && prefix.Some? && prefix.value != "" ==>
      |r.value| == |prefix.value| + 1 + |raw| && r.value[..|prefix.value| + 1] == prefix.value + " "
    ensures r.Some? && (prefix.None? || prefix.value == "") ==> r.value == raw
  {
    if raw == "" then None
    else if prefix.Some? && prefix.value != "" then Some(prefix.value + " " + raw)
    else Some(raw)
  }

  /** The amount field's prefix is "KES ", so its display puts two spaces before the amount. */
  lemma AmountDisplayHasTwoSpaces(raw: string)
    requires raw != ""
    ensures FormatDisplay(raw, Some("KES ")) == Some("KES  " + raw)
  {
    assert "KES " + " " == "KES  ";
  }

  /** `replace(/\s+/g, '')`: every whitespace character removed, the rest kept in order. */
  function StripSpaces(s: string): (r: string)
    ensures |r| <= |s|
    ensures forall k :: 0 <= k < |r| ==> !IsSpace(r[k])
    ensures forall c :: !IsSpace(c) ==> multiset(r)[c] == multiset(s)[c]
  {
    if |s| == 0 then ""
    else
      assert s == [s[0]] + s[1..];
      if IsSpace(s[0]) then StripSpaces(s[1..])
      else [s[0]] + StripSpaces(s[1..])
  }

  /** Stripping a concatenation strips each part in turn, so what is kept stays in order. */
  lemma {:induction false} StripSpacesAppend(a: string, b: string)
    ensures StripSpaces(a + b) == StripSpaces(a) + StripSpaces(b)
  {
    if |a| == 0 {
      assert a + b == b;
    } else {
      assert (a + b)[0] == a[0];
      assert (a + b)[1..] == a[1..] + b;
      StripSpacesAppend(a[1..], b);
    }
  }

  lemma {:induction false} StripSpacesFixed(s: string)
    requires forall k :: 0 <= k < |s| ==> !IsSpace(s[k])
    ensures StripSpaces(s) == s
  {
    if |s| > 0 {
      StripSpacesFixed(s[1..]);
      assert [s[0]] + s[1..] == s;
    }
  }

  /** Line 90: whitespace removed, then a leading "+254" (and only a leading one) becomes "0". */
  function NormalizeTel(tel: string): (r: string)
    ensures forall k :: 0 <= k < |r| ==> !IsSpace(r[k])
    ensures !StartsWith(r, "+254")
    ensures StartsWith(StripSpaces(tel), "+254") ==> r == "0" + StripSpaces(tel)[4..]
    ensures !StartsWith(StripSpaces(tel), "+254") ==> r == StripSpaces(tel)
  {
    var s := StripSpaces(tel);
    if StartsWith(s, "+254") then
      assert ("0" + s[4..])[0] != "+254"[0];
      "0" + s[4..]
    else s
  }

  /** Normalising a normalised number changes nothing. */
  lemma NormalizeTelIdempotent(tel: string)
    ensures NormalizeTel(NormalizeTel(tel)) == NormalizeTel(tel)
  {
    StripSpacesFixed(NormalizeTel(tel));
  }

  /** Lines 88-92: a contact without a number changes nothing; otherwise its normalised number becomes the value. */
  function PickContact(k: Keypad, tel: string): (r: Keypad)
    ensures tel == "" ==> r == k
    ensures tel != "" ==> r.value == NormalizeTel(tel) && r.open == k.open
  {
    if tel != "" then SetValue(k, NormalizeTel(tel)) else k
  }
}
