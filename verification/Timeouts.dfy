/** The ceiling on an agent's tool timeouts (managed_timeouts in libexec/integrate.py). */
module Timeouts {
  import opened Common

  /** A day, in milliseconds, and as a setting. */
  const TOOL_TIMEOUT_MS: nat := 86400000
  const TOOL_TIMEOUT_TEXT: string := "86400000"

  /** The setting as it was found: missing, a string, or a value of another kind. */
  datatype Ceiling = Unset | Text(digits: string) | NotText

  datatype Environment = NoEnvironment | Environment(ceiling: Ceiling, others: Token) | NotAnObject

  /** No other variables. */
  const NO_OTHERS: Token := 0

  predicate IsDigit(c: char) { '0' <= c <= '9' }

  function Digit(c: char): nat
    requires IsDigit(c)
  {
    c as nat - '0' as nat
  }

  predicate Numeric(text: string) { text != "" && forall k :: 0 <= k < |text| ==> IsDigit(text[k]) }

  function Number(text: string): nat
    requires forall k :: 0 <= k < |text| ==> IsDigit(text[k])
  {
    if text == "" then 0 else 10 * Number(text[..|text| - 1]) + Digit(text[|text| - 1])
  }

  /** A ceiling that can be read: a numeric string of at most fifteen digits, zero if missing. */
  function Reading(c: Ceiling): Option<nat> {
    match c
    case Unset => Some(0)
    case NotText => None
    case Text(digits) => if Numeric(digits) && |digits| <= 15 then Some(Number(digits)) else None
  }

  /** A ceiling below a day is raised to it; anything unreadable is refused. */
  function Managed(e: Environment): Option<Environment> {
    match e
    case NotAnObject => None
    case NoEnvironment => Some(Environment(Text(TOOL_TIMEOUT_TEXT), NO_OTHERS))
    case Environment(ceiling, others) =>
      match Reading(ceiling)
      case None => None
      case Some(ms) => Some(if ms >= TOOL_TIMEOUT_MS then e else Environment(Text(TOOL_TIMEOUT_TEXT), others))
  }

  lemma ADayIsRead()
    ensures Reading(Text(TOOL_TIMEOUT_TEXT)) == Some(TOOL_TIMEOUT_MS)
  {
    var t := TOOL_TIMEOUT_TEXT;
    assert t[..8] == t;
    NumberOn(t, 0);
    NumberOn(t, 1);
    NumberOn(t, 2);
    NumberOn(t, 3);
    NumberOn(t, 4);
    NumberOn(t, 5);
    NumberOn(t, 6);
    NumberOn(t, 7);
  }

  lemma NumberOn(text: string, k: nat)
    requires Numeric(text) && k < |text|
    ensures Number(text[..k + 1]) == 10 * Number(text[..k]) + Digit(text[k])
    ensures k == 0 ==> Number(text[..k]) == 0
  {
    assert text[..k + 1][..k] == text[..k];
  }

  /** What is left can always be read, is at least a day, keeps every other variable, never
      lowers the ceiling, and is left as it is the next time. */
  lemma ManagedSettles(e: Environment)
    requires Managed(e).Some?
    ensures var after := Managed(e).value;
      && after.Environment? && Reading(after.ceiling).Some? && Reading(after.ceiling).value >= TOOL_TIMEOUT_MS
      && (e.Environment? ==> after.others == e.others && Reading(after.ceiling).value >= Reading(e.ceiling).value)
      && Managed(after) == Some(after)
  {
    ADayIsRead();
  }

  // ------------------------------------------------------------------- in figures

  function Power(n: nat): nat { if n == 0 then 1 else 10 * Power(n - 1) }

  predicate Decimal(text: string) { forall k :: 0 <= k < |text| ==> 48 <= text[k] as int <= 57 }

  /** What a decimal numeral stands for, digit by digit. */
  function Value(text: string): nat
    requires Decimal(text)
  {
    if text == "" then 0 else (text[0] as nat - 48) * Power(|text| - 1) + Value(text[1..])
  }

  lemma DigitsAreDecimal(text: string)
    ensures (forall k :: 0 <= k < |text| ==> IsDigit(text[k])) <==> Decimal(text)
  {
  }

  lemma {:induction false} ValueLast(text: string)
    requires Decimal(text) && text != ""
    ensures var n := |text| - 1;
      Decimal(text[..n]) && Value(text) == 10 * Value(text[..n]) + (text[n] as nat - 48)
  {
    var n := |text| - 1;
    if n > 0 {
      ValueLast(text[1..]);
      assert text[1..][..n - 1] == text[..n][1..] && Power(n) == 10 * Power(n - 1);
      LastTimesTen(text[0] as nat - 48, Power(n - 1), Value(text[..n][1..]), text[n] as nat - 48);
    }
  }

  lemma LastTimesTen(digit: nat, power: nat, value: nat, last: nat)
    ensures digit * (10 * power) + (10 * value + last) == 10 * (digit * power + value) + last
  {
  }

  lemma {:induction false} NumberExactly(text: string)
    requires Decimal(text)
    ensures (forall k :: 0 <= k < |text| ==> IsDigit(text[k])) && Number(text) == Value(text)
  {
    DigitsAreDecimal(text);
    if text != "" {
      NumberExactly(text[..|text| - 1]);
      ValueLast(text);
    }
  }

  /** A ceiling that can be read: a decimal numeral of one to fifteen digits. */
  predicate Readable(c: Ceiling) { c.Text? && 1 <= |c.digits| <= 15 && Decimal(c.digits) }

  /** The variables afterwards: refused if they are no object or the ceiling cannot be read; as
      they were if it is a day or more; and otherwise with a day for it. */
  lemma ManagedExactly(e: Environment)
    ensures Managed(e).None? <==> e.NotAnObject? || (e.Environment? && !e.ceiling.Unset? && !Readable(e.ceiling))
    ensures Managed(e).Some? ==>
      if e.Environment? && Readable(e.ceiling) && Value(e.ceiling.digits) >= 86400000
      then Managed(e) == Some(e)
      else Managed(e) == Some(Environment(Text("86400000"), if e.Environment? then e.others else NO_OTHERS))
  {
    if e.Environment? && e.ceiling.Text? {
      DigitsAreDecimal(e.ceiling.digits);
      if Decimal(e.ceiling.digits) {
        NumberExactly(e.ceiling.digits);
      }
    }
  }
}
