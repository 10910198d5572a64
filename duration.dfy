/**
 * The expiry-duration grammar of the session configuration (`"15m"`, `"7d"`):
 * one or more decimal digits followed by exactly one unit letter, and the
 * absolute expiry instant it yields from a given "now" (milliseconds).
 */
module Duration {
  import opened Text
  import opened Wrappers

  datatype Unit = Seconds | Minutes | Hours | Days

  /** Milliseconds in one unit. */
  function UnitMillis(u: Unit): (ms: nat)
    ensures ms >= 1000
  {
    match u
    case Seconds => 1000
    case Minutes => 60 * 1000
    case Hours => 60 * 60 * 1000
    case Days => 24 * 60 * 60 * 1000
  }

  function UnitLetter(u: Unit): char {
    match u
    case Seconds => 's'
    case Minutes => 'm'
    case Hours => 'h'
    case Days => 'd'
  }

  /** The character class `[smhd]`. */
  function UnitOf(c: char): (r: Option<Unit>)
    ensures r.Some? ==> UnitLetter(r.value) == c
  {
    if c == 's' then Some(Seconds)
    else if c == 'm' then Some(Minutes)
    else if c == 'h' then Some(Hours)
    else if c == 'd' then Some(Days)
    else None
  }

  datatype Span = Span(amount: nat, unit: Unit)

  /** The whole string matches `^(\d+)([smhd])$`. */
  predicate Matches(s: string) {
    |s| >= 2 && AllDigits(s[..|s| - 1]) && s[|s| - 1] in "smhd"
  }

  /** The regular-expression match and `parseInt` of the digit group; None where the match fails. */
  function Parse(s: string): (r: Option<Span>)
    ensures r.Some? <==> Matches(s)
  {
    if |s| < 2 || !AllDigits(s[..|s| - 1]) then None
    else
      match UnitOf(s[|s| - 1])
      case None => None
      case Some(u) => Some(Span(DecimalValue(s[..|s| - 1]), u))
  }

  /** The canonical spelling of a span: its amount in decimal, then its unit letter. */
  function Format(d: Span): string {
    Decimal(d.amount) + [UnitLetter(d.unit)]
  }

  /** Every span has a spelling the grammar accepts and reads back unchanged. */
  lemma FormatParse(d: Span)
    ensures Matches(Format(d))
    ensures Parse(Format(d)) == Some(d)
  {
    var s := Format(d);
    DecimalRoundTrip(d.amount);
    assert s[..|s| - 1] == Decimal(d.amount);
  }

  /**
   * The expiry instant for a configured duration string: `now + amount * unit`,
   * or None where the source throws 'Formato de expiración inválido'.
   */
  function ExpiryAt(config: string, now: nat): (r: Option<nat>)
    ensures r.Some? <==> Matches(config)
    ensures r.Some? ==> r.value >= now
  {
    match Parse(config)
    case None => None
    case Some(d) => Some(now + d.amount * UnitMillis(d.unit))
  }

  /** The expiry of a well-formed string is `now` plus the amount times the unit's milliseconds. */
  lemma ExpiryOfFormat(d: Span, now: nat)
    ensures ExpiryAt(Format(d), now) == Some(now + d.amount * UnitMillis(d.unit))
  {
    FormatParse(d);
  }

  /** A zero amount expires immediately, whatever the unit. */
  lemma ExpiryOfZero(u: Unit, now: nat)
    ensures ExpiryAt(Format(Span(0, u)), now) == Some(now)
  {
    ExpiryOfFormat(Span(0, u), now);
  }

  /** For one unit, a larger amount never expires earlier. */
  lemma ExpiryMonotone(s1: string, s2: string, now: nat)
    requires Parse(s1).Some? && Parse(s2).Some?
    requires Parse(s1).value.unit == Parse(s2).value.unit
    requires Parse(s1).value.amount <= Parse(s2).value.amount
    ensures ExpiryAt(s1, now).Some? && ExpiryAt(s2, now).Some?
    ensures ExpiryAt(s1, now).value <= ExpiryAt(s2, now).value
  {
    var a, b, k := Parse(s1).value.amount, Parse(s2).value.amount, UnitMillis(Parse(s1).value.unit);
    MultiplyMonotone(a, b, k);
  }

  lemma MultiplyMonotone(a: nat, b: nat, k: nat)
    requires a <= b
    ensures a * k <= b * k
  {
    assert b * k == a * k + (b - a) * k;
  }

  /** Strings outside the grammar are refused: a missing unit, a sign, a space, a fraction. */
  lemma RejectsMalformed()
    ensures ExpiryAt("15", 0).None?
    ensures ExpiryAt("m", 0).None?
    ensures ExpiryAt("-1m", 0).None?
    ensures ExpiryAt("1.5h", 0).None?
    ensures ExpiryAt("15 m", 0).None?
    ensures ExpiryAt("7dd", 0).None?
    ensures ExpiryAt("15M", 0).None?
  {
    assert !IsDigit("-1m"[0]);
    assert !IsDigit("1.5h"[1]);
    assert !IsDigit("15 m"[2]);
    assert !IsDigit("7dd"[1]);
  }

  /** The worked examples of the configuration: seven days and fifteen minutes. */
  lemma ConfiguredExamples(now: nat)
    ensures ExpiryAt("7d", now) == Some(now + 604800000)
    ensures ExpiryAt("15m", now) == Some(now + 900000)
  {
    assert "7d" == Format(Span(7, Days));
    ExpiryOfFormat(Span(7, Days), now);
    assert "15m"[..2] == "15";
    assert DecimalValue("15") == 15 by {
      assert "15"[..1] == "1";
      assert "1"[..0] == "";
    }
  }
}
