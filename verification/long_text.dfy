/**
 * Text of a Kotlin `Long`: the decimal rendering a string template such as
 * `"$id"` produces (`Long.toString`) and the parse `String.toLong(radix)`
 * performs (`java.lang.Long.parseLong`).
 */
module LongText {
  import opened Wrappers

  const LongMin: int := -0x8000_0000_0000_0000
  const LongMax: int := 0x7FFF_FFFF_FFFF_FFFF

  predicate IsLong(n: int) {
    LongMin <= n <= LongMax
  }

  predicate IsDigit(c: char) {
    '0' <= c <= '9'
  }

  predicate AllDigits(s: string) {
    forall i :: 0 <= i < |s| ==> IsDigit(s[i])
  }

  function DigitChar(d: nat): (c: char)
    requires d < 10
    ensures IsDigit(c) && c as int == '0' as int + d
  {
    ['0', '1', '2', '3', '4', '5', '6', '7', '8', '9'][d]
  }

  /**
   * `Character.digit(c, 36)` on ASCII: `0`-`9` stand for 0-9, and a Latin
   * letter of either case for 10-35 (`a`/`A` is 10).
   */
  function DigitOf(c: char): (d: Option<nat>)
    ensures d.Some? ==> d.value < 36
    ensures IsDigit(c) <==> d.Some? && d.value < 10
    ensures IsDigit(c) ==> d.value == c as int - '0' as int
  {
    if '0' <= c <= '9' then Some(c as int - '0' as int)
    else if 'a' <= c <= 'z' then Some(c as int - 'a' as int + 10)
    else if 'A' <= c <= 'Z' then Some(c as int - 'A' as int + 10)
    else None
  }

  /** `c` is a digit in the given radix. */
  predicate IsRadixDigit(c: char, radix: nat) {
    DigitOf(c).Some? && DigitOf(c).value < radix
  }

  predicate AllRadixDigits(s: string, radix: nat) {
    forall i :: 0 <= i < |s| ==> IsRadixDigit(s[i], radix)
  }

  /** Decimal digits of a non-negative number, most significant first, no leading zeros. */
  function Digits(n: nat): (s: string)
    ensures |s| > 0 && AllDigits(s)
    ensures |s| > 1 ==> s[0] != '0'
    decreases n
  {
    if n < 10 then [DigitChar(n)] else Digits(n / 10) + [DigitChar(n % 10)]
  }

  /** `Long.toString`: the digits, preceded by `-` for a negative number. */
  function Render(n: int): (s: string)
    ensures |s| > 0
    ensures s[0] == '-' <==> n < 0
    ensures n >= 0 ==> IsDigit(s[0])
    ensures |s| > 1 ==> s[0] != '0'
    ensures n < 0 ==> |s| > 1 && s[1] != '0'
    ensures IsDigit(s[|s| - 1])
  {
    if n < 0 then "-" + Digits(-n) else Digits(n)
  }

  /** The value of a run of digits in the given radix, most significant first. */
  function RadixValue(s: string, radix: nat): nat
    requires AllRadixDigits(s, radix)
    decreases |s|
  {
    if |s| == 0 then 0 else RadixValue(s[..|s| - 1], radix) * radix + DigitOf(s[|s| - 1]).value
  }

  /** `Long.parseLong(s, radix)` before its range check: an optional sign, then at least one digit. */
  function ParseRadix(s: string, radix: nat): (r: Option<int>)
    ensures r.Some? ==> |s| > 0
    ensures r.Some? && s[0] != '-' && s[0] != '+' ==> AllRadixDigits(s, radix) && r.value == RadixValue(s, radix)
    ensures r.None? && |s| > 0 && s[0] != '-' && s[0] != '+' ==> !AllRadixDigits(s, radix)
  {
    if |s| == 0 then None
    else if s[0] == '-' || s[0] == '+' then
      var body := s[1..];
      if |body| == 0 || !AllRadixDigits(body, radix) then None
      else
        var magnitude: int := RadixValue(body, radix);
        if s[0] == '-' then Some(-magnitude) else Some(magnitude)
    else if AllRadixDigits(s, radix) then Some(RadixValue(s, radix))
    else None
  }

  /** Signed text: accepted iff a digit run of the radix follows the sign, and then the run's value, negated after `-`. */
  lemma ParseRadixSigned(s: string, radix: nat)
    requires |s| > 0 && (s[0] == '-' || s[0] == '+')
    ensures ParseRadix(s, radix).Some? <==> |s| > 1 && AllRadixDigits(s[1..], radix)
    ensures ParseRadix(s, radix).Some? ==>
              ParseRadix(s, radix).value == (if s[0] == '-' then 0 - RadixValue(s[1..], radix) else RadixValue(s[1..], radix))
  {
  }

  /**
   * `String.toLong(radix)`, that is `java.lang.Long.parseLong`: `None` stands
   * for the `NumberFormatException` on malformed or out-of-range text.
   */
  function ParseLongRadix(s: string, radix: nat): (r: Option<int>)
    ensures r.Some? <==> ParseRadix(s, radix).Some? && IsLong(ParseRadix(s, radix).value)
    ensures r.Some? ==> r == ParseRadix(s, radix)
  {
    match ParseRadix(s, radix)
    case Some(v) => if IsLong(v) then Some(v) else None
    case None => None
  }

  /** `String.toLong()`: radix 10. */
  function ParseLong(s: string): (r: Option<int>)
    ensures r.Some? ==> IsLong(r.value)
    ensures |s| > 0 && !AllDigits(s) && s[0] != '-' && s[0] != '+' ==> r.None?
  {
    ParseLongRadix(s, 10)
  }

  lemma {:induction false} DigitsRoundTrip(n: nat)
    ensures AllRadixDigits(Digits(n), 10) && RadixValue(Digits(n), 10) == n
    decreases n
  {
    var s := Digits(n);
    assert AllRadixDigits(s, 10) by {
      forall i | 0 <= i < |s| ensures IsRadixDigit(s[i], 10) {
        assert IsDigit(s[i]);
      }
    }
    if n >= 10 {
      DigitsRoundTrip(n / 10);
      assert s[..|s| - 1] == Digits(n / 10);
      assert s[|s| - 1] == DigitChar(n % 10);
    } else {
      assert s == [DigitChar(n)];
      assert s[..0] == [];
    }
  }

  /** Parsing the rendering of any integer gives it back. */
  lemma RenderRoundTrip(n: int)
    ensures ParseRadix(Render(n), 10) == Some(n)
  {
    var s := Render(n);
    if n < 0 {
      DigitsRoundTrip(-n);
      assert s[0] == '-' && s[1..] == Digits(-n);
    } else {
      DigitsRoundTrip(n);
      assert s == Digits(n);
    }
  }

  /** `Long.toString` followed by `String.toLong` is the identity on `Long`. */
  lemma LongRoundTrip(n: int)
    requires IsLong(n)
    ensures ParseLong(Render(n)) == Some(n)
  {
    RenderRoundTrip(n);
  }

  /** Distinct numbers have distinct renderings. */
  lemma RenderInjective(a: int, b: int)
    ensures Render(a) == Render(b) ==> a == b
  {
    RenderRoundTrip(a);
    RenderRoundTrip(b);
  }
}
