/** The string operations the forms use: `includes`, `split(c)[0]`, the decimal
    rendering of numbers (`toString`) and the reading of numbers (`parseInt`, `parseFloat`). */
module Strings {
  import opened Model

  /** `sub` occurs in `s` starting at position `i`. */
  ghost predicate OccursAt(s: string, sub: string, i: int)
  {
    0 <= i <= |s| - |sub| && s[i..i + |sub|] == sub
  }

  /** `sub` occurs in `s` at some position. */
  ghost predicate Occurs(s: string, sub: string)
  {
    exists i :: OccursAt(s, sub, i)
  }

  /** `s.includes(sub)`, computed left to right. */
  function Contains(s: string, sub: string): (r: bool)
    ensures r <==> Occurs(s, sub)
  {
    if |sub| > |s| then false
    else if s[..|sub|] == sub then
      assert OccursAt(s, sub, 0);
      true
    else
      var r := Contains(s[1..], sub);
      assert r ==> Occurs(s, sub) by {
        if r {
          var j :| OccursAt(s[1..], sub, j);
          assert s[j + 1..j + 1 + |sub|] == s[1..][j..j + |sub|];
          assert OccursAt(s, sub, j + 1);
        }
      }
      assert Occurs(s, sub) ==> r by {
        if Occurs(s, sub) {
          var i :| OccursAt(s, sub, i);
          assert i != 0;
          assert s[1..][i - 1..i - 1 + |sub|] == s[i..i + |sub|];
          assert OccursAt(s[1..], sub, i - 1);
        }
      }
      r
  }

  /** `includes` of a one-character string is membership of that character. */
  lemma ContainsChar(s: string, c: char)
    ensures Contains(s, [c]) <==> c in s
  {
    if c in s {
      var i :| 0 <= i < |s| && s[i] == c;
      assert s[i..i + 1] == [c];
      assert OccursAt(s, [c], i);
    }
    if Contains(s, [c]) {
      var i :| OccursAt(s, [c], i);
      assert s[i..i + 1][0] == s[i];
    }
  }

  /** `s.split(c)[0]`: the part of `s` before the first `c`, or all of `s` when there is none. */
  function BeforeFirst(s: string, c: char): (r: string)
    ensures r <= s
    ensures c !in r
    ensures c in s ==> |r| < |s| && s[|r|] == c
    ensures c !in s ==> r == s
  {
    if s == [] then []
    else if s[0] == c then []
    else [s[0]] + BeforeFirst(s[1..], c)
  }

  /** The decimal digit for `d`. */
  function Digit(d: nat): (c: char)
    requires d < 10
    ensures '0' <= c <= '9'
  {
    ('0' as int + d) as char
  }

  /** All characters are decimal digits. */
  predicate IsDigits(s: string)
  {
    forall i :: 0 <= i < |s| ==> '0' <= s[i] <= '9'
  }

  /** The value of a string of decimal digits, most significant first. */
  function DigitsValue(s: string): nat
    requires IsDigits(s)
  {
    if s == [] then 0 else DigitsValue(s[..|s| - 1]) * 10 + (s[|s| - 1] as int - '0' as int)
  }

  /** `n.toString()` for a non-negative integer: its decimal digits without leading zeros. */
  function NatToString(n: nat): (r: string)
    ensures |r| >= 1 && IsDigits(r)
    ensures r[0] == '0' ==> r == "0"
  {
    if n < 10 then [Digit(n)] else NatToString(n / 10) + [Digit(n % 10)]
  }

  /** Reading the digits back gives the number: `NatToString` loses nothing. */
  lemma {:induction false} NatToStringRoundTrip(n: nat)
    ensures DigitsValue(NatToString(n)) == n
  {
    if n >= 10 {
      var r := NatToString(n);
      assert r[..|r| - 1] == NatToString(n / 10);
      NatToStringRoundTrip(n / 10);
      assert r[|r| - 1] == Digit(n % 10);
    }
  }

  /** `n.toString()` for any integer: a minus sign, then the digits of the magnitude. */
  function IntToString(n: int): (r: string)
    ensures |r| >= 1
    ensures n < 0 <==> r[0] == '-'
  {
    if n < 0 then "-" + NatToString(-n) else NatToString(n)
  }

  /** `(cents / 100).toString()` as JavaScript prints a number with at most two decimals:
      the whole part, then the fraction without trailing zeros, and no point for a whole amount. */
  function CentsToString(cents: int): (r: string)
    ensures |r| >= 1
    ensures cents < 0 <==> r[0] == '-'
  {
    if cents < 0 then "-" + PriceText(-cents) else PriceText(cents)
  }

  /** The printed magnitude of a price: whole part, then the cents part, if any. */
  function PriceText(magnitude: nat): (r: string)
    ensures |r| >= 1 && IsDigit(r[0])
  {
    NatToString(magnitude / 100) + FractionText(magnitude % 100)
  }

  /** Price magnitudes as the edit form shows them: 24.99 and 10. */
  lemma PriceTextExamples()
    ensures PriceText(2499) == "24.99" && PriceText(1000) == "10"
  {
    assert NatToString(24) == NatToString(2) + [Digit(4)] == "24";
    assert FractionText(99) == ".99";
    assert NatToString(10) == NatToString(1) + [Digit(0)] == "10";
    assert FractionText(0) == "";
  }

  /** Magnitudes under ten: 7.5 keeps one decimal, 0.05 keeps its leading zero. */
  lemma SmallPriceTextExamples()
    ensures PriceText(750) == "7.5" && PriceText(5) == "0.05"
  {
    assert NatToString(7) == "7" && FractionText(50) == ".5";
    assert NatToString(0) == "0" && FractionText(5) == ".05";
  }

  /** Prices as the edit form shows them, a negative one included. */
  lemma CentsToStringExamples()
    ensures CentsToString(2499) == "24.99" && CentsToString(1000) == "10"
    ensures CentsToString(750) == "7.5" && CentsToString(-5) == "-0.05"
  {
    PriceTextExamples();
    SmallPriceTextExamples();
    assert CentsToString(-5) == "-" + PriceText(5);
  }

  // ---------------------------------------------------------------------------
  // Reading numbers back

  predicate IsDigit(c: char)
  {
    '0' <= c <= '9'
  }

  /** The value of one decimal digit. */
  function DigitValue(c: char): nat
    requires IsDigit(c)
  {
    c as int - '0' as int
  }

  /** The longest run of decimal digits at the start of `s`. */
  function LeadingDigits(s: string): (r: string)
    ensures |r| <= |s| && IsDigits(r)
  {
    if s != [] && IsDigit(s[0]) then [s[0]] + LeadingDigits(s[1..]) else []
  }

  /** `s` without a leading sign. */
  function Unsigned(s: string): string
  {
    if s != [] && (s[0] == '-' || s[0] == '+') then s[1..] else s
  }

  /** `parseInt(s)`: an optional sign, then the leading digits; no digits at all is `NaN`
      (`None`). */
  function ParseInt(s: string): (r: Option<int>)
    ensures r.None? <==> LeadingDigits(Unsigned(s)) == []
  {
    var digits := LeadingDigits(Unsigned(s));
    if digits == [] then None
    else
      var value: int := if s[0] == '-' then -(DigitsValue(digits) as int) else DigitsValue(digits);
      Some(value)
  }

  /** The cents of the digits after a decimal point: the first two, tenths first. */
  function FractionCents(frac: string): (c: nat)
    requires IsDigits(frac)
    ensures c < 100
  {
    if frac == [] then 0
    else if |frac| == 1 then DigitValue(frac[0]) * 10
    else DigitValue(frac[0]) * 10 + DigitValue(frac[1])
  }

  /** `parseFloat(s)` in cents: an optional sign, the whole digits, then an optional point
      and its digits; no digits on either side of the point is `NaN` (`None`). */
  function ParseCents(s: string): (r: Option<int>)
    ensures r.None? <==> LeadingDigits(Unsigned(s)) == [] && Fraction(Unsigned(s)) == []
  {
    var body := Unsigned(s);
    var whole := LeadingDigits(body);
    var frac := Fraction(body);
    if whole == [] && frac == [] then None
    else
      var magnitude := DigitsValue(whole) * 100 + FractionCents(frac);
      var value: int := if s[0] == '-' then -(magnitude as int) else magnitude;
      Some(value)
  }

  /** The digits after the point that follows the leading digits of `body`, if any. */
  function Fraction(body: string): (r: string)
    ensures IsDigits(r)
  {
    var rest := body[|LeadingDigits(body)|..];
    if rest != [] && rest[0] == '.' then LeadingDigits(rest[1..]) else []
  }

  /** The leading digits of a run of digits followed by a non-digit (or nothing) are that run. */
  lemma {:induction false} LeadingDigitsOf(a: string, t: string)
    requires IsDigits(a) && (t == [] || !IsDigit(t[0]))
    ensures LeadingDigits(a + t) == a
  {
    if a != [] {
      assert (a + t)[0] == a[0];
      assert (a + t)[1..] == a[1..] + t;
      LeadingDigitsOf(a[1..], t);
    } else {
      assert a + t == t;
    }
  }

  lemma DigitRoundTrip(d: nat)
    requires d < 10
    ensures IsDigit(Digit(d)) && DigitValue(Digit(d)) == d
  {
  }

  /** An unsigned run of digits is read whole. */
  lemma ReadDigits(digits: string)
    requires digits != [] && IsDigits(digits)
    ensures digits[0] != '-' && LeadingDigits(Unsigned(digits)) == digits
  {
    LeadingDigitsOf(digits, []);
    assert digits + [] == digits;
  }

  /** Behind a minus sign, a run of digits is read whole. */
  lemma ReadNegativeDigits(digits: string)
    requires digits != [] && IsDigits(digits)
    ensures ("-" + digits)[0] == '-' && LeadingDigits(Unsigned("-" + digits)) == digits
  {
    assert Unsigned("-" + digits) == digits;
    LeadingDigitsOf(digits, []);
    assert digits + [] == digits;
  }

  /** `parseInt` of a run of digits is their value. */
  lemma ParseDigits(digits: string)
    requires digits != [] && IsDigits(digits)
    ensures ParseInt(digits) == Some(DigitsValue(digits) as int)
  {
    ReadDigits(digits);
  }

  /** `parseInt` of a minus sign and a run of digits is minus their value. */
  lemma ParseNegativeDigits(digits: string)
    requires digits != [] && IsDigits(digits)
    ensures ParseInt("-" + digits) == Some(-(DigitsValue(digits) as int))
  {
    ReadNegativeDigits(digits);
  }

  /** `parseInt` of a printed non-negative integer is that integer. */
  lemma ParseNatToString(n: nat)
    ensures ParseInt(NatToString(n)) == Some(n)
  {
    NatToStringRoundTrip(n);
    ParseDigits(NatToString(n));
  }

  /** `parseInt` of a minus sign and a printed non-negative integer is minus that integer. */
  lemma ParseNegativeNatToString(n: nat)
    ensures ParseInt("-" + NatToString(n)) == Some(-(n as int))
  {
    NatToStringRoundTrip(n);
    ParseNegativeDigits(NatToString(n));
  }

  /** Reading a printed integer back gives the integer: `parseInt(n.toString()) == n`. */
  lemma IntToStringRoundTrip(n: int)
    ensures ParseInt(IntToString(n)) == Some(n)
  {
    if n < 0 {
      ParseNegativeNatToString(-n);
    } else {
      ParseNatToString(n);
    }
  }

  /** The digits of a price's cents, without trailing zeros. */
  function FractionDigits(frac: nat): (r: string)
    requires frac < 100
    ensures IsDigits(r)
  {
    if frac == 0 then ""
    else if frac % 10 == 0 then [Digit(frac / 10)]
    else [Digit(frac / 10), Digit(frac % 10)]
  }

  /** The text after the whole part of a printed price: nothing for a whole amount. */
  function FractionText(frac: nat): string
    requires frac < 100
  {
    if frac == 0 then "" else "." + FractionDigits(frac)
  }

  /** The cents digits read back as the cents. */
  lemma FractionDigitsRoundTrip(frac: nat)
    requires frac < 100
    ensures FractionCents(FractionDigits(frac)) == frac
  {
    DigitRoundTrip(frac / 10);
    DigitRoundTrip(frac % 10);
  }

  /** After the printed whole part of a price, the reader finds the printed cents digits. */
  lemma ReadPrintedPrice(digits: string, frac: nat)
    requires IsDigits(digits) && frac < 100
    ensures LeadingDigits(digits + FractionText(frac)) == digits
    ensures Fraction(digits + FractionText(frac)) == FractionDigits(frac)
  {
    var tail := FractionText(frac);
    LeadingDigitsOf(digits, tail);
    assert (digits + tail)[|digits|..] == tail;
    if frac != 0 {
      LeadingDigitsOf(FractionDigits(frac), []);
      assert FractionDigits(frac) + [] == FractionDigits(frac);
      assert tail[1..] == FractionDigits(frac);
    }
  }

  /** `parseFloat` of a printed price magnitude is that magnitude in cents. */
  lemma ParsePriceText(magnitude: nat)
    ensures ParseCents(PriceText(magnitude)) == Some(magnitude as int)
  {
    var body := PriceText(magnitude);
    assert IsDigit(body[0]);
    assert Unsigned(body) == body;
    assert body[0] != '-';
    ReadPrintedPrice(NatToString(magnitude / 100), magnitude % 100);
    FractionDigitsRoundTrip(magnitude % 100);
    NatToStringRoundTrip(magnitude / 100);
  }

  /** `parseFloat` of a minus sign and a printed price magnitude is minus that magnitude. */
  lemma ParseNegativePriceText(magnitude: nat)
    ensures ParseCents("-" + PriceText(magnitude)) == Some(-(magnitude as int))
  {
    var body := PriceText(magnitude);
    var t := "-" + body;
    assert t[0] == '-';
    assert Unsigned(t) == body;
    ReadPrintedPrice(NatToString(magnitude / 100), magnitude % 100);
    FractionDigitsRoundTrip(magnitude % 100);
    NatToStringRoundTrip(magnitude / 100);
  }

  /** A negative price is printed with a minus sign and read back with it. */
  lemma NegativeCentsRoundTrip(magnitude: nat)
    requires magnitude > 0
    ensures ParseCents(CentsToString(-(magnitude as int))) == Some(-(magnitude as int))
  {
    ParseNegativePriceText(magnitude);
  }

  /** Reading a printed price back gives the price: `parseFloat(price.toString())` is the
      same number of cents. */
  lemma CentsToStringRoundTrip(cents: int)
    ensures ParseCents(CentsToString(cents)) == Some(cents)
  {
    if cents < 0 {
      NegativeCentsRoundTrip(-cents);
    } else {
      ParsePriceText(cents);
    }
  }
}
