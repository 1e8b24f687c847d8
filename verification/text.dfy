/**
 * The string operations the dashboard relies on: case mapping, substring
 * search and decimal rendering of integers. Case mapping covers ASCII letters
 * only.
 */
module Text {

  predicate IsUpperAscii(c: char) { 'A' <= c <= 'Z' }
  predicate IsLowerAscii(c: char) { 'a' <= c <= 'z' }

  function LowerChar(c: char): (d: char)
    ensures !IsUpperAscii(d)
    ensures IsUpperAscii(c) ==> d as int == c as int + 32
    ensures !IsUpperAscii(c) ==> d == c
  {
    if IsUpperAscii(c) then (c as int + 32) as char else c
  }

  function UpperChar(c: char): (d: char)
    ensures !IsLowerAscii(d)
    ensures IsLowerAscii(c) ==> d as int == c as int - 32
    ensures !IsLowerAscii(c) ==> d == c
  {
    if IsLowerAscii(c) then (c as int - 32) as char else c
  }

  /** Python's `s.lower()`, restricted to ASCII letters. */
  function Lower(s: string): (r: string)
    ensures |r| == |s|
    ensures forall i :: 0 <= i < |s| ==> r[i] == LowerChar(s[i])
  {
    if s == [] then [] else [LowerChar(s[0])] + Lower(s[1..])
  }

  /** Python's `s.upper()`, restricted to ASCII letters. */
  function Upper(s: string): (r: string)
    ensures |r| == |s|
    ensures forall i :: 0 <= i < |s| ==> r[i] == UpperChar(s[i])
  {
    if s == [] then [] else [UpperChar(s[0])] + Upper(s[1..])
  }

  /** Case mapping twice is case mapping once. */
  lemma CaseMappingIdempotent(s: string)
    ensures Lower(Lower(s)) == Lower(s)
    ensures Upper(Upper(s)) == Upper(s)
  {
  }

  /** `needle` occurs in `hay` starting at index `i`. */
  predicate OccursAt(hay: string, needle: string, i: int) {
    0 <= i && i + |needle| <= |hay| && hay[i..i + |needle|] == needle
  }

  /**
   * Python's `needle in hay` for strings: scans `hay` for a position where
   * `needle` is a prefix of what remains.
   */
  function Contains(hay: string, needle: string): bool
    decreases |hay|
  {
    needle <= hay || (hay != [] && Contains(hay[1..], needle))
  }

  /** `Contains` holds exactly when `needle` occurs at some index of `hay`. */
  lemma {:induction false} ContainsIffOccurs(hay: string, needle: string)
    ensures Contains(hay, needle) <==> exists i :: OccursAt(hay, needle, i)
    decreases |hay|
  {
    if needle <= hay {
      assert OccursAt(hay, needle, 0);
    } else if hay == [] {
    } else {
      ContainsIffOccurs(hay[1..], needle);
      if Contains(hay[1..], needle) {
        var i :| OccursAt(hay[1..], needle, i);
        assert hay[i + 1..i + 1 + |needle|] == hay[1..][i..i + |needle|];
        assert OccursAt(hay, needle, i + 1);
      }
      if exists i :: OccursAt(hay, needle, i) {
        var i :| OccursAt(hay, needle, i);
        if i > 0 {
          assert hay[1..][i - 1..i - 1 + |needle|] == hay[i..i + |needle|];
          assert OccursAt(hay[1..], needle, i - 1);
        }
      }
    }
  }

  function DigitChar(d: nat): (c: char)
    requires d < 10
    ensures '0' <= c <= '9'
    ensures c as int - '0' as int == d
  {
    ('0' as int + d) as char
  }

  /** The decimal digits of `n`, most significant first, without leading zeros. */
  function NatDigits(n: nat): (s: string)
    ensures |s| >= 1
    ensures forall i :: 0 <= i < |s| ==> '0' <= s[i] <= '9'
    ensures |s| > 1 ==> s[0] != '0'
  {
    if n < 10 then [DigitChar(n)] else NatDigits(n / 10) + [DigitChar(n % 10)]
  }

  /** Reads back a string of decimal digits. */
  function DigitsValue(s: string): nat
    requires forall i :: 0 <= i < |s| ==> '0' <= s[i] <= '9'
  {
    if s == [] then 0
    else DigitsValue(s[..|s| - 1]) * 10 + (s[|s| - 1] as int - '0' as int)
  }

  /** Decimal rendering loses nothing: reading the digits back gives `n`. */
  lemma {:induction false} NatDigitsRoundTrip(n: nat)
    ensures DigitsValue(NatDigits(n)) == n
  {
    if n >= 10 {
      var s := NatDigits(n);
      assert s[..|s| - 1] == NatDigits(n / 10);
      NatDigitsRoundTrip(n / 10);
    }
  }

  /**
   * `s` is the canonical decimal text of `n`: digits only, at least one,
   * no leading zero, reading back to `n`.
   */
  predicate Decimal(s: string, n: nat) {
    && |s| >= 1
    && (forall i :: 0 <= i < |s| ==> '0' <= s[i] <= '9')
    && (|s| > 1 ==> s[0] != '0')
    && DigitsValue(s) == n
  }

  lemma {:induction false} LeadingDigitPositive(s: string)
    requires |s| >= 1 && forall i :: 0 <= i < |s| ==> '0' <= s[i] <= '9'
    requires s[0] != '0'
    ensures DigitsValue(s) >= 1
  {
    if |s| > 1 {
      LeadingDigitPositive(s[..|s| - 1]);
    }
  }

  /**
   * A number has exactly one canonical decimal text, and `NatDigits`
   * produces it.
   */
  lemma {:induction false} DecimalIffNatDigits(s: string, n: nat)
    ensures Decimal(s, n) <==> s == NatDigits(n)
    decreases |s|
  {
    NatDigitsRoundTrip(n);
    if Decimal(s, n) {
      if |s| > 1 {
        DecimalInit(s, n);
        DecimalIffNatDigits(s[..|s| - 1], n / 10);
        assert s == s[..|s| - 1] + [s[|s| - 1]];
      } else {
        DecimalSingle(s, n);
      }
    }
  }

  /** A canonical text of one digit is that digit. */
  lemma DecimalSingle(s: string, n: nat)
    requires Decimal(s, n) && |s| == 1
    ensures n < 10 && s == [DigitChar(n)]
  {
    assert s[..0] == [] && DigitsValue(s[..0]) == 0;
    assert DigitsValue(s) == DigitsValue(s[..0]) * 10 + (s[0] as int - '0' as int);
    assert s[0] == DigitChar(n);
  }

  /** Dropping the last digit of a canonical text leaves the canonical text of `n / 10`. */
  lemma DecimalInit(s: string, n: nat)
    requires Decimal(s, n) && |s| > 1
    ensures n >= 10
    ensures Decimal(s[..|s| - 1], n / 10)
    ensures s[|s| - 1] == DigitChar(n % 10)
  {
    var init := s[..|s| - 1];
    LeadingDigitPositive(init);
    assert n == DigitsValue(init) * 10 + (s[|s| - 1] as int - '0' as int);
  }

  /** Python's `str(n)` for an integer: an optional minus sign, then the digits. */
  function IntDigits(n: int): (s: string)
    ensures n >= 0 ==> Decimal(s, n)
    ensures n < 0 ==> |s| >= 2 && s[0] == '-' && Decimal(s[1..], -n)
  {
    if n >= 0 then
      NatDigitsRoundTrip(n);
      NatDigits(n)
    else
      NatDigitsRoundTrip(-n);
      assert ("-" + NatDigits(-n))[1..] == NatDigits(-n);
      "-" + NatDigits(-n)
  }
}
