/** Decimal and hexadecimal numbers on the control line: read by kpm/core/command.c,
    printed by user/kpm/command.go. */
module Numerals {
  import opened Common

  datatype Parsed = Number(value: nat) | Malformed | TooLarge

  datatype Radix = Decimal | Hex

  function Base(radix: Radix): nat {
    if radix.Decimal? then 10 else 16
  }

  predicate IsDigit(c: char, radix: Radix) {
    '0' <= c <= '9' || (radix.Hex? && ('a' <= c <= 'f' || 'A' <= c <= 'F'))
  }

  function DigitValue(c: char, radix: Radix): (d: nat)
    requires IsDigit(c, radix)
    ensures d < Base(radix)
  {
    if '0' <= c <= '9' then c as int - '0' as int
    else if 'a' <= c <= 'f' then c as int - 'a' as int + 10
    else c as int - 'A' as int + 10
  }

  predicate AllDigits(s: string, radix: Radix) {
    forall i :: 0 <= i < |s| ==> IsDigit(s[i], radix)
  }

  /** The number a digit string stands for. */
  function Value(s: string, radix: Radix): nat
    requires AllDigits(s, radix)
  {
    if s == [] then 0
    else Value(s[..|s| - 1], radix) * Base(radix) + DigitValue(s[|s| - 1], radix)
  }

  /** The first prefix that overflows decides, unless a character that is no digit comes
      before it. */
  predicate OverflowsFirst(s: string, radix: Radix) {
    exists n :: 0 <= n <= |s| && AllDigits(s[..n], radix) && Value(s[..n], radix) > UINT64_MAX
  }

  lemma {:induction false} ValueGrows(s: string, n: nat, radix: Radix)
    requires n <= |s| && AllDigits(s, radix)
    ensures AllDigits(s[..n], radix) && Value(s[..n], radix) <= Value(s, radix)
    decreases |s|
  {
    if n == |s| {
      assert s[..n] == s;
    } else {
      var t := s[..|s| - 1];
      ValueGrows(t, n, radix);
      assert t[..n] == s[..n];
      assert Value(s, radix) >= Value(t, radix) * Base(radix);
    }
  }

  /** The division in the overflow test loses nothing. */
  lemma OverflowTest(value: nat, digit: nat, radix: Radix)
    requires digit < Base(radix)
    ensures value > (UINT64_MAX - digit) / Base(radix) <==> value * Base(radix) + digit > UINT64_MAX
  {
  }

  lemma NoOverflow(s: string, index: nat, radix: Radix)
    requires index <= |s| && (index < |s| ==> !IsDigit(s[index], radix))
    requires AllDigits(s[..index], radix) && Value(s[..index], radix) <= UINT64_MAX
    ensures !OverflowsFirst(s, radix)
    ensures AllDigits(s, radix) <==> index == |s|
  {
    forall n | index < n <= |s| ensures !AllDigits(s[..n], radix) {
      assert s[..n][index] == s[index];
    }
    forall n | 0 <= n <= index ensures AllDigits(s[..n], radix) && Value(s[..n], radix) <= UINT64_MAX {
      ValueGrows(s[..index], n, radix);
      assert s[..index][..n] == s[..n];
    }
    assert s[..|s|] == s;
  }

  lemma Overflow(s: string, n: nat, radix: Radix)
    requires n <= |s| && AllDigits(s[..n], radix) && Value(s[..n], radix) > UINT64_MAX
    ensures OverflowsFirst(s, radix)
    ensures AllDigits(s, radix) ==> Value(s, radix) > UINT64_MAX
  {
    if AllDigits(s, radix) {
      ValueGrows(s, n, radix);
    }
  }

  lemma NextDigit(s: string, index: nat, radix: Radix)
    requires index < |s| && AllDigits(s[..index], radix) && IsDigit(s[index], radix)
    ensures AllDigits(s[..index + 1], radix)
    ensures Value(s[..index + 1], radix) == Value(s[..index], radix) * Base(radix) + DigitValue(s[index], radix)
  {
    assert s[..index + 1][..index] == s[..index];
  }

  /** What a digit string is read as: its value, unless a character that is no digit or an
      overflow comes first. */
  function Digits(s: string, radix: Radix): Parsed {
    if AllDigits(s, radix) && Value(s, radix) <= UINT64_MAX then Number(Value(s, radix))
    else if OverflowsFirst(s, radix) then TooLarge
    else Malformed
  }

  /** The digit loops of spz_parse_u64_decimal and spz_parse_u64_hex, after the prefix. */
  method ReadDigits(s: string, radix: Radix) returns (r: Parsed)
    ensures r.Number? <==> AllDigits(s, radix) && Value(s, radix) <= UINT64_MAX
    ensures r.Number? ==> r.value == Value(s, radix)
    ensures r == TooLarge <==> OverflowsFirst(s, radix)
    ensures r == Digits(s, radix)
  {
    hide Value, OverflowsFirst;
    var value: nat := 0;
    assert Value(s[..0], radix) == 0 by {
      EmptyValue(s[..0], radix);
    }
    for index := 0 to |s|
      invariant AllDigits(s[..index], radix) && value == Value(s[..index], radix) <= UINT64_MAX
    {
      if !IsDigit(s[index], radix) {
        NoOverflow(s, index, radix);
        return Malformed;
      }
      var digit := DigitValue(s[index], radix);
      NextDigit(s, index, radix);
      OverflowTest(value, digit, radix);
      if value > (UINT64_MAX - digit) / Base(radix) {
        Overflow(s, index + 1, radix);
        return TooLarge;
      }
      value := value * Base(radix) + digit;
    }
    assert s[..|s|] == s;
    NoOverflow(s, |s|, radix);
    r := Number(value);
  }

  lemma EmptyValue(s: string, radix: Radix)
    requires s == []
    ensures AllDigits(s, radix) && Value(s, radix) == 0
  {
  }

  function ParseDecimal(s: string): Parsed {
    if s == [] then Malformed else Digits(s, Decimal)
  }

  function ParseDecimalUpTo(s: string, limit: nat): Parsed {
    var r := ParseDecimal(s);
    if r.Number? && r.value > limit then TooLarge else r
  }

  function ParseHex(s: string): Parsed {
    if |s| < 3 || s[0] != '0' || s[1] != 'x' then Malformed else Digits(s[2..], Hex)
  }

  // ---------------------------------------------------------------------------
  // Printing
  // ---------------------------------------------------------------------------

  function DigitChar(d: nat): char
    requires d < 16
  {
    if d < 10 then '0' + d as char else 'a' + (d - 10) as char
  }

  function PrintDigits(n: nat, radix: Radix): (s: string)
    ensures s != []
  {
    if n < Base(radix) then [DigitChar(n)]
    else PrintDigits(n / Base(radix), radix) + [DigitChar(n % Base(radix))]
  }

  function PrintDecimal(n: nat): string {
    PrintDigits(n, Decimal)
  }

  function PrintHex(n: nat): string {
    "0x" + PrintDigits(n, Hex)
  }

  lemma DigitRoundTrip(d: nat, radix: Radix)
    requires d < Base(radix)
    ensures IsDigit(DigitChar(d), radix) && DigitValue(DigitChar(d), radix) == d
  {
  }

  lemma {:induction false} PrintedValue(n: nat, radix: Radix)
    ensures AllDigits(PrintDigits(n, radix), radix) && Value(PrintDigits(n, radix), radix) == n
  {
    var s := PrintDigits(n, radix);
    if n < Base(radix) {
      DigitRoundTrip(n, radix);
      assert s[..0] == [];
    } else {
      PrintedValue(n / Base(radix), radix);
      DigitRoundTrip(n % Base(radix), radix);
      assert s[..|s| - 1] == PrintDigits(n / Base(radix), radix);
    }
  }

  lemma DecimalRoundTrip(n: nat)
    requires n <= UINT64_MAX
    ensures ParseDecimal(PrintDecimal(n)) == Number(n)
  {
    PrintedValue(n, Decimal);
  }

  lemma HexRoundTrip(n: nat)
    requires n <= UINT64_MAX
    ensures ParseHex(PrintHex(n)) == Number(n)
  {
    PrintedValue(n, Hex);
    assert PrintHex(n)[2..] == PrintDigits(n, Hex);
  }

  function Pow2(k: nat): nat {
    if k == 0 then 1 else 2 * Pow2(k - 1)
  }

  lemma {:induction false} Pow2Sum(a: nat, b: nat)
    ensures Pow2(a + b) == Pow2(a) * Pow2(b)
    decreases a
  {
    if a > 0 {
      Pow2Sum(a - 1, b);
    }
  }

  lemma {:induction false} PrintedLength(n: nat, k: nat, radix: Radix)
    requires 0 < k && n < Pow2(k)
    ensures |PrintDigits(n, radix)| <= k
    decreases k
  {
    if n >= Base(radix) {
      assert n / Base(radix) <= n / 2;
      assert k > 1;
      PrintedLength(n / Base(radix), k - 1, radix);
    }
  }

  lemma Pow2Squared(k: nat, x: nat)
    requires Pow2(k) == x
    ensures Pow2(k + k) == x * x
  {
    Pow2Sum(k, k);
  }

  lemma TwoTo64(k: nat)
    requires k == 64
    ensures Pow2(k) == UINT64_MAX + 1
  {
    var a := k / 32;
    assert Pow2(a) == 2 * Pow2(a - 1) && Pow2(a - 1) == 2 * Pow2(a - 2);
    hide Pow2;
    Pow2Squared(a, 4);
    var b := a + a;
    Pow2Squared(b, 16);
    Pow2Squared(b + b, 256);
    var c := b + b + b + b;
    Pow2Squared(c, 0x1_0000);
    Pow2Squared(c + c, 0x1_0000_0000);
  }

  /** Any 64-bit number prints in at most 64 digits. */
  lemma PrintedShort(n: nat, radix: Radix)
    requires n <= UINT64_MAX
    ensures |PrintDigits(n, radix)| <= 64
  {
    hide Pow2, PrintDigits;
    var k := 64;
    TwoTo64(k);
    PrintedLength(n, k, radix);
  }
}
