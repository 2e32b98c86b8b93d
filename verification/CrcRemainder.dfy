/** What the checksum of kpm/core/crc32.c is: the remainder of a division of polynomials
    over two elements by the generator of section 8 of RFC 1952.

    A polynomial is written as its coefficients, highest power first.  The register is
    reflected, so its bits, least significant first, are a polynomial in that order, and so
    are the bits of a message. */
module CrcRemainder {
  import opened Common
  import opened Crc32

  /** x^32 + x^26 + x^23 + x^22 + x^16 + x^12 + x^11 + x^10 + x^8 + x^7 + x^5 + x^4 + x^2 + x + 1 */
  predicate InGenerator(power: nat) {
    power in {32, 26, 23, 22, 16, 12, 11, 10, 8, 7, 5, 4, 2, 1, 0}
  }

  function Generator(): (g: Bits)
    ensures |g| == 33
  {
    seq(33, i requires 0 <= i < 33 => InGenerator(32 - i))
  }

  /** The product of a polynomial and the generator: the sum, over the terms of `q`, of the
      generator moved up by that term. */
  function Multiple(q: Bits): (m: Bits)
    ensures |m| == |q| + 32
  {
    if q == [] then Zeros(32)
    else Xor((if q[0] then Generator() else Zeros(33)) + Zeros(|q| - 1), [false] + Multiple(q[1..]))
  }

  /** `r` is what is left of `dividend` after division by the generator. */
  ghost predicate Remains(dividend: Bits, r: Word) {
    exists q: Bits :: IsQuotient(dividend, q, r)
  }

  predicate IsQuotient(dividend: Bits, q: Bits, r: Word) {
    |dividend| == |q| + 32 && dividend == Xor(Multiple(q), Zeros(|q|) + r)
  }

  /** The message moved up by 32 powers, with its first 32 coefficients inverted. */
  function Dividend(data: seq<Byte>): (d: Bits)
    ensures |d| == 8 * |data| + 32
  {
    Xor(Packed(data) + Zeros(32), Fill(true) + Zeros(8 * |data|))
  }

  // ---------------------------------------------------------------------------
  // The bits of a message
  // ---------------------------------------------------------------------------

  /** The number whose binary digits these are, least significant first. */
  function Value(bits: Bits): nat {
    if bits == [] then 0 else (if bits[0] then 1 else 0) + 2 * Value(bits[1..])
  }

  function TwoTo(n: nat): nat {
    if n == 0 then 1 else 2 * TwoTo(n - 1)
  }

  lemma {:induction false} BinaryValue(n: nat, width: nat)
    requires n < TwoTo(width)
    ensures Value(Binary(n, width)) == n
  {
    if width > 0 {
      BinaryValue(n / 2, width - 1);
      assert Binary(n, width)[1..] == Binary(n / 2, width - 1);
    }
  }

  /** Byte `i` of the data is the number written by bits 8i to 8i + 7 of the message. */
  lemma {:induction false} MessageBytes(data: seq<Byte>, i: nat)
    requires i < |data|
    ensures Value(Packed(data)[8 * i..8 * i + 8]) == data[i]
    decreases |data|
  {
    var n := |data| - 1;
    var front := Packed(data[..n]);
    if i == n {
      assert Packed(data)[8 * i..8 * i + 8] == ByteBits(data[n]);
      assert TwoTo(8) == 256;
      BinaryValue(data[n], 8);
    } else {
      MessageBytes(data[..n], i);
      assert Packed(data)[8 * i..8 * i + 8] == front[8 * i..8 * i + 8];
    }
  }

  // ---------------------------------------------------------------------------
  // The register divides
  // ---------------------------------------------------------------------------

  function Enter(x: Word, bit: bool): Word {
    x[0 := x[0] != bit]
  }

  /** The register after bits enter one at a time. */
  function Feed(x: Word, bits: Bits): Word
    decreases |bits|
  {
    if bits == [] then x else Feed(BitStep(Enter(x, bits[0])), bits[1..])
  }

  lemma GeneratorTail()
    ensures Generator()[0] && Generator()[1..] == Polynomial()
  {
  }

  /** One division step: the leading coefficient goes, with a multiple of the generator if it
      was set. */
  lemma DivideOnce(x: Word, bits: Bits)
    requires bits != []
    ensures var y, rest := Enter(x, bits[0]), bits[1..];
            Xor(bits + Zeros(32), x + Zeros(|bits|)) ==
            Xor((if y[0] then Generator() else Zeros(33)) + Zeros(|rest|),
                [false] + Xor(rest + Zeros(32), BitStep(y) + Zeros(|rest|)))
  {
    GeneratorTail();
    var y, rest := Enter(x, bits[0]), bits[1..];
    var g := if y[0] then Generator() else Zeros(33);
    var left := Xor(bits + Zeros(32), x + Zeros(|bits|));
    var tail := Xor(rest + Zeros(32), BitStep(y) + Zeros(|rest|));
    var right := Xor(g + Zeros(|rest|), [false] + tail);
    assert left[0] == (bits[0] != x[0]) == y[0] == g[0] == right[0];
    forall i | 0 < i < |left| ensures left[i] == right[i] {
      assert (bits + Zeros(32))[i] == (rest + Zeros(32))[i - 1];
      if i < 32 {
        assert left[i] == ((bits + Zeros(32))[i] != x[i]);
        assert BitStep(y)[i - 1] == (x[i] != (y[0] && Polynomial()[i - 1]));
      } else if i == 32 {
        assert BitStep(y)[31] == (y[0] && Polynomial()[31]);
      }
    }
  }

  lemma {:induction false} FeedDivides(x: Word, bits: Bits)
    ensures Remains(Xor(bits + Zeros(32), x + Zeros(|bits|)), Feed(x, bits))
    decreases |bits|
  {
    var dividend := Xor(bits + Zeros(32), x + Zeros(|bits|));
    if bits == [] {
      assert dividend == Xor(Multiple([]), Zeros(0) + x);
      assert IsQuotient(dividend, [], x);
    } else {
      var y, rest := Enter(x, bits[0]), bits[1..];
      hide Feed, BitStep, Enter;
      assert Feed(x, bits) == Feed(BitStep(y), rest) by {
        FeedFirst(x, bits);
      }
      FeedDivides(BitStep(y), rest);
      var inner, r := Xor(rest + Zeros(32), BitStep(y) + Zeros(|rest|)), Feed(BitStep(y), rest);
      var q: Bits :| IsQuotient(inner, q, r);
      DivideOnce(x, bits);
      QuotientFirst(dividend, y[0], inner, q, r);
    }
  }

  lemma FeedFirst(x: Word, bits: Bits)
    requires bits != []
    ensures Feed(x, bits) == Feed(BitStep(Enter(x, bits[0])), bits[1..])
  {
  }

  lemma QuotientFirst(dividend: Bits, first: bool, inner: Bits, q: Bits, r: Word)
    requires IsQuotient(inner, q, r) && |dividend| == |inner| + 1
    requires dividend == Xor((if first then Generator() else Zeros(33)) + Zeros(|q|), [false] + inner)
    ensures IsQuotient(dividend, [first] + q, r)
  {
    var more := [first] + q;
    assert more[1..] == q;
    var top := (if first then Generator() else Zeros(33)) + Zeros(|q|);
    assert Multiple(more) == Xor(top, [false] + Multiple(q));
    hide Multiple, Generator;
    var left, right := Xor(top, [false] + inner), Xor(Multiple(more), Zeros(|more|) + r);
    assert [false] + inner == Xor([false] + Multiple(q), Zeros(|more|) + r);
    forall i | 0 <= i < |left| ensures left[i] == right[i] {
    }
  }

  lemma {:induction false} FeedAppend(x: Word, a: Bits, b: Bits)
    ensures Feed(x, a + b) == Feed(Feed(x, a), b)
    decreases |a|
  {
    if a == [] {
      assert a + b == b;
    } else {
      assert (a + b)[1..] == a[1..] + b;
      FeedAppend(BitStep(Enter(x, a[0])), a[1..], b);
    }
  }

  /** Up to 32 bits that enter one at a time might as well enter together. */
  lemma {:induction false} FeedTogether(x: Word, bits: Bits)
    requires |bits| <= 32
    ensures Feed(x, bits) == BitSteps(Xor(x, bits + Zeros(32 - |bits|)), |bits|)
    decreases |bits|
  {
    if bits == [] {
      assert Xor(x, bits + Zeros(32)) == x;
    } else {
      var rest, y := bits[1..], Enter(x, bits[0]);
      var later: Word := [false] + rest + Zeros(32 - |bits|);
      FeedTogether(BitStep(y), rest);
      assert Xor(x, bits + Zeros(32 - |bits|)) == Xor(y, later);
      BitStepLinear(y, later);
      assert BitStep(later) == rest + Zeros(32 - |rest|);
      BitStepsCompose(Xor(y, later), 1, |rest|);
      assert BitSteps(Xor(y, later), 1) == BitStep(BitSteps(Xor(y, later), 0));
    }
  }

  lemma {:induction false} FoldFeeds(x: Word, data: seq<Byte>)
    ensures Fold(x, data) == Feed(x, Packed(data))
  {
    if data != [] {
      var front, b := data[..|data| - 1], data[|data| - 1];
      FoldFeeds(x, front);
      FeedAppend(x, Packed(front), ByteBits(b));
      FeedTogether(Fold(x, front), ByteBits(b));
    }
  }

  // ---------------------------------------------------------------------------
  // Remainders are unique
  // ---------------------------------------------------------------------------

  /** The first term of a product: the generator moved up by `n`, or nothing. */
  function Top(first: bool, n: nat): (t: Bits)
    ensures |t| == n + 33
  {
    (if first then Generator() else Zeros(33)) + Zeros(n)
  }

  lemma TopLinear(a: bool, b: bool, n: nat)
    ensures Xor(Top(a, n), Top(b, n)) == Top(a != b, n)
  {
    hide Generator;
  }

  lemma Regroup(a: Bits, b: Bits, c: Bits, d: Bits)
    requires |a| == |b| == |c| == |d|
    ensures Xor(Xor(a, b), Xor(c, d)) == Xor(Xor(a, c), Xor(b, d))
  {
  }

  lemma XorTail(p: Bits, q: Bits)
    requires |p| == |q| > 0
    ensures Xor(p, q)[0] == (p[0] != q[0]) && Xor(p, q)[1..] == Xor(p[1..], q[1..])
  {
  }

  lemma ShiftLinear(a: Bits, b: Bits)
    requires |a| == |b|
    ensures Xor([false] + a, [false] + b) == [false] + Xor(a, b)
  {
  }

  lemma {:induction false} MultipleLinear(p: Bits, q: Bits)
    requires |p| == |q|
    ensures Multiple(Xor(p, q)) == Xor(Multiple(p), Multiple(q))
    decreases |p|
  {
    if p == [] {
      assert Xor(p, q) == [];
    } else {
      var n, p', q' := |p| - 1, p[1..], q[1..];
      MultipleLinear(p', q');
      MultipleFirst(p);
      MultipleFirst(q);
      MultipleFirst(Xor(p, q));
      XorTail(p, q);
      ShiftLinear(Multiple(p'), Multiple(q'));
      hide Multiple, Top, Xor;
      var mp, mq := [false] + Multiple(p'), [false] + Multiple(q');
      TopLinear(p[0], q[0], n);
      Regroup(Top(p[0], n), mp, Top(q[0], n), mq);
    }
  }

  lemma MultipleFirst(q: Bits)
    requires q != []
    ensures Multiple(q) == Xor(Top(q[0], |q| - 1), [false] + Multiple(q[1..]))
  {
  }

  /** A multiple with no term above x^31 is zero. */
  lemma {:induction false} SmallMultiple(q: Bits)
    requires forall i :: 0 <= i < |q| ==> !Multiple(q)[i]
    ensures Multiple(q) == Zeros(|q| + 32)
    decreases |q|
  {
    if q != [] {
      GeneratorTail();
      assert Multiple(q)[0] == q[0];
      var rest := q[1..];
      forall i | 0 <= i < |rest| ensures !Multiple(rest)[i] {
        assert Multiple(q)[i + 1] == Multiple(rest)[i];
      }
      SmallMultiple(rest);
    }
  }

  lemma RemainderUnique(dividend: Bits, r: Word, r': Word)
    requires Remains(dividend, r) && Remains(dividend, r')
    ensures r == r'
  {
    var q: Bits :| IsQuotient(dividend, q, r);
    var q': Bits :| IsQuotient(dividend, q', r');
    var d := Xor(q, q');
    MultipleLinear(q, q');
    hide Multiple;
    forall i | 0 <= i < |dividend|
      ensures Multiple(d)[i] == if i < |q| then false else r[i - |q|] != r'[i - |q|]
    {
      assert dividend[i] == (Multiple(q)[i] != (Zeros(|q|) + r)[i]);
      assert dividend[i] == (Multiple(q')[i] != (Zeros(|q|) + r')[i]);
    }
    SmallMultiple(d);
    forall i | 0 <= i < 32 ensures r[i] == r'[i] {
      assert Multiple(d)[i + |q|] == Zeros(|d| + 32)[i + |q|];
    }
  }

  /** The checksum of any data is the inverted remainder of its dividend, and nothing else is. */
  lemma ChecksumIsRemainder(data: seq<Byte>, crc: Word)
    ensures crc == Checksum(data) <==> Remains(Dividend(data), Not(crc))
  {
    var r := Fold(Fill(true), data);
    FoldFeeds(Fill(true), data);
    FeedDivides(Fill(true), Packed(data));
    hide Feed, Fold, Remains;
    assert Remains(Dividend(data), r);
    assert Not(Not(r)) == r && Not(Not(crc)) == crc;
    if Remains(Dividend(data), Not(crc)) {
      RemainderUnique(Dividend(data), r, Not(crc));
    }
  }
}
