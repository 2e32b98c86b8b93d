/** The IEEE CRC-32 of kpm/core/crc32.c and the errors it is certain to detect.

    A 32-bit register is written out as its 32 bits, least significant first, so
    that `>>`, `^` and `&` are bitwise operations on sequences.  The register is
    reflected: data enters at the low end and every bit step shifts right. */
module Crc32 {
  import opened Common

  type Bits = seq<bool>

  type Word = w: Bits | |w| == 32 witness Zeros(32)

  /** The bits of 0xedb88320, the polynomial of section 8 of RFC 1952. */
  function Polynomial(): Word {
    seq(32, i => i in {5, 8, 9, 15, 19, 20, 21, 23, 24, 26, 27, 29, 30, 31})
  }

  /** A word of 32 equal bits. */
  function Fill(b: bool): Word {
    seq(32, i => b)
  }

  function Zeros(n: nat): (z: Bits)
    ensures |z| == n
  {
    seq(n, i => false)
  }

  function Xor(a: Bits, b: Bits): (c: Bits)
    requires |a| == |b|
    ensures |c| == |a|
  {
    seq(|a|, i requires 0 <= i < |a| => a[i] != b[i])
  }

  function And(a: Bits, b: Bits): (c: Bits)
    requires |a| == |b|
    ensures |c| == |a|
  {
    seq(|a|, i requires 0 <= i < |a| => a[i] && b[i])
  }

  function Not(a: Word): Word {
    Xor(a, Fill(true))
  }

  function ShiftRight(a: Word): Word {
    a[1..] + [false]
  }

  /** The low `width` bits of `n`, least significant first. */
  function Binary(n: nat, width: nat): (c: Bits)
    ensures |c| == width
  {
    if width == 0 then [] else [n % 2 == 1] + Binary(n / 2, width - 1)
  }

  function ByteBits(b: Byte): (c: Bits)
    ensures |c| == 8
  {
    Binary(b, 8)
  }

  /** A byte converted to the register's width. */
  function Extend(b: Byte): Word {
    ByteBits(b) + Zeros(24)
  }

  function BitStep(x: Word): Word {
    Xor(ShiftRight(x), if x[0] then Polynomial() else Zeros(32))
  }

  /** `n` bit steps. */
  function BitSteps(x: Word, n: nat): Word {
    if n == 0 then x else BitStep(BitSteps(x, n - 1))
  }

  function ByteStep(x: Word, b: Byte): Word {
    BitSteps(Xor(x, Extend(b)), 8)
  }

  /** The register reached from `x` after every byte of `data`, in order. */
  function Fold(x: Word, data: seq<Byte>): Word {
    if data == [] then x else ByteStep(Fold(x, data[..|data| - 1]), data[|data| - 1])
  }

  function Checksum(data: seq<Byte>): Word {
    Not(Fold(Fill(true), data))
  }

  /** The two loops of spz_crc32_ieee.  The mask is the sign extension of the
      register's low bit. */
  method ChecksumIeee(data: seq<Byte>) returns (crc: Word)
    ensures crc == Checksum(data)
  {
    crc := Fill(true);
    for index := 0 to |data|
      invariant crc == Fold(Fill(true), data[..index])
    {
      assert data[..index + 1][..index] == data[..index];
      crc := Xor(crc, Extend(data[index]));
      ghost var entered := crc;
      for bit := 0 to 8
        invariant crc == BitSteps(entered, bit)
      {
        var mask := Fill(crc[0]);
        assert And(Polynomial(), mask) == if crc[0] then Polynomial() else Zeros(32);
        crc := Xor(ShiftRight(crc), And(Polynomial(), mask));
      }
    }
    assert data[..|data|] == data;
    crc := Not(crc);
  }

  // ---------------------------------------------------------------------------
  // The register step is linear and a bijection
  // ---------------------------------------------------------------------------

  lemma BitStepLinear(x: Word, y: Word)
    ensures BitStep(Xor(x, y)) == Xor(BitStep(x), BitStep(y))
  {
  }

  /** The low bit shifted out reappears as the top bit, because bit 31 of the
      polynomial is set. */
  lemma BitStepInjective(x: Word, y: Word)
    requires BitStep(x) == BitStep(y)
    ensures x == y
  {
    assert x[0] == BitStep(x)[31] == BitStep(y)[31] == y[0];
    forall i | 0 < i < 32
      ensures x[i] == y[i]
    {
      assert BitStep(x)[i - 1] == BitStep(y)[i - 1];
    }
  }

  lemma {:induction false} BitStepsLinear(x: Word, y: Word, n: nat)
    ensures BitSteps(Xor(x, y), n) == Xor(BitSteps(x, n), BitSteps(y, n))
  {
    if n > 0 {
      BitStepsLinear(x, y, n - 1);
      BitStepLinear(BitSteps(x, n - 1), BitSteps(y, n - 1));
    }
  }

  lemma {:induction false} BitStepsInjective(x: Word, y: Word, n: nat)
    requires BitSteps(x, n) == BitSteps(y, n)
    ensures x == y
  {
    if n > 0 {
      BitStepInjective(BitSteps(x, n - 1), BitSteps(y, n - 1));
      BitStepsInjective(x, y, n - 1);
    }
  }

  lemma {:induction false} BitStepsCompose(x: Word, m: nat, n: nat)
    ensures BitSteps(BitSteps(x, m), n) == BitSteps(x, m + n)
  {
    if n > 0 {
      BitStepsCompose(x, m, n - 1);
    }
  }

  /** Bits that are not yet at the low end only travel down. */
  lemma {:induction false} BitStepsTravel(w: Bits, n: nat)
    requires |w| + n == 32
    ensures BitSteps(Zeros(n) + w, n) == w + Zeros(n)
  {
    BitStepsTravelPart(w, n, n);
    assert Zeros(0) + w + Zeros(n) == w + Zeros(n);
  }

  lemma {:induction false} BitStepsTravelPart(w: Bits, n: nat, k: nat)
    requires |w| + n == 32 && k <= n
    ensures BitSteps(Zeros(n) + w, k) == Zeros(n - k) + w + Zeros(k)
  {
    if k == 0 {
      assert Zeros(n) + w + Zeros(0) == Zeros(n) + w;
    } else {
      BitStepsTravelPart(w, n, k - 1);
      var before: Word := Zeros(n - k + 1) + w + Zeros(k - 1);
      assert !before[0];
      assert ShiftRight(before) == Zeros(n - k) + w + Zeros(k);
      assert BitStep(before) == ShiftRight(before);
    }
  }

  lemma {:induction false} FoldInjective(x: Word, y: Word, data: seq<Byte>)
    requires Fold(x, data) == Fold(y, data)
    ensures x == y
  {
    if data != [] {
      var front, b := data[..|data| - 1], data[|data| - 1];
      var fx, fy := Fold(x, front), Fold(y, front);
      BitStepsInjective(Xor(fx, Extend(b)), Xor(fy, Extend(b)), 8);
      forall i | 0 <= i < 32
        ensures fx[i] == fy[i]
      {
        assert Xor(fx, Extend(b))[i] == Xor(fy, Extend(b))[i];
      }
      FoldInjective(x, y, front);
    }
  }

  lemma {:induction false} FoldAppend(x: Word, front: seq<Byte>, back: seq<Byte>)
    ensures Fold(x, front + back) == Fold(Fold(x, front), back)
  {
    if back == [] {
      assert front + back == front;
    } else {
      var init := back[..|back| - 1];
      FoldAppend(x, front, init);
      assert (front + back)[..|front + back| - 1] == front + init;
    }
  }

  // ---------------------------------------------------------------------------
  // Up to four bytes act on the register as one XOR followed by shifting
  // ---------------------------------------------------------------------------

  function Packed(data: seq<Byte>): (w: Bits)
    ensures |w| == 8 * |data|
  {
    if data == [] then [] else Packed(data[..|data| - 1]) + ByteBits(data[|data| - 1])
  }

  /** Up to four bytes as one little-endian register value. */
  function WordOf(data: seq<Byte>): Word
    requires |data| <= 4
  {
    Packed(data) + Zeros(32 - 8 * |data|)
  }

  /** The last of `|data|` bytes lands just above the bits of the others. */
  lemma WordOfSplit(x: Word, data: seq<Byte>)
    requires 0 < |data| <= 4
    ensures var n := 8 * (|data| - 1); var b := data[|data| - 1];
            Xor(x, WordOf(data)) ==
            Xor(Xor(x, WordOf(data[..|data| - 1])), Zeros(n) + ByteBits(b) + Zeros(24 - n))
  {
  }

  lemma {:induction false} FoldIsWordXor(x: Word, data: seq<Byte>)
    requires |data| <= 4
    ensures Fold(x, data) == BitSteps(Xor(x, WordOf(data)), 8 * |data|)
  {
    if data == [] {
      assert Xor(x, WordOf(data)) == x;
    } else {
      var front, b := data[..|data| - 1], data[|data| - 1];
      FoldIsWordXor(x, front);
      WordOfSplit(x, data);
      EnterLate(Xor(x, WordOf(front)), b, 8 * |front|);
    }
  }

  /** XORing a byte in after `n` bit steps is the same as XORing it in `n` bits
      higher up beforehand. */
  lemma EnterLate(base: Word, b: Byte, n: nat)
    requires n <= 24
    ensures ByteStep(BitSteps(base, n), b) ==
            BitSteps(Xor(base, Zeros(n) + ByteBits(b) + Zeros(24 - n)), n + 8)
  {
    var tail := ByteBits(b) + Zeros(24 - n);
    var late: Word := Zeros(n) + tail;
    assert Zeros(n) + ByteBits(b) + Zeros(24 - n) == late;
    BitStepsTravel(tail, n);
    assert tail + Zeros(n) == Extend(b);
    BitStepsLinear(base, late, n);
    BitStepsCompose(Xor(base, late), n, 8);
  }

  function Power2(n: nat): nat {
    if n == 0 then 1 else 2 * Power2(n - 1)
  }

  lemma {:induction false} BinaryInjective(m: nat, n: nat, width: nat)
    requires m < Power2(width) && n < Power2(width)
    requires Binary(m, width) == Binary(n, width)
    ensures m == n
  {
    if width > 0 {
      assert Binary(m, width)[0] == Binary(n, width)[0];
      assert Binary(m / 2, width - 1) == Binary(m, width)[1..] == Binary(n, width)[1..];
      BinaryInjective(m / 2, n / 2, width - 1);
    }
  }

  lemma ByteBitsInjective(a: Byte, b: Byte)
    requires ByteBits(a) == ByteBits(b)
    ensures a == b
  {
    assert Power2(8) == 2 * 2 * 2 * 2 * Power2(4) == 256;
    BinaryInjective(a, b, 8);
  }

  lemma {:induction false} PackedInjective(u: seq<Byte>, v: seq<Byte>)
    requires |u| == |v| && Packed(u) == Packed(v)
    ensures u == v
  {
    if u != [] {
      var n := |u| - 1;
      var pu, pv := Packed(u[..n]), Packed(v[..n]);
      assert pu == Packed(u)[..8 * n] == Packed(v)[..8 * n] == pv;
      assert ByteBits(u[n]) == Packed(u)[8 * n..] == Packed(v)[8 * n..] == ByteBits(v[n]);
      ByteBitsInjective(u[n], v[n]);
      PackedInjective(u[..n], v[..n]);
      assert u == u[..n] + [u[n]] && v == v[..n] + [v[n]];
    }
  }

  lemma FoldWindowInjective(x: Word, u: seq<Byte>, v: seq<Byte>)
    requires |u| == |v| <= 4
    requires Fold(x, u) == Fold(x, v)
    ensures u == v
  {
    FoldIsWordXor(x, u);
    FoldIsWordXor(x, v);
    var lu, lv := WordOf(u), WordOf(v);
    BitStepsInjective(Xor(x, lu), Xor(x, lv), 8 * |u|);
    forall i | 0 <= i < 32
      ensures lu[i] == lv[i]
    {
      assert Xor(x, lu)[i] == Xor(x, lv)[i];
    }
    assert Packed(u) == lu[..8 * |u|] == lv[..8 * |v|] == Packed(v);
    PackedInjective(u, v);
  }

  lemma ChecksumDeterminesFold(a: seq<Byte>, b: seq<Byte>)
    requires Checksum(a) == Checksum(b)
    ensures Fold(Fill(true), a) == Fold(Fill(true), b)
  {
    var fa, fb := Fold(Fill(true), a), Fold(Fill(true), b);
    forall i | 0 <= i < 32
      ensures fa[i] == fb[i]
    {
      assert Not(fa)[i] == Not(fb)[i];
    }
  }

  lemma WindowDetected(x: Word, before: seq<Byte>, u: seq<Byte>, v: seq<Byte>, after: seq<Byte>)
    requires |u| == |v| <= 4
    requires Fold(x, before + (u + after)) == Fold(x, before + (v + after))
    ensures u == v
  {
    var y := Fold(x, before);
    FoldAppend(x, before, u + after);
    FoldAppend(x, before, v + after);
    FoldAppend(y, u, after);
    FoldAppend(y, v, after);
    FoldInjective(Fold(y, u), Fold(y, v), after);
    FoldWindowInjective(y, u, v);
  }

  /** Every error confined to four consecutive bytes is detected: for every
      length and position, two equal-length strings that agree outside such a
      window have the same checksum only when they are equal. */
  lemma BurstDetected(a: seq<Byte>, b: seq<Byte>, start: nat)
    requires |a| == |b|
    requires forall i :: 0 <= i < |a| && !(start <= i < start + 4) ==> a[i] == b[i]
    ensures Checksum(a) == Checksum(b) <==> a == b
  {
    if Checksum(a) == Checksum(b) {
      var lo := if start < |a| then start else |a|;
      var hi := if lo + 4 < |a| then lo + 4 else |a|;
      ChecksumDeterminesFold(a, b);
      assert a[..lo] == b[..lo];
      assert a[hi..] == b[hi..];
      assert a == a[..lo] + (a[lo..hi] + a[hi..]);
      assert b == a[..lo] + (b[lo..hi] + a[hi..]);
      WindowDetected(Fill(true), a[..lo], a[lo..hi], b[lo..hi], a[hi..]);
    }
  }

  // ---------------------------------------------------------------------------
  // The table-driven form of section 8 of RFC 1952
  // ---------------------------------------------------------------------------

  /** Entry `low` of the 256-entry table: eight bit steps of the index. */
  function TableEntry(low: Bits): Word
    requires |low| == 8
  {
    BitSteps(low + Zeros(24), 8)
  }

  /** c = crc_table[(c ^ buf[n]) & 0xff] ^ (c >> 8) */
  function TableStep(c: Word, b: Byte): Word {
    Xor(TableEntry(Xor(c[..8], ByteBits(b))), c[8..] + Zeros(8))
  }

  function TableFold(x: Word, data: seq<Byte>): Word {
    if data == [] then x else TableStep(TableFold(x, data[..|data| - 1]), data[|data| - 1])
  }

  lemma TableStepIsByteStep(x: Word, b: Byte)
    ensures TableStep(x, b) == ByteStep(x, b)
  {
    var low: Word := Xor(x[..8], ByteBits(b)) + Zeros(24);
    var high: Word := Zeros(8) + x[8..];
    assert Xor(x, Extend(b)) == Xor(low, high);
    BitStepsLinear(low, high, 8);
    BitStepsTravel(x[8..], 8);
  }

  /** The bitwise loops compute the checksum that section 8 of RFC 1952 defines. */
  lemma {:induction false} TableFoldIsFold(x: Word, data: seq<Byte>)
    ensures TableFold(x, data) == Fold(x, data)
  {
    if data != [] {
      TableFoldIsFold(x, data[..|data| - 1]);
      TableStepIsByteStep(Fold(x, data[..|data| - 1]), data[|data| - 1]);
    }
  }
}
