/** The event's argument buffer (src/common/buffer.h): saves append records to a fixed
    array and move the end only when every write has succeeded. */
module ArgBuffer {
  import opened Common

  const ARGS_BUF_SIZE := 32000
  const MAX_ELEMENT_SIZE := 110
  const MAX_BYTES_ARR_SIZE := 4096
  const MAX_STRING_SIZE := 16384
  const UTF16_BYTES := 512
  const STRARR_MAGIC_LEN := 0xffff_0000

  /** What a memory-reading helper did: whether it reported success, and what it left in
      the destination. */
  datatype ByteRead = ByteRead(ok: bool, left: nat -> Byte)

  /** The length the string helper reports, negative for an error, never above the size
      of the destination. */
  type StringLength = n: int | n <= MAX_STRING_SIZE witness 0

  datatype StringRead = StringRead(reported: StringLength, left: nat -> Byte)

  /** A saved element of fixed size, or a block with its length in front. */
  datatype Record = Element(index: Byte, data: seq<Byte>) | Block(index: Byte, size: nat, data: seq<Byte>)

  /** `count` bytes of `value`, lowest first. */
  function LittleEndian(value: nat, count: nat): (s: seq<Byte>)
    ensures |s| == count
  {
    if count == 0 then [] else [value % 256] + LittleEndian(value / 256, count - 1)
  }

  function Encode(r: Record): seq<Byte> {
    match r
    case Element(index, data) => [index] + data
    case Block(index, size, data) => [index] + LittleEndian(size, 4) + data
  }

  function EncodeAll(records: seq<Record>): seq<Byte> {
    if records == [] then [] else EncodeAll(records[..|records| - 1]) + Encode(records[|records| - 1])
  }

  /** The number of bytes that follow a length field: the helper's size argument is masked
      unless it is the maximum itself. */
  function Masked(size: nat): (n: nat)
    ensures n <= MAX_BYTES_ARR_SIZE
  {
    if size == MAX_BYTES_ARR_SIZE then size else size % MAX_BYTES_ARR_SIZE
  }

  /** The length field tells how many bytes follow, apart from the end mark of string arrays. */
  predicate Complete(r: Record) {
    match r
    case Element(_, data) => 0 < |data|
    case Block(_, size, data) =>
      |data| <= MAX_STRING_SIZE && (|data| == size || (size == STRARR_MAGIC_LEN && data == []))
  }

  predicate Fits(records: seq<Record>) {
    |EncodeAll(records)| <= ARGS_BUF_SIZE
  }

  predicate AllComplete(records: seq<Record>) {
    forall i :: 0 <= i < |records| ==> Complete(records[i])
  }

  /** The first `count` bytes left in the destination. */
  function Left(left: nat -> Byte, count: nat): (s: seq<Byte>)
    ensures |s| == count
  {
    seq(count, (i: nat) => left(i))
  }

  // ---------------------------------------------------------------------------
  // What the saves do to the records
  // ---------------------------------------------------------------------------

  datatype Saved = Saved(records: seq<Record>, ok: bool)

  function AddElement(records: seq<Record>, index: Byte, data: seq<Byte>, copied: bool): Saved {
    if data != [] && |EncodeAll(records)| <= ARGS_BUF_SIZE - (MAX_ELEMENT_SIZE + 1) && copied
    then Saved(records + [Element(index, data)], true) else Saved(records, false)
  }

  function AddBytes(records: seq<Record>, index: Byte, size: nat, copied: bool, read: ByteRead): Saved {
    if |EncodeAll(records)| <= ARGS_BUF_SIZE - (MAX_BYTES_ARR_SIZE + 5) && copied && (size == 0 || read.ok)
    then Saved(records + [Block(index, size, Left(read.left, Masked(size)))], true) else Saved(records, false)
  }

  function AddString(records: seq<Record>, index: Byte, read: StringRead): Saved {
    if |EncodeAll(records)| <= ARGS_BUF_SIZE - (MAX_STRING_SIZE + 5) && read.reported >= 0
    then Saved(records + [Block(index, read.reported, Left(read.left, read.reported))], true)
    else Saved(records, false)
  }

  /** The sizes the interpreter saves blocks with. */
  predicate BlockSize(size: nat) {
    size <= MAX_BYTES_ARR_SIZE || size == STRARR_MAGIC_LEN
  }

  lemma EncodeAppend(records: seq<Record>, r: Record)
    ensures EncodeAll(records + [r]) == EncodeAll(records) + Encode(r)
  {
    assert (records + [r])[..|records|] == records;
  }

  /** An element saved behind `off` bytes ends inside the array.  The source tests only that
      there is room for the largest element it knows of. */
  predicate EndsInside(off: nat, data: seq<Byte>) {
    off <= ARGS_BUF_SIZE - (MAX_ELEMENT_SIZE + 1) ==> off + 1 + |data| <= ARGS_BUF_SIZE
  }

  lemma ElementFits(records: seq<Record>, index: Byte, data: seq<Byte>, copied: bool)
    requires Fits(records) && EndsInside(|EncodeAll(records)|, data)
    ensures var after := AddElement(records, index, data, copied).records;
            Fits(after) && (AllComplete(records) ==> AllComplete(after))
  {
    hide EncodeAll;
    EncodeAppend(records, Element(index, data));
  }

  lemma MaskKeeps(size: nat)
    requires BlockSize(size)
    ensures Masked(size) == if size == STRARR_MAGIC_LEN then 0 else size
  {
  }

  /** A block fits whatever size it is saved with; its length field is right for the sizes
      the interpreter uses. */
  lemma BytesFit(records: seq<Record>, index: Byte, size: nat, copied: bool, read: ByteRead)
    requires Fits(records)
    ensures var after := AddBytes(records, index, size, copied, read).records;
            Fits(after) && (BlockSize(size) && AllComplete(records) ==> AllComplete(after))
  {
    hide Masked, LittleEndian;
    if BlockSize(size) {
      MaskKeeps(size);
    }
    EncodeAppend(records, Block(index, size, Left(read.left, Masked(size))));
    hide EncodeAll;
  }

  lemma StringFits(records: seq<Record>, index: Byte, read: StringRead)
    requires Fits(records)
    ensures var after := AddString(records, index, read).records;
            Fits(after) && (AllComplete(records) ==> AllComplete(after))
  {
    hide LittleEndian;
    if read.reported >= 0 {
      EncodeAppend(records, Block(index, read.reported, Left(read.left, read.reported)));
    }
  }

  // ---------------------------------------------------------------------------
  // The buffer
  // ---------------------------------------------------------------------------

  /** The bytes with `data` written over them at `at`. */
  function Overwrite(bytes: seq<Byte>, at: nat, data: seq<Byte>): (r: seq<Byte>)
    requires at + |data| <= |bytes|
    ensures |r| == |bytes|
  {
    bytes[..at] + data + bytes[at + |data|..]
  }

  lemma ElementWritten(bytes: seq<Byte>, at: nat, index: Byte, data: seq<Byte>)
    requires at + 1 + |data| <= |bytes|
    ensures Overwrite(Overwrite(bytes, at, [index]), at + 1, data)[at..at + 1 + |data|] == Encode(Element(index, data))
  {
  }

  /** Index, length and content may be written in any order. */
  lemma BlockWritten(bytes: seq<Byte>, at: nat, index: Byte, size: nat, data: seq<Byte>)
    requires at + 5 + |data| <= |bytes|
    ensures var head := Overwrite(bytes, at, [index]);
            var length, end := LittleEndian(size, 4), at + 5 + |data|;
            && Overwrite(Overwrite(head, at + 1, length), at + 5, data)[at..end] == Encode(Block(index, size, data))
            && Overwrite(Overwrite(head, at + 5, data), at + 1, length)[at..end] == Encode(Block(index, size, data))
            && (data == [] ==> Overwrite(head, at + 1, length)[at..end] == Encode(Block(index, size, data)))
  {
    hide LittleEndian;
  }

  class EventBuffer {
    const args: array<Byte>
    var off: nat
    var argnum: nat
    ghost var records: seq<Record>

    ghost predicate Valid()
      reads this, args
    {
      && args.Length == ARGS_BUF_SIZE
      && Fits(records)
      && off == |EncodeAll(records)|
      && args[..off] == EncodeAll(records)
      && argnum < 256
    }

    constructor ()
      ensures Valid() && fresh(args) && records == [] && argnum == 0
    {
      args := new Byte[ARGS_BUF_SIZE](i => 0);
      off, argnum, records := 0, 0, [];
    }

    /** A helper or an assignment leaves `data` at `at`, behind the end. */
    method Put(at: nat, data: seq<Byte>)
      requires Valid() && off <= at && at + |data| <= ARGS_BUF_SIZE
      modifies args
      ensures Valid()
      ensures args[..] == Overwrite(old(args[..]), at, data)
    {
      hide EncodeAll, Fits;
      forall i | 0 <= i < |data| {
        args[at + i] := data[i];
      }
      assert args[..off] == old(args[..off]);
    }

    /** The record written behind the end becomes part of the buffer. */
    method Advance(ghost r: Record, length: nat)
      requires Valid() && Fits(records + [r]) && length == |Encode(r)|
      requires off + length <= ARGS_BUF_SIZE && args[..][off..off + length] == Encode(r)
      modifies this
      ensures Valid() && records == old(records) + [r]
      ensures argnum == (old(argnum) + 1) % 256
    {
      hide Encode, EncodeAll, Fits;
      EncodeAppend(records, r);
      assert args[..off + length] == args[..off] + args[..][off..off + length];
      off, argnum := off + length, (argnum + 1) % 256;
      records := records + [r];
    }

    /** save_to_submit_buf. */
    method SaveElement(data: seq<Byte>, index: Byte, copied: bool) returns (saved: bool)
      requires Valid() && EndsInside(off, data)
      modifies this, args
      ensures Valid()
      ensures Saved(records, saved) == AddElement(old(records), index, data, copied)
      ensures argnum == if saved then (old(argnum) + 1) % 256 else old(argnum)
    {
      hide EncodeAll, Fits, Overwrite, Encode;
      if |data| == 0 {
        return false;
      }
      if off > ARGS_BUF_SIZE - 1 {
        return false;
      }
      ghost var bytes := args[..];
      Put(off, [index]);
      if off > ARGS_BUF_SIZE - (MAX_ELEMENT_SIZE + 1) {
        return false;
      }
      Put(off + 1, data);
      if !copied {
        return false;
      }
      ElementFits(records, index, data, copied);
      ElementWritten(bytes, off, index, data);
      EncodedLength(Element(index, data));
      Advance(Element(index, data), |data| + 1);
      saved := true;
    }

    /** save_bytes_to_buf. */
    method SaveBytes(size: nat, index: Byte, copied: bool, read: ByteRead) returns (saved: bool)
      requires Valid()
      modifies this, args
      ensures Valid()
      ensures Saved(records, saved) == AddBytes(old(records), index, size, copied, read)
      ensures argnum == if saved then (old(argnum) + 1) % 256 else old(argnum)
    {
      hide EncodeAll, Fits, LittleEndian, Overwrite, Encode;
      if off > ARGS_BUF_SIZE - 1 {
        return false;
      }
      ghost var bytes := args[..];
      Put(off, [index]);
      if off > ARGS_BUF_SIZE - 5 {
        return false;
      }
      Put(off + 1, LittleEndian(size, 4));
      if !copied {
        return false;
      }
      if off > ARGS_BUF_SIZE - (MAX_BYTES_ARR_SIZE + 5) {
        return false;
      }
      var length := if size != MAX_BYTES_ARR_SIZE then size % MAX_BYTES_ARR_SIZE else size;
      assert length == Masked(size);
      hide Masked;
      if size > 0 {
        Put(off + 5, Left(read.left, length));
        if !read.ok {
          return false;
        }
      }
      BytesFit(records, index, size, copied, read);
      ghost var r := Block(index, size, Left(read.left, length));
      BlockWritten(bytes, off, index, size, r.data);
      EncodedLength(r);
      Advance(r, length + 5);
      saved := true;
    }

    /** save_str_to_buf. */
    method SaveString(index: Byte, read: StringRead) returns (saved: bool)
      requires Valid()
      modifies this, args
      ensures Valid()
      ensures Saved(records, saved) == AddString(old(records), index, read)
      ensures argnum == if saved then (old(argnum) + 1) % 256 else old(argnum)
    {
      hide EncodeAll, Fits, LittleEndian, Overwrite, Encode;
      if off > ARGS_BUF_SIZE - 1 {
        return false;
      }
      ghost var bytes := args[..];
      Put(off, [index]);
      if off > ARGS_BUF_SIZE - (MAX_STRING_SIZE + 5) {
        return false;
      }
      var length := if read.reported < 0 then MAX_STRING_SIZE else read.reported;
      Put(off + 5, Left(read.left, length));
      if read.reported < 0 {
        return false;
      }
      Put(off + 1, LittleEndian(length, 4));
      StringFits(records, index, read);
      ghost var r := Block(index, length, Left(read.left, length));
      BlockWritten(bytes, off, index, length, r.data);
      EncodedLength(r);
      Advance(r, length + 5);
      saved := true;
    }
  }

  lemma EncodedLength(r: Record)
    ensures |Encode(r)| == |r.data| + if r.Element? then 1 else 5
  {
    hide LittleEndian;
  }

  // ---------------------------------------------------------------------------
  // Reading the buffer back
  // ---------------------------------------------------------------------------

  lemma {:induction false} EncodeFirst(records: seq<Record>)
    requires records != []
    ensures EncodeAll(records) == Encode(records[0]) + EncodeAll(records[1..])
    decreases |records|
  {
    hide Encode;
    var n := |records| - 1;
    if n > 0 {
      var front := records[..n];
      EncodeFirst(front);
      assert front[1..] == records[1..][..n - 1];
    }
  }

  lemma {:induction false} LittleEndianInjective(a: nat, b: nat, count: nat, limit: nat)
    requires a < limit && b < limit && LittleEndian(a, count) == LittleEndian(b, count)
    requires limit <= Pow256(count)
    ensures a == b
    decreases count
  {
    if count > 0 {
      var x, y := LittleEndian(a, count), LittleEndian(b, count);
      assert x[0] == a % 256 && y[0] == b % 256;
      assert x[1..] == LittleEndian(a / 256, count - 1) && y[1..] == LittleEndian(b / 256, count - 1);
      LittleEndianInjective(a / 256, b / 256, count - 1, Pow256(count - 1));
    }
  }

  function Pow256(count: nat): (p: nat)
    ensures p > 0
  {
    if count == 0 then 1 else 256 * Pow256(count - 1)
  }

  /** Byte `i` counts `256` to the power `i`. */
  function Sum(bytes: seq<Byte>): nat {
    if bytes == [] then 0 else Sum(bytes[..|bytes| - 1]) + bytes[|bytes| - 1] * Pow256(|bytes| - 1)
  }

  lemma {:induction false} SumFirst(bytes: seq<Byte>)
    requires bytes != []
    ensures Sum(bytes) == bytes[0] + 256 * Sum(bytes[1..])
    decreases |bytes|
  {
    var n := |bytes| - 1;
    assert Pow256(0) == 1 && Sum([]) == 0;
    if n > 0 {
      SumFirst(bytes[..n]);
      assert bytes[..n][1..] == bytes[1..][..n - 1];
      assert bytes[n] * Pow256(n) == 256 * (bytes[n] * Pow256(n - 1));
    }
  }

  /** The bytes add up to what of the value fits in them. */
  lemma {:induction false} LittleEndianSum(value: nat, count: nat)
    ensures Sum(LittleEndian(value, count)) == value % Pow256(count)
    decreases count
  {
    if count > 0 {
      var bytes := LittleEndian(value, count);
      assert bytes[1..] == LittleEndian(value / 256, count - 1);
      SumFirst(bytes);
      LittleEndianSum(value / 256, count - 1);
      DigitRemains(value, Pow256(count - 1));
    }
  }

  lemma DigitRemains(value: nat, p: nat)
    requires p > 0
    ensures value % (256 * p) == value % 256 + 256 * (value / 256 % p)
  {
    var high := value / 256;
    var q, r := high / p, high % p;
    assert value == 256 * (q * p + r) + value % 256;
    assert value == q * (256 * p) + (256 * r + value % 256);
    assert 256 * r + value % 256 < 256 * p;
    RemainderOf(q, 256 * p, 256 * r + value % 256);
  }

  lemma RemainderOf(q: int, m: nat, r: nat)
    requires r < m
    ensures (q * m + r) % m == r
  {
    var x := q * m + r;
    var d := x / m;
    assert x == d * m + x % m;
    assert (q - d) * m == q * m - d * m == x % m - r;
    SmallMultiple(q - d, m);
  }

  lemma SmallMultiple(k: int, m: nat)
    ensures k == 0 || k * m >= m || k * m + m <= 0
  {
    if k > 0 {
      assert (k - 1) * m >= 0;
    } else if k < 0 {
      assert (-k - 1) * m >= 0;
    }
  }

  /** What the reader of the buffer knows in advance: which saves it expects. */
  predicate SameShape(a: Record, b: Record) {
    && (a.Element? <==> b.Element?)
    && (a.Element? ==> |a.data| == |b.data|)
  }

  lemma BlockLength(r: Record)
    requires r.Block? && Complete(r)
    ensures |r.data| == (if r.size == STRARR_MAGIC_LEN then 0 else r.size) && r.size < Pow256(4)
  {
    assert Pow256(2) == 65536 && Pow256(4) == 65536 * Pow256(2);
  }

  lemma SplitBlock(a: Record, b: Record, u: seq<Byte>, v: seq<Byte>)
    requires a.Block? && b.Block? && Complete(a) && Complete(b)
    requires Encode(a) + u == Encode(b) + v
    ensures a == b && u == v
  {
    hide LittleEndian, Complete, Pow256;
    var x, y := Encode(a) + u, Encode(b) + v;
    assert x[0] == a.index && y[0] == b.index;
    assert x[1..5] == LittleEndian(a.size, 4) && y[1..5] == LittleEndian(b.size, 4);
    BlockLength(a);
    BlockLength(b);
    LittleEndianInjective(a.size, b.size, 4, Pow256(4));
    var end := 5 + |a.data|;
    assert x[5..end] == a.data && y[5..end] == b.data;
    assert x[end..] == u && y[end..] == v;
  }

  lemma SplitElement(a: Record, b: Record, u: seq<Byte>, v: seq<Byte>)
    requires a.Element? && b.Element? && |a.data| == |b.data|
    requires Encode(a) + u == Encode(b) + v
    ensures a == b && u == v
  {
    var x, y, end := Encode(a) + u, Encode(b) + v, 1 + |a.data|;
    assert x[0] == a.index && y[0] == b.index;
    assert x[1..end] == a.data && y[1..end] == b.data;
    assert x[end..] == u && y[end..] == v;
  }

  /** The bytes below the end determine the records: two buffers filled by the same kinds of
      saves hold the same bytes only when they hold the same records. */
  lemma {:induction false} RecordsDetermined(a: seq<Record>, b: seq<Record>)
    requires |a| == |b| && AllComplete(a) && AllComplete(b)
    requires forall i :: 0 <= i < |a| ==> SameShape(a[i], b[i])
    requires EncodeAll(a) == EncodeAll(b)
    ensures a == b
    decreases |a|
  {
    hide EncodeAll, Encode, Complete;
    if a != [] {
      EncodeFirst(a);
      EncodeFirst(b);
      if a[0].Block? {
        SplitBlock(a[0], b[0], EncodeAll(a[1..]), EncodeAll(b[1..]));
      } else {
        SplitElement(a[0], b[0], EncodeAll(a[1..]), EncodeAll(b[1..]));
      }
      RecordsDetermined(a[1..], b[1..]);
      assert a == [a[0]] + a[1..] && b == [b[0]] + b[1..];
    }
  }
}
