/** Breakpoint requests: the check of the Go client (user/kpm/command.go), the check
    of the command parser (kpm/core/command.c) and the encoding of an accepted
    request into a debug slot's value and control words (kpm/core/debug.c). */
module Breakpoints {
  import opened Common

  datatype BreakKind = KindInvalid | Execute | Read | Write | ReadWrite

  datatype BreakMode = ModeInvalid | Once | Repeat

  /** id is 32 bits wide, address 64 and length 8. */
  datatype Request = Request(id: nat, kind: BreakKind, address: nat, length: nat, mode: BreakMode)
  {
    predicate Typed() {
      id < 0x1_0000_0000 && address < TWO64 && length < 256
    }
  }

  datatype GoCheck = GoOk | InvalidId | InvalidKind | InvalidMode | InvalidAddress | InvalidLength

  /** The checks of BreakCommand, in its order. */
  function GoBreakCheck(r: Request): GoCheck {
    if r.id == 0 then InvalidId
    else if r.kind.KindInvalid? then InvalidKind
    else if r.mode.ModeInvalid? then InvalidMode
    else if r.address == 0 || r.address / TWO56 != 0 then InvalidAddress
    else if r.kind.Execute? then
      if r.length != 4 then InvalidLength
      else if r.address % 4 != 0 then InvalidAddress
      else GoOk
    else if r.length !in {1, 2, 4, 8} then InvalidLength
    else
      var end := (r.address + r.length - 1) % TWO64;
      if end < r.address || r.address / 8 != end / 8 then InvalidAddress else GoOk
  }

  /** The checks at the end of spz_parse_break, once every field has been seen. */
  predicate ParserAccepts(r: Request) {
    if r.address == 0 || r.address / TWO56 != 0 then false
    else if r.kind.Execute? then r.length == 4 && r.address % 4 == 0
    else if r.length != 1 && r.length != 2 && r.length != 4 && r.length != 8 then false
    else
      var end := (r.address + r.length - 1) % TWO64;
      !(end < r.address || r.address / 8 != end / 8)
  }

  /** Contents of a debug slot that watches for a request. */
  datatype Encoding = Rejected | Encoding(value: nat, control: bv32, bas: bv8)

  const CTRL_ENABLE: bv32 := 1
  const PRIVILEGE_EL0: bv32 := 4
  const LSC_LOAD: bv32 := 8
  const LSC_STORE: bv32 := 16

  /** The low `length` bits, moved up by `offset`, in one byte. */
  function ByteMask(length: nat, offset: nat): bv8
    requires length <= 8 && offset < 8
  {
    ((((1 as bv32 << length) - 1) << offset) & 0xff) as bv8
  }

  function ControlWord(bas: bv8, lsc: bv32): bv32 {
    ((bas as bv32) << 5) | lsc | PRIVILEGE_EL0 | CTRL_ENABLE
  }

  function AccessBits(kind: BreakKind): bv32 {
    match kind
    case Read => LSC_LOAD
    case Write => LSC_STORE
    case ReadWrite => LSC_LOAD | LSC_STORE
    case _ => 0
  }

  /** spz_debug_validate_request. */
  function Validate(r: Request): Encoding {
    if r.id == 0 || r.mode.ModeInvalid? then Rejected
    else if r.address == 0 || r.address / TWO56 != 0 then Rejected
    else if r.kind.Execute? then
      if r.length != 4 || r.address % 4 != 0 then Rejected
      else Encoding(r.address, ControlWord(0x0f, 0), 0x0f)
    else if r.kind.KindInvalid? then Rejected
    else if r.length !in {1, 2, 4, 8} then Rejected
    else
      var end := (r.address + r.length - 1) % TWO64;
      if end < r.address || r.address / 8 != end / 8 then Rejected
      else
        var bas := ByteMask(r.length, r.address % 8);
        Encoding(r.address - r.address % 8, ControlWord(bas, AccessBits(r.kind)), bas)
  }

  /** What all three checks mean: a user-space range inside one aligned doubleword,
      or one aligned instruction. */
  predicate Sensible(r: Request) {
    && r.id != 0 && !r.mode.ModeInvalid? && !r.kind.KindInvalid?
    && 0 < r.address < TWO56
    && if r.kind.Execute? then r.length == 4 && r.address % 4 == 0
       else r.length in {1, 2, 4, 8} && r.address % 8 + r.length <= 8
  }

  /** The printer, the parser and the debug controller accept the same breakpoints. */
  lemma ChecksAgree(r: Request)
    ensures GoBreakCheck(r) == GoOk <==> Sensible(r)
    ensures Validate(r).Encoding? <==> Sensible(r)
    ensures r.id != 0 && !r.kind.KindInvalid? && !r.mode.ModeInvalid? ==>
              (ParserAccepts(r) <==> Sensible(r))
  {
    if 0 < r.address < TWO56 && r.length in {1, 2, 4, 8} {
      var end := r.address + r.length - 1;
      assert end % TWO64 == end;
      var base := r.address / 8;
      assert r.address == 8 * base + r.address % 8;
      assert end / 8 == base <==> r.address % 8 + r.length - 1 < 8;
    }
  }

  /** Byte `k` of the doubleword is selected. */
  predicate Selected(bas: bv8, k: nat)
    requires k < 8
  {
    (bas >> k) & 1 == 1
  }

  lemma MaskSelects(length: nat, offset: nat, k: nat)
    requires length in {1, 2, 4, 8} && offset + length <= 8 && k < 8
    ensures Selected(ByteMask(length, offset), k) <==> offset <= k < offset + length
  {
  }

  /** The bytes a watchpoint covers are exactly [address, address + length): byte `k`
      of the doubleword at the programmed value is selected when it lies in the range. */
  lemma WatchCoversRange(r: Request, k: nat)
    requires Validate(r).Encoding? && !r.kind.Execute? && k < 8
    ensures Validate(r).value % 8 == 0
    ensures var e := Validate(r);
            Selected(e.bas, k) <==> r.address <= e.value + k < r.address + r.length
  {
    ChecksAgree(r);
    MaskSelects(r.length, r.address % 8, k);
  }

  /** An address is in the requested range exactly when it is in the doubleword at the
      programmed value and its byte is selected. */
  lemma RangeSelected(r: Request, far: nat)
    requires Validate(r).Encoding? && !r.kind.Execute?
    ensures r.address + r.length < TWO64
    ensures r.address <= far < r.address + r.length <==>
            && Validate(r).value <= far < Validate(r).value + 8
            && Selected(Validate(r).bas, far - Validate(r).value)
  {
    ChecksAgree(r);
    var value := Validate(r).value;
    assert value <= r.address && r.address + r.length <= value + 8 && r.address + r.length < TWO64;
    hide Validate, Selected;
    if value <= far < value + 8 {
      WatchCoversRange(r, far - value);
    }
  }

  /** Enable, privilege, access and byte-select fields never overlap: each reads back
      from its own bits of the control word and nothing else is set. */
  lemma ControlFields(r: Request)
    requires Validate(r).Encoding?
    ensures var e := Validate(r);
            && e.control & 0x1 == CTRL_ENABLE
            && e.control & 0x6 == PRIVILEGE_EL0
            && e.control & 0x18 == AccessBits(r.kind)
            && e.control >> 5 == e.bas as bv32
  {
    ControlWordFields(Validate(r).bas, AccessBits(r.kind));
  }

  /** The hardware is told to watch loads for the kinds that read and stores for those that
      write; an instruction breakpoint watches neither and selects all four bytes. */
  lemma AccessDirections(r: Request)
    requires Validate(r).Encoding?
    ensures var c := Validate(r).control;
            && (c & 0x8 != 0 <==> r.kind == Read || r.kind == ReadWrite)
            && (c & 0x10 != 0 <==> r.kind == Write || r.kind == ReadWrite)
            && (r.kind == Execute ==> c >> 5 == 0x0f) && r.kind != KindInvalid
  {
    var lsc := AccessBits(r.kind);
    ControlFields(r);
    AccessSplit(Validate(r).control, lsc);
  }

  lemma AccessSplit(c: bv32, lsc: bv32)
    requires c & 0x18 == lsc
    ensures c & 0x8 != 0 <==> lsc & 0x8 != 0
    ensures c & 0x10 != 0 <==> lsc & 0x10 != 0
  {
  }

  lemma ControlWordFields(bas: bv8, lsc: bv32)
    requires lsc in {0, 8, 16, 24}
    ensures ControlWord(bas, lsc) & 0x1 == 1 && ControlWord(bas, lsc) & 0x6 == 4
    ensures ControlWord(bas, lsc) & 0x18 == lsc && ControlWord(bas, lsc) >> 5 == bas as bv32
  {
  }
}
