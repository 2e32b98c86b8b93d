/** The argument-reading interpreter (src/utils.h): a budgeted loop that fetches ops by
    key, runs them with fused post-codes on a context of 64-bit values, and saves records
    to the event's argument buffer. */
module ArgVm {
  import opened Common
  import opened ArgBuffer

  const REG_MAX := 33
  const MAX_LOOP_COUNT := 32

  type U64 = n: nat | n < 0x1_0000_0000_0000_0000

  datatype Code =
    | Skip | ResetCtx | SetRegIndex | SetReadLen | SetReadLenRegValue | SetReadLenPointerValue
    | SetReadCount | AddOffset | SubOffset | MoveRegValue | MovePointerValue | MoveTmpValue
    | SetTmpValue | ForBreak | SetBreakCount | SetBreakCountRegValue | SetBreakCountPointerValue
    | SaveAddr | AddReg | SubReg | ReadReg | SaveReg | ReadPointer | SavePointer | SaveStruct
    | FilterValue | FilterBuffer | FilterString | SaveString | SavePtrString | ReadStdString
    | ReadIl2cppString | SaveString16 | SavePtrString16 | Unknown

  datatype Op = Op(code: Code, pre: Code, post: Code, value: U64)

  datatype FilterKind = Equal | Greater | Less | Whitelist | Blacklist | OtherFilter

  /** `modulus` is two to the number of bits a buffer filter compares. */
  datatype Filter = Filter(kind: FilterKind, num: nat, modulus: nat)

  /** The op keys of a probe point, the registered ops and the argument filters. */
  datatype Program = Program(keys: seq<nat>, ops: map<nat, Op>, filters: map<nat, Filter>)

  /** Everything the helpers answer.  The first argument is the number of the step, so the
      same question may get a different answer later. */
  datatype Env = Env(
    register: nat -> U64,
    word: (nat, nat) -> U64,
    byte: (nat, nat) -> nat,
    copied: (nat, nat) -> bool,
    bytes: (nat, nat, nat) -> ByteRead,
    str: (nat, nat) -> StringRead,
    equal: (nat, nat, nat) -> bool)

  /** loop_count, break_count and loop_index of the context. */
  datatype Loop = Loop(count: nat, limit: nat, start: nat)

  datatype Flags = Flags(applyFilter: bool, skip: bool, matchWhite: bool, matchBlack: bool)

  datatype Ctx = Ctx(
    saveIndex: Byte, regIndex: nat, loop: Loop, flags: Flags, keyIndex: nat, code: Code, post: Code,
    strLen: nat, readLen: nat, readAddr: nat, regValue: nat, pointerValue: nat, tmpValue: nat, reg0: U64)

  datatype Status = Running | Broke | Returned

  datatype Vm = Vm(ctx: Ctx, op: Option<Op>, records: seq<Record>, status: Status)

  function Add(a: nat, b: nat): U64 {
    (a + b) % TWO64
  }

  function Sub(a: nat, b: nat): U64 {
    (a - b) % TWO64
  }

  function Min(a: nat, b: nat): nat {
    if a > b then b else a
  }

  /** The address without its tag byte and the rest above 48 bits. */
  function Untag(a: nat): nat {
    a % TWO48
  }

  // ---------------------------------------------------------------------------
  // One step
  // ---------------------------------------------------------------------------

  /** A pending post-code is run on the op already fetched; otherwise the next op is fetched. */
  function Fetch(vm: Vm, prog: Program): Vm {
    var c := vm.ctx;
    if vm.op.Some? && c.post != Skip then vm.(ctx := c.(code := c.post, post := Skip))
    else if c.keyIndex >= |prog.keys| then vm.(status := Returned)
    else if prog.keys[c.keyIndex] !in prog.ops then vm.(op := None, status := Returned)
    else
      var op := prog.ops[prog.keys[c.keyIndex]];
      vm.(op := Some(op), ctx := c.(code := op.code, post := op.post, keyIndex := c.keyIndex + 1))
  }

  predicate IsSave(code: Code) {
    code.SaveAddr? || code.SaveReg? || code.SavePointer? || code.SaveStruct? || code.SaveString?
    || code.SavePtrString? || code.SaveString16? || code.SavePtrString16?
  }

  predicate IsFilter(code: Code) {
    code.FilterValue? || code.FilterBuffer? || code.FilterString?
  }

  /** Both ends of a loop region. */
  function LoopEdge(c: Ctx): Ctx {
    var start := if c.loop.count == 0 then c.keyIndex else c.loop.start;
    if c.loop.count >= c.loop.limit then c.(loop := Loop(0, 0, 0))
    else c.(loop := Loop(c.loop.count + 1, c.loop.limit, start), keyIndex := start)
  }

  function PointerAddress(c: Ctx, op: Op): nat {
    if op.pre == AddOffset then Add(c.readAddr, op.value)
    else if op.pre == SubOffset then Sub(c.readAddr, op.value)
    else c.readAddr
  }

  /** libc++ keeps short strings inside the object and long ones behind a pointer. */
  function StdStringAddress(c: Ctx, k: nat, env: Env): nat {
    var ptr := Untag(c.readAddr);
    if env.byte(k, ptr) % 2 == 0 then Add(ptr, 1) else env.word(k, Add(ptr, 16))
  }

  function ResetContext(c: Ctx): Ctx {
    c.(loop := c.loop.(limit := 0), regIndex := 0, readAddr := 0, readLen := 0, regValue := 0, pointerValue := 0)
  }

  /** No loop runs more often than this. */
  function SetLimit(c: Ctx, value: nat): Ctx {
    c.(loop := c.loop.(limit := Min(MAX_LOOP_COUNT, value)))
  }

  /** The ops that only compute. */
  function Compute(c: Ctx, op: Op, k: nat, env: Env): Ctx {
    match c.code
    case ResetCtx => ResetContext(c)
    case SetRegIndex => c.(regIndex := op.value % 256)
    case SetReadLen => c.(readLen := op.value % TWO32)
    case SetReadLenRegValue => c.(readLen := Min(c.readLen, c.regValue))
    case SetReadLenPointerValue => c.(readLen := Min(c.readLen, c.pointerValue))
    case SetReadCount => c.(readLen := c.readLen * op.value % TWO32)
    case AddOffset => c.(readAddr := Add(c.readAddr, op.value))
    case SubOffset => c.(readAddr := Sub(c.readAddr, op.value))
    case MoveRegValue => c.(readAddr := c.regValue)
    case MovePointerValue => c.(readAddr := c.pointerValue)
    case MoveTmpValue => c.(readAddr := c.tmpValue)
    case SetTmpValue => c.(tmpValue := c.readAddr)
    case ForBreak => LoopEdge(c)
    case SetBreakCount => SetLimit(c, op.value)
    case SetBreakCountRegValue => SetLimit(c, c.regValue)
    case SetBreakCountPointerValue => SetLimit(c, c.pointerValue)
    case AddReg => c.(readAddr := Add(c.readAddr, c.regValue))
    case SubReg => c.(readAddr := Sub(c.readAddr, c.regValue))
    case ReadPointer => c.(pointerValue := env.word(k, PointerAddress(c, op)))
    case ReadStdString => c.(readAddr := StdStringAddress(c, k, env))
    case ReadIl2cppString => c.(readAddr := Add(c.readAddr, 0x14))
    case _ => c
  }

  function RegisterNumber(c: Ctx, op: Op): nat {
    if op.pre == SetRegIndex then op.value % 256 else c.regIndex
  }

  /** Only register numbers below the limit can be read; others end the run. */
  function ReadRegister(vm: Vm, op: Op, env: Env): Vm {
    var c := vm.ctx.(regIndex := RegisterNumber(vm.ctx, op));
    if c.regIndex >= REG_MAX then vm.(ctx := c, status := Returned)
    else vm.(ctx := c.(regValue := if c.regIndex == 0 then c.reg0 else env.register(c.regIndex)))
  }

  function NextIndex(i: Byte): Byte {
    (i + 1) % 256
  }

  /** An eight-byte value is saved. */
  function SaveWord(records: seq<Record>, index: Byte, value: nat, k: nat, env: Env): Saved {
    AddElement(records, index, LittleEndian(value, 8), env.copied(k, 0))
  }

  function SaveEmpty(records: seq<Record>, index: Byte, size: nat, k: nat, env: Env): seq<Record> {
    AddBytes(records, index, size, env.copied(k, 2), env.bytes(k, 0, 0)).records
  }

  /** A block at an address; when it cannot be read, an empty one. */
  function SaveBlock(records: seq<Record>, index: Byte, addr: nat, size: nat, k: nat, env: Env): Saved {
    var s := AddBytes(records, index, size, env.copied(k, 1), env.bytes(k, addr, size));
    if s.ok then s else Saved(SaveEmpty(records, index, 0, k, env), false)
  }

  function SaveText(records: seq<Record>, index: Byte, addr: nat, k: nat, env: Env): Saved {
    var s := AddString(records, index, env.str(k, addr));
    if s.ok then s else Saved(SaveEmpty(records, index, 0, k, env), false)
  }

  /** A block or string found behind a pointer; a failure is marked as the array's end. */
  function SaveBehind(records: seq<Record>, index: Byte, addr: nat, wide: bool, k: nat, env: Env): Saved {
    var s := if wide then AddBytes(records, index, UTF16_BYTES, env.copied(k, 1), env.bytes(k, addr, UTF16_BYTES))
             else AddString(records, index, env.str(k, addr));
    if s.ok then s else Saved(SaveEmpty(records, index, STRARR_MAGIC_LEN, k, env), false)
  }

  function StructLength(c: Ctx, op: Op): (n: nat)
    ensures n <= MAX_BYTES_ARR_SIZE
  {
    Min(if op.pre == SetReadCount then c.readLen * op.value % TWO32 else c.readLen, MAX_BYTES_ARR_SIZE)
  }

  function SetLength(c: Ctx, s: Saved): Ctx
    requires s.ok ==> s.records != []
  {
    if s.ok then c.(strLen := |s.records[|s.records| - 1].data|) else c
  }

  lemma SavedNonEmpty(records: seq<Record>, index: Byte, addr: nat, size: nat, k: nat, env: Env)
    ensures SaveText(records, index, addr, k, env).ok ==> SaveText(records, index, addr, k, env).records != []
    ensures SaveBlock(records, index, addr, size, k, env).ok ==>
              SaveBlock(records, index, addr, size, k, env).records != []
  {
  }

  /** The count goes to its limit, so that the next edge leaves the loop. */
  function EndLoop(l: Loop): Loop {
    l.(count := l.limit)
  }

  /** The ops that save. */
  function Save(vm: Vm, op: Op, k: nat, env: Env): Vm {
    var c, index := vm.ctx, vm.ctx.saveIndex;
    var next := NextIndex(index);
    match c.code
    case SaveAddr =>
      vm.(ctx := c.(saveIndex := next), records := SaveWord(vm.records, index, c.readAddr, k, env).records)
    case SaveReg =>
      vm.(ctx := c.(saveIndex := next), records := SaveWord(vm.records, index, c.regValue, k, env).records)
    case SavePointer =>
      vm.(ctx := c.(saveIndex := next), records := SaveWord(vm.records, index, c.pointerValue, k, env).records)
    case SaveStruct =>
      var c := c.(readAddr := Untag(c.readAddr), readLen := StructLength(c, op), saveIndex := next);
      vm.(ctx := c, records := SaveBlock(vm.records, index, c.readAddr, c.readLen, k, env).records)
    case SaveString =>
      var c := c.(readAddr := Untag(c.readAddr), saveIndex := next);
      var s := SaveText(vm.records, index, c.readAddr, k, env);
      SavedNonEmpty(vm.records, index, c.readAddr, 0, k, env);
      vm.(ctx := SetLength(c, s), records := s.records)
    case SaveString16 =>
      var c := c.(readAddr := Untag(c.readAddr), saveIndex := next);
      var s := SaveBlock(vm.records, index, c.readAddr, UTF16_BYTES, k, env);
      SavedNonEmpty(vm.records, index, c.readAddr, UTF16_BYTES, k, env);
      vm.(ctx := SetLength(c, s), records := s.records)
    case _ =>
      var ptr := env.word(k, Untag(c.readAddr));
      var first := SaveWord(vm.records, index, ptr, k, env).records;
      var s := SaveBehind(first, next, Untag(ptr), c.code == SavePtrString16, k, env);
      vm.(ctx := c.(saveIndex := NextIndex(next), loop := if s.ok then c.loop else EndLoop(c.loop)),
          records := s.records)
  }

  function Allow(c: Ctx, same: bool): Ctx {
    c.(flags := c.flags.(applyFilter := true, matchWhite := c.flags.matchWhite || same))
  }

  /** The ops that decide whether the event is wanted. */
  function Judge(vm: Vm, op: Op, k: nat, prog: Program, env: Env): Vm {
    var c := vm.ctx;
    if op.value !in prog.filters then vm.(status := Returned)
    else
      var f := prog.filters[op.value];
      match c.code
      case FilterValue =>
        var bad := (f.kind == Equal && f.num != c.regValue) || (f.kind == Greater && f.num <= c.regValue)
                   || (f.kind == Less && f.num >= c.regValue);
        vm.(ctx := if bad then c.(flags := c.flags.(matchBlack := true)) else c)
      case FilterBuffer =>
        var same := f.modulus != 0 && f.num == env.word(k, Untag(c.readAddr)) % f.modulus;
        if f.kind != Whitelist then vm
        else vm.(ctx := Allow(c, same))
      case _ =>
        var same := env.equal(k, op.value, c.readAddr);
        if f.kind == Whitelist then vm.(ctx := Allow(c, same))
        else if f.kind == Blacklist && same then vm.(ctx := c.(flags := c.flags.(matchBlack := true)))
        else vm
  }

  function Execute(vm: Vm, op: Op, k: nat, prog: Program, env: Env): Vm {
    if IsSave(vm.ctx.code) then Save(vm, op, k, env)
    else if IsFilter(vm.ctx.code) then Judge(vm, op, k, prog, env)
    else if vm.ctx.code == ReadReg then ReadRegister(vm, op, env)
    else vm.(ctx := Compute(vm.ctx, op, k, env))
  }

  function Step(vm: Vm, k: nat, prog: Program, env: Env): Vm {
    var f := Fetch(vm, prog);
    if f.status != Running || f.op.None? then f
    else if f.ctx.code == Skip then f.(status := Broke)
    else
      var g := Execute(f, f.op.value, k, prog, env);
      if g.status == Running && g.ctx.flags.matchBlack then g.(status := Broke) else g
  }

  /** Up to `n` steps, the first with number `k`. */
  function Run(vm: Vm, k: nat, n: nat, prog: Program, env: Env): Vm
    decreases n
  {
    if n == 0 || vm.status != Running then vm else Run(Step(vm, k, prog, env), k + 1, n - 1, prog, env)
  }

  /** Whether the event is to be dropped, decided after the loop. */
  function Conclude(vm: Vm): Ctx {
    if vm.status == Returned then vm.ctx
    else
      var f := vm.ctx.flags;
      if f.matchBlack || (f.applyFilter && !f.matchWhite) then vm.ctx.(flags := f.(skip := true)) else vm.ctx
  }

  /** The interpreter's first look-up, before the loop. */
  function Enter(ctx: Ctx, records: seq<Record>, prog: Program): Vm {
    Vm(ctx, if 0 in prog.ops then Some(prog.ops[0]) else None, records, Running)
  }

  // ---------------------------------------------------------------------------
  // Records only ever grow, and always fit
  // ---------------------------------------------------------------------------

  predicate Grows(before: seq<Record>, after: seq<Record>) {
    before <= after && Fits(after) && (AllComplete(before) ==> AllComplete(after))
  }

  lemma WordGrows(records: seq<Record>, index: Byte, value: nat, k: nat, env: Env)
    requires Fits(records)
    ensures Grows(records, SaveWord(records, index, value, k, env).records)
  {
    hide EncodeAll, LittleEndian;
    ElementFits(records, index, LittleEndian(value, 8), env.copied(k, 0));
    hide Fits;
  }

  lemma EmptyGrows(records: seq<Record>, index: Byte, size: nat, k: nat, env: Env)
    requires Fits(records) && BlockSize(size)
    ensures Grows(records, SaveEmpty(records, index, size, k, env))
  {
    hide EncodeAll, Masked;
    BytesFit(records, index, size, env.copied(k, 2), env.bytes(k, 0, 0));
    hide Fits;
  }

  lemma BlockGrows(records: seq<Record>, index: Byte, addr: nat, size: nat, k: nat, env: Env)
    requires Fits(records) && size <= MAX_BYTES_ARR_SIZE
    ensures Grows(records, SaveBlock(records, index, addr, size, k, env).records)
  {
    hide EncodeAll, Masked;
    EmptyGrows(records, index, 0, k, env);
    BytesFit(records, index, size, env.copied(k, 1), env.bytes(k, addr, size));
    hide Fits, SaveEmpty;
  }

  lemma TextGrows(records: seq<Record>, index: Byte, addr: nat, k: nat, env: Env)
    requires Fits(records)
    ensures Grows(records, SaveText(records, index, addr, k, env).records)
  {
    hide EncodeAll;
    EmptyGrows(records, index, 0, k, env);
    StringFits(records, index, env.str(k, addr));
    hide Fits, SaveEmpty;
  }

  lemma BehindGrows(records: seq<Record>, index: Byte, addr: nat, wide: bool, k: nat, env: Env)
    requires Fits(records)
    ensures Grows(records, SaveBehind(records, index, addr, wide, k, env).records)
  {
    hide EncodeAll, Masked;
    EmptyGrows(records, index, STRARR_MAGIC_LEN, k, env);
    StringFits(records, index, env.str(k, addr));
    BytesFit(records, index, UTF16_BYTES, env.copied(k, 1), env.bytes(k, addr, UTF16_BYTES));
    hide Fits, SaveEmpty;
  }

  lemma SaveGrows(vm: Vm, op: Op, k: nat, env: Env)
    requires Fits(vm.records) && IsSave(vm.ctx.code)
    ensures Grows(vm.records, Save(vm, op, k, env).records)
  {
    hide Fits, SaveWord, SaveBlock, SaveText, SaveBehind, Untag;
    var c, index := vm.ctx, vm.ctx.saveIndex;
    match c.code {
      case SaveAddr => WordGrows(vm.records, index, c.readAddr, k, env);
      case SaveReg => WordGrows(vm.records, index, c.regValue, k, env);
      case SavePointer => WordGrows(vm.records, index, c.pointerValue, k, env);
      case SaveStruct => BlockGrows(vm.records, index, Untag(c.readAddr), StructLength(c, op), k, env);
      case SaveString => TextGrows(vm.records, index, Untag(c.readAddr), k, env);
      case SaveString16 => BlockGrows(vm.records, index, Untag(c.readAddr), UTF16_BYTES, k, env);
      case _ =>
        var ptr := env.word(k, Untag(c.readAddr));
        WordGrows(vm.records, index, ptr, k, env);
        BehindGrows(SaveWord(vm.records, index, ptr, k, env).records, NextIndex(index), Untag(ptr),
                    c.code == SavePtrString16, k, env);
    }
  }

  lemma StepGrows(vm: Vm, k: nat, prog: Program, env: Env)
    requires Fits(vm.records)
    ensures Grows(vm.records, Step(vm, k, prog, env).records)
  {
    hide Save, Compute, Fits, Judge, ReadRegister;
    var f := Fetch(vm, prog);
    if f.op.Some? {
      if IsSave(f.ctx.code) {
        SaveGrows(f, f.op.value, k, env);
      }
      OthersKeepRecords(f, f.op.value, k, prog, env);
    }
  }

  lemma OthersKeepRecords(vm: Vm, op: Op, k: nat, prog: Program, env: Env)
    ensures Judge(vm, op, k, prog, env).records == vm.records
    ensures ReadRegister(vm, op, env).records == vm.records
  {
  }

  /** Whatever the op list, the registered ops, the filters and the outcome of every read: the
      records saved before stay, new ones come after them, and all fit in the buffer. */
  lemma {:induction false} RunGrows(vm: Vm, k: nat, n: nat, prog: Program, env: Env)
    requires Fits(vm.records)
    ensures Grows(vm.records, Run(vm, k, n, prog, env).records)
    decreases n
  {
    hide Step, Fits;
    if n > 0 && vm.status == Running {
      StepGrows(vm, k, prog, env);
      RunGrows(Step(vm, k, prog, env), k + 1, n - 1, prog, env);
    }
  }

  // ---------------------------------------------------------------------------
  // The interpreter on the real buffer
  // ---------------------------------------------------------------------------

  class Machine {
    var ctx: Ctx
    const event: EventBuffer

    constructor (event: EventBuffer, ctx: Ctx)
      ensures this.event == event && this.ctx == ctx
    {
      this.event, this.ctx := event, ctx;
    }

    ghost function Now(op: Option<Op>, status: Status): Vm
      reads this, event
    {
      Vm(ctx, op, event.records, status)
    }

    method SaveValue(index: Byte, value: nat, k: nat, env: Env)
      requires event.Valid()
      modifies event, event.args
      ensures event.Valid() && event.records == SaveWord(old(event.records), index, value, k, env).records
    {
      hide LittleEndian, AddElement;
      var saved := event.SaveElement(LittleEndian(value, 8), index, env.copied(k, 0));
    }

    method SaveBytesOr(index: Byte, addr: nat, size: nat, k: nat, env: Env) returns (saved: bool)
      requires event.Valid() && size <= MAX_BYTES_ARR_SIZE
      modifies event, event.args
      ensures event.Valid()
      ensures Saved(event.records, saved) == SaveBlock(old(event.records), index, addr, size, k, env)
    {
      saved := event.SaveBytes(size, index, env.copied(k, 1), env.bytes(k, addr, size));
      if !saved {
        assert event.records == old(event.records);
        var again := event.SaveBytes(0, index, env.copied(k, 2), env.bytes(k, 0, 0));
      }
    }

    method SaveTextOr(index: Byte, addr: nat, k: nat, env: Env) returns (saved: bool)
      requires event.Valid()
      modifies event, event.args
      ensures event.Valid()
      ensures Saved(event.records, saved) == SaveText(old(event.records), index, addr, k, env)
    {
      saved := event.SaveString(index, env.str(k, addr));
      if !saved {
        assert event.records == old(event.records);
        var again := event.SaveBytes(0, index, env.copied(k, 2), env.bytes(k, 0, 0));
      }
    }

    method SaveBehindOr(index: Byte, addr: nat, wide: bool, k: nat, env: Env) returns (saved: bool)
      requires event.Valid()
      modifies event, event.args
      ensures event.Valid()
      ensures Saved(event.records, saved) == SaveBehind(old(event.records), index, addr, wide, k, env)
    {
      if wide {
        saved := event.SaveBytes(UTF16_BYTES, index, env.copied(k, 1), env.bytes(k, addr, UTF16_BYTES));
      } else {
        saved := event.SaveString(index, env.str(k, addr));
      }
      if !saved {
        assert event.records == old(event.records);
        var again := event.SaveBytes(STRARR_MAGIC_LEN, index, env.copied(k, 2), env.bytes(k, 0, 0));
      }
    }

    /** OP_SAVE_STRING and OP_SAVE_STRING16. */
    method SaveStringCase(op: Op, k: nat, env: Env)
      requires event.Valid() && (ctx.code == SaveString || ctx.code == SaveString16)
      modifies this, event, event.args
      ensures event.Valid()
      ensures Now(Some(op), Running) == Save(old(Now(Some(op), Running)), op, k, env)
    {
      hide SaveWord, SaveBlock, SaveText, SaveBehind, Untag, Fits, EncodeAll;
      ghost var records := event.records;
      var before, index, saved := event.off, ctx.saveIndex, false;
      ctx := ctx.(readAddr := Untag(ctx.readAddr));
      if ctx.code == SaveString {
        saved := SaveTextOr(index, ctx.readAddr, k, env);
        if saved {
          TextLength(records, index, ctx.readAddr, k, env);
        }
      } else {
        saved := SaveBytesOr(index, ctx.readAddr, UTF16_BYTES, k, env);
        if saved {
          BlockLengthSaved(records, index, ctx.readAddr, UTF16_BYTES, k, env);
        }
      }
      if saved {
        ctx := ctx.(strLen := event.off - (before + 5));
      }
      ctx := ctx.(saveIndex := NextIndex(index));
    }

    /** OP_SAVE_PTR_STRING and OP_SAVE_PTR_STRING16. */
    method SavePointerStringCase(op: Op, k: nat, env: Env)
      requires event.Valid() && (ctx.code == SavePtrString || ctx.code == SavePtrString16)
      modifies this, event, event.args
      ensures event.Valid()
      ensures Now(Some(op), Running) == Save(old(Now(Some(op), Running)), op, k, env)
    {
      hide SaveWord, SaveBlock, SaveText, SaveBehind, Untag, Fits, EncodeAll;
      var ptr := env.word(k, Untag(ctx.readAddr));
      SaveValue(ctx.saveIndex, ptr, k, env);
      ctx := ctx.(saveIndex := NextIndex(ctx.saveIndex));
      var saved := SaveBehindOr(ctx.saveIndex, Untag(ptr), ctx.code == SavePtrString16, k, env);
      if !saved {
        ctx := ctx.(loop := EndLoop(ctx.loop));
      }
      ctx := ctx.(saveIndex := NextIndex(ctx.saveIndex));
    }

    /** OP_SAVE_ADDR, OP_SAVE_REG, OP_SAVE_POINTER and OP_SAVE_STRUCT. */
    method SavePlainCase(op: Op, k: nat, env: Env)
      requires event.Valid() && ctx.code in {SaveAddr, SaveReg, SavePointer, SaveStruct}
      modifies this, event, event.args
      ensures event.Valid()
      ensures Now(Some(op), Running) == Save(old(Now(Some(op), Running)), op, k, env)
    {
      hide SaveWord, SaveBlock, SaveText, SaveBehind, Untag, Fits, EncodeAll;
      if ctx.code == SaveStruct {
        ctx := ctx.(readAddr := Untag(ctx.readAddr), readLen := StructLength(ctx, op));
        var saved := SaveBytesOr(ctx.saveIndex, ctx.readAddr, ctx.readLen, k, env);
      } else {
        var value := if ctx.code == SaveAddr then ctx.readAddr
                     else if ctx.code == SaveReg then ctx.regValue else ctx.pointerValue;
        SaveValue(ctx.saveIndex, value, k, env);
      }
      ctx := ctx.(saveIndex := NextIndex(ctx.saveIndex));
    }

    /** The saving cases of the interpreter's switch. */
    method SaveCase(op: Op, k: nat, env: Env)
      requires event.Valid() && IsSave(ctx.code)
      modifies this, event, event.args
      ensures event.Valid()
      ensures Now(Some(op), Running) == Save(old(Now(Some(op), Running)), op, k, env)
    {
      hide Save, Fits, EncodeAll;
      if ctx.code == SaveString || ctx.code == SaveString16 {
        SaveStringCase(op, k, env);
      } else if ctx.code == SavePtrString || ctx.code == SavePtrString16 {
        SavePointerStringCase(op, k, env);
      } else {
        SavePlainCase(op, k, env);
      }
    }

    /** One round of the loop in read_args. */
    method StepOnce(op: Option<Op>, k: nat, prog: Program, env: Env) returns (next: Option<Op>, status: Status)
      requires event.Valid()
      modifies this, event, event.args
      ensures event.Valid()
      ensures Now(next, status) == Step(old(Now(op, Running)), k, prog, env)
    {
      hide Save, Compute, Fits, EncodeAll, Judge, ReadRegister;
      next := op;
      if op.Some? && ctx.post != Skip {
        ctx := ctx.(code := ctx.post, post := Skip);
      } else {
        if ctx.keyIndex >= |prog.keys| {
          return next, Returned;
        }
        var key := prog.keys[ctx.keyIndex];
        if key !in prog.ops {
          return None, Returned;
        }
        next := Some(prog.ops[key]);
        ctx := ctx.(code := next.value.code, post := next.value.post, keyIndex := ctx.keyIndex + 1);
      }
      assert Now(next, Running) == Fetch(old(Now(op, Running)), prog);
      if ctx.code == Skip {
        return next, Broke;
      }
      status := Running;
      if IsSave(ctx.code) {
        SaveKeepsOp(Now(next, Running), next.value, k, env);
        SaveCase(next.value, k, env);
      } else if IsFilter(ctx.code) {
        var judged := Judge(Vm(ctx, next, [], Running), next.value, k, prog, env);
        JudgeAny(Now(next, Running), next.value, k, prog, env);
        ctx, status := judged.ctx, judged.status;
      } else if ctx.code == ReadReg {
        var read := ReadRegister(Vm(ctx, next, [], Running), next.value, env);
        ReadAny(Now(next, Running), next.value, env);
        ctx, status := read.ctx, read.status;
      } else {
        ctx := Compute(ctx, next.value, k, env);
      }
      if status == Running && ctx.flags.matchBlack {
        status := Broke;
      }
    }

    /** read_args. */
    method ReadArgs(prog: Program, env: Env)
      requires event.Valid()
      modifies this, event, event.args
      ensures event.Valid() && old(event.records) <= event.records
      ensures AllComplete(old(event.records)) ==> AllComplete(event.records)
      ensures var vm := Run(Enter(old(ctx), old(event.records), prog), 0, |prog.keys|, prog, env);
              ctx == Conclude(vm) && event.records == vm.records
    {
      hide Step, Fits, EncodeAll;
      ghost var start := Enter(ctx, event.records, prog);
      ghost var result := Run(start, 0, |prog.keys|, prog, env);
      RunGrows(start, 0, |prog.keys|, prog, env);
      var op := if 0 in prog.ops then Some(prog.ops[0]) else None;
      var k := 0;
      while k < |prog.keys|
        invariant k <= |prog.keys| && event.Valid()
        invariant Run(Now(op, Running), k, |prog.keys| - k, prog, env) == result
      {
        var next, status := StepOnce(op, k, prog, env);
        op, k := next, k + 1;
        if status == Returned {
          return;
        }
        if status == Broke {
          break;
        }
      }
      if ctx.flags.matchBlack {
        ctx := ctx.(flags := ctx.flags.(skip := true));
        return;
      }
      if ctx.flags.applyFilter && !ctx.flags.matchWhite {
        ctx := ctx.(flags := ctx.flags.(skip := true));
      }
    }
  }

  lemma SaveKeepsOp(vm: Vm, op: Op, k: nat, env: Env)
    ensures Save(vm, op, k, env).op == vm.op && Save(vm, op, k, env).status == vm.status
    ensures Save(vm, op, k, env).ctx.flags == vm.ctx.flags
  {
    hide SaveWord, SaveBlock, SaveText, SaveBehind, Untag;
  }

  lemma JudgeAny(vm: Vm, op: Op, k: nat, prog: Program, env: Env)
    ensures var j := Judge(vm.(records := []), op, k, prog, env);
            Judge(vm, op, k, prog, env) == j.(records := vm.records) && j.op == vm.op
  {
  }

  lemma ReadAny(vm: Vm, op: Op, env: Env)
    ensures var r := ReadRegister(vm.(records := []), op, env);
            ReadRegister(vm, op, env) == r.(records := vm.records) && r.op == vm.op
  {
  }

  lemma TextLength(records: seq<Record>, index: Byte, addr: nat, k: nat, env: Env)
    requires SaveText(records, index, addr, k, env).ok
    ensures var s := SaveText(records, index, addr, k, env).records;
            s != [] && |EncodeAll(s)| == |EncodeAll(records)| + 5 + |s[|s| - 1].data|
  {
    var s := SaveText(records, index, addr, k, env).records;
    EncodeAppend(records, s[|s| - 1]);
    EncodedLength(s[|s| - 1]);
  }

  lemma BlockLengthSaved(records: seq<Record>, index: Byte, addr: nat, size: nat, k: nat, env: Env)
    requires SaveBlock(records, index, addr, size, k, env).ok
    ensures var s := SaveBlock(records, index, addr, size, k, env).records;
            s != [] && |EncodeAll(s)| == |EncodeAll(records)| + 5 + |s[|s| - 1].data|
  {
    hide Masked;
    var s := SaveBlock(records, index, addr, size, k, env).records;
    EncodeAppend(records, s[|s| - 1]);
    EncodedLength(s[|s| - 1]);
  }
}
