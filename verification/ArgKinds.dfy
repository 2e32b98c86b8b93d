/** What the argument types come to: the ops that user/argtype/argtype_complex.go lists for a type,
    run by the interpreter of src/utils.h, save what the type asks for. */
module ArgKinds {
  import opened Common
  import opened ArgBuffer
  import opened ArgVm
  import opened ArgLoop
  import opened ReadExpr
  import opened ArgEvents

  // ---------------------------------------------------------------------------
  // Types and their ops
  // ---------------------------------------------------------------------------

  /** What is read beyond the register: nothing, a string in one of four layouts, a structure,
      a buffer whose length a register tells, an iovec with what it points to, an array of string
      pointers, an array of iovecs whose number a register tells, or a message header with all
      that it points to. */
  datatype Kind =
    | Number | Text | StdText | WideText | Il2cppText | Struct(size: U64, fused: bool) | Counted(reg: U64)
    | Iovec | TextArray(wide: bool) | IovecArray(reg: U64) | Msghdr

  function Plain(code: Code, value: U64): Op {
    Op(code, Skip, Skip, value)
  }

  /** A pointer read at an offset, and what becomes of it. */
  function PointerAt(offset: U64, post: Code): Op {
    Op(ReadPointer, AddOffset, post, offset)
  }

  function IovecOps(): seq<Op> {
    [Plain(SetReadLen, 16), Plain(SaveStruct, 0), Plain(SetReadLen, 4096), PointerAt(8, SetReadLenPointerValue),
     Plain(ReadPointer, 0), Plain(MovePointerValue, 0), Plain(SaveStruct, 0)]
  }

  /** A loop over iovecs. */
  function IovecLoop(): seq<Op> {
    [Plain(ForBreak, 0), Plain(SetTmpValue, 0)] + IovecOps()
    + [Plain(MoveTmpValue, 0), Plain(AddOffset, 16), Plain(ForBreak, 0)]
  }

  function KindOps(kind: Kind): seq<Op> {
    match kind
    case Number => []
    case Text => [Plain(SaveString, 0)]
    case StdText => [Plain(ReadStdString, 0), Plain(SaveString, 0)]
    case WideText => [Plain(SaveString16, 0)]
    case Il2cppText => [Plain(ReadIl2cppString, 0), Plain(SaveString16, 0)]
    case Struct(size, fused) =>
      if fused then [Op(SetReadLen, Skip, SaveStruct, size)] else [Plain(SetReadLen, size), Plain(SaveStruct, 0)]
    case Counted(reg) =>
      [Plain(SetReadLen, 4096), Op(ReadReg, SetRegIndex, SetReadLenRegValue, reg), Plain(SaveStruct, 0)]
    case Iovec => IovecOps()
    case TextArray(wide) =>
      [Plain(SetBreakCount, 32), Plain(ForBreak, 0), Plain(if wide then SavePtrString16 else SavePtrString, 0),
       Plain(AddOffset, 8), Plain(ForBreak, 0)]
    case IovecArray(reg) =>
      [Op(ReadReg, SetRegIndex, SetBreakCountRegValue, reg), Plain(SaveReg, 0)] + IovecLoop()
    case Msghdr => MsghdrOps() + IovecLoop()
  }

  /** The header, its control buffer, and the count and the address of its iovecs. */
  function MsghdrOps(): seq<Op> {
    [Plain(SetReadLen, 56), Plain(SaveStruct, 0), Plain(SetTmpValue, 0), Plain(SetReadLen, 4096),
     PointerAt(40, SetReadLenPointerValue), PointerAt(32, MovePointerValue), Plain(SaveStruct, 0),
     Plain(MoveTmpValue, 0), PointerAt(24, SetBreakCountPointerValue), PointerAt(16, MovePointerValue)]
  }

  // ---------------------------------------------------------------------------
  // What they mean
  // ---------------------------------------------------------------------------

  /** A record to be saved if `ok`, and if `room` more bytes fit. */
  datatype Want = Want(record: Record, room: nat, ok: bool)

  /** The first of these that can be saved is. */
  function Kept(records: seq<Record>, wants: seq<Want>): seq<Record> {
    if wants == [] then records
    else if wants[0].ok && |EncodeAll(records)| + wants[0].room <= 32000 then records + [wants[0].record]
    else Kept(records, wants[1..])
  }

  /** An empty block in place of what could not be read. */
  function EmptyWant(index: Byte, size: nat, k: nat, env: Env): Want {
    Want(Block(index, size, []), 4101, env.copied(k, 2) && (size == 0 || env.bytes(k, 0, 0).ok))
  }

  function WordWants(index: Byte, value: nat, k: nat, env: Env): seq<Want> {
    [Want(Element(index, LittleEndian(value, 8)), 111, env.copied(k, 0))]
  }

  /** `size` bytes of memory at an address. */
  function BytesWant(index: Byte, addr: nat, size: nat, k: nat, env: Env): Want {
    var read := env.bytes(k, addr, size);
    Want(Block(index, size, Left(read.left, size)), 4101, env.copied(k, 1) && (size == 0 || read.ok))
  }

  function TextWant(index: Byte, addr: nat, k: nat, env: Env): Want {
    var read := env.str(k, addr);
    if read.reported < 0 then Want(Block(index, 0, []), 0, false)
    else Want(Block(index, read.reported, Left(read.left, read.reported)), 16389, true)
  }

  /** An address without its tag byte and the rest above 48 bits. */
  function Low(addr: nat): nat {
    addr % 0x1_0000_0000_0000
  }

  /** What has been saved and found out before step `step`: the records, the number of the next
      one, whether a whitelist was tried and whether one matched, whether the event is rejected. */
  datatype Seen = Seen(
    records: seq<Record>, index: Byte, tried: bool, white: bool, rejected: bool, step: nat)

  /** One save, in the step that comes next. */
  function Saves(s: Seen, wants: seq<Want>): Seen {
    s.(records := Kept(s.records, wants), index := (s.index + 1) % 256, step := s.step + 1)
  }

  function Waits(s: Seen, n: nat): Seen {
    s.(step := s.step + n)
  }

  function SavesBytes(s: Seen, addr: nat, size: nat, env: Env): Seen {
    Saves(s, [BytesWant(s.index, addr, size, s.step, env), EmptyWant(s.index, 0, s.step, env)])
  }

  function SavesText(s: Seen, addr: nat, env: Env): Seen {
    Saves(s, [TextWant(s.index, addr, s.step, env), EmptyWant(s.index, 0, s.step, env)])
  }

  /** Where the text of a std::string is: a short one in the object behind a length byte that is
      even, a long one behind the pointer at offset 16. */
  function StdAddress(base: nat, k: nat, env: Env): nat {
    if env.byte(k, base) % 2 == 0 then base + 1 else env.word(k, base + 16)
  }

  /** The pointer at an address and the string behind it, in one step. */
  function SavesBehind(s: Seen, addr: nat, wide: bool, env: Env): Seen {
    var ptr := env.word(s.step, Low(addr));
    var t := Saves(s, WordWants(s.index, ptr, s.step, env)).(step := s.step);
    Saves(t, [BehindWant(s, addr, wide, env), EmptyWant(t.index, 0xffff_0000, s.step, env)])
  }

  /** The string behind the pointer at an address. */
  function BehindWant(s: Seen, addr: nat, wide: bool, env: Env): Want {
    var index, target := (s.index + 1) % 256, Low(env.word(s.step, Low(addr)));
    if wide then BytesWant(index, target, 512, s.step, env) else TextWant(index, target, s.step, env)
  }

  /** That string is saved. */
  predicate BehindSaved(s: Seen, addr: nat, wide: bool, env: Env) {
    var ptr := env.word(s.step, Low(addr));
    var w := BehindWant(s, addr, wide, env);
    w.ok && |EncodeAll(Kept(s.records, WordWants(s.index, ptr, s.step, env)))| + w.room <= 32000
  }

  /** A meaning, and the address reading has come to. */
  datatype At = At(seen: Seen, addr: nat)

  /** String pointers one after the other, up to the first whose string cannot be saved and at
      most `n` of them. */
  function SavesArray(s: Seen, addr: nat, n: nat, wide: bool, env: Env): At
    decreases n
  {
    var next, t := (addr + 8) % TWO64, Waits(SavesBehind(s, addr, wide, env), 2);
    if n <= 1 || !BehindSaved(s, addr, wide, env) then At(t, next)
    else SavesArray(t, next, n - 1, wide, env)
  }

  function UpTo4096(n: nat): nat {
    if n < 4096 then n else 4096
  }

  function UpTo32(n: nat): nat {
    if n < 32 then n else 32
  }

  /** Sixteen bytes, then as many as the second word says from where the first one points. */
  function IovecMeans(s: Seen, addr: nat, env: Env): At {
    var here := Low(addr);
    var base, length := env.word(s.step + 5, here), env.word(s.step + 3, here + 8);
    var head := SavesBytes(Waits(s, 1), here, 16, env);
    At(SavesBytes(Waits(head, 5), Low(base), UpTo4096(length), env), Low(base))
  }

  /** `n` iovecs one after the other, but at least one. */
  function SavesIovecs(s: Seen, addr: nat, n: nat, env: Env): At
    decreases n
  {
    var next, t := (addr + 16) % TWO64, Waits(IovecMeans(Waits(s, 1), addr, env).seen, 3);
    if n <= 1 then At(t, next) else SavesIovecs(t, next, n - 1, env)
  }

  /** A message header and its control buffer. */
  function ControlMeans(s: Seen, here: nat, env: Env): Seen {
    var head, k := SavesBytes(Waits(s, 1), here, 56, env), s.step;
    SavesBytes(Waits(head, 6), Low(env.word(k + 6, here + 32)), UpTo4096(env.word(k + 4, here + 40)), env)
  }

  function Register(reg: U64, reg0: U64, env: Env): U64 {
    if reg == 0 then reg0 else env.register(reg)
  }

  predicate GoodKind(kind: Kind) {
    kind.Counted? || kind.IovecArray? ==> kind.reg < REG_MAX
  }

  /** What reading a kind through an address means. */
  function KindMeans(s: Seen, kind: Kind, addr: U64, reg0: U64, env: Env): At {
    var here := Low(addr);
    match kind
    case Number => At(s, addr)
    case Text => At(SavesText(s, here, env), here)
    case StdText =>
      var text := Low(StdAddress(here, s.step, env));
      At(SavesText(Waits(s, 1), text, env), text)
    case WideText => At(SavesBytes(s, here, 512, env), here)
    case Il2cppText =>
      var text := Low(addr + 20);
      At(SavesBytes(Waits(s, 1), text, 512, env), text)
    case Struct(size, _) => At(SavesBytes(Waits(s, 1), here, UpTo4096(size % TWO32), env), here)
    case Counted(reg) => At(SavesBytes(Waits(s, 3), here, UpTo4096(Register(reg, reg0, env)), env), here)
    case Iovec => IovecMeans(s, addr, env)
    case TextArray(wide) => SavesArray(Waits(s, 2), addr, 32, wide, env)
    case IovecArray(reg) =>
      var count := Register(reg, reg0, env);
      var t := Saves(Waits(s, 2), WordWants(s.index, count, s.step + 2, env));
      SavesIovecs(Waits(t, 1), addr, UpTo32(count), env)
    case Msghdr =>
      var k := s.step;
      var control := ControlMeans(s, here, env);
      SavesIovecs(Waits(control, 6), env.word(k + 12, here + 16), UpTo32(env.word(k + 10, here + 24)), env)
  }

  // ---------------------------------------------------------------------------
  // Saves mean what they should
  // ---------------------------------------------------------------------------

  lemma WordKept(records: seq<Record>, index: Byte, value: nat, k: nat, env: Env)
    ensures SaveWord(records, index, value, k, env).records == Kept(records, WordWants(index, value, k, env))
  {
    hide EncodeAll, LittleEndian;
    assert |LittleEndian(value, 8)| == 8;
    var wants := WordWants(index, value, k, env);
    assert Kept(records, wants[1..]) == records;
  }

  /** A first choice that is saved, or else a second. */
  lemma TwoChoices(records: seq<Record>, a: Want, b: Want)
    ensures Kept(records, [a, b]) ==
            if a.ok && |EncodeAll(records)| + a.room <= 32000 then records + [a.record]
            else if b.ok && |EncodeAll(records)| + b.room <= 32000 then records + [b.record]
            else records
  {
    hide EncodeAll;
    assert [a, b][1..] == [b] && [b][1..] == [];
    assert Kept(records, [b][1..]) == records;
  }

  lemma EmptyKept(records: seq<Record>, index: Byte, size: nat, k: nat, env: Env)
    requires size == 0 || size == STRARR_MAGIC_LEN
    ensures var w := EmptyWant(index, size, k, env);
            SaveEmpty(records, index, size, k, env) ==
            if w.ok && |EncodeAll(records)| + w.room <= 32000 then records + [w.record] else records
  {
    hide EncodeAll;
    MaskKeeps(size);
    assert Left(env.bytes(k, 0, 0).left, 0) == [];
  }

  lemma BytesKept(records: seq<Record>, index: Byte, addr: nat, size: nat, k: nat, env: Env)
    requires size <= 4096
    ensures SaveBlock(records, index, addr, size, k, env).records ==
            Kept(records, [BytesWant(index, addr, size, k, env), EmptyWant(index, 0, k, env)])
  {
    hide EncodeAll, Masked, Kept, SaveEmpty;
    MaskKeeps(size);
    EmptyKept(records, index, 0, k, env);
    TwoChoices(records, BytesWant(index, addr, size, k, env), EmptyWant(index, 0, k, env));
  }

  lemma TextKept(records: seq<Record>, index: Byte, addr: nat, k: nat, env: Env)
    ensures SaveText(records, index, addr, k, env).records ==
            Kept(records, [TextWant(index, addr, k, env), EmptyWant(index, 0, k, env)])
  {
    hide EncodeAll, Kept, SaveEmpty;
    EmptyKept(records, index, 0, k, env);
    TwoChoices(records, TextWant(index, addr, k, env), EmptyWant(index, 0, k, env));
  }

  lemma BehindKept(records: seq<Record>, index: Byte, addr: nat, wide: bool, k: nat, env: Env)
    ensures var w := if wide then BytesWant(index, addr, 512, k, env) else TextWant(index, addr, k, env);
            var saved := SaveBehind(records, index, addr, wide, k, env);
            && saved.records == Kept(records, [w, EmptyWant(index, 0xffff_0000, k, env)])
            && (saved.ok <==> w.ok && |EncodeAll(records)| + w.room <= 32000)
  {
    hide EncodeAll, Masked, Kept, SaveEmpty;
    MaskKeeps(512);
    EmptyKept(records, index, STRARR_MAGIC_LEN, k, env);
    var w := if wide then BytesWant(index, addr, 512, k, env) else TextWant(index, addr, k, env);
    TwoChoices(records, w, EmptyWant(index, 0xffff_0000, k, env));
  }

  // ---------------------------------------------------------------------------
  // Single steps
  // ---------------------------------------------------------------------------

  lemma RunNext(vm: Vm, k: nat, n: nat, prog: Program, env: Env)
    requires Run(vm, k, n, prog, env).status == Running
    ensures Run(vm, k, n + 1, prog, env) == Step(Run(vm, k, n, prog, env), k + n, prog, env)
  {
    hide Step, Run;
    RunSplit(vm, k, n, 1, prog, env);
    RunOnce(Run(vm, k, n, prog, env), k + n, prog, env);
  }

  lemma RunNone(vm: Vm, k: nat, prog: Program, env: Env)
    ensures Run(vm, k, 0, prog, env) == vm
  {
  }

  /** On the way through an argument: nothing pending, the event not rejected. */
  predicate Stands(vm: Vm, s: Seen, at: nat) {
    && Going(vm, at) && !s.rejected
    && vm.records == s.records && vm.ctx.saveIndex == s.index
    && vm.ctx.flags == Flags(s.tried, false, s.white, false)
  }

  /** What reading through an address leaves alone. */
  predicate Steady(vm: Vm, g: Vm) {
    g.ctx.reg0 == vm.ctx.reg0 && g.ctx.loop == vm.ctx.loop && g.ctx.tmpValue == vm.ctx.tmpValue
  }

  lemma ComputeRuns(vm: Vm, k: nat, at: nat, op: Op, prog: Program, env: Env)
    requires Going(vm, at) && IsOp(prog, at, op) && OnlyComputes(op.code) && BodyCode(op.code)
    ensures var g := Step(vm, k, prog, env);
            && g.status == Running && g.op == Some(op) && Untouched(vm, g)
            && g.ctx.keyIndex == at + 1 && g.ctx.post == op.post && g.ctx.loop == vm.ctx.loop
            && (op.code != SetTmpValue ==> Steady(vm, g))
            && g.ctx == Compute(Fetched(vm.ctx, op), op, k, env)
  {
    hide Step, Compute;
    ComputeStep(vm, k, at, op, prog, env);
    ComputeKeeps(Fetched(vm.ctx, op), op, k, env);
    ComputeUntouched(Fetched(vm.ctx, op), op, k, env);
  }

  lemma ComputeUntouched(c: Ctx, op: Op, k: nat, env: Env)
    ensures var d := Compute(c, op, k, env);
            && d.saveIndex == c.saveIndex && d.flags == c.flags && d.reg0 == c.reg0
            && (c.code != SetTmpValue ==> d.tmpValue == c.tmpValue)
  {
    hide Add, Sub, Min, StdStringAddress, PointerAddress;
  }

  function Loaded(vm: Vm, op: Op): Vm {
    vm.(ctx := Fetched(vm.ctx, op), op := Some(op))
  }

  lemma SaveRuns(vm: Vm, k: nat, at: nat, op: Op, prog: Program, env: Env)
    requires Going(vm, at) && IsOp(prog, at, op) && IsSave(op.code) && op.post == Skip
    ensures var g := Step(vm, k, prog, env);
            && g == Save(Loaded(vm, op), op, k, env) && Going(g, at + 1)
            && g.ctx.reg0 == vm.ctx.reg0 && g.ctx.tmpValue == vm.ctx.tmpValue
  {
    hide Save, Judge, Compute, ReadRegister;
    SaveKeeps(Loaded(vm, op), op, k, env);
    SaveKeepsOp(Loaded(vm, op), op, k, env);
    SaveKeepsReg0(Loaded(vm, op), op, k, env);
  }

  lemma SaveKeepsReg0(vm: Vm, op: Op, k: nat, env: Env)
    ensures Save(vm, op, k, env).ctx.reg0 == vm.ctx.reg0 && Save(vm, op, k, env).ctx.tmpValue == vm.ctx.tmpValue
  {
    hide SaveWord, SaveBlock, SaveText, SaveBehind, Untag, StructLength;
  }

  /** A pending post-code, run on the op it belongs to. */
  function Resumed(vm: Vm): Vm {
    vm.(ctx := vm.ctx.(code := vm.ctx.post, post := Skip))
  }

  lemma PendingSaveRuns(vm: Vm, k: nat, prog: Program, env: Env)
    requires vm.status == Running && vm.op.Some? && IsSave(vm.ctx.post) && !vm.ctx.flags.matchBlack
    ensures var g := Step(vm, k, prog, env);
            && g == Save(Resumed(vm), vm.op.value, k, env) && Going(g, vm.ctx.keyIndex)
            && g.ctx.reg0 == vm.ctx.reg0 && g.ctx.tmpValue == vm.ctx.tmpValue
  {
    hide Save, Judge, Compute, ReadRegister;
    SaveKeeps(Resumed(vm), vm.op.value, k, env);
    SaveKeepsOp(Resumed(vm), vm.op.value, k, env);
    SaveKeepsReg0(Resumed(vm), vm.op.value, k, env);
  }

  lemma PendingComputeRuns(vm: Vm, k: nat, prog: Program, env: Env)
    requires vm.status == Running && vm.op.Some? && !vm.ctx.flags.matchBlack
    requires OnlyComputes(vm.ctx.post) && BodyCode(vm.ctx.post)
    ensures var g := Step(vm, k, prog, env);
            && Going(g, vm.ctx.keyIndex) && Untouched(vm, g) && g.ctx.loop == vm.ctx.loop
            && (vm.ctx.post != SetTmpValue ==> Steady(vm, g))
            && g.ctx == Compute(Resumed(vm).ctx, vm.op.value, k, env)
  {
    hide Save, Judge, Compute, ReadRegister;
    ComputeKeeps(Resumed(vm).ctx, vm.op.value, k, env);
    ComputeUntouched(Resumed(vm).ctx, vm.op.value, k, env);
  }

  // ---------------------------------------------------------------------------
  // What a save op does, from any state
  // ---------------------------------------------------------------------------

  lemma SetLengthKeeps(c: Ctx, s: Saved)
    requires s.ok ==> s.records != []
    ensures SetLength(c, s) == c.(strLen := SetLength(c, s).strLen)
  {
  }

  lemma TextSaves(vm: Vm, s: Seen, op: Op, env: Env)
    requires vm.ctx.code == SaveString && vm.records == s.records && vm.ctx.saveIndex == s.index
    ensures var g, t := Save(vm, op, s.step, env), SavesText(s, Low(vm.ctx.readAddr), env);
            && g.records == t.records && g.ctx.saveIndex == t.index && g.ctx.flags == vm.ctx.flags
            && g.ctx.readAddr == Low(vm.ctx.readAddr) && g.ctx.loop == vm.ctx.loop
  {
    hide SaveText, Kept, TextWant, EmptyWant, SetLength;
    var c, here := vm.ctx, Low(vm.ctx.readAddr);
    TextKept(s.records, s.index, here, s.step, env);
    SavedNonEmpty(s.records, s.index, here, 0, s.step, env);
    SetLengthKeeps(c.(readAddr := here, saveIndex := NextIndex(s.index)),
                   SaveText(s.records, s.index, here, s.step, env));
  }

  lemma WideSaves(vm: Vm, s: Seen, op: Op, env: Env)
    requires vm.ctx.code == SaveString16 && vm.records == s.records && vm.ctx.saveIndex == s.index
    ensures var g, t := Save(vm, op, s.step, env), SavesBytes(s, Low(vm.ctx.readAddr), 512, env);
            && g.records == t.records && g.ctx.saveIndex == t.index && g.ctx.flags == vm.ctx.flags
            && g.ctx.readAddr == Low(vm.ctx.readAddr) && g.ctx.loop == vm.ctx.loop
  {
    hide SaveBlock, Kept, BytesWant, EmptyWant, SetLength;
    var c, here := vm.ctx, Low(vm.ctx.readAddr);
    BytesKept(s.records, s.index, here, 512, s.step, env);
    SavedNonEmpty(s.records, s.index, here, 512, s.step, env);
    SetLengthKeeps(c.(readAddr := here, saveIndex := NextIndex(s.index)),
                   SaveBlock(s.records, s.index, here, 512, s.step, env));
  }

  lemma StructSaves(vm: Vm, s: Seen, op: Op, env: Env)
    requires vm.ctx.code == SaveStruct && vm.records == s.records && vm.ctx.saveIndex == s.index
    requires op.pre != SetReadCount
    ensures var g := Save(vm, op, s.step, env);
            var t := SavesBytes(s, Low(vm.ctx.readAddr), UpTo4096(vm.ctx.readLen), env);
            && g.records == t.records && g.ctx.saveIndex == t.index && g.ctx.flags == vm.ctx.flags
            && g.ctx.readAddr == Low(vm.ctx.readAddr) && g.ctx.loop == vm.ctx.loop
  {
    hide SaveBlock, Kept, BytesWant, EmptyWant;
    BytesKept(s.records, s.index, Low(vm.ctx.readAddr), UpTo4096(vm.ctx.readLen), s.step, env);
  }

  lemma BehindSaves(vm: Vm, s: Seen, op: Op, wide: bool, env: Env)
    requires vm.ctx.code == (if wide then SavePtrString16 else SavePtrString)
    requires vm.records == s.records && vm.ctx.saveIndex == s.index
    ensures var g, t := Save(vm, op, s.step, env), SavesBehind(s, vm.ctx.readAddr, wide, env);
            && g.records == t.records && g.ctx.saveIndex == t.index && g.ctx.flags == vm.ctx.flags
            && g.ctx.readAddr == vm.ctx.readAddr
            && g.ctx.loop == if BehindSaved(s, vm.ctx.readAddr, wide, env) then vm.ctx.loop else EndLoop(vm.ctx.loop)
  {
    hide SaveWord, SaveBehind, Kept, BytesWant, TextWant, EmptyWant, WordWants, EncodeAll;
    var ptr := env.word(s.step, Low(vm.ctx.readAddr));
    WordKept(s.records, s.index, ptr, s.step, env);
    var first := Kept(s.records, WordWants(s.index, ptr, s.step, env));
    BehindKept(first, NextIndex(s.index), Low(ptr), wide, s.step, env);
  }

  // ---------------------------------------------------------------------------
  // Each kind is read as it means
  // ---------------------------------------------------------------------------

  ghost predicate Reads(vm: Vm, s: Seen, m: At, to: nat, prog: Program, env: Env) {
    && s.step <= m.seen.step
    && var g := Run(vm, s.step, m.seen.step - s.step, prog, env);
    && Stands(g, m.seen, to) && g.ctx.readAddr == m.addr && Steady(vm, g)
  }

  /** First to `m`, then to `l`. */
  lemma ReadsOn(vm: Vm, s: Seen, m: At, l: At, to: nat, prog: Program, env: Env)
    requires s.step <= m.seen.step
    requires var g := Run(vm, s.step, m.seen.step - s.step, prog, env);
             Steady(vm, g) && Reads(g, m.seen, l, to, prog, env)
    ensures Reads(vm, s, l, to, prog, env)
  {
    hide Run, Stands;
    RunSplit(vm, s.step, m.seen.step - s.step, l.seen.step - m.seen.step, prog, env);
  }

  lemma LengthComputes(c: Ctx, op: Op, k: nat, env: Env)
    requires c.code == SetReadLen
    ensures Compute(c, op, k, env) == c.(readLen := op.value % TWO32)
  {
  }

  lemma CapComputes(c: Ctx, op: Op, k: nat, env: Env)
    requires c.code == SetReadLenRegValue || c.code == SetReadLenPointerValue
    ensures var most := if c.code == SetReadLenRegValue then c.regValue else c.pointerValue;
            Compute(c, op, k, env) == c.(readLen := if c.readLen > most then most else c.readLen)
  {
  }

  lemma MoveComputes(c: Ctx, op: Op, k: nat, env: Env)
    requires c.code == MovePointerValue
    ensures Compute(c, op, k, env) == c.(readAddr := c.pointerValue)
  {
  }

  lemma PointerComputes(c: Ctx, op: Op, k: nat, env: Env)
    requires c.code == ReadPointer
    ensures Compute(c, op, k, env) == c.(pointerValue := env.word(k, PointerAddress(c, op)))
  {
    hide PointerAddress;
  }

  lemma TextComputes(c: Ctx, op: Op, k: nat, env: Env)
    requires c.code == ReadStdString || c.code == ReadIl2cppString
    ensures Compute(c, op, k, env) ==
            c.(readAddr := if c.code == ReadStdString then StdStringAddress(c, k, env) else Add(c.readAddr, 20))
  {
    hide StdStringAddress, Add;
  }

  lemma TextReads(vm: Vm, s: Seen, at: nat, prog: Program, env: Env)
    requires Stands(vm, s, at) && IsOp(prog, at, Plain(SaveString, 0))
    ensures var here := Low(vm.ctx.readAddr);
            Reads(vm, s, At(SavesText(s, here, env), here), at + 1, prog, env)
  {
    hide Run, Step, Save, Kept, TextWant, EmptyWant, IsOp, Low;
    var op := Plain(SaveString, 0);
    RunOnce(vm, s.step, prog, env);
    SaveRuns(vm, s.step, at, op, prog, env);
    TextSaves(Loaded(vm, op), s, op, env);
  }

  lemma WideReads(vm: Vm, s: Seen, at: nat, prog: Program, env: Env)
    requires Stands(vm, s, at) && IsOp(prog, at, Plain(SaveString16, 0))
    ensures var here := Low(vm.ctx.readAddr);
            Reads(vm, s, At(SavesBytes(s, here, 512, env), here), at + 1, prog, env)
  {
    hide Run, Step, Save, Kept, BytesWant, EmptyWant, IsOp, Low;
    var op := Plain(SaveString16, 0);
    RunOnce(vm, s.step, prog, env);
    SaveRuns(vm, s.step, at, op, prog, env);
    WideSaves(Loaded(vm, op), s, op, env);
  }

  lemma BlockReads(vm: Vm, s: Seen, at: nat, prog: Program, env: Env)
    requires Stands(vm, s, at) && IsOp(prog, at, Plain(SaveStruct, 0))
    ensures var here := Low(vm.ctx.readAddr);
            Reads(vm, s, At(SavesBytes(s, here, UpTo4096(vm.ctx.readLen), env), here), at + 1, prog, env)
  {
    hide Run, Step, Save, Kept, BytesWant, EmptyWant, IsOp, Low, UpTo4096;
    var op := Plain(SaveStruct, 0);
    RunOnce(vm, s.step, prog, env);
    SaveRuns(vm, s.step, at, op, prog, env);
    StructSaves(Loaded(vm, op), s, op, env);
  }

  /** A computing op takes a step and saves nothing. */
  lemma ComputeReads(vm: Vm, s: Seen, at: nat, op: Op, prog: Program, env: Env)
    requires Stands(vm, s, at) && IsOp(prog, at, op) && OnlyComputes(op.code) && BodyCode(op.code) && op.post == Skip
    ensures var g := Step(vm, s.step, prog, env);
            && Run(vm, s.step, 1, prog, env) == g && Stands(g, Waits(s, 1), at + 1)
            && (op.code != SetTmpValue ==> Steady(vm, g))
            && g.ctx == Compute(Fetched(vm.ctx, op), op, s.step, env)
  {
    hide Run, Step, Compute, IsOp, OnlyComputes, BodyCode;
    ComputeRuns(vm, s.step, at, op, prog, env);
    RunOnce(vm, s.step, prog, env);
  }

  lemma SetsLength(vm: Vm, s: Seen, at: nat, size: U64, prog: Program, env: Env)
    requires Stands(vm, s, at) && IsOp(prog, at, Plain(SetReadLen, size))
    ensures var g := Step(vm, s.step, prog, env);
            && Run(vm, s.step, 1, prog, env) == g && Stands(g, Waits(s, 1), at + 1) && Steady(vm, g)
            && g.ctx.readLen == size % TWO32 && g.ctx.readAddr == vm.ctx.readAddr
  {
    hide Run, Step, Stands, Compute, IsOp, Min;
    ComputeReads(vm, s, at, Plain(SetReadLen, size), prog, env);
    LengthComputes(Fetched(vm.ctx, Plain(SetReadLen, size)), Plain(SetReadLen, size), s.step, env);
  }

  lemma ReadsPointer(vm: Vm, s: Seen, at: nat, prog: Program, env: Env)
    requires Stands(vm, s, at) && IsOp(prog, at, Plain(ReadPointer, 0))
    ensures var g := Step(vm, s.step, prog, env);
            && Run(vm, s.step, 1, prog, env) == g && Stands(g, Waits(s, 1), at + 1) && Steady(vm, g)
            && g.ctx.pointerValue == env.word(s.step, vm.ctx.readAddr) && g.ctx.readLen == vm.ctx.readLen
  {
    hide Run, Step, Stands, Compute, IsOp, Add, StdStringAddress;
    ComputeReads(vm, s, at, Plain(ReadPointer, 0), prog, env);
    PointerComputes(Fetched(vm.ctx, Plain(ReadPointer, 0)), Plain(ReadPointer, 0), s.step, env);
  }

  lemma MovesPointer(vm: Vm, s: Seen, at: nat, prog: Program, env: Env)
    requires Stands(vm, s, at) && IsOp(prog, at, Plain(MovePointerValue, 0))
    ensures var g := Step(vm, s.step, prog, env);
            && Run(vm, s.step, 1, prog, env) == g && Stands(g, Waits(s, 1), at + 1) && Steady(vm, g)
            && g.ctx.readAddr == vm.ctx.pointerValue && g.ctx.readLen == vm.ctx.readLen
  {
    hide Run, Step, Stands, Compute, IsOp, Add, StdStringAddress;
    ComputeReads(vm, s, at, Plain(MovePointerValue, 0), prog, env);
    MoveComputes(Fetched(vm.ctx, Plain(MovePointerValue, 0)), Plain(MovePointerValue, 0), s.step, env);
  }

  lemma StdAddressed(c: Ctx, k: nat, env: Env)
    ensures StdStringAddress(c, k, env) == StdAddress(Low(c.readAddr), k, env)
  {
    var ptr := Low(c.readAddr);
    assert Add(ptr, 1) == ptr + 1 && Add(ptr, 16) == ptr + 16;
  }

  lemma StdTextReads(vm: Vm, s: Seen, at: nat, prog: Program, env: Env)
    requires Stands(vm, s, at) && IsOp(prog, at, Plain(ReadStdString, 0)) && IsOp(prog, at + 1, Plain(SaveString, 0))
    ensures var text := Low(StdAddress(Low(vm.ctx.readAddr), s.step, env));
            Reads(vm, s, At(SavesText(Waits(s, 1), text, env), text), at + 2, prog, env)
  {
    hide Run, Step, Stands, Reads, Compute, IsOp, Low, StdStringAddress, StdAddress, SavesText, PointerAddress;
    var op := Plain(ReadStdString, 0);
    ComputeReads(vm, s, at, op, prog, env);
    TextComputes(Fetched(vm.ctx, op), op, s.step, env);
    StdAddressed(Fetched(vm.ctx, op), s.step, env);
    var g := Step(vm, s.step, prog, env);
    TextReads(g, Waits(s, 1), at + 1, prog, env);
    var text := Low(StdAddress(Low(vm.ctx.readAddr), s.step, env));
    ReadsOn(vm, s, At(Waits(s, 1), 0), At(SavesText(Waits(s, 1), text, env), text), at + 2, prog, env);
  }

  lemma TagAfterAdd(a: nat, n: nat)
    ensures Low(Add(a, n)) == Low(a + n)
  {
    var x := a + n;
    assert x == x / TWO64 * TWO64 + x % TWO64;
    WrapTag(x % TWO64, x / TWO64);
  }

  lemma WrapTag(x: nat, q: nat)
    ensures (x + q * TWO64) % TWO48 == x % TWO48
  {
    assert q * TWO64 == q * 0x1_0000 * TWO48;
    ModuloAdds(x, q * 0x1_0000);
  }

  lemma {:induction false} ModuloAdds(x: nat, q: nat)
    ensures (x + q * TWO48) % TWO48 == x % TWO48
  {
  }

  lemma Il2cppReads(vm: Vm, s: Seen, at: nat, prog: Program, env: Env)
    requires Stands(vm, s, at)
    requires IsOp(prog, at, Plain(ReadIl2cppString, 0)) && IsOp(prog, at + 1, Plain(SaveString16, 0))
    ensures var text := Low(vm.ctx.readAddr + 20);
            Reads(vm, s, At(SavesBytes(Waits(s, 1), text, 512, env), text), at + 2, prog, env)
  {
    hide Run, Step, Stands, Reads, Compute, IsOp, Low, Add, SavesBytes, PointerAddress, StdStringAddress;
    var op := Plain(ReadIl2cppString, 0);
    ComputeReads(vm, s, at, op, prog, env);
    TextComputes(Fetched(vm.ctx, op), op, s.step, env);
    TagAfterAdd(vm.ctx.readAddr, 20);
    var g := Step(vm, s.step, prog, env);
    WideReads(g, Waits(s, 1), at + 1, prog, env);
    var text := Low(vm.ctx.readAddr + 20);
    ReadsOn(vm, s, At(Waits(s, 1), 0), At(SavesBytes(Waits(s, 1), text, 512, env), text), at + 2, prog, env);
  }

  lemma StructReads(vm: Vm, s: Seen, at: nat, size: U64, prog: Program, env: Env)
    requires Stands(vm, s, at)
    requires IsOp(prog, at, Plain(SetReadLen, size)) && IsOp(prog, at + 1, Plain(SaveStruct, 0))
    ensures var here := Low(vm.ctx.readAddr);
            Reads(vm, s, At(SavesBytes(Waits(s, 1), here, UpTo4096(size % TWO32), env), here), at + 2, prog, env)
  {
    hide Run, Step, Stands, Reads, IsOp, Low, UpTo4096, SavesBytes;
    SetsLength(vm, s, at, size, prog, env);
    var g, here := Step(vm, s.step, prog, env), Low(vm.ctx.readAddr);
    BlockReads(g, Waits(s, 1), at + 1, prog, env);
    ReadsOn(vm, s, At(Waits(s, 1), 0),
            At(SavesBytes(Waits(s, 1), here, UpTo4096(size % TWO32), env), here), at + 2, prog, env);
  }

  /** Between the two halves of a fused op. */
  predicate Halfway(vm: Vm, s: Seen, at: nat, op: Op) {
    && vm.status == Running && vm.op == Some(op) && vm.ctx.post == op.post && vm.ctx.keyIndex == at
    && !s.rejected && vm.records == s.records && vm.ctx.saveIndex == s.index
    && vm.ctx.flags == Flags(s.tried, false, s.white, false)
  }

  lemma FirstComputes(vm: Vm, s: Seen, at: nat, op: Op, prog: Program, env: Env)
    requires Stands(vm, s, at) && IsOp(prog, at, op) && OnlyComputes(op.code) && BodyCode(op.code)
    ensures var g := Step(vm, s.step, prog, env);
            && Halfway(g, Waits(s, 1), at + 1, op) && (op.code != SetTmpValue ==> Steady(vm, g))
            && g.ctx == Compute(Fetched(vm.ctx, op), op, s.step, env)
  {
    hide Step, Compute, IsOp, OnlyComputes, BodyCode;
    ComputeRuns(vm, s.step, at, op, prog, env);
  }

  lemma ThenComputes(vm: Vm, s: Seen, at: nat, op: Op, prog: Program, env: Env)
    requires Halfway(vm, s, at, op) && OnlyComputes(op.post) && BodyCode(op.post)
    ensures var g := Step(vm, s.step, prog, env);
            && Stands(g, Waits(s, 1), at) && (op.post != SetTmpValue ==> Steady(vm, g))
            && g.ctx == Compute(Resumed(vm).ctx, op, s.step, env)
  {
    hide Step, Compute, OnlyComputes, BodyCode;
    PendingComputeRuns(vm, s.step, prog, env);
  }

  lemma ThenMoves(vm: Vm, s: Seen, at: nat, op: Op, prog: Program, env: Env)
    requires Halfway(vm, s, at, op) && op.post == MovePointerValue
    ensures var g := Step(vm, s.step, prog, env);
            && Stands(g, Waits(s, 1), at) && Steady(vm, g)
            && g.ctx.readAddr == vm.ctx.pointerValue && g.ctx.readLen == vm.ctx.readLen
  {
    hide Step, Stands, Compute, Add, StdStringAddress, PointerAddress;
    ThenComputes(vm, s, at, op, prog, env);
    MoveComputes(Resumed(vm).ctx, op, s.step, env);
  }

  lemma ThenCaps(vm: Vm, s: Seen, at: nat, op: Op, prog: Program, env: Env)
    requires Halfway(vm, s, at, op) && (op.post == SetReadLenRegValue || op.post == SetReadLenPointerValue)
    requires vm.ctx.readLen == 4096
    ensures var g, c := Step(vm, s.step, prog, env), vm.ctx;
            && Stands(g, Waits(s, 1), at) && Steady(vm, g) && g.ctx.readAddr == c.readAddr
            && g.ctx.readLen == UpTo4096(if op.post == SetReadLenRegValue then c.regValue else c.pointerValue)
  {
    hide Step, Stands, Compute;
    ThenComputes(vm, s, at, op, prog, env);
    CapComputes(Resumed(vm).ctx, op, s.step, env);
  }

  lemma ThenSavesBlock(vm: Vm, s: Seen, at: nat, op: Op, prog: Program, env: Env)
    requires Halfway(vm, s, at, op) && op.post == SaveStruct && op.pre == Skip
    ensures var g := Step(vm, s.step, prog, env);
            && Stands(g, SavesBytes(s, Low(vm.ctx.readAddr), UpTo4096(vm.ctx.readLen), env), at)
            && g.ctx.readAddr == Low(vm.ctx.readAddr) && Steady(vm, g)
  {
    hide Step, Save, Low, UpTo4096, Kept, BytesWant, EmptyWant;
    PendingSaveRuns(vm, s.step, prog, env);
    StructSaves(Resumed(vm), s, op, env);
  }

  lemma FusedStructReads(vm: Vm, s: Seen, at: nat, size: U64, prog: Program, env: Env)
    requires Stands(vm, s, at) && IsOp(prog, at, Op(SetReadLen, Skip, SaveStruct, size))
    ensures var here := Low(vm.ctx.readAddr);
            Reads(vm, s, At(SavesBytes(Waits(s, 1), here, UpTo4096(size % TWO32), env), here), at + 1, prog, env)
  {
    hide Run, Step, Compute, IsOp, Low, UpTo4096, BytesWant, EmptyWant, Kept, Min;
    var op := Op(SetReadLen, Skip, SaveStruct, size);
    FirstComputes(vm, s, at, op, prog, env);
    LengthComputes(Fetched(vm.ctx, op), op, s.step, env);
    var g := Step(vm, s.step, prog, env);
    ThenSavesBlock(g, Waits(s, 1), at + 1, op, prog, env);
    RunTwice(vm, s.step, prog, env);
    hide Stands;
  }

  lemma FirstReadsRegister(vm: Vm, s: Seen, at: nat, op: Op, prog: Program, env: Env)
    requires Stands(vm, s, at) && IsOp(prog, at, op)
    requires op.code == ReadReg && op.pre == SetRegIndex && op.value < REG_MAX
    ensures var g := Step(vm, s.step, prog, env);
            && Halfway(g, Waits(s, 1), at + 1, op) && Steady(vm, g)
            && g.ctx.regValue == Register(op.value, vm.ctx.reg0, env)
            && g.ctx.readAddr == vm.ctx.readAddr && g.ctx.readLen == vm.ctx.readLen
  {
    hide Save, Judge, Compute;
    assert op.value % 256 == op.value;
  }

  /** The second op of a counted buffer, in two steps. */
  lemma LengthFromRegister(vm: Vm, s: Seen, at: nat, reg: U64, prog: Program, env: Env)
    requires Stands(vm, s, at) && reg < REG_MAX && vm.ctx.readLen == 4096
    requires IsOp(prog, at, Op(ReadReg, SetRegIndex, SetReadLenRegValue, reg))
    ensures var g := Run(vm, s.step, 2, prog, env);
            && Stands(g, Waits(s, 2), at + 1) && Steady(vm, g) && g.ctx.readAddr == vm.ctx.readAddr
            && g.ctx.readLen == UpTo4096(Register(reg, vm.ctx.reg0, env))
  {
    hide Run, Step, Stands, IsOp, Register, UpTo4096;
    var op := Op(ReadReg, SetRegIndex, SetReadLenRegValue, reg);
    FirstReadsRegister(vm, s, at, op, prog, env);
    var g := Step(vm, s.step, prog, env);
    ThenCaps(g, Waits(s, 1), at + 1, op, prog, env);
    StandsRuns(vm, s, at);
    RunTwice(vm, s.step, prog, env);
  }

  lemma CountedReads(vm: Vm, s: Seen, at: nat, reg: U64, prog: Program, env: Env)
    requires Stands(vm, s, at) && reg < REG_MAX && IsOp(prog, at, Plain(SetReadLen, 4096))
    requires IsOp(prog, at + 1, Op(ReadReg, SetRegIndex, SetReadLenRegValue, reg))
    requires IsOp(prog, at + 2, Plain(SaveStruct, 0))
    ensures var here, n := Low(vm.ctx.readAddr), UpTo4096(Register(reg, vm.ctx.reg0, env));
            Reads(vm, s, At(SavesBytes(Waits(s, 3), here, n, env), here), at + 3, prog, env)
  {
    hide Run, Step, Stands, Reads, IsOp, Low, SavesBytes, Register;
    SetsLength(vm, s, at, 4096, prog, env);
    var g := Step(vm, s.step, prog, env);
    LengthFromRegister(g, Waits(s, 1), at + 1, reg, prog, env);
    var h := Run(g, s.step + 1, 2, prog, env);
    BlockReads(h, Waits(s, 3), at + 2, prog, env);
    var here, n := Low(vm.ctx.readAddr), UpTo4096(Register(reg, vm.ctx.reg0, env));
    var end := At(SavesBytes(Waits(s, 3), here, n, env), here);
    ReadsOn(g, Waits(s, 1), At(Waits(s, 3), 0), end, at + 3, prog, env);
    ReadsOn(vm, s, At(Waits(s, 1), 0), end, at + 3, prog, env);
  }

  lemma FirstReadsPointer(vm: Vm, s: Seen, at: nat, offset: U64, post: Code, prog: Program, env: Env)
    requires Stands(vm, s, at) && vm.ctx.readAddr < TWO48 && offset < 4096
    requires IsOp(prog, at, PointerAt(offset, post))
    ensures var g := Step(vm, s.step, prog, env);
            && Halfway(g, Waits(s, 1), at + 1, PointerAt(offset, post)) && Steady(vm, g)
            && g.ctx.pointerValue == env.word(s.step, vm.ctx.readAddr + offset)
            && g.ctx.readAddr == vm.ctx.readAddr && g.ctx.readLen == vm.ctx.readLen
  {
    hide Step, Stands, Compute, IsOp, StdStringAddress;
    var op := PointerAt(offset, post);
    FirstComputes(vm, s, at, op, prog, env);
    PointerComputes(Fetched(vm.ctx, op), op, s.step, env);
    assert Add(vm.ctx.readAddr, offset) == vm.ctx.readAddr + offset;
  }

  /** A length read at an offset, in two steps. */
  lemma LengthFromPointer(vm: Vm, s: Seen, at: nat, offset: U64, prog: Program, env: Env)
    requires Stands(vm, s, at) && vm.ctx.readAddr < TWO48 && offset < 4096 && vm.ctx.readLen == 4096
    requires IsOp(prog, at, PointerAt(offset, SetReadLenPointerValue))
    ensures var g := Run(vm, s.step, 2, prog, env);
            && Stands(g, Waits(s, 2), at + 1) && Steady(vm, g) && g.ctx.readAddr == vm.ctx.readAddr
            && g.ctx.readLen == UpTo4096(env.word(s.step, vm.ctx.readAddr + offset))
  {
    hide Run, Step, Stands, IsOp, UpTo4096;
    var op := PointerAt(offset, SetReadLenPointerValue);
    FirstReadsPointer(vm, s, at, offset, op.post, prog, env);
    var g := Step(vm, s.step, prog, env);
    ThenCaps(g, Waits(s, 1), at + 1, op, prog, env);
    StandsRuns(vm, s, at);
    RunTwice(vm, s.step, prog, env);
  }

  /** An address read at an offset, in two steps. */
  lemma AddressFromPointer(vm: Vm, s: Seen, at: nat, offset: U64, prog: Program, env: Env)
    requires Stands(vm, s, at) && vm.ctx.readAddr < TWO48 && offset < 4096
    requires IsOp(prog, at, PointerAt(offset, MovePointerValue))
    ensures var g := Run(vm, s.step, 2, prog, env);
            && Stands(g, Waits(s, 2), at + 1) && Steady(vm, g) && g.ctx.readLen == vm.ctx.readLen
            && g.ctx.readAddr == env.word(s.step, vm.ctx.readAddr + offset)
  {
    hide Run, Step, Stands, IsOp;
    var op := PointerAt(offset, MovePointerValue);
    FirstReadsPointer(vm, s, at, offset, op.post, prog, env);
    var g := Step(vm, s.step, prog, env);
    ThenMoves(g, Waits(s, 1), at + 1, op, prog, env);
    StandsRuns(vm, s, at);
    RunTwice(vm, s.step, prog, env);
  }

  lemma StandsRuns(vm: Vm, s: Seen, at: nat)
    requires Stands(vm, s, at)
    ensures vm.status == Running
  {
  }

  /** The address of an iovec's buffer, and the buffer, in three steps. */
  lemma BufferFromPointer(vm: Vm, s: Seen, at: nat, prog: Program, env: Env)
    requires Stands(vm, s, at) && IsOp(prog, at, Plain(ReadPointer, 0))
    requires IsOp(prog, at + 1, Plain(MovePointerValue, 0)) && IsOp(prog, at + 2, Plain(SaveStruct, 0))
    ensures var base := Low(env.word(s.step, vm.ctx.readAddr));
            Reads(vm, s, At(SavesBytes(Waits(s, 2), base, UpTo4096(vm.ctx.readLen), env), base), at + 3, prog, env)
  {
    hide Run, Step, Stands, Reads, IsOp, Low, SavesBytes, UpTo4096;
    ReadsPointer(vm, s, at, prog, env);
    var g := Step(vm, s.step, prog, env);
    MovesPointer(g, Waits(s, 1), at + 1, prog, env);
    var h := Step(g, s.step + 1, prog, env);
    BlockReads(h, Waits(s, 2), at + 2, prog, env);
    var base := Low(env.word(s.step, vm.ctx.readAddr));
    var end := At(SavesBytes(Waits(s, 2), base, UpTo4096(vm.ctx.readLen), env), base);
    ReadsOn(g, Waits(s, 1), At(Waits(s, 2), 0), end, at + 3, prog, env);
    ReadsOn(vm, s, At(Waits(s, 1), 0), end, at + 3, prog, env);
  }

  /** What follows an iovec's sixteen bytes. */
  lemma IovecBufferReads(vm: Vm, s: Seen, at: nat, prog: Program, env: Env)
    requires Stands(vm, s, at) && vm.ctx.readAddr < TWO48 && HasOps(prog, at, IovecOps()[2..])
    ensures var here := vm.ctx.readAddr;
            var base, length := env.word(s.step + 3, here), env.word(s.step + 1, here + 8);
            Reads(vm, s, At(SavesBytes(Waits(s, 5), Low(base), UpTo4096(length), env), Low(base)), at + 5, prog, env)
  {
    hide Run, Step, Stands, Reads, IsOp, Low, SavesBytes;
    IovecHasOps(prog, at);
    SetsLength(vm, s, at, 4096, prog, env);
    var g := Step(vm, s.step, prog, env);
    LengthFromPointer(g, Waits(s, 1), at + 1, 8, prog, env);
    var h := Run(g, s.step + 1, 2, prog, env);
    BufferFromPointer(h, Waits(s, 3), at + 2, prog, env);
    var here := vm.ctx.readAddr;
    var base, length := env.word(s.step + 3, here), env.word(s.step + 1, here + 8);
    var end := At(SavesBytes(Waits(s, 5), Low(base), UpTo4096(length), env), Low(base));
    ReadsOn(g, Waits(s, 1), At(Waits(s, 3), 0), end, at + 5, prog, env);
    ReadsOn(vm, s, At(Waits(s, 1), 0), end, at + 5, prog, env);
  }

  lemma IovecHasOps(prog: Program, at: nat)
    requires HasOps(prog, at, IovecOps()[2..])
    ensures IsOp(prog, at, Plain(SetReadLen, 4096))
    ensures IsOp(prog, at + 1, PointerAt(8, SetReadLenPointerValue))
    ensures IsOp(prog, at + 2, Plain(ReadPointer, 0)) && IsOp(prog, at + 3, Plain(MovePointerValue, 0))
    ensures IsOp(prog, at + 4, Plain(SaveStruct, 0))
  {
    hide IsOp, Plain, PointerAt;
    OpsAt(prog, at, IovecOps()[2..], 1);
    OpsAt(prog, at, IovecOps()[2..], 2);
    OpsAt(prog, at, IovecOps()[2..], 3);
    OpsAt(prog, at, IovecOps()[2..], 4);
  }

  lemma {:induction false} OpsAt(prog: Program, at: nat, ops: seq<Op>, i: nat)
    requires HasOps(prog, at, ops) && i < |ops|
    ensures IsOp(prog, at + i, ops[i])
    decreases i
  {
    hide IsOp;
    if i > 0 {
      OpsAt(prog, at + 1, ops[1..], i - 1);
    }
  }

  lemma LowSmall(addr: nat)
    ensures Low(addr) < TWO48
  {
  }

  lemma IovecReads(vm: Vm, s: Seen, at: nat, prog: Program, env: Env)
    requires Stands(vm, s, at) && HasOps(prog, at, IovecOps())
    ensures Reads(vm, s, IovecMeans(s, vm.ctx.readAddr, env), at + 7, prog, env)
  {
    hide Run, Step, Stands, IsOp, Low, SavesBytes, HasOps;
    var here, ops := Low(vm.ctx.readAddr), IovecOps();
    LowSmall(vm.ctx.readAddr);
    assert ops == ops[..2] + ops[2..];
    HasRest(prog, at, ops[..2], ops[2..]);
    OpsAt(prog, at, ops, 0);
    OpsAt(prog, at, ops, 1);
    StructReads(vm, s, at, 16, prog, env);
    var head := SavesBytes(Waits(s, 1), here, 16, env);
    assert head.step == s.step + 2 by {
      SavesBytesSteps(Waits(s, 1), here, 16, env);
    }
    var g := Run(vm, s.step, 2, prog, env);
    IovecBufferReads(g, head, at + 2, prog, env);
    ReadsOn(vm, s, At(head, here), IovecMeans(s, vm.ctx.readAddr, env), at + 7, prog, env);
  }

  lemma SavesBytesSteps(s: Seen, addr: nat, size: nat, env: Env)
    ensures SavesBytes(s, addr, size, env).step == s.step + 1
  {
  }
}
