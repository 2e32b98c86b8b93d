/** Read expressions such as `sp+0x20-0x8.+8`: compiled to ops (user/config/config_file.go,
    user/argtype/op_helper.go) and run by the argument interpreter (src/utils.h). */
module ReadExpr {
  import opened Common
  import opened ArgBuffer
  import opened ArgVm
  import opened ArgLoop

  // ---------------------------------------------------------------------------
  // Expressions
  // ---------------------------------------------------------------------------

  /** What a token stands for: a number, a register, or neither. */
  datatype Token = Const(value: U64) | Reg(number: nat) | NoToken

  /** A dereference, or a token with the sign before it. */
  datatype Item = Deref | Term(minus: bool, token: Token)

  /** The ops an item becomes; `first` says that no register has been met. */
  function Emit(item: Item, first: bool): seq<Op> {
    match item
    case Deref => [Op(ReadPointer, Skip, Skip, 0), Op(MovePointerValue, Skip, Skip, 0)]
    case Term(minus, Const(v)) => [Op(if minus then SubOffset else AddOffset, Skip, Skip, v)]
    case Term(minus, Reg(r)) =>
      [Op(ReadReg, SetRegIndex, MoveRegValue, r % TWO64)]
      + (if first then [] else [Op(if minus then SubReg else AddReg, Skip, Skip, 0)])
    case Term(_, NoToken) => []
  }

  function StillFirst(item: Item, first: bool): bool {
    first && !(item.Term? && item.token.Reg?)
  }

  function EmitAll(items: seq<Item>, first: bool): seq<Op> {
    if items == [] then [] else Emit(items[0], first) + EmitAll(items[1..], StillFirst(items[0], first))
  }

  const SAVE_ADDR_OP := Op(SaveAddr, Skip, Skip, 0)

  /** The ops of a whole expression. */
  function Compiled(items: seq<Item>): seq<Op> {
    EmitAll(items, true) + [SAVE_ADDR_OP]
  }

  predicate Arithmetic(items: seq<Item>) {
    forall i :: 0 <= i < |items| ==> items[i].Deref? || items[i].token.Const?
  }

  /** One register, then constants and dereferences. */
  predicate SingleRegister(items: seq<Item>) {
    && items != [] && items[0].Term? && items[0].token.Reg? && items[0].token.number < REG_MAX
    && Arithmetic(items[1..])
  }

  /** To 64 bits. */
  function Wrap(x: int): U64 {
    x % TWO64
  }

  lemma WrapSmall(x: U64)
    ensures Wrap(x) == x
  {
  }

  /** The address an expression denotes, in unbounded integers: memory wraps the address it
      is asked for, and nothing else does.  `k` is the step at which the first item is run;
      memory may answer differently each time it is asked. */
  function Denotes(start: int, items: seq<Item>, k: nat, env: Env): int
    requires Arithmetic(items)
    decreases |items|
  {
    if items == [] then start
    else
      var next := match items[0]
        case Deref => env.word(k, Wrap(start))
        case Term(minus, Const(v)) => if minus then start - v else start + v
        case Term(_, _) => start;
      Denotes(next, items[1..], k + |Emit(items[0], false)|, env)
  }

  /** The same for memory that does not change. */
  function DenotesIn(start: int, items: seq<Item>, memory: nat -> U64): int
    requires Arithmetic(items)
    decreases |items|
  {
    if items == [] then start
    else
      var next := match items[0]
        case Deref => memory(Wrap(start))
        case Term(minus, Const(v)) => if minus then start - v else start + v
        case Term(_, _) => start;
      DenotesIn(next, items[1..], memory)
  }

  /** If memory keeps still, when it is read does not matter. */
  lemma {:induction false} StableMemory(start: int, items: seq<Item>, k: nat, env: Env, memory: nat -> U64)
    requires Arithmetic(items)
    requires forall k, x :: env.word(k, x) == memory(x)
    ensures Denotes(start, items, k, env) == DenotesIn(start, items, memory)
    decreases |items|
  {
    if items != [] {
      var next := match items[0]
        case Deref => memory(Wrap(start)) as int
        case Term(minus, Const(v)) => if minus then start - v else start + v
        case Term(_, _) => start;
      StableMemory(next, items[1..], k + |Emit(items[0], false)|, env, memory);
    }
  }

  // ---------------------------------------------------------------------------
  // Running the ops
  // ---------------------------------------------------------------------------

  predicate IsOp(prog: Program, i: nat, op: Op) {
    Defined(prog, i) && OpAt(prog, i) == op
  }

  /** The program has these ops from position `at` on. */
  predicate HasOps(prog: Program, at: nat, ops: seq<Op>)
    decreases |ops|
  {
    ops == [] || (IsOp(prog, at, ops[0]) && HasOps(prog, at + 1, ops[1..]))
  }

  lemma {:induction false} HasRest(prog: Program, at: nat, a: seq<Op>, b: seq<Op>)
    requires HasOps(prog, at, a + b)
    ensures HasOps(prog, at, a) && HasOps(prog, at + |a|, b)
    decreases |a|
  {
    hide IsOp;
    if a == [] {
      assert a + b == b;
    } else {
      assert (a + b)[1..] == a[1..] + b;
      HasRest(prog, at + 1, a[1..], b);
    }
  }

  /** Nothing has been saved or judged on the way. */
  predicate Untouched(vm: Vm, g: Vm) {
    g.records == vm.records && g.ctx.saveIndex == vm.ctx.saveIndex && g.ctx.flags == vm.ctx.flags
    && g.ctx.reg0 == vm.ctx.reg0
  }

  /** About to fetch the op at `at`, with an event still wanted. */
  predicate Going(vm: Vm, at: nat) {
    Ready(vm, at) && !vm.ctx.flags.matchBlack
  }

  predicate Address(vm: Vm, value: int) {
    vm.ctx.readAddr == Wrap(value)
  }

  lemma AddWraps(a: int, b: nat)
    ensures Add(Wrap(a), b) == Wrap(a + b)
    ensures Sub(Wrap(a), b) == Wrap(a - b)
  {
    var q := a / TWO64;
    assert a == q * TWO64 + a % TWO64;
    WrapOnce(a % TWO64 + b, q);
    WrapOnce(a % TWO64 - b, q);
  }

  lemma WrapOnce(x: int, q: int)
    ensures (x + q * TWO64) % TWO64 == x % TWO64
  {
  }

  predicate OnlyComputes(c: Code) {
    c != Skip && !IsSave(c) && !IsFilter(c) && c != ReadReg
  }

  function Fetched(c: Ctx, op: Op): Ctx {
    c.(code := op.code, post := op.post, keyIndex := c.keyIndex + 1)
  }

  lemma ComputeStep(vm: Vm, k: nat, at: nat, op: Op, prog: Program, env: Env)
    requires Going(vm, at) && IsOp(prog, at, op) && OnlyComputes(op.code)
    ensures var c := Compute(Fetched(vm.ctx, op), op, k, env);
            Step(vm, k, prog, env) == Vm(c, Some(op), vm.records, if c.flags.matchBlack then Broke else Running)
  {
    hide Compute, Save, Judge, ReadRegister;
  }

  lemma OffsetStep(vm: Vm, k: nat, at: nat, op: Op, a: int, prog: Program, env: Env)
    requires Going(vm, at) && IsOp(prog, at, op) && Address(vm, a)
    requires (op.code == AddOffset || op.code == SubOffset) && op.post == Skip
    ensures var g := Step(vm, k, prog, env);
            && Going(g, at + 1) && Untouched(vm, g)
            && Address(g, if op.code == AddOffset then a + op.value else a - op.value)
  {
    hide Step, Compute, Add, Sub, Wrap;
    ComputeStep(vm, k, at, op, prog, env);
    OffsetComputes(Fetched(vm.ctx, op), op, k, env);
    AddWraps(a, op.value);
  }

  lemma OffsetComputes(c: Ctx, op: Op, k: nat, env: Env)
    ensures c.code == AddOffset ==> Compute(c, op, k, env) == c.(readAddr := Add(c.readAddr, op.value))
    ensures c.code == SubOffset ==> Compute(c, op, k, env) == c.(readAddr := Sub(c.readAddr, op.value))
  {
    hide Add, Sub;
  }

  lemma PointerStep(vm: Vm, k: nat, at: nat, a: int, prog: Program, env: Env)
    requires Going(vm, at) && IsOp(prog, at, Op(ReadPointer, Skip, Skip, 0)) && Address(vm, a)
    ensures var g := Step(vm, k, prog, env);
            Going(g, at + 1) && Untouched(vm, g) && g.ctx.pointerValue == env.word(k, Wrap(a))
  {
    hide Step, Wrap;
    ComputeStep(vm, k, at, Op(ReadPointer, Skip, Skip, 0), prog, env);
  }

  lemma MoveStep(vm: Vm, k: nat, at: nat, prog: Program, env: Env)
    requires Going(vm, at) && IsOp(prog, at, Op(MovePointerValue, Skip, Skip, 0)) && vm.ctx.pointerValue < TWO64
    ensures var g := Step(vm, k, prog, env);
            Going(g, at + 1) && Untouched(vm, g) && Address(g, vm.ctx.pointerValue)
  {
    hide Step, Wrap;
    WrapSmall(vm.ctx.pointerValue);
    ComputeStep(vm, k, at, Op(MovePointerValue, Skip, Skip, 0), prog, env);
  }

  lemma RunTwice(vm: Vm, k: nat, prog: Program, env: Env)
    requires vm.status == Running && Step(vm, k, prog, env).status == Running
    ensures Run(vm, k, 2, prog, env) == Step(Step(vm, k, prog, env), k + 1, prog, env)
  {
    hide Step, Run;
    RunOnce(vm, k, prog, env);
    RunOnce(Step(vm, k, prog, env), k + 1, prog, env);
    RunSplit(vm, k, 1, 1, prog, env);
  }

  /** Each item is run to its meaning. */
  lemma ItemRuns(vm: Vm, k: nat, at: nat, item: Item, a: int, prog: Program, env: Env)
    requires item.Deref? || item.token.Const?
    requires Going(vm, at) && HasOps(prog, at, Emit(item, false)) && Address(vm, a)
    ensures var g := Run(vm, k, |Emit(item, false)|, prog, env);
            && Going(g, at + |Emit(item, false)|) && Untouched(vm, g)
            && Address(g, Denotes(a, [item], k, env))
  {
    hide Step, Run, IsOp, Address, Wrap;
    var ops := Emit(item, false);
    assert Denotes(a, [item], k, env) ==
           match item case Deref => env.word(k, Wrap(a)) as int
                      case Term(minus, Const(v)) => if minus then a - v else a + v
                      case Term(_, _) => a;
    match item {
      case Deref =>
        assert ops[1..] == [Op(MovePointerValue, Skip, Skip, 0)];
        PointerStep(vm, k, at, a, prog, env);
        var g := Step(vm, k, prog, env);
        MoveStep(g, k + 1, at + 1, prog, env);
        RunTwice(vm, k, prog, env);
      case Term(_, _) =>
        OffsetStep(vm, k, at, ops[0], a, prog, env);
        RunOnce(vm, k, prog, env);
    }
  }

  lemma DenotesFirst(a: int, items: seq<Item>, k: nat, env: Env)
    requires items != [] && Arithmetic(items)
    ensures Denotes(a, items, k, env) ==
            Denotes(Denotes(a, [items[0]], k, env), items[1..], k + |Emit(items[0], false)|, env)
  {
    assert [items[0]][1..] == [];
  }

  /** Constants and dereferences are run to what they denote. */
  lemma {:induction false} ArithmeticRuns(
      vm: Vm, k: nat, at: nat, items: seq<Item>, a: int, prog: Program, env: Env)
    requires Arithmetic(items)
    requires Going(vm, at) && HasOps(prog, at, EmitAll(items, false)) && Address(vm, a)
    ensures var n := |EmitAll(items, false)|;
            var g := Run(vm, k, n, prog, env);
            Going(g, at + n) && Untouched(vm, g) && Address(g, Denotes(a, items, k, env))
    decreases |items|
  {
    hide Step, HasOps, Address, Wrap;
    if items == [] {
      assert Run(vm, k, 0, prog, env) == vm;
    } else {
      hide Run;
      var ops, rest := Emit(items[0], false), EmitAll(items[1..], false);
      HasRest(prog, at, ops, rest);
      ItemRuns(vm, k, at, items[0], a, prog, env);
      var g := Run(vm, k, |ops|, prog, env);
      ArithmeticRuns(g, k + |ops|, at + |ops|, items[1..], Denotes(a, [items[0]], k, env), prog, env);
      RunSplit(vm, k, |ops|, |rest|, prog, env);
      DenotesFirst(a, items, k, env);
      hide Denotes, Emit;
    }
  }

  // ---------------------------------------------------------------------------
  // The register in front and the save at the end
  // ---------------------------------------------------------------------------

  function RegisterValue(vm: Vm, r: nat, env: Env): U64 {
    if r == 0 then vm.ctx.reg0 else env.register(r)
  }

  function ReadMoveReg(r: nat): Op {
    Op(ReadReg, SetRegIndex, MoveRegValue, r % TWO64)
  }

  lemma RegisterRead(vm: Vm, k: nat, at: nat, r: nat, prog: Program, env: Env)
    requires Going(vm, at) && r < REG_MAX && IsOp(prog, at, ReadMoveReg(r))
    ensures var g := Step(vm, k, prog, env);
            && g.status == Running && g.ctx.post == MoveRegValue && g.op.Some? && Untouched(vm, g)
            && g.ctx.regValue == RegisterValue(vm, r, env) && g.ctx.keyIndex == at + 1
  {
    assert r % TWO64 == r && r % 256 == r;
    hide Save, Judge, Compute, IsSave, IsFilter;
    assert !IsSave(ReadReg) && !IsFilter(ReadReg) by {
      ReadRegIsRead();
    }
  }

  lemma ReadRegIsRead()
    ensures !IsSave(ReadReg) && !IsFilter(ReadReg)
  {
  }

  lemma PendingMove(vm: Vm, k: nat, prog: Program, env: Env)
    requires vm.status == Running && vm.op.Some? && vm.ctx.post == MoveRegValue && !vm.ctx.flags.matchBlack
    ensures Step(vm, k, prog, env) ==
            vm.(ctx := vm.ctx.(code := MoveRegValue, post := Skip, readAddr := vm.ctx.regValue))
  {
    hide Save, Judge, ReadRegister, Add, Sub, Min;
  }

  /** The fused op takes two steps: the register is read, then moved to the address. */
  lemma RegisterRuns(vm: Vm, k: nat, at: nat, r: nat, prog: Program, env: Env)
    requires Going(vm, at) && r < REG_MAX && IsOp(prog, at, ReadMoveReg(r))
    ensures var g := Run(vm, k, 2, prog, env);
            && Going(g, at + 1) && Untouched(vm, g)
            && g.ctx.readAddr == RegisterValue(vm, r, env) == g.ctx.regValue
  {
    hide Run, Step, RegisterValue, IsOp;
    RegisterRead(vm, k, at, r, prog, env);
    PendingMove(Step(vm, k, prog, env), k + 1, prog, env);
    RunTwice(vm, k, prog, env);
  }

  /** There is room for one more element. */
  predicate Room(records: seq<Record>) {
    |EncodeAll(records)| <= ARGS_BUF_SIZE - (MAX_ELEMENT_SIZE + 1)
  }

  /** From `vm` to `g` the address came to be `value`, and that was saved as one record if there
      was room and the copy succeeded. */
  predicate SavedAddress(vm: Vm, g: Vm, value: U64, copied: bool) {
    && g.ctx.readAddr == value
    && g.ctx.saveIndex == NextIndex(vm.ctx.saveIndex)
    && g.records == (if Room(vm.records) && copied
                     then vm.records + [Element(vm.ctx.saveIndex, LittleEndian(value, 8))] else vm.records)
  }

  lemma SaveStep(vm: Vm, k: nat, at: nat, value: U64, prog: Program, env: Env)
    requires Going(vm, at) && IsOp(prog, at, SAVE_ADDR_OP) && vm.ctx.readAddr == value
    ensures var g := Step(vm, k, prog, env);
            Going(g, at + 1) && SavedAddress(vm, g, value, env.copied(k, 0))
  {
    hide Compute, Judge, ReadRegister, EncodeAll, LittleEndian;
    assert |LittleEndian(vm.ctx.readAddr, 8)| == 8;
  }

  /** A run that has come to an address without saving, and then saves it. */
  lemma ThenSaves(vm: Vm, k: nat, m: nat, at: nat, value: U64, prog: Program, env: Env)
    requires IsOp(prog, at, SAVE_ADDR_OP)
    requires var h := Run(vm, k, m, prog, env);
             Going(h, at) && Untouched(vm, h) && h.ctx.readAddr == value
    ensures var g := Run(vm, k, m + 1, prog, env);
            Going(g, at + 1) && SavedAddress(vm, g, value, env.copied(k + m, 0))
  {
    hide Step, Run, IsOp, Room, LittleEndian, NextIndex;
    var h := Run(vm, k, m, prog, env);
    SaveStep(h, k + m, at, value, prog, env);
    RunOnce(h, k + m, prog, env);
    RunSplit(vm, k, m, 1, prog, env);
  }

  lemma FrontRuns(vm: Vm, k: nat, at: nat, r: nat, rest: seq<Item>, prog: Program, env: Env)
    requires r < REG_MAX && Arithmetic(rest) && Going(vm, at)
    requires HasOps(prog, at, [ReadMoveReg(r)] + EmitAll(rest, false))
    ensures var n := |EmitAll(rest, false)|;
            var g := Run(vm, k, 2 + n, prog, env);
            Going(g, at + 1 + n) && Untouched(vm, g) && Address(g, Denotes(RegisterValue(vm, r, env), rest, k + 2, env))
  {
    hide Step, Run, HasOps, Denotes, Arithmetic, RegisterValue, Wrap, EmitAll;
    HasRest(prog, at, [ReadMoveReg(r)], EmitAll(rest, false));
    HasFirst(prog, at, ReadMoveReg(r));
    RegisterRuns(vm, k, at, r, prog, env);
    WrapSmall(RegisterValue(vm, r, env));
    var g := Run(vm, k, 2, prog, env);
    ArithmeticRuns(g, k + 2, at + 1, rest, RegisterValue(vm, r, env), prog, env);
    RunSplit(vm, k, 2, |EmitAll(rest, false)|, prog, env);
  }

  /** The whole expression: running what it compiles to takes one step per op and one more
      for the register, leaves the address it denotes, wrapped to 64 bits, and saves exactly
      that address as one record when there is room and the copy succeeds. */
  lemma ReadExpressionSaves(vm: Vm, k: nat, at: nat, items: seq<Item>, prog: Program, env: Env)
    requires SingleRegister(items)
    requires Going(vm, at) && HasOps(prog, at, Compiled(items))
    ensures var n := |Compiled(items)|;
            var value := Wrap(Denotes(RegisterValue(vm, items[0].token.number, env), items[1..], k + 2, env));
            var g := Run(vm, k, n + 1, prog, env);
            Going(g, at + n) && SavedAddress(vm, g, value, env.copied(k + n, 0))
  {
    hide Step, Run, HasOps, Denotes, Arithmetic, RegisterValue, Wrap, EmitAll, Room, LittleEndian, NextIndex;
    var r, rest := items[0].token.number, EmitAll(items[1..], false);
    CompiledShape(items);
    hide Compiled;
    assert Compiled(items) == ([ReadMoveReg(r)] + rest) + [SAVE_ADDR_OP];
    HasRest(prog, at, [ReadMoveReg(r)] + rest, [SAVE_ADDR_OP]);
    HasFirst(prog, at + 1 + |rest|, SAVE_ADDR_OP);
    FrontRuns(vm, k, at, r, items[1..], prog, env);
    var denoted := Denotes(RegisterValue(vm, r, env), items[1..], k + 2, env);
    ThenSaves(vm, k, 2 + |rest|, at + 1 + |rest|, Wrap(denoted), prog, env);
  }

  lemma CompiledShape(items: seq<Item>)
    requires SingleRegister(items)
    ensures Compiled(items) ==
            [ReadMoveReg(items[0].token.number)] + (EmitAll(items[1..], false) + [SAVE_ADDR_OP])
  {
  }

  lemma HasFirst(prog: Program, at: nat, op: Op)
    requires HasOps(prog, at, [op])
    ensures IsOp(prog, at, op)
  {
    assert [op][0] == op;
  }

  // ---------------------------------------------------------------------------
  // A second register
  // ---------------------------------------------------------------------------

  lemma RegisterArithmeticStep(vm: Vm, k: nat, at: nat, minus: bool, prog: Program, env: Env)
    requires Going(vm, at) && IsOp(prog, at, Op(if minus then SubReg else AddReg, Skip, Skip, 0))
    ensures var g := Step(vm, k, prog, env);
            && Going(g, at + 1) && Untouched(vm, g)
            && g.ctx.readAddr == (if minus then Sub(vm.ctx.readAddr, vm.ctx.regValue)
                                  else Add(vm.ctx.readAddr, vm.ctx.regValue))
  {
    hide Step, Add, Sub;
    ComputeStep(vm, k, at, Op(if minus then SubReg else AddReg, Skip, Skip, 0), prog, env);
  }

  lemma Doubled(a: U64, x: U64)
    ensures Add(x, x) == Wrap(a + x) <==> a == x
    ensures Sub(x, x) == 0
    ensures Sub(x, x) == Wrap(a - x) <==> a == x
  {
  }

  lemma SecondRegisterRuns(vm: Vm, k: nat, at: nat, minus: bool, r: nat, prog: Program, env: Env)
    requires r < REG_MAX && Going(vm, at)
    requires HasOps(prog, at, Emit(Term(minus, Reg(r)), false))
    ensures var x := RegisterValue(vm, r, env);
            var g := Run(vm, k, 3, prog, env);
            Going(g, at + 2) && Untouched(vm, g) && g.ctx.readAddr == if minus then Sub(x, x) else Add(x, x)
  {
    hide Step, Run, RegisterValue, Add, Sub, HasOps, IsOp;
    var last := Op(if minus then SubReg else AddReg, Skip, Skip, 0);
    assert Emit(Term(minus, Reg(r)), false) == [ReadMoveReg(r)] + [last];
    hide Emit;
    HasRest(prog, at, [ReadMoveReg(r)], [last]);
    HasFirst(prog, at, ReadMoveReg(r));
    HasFirst(prog, at + 1, last);
    RegisterRuns(vm, k, at, r, prog, env);
    var g := Run(vm, k, 2, prog, env);
    RegisterArithmeticStep(g, k + 2, at + 1, minus, prog, env);
    RunOnce(g, k + 2, prog, env);
    RunSplit(vm, k, 2, 1, prog, env);
  }

  /** A register after the first one replaces the address before it is added or subtracted, so
      the result is twice the register, or zero; this is the sum or difference that was written
      exactly when the address happened to equal the register. */
  lemma SecondRegister(vm: Vm, k: nat, at: nat, minus: bool, r: nat, prog: Program, env: Env)
    requires r < REG_MAX && Going(vm, at) && vm.ctx.readAddr < TWO64
    requires HasOps(prog, at, Emit(Term(minus, Reg(r)), false))
    ensures var x := RegisterValue(vm, r, env);
            var g := Run(vm, k, 3, prog, env);
            && Going(g, at + 2)
            && g.ctx.readAddr == (if minus then 0 else Add(x, x))
            && (g.ctx.readAddr == Wrap(if minus then vm.ctx.readAddr - x else vm.ctx.readAddr + x) <==>
                vm.ctx.readAddr == x)
  {
    hide Run, RegisterValue, Wrap, Add, Sub, HasOps, Going;
    SecondRegisterRuns(vm, k, at, minus, r, prog, env);
    Doubled(vm.ctx.readAddr, RegisterValue(vm, r, env));
  }

  lemma TwoRegistersRun(vm: Vm, k: nat, at: nat, a: nat, minus: bool, b: nat, prog: Program, env: Env)
    requires a < REG_MAX && b < REG_MAX && Going(vm, at)
    requires IsOp(prog, at, ReadMoveReg(a)) && HasOps(prog, at + 1, Emit(Term(minus, Reg(b)), false))
    ensures var x := RegisterValue(vm, b, env);
            var g := Run(vm, k, 5, prog, env);
            Going(g, at + 3) && Untouched(vm, g) && g.ctx.readAddr == if minus then 0 else Add(x, x)
  {
    hide Run, HasOps, RegisterValue, Add, Sub, Emit, IsOp, Wrap;
    RegisterRuns(vm, k, at, a, prog, env);
    var g := Run(vm, k, 2, prog, env);
    SecondRegisterRuns(g, k + 2, at + 1, minus, b, prog, env);
    SameRegister(vm, g, b, env);
    Doubled(0, RegisterValue(vm, b, env));
    RunSplit(vm, k, 2, 3, prog, env);
  }

  /** An expression of two registers, run to its end: it saves twice the second, or zero. */
  lemma TwoRegistersSave(vm: Vm, k: nat, at: nat, a: nat, minus: bool, b: nat, prog: Program, env: Env)
    requires a < REG_MAX && b < REG_MAX && Going(vm, at)
    requires HasOps(prog, at, Compiled([Term(false, Reg(a)), Term(minus, Reg(b))]))
    ensures var x := RegisterValue(vm, b, env);
            var g := Run(vm, k, 6, prog, env);
            && Going(g, at + 4)
            && SavedAddress(vm, g, if minus then 0 else Add(x, x), env.copied(k + 5, 0))
  {
    hide Run, Step, HasOps, RegisterValue, Add, Room, LittleEndian, NextIndex, Compiled, Emit, IsOp;
    var second := Emit(Term(minus, Reg(b)), false);
    TwoRegistersOps(a, minus, b);
    HasRest(prog, at, [ReadMoveReg(a)], second + [SAVE_ADDR_OP]);
    HasRest(prog, at + 1, second, [SAVE_ADDR_OP]);
    HasFirst(prog, at, ReadMoveReg(a));
    HasFirst(prog, at + 3, SAVE_ADDR_OP);
    TwoRegistersRun(vm, k, at, a, minus, b, prog, env);
    var x := RegisterValue(vm, b, env);
    ThenSaves(vm, k, 5, at + 3, if minus then 0 else Add(x, x), prog, env);
  }

  lemma TwoRegistersOps(a: nat, minus: bool, b: nat)
    ensures var second := Emit(Term(minus, Reg(b)), false);
            && |second| == 2
            && Compiled([Term(false, Reg(a)), Term(minus, Reg(b))]) ==
               [ReadMoveReg(a)] + (second + [SAVE_ADDR_OP])
  {
    var items := [Term(false, Reg(a)), Term(minus, Reg(b))];
    assert items[1..] == [Term(minus, Reg(b))];
    assert items[1..][1..] == [];
    assert EmitAll(items[1..], false) == Emit(Term(minus, Reg(b)), false) + [];
  }

  lemma SameRegister(vm: Vm, g: Vm, r: nat, env: Env)
    requires g.ctx.reg0 == vm.ctx.reg0
    ensures RegisterValue(g, r, env) == RegisterValue(vm, r, env)
  {
  }

  // ---------------------------------------------------------------------------
  // A whole expression with a second register
  // ---------------------------------------------------------------------------

  predicate Constants(items: seq<Item>) {
    forall i :: 0 <= i < |items| ==> items[i].Term? && items[i].token.Const?
  }

  function Sum(items: seq<Item>): int
    requires Constants(items)
  {
    if items == [] then 0
    else Sum(items[1..]) + if items[0].minus then -(items[0].token.value as int) else items[0].token.value as int
  }

  lemma {:induction false} ConstantsAdd(start: int, items: seq<Item>, k: nat, env: Env)
    requires Constants(items)
    ensures Arithmetic(items) && Denotes(start, items, k, env) == start + Sum(items)
    decreases |items|
  {
    if items != [] {
      var next := if items[0].minus then start - items[0].token.value else start + items[0].token.value;
      ConstantsAdd(next, items[1..], k + |Emit(items[0], false)|, env);
    }
  }

  lemma {:induction false} EmitJoin(a: seq<Item>, b: seq<Item>)
    ensures EmitAll(a + b, false) == EmitAll(a, false) + EmitAll(b, false)
    decreases |a|
  {
    hide Emit;
    if a == [] {
      assert a + b == b;
    } else {
      assert (a + b)[1..] == a[1..] + b;
      EmitJoin(a[1..], b);
    }
  }

  /** A register, constants and dereferences, a second register, and constants. */
  function WithSecond(a: nat, before: seq<Item>, minus: bool, b: nat, after: seq<Item>): seq<Item> {
    [Term(false, Reg(a))] + (before + ([Term(minus, Reg(b))] + after))
  }

  lemma WithSecondOps(a: nat, before: seq<Item>, minus: bool, b: nat, after: seq<Item>)
    ensures Compiled(WithSecond(a, before, minus, b, after)) ==
            ([ReadMoveReg(a)] + EmitAll(before, false))
            + (Emit(Term(minus, Reg(b)), false) + (EmitAll(after, false) + [SAVE_ADDR_OP]))
  {
    var second := [Term(minus, Reg(b))] + after;
    var items := WithSecond(a, before, minus, b, after);
    assert items[1..] == before + second;
    EmitJoin(before, second);
    assert second[1..] == after;
    assert Emit(items[0], true) == [ReadMoveReg(a)];
  }

  /** The address the interpreter arrives at, and the one that was written. */
  function Reached(x: int, minus: bool, after: seq<Item>): U64
    requires Constants(after)
  {
    Wrap((if minus then 0 else x + x) + Sum(after))
  }

  function Written(address: int, x: int, minus: bool, after: seq<Item>): U64
    requires Constants(after)
  {
    Wrap((if minus then address - x else address + x) + Sum(after))
  }

  lemma ReachedIsWritten(address: int, x: U64, minus: bool, after: seq<Item>)
    requires Constants(after)
    ensures Reached(x, minus, after) == Written(address, x, minus, after) <==> Wrap(address) == x
  {
    hide Wrap, Sum;
    var s := Sum(after);
    if minus {
      WrapEqual(address - x + s, s);
      assert address - x + s - s == address - x;
    } else {
      WrapEqual(address + x + s, x + x + s);
      assert address + x + s - (x + x + s) == address - x;
    }
    WrapEqual(address, x);
    WrapSmall(x);
  }

  lemma WrapEqual(a: int, b: int)
    ensures Wrap(a) == Wrap(b) <==> (a - b) % TWO64 == 0
  {
  }

  lemma SecondArithmeticRuns(
      vm: Vm, k: nat, at: nat, minus: bool, b: nat, after: seq<Item>, prog: Program, env: Env)
    requires b < REG_MAX && Constants(after) && Going(vm, at)
    requires HasOps(prog, at, Emit(Term(minus, Reg(b)), false)) && HasOps(prog, at + 2, EmitAll(after, false))
    ensures var n := |EmitAll(after, false)|;
            var g := Run(vm, k, 3 + n, prog, env);
            Going(g, at + 2 + n) && Untouched(vm, g)
            && g.ctx.readAddr == Reached(RegisterValue(vm, b, env), minus, after)
  {
    hide Step, Run, HasOps, Denotes, RegisterValue, Wrap, EmitAll, Emit, Add, Sub, Sum;
    var x := RegisterValue(vm, b, env);
    SecondRegisterRuns(vm, k, at, minus, b, prog, env);
    DoubledWraps(x);
    var g := Run(vm, k, 3, prog, env);
    var start: int := if minus then 0 else x as int + x as int;
    ConstantsAdd(start, after, k + 3, env);
    ArithmeticRuns(g, k + 3, at + 2, after, start, prog, env);
    RunSplit(vm, k, 3, |EmitAll(after, false)|, prog, env);
  }

  lemma SecondPartRuns(
      vm: Vm, k: nat, at: nat, minus: bool, b: nat, after: seq<Item>, prog: Program, env: Env)
    requires b < REG_MAX && Constants(after) && Going(vm, at)
    requires HasOps(prog, at, Emit(Term(minus, Reg(b)), false) + (EmitAll(after, false) + [SAVE_ADDR_OP]))
    ensures var n := |EmitAll(after, false)|;
            var g := Run(vm, k, n + 4, prog, env);
            && Going(g, at + n + 3)
            && SavedAddress(vm, g, Reached(RegisterValue(vm, b, env), minus, after), env.copied(k + n + 3, 0))
  {
    hide Run, HasOps, EmitAll, SavedAddress, Going, Reached, IsOp, RegisterValue, Untouched;
    var second, rest := Emit(Term(minus, Reg(b)), false), EmitAll(after, false);
    assert |second| == 2;
    hide Emit;
    HasRest(prog, at, second, rest + [SAVE_ADDR_OP]);
    HasRest(prog, at + 2, rest, [SAVE_ADDR_OP]);
    HasFirst(prog, at + 2 + |rest|, SAVE_ADDR_OP);
    SecondArithmeticRuns(vm, k, at, minus, b, after, prog, env);
    ThenSaves(vm, k, 3 + |rest|, at + 2 + |rest|, Reached(RegisterValue(vm, b, env), minus, after), prog, env);
  }

  lemma DoubledWraps(x: U64)
    ensures Add(x, x) == Wrap(x + x) && Sub(x, x) == Wrap(0)
  {
  }

  /** A whole expression with one second register: it saves twice that register, or zero, plus the
      constants after it.  That is the address that was written exactly when what stands before
      the second register comes, wrapped to 64 bits, to the value of that register. */
  lemma SecondRegisterExpression(
      vm: Vm, k: nat, at: nat, a: nat, before: seq<Item>, minus: bool, b: nat, after: seq<Item>,
      prog: Program, env: Env)
    requires a < REG_MAX && b < REG_MAX && Arithmetic(before) && Constants(after) && Going(vm, at)
    requires HasOps(prog, at, Compiled(WithSecond(a, before, minus, b, after)))
    ensures var n := |Compiled(WithSecond(a, before, minus, b, after))|;
            var x := RegisterValue(vm, b, env);
            var address := Denotes(RegisterValue(vm, a, env), before, k + 2, env);
            var g := Run(vm, k, n + 2, prog, env);
            && Going(g, at + n)
            && SavedAddress(vm, g, Reached(x, minus, after), env.copied(k + n + 1, 0))
            && (Reached(x, minus, after) == Written(address, x, minus, after) <==> Wrap(address) == x)
  {
    hide Step, Run, HasOps, Denotes, RegisterValue, Wrap, EmitAll, Room, LittleEndian, NextIndex;
    hide Compiled, Reached, Written;
    var front := [ReadMoveReg(a)] + EmitAll(before, false);
    var back := Emit(Term(minus, Reg(b)), false) + (EmitAll(after, false) + [SAVE_ADDR_OP]);
    WithSecondOps(a, before, minus, b, after);
    assert |back| == |EmitAll(after, false)| + 3;
    hide Emit;
    HasRest(prog, at, front, back);
    FrontRuns(vm, k, at, a, before, prog, env);
    var m := |front| + 1;
    var g := Run(vm, k, m, prog, env);
    SecondPartRuns(g, k + m, at + |front|, minus, b, after, prog, env);
    SameRegister(vm, g, b, env);
    RunSplit(vm, k, m, |EmitAll(after, false)| + 4, prog, env);
    ReachedIsWritten(Denotes(RegisterValue(vm, a, env), before, k + 2, env), RegisterValue(vm, b, env), minus, after);
  }
}
