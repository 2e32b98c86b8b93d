/** From one event to the next: what the argument interpreter's context carries over
    (src/stack.c, src/syscall.c, src/utils.h).

    The context lives in a map between events.  Only its first eight bytes are cleared,
    because the size handed to the clearing is that of a pointer; a post-code that was
    pending when an event ended is still pending when the next one begins. */
module ArgEvents {
  import opened Common
  import opened ArgBuffer
  import opened ArgVm
  import opened ArgLoop
  import opened ReadExpr

  /** What an event is entered with: the eight one-byte fields are zeroed, then register 0, the
      first record number and the first key are set.  Everything else is left as it was. */
  function NextEvent(c: Ctx, first: Byte, reg0: U64): Ctx {
    c.(saveIndex := first, regIndex := 0, loop := Loop(0, 0, c.loop.start),
       flags := Flags(false, false, false, false), keyIndex := 0, reg0 := reg0)
  }

  /** A context that has never been used: zero is no op code. */
  function Fresh(): Ctx {
    Ctx(0, 0, Loop(0, 0, 0), Flags(false, false, false, false), 0, Unknown, Unknown, 0, 0, 0, 0, 0, 0, 0)
  }

  // ---------------------------------------------------------------------------
  // When a post-code is left pending
  // ---------------------------------------------------------------------------

  /** The next step runs a pending post-code. */
  predicate RunsPending(vm: Vm) {
    vm.op.Some? && vm.ctx.post != Skip
  }

  /** The next step fetches an op that has a second half. */
  predicate FetchesFused(vm: Vm, prog: Program) {
    !RunsPending(vm) && Defined(prog, vm.ctx.keyIndex) && OpAt(prog, vm.ctx.keyIndex).post != Skip
  }

  lemma StepPost(vm: Vm, k: nat, prog: Program, env: Env)
    requires vm.op.Some? || vm.ctx.post == Skip
    ensures var g := Step(vm, k, prog, env);
            && (g.ctx.post != Skip <==> FetchesFused(vm, prog))
            && (g.op.Some? || g.ctx.post == Skip)
  {
    hide Execute;
    var f := Fetch(vm, prog);
    if f.op.Some? {
      ExecutePost(f, f.op.value, k, prog, env);
      ExecuteOp(f, f.op.value, k, prog, env);
    }
  }

  lemma ExecuteOp(vm: Vm, op: Op, k: nat, prog: Program, env: Env)
    ensures Execute(vm, op, k, prog, env).op == vm.op
  {
    hide Save, Judge, ReadRegister, Compute, SamePlace;
    SaveKeeps(vm, op, k, env);
    OthersKeep(vm, op, k, prog, env);
  }

  /** Step `m` is the last of the `n` that are allowed: the budget ends there, or the step
      itself ends the run. */
  ghost predicate LastStep(vm: Vm, k: nat, m: nat, n: nat, prog: Program, env: Env) {
    && m < n
    && var u := Run(vm, k, m, prog, env);
    && u.status == Running
    && (m + 1 == n || Step(u, k + m, prog, env).status != Running)
  }

  lemma {:induction false} SomeLastStep(vm: Vm, k: nat, n: nat, prog: Program, env: Env) returns (m: nat)
    requires vm.status == Running && n > 0
    ensures LastStep(vm, k, m, n, prog, env)
    ensures Run(vm, k, n, prog, env) == Step(Run(vm, k, m, prog, env), k + m, prog, env)
    decreases n
  {
    hide Step;
    var g := Step(vm, k, prog, env);
    assert Run(vm, k, 0, prog, env) == vm;
    if n == 1 || g.status != Running {
      m := 0;
      assert Run(g, k + 1, n - 1, prog, env) == g;
    } else {
      var l := SomeLastStep(g, k + 1, n - 1, prog, env);
      m := l + 1;
      assert Run(vm, k, m, prog, env) == Run(g, k + 1, l, prog, env);
    }
  }

  lemma {:induction false} RunTidy(vm: Vm, k: nat, n: nat, prog: Program, env: Env)
    requires vm.op.Some? || vm.ctx.post == Skip
    ensures var g := Run(vm, k, n, prog, env);
            g.op.Some? || g.ctx.post == Skip
    decreases n
  {
    hide Step;
    if n > 0 && vm.status == Running {
      StepPost(vm, k, prog, env);
      RunTidy(Step(vm, k, prog, env), k + 1, n - 1, prog, env);
    }
  }

  /** A run ends with a post-code pending exactly when its last step fetched a fused op: the
      budget, a bad register number, a missing filter or a match on the blacklist came between
      the two halves. */
  lemma LeftPending(vm: Vm, k: nat, n: nat, prog: Program, env: Env) returns (m: nat)
    requires vm.status == Running && n > 0 && (vm.op.Some? || vm.ctx.post == Skip)
    ensures LastStep(vm, k, m, n, prog, env)
    ensures Run(vm, k, n, prog, env).ctx.post != Skip <==> FetchesFused(Run(vm, k, m, prog, env), prog)
  {
    hide Step, Run, FetchesFused;
    m := SomeLastStep(vm, k, n, prog, env);
    RunTidy(vm, k, m, prog, env);
    StepPost(Run(vm, k, m, prog, env), k + m, prog, env);
  }

  // ---------------------------------------------------------------------------
  // Points of plain register arguments
  // ---------------------------------------------------------------------------

  /** Read a register and save it, fused. */
  function ReadSaveReg(r: U64): Op {
    Op(ReadReg, SetRegIndex, SaveReg, r)
  }

  lemma FirstHalf(vm: Vm, k: nat, at: nat, r: U64, prog: Program, env: Env)
    requires Going(vm, at) && r < REG_MAX && IsOp(prog, at, ReadSaveReg(r))
    ensures var g := Step(vm, k, prog, env);
            && g.status == Running && g.op.Some? && g.ctx.post == SaveReg && g.ctx.keyIndex == at + 1
            && Untouched(vm, g) && g.ctx.regValue == RegisterValue(vm, r, env) && g.ctx.loop == vm.ctx.loop
  {
    assert r % 256 == r;
    hide Save, Judge, Compute, IsSave, IsFilter;
    ReadRegIsRead();
  }

  /** The value of a register came to be saved as the next record, if there was room and the copy
      succeeded. */
  predicate SavedValue(vm: Vm, g: Vm, value: nat, copied: bool) {
    && g.ctx.saveIndex == NextIndex(vm.ctx.saveIndex)
    && g.ctx.flags == vm.ctx.flags && g.ctx.reg0 == vm.ctx.reg0 && g.ctx.loop == vm.ctx.loop
    && g.records == (if Room(vm.records) && copied
                     then vm.records + [Element(vm.ctx.saveIndex, LittleEndian(value, 8))] else vm.records)
  }

  lemma SecondHalf(vm: Vm, k: nat, prog: Program, env: Env)
    requires vm.status == Running && vm.op.Some? && vm.ctx.post == SaveReg && !vm.ctx.flags.matchBlack
    ensures var g := Step(vm, k, prog, env);
            && Going(g, vm.ctx.keyIndex) && g.ctx.regValue == vm.ctx.regValue
            && SavedValue(vm, g, vm.ctx.regValue, env.copied(k, 0))
  {
    hide Judge, Compute, ReadRegister, EncodeAll, LittleEndian;
    assert |LittleEndian(vm.ctx.regValue, 8)| == 8;
  }

  const MOVE_OP := Op(MoveRegValue, Skip, Skip, 0)

  /** The ops of plain register arguments: each register is read and saved, then moved. */
  predicate Arguments(prog: Program, at: nat, regs: seq<U64>) {
    forall i :: 0 <= i < |regs| ==>
      regs[i] < REG_MAX && IsOp(prog, at + 2 * i, ReadSaveReg(regs[i])) && IsOp(prog, at + 2 * i + 1, MOVE_OP)
  }

  lemma MoveRuns(vm: Vm, k: nat, at: nat, prog: Program, env: Env)
    requires Going(vm, at) && IsOp(prog, at, MOVE_OP)
    ensures var g := Step(vm, k, prog, env);
            && Going(g, at + 1) && Untouched(vm, g) && g.ctx.loop == vm.ctx.loop
            && g.ctx.readAddr == vm.ctx.regValue == g.ctx.regValue
  {
    hide Step;
    ComputeStep(vm, k, at, MOVE_OP, prog, env);
  }

  /** One argument takes three steps, and only after the first of them is a post-code pending.
      The register's value is saved and becomes the address for what follows. */
  lemma ArgumentRuns(vm: Vm, k: nat, at: nat, r: U64, prog: Program, env: Env)
    requires Going(vm, at) && r < REG_MAX
    requires IsOp(prog, at, ReadSaveReg(r)) && IsOp(prog, at + 1, MOVE_OP)
    ensures Run(vm, k, 1, prog, env).status == Running && Run(vm, k, 1, prog, env).ctx.post == SaveReg
    ensures Run(vm, k, 2, prog, env).status == Running && Run(vm, k, 2, prog, env).ctx.post == Skip
    ensures var g := Run(vm, k, 3, prog, env);
            && Going(g, at + 2) && g.ctx.readAddr == RegisterValue(vm, r, env) == g.ctx.regValue
            && SavedValue(vm, g, RegisterValue(vm, r, env), env.copied(k + 1, 0))
  {
    hide Step, Run, IsOp, Room, LittleEndian, NextIndex, RegisterValue;
    var g := Step(vm, k, prog, env);
    FirstHalf(vm, k, at, r, prog, env);
    RunOnce(vm, k, prog, env);
    SecondHalf(g, k + 1, prog, env);
    RunTwice(vm, k, prog, env);
    var h := Run(vm, k, 2, prog, env);
    MoveRuns(h, k + 2, at + 1, prog, env);
    RunOnce(h, k + 2, prog, env);
    RunSplit(vm, k, 2, 1, prog, env);
  }

  /** A budget that ends among the arguments leaves a save pending exactly when it is one more
      than a multiple of three. */
  lemma {:induction false} ArgumentsRun(vm: Vm, k: nat, at: nat, n: nat, regs: seq<U64>, prog: Program, env: Env)
    requires Going(vm, at) && Arguments(prog, at, regs) && n <= 3 * |regs|
    ensures var g := Run(vm, k, n, prog, env);
            g.status == Running && g.ctx.post == if n % 3 == 1 then SaveReg else Skip
    decreases n
  {
    hide Step, IsOp;
    if n == 0 {
      assert Run(vm, k, 0, prog, env) == vm;
    } else {
      hide Run;
      assert IsOp(prog, at + 2 * 0, ReadSaveReg(regs[0])) && IsOp(prog, at + 2 * 0 + 1, MOVE_OP);
      ArgumentRuns(vm, k, at, regs[0], prog, env);
      if n >= 3 {
        ArgumentsRest(prog, at, regs);
        ArgumentsRun(Run(vm, k, 3, prog, env), k + 3, at + 2, n - 3, regs[1..], prog, env);
        RunSplit(vm, k, 3, n - 3, prog, env);
      }
    }
  }

  lemma ArgumentsRest(prog: Program, at: nat, regs: seq<U64>)
    requires Arguments(prog, at, regs) && regs != []
    ensures Arguments(prog, at + 2, regs[1..])
  {
    hide IsOp;
    forall i | 0 <= i < |regs| - 1
      ensures regs[1..][i] < REG_MAX && IsOp(prog, at + 2 + 2 * i, ReadSaveReg(regs[1..][i]))
      ensures IsOp(prog, at + 2 + 2 * i + 1, MOVE_OP)
    {
      assert at + 2 + 2 * i == at + 2 * (i + 1);
      assert IsOp(prog, at + 2 * (i + 1), ReadSaveReg(regs[i + 1])) && IsOp(prog, at + 2 * (i + 1) + 1, MOVE_OP);
    }
  }

  /** Register values, in order, numbered from `first`. */
  function ValuesSaved(first: Byte, reg0: U64, regs: seq<U64>, env: Env): (records: seq<Record>)
    ensures |records| == |regs|
  {
    seq(|regs|, i requires 0 <= i < |regs| =>
      Element((first + i) % 256, LittleEndian(if regs[i] == 0 then reg0 else env.register(regs[i]), 8)))
  }

  lemma SavedFirst(first: Byte, reg0: U64, regs: seq<U64>, env: Env)
    requires regs != []
    ensures var value := if regs[0] == 0 then reg0 else env.register(regs[0]);
            ValuesSaved(first, reg0, regs, env) ==
            [Element(first, LittleEndian(value, 8))] + ValuesSaved(NextIndex(first), reg0, regs[1..], env)
  {
    hide LittleEndian;
    var rest := ValuesSaved(NextIndex(first), reg0, regs[1..], env);
    forall i | 0 <= i < |regs| - 1
      ensures rest[i] == ValuesSaved(first, reg0, regs, env)[i + 1]
    {
      assert regs[1..][i] == regs[i + 1];
      NextModulo(first, i);
    }
  }

  lemma NextModulo(first: Byte, i: nat)
    ensures (NextIndex(first) + i) % 256 == (first + (i + 1)) % 256
  {
  }

  /** There is room for `n` eight-byte values: before the last of them, for the largest element. */
  predicate RoomFor(records: seq<Record>, n: nat) {
    |EncodeAll(records)| + 9 * n <= ARGS_BUF_SIZE - (MAX_ELEMENT_SIZE + 1) + 9
  }

  lemma RoomLeft(records: seq<Record>, r: Record, n: nat)
    requires n > 0 && RoomFor(records, n) && r.Element? && |r.data| == 8
    ensures Room(records) && RoomFor(records + [r], n - 1)
  {
    EncodeAppend(records, r);
  }

  /** On a point of plain register arguments every register's value is saved, in order, numbered
      on from the first, when there is room and every copy succeeds. */
  lemma {:induction false} ArgumentsSaved(vm: Vm, k: nat, at: nat, regs: seq<U64>, prog: Program, env: Env)
    requires Going(vm, at) && Arguments(prog, at, regs) && RoomFor(vm.records, |regs|)
    requires forall j :: k <= j < k + 3 * |regs| ==> env.copied(j, 0)
    ensures var g := Run(vm, k, 3 * |regs|, prog, env);
            && Going(g, at + 2 * |regs|)
            && g.records == vm.records + ValuesSaved(vm.ctx.saveIndex, vm.ctx.reg0, regs, env)
    decreases |regs|
  {
    hide Step, IsOp, LittleEndian, EncodeAll, ValuesSaved, NextIndex;
    if regs == [] {
      assert Run(vm, k, 0, prog, env) == vm;
      assert vm.records + ValuesSaved(vm.ctx.saveIndex, vm.ctx.reg0, regs, env) == vm.records;
    } else {
      hide Run;
      assert IsOp(prog, at + 2 * 0, ReadSaveReg(regs[0])) && IsOp(prog, at + 2 * 0 + 1, MOVE_OP);
      ArgumentRuns(vm, k, at, regs[0], prog, env);
      var saved := Element(vm.ctx.saveIndex, LittleEndian(RegisterValue(vm, regs[0], env), 8));
      RoomLeft(vm.records, saved, |regs|);
      var h := Run(vm, k, 3, prog, env);
      assert h.records == vm.records + [saved];
      ArgumentsRest(prog, at, regs);
      ArgumentsSaved(h, k + 3, at + 2, regs[1..], prog, env);
      RunSplit(vm, k, 3, 3 * |regs[1..]|, prog, env);
      SavedFirst(vm.ctx.saveIndex, vm.ctx.reg0, regs, env);
    }
  }

  /** Twenty-two plain arguments, x0 to x21, in a list of 64 keys: 44 are used, the others are 0.
      Key 1 moves a register value, key 2 + r reads and saves register r. */
  function CrowdedPoint(): Program {
    Program(seq(64, i => if i >= 44 then 0 else if i % 2 == 1 then 1 else 2 + i / 2),
            map key: nat | key < 24 :: CrowdedOp(key), map[])
  }

  function CrowdedOp(key: nat): Op
    requires key < 24
  {
    if key == 0 then Op(Skip, Skip, Skip, 0) else if key == 1 then MOVE_OP else ReadSaveReg(key - 2)
  }

  lemma CrowdedArguments(prog: Program) returns (regs: seq<U64>)
    requires prog == CrowdedPoint()
    ensures |prog.keys| == 64 && 0 in prog.ops && |regs| == 22 && Arguments(prog, 0, regs)
  {
    regs := seq(22, i => i);
    forall i | 0 <= i < 22
      ensures IsOp(prog, 2 * i, ReadSaveReg(i)) && IsOp(prog, 2 * i + 1, MOVE_OP)
    {
      assert prog.keys[2 * i] == 2 + i && prog.keys[2 * i + 1] == 1;
    }
  }

  function EventEnd(c: Ctx, first: Byte, reg0: U64, records: seq<Record>, prog: Program, env: Env): Ctx {
    Conclude(Run(Enter(NextEvent(c, first, reg0), records, prog), 0, |prog.keys|, prog, env))
  }

  lemma ConcludePost(vm: Vm)
    ensures Conclude(vm).post == vm.ctx.post
  {
  }

  /** The leftover of such a point, or of a fresh context, takes one step. */
  lemma LeftoverTakesOne(vm: Vm, prog: Program, env: Env)
    requires vm.status == Running && vm.op.Some? && !vm.ctx.flags.matchBlack && vm.ctx.keyIndex == 0
    requires vm.ctx.post == Unknown || vm.ctx.post == SaveReg
    ensures Going(Run(vm, 0, 1, prog, env), 0)
  {
    hide Step, Run;
    if vm.ctx.post == Unknown {
      FreshContext(vm, 0, prog, env);
    } else {
      SecondHalf(vm, 0, prog, env);
    }
    RunOnce(vm, 0, prog, env);
  }

  /** On such a point an event entered with nothing pending spends its 64 steps on 21 arguments
      and the first half of the 22nd, and leaves a save pending; one entered with that save, or
      on a fresh context, spends a step on the leftover and ends between two arguments. */
  lemma CrowdedEvent(c: Ctx, first: Byte, reg0: U64, records: seq<Record>, prog: Program, env: Env)
    requires prog == CrowdedPoint()
    ensures c.post == Skip ==> EventEnd(c, first, reg0, records, prog, env).post == SaveReg
    ensures c.post == Unknown || c.post == SaveReg ==> EventEnd(c, first, reg0, records, prog, env).post == Skip
  {
    hide CrowdedPoint, Step, Arguments, Run, Conclude;
    var regs := CrowdedArguments(prog);
    var vm := Enter(NextEvent(c, first, reg0), records, prog);
    ConcludePost(Run(vm, 0, 64, prog, env));
    if c.post == Skip {
      ArgumentsRun(vm, 0, 0, 64, regs, prog, env);
    } else if c.post == Unknown || c.post == SaveReg {
      LeftoverTakesOne(vm, prog, env);
      ArgumentsRun(Run(vm, 0, 1, prog, env), 1, 0, 63, regs, prog, env);
      RunSplit(vm, 0, 1, 63, prog, env);
    }
  }

  // ---------------------------------------------------------------------------
  // A post-code left over from the event before
  // ---------------------------------------------------------------------------

  lemma SaveMovesIndex(vm: Vm, op: Op, k: nat, env: Env)
    requires IsSave(vm.ctx.code)
    ensures Save(vm, op, k, env).ctx.saveIndex != vm.ctx.saveIndex
  {
    hide SaveWord, SaveBlock, SaveText, SaveBehind, Untag, StructLength;
  }

  lemma ComputeKeepsIndex(c: Ctx, op: Op, k: nat, env: Env)
    ensures Compute(c, op, k, env).saveIndex == c.saveIndex
  {
    hide Add, Sub, Min, StdStringAddress, PointerAddress;
  }

  lemma OthersKeepIndex(vm: Vm, op: Op, k: nat, prog: Program, env: Env)
    ensures Judge(vm, op, k, prog, env).ctx.saveIndex == vm.ctx.saveIndex
    ensures ReadRegister(vm, op, env).ctx.saveIndex == vm.ctx.saveIndex
  {
  }

  /** The code a fresh context starts with costs one step and nothing else. */
  lemma FreshContext(vm: Vm, k: nat, prog: Program, env: Env)
    requires vm.status == Running && vm.op.Some? && vm.ctx.post == Unknown && !vm.ctx.flags.matchBlack
    ensures Step(vm, k, prog, env) == vm.(ctx := vm.ctx.(code := Unknown, post := Skip))
  {
    hide Save, Judge, ReadRegister;
  }

  // ---------------------------------------------------------------------------
  // The event that inherits it
  // ---------------------------------------------------------------------------

  /** A filter op finds the event unwanted. */
  predicate Blacklists(c: Ctx, f: Filter, id: nat, k: nat, env: Env) {
    match c.code
    case FilterValue =>
      || (f.kind == Equal && f.num != c.regValue) || (f.kind == Greater && f.num <= c.regValue)
      || (f.kind == Less && f.num >= c.regValue)
    case FilterString => f.kind == Blacklist && env.equal(k, id, c.readAddr)
    case _ => false
  }

  /** The leftover, run on the op with key 0, ends the event before its own first op: a filter
      that does not exist or rejects, or a register that does not exist. */
  predicate LeftoverEnds(c: Ctx, op: Op, prog: Program, env: Env) {
    if IsFilter(c.code) then
      op.value !in prog.filters || Blacklists(c, prog.filters[op.value], op.value, 0, env)
    else c.code == ReadReg && RegisterNumber(c, op) >= REG_MAX
  }

  function Entered(c: Ctx, first: Byte, reg0: U64, records: seq<Record>, prog: Program): Vm {
    Enter(NextEvent(c, first, reg0), records, prog)
  }

  /** The event's own ops begin: at its first key, with its own first number, and with nothing
      saved yet. */
  predicate OwnStart(g: Vm, first: Byte, records: seq<Record>) {
    Ready(g, 0) && g.ctx.saveIndex == first && g.records == records
  }

  lemma SaveStarts(f: Vm, op: Op, k: nat, env: Env)
    requires IsSave(f.ctx.code)
    ensures var g := Save(f, op, k, env);
            && g.status == f.status && g.ctx.keyIndex == f.ctx.keyIndex && g.ctx.post == f.ctx.post
            && g.ctx.flags == f.ctx.flags && g.ctx.saveIndex != f.ctx.saveIndex
  {
    hide Save;
    SaveMovesIndex(f, op, k, env);
    SaveKeeps(f, op, k, env);
    SaveKeepsOp(f, op, k, env);
  }

  lemma JudgeStarts(f: Vm, op: Op, prog: Program, env: Env)
    requires IsFilter(f.ctx.code) && f.status == Running && !f.ctx.flags.matchBlack
    ensures var g := Judge(f, op, 0, prog, env);
            && g.ctx.keyIndex == f.ctx.keyIndex && g.ctx.post == f.ctx.post
            && g.ctx.saveIndex == f.ctx.saveIndex && g.records == f.records
            && (g.status == Running && !g.ctx.flags.matchBlack <==> !LeftoverEnds(f.ctx, op, prog, env))
            && g.status != Broke
  {
    hide Untag;
  }

  /** Outside a loop, a computing op stays where it is. */
  lemma ComputeStarts(c: Ctx, op: Op, k: nat, env: Env)
    requires c.loop.count == 0 && c.loop.limit == 0
    ensures var d := Compute(c, op, k, env);
            d.keyIndex == c.keyIndex && d.post == c.post && d.saveIndex == c.saveIndex && d.flags == c.flags
  {
    hide Add, Sub, Min, StdStringAddress, PointerAddress;
  }

  /** An event entered with a post-code pending spends its first step on it.  Its own ops then
      begin with their own numbering exactly when the leftover is neither a save nor one of
      those that end the event. */
  lemma LeftoverFirst(c: Ctx, first: Byte, reg0: U64, records: seq<Record>, prog: Program, env: Env)
    requires c.post != Skip && 0 in prog.ops
    ensures var vm := Entered(c, first, reg0, records, prog);
            var g := Step(vm, 0, prog, env);
            var e := vm.ctx.(code := c.post, post := Skip);
            && (OwnStart(g, first, records) <==> !IsSave(c.post) && !LeftoverEnds(e, prog.ops[0], prog, env))
            && (IsSave(c.post) ==> Ready(g, 0) && g.ctx.saveIndex != first)
            && (!IsSave(c.post) ==> g.ctx.saveIndex == first && g.records == records)
  {
    hide Save, Judge, Compute, IsSave;
    var vm := Entered(c, first, reg0, records, prog);
    var f := Fetch(vm, prog);
    var op := prog.ops[0];
    if IsSave(c.post) {
      SaveStarts(f, op, 0, env);
    } else if IsFilter(c.post) {
      JudgeStarts(f, op, prog, env);
    } else {
      ComputeStarts(f.ctx, op, 0, env);
    }
  }

  /** No step among these runs a save. */
  ghost predicate NoSaves(vm: Vm, k: nat, n: nat, prog: Program, env: Env)
    decreases n
  {
    n > 0 && vm.status == Running ==>
      && (Fetch(vm, prog).status == Running ==> !IsSave(Fetch(vm, prog).ctx.code))
      && NoSaves(Step(vm, k, prog, env), k + 1, n - 1, prog, env)
  }

  lemma StepWithoutSave(vm: Vm, k: nat, prog: Program, env: Env)
    requires vm.status == Running
    requires Fetch(vm, prog).status == Running ==> !IsSave(Fetch(vm, prog).ctx.code)
    ensures var g := Step(vm, k, prog, env);
            g.ctx.saveIndex == vm.ctx.saveIndex && g.records == vm.records
  {
    hide Save, Judge, ReadRegister, Compute;
    var f := Fetch(vm, prog);
    if f.op.Some? {
      OthersKeepRecords(f, f.op.value, k, prog, env);
      OthersKeepIndex(f, f.op.value, k, prog, env);
      ComputeKeepsIndex(f.ctx, f.op.value, k, env);
    }
  }

  lemma {:induction false} NoSavesKeep(vm: Vm, k: nat, n: nat, prog: Program, env: Env)
    requires NoSaves(vm, k, n, prog, env)
    ensures var g := Run(vm, k, n, prog, env);
            g.ctx.saveIndex == vm.ctx.saveIndex && g.records == vm.records
    decreases n
  {
    hide Step, Fetch, IsSave;
    if n > 0 && vm.status == Running {
      StepWithoutSave(vm, k, prog, env);
      NoSavesKeep(Step(vm, k, prog, env), k + 1, n - 1, prog, env);
    }
  }

  /** What a save adds to the records: one that carries the number `s` the save began with; a
      pointer string two, the second with the next number, or only one of the two. */
  predicate NumbersFrom(before: seq<Record>, after: seq<Record>, s: Byte, pair: bool) {
    && before <= after
    && |after| <= |before| + (if pair then 2 else 1)
    && (|after| == |before| + 1 ==>
          after[|before|].index == s || (pair && after[|before|].index == NextIndex(s)))
    && (|after| == |before| + 2 ==>
          after[|before|].index == s && after[|before| + 1].index == NextIndex(s))
  }

  lemma SaveNumbers(f: Vm, op: Op, k: nat, env: Env)
    requires IsSave(f.ctx.code) && !PointerString(f.ctx.code)
    ensures NumbersFrom(f.records, Save(f, op, k, env).records, f.ctx.saveIndex, false)
  {
    hide EncodeAll, LittleEndian, Masked, Untag, StructLength, NextIndex;
  }

  lemma PointerStringNumbers(f: Vm, op: Op, k: nat, env: Env)
    requires PointerString(f.ctx.code)
    ensures NumbersFrom(f.records, Save(f, op, k, env).records, f.ctx.saveIndex, true)
  {
    hide EncodeAll, LittleEndian, Masked, Untag, NextIndex;
  }

  /** After `j` steps without a save, a save adds to the records. */
  ghost predicate FirstSaveAt(vm: Vm, k: nat, j: nat, prog: Program, env: Env) {
    && NoSaves(vm, k, j, prog, env)
    && SavesNow(Run(vm, k, j, prog, env), k + j, prog, env)
  }

  ghost predicate SavesNow(u: Vm, k: nat, prog: Program, env: Env) {
    && u.status == Running && Fetch(u, prog).status == Running
    && IsSave(Fetch(u, prog).ctx.code)
    && Step(u, k, prog, env).records != u.records
  }

  /** The number of the first record by which `after` is longer than `before`. */
  function FirstNew(before: seq<Record>, after: seq<Record>): Option<Byte> {
    if |before| < |after| then Some(after[|before|].index) else None
  }

  /** Where the event's own ops begin: at once, or after the leftover. */
  function OwnStep(c: Ctx): nat {
    if c.post == Skip then 0 else 1
  }

  function OwnVm(c: Ctx, first: Byte, reg0: U64, records: seq<Record>, prog: Program, env: Env): Vm {
    Run(Entered(c, first, reg0, records, prog), 0, OwnStep(c), prog, env)
  }

  lemma OwnNumber(c: Ctx, first: Byte, reg0: U64, records: seq<Record>, prog: Program, env: Env)
    requires 0 in prog.ops
    ensures OwnVm(c, first, reg0, records, prog, env).ctx.saveIndex == first <==> !IsSave(c.post)
  {
    hide Step, IsSave, LeftoverEnds;
    var vm := Entered(c, first, reg0, records, prog);
    if c.post == Skip {
      SkipIsNoSave();
      assert Run(vm, 0, 0, prog, env) == vm;
    } else {
      LeftoverFirst(c, first, reg0, records, prog, env);
      RunOnce(vm, 0, prog, env);
    }
  }

  /** The whole event: whatever comes before the event's first own save, that save numbers its
      records from the event's first number exactly when the leftover was not a save.  So the
      first record it adds carries that number, unless it is a pointer string that could add
      only one of its two. */
  lemma OwnFirstRecord(
      c: Ctx, first: Byte, reg0: U64, records: seq<Record>, prog: Program, env: Env, j: nat)
    requires 0 in prog.ops && FirstSaveAt(OwnVm(c, first, reg0, records, prog, env), OwnStep(c), j, prog, env)
    ensures var n := OwnStep(c) + j;
            var u := Run(Entered(c, first, reg0, records, prog), 0, n, prog, env);
            var pair := PointerString(Fetch(u, prog).ctx.code);
            var after := Step(u, n, prog, env).records;
            && NumbersFrom(u.records, after, u.ctx.saveIndex, pair)
            && (u.ctx.saveIndex == first <==> !IsSave(c.post))
            && (!pair || |after| == |u.records| + 2 ==>
                  (FirstNew(u.records, after) == Some(first) <==> !IsSave(c.post)))
  {
    hide Step, Fetch, Run, IsSave, NoSaves, Entered, PointerString;
    var own := OwnVm(c, first, reg0, records, prog, env);
    OwnNumber(c, first, reg0, records, prog, env);
    NoSavesKeep(own, OwnStep(c), j, prog, env);
    RunSplit(Entered(c, first, reg0, records, prog), 0, OwnStep(c), j, prog, env);
    StepNumbers(Run(own, OwnStep(c), j, prog, env), OwnStep(c) + j, prog, env);
  }

  lemma SkipIsNoSave()
    ensures !IsSave(Skip)
  {
  }

  lemma StepNumbers(u: Vm, k: nat, prog: Program, env: Env)
    requires u.status == Running && Fetch(u, prog).status == Running
    requires IsSave(Fetch(u, prog).ctx.code)
    ensures NumbersFrom(u.records, Step(u, k, prog, env).records, u.ctx.saveIndex,
                        PointerString(Fetch(u, prog).ctx.code))
  {
    hide Save, NumbersFrom;
    var f := Fetch(u, prog);
    if f.op.Some? && PointerString(f.ctx.code) {
      PointerStringNumbers(f, f.op.value, k, env);
    } else if f.op.Some? {
      SaveNumbers(f, f.op.value, k, env);
    }
  }

  /** The first event on a fresh context behaves like one with nothing pending, a step later: a
      read expression at its first key saves exactly the address it denotes. */
  lemma FreshEventSaves(
      first: Byte, reg0: U64, records: seq<Record>, items: seq<Item>, prog: Program, env: Env)
    requires 0 in prog.ops && SingleRegister(items) && HasOps(prog, 0, Compiled(items))
    ensures var vm := Entered(Fresh(), first, reg0, records, prog);
            var n := |Compiled(items)|;
            var value := Wrap(Denotes(RegisterValue(vm, items[0].token.number, env), items[1..], 3, env));
            var g := Run(vm, 0, n + 2, prog, env);
            Going(g, n) && SavedAddress(vm, g, value, env.copied(n + 1, 0))
  {
    hide Run, Step, HasOps, Denotes, Compiled, SingleRegister, Wrap, Room, LittleEndian, NextIndex;
    var vm := Entered(Fresh(), first, reg0, records, prog);
    var g := Step(vm, 0, prog, env);
    FreshContext(vm, 0, prog, env);
    ReadExpressionSaves(g, 1, 0, items, prog, env);
    RunOnce(vm, 0, prog, env);
    RunSplit(vm, 0, 1, |Compiled(items)| + 1, prog, env);
  }

  /** Three events in a row on the crowded point, the first on a fresh context: the second leaves
      a save pending, and in the third the event's own ops begin one number too high. */
  lemma ThirdEventShifted(
      first: Byte, reg0: U64, records: seq<Record>, prog: Program, env1: Env, env2: Env, env3: Env)
    requires prog == CrowdedPoint()
    ensures var c1 := EventEnd(Fresh(), first, reg0, records, prog, env1);
            var c2 := EventEnd(c1, first, reg0, records, prog, env2);
            var g := Step(Entered(c2, first, reg0, records, prog), 0, prog, env3);
            c1.post == Skip && c2.post == SaveReg && Ready(g, 0) && g.ctx.saveIndex != first
  {
    hide Step, EventEnd, LeftoverEnds;
    var c1 := EventEnd(Fresh(), first, reg0, records, prog, env1);
    var c2 := EventEnd(c1, first, reg0, records, prog, env2);
    CrowdedEvent(Fresh(), first, reg0, records, prog, env1);
    CrowdedEvent(c1, first, reg0, records, prog, env2);
    var regs := CrowdedArguments(prog);
    hide CrowdedPoint;
    LeftoverFirst(c2, first, reg0, records, prog, env3);
  }
}
