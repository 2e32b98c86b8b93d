/** Argument types that loop: arrays of string pointers, arrays of iovecs and message headers
    (user/argtype/argtype_complex.go), and with them all types. */
module ArgArrays {
  import opened Common
  import opened ArgBuffer
  import opened ArgVm
  import opened ArgLoop
  import opened ReadExpr
  import opened ArgEvents
  import opened ArgKinds

  // ---------------------------------------------------------------------------
  // Laps of a loop
  // ---------------------------------------------------------------------------

  /** `n` laps are left of a loop whose body begins at `at`; a loop of no laps has one. */
  predicate Lapping(l: Loop, at: nat, n: nat) {
    if n == 0 then l.count == 0 && l.limit == 0 else l.count > 0 && l.count + n == l.limit + 1 && l.start == at
  }

  /** At the first op of a loop's body. */
  predicate InLap(vm: Vm, s: Seen, at: nat, n: nat) {
    Stands(vm, s, at) && Lapping(vm.ctx.loop, at, n)
  }

  ghost predicate Leaves(vm: Vm, s: Seen, m: At, to: nat, prog: Program, env: Env) {
    && s.step <= m.seen.step
    && var g := Run(vm, s.step, m.seen.step - s.step, prog, env);
    && Stands(g, m.seen, to) && g.ctx.loop.count == 0 && g.ctx.readAddr == m.addr && g.ctx.reg0 == vm.ctx.reg0
  }

  /** First to `t`, then out. */
  lemma LeavesOn(vm: Vm, s: Seen, t: Seen, m: At, to: nat, prog: Program, env: Env)
    requires s.step <= t.step
    requires var g := Run(vm, s.step, t.step - s.step, prog, env);
             g.ctx.reg0 == vm.ctx.reg0 && Leaves(g, t, m, to, prog, env)
    ensures Leaves(vm, s, m, to, prog, env)
  {
    hide Run, Stands;
    RunSplit(vm, s.step, t.step - s.step, m.seen.step - t.step, prog, env);
  }

  lemma OffsetRuns(vm: Vm, s: Seen, at: nat, offset: U64, prog: Program, env: Env)
    requires Stands(vm, s, at) && IsOp(prog, at, Plain(AddOffset, offset))
    ensures var g := Step(vm, s.step, prog, env);
            && Stands(g, Waits(s, 1), at + 1) && Steady(vm, g)
            && g.ctx.readAddr == (vm.ctx.readAddr + offset) % TWO64
  {
    hide Run, Step, Stands, Compute, IsOp;
    ComputeReads(vm, s, at, Plain(AddOffset, offset), prog, env);
    OffsetComputes(Fetched(vm.ctx, Plain(AddOffset, offset)), Plain(AddOffset, offset), s.step, env);
  }

  lemma EdgeRuns(vm: Vm, k: nat, at: nat, prog: Program, env: Env)
    requires Going(vm, at) && IsOp(prog, at, Plain(ForBreak, 0))
    ensures var g := Step(vm, k, prog, env);
            && g.status == Running && Untouched(vm, g) && g.ctx.post == Skip && g.ctx.readAddr == vm.ctx.readAddr
            && var Loop(count, limit, start) := vm.ctx.loop;
            && if count >= limit then g.ctx.loop == Loop(0, 0, 0) && g.ctx.keyIndex == at + 1
               else
                 var first := if count == 0 then at + 1 else start;
                 g.ctx.loop == Loop(count + 1, limit, first) && g.ctx.keyIndex == first
  {
    hide Step;
    EdgeStep(vm, k, at, prog, env);
  }

  /** The closing edge: back to the body, or out. */
  lemma LapCloses(vm: Vm, s: Seen, at: nat, first: nat, n: nat, prog: Program, env: Env)
    requires Stands(vm, s, at) && IsOp(prog, at, Plain(ForBreak, 0))
    requires Lapping(vm.ctx.loop, first, n) || (n <= 1 && vm.ctx.loop.count == vm.ctx.loop.limit)
    ensures var g := Step(vm, s.step, prog, env);
            && g.ctx.reg0 == vm.ctx.reg0 && g.ctx.readAddr == vm.ctx.readAddr
            && if n <= 1 then Stands(g, Waits(s, 1), at + 1) && g.ctx.loop.count == 0
               else InLap(g, Waits(s, 1), first, n - 1)
  {
    hide Step, IsOp;
    EdgeRuns(vm, s.step, at, prog, env);
  }

  /** The opening edge: into the body. */
  lemma LapOpens(vm: Vm, s: Seen, at: nat, prog: Program, env: Env)
    requires Stands(vm, s, at) && IsOp(prog, at, Plain(ForBreak, 0)) && vm.ctx.loop.count == 0
    ensures var g := Step(vm, s.step, prog, env);
            && g.ctx.reg0 == vm.ctx.reg0 && g.ctx.readAddr == vm.ctx.readAddr
            && InLap(g, Waits(s, 1), at + 1, vm.ctx.loop.limit)
  {
    hide Step, IsOp;
    EdgeRuns(vm, s.step, at, prog, env);
  }

  // ---------------------------------------------------------------------------
  // Arrays of string pointers
  // ---------------------------------------------------------------------------

  function PointerOp(wide: bool): Op {
    Plain(if wide then SavePtrString16 else SavePtrString, 0)
  }

  predicate ArrayBody(prog: Program, at: nat, wide: bool) {
    && IsOp(prog, at, PointerOp(wide)) && IsOp(prog, at + 1, Plain(AddOffset, 8))
    && IsOp(prog, at + 2, Plain(ForBreak, 0))
  }

  lemma BehindRuns(vm: Vm, s: Seen, at: nat, wide: bool, prog: Program, env: Env)
    requires Stands(vm, s, at) && IsOp(prog, at, PointerOp(wide))
    ensures var g := Step(vm, s.step, prog, env);
            && Stands(g, SavesBehind(s, vm.ctx.readAddr, wide, env), at + 1)
            && g.ctx.reg0 == vm.ctx.reg0 && g.ctx.readAddr == vm.ctx.readAddr
            && g.ctx.loop == if BehindSaved(s, vm.ctx.readAddr, wide, env) then vm.ctx.loop else EndLoop(vm.ctx.loop)
  {
    hide Step, Save, IsOp, Kept, BehindWant, EmptyWant, WordWants, BehindSaved;
    var op := PointerOp(wide);
    SaveRuns(vm, s.step, at, op, prog, env);
    BehindSaves(Loaded(vm, op), s, op, wide, env);
  }

  /** One lap: a pointer and its string are saved, and the loop goes on or is left. */
  lemma LapRuns(vm: Vm, s: Seen, at: nat, n: nat, wide: bool, prog: Program, env: Env)
    requires InLap(vm, s, at, n) && n > 0 && ArrayBody(prog, at, wide)
    ensures var t := Waits(SavesBehind(s, vm.ctx.readAddr, wide, env), 2);
            var g := Run(vm, s.step, 3, prog, env);
            && g.ctx.reg0 == vm.ctx.reg0 && g.ctx.readAddr == (vm.ctx.readAddr + 8) % TWO64
            && if n <= 1 || !BehindSaved(s, vm.ctx.readAddr, wide, env) then
                 Stands(g, t, at + 3) && g.ctx.loop.count == 0
               else InLap(g, t, at, n - 1)
  {
    hide Step, Run, IsOp, BehindSaved, SavesBehind, Stands;
    var k, saved := s.step, BehindSaved(s, vm.ctx.readAddr, wide, env);
    BehindRuns(vm, s, at, wide, prog, env);
    BehindStep(s, vm.ctx.readAddr, wide, env);
    var g, t := Step(vm, k, prog, env), SavesBehind(s, vm.ctx.readAddr, wide, env);
    OffsetRuns(g, t, at + 1, 8, prog, env);
    var h := Step(g, k + 1, prog, env);
    LapCloses(h, Waits(t, 1), at + 2, at, if saved then n else 1, prog, env);
    StandsRuns(vm, s, at);
    StandsRuns(g, t, at + 1);
    StandsRuns(h, Waits(t, 1), at + 2);
    RunTwice(vm, k, prog, env);
    RunNext(vm, k, 2, prog, env);
  }

  lemma {:induction false} ArrayRuns(vm: Vm, s: Seen, at: nat, n: nat, wide: bool, prog: Program, env: Env)
    requires InLap(vm, s, at, n) && n > 0 && ArrayBody(prog, at, wide)
    ensures Leaves(vm, s, SavesArray(s, vm.ctx.readAddr, n, wide, env), at + 3, prog, env)
    decreases n
  {
    hide Step, Run, InLap, ArrayBody, SavesBehind, BehindSaved, Stands;
    LapRuns(vm, s, at, n, wide, prog, env);
    BehindStep(s, vm.ctx.readAddr, wide, env);
    var t := Waits(SavesBehind(s, vm.ctx.readAddr, wide, env), 2);
    var g := Run(vm, s.step, 3, prog, env);
    if n > 1 && BehindSaved(s, vm.ctx.readAddr, wide, env) {
      ArrayRuns(g, t, at, n - 1, wide, prog, env);
      LeavesOn(vm, s, t, SavesArray(s, vm.ctx.readAddr, n, wide, env), at + 3, prog, env);
    }
  }

  lemma BehindStep(s: Seen, addr: nat, wide: bool, env: Env)
    ensures SavesBehind(s, addr, wide, env).step == s.step + 1
  {
  }

  lemma LimitRuns(vm: Vm, s: Seen, at: nat, prog: Program, env: Env)
    requires Stands(vm, s, at) && IsOp(prog, at, Plain(SetBreakCount, 32))
    ensures var g := Step(vm, s.step, prog, env);
            && Stands(g, Waits(s, 1), at + 1) && g.ctx.readAddr == vm.ctx.readAddr && g.ctx.reg0 == vm.ctx.reg0
            && g.ctx.loop == vm.ctx.loop.(limit := 32)
  {
    hide Step;
    ComputeStep(vm, s.step, at, Plain(SetBreakCount, 32), prog, env);
  }

  lemma ArrayReads(vm: Vm, s: Seen, at: nat, wide: bool, prog: Program, env: Env)
    requires Stands(vm, s, at) && vm.ctx.loop.count == 0 && HasOps(prog, at, KindOps(TextArray(wide)))
    ensures Leaves(vm, s, SavesArray(Waits(s, 2), vm.ctx.readAddr, 32, wide, env), at + 5, prog, env)
  {
    hide Step, Run, HasOps, IsOp, SavesArray, Stands, InLap, Leaves;
    var ops, k := KindOps(TextArray(wide)), s.step;
    OpsAt(prog, at, ops, 0);
    OpsAt(prog, at, ops, 1);
    OpsAt(prog, at, ops, 2);
    OpsAt(prog, at, ops, 3);
    OpsAt(prog, at, ops, 4);
    assert ArrayBody(prog, at + 2, wide);
    LimitRuns(vm, s, at, prog, env);
    var g := Step(vm, k, prog, env);
    LapOpens(g, Waits(s, 1), at + 1, prog, env);
    StandsRuns(vm, s, at);
    StandsRuns(g, Waits(s, 1), at + 1);
    RunTwice(vm, k, prog, env);
    var h := Run(vm, k, 2, prog, env);
    ArrayRuns(h, Waits(s, 2), at + 2, 32, wide, prog, env);
    LeavesOn(vm, s, Waits(s, 2), SavesArray(Waits(s, 2), vm.ctx.readAddr, 32, wide, env), at + 5, prog, env);
  }

  // ---------------------------------------------------------------------------
  // Loops over iovecs
  // ---------------------------------------------------------------------------

  lemma SetsTmp(vm: Vm, s: Seen, at: nat, prog: Program, env: Env)
    requires Stands(vm, s, at) && IsOp(prog, at, Plain(SetTmpValue, 0))
    ensures var g := Step(vm, s.step, prog, env);
            && Stands(g, Waits(s, 1), at + 1) && g.ctx.loop == vm.ctx.loop && g.ctx.reg0 == vm.ctx.reg0
            && g.ctx.tmpValue == vm.ctx.readAddr == g.ctx.readAddr
  {
    hide Step;
    ComputeStep(vm, s.step, at, Plain(SetTmpValue, 0), prog, env);
  }

  lemma MovesTmp(vm: Vm, s: Seen, at: nat, prog: Program, env: Env)
    requires Stands(vm, s, at) && IsOp(prog, at, Plain(MoveTmpValue, 0))
    ensures var g := Step(vm, s.step, prog, env);
            Stands(g, Waits(s, 1), at + 1) && Steady(vm, g) && g.ctx.readAddr == vm.ctx.tmpValue
  {
    hide Step;
    ComputeStep(vm, s.step, at, Plain(MoveTmpValue, 0), prog, env);
  }

  /** The end of a lap, after an iovec: back to where it was, on to the next, and the edge. */
  lemma IovecLapEnds(vm: Vm, s: Seen, at: nat, first: nat, n: nat, prog: Program, env: Env)
    requires Stands(vm, s, at) && Lapping(vm.ctx.loop, first, n)
    requires IsOp(prog, at, Plain(MoveTmpValue, 0)) && IsOp(prog, at + 1, Plain(AddOffset, 16))
    requires IsOp(prog, at + 2, Plain(ForBreak, 0))
    ensures var g := Run(vm, s.step, 3, prog, env);
            && g.ctx.reg0 == vm.ctx.reg0 && g.ctx.readAddr == (vm.ctx.tmpValue + 16) % TWO64
            && if n <= 1 then Stands(g, Waits(s, 3), at + 3) && g.ctx.loop.count == 0
               else InLap(g, Waits(s, 3), first, n - 1)
  {
    hide Step, Run, IsOp, Stands;
    var k := s.step;
    MovesTmp(vm, s, at, prog, env);
    var g := Step(vm, k, prog, env);
    OffsetRuns(g, Waits(s, 1), at + 1, 16, prog, env);
    var h := Step(g, k + 1, prog, env);
    LapCloses(h, Waits(s, 2), at + 2, first, n, prog, env);
    StandsRuns(vm, s, at);
    StandsRuns(g, Waits(s, 1), at + 1);
    StandsRuns(h, Waits(s, 2), at + 2);
    RunTwice(vm, k, prog, env);
    RunNext(vm, k, 2, prog, env);
  }

  lemma IovecSteps(s: Seen, addr: nat, env: Env)
    ensures IovecMeans(s, addr, env).seen.step == s.step + 8
  {
    hide Kept, BytesWant, EmptyWant, Low, UpTo4096;
  }

  /** The body of a loop over iovecs. */
  predicate IovecBody(prog: Program, at: nat) {
    && IsOp(prog, at, Plain(SetTmpValue, 0)) && HasOps(prog, at + 1, IovecOps())
    && IsOp(prog, at + 8, Plain(MoveTmpValue, 0)) && IsOp(prog, at + 9, Plain(AddOffset, 16))
    && IsOp(prog, at + 10, Plain(ForBreak, 0))
  }

  lemma IovecLapRuns(vm: Vm, s: Seen, at: nat, n: nat, prog: Program, env: Env)
    requires InLap(vm, s, at, n) && IovecBody(prog, at)
    ensures var t := Waits(IovecMeans(Waits(s, 1), vm.ctx.readAddr, env).seen, 3);
            var g := Run(vm, s.step, 12, prog, env);
            && t.step == s.step + 12
            && g.ctx.reg0 == vm.ctx.reg0 && g.ctx.readAddr == (vm.ctx.readAddr + 16) % TWO64
            && if n <= 1 then Stands(g, t, at + 11) && g.ctx.loop.count == 0 else InLap(g, t, at, n - 1)
  {
    hide Step, Run, IsOp, HasOps, Stands, IovecMeans, IovecOps;
    var k := s.step;
    SetsTmp(vm, s, at, prog, env);
    StandsRuns(vm, s, at);
    RunOnce(vm, k, prog, env);
    var g := Step(vm, k, prog, env);
    IovecReads(g, Waits(s, 1), at + 1, prog, env);
    IovecSteps(Waits(s, 1), vm.ctx.readAddr, env);
    var u := IovecMeans(Waits(s, 1), vm.ctx.readAddr, env).seen;
    var h := Run(g, k + 1, 8, prog, env);
    IovecLapEnds(h, u, at + 8, at, n, prog, env);
    RunSplit(g, k + 1, 8, 3, prog, env);
    RunSplit(vm, k, 1, 11, prog, env);
  }

  lemma {:induction false} IovecsRun(vm: Vm, s: Seen, at: nat, n: nat, prog: Program, env: Env)
    requires InLap(vm, s, at, n) && IovecBody(prog, at)
    ensures Leaves(vm, s, SavesIovecs(s, vm.ctx.readAddr, n, env), at + 11, prog, env)
    decreases n
  {
    hide Step, Run, InLap, IovecBody, IovecMeans, Stands;
    IovecLapRuns(vm, s, at, n, prog, env);
    var t := Waits(IovecMeans(Waits(s, 1), vm.ctx.readAddr, env).seen, 3);
    var g := Run(vm, s.step, 12, prog, env);
    if n > 1 {
      IovecsRun(g, t, at, n - 1, prog, env);
      LeavesOn(vm, s, t, SavesIovecs(s, vm.ctx.readAddr, n, env), at + 11, prog, env);
    }
  }

  lemma LoopHasBody(prog: Program, at: nat)
    requires HasOps(prog, at, IovecLoop())
    ensures IsOp(prog, at, Plain(ForBreak, 0)) && IovecBody(prog, at + 1)
  {
    hide HasOps, IsOp, IovecOps;
    var ops, front, back := IovecLoop(), [Plain(ForBreak, 0), Plain(SetTmpValue, 0)],
                            [Plain(MoveTmpValue, 0), Plain(AddOffset, 16), Plain(ForBreak, 0)];
    IovecLength();
    OpsAt(prog, at, ops, 0);
    OpsAt(prog, at, ops, 1);
    OpsAt(prog, at, ops, 9);
    OpsAt(prog, at, ops, 10);
    OpsAt(prog, at, ops, 11);
    assert ops == front + (IovecOps() + back);
    HasRest(prog, at, front, IovecOps() + back);
    HasRest(prog, at + 2, IovecOps(), back);
  }

  lemma IovecLength()
    ensures |IovecOps()| == 7
  {
  }

  /** The loop, from its opening edge on. */
  lemma IovecLoopReads(vm: Vm, s: Seen, at: nat, prog: Program, env: Env)
    requires Stands(vm, s, at) && vm.ctx.loop.count == 0 && HasOps(prog, at, IovecLoop())
    ensures Leaves(vm, s, SavesIovecs(Waits(s, 1), vm.ctx.readAddr, vm.ctx.loop.limit, env), at + 12, prog, env)
  {
    hide Step, Run, HasOps, IsOp, Stands, InLap, Leaves, SavesIovecs, IovecLoop, IovecBody;
    LoopHasBody(prog, at);
    LapOpens(vm, s, at, prog, env);
    StandsRuns(vm, s, at);
    RunOnce(vm, s.step, prog, env);
    var g, n := Step(vm, s.step, prog, env), vm.ctx.loop.limit;
    IovecsRun(g, Waits(s, 1), at + 1, n, prog, env);
    LeavesOn(vm, s, Waits(s, 1), SavesIovecs(Waits(s, 1), vm.ctx.readAddr, n, env), at + 12, prog, env);
  }

  // ---------------------------------------------------------------------------
  // Arrays of iovecs
  // ---------------------------------------------------------------------------

  lemma ThenLimits(vm: Vm, s: Seen, at: nat, op: Op, prog: Program, env: Env)
    requires Halfway(vm, s, at, op) && (op.post == SetBreakCountRegValue || op.post == SetBreakCountPointerValue)
    ensures var g, c := Step(vm, s.step, prog, env), vm.ctx;
            && Stands(g, Waits(s, 1), at) && g.ctx.reg0 == c.reg0 && g.ctx.readAddr == c.readAddr
            && g.ctx.regValue == c.regValue
            && g.ctx.loop == c.loop.(limit := UpTo32(if op.post == SetBreakCountRegValue then c.regValue
                                                     else c.pointerValue))
  {
    hide Save, Judge, ReadRegister;
  }

  /** What saving a word does, from any state. */
  lemma WordSaves(vm: Vm, s: Seen, op: Op, env: Env)
    requires vm.ctx.code == SaveReg || vm.ctx.code == SavePointer
    requires vm.records == s.records && vm.ctx.saveIndex == s.index
    ensures var g := Save(vm, op, s.step, env);
            var value := if vm.ctx.code == SaveReg then vm.ctx.regValue else vm.ctx.pointerValue;
            && g.records == Kept(s.records, WordWants(s.index, value, s.step, env))
            && g.ctx == vm.ctx.(saveIndex := (s.index + 1) % 256)
  {
    hide SaveWord, Kept, WordWants;
    WordKept(s.records, s.index, vm.ctx.regValue, s.step, env);
    WordKept(s.records, s.index, vm.ctx.pointerValue, s.step, env);
  }

  lemma RegisterSaves(vm: Vm, s: Seen, at: nat, prog: Program, env: Env)
    requires Stands(vm, s, at) && IsOp(prog, at, Plain(SaveReg, 0))
    ensures var g := Step(vm, s.step, prog, env);
            && Stands(g, Saves(s, WordWants(s.index, vm.ctx.regValue, s.step, env)), at + 1)
            && Steady(vm, g) && g.ctx.readAddr == vm.ctx.readAddr
  {
    hide Step, IsOp, Save, Kept, WordWants;
    var op := Plain(SaveReg, 0);
    SaveRuns(vm, s.step, at, op, prog, env);
    WordSaves(Loaded(vm, op), s, op, env);
  }

  lemma PointerSaves(vm: Vm, s: Seen, at: nat, prog: Program, env: Env)
    requires Stands(vm, s, at) && IsOp(prog, at, Plain(ReadPointer, 0)) && IsOp(prog, at + 1, Plain(SavePointer, 0))
    ensures var g, word := Run(vm, s.step, 2, prog, env), env.word(s.step, vm.ctx.readAddr);
            Stands(g, Saves(Waits(s, 1), WordWants(s.index, word, s.step + 1, env)), at + 2)
  {
    hide Step, Run, IsOp, Save, Kept, WordWants;
    ReadsPointer(vm, s, at, prog, env);
    var g, op := Step(vm, s.step, prog, env), Plain(SavePointer, 0);
    SaveRuns(g, s.step + 1, at + 1, op, prog, env);
    WordSaves(Loaded(g, op), Waits(s, 1), op, env);
    RunTwice(vm, s.step, prog, env);
  }

  /** The count: read, made the limit and saved, in three steps. */
  lemma CountReads(vm: Vm, s: Seen, at: nat, reg: U64, prog: Program, env: Env)
    requires Stands(vm, s, at) && reg < REG_MAX && vm.ctx.loop.count == 0
    requires IsOp(prog, at, Op(ReadReg, SetRegIndex, SetBreakCountRegValue, reg))
    requires IsOp(prog, at + 1, Plain(SaveReg, 0))
    ensures var g, count := Run(vm, s.step, 3, prog, env), Register(reg, vm.ctx.reg0, env);
            && Stands(g, Saves(Waits(s, 2), WordWants(s.index, count, s.step + 2, env)), at + 2)
            && g.ctx.reg0 == vm.ctx.reg0 && g.ctx.readAddr == vm.ctx.readAddr
            && g.ctx.loop.count == 0 && g.ctx.loop.limit == UpTo32(count)
  {
    hide Step, Run, IsOp, Stands, Register, UpTo32, Kept, WordWants;
    var op, k := Op(ReadReg, SetRegIndex, SetBreakCountRegValue, reg), s.step;
    FirstReadsRegister(vm, s, at, op, prog, env);
    var g := Step(vm, k, prog, env);
    ThenLimits(g, Waits(s, 1), at + 1, op, prog, env);
    var h := Step(g, k + 1, prog, env);
    RegisterSaves(h, Waits(s, 2), at + 1, prog, env);
    StandsRuns(vm, s, at);
    StandsRuns(h, Waits(s, 2), at + 1);
    RunTwice(vm, k, prog, env);
    RunNext(vm, k, 2, prog, env);
  }

  lemma IovecArrayReads(vm: Vm, s: Seen, at: nat, reg: U64, prog: Program, env: Env)
    requires Stands(vm, s, at) && reg < REG_MAX && vm.ctx.loop.count == 0 && vm.ctx.readAddr < TWO64
    requires HasOps(prog, at, KindOps(IovecArray(reg)))
    ensures Leaves(vm, s, KindMeans(s, IovecArray(reg), vm.ctx.readAddr, vm.ctx.reg0, env), at + 14, prog, env)
  {
    hide Step, Run, HasOps, IsOp, Stands, Leaves, SavesIovecs, IovecLoop, Register, UpTo32, Kept, WordWants;
    var front, count := [Op(ReadReg, SetRegIndex, SetBreakCountRegValue, reg), Plain(SaveReg, 0)],
                        Register(reg, vm.ctx.reg0, env);
    HasRest(prog, at, front, IovecLoop());
    OpsAt(prog, at, front, 0);
    OpsAt(prog, at, front, 1);
    CountReads(vm, s, at, reg, prog, env);
    var g, t := Run(vm, s.step, 3, prog, env), Saves(Waits(s, 2), WordWants(s.index, count, s.step + 2, env));
    IovecLoopReads(g, t, at + 2, prog, env);
    LeavesOn(vm, s, t, SavesIovecs(Waits(t, 1), vm.ctx.readAddr, UpTo32(count), env), at + 14, prog, env);
  }

  // ---------------------------------------------------------------------------
  // Message headers
  // ---------------------------------------------------------------------------

  /** The control buffer, once the header's address is kept. */
  lemma ControlBufferReads(vm: Vm, s: Seen, at: nat, prog: Program, env: Env)
    requires Stands(vm, s, at) && vm.ctx.readAddr < TWO48
    requires IsOp(prog, at, Plain(SetReadLen, 4096)) && IsOp(prog, at + 1, PointerAt(40, SetReadLenPointerValue))
    requires IsOp(prog, at + 2, PointerAt(32, MovePointerValue)) && IsOp(prog, at + 3, Plain(SaveStruct, 0))
    ensures var here, k := vm.ctx.readAddr, s.step;
            var base, n := Low(env.word(k + 3, here + 32)), UpTo4096(env.word(k + 1, here + 40));
            Reads(vm, s, At(SavesBytes(Waits(s, 5), base, n, env), base), at + 4, prog, env)
  {
    hide Step, Run, IsOp, Stands, Reads, Low, SavesBytes, PointerAt;
    var here, k := vm.ctx.readAddr, s.step;
    SetsLength(vm, s, at, 4096, prog, env);
    var g1 := Step(vm, k, prog, env);
    LengthFromPointer(g1, Waits(s, 1), at + 1, 40, prog, env);
    var g2 := Run(g1, k + 1, 2, prog, env);
    AddressFromPointer(g2, Waits(s, 3), at + 2, 32, prog, env);
    var g3 := Run(g2, k + 3, 2, prog, env);
    BlockReads(g3, Waits(s, 5), at + 3, prog, env);
    var base, n := Low(env.word(k + 3, here + 32)), UpTo4096(env.word(k + 1, here + 40));
    assert UpTo4096(n) == n;
    var end := At(SavesBytes(Waits(s, 5), base, n, env), base);
    ReadsOn(g2, Waits(s, 3), At(Waits(s, 5), 0), end, at + 4, prog, env);
    ReadsOn(g1, Waits(s, 1), At(Waits(s, 3), 0), end, at + 4, prog, env);
    ReadsOn(vm, s, At(Waits(s, 1), 0), end, at + 4, prog, env);
  }

  lemma LimitFromPointer(vm: Vm, s: Seen, at: nat, offset: U64, prog: Program, env: Env)
    requires Stands(vm, s, at) && vm.ctx.readAddr < TWO48 && offset < 4096 && vm.ctx.loop.count == 0
    requires IsOp(prog, at, PointerAt(offset, SetBreakCountPointerValue))
    ensures var g := Run(vm, s.step, 2, prog, env);
            && Stands(g, Waits(s, 2), at + 1) && g.ctx.reg0 == vm.ctx.reg0 && g.ctx.readAddr == vm.ctx.readAddr
            && g.ctx.loop.count == 0 && g.ctx.loop.limit == UpTo32(env.word(s.step, vm.ctx.readAddr + offset))
  {
    hide Step, Run, IsOp, Stands, UpTo32;
    var op := PointerAt(offset, SetBreakCountPointerValue);
    FirstReadsPointer(vm, s, at, offset, op.post, prog, env);
    ThenLimits(Step(vm, s.step, prog, env), Waits(s, 1), at + 1, op, prog, env);
    StandsRuns(vm, s, at);
    RunTwice(vm, s.step, prog, env);
  }

  /** Count and address of the iovecs, in five steps. */
  lemma IovecsFound(vm: Vm, s: Seen, at: nat, prog: Program, env: Env)
    requires Stands(vm, s, at) && vm.ctx.tmpValue < TWO48 && vm.ctx.loop.count == 0
    requires IsOp(prog, at, Plain(MoveTmpValue, 0)) && IsOp(prog, at + 1, PointerAt(24, SetBreakCountPointerValue))
    requires IsOp(prog, at + 2, PointerAt(16, MovePointerValue))
    ensures var g, here := Run(vm, s.step, 5, prog, env), vm.ctx.tmpValue;
            && Stands(g, Waits(s, 5), at + 3) && g.ctx.reg0 == vm.ctx.reg0
            && g.ctx.readAddr == env.word(s.step + 3, here + 16)
            && g.ctx.loop.count == 0 && g.ctx.loop.limit == UpTo32(env.word(s.step + 1, here + 24))
  {
    hide Step, Run, IsOp, Stands, UpTo32, PointerAt;
    var k := s.step;
    MovesTmp(vm, s, at, prog, env);
    StandsRuns(vm, s, at);
    RunOnce(vm, k, prog, env);
    var g := Step(vm, k, prog, env);
    LimitFromPointer(g, Waits(s, 1), at + 1, 24, prog, env);
    var h := Run(g, k + 1, 2, prog, env);
    AddressFromPointer(h, Waits(s, 3), at + 2, 16, prog, env);
    RunSplit(g, k + 1, 2, 2, prog, env);
    RunSplit(vm, k, 1, 4, prog, env);
  }

  lemma MsghdrHasOps(prog: Program, at: nat)
    requires HasOps(prog, at, MsghdrOps())
    ensures IsOp(prog, at, Plain(SetReadLen, 56)) && IsOp(prog, at + 1, Plain(SaveStruct, 0))
    ensures IsOp(prog, at + 2, Plain(SetTmpValue, 0)) && IsOp(prog, at + 3, Plain(SetReadLen, 4096))
    ensures IsOp(prog, at + 4, PointerAt(40, SetReadLenPointerValue))
    ensures IsOp(prog, at + 5, PointerAt(32, MovePointerValue)) && IsOp(prog, at + 6, Plain(SaveStruct, 0))
    ensures IsOp(prog, at + 7, Plain(MoveTmpValue, 0)) && IsOp(prog, at + 8, PointerAt(24, SetBreakCountPointerValue))
    ensures IsOp(prog, at + 9, PointerAt(16, MovePointerValue))
  {
    hide HasOps, IsOp, Plain, PointerAt;
    var ops := MsghdrOps();
    OpsAt(prog, at, ops, 0);
    OpsAt(prog, at, ops, 1);
    OpsAt(prog, at, ops, 2);
    OpsAt(prog, at, ops, 3);
    OpsAt(prog, at, ops, 4);
    OpsAt(prog, at, ops, 5);
    OpsAt(prog, at, ops, 6);
    OpsAt(prog, at, ops, 7);
    OpsAt(prog, at, ops, 8);
    OpsAt(prog, at, ops, 9);
  }

  lemma ControlSteps(s: Seen, here: nat, env: Env)
    ensures SavesBytes(Waits(s, 1), here, 56, env).step == s.step + 2 && ControlMeans(s, here, env).step == s.step + 9
  {
    hide Kept, BytesWant, EmptyWant, Low, UpTo4096;
  }

  /** The header and its control buffer, in nine steps; the header's address is kept. */
  lemma HeaderReads(vm: Vm, s: Seen, at: nat, prog: Program, env: Env)
    requires Stands(vm, s, at) && HasOps(prog, at, MsghdrOps())
    ensures var g, here := Run(vm, s.step, 9, prog, env), Low(vm.ctx.readAddr);
            && Stands(g, ControlMeans(s, here, env), at + 7) && g.ctx.tmpValue == here
            && g.ctx.reg0 == vm.ctx.reg0 && g.ctx.loop == vm.ctx.loop
  {
    hide Step, Run, IsOp, HasOps, Stands, Low, SavesBytes, PointerAt, MsghdrOps, UpTo4096;
    var here, k := Low(vm.ctx.readAddr), s.step;
    MsghdrHasOps(prog, at);
    LowSmall(vm.ctx.readAddr);
    ControlSteps(s, here, env);
    StructReads(vm, s, at, 56, prog, env);
    assert UpTo4096(56 % TWO32) == 56 by {
      UpToSmall(56);
    }
    var head := SavesBytes(Waits(s, 1), here, 56, env);
    var g := Run(vm, k, 2, prog, env);
    SetsTmp(g, head, at + 2, prog, env);
    StandsRuns(g, head, at + 2);
    RunOnce(g, k + 2, prog, env);
    ControlBufferReads(Step(g, k + 2, prog, env), Waits(head, 1), at + 3, prog, env);
    RunSplit(g, k + 2, 1, 6, prog, env);
    RunSplit(vm, k, 2, 7, prog, env);
  }

  lemma UpToSmall(n: nat)
    requires n < 4096
    ensures UpTo4096(n) == n
  {
  }

  lemma MsghdrReads(vm: Vm, s: Seen, at: nat, prog: Program, env: Env)
    requires Stands(vm, s, at) && vm.ctx.loop.count == 0 && vm.ctx.readAddr < TWO64
    requires HasOps(prog, at, KindOps(Msghdr))
    ensures Leaves(vm, s, KindMeans(s, Msghdr, vm.ctx.readAddr, vm.ctx.reg0, env), at + 22, prog, env)
  {
    hide Step, Run, HasOps, IsOp, Stands, Leaves, SavesIovecs, IovecLoop, UpTo32, MsghdrOps, ControlMeans, Low;
    MsghdrLength();
    HasRest(prog, at, MsghdrOps(), IovecLoop());
    MsghdrHasOps(prog, at);
    var here, k := Low(vm.ctx.readAddr), s.step;
    LowSmall(vm.ctx.readAddr);
    ControlSteps(s, here, env);
    HeaderReads(vm, s, at, prog, env);
    var g, t := Run(vm, k, 9, prog, env), ControlMeans(s, here, env);
    IovecsFound(g, t, at + 7, prog, env);
    var h := Run(g, k + 9, 5, prog, env);
    IovecLoopReads(h, Waits(t, 5), at + 10, prog, env);
    var end := KindMeans(s, Msghdr, vm.ctx.readAddr, vm.ctx.reg0, env);
    LeavesOn(g, t, Waits(t, 5), end, at + 22, prog, env);
    LeavesOn(vm, s, t, end, at + 22, prog, env);
  }

  lemma MsghdrLength()
    ensures |MsghdrOps()| == 10 && |IovecLoop()| == 12
  {
  }

  // ---------------------------------------------------------------------------
  // All types
  // ---------------------------------------------------------------------------

  lemma ReadsLeaves(vm: Vm, s: Seen, m: At, to: nat, prog: Program, env: Env)
    requires Reads(vm, s, m, to, prog, env) && vm.ctx.loop.count == 0
    ensures Leaves(vm, s, m, to, prog, env)
  {
    hide Run, Stands;
  }

  /** The types that do not loop. */
  lemma FlatKindReads(vm: Vm, s: Seen, at: nat, kind: Kind, prog: Program, env: Env)
    requires Stands(vm, s, at) && GoodKind(kind) && HasOps(prog, at, KindOps(kind)) && vm.ctx.readAddr < TWO64
    requires !kind.TextArray? && !kind.IovecArray? && !kind.Msghdr?
    ensures Reads(vm, s, KindMeans(s, kind, vm.ctx.readAddr, vm.ctx.reg0, env), at + |KindOps(kind)|, prog, env)
  {
    hide Step, Run, HasOps, IsOp, Stands, Low, SavesBytes, SavesText, SavesArray, SavesIovecs, IovecMeans;
    var ops := KindOps(kind);
    if ops != [] {
      OpsAt(prog, at, ops, 0);
    }
    if |ops| > 1 {
      OpsAt(prog, at, ops, 1);
    }
    match kind {
      case Number => RunNone(vm, s.step, prog, env);
      case Text => TextReads(vm, s, at, prog, env);
      case StdText => StdTextReads(vm, s, at, prog, env);
      case WideText => WideReads(vm, s, at, prog, env);
      case Il2cppText => Il2cppReads(vm, s, at, prog, env);
      case Struct(size, fused) =>
        if fused {
          FusedStructReads(vm, s, at, size, prog, env);
        } else {
          StructReads(vm, s, at, size, prog, env);
        }
      case Counted(reg) =>
        OpsAt(prog, at, ops, 2);
        CountedReads(vm, s, at, reg, prog, env);
      case Iovec => IovecReads(vm, s, at, prog, env);
    }
  }

  /** The ops of every type save what the type means, from any address. */
  lemma KindReads(vm: Vm, s: Seen, at: nat, kind: Kind, prog: Program, env: Env)
    requires Stands(vm, s, at) && GoodKind(kind) && HasOps(prog, at, KindOps(kind)) && vm.ctx.readAddr < TWO64
    requires vm.ctx.loop.count == 0
    ensures Leaves(vm, s, KindMeans(s, kind, vm.ctx.readAddr, vm.ctx.reg0, env), at + |KindOps(kind)|, prog, env)
  {
    hide Run, HasOps, Stands, Reads, Leaves, Low, SavesBytes, SavesText, SavesArray, SavesIovecs, IovecMeans;
    if kind.TextArray? {
      ArrayReads(vm, s, at, kind.wide, prog, env);
    } else if kind.IovecArray? {
      MsghdrLength();
      IovecArrayReads(vm, s, at, kind.reg, prog, env);
    } else if kind.Msghdr? {
      MsghdrLength();
      MsghdrReads(vm, s, at, prog, env);
    } else {
      var m := KindMeans(s, kind, vm.ctx.readAddr, vm.ctx.reg0, env);
      FlatKindReads(vm, s, at, kind, prog, env);
      ReadsLeaves(vm, s, m, at + |KindOps(kind)|, prog, env);
    }
  }
}
