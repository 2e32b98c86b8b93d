/** Loop regions of the argument interpreter (src/utils.h): a body between two FOR_BREAK
    ops runs as often as the break count says. */
module ArgLoop {
  import opened Common
  import opened ArgBuffer
  import opened ArgVm

  /** Ops that leave the loop's own bookkeeping alone. */
  predicate BodyCode(c: Code) {
    c !in {Skip, ResetCtx, ForBreak, SetBreakCount, SetBreakCountRegValue, SetBreakCountPointerValue}
  }

  predicate PointerString(c: Code) {
    c == SavePtrString || c == SavePtrString16
  }

  predicate BodyOp(op: Op) {
    BodyCode(op.code) && (op.post == Skip || BodyCode(op.post))
  }

  function OpAt(prog: Program, i: nat): Op
    requires Defined(prog, i)
  {
    prog.ops[prog.keys[i]]
  }

  predicate Defined(prog: Program, i: nat) {
    i < |prog.keys| && prog.keys[i] in prog.ops
  }

  predicate Edge(prog: Program, i: nat) {
    Defined(prog, i) && OpAt(prog, i).code == ForBreak && OpAt(prog, i).post == Skip
  }

  predicate Body(prog: Program, lo: nat, hi: nat) {
    forall i :: lo <= i < hi ==> Defined(prog, i) && BodyOp(OpAt(prog, i))
  }

  /** A loop region: an edge at `p`, the body, an edge at `q`. */
  predicate Region(prog: Program, p: nat, q: nat) {
    p < q && Edge(prog, p) && Body(prog, p + 1, q) && Edge(prog, q)
  }

  function Cost(op: Op): nat {
    if op.post == Skip then 1 else 2
  }

  /** Steps of one pass over the ops from `lo` to `hi`. */
  function PassSteps(prog: Program, lo: nat, hi: nat): nat
    requires Body(prog, lo, hi)
    decreases hi - lo
  {
    if lo >= hi then 0 else Cost(OpAt(prog, lo)) + PassSteps(prog, lo + 1, hi)
  }

  /** About to fetch the op at `i`. */
  predicate Ready(vm: Vm, i: nat) {
    vm.status == Running && vm.ctx.keyIndex == i && vm.ctx.post == Skip
  }

  /** The next step saves a pointer and fails to save the string behind it. */
  ghost predicate PointerStringFails(vm: Vm, k: nat, prog: Program, env: Env) {
    && vm.status == Running
    && var f := Fetch(vm, prog);
    && f.status == Running && PointerString(f.ctx.code)
    && var c := f.ctx;
    && var ptr := env.word(k, Untag(c.readAddr));
    && var first := SaveWord(f.records, c.saveIndex, ptr, k, env).records;
    && !SaveBehind(first, NextIndex(c.saveIndex), Untag(ptr), c.code == SavePtrString16, k, env).ok
  }

  /** One of the `n` steps from here is such a failure. */
  ghost predicate FailsWithin(vm: Vm, k: nat, n: nat, prog: Program, env: Env)
    decreases n
  {
    n > 0 && vm.status == Running
    && (PointerStringFails(vm, k, prog, env) || FailsWithin(Step(vm, k, prog, env), k + 1, n - 1, prog, env))
  }

  lemma {:induction false} RunSplit(vm: Vm, k: nat, a: nat, b: nat, prog: Program, env: Env)
    ensures Run(vm, k, a + b, prog, env) == Run(Run(vm, k, a, prog, env), k + a, b, prog, env)
    decreases a
  {
    hide Step;
    if a > 0 && vm.status == Running {
      RunSplit(Step(vm, k, prog, env), k + 1, a - 1, b, prog, env);
    }
  }

  lemma {:induction false} FailsSplit(vm: Vm, k: nat, a: nat, b: nat, prog: Program, env: Env)
    requires FailsWithin(vm, k, a, prog, env) || FailsWithin(Run(vm, k, a, prog, env), k + a, b, prog, env)
    ensures FailsWithin(vm, k, a + b, prog, env)
    decreases a
  {
    hide Step, PointerStringFails;
    if a > 0 && vm.status == Running && !PointerStringFails(vm, k, prog, env) {
      FailsSplit(Step(vm, k, prog, env), k + 1, a - 1, b, prog, env);
    }
  }

  // ---------------------------------------------------------------------------
  // One pass over the body
  // ---------------------------------------------------------------------------

  /** What running a body op does to the loop's bookkeeping. */
  predicate SameLoop(a: Ctx, b: Ctx) {
    b.loop == a.loop || b.loop == EndLoop(a.loop)
  }

  predicate SamePlace(a: Ctx, b: Ctx) {
    SameLoop(a, b) && b.keyIndex == a.keyIndex && b.post == a.post
  }

  lemma ComputeKeeps(c: Ctx, op: Op, k: nat, env: Env)
    requires BodyCode(c.code)
    ensures SamePlace(c, Compute(c, op, k, env)) && Compute(c, op, k, env).loop == c.loop
  {
    hide Add, Sub, Min, StdStringAddress, PointerAddress;
  }

  lemma SaveKeeps(vm: Vm, op: Op, k: nat, env: Env)
    ensures var g := Save(vm, op, k, env);
            && SamePlace(vm.ctx, g.ctx) && g.op == vm.op
            && (IsSave(vm.ctx.code) && !PointerString(vm.ctx.code) ==> g.ctx.loop == vm.ctx.loop)
  {
    hide SaveWord, SaveBlock, SaveText, SaveBehind, Untag, StructLength, NextIndex;
    var g := Save(vm, op, k, env);
    if PointerString(vm.ctx.code) || !IsSave(vm.ctx.code) {
    } else {
      match vm.ctx.code {
        case SaveAddr =>
        case SaveReg =>
        case SavePointer =>
        case SaveStruct =>
        case SaveString =>
        case SaveString16 =>
      }
    }
  }

  lemma OthersKeep(vm: Vm, op: Op, k: nat, prog: Program, env: Env)
    ensures var g := Judge(vm, op, k, prog, env);
            SamePlace(vm.ctx, g.ctx) && g.op == vm.op && g.ctx.loop == vm.ctx.loop
    ensures var g := ReadRegister(vm, op, env);
            SamePlace(vm.ctx, g.ctx) && g.op == vm.op && g.ctx.loop == vm.ctx.loop
  {
    hide Untag;
  }

  lemma ExecuteKeeps(vm: Vm, op: Op, k: nat, prog: Program, env: Env)
    requires BodyCode(vm.ctx.code)
    ensures var g := Execute(vm, op, k, prog, env);
            && SamePlace(vm.ctx, g.ctx) && g.op == vm.op
            && (!PointerString(vm.ctx.code) ==> g.ctx.loop == vm.ctx.loop)
  {
    hide Save, Judge, ReadRegister, Compute, SamePlace;
    SaveKeeps(vm, op, k, env);
    OthersKeep(vm, op, k, prog, env);
    if !IsSave(vm.ctx.code) && !IsFilter(vm.ctx.code) && vm.ctx.code != ReadReg {
      ComputeKeeps(vm.ctx, op, k, env);
    }
  }

  lemma SavedOrFailed(vm: Vm, k: nat, prog: Program, env: Env)
    requires vm.status == Running
    requires var f := Fetch(vm, prog); f.status == Running && f.op.Some? && PointerString(f.ctx.code)
    ensures var f := Fetch(vm, prog);
            Save(f, f.op.value, k, env).ctx.loop != f.ctx.loop ==> PointerStringFails(vm, k, prog, env)
  {
    hide SaveWord, SaveBlock, SaveText, SaveBehind, Untag, NextIndex, Fetch;
  }

  /** A step that runs a body op leaves the loop alone. */
  lemma StepKeeps(vm: Vm, k: nat, prog: Program, env: Env)
    requires vm.status == Running
    requires var f := Fetch(vm, prog); f.status == Running && f.op.Some? && BodyCode(f.ctx.code)
    ensures var f, g := Fetch(vm, prog), Step(vm, k, prog, env);
            && SamePlace(f.ctx, g.ctx) && g.op == f.op
            && (g.ctx.loop != f.ctx.loop ==> PointerStringFails(vm, k, prog, env))
  {
    hide Fetch, Save, Judge, ReadRegister, Compute, PointerStringFails;
    var f := Fetch(vm, prog);
    ExecuteKeeps(f, f.op.value, k, prog, env);
    if PointerString(f.ctx.code) {
      SavedOrFailed(vm, k, prog, env);
    }
  }

  /** The state after a stretch of the body that began in `vm`. */
  ghost predicate Passed(vm: Vm, k: nat, n: nat, to: nat, prog: Program, env: Env) {
    var g := Run(vm, k, n, prog, env);
    g.status == Running ==>
      && Ready(g, to)
      && SameLoop(vm.ctx, g.ctx)
      && (g.ctx.loop != vm.ctx.loop ==> FailsWithin(vm, k, n, prog, env))
  }

  lemma RunStopped(vm: Vm, k: nat, n: nat, prog: Program, env: Env)
    requires vm.status != Running
    ensures Run(vm, k, n, prog, env) == vm
  {
  }

  lemma RunOnce(vm: Vm, k: nat, prog: Program, env: Env)
    requires vm.status == Running
    ensures Run(vm, k, 1, prog, env) == Step(vm, k, prog, env)
    ensures PointerStringFails(vm, k, prog, env) ==> FailsWithin(vm, k, 1, prog, env)
  {
    hide Step, PointerStringFails;
    assert Run(Step(vm, k, prog, env), k + 1, 0, prog, env) == Step(vm, k, prog, env);
  }

  lemma Follow(vm: Vm, k: nat, a: nat, b: nat, to: nat, prog: Program, env: Env)
    requires var g := Run(vm, k, a, prog, env);
             g.status == Running ==>
               && SameLoop(vm.ctx, g.ctx)
               && (g.ctx.loop != vm.ctx.loop ==> FailsWithin(vm, k, a, prog, env))
               && Passed(g, k + a, b, to, prog, env)
    ensures Passed(vm, k, a + b, to, prog, env)
  {
    hide Step, FailsWithin;
    var g := Run(vm, k, a, prog, env);
    RunSplit(vm, k, a, b, prog, env);
    if g.status == Running {
      var h := Run(g, k + a, b, prog, env);
      hide Run;
      if FailsWithin(vm, k, a, prog, env) || FailsWithin(g, k + a, b, prog, env) {
        FailsSplit(vm, k, a, b, prog, env);
      }
    }
  }

  lemma OpPasses(vm: Vm, k: nat, i: nat, prog: Program, env: Env)
    requires Ready(vm, i) && Defined(prog, i) && BodyOp(OpAt(prog, i))
    ensures Passed(vm, k, Cost(OpAt(prog, i)), i + 1, prog, env)
  {
    hide Step, PointerStringFails, FailsWithin, Run;
    var g := Step(vm, k, prog, env);
    StepKeeps(vm, k, prog, env);
    RunOnce(vm, k, prog, env);
    if OpAt(prog, i).post != Skip {
      if g.status == Running {
        StepKeeps(g, k + 1, prog, env);
        RunOnce(g, k + 1, prog, env);
      }
      Follow(vm, k, 1, 1, i + 1, prog, env);
    }
  }

  /** A pass over the body, unless it ends the run, comes to the closing edge with the loop's
      bookkeeping as it was, or with the count at its limit after a failed pointer string. */
  lemma {:induction false} BodyPasses(vm: Vm, k: nat, lo: nat, hi: nat, prog: Program, env: Env)
    requires lo <= hi && Body(prog, lo, hi) && Ready(vm, lo)
    ensures Passed(vm, k, PassSteps(prog, lo, hi), hi, prog, env)
    decreases hi - lo
  {
    hide Step, FailsWithin;
    if lo == hi {
      assert Run(vm, k, 0, prog, env) == vm;
    } else {
      hide Run;
      var a := Cost(OpAt(prog, lo));
      OpPasses(vm, k, lo, prog, env);
      var g := Run(vm, k, a, prog, env);
      if g.status == Running {
        BodyPasses(g, k + a, lo + 1, hi, prog, env);
      }
      Follow(vm, k, a, PassSteps(prog, lo + 1, hi), hi, prog, env);
    }
  }

  // ---------------------------------------------------------------------------
  // The region
  // ---------------------------------------------------------------------------

  /** Steps of one pass and the edge that closes it. */
  function Lap(prog: Program, p: nat, q: nat): nat
    requires Region(prog, p, q)
  {
    PassSteps(prog, p + 1, q) + 1
  }

  /** Past the closing edge, with nothing of the loop left. */
  predicate Outside(vm: Vm, q: nat) {
    Ready(vm, q + 1) && vm.ctx.loop == Loop(0, 0, 0)
  }

  lemma EdgeStep(vm: Vm, k: nat, i: nat, prog: Program, env: Env)
    requires Ready(vm, i) && Edge(prog, i) && !vm.ctx.flags.matchBlack
    ensures var g := Step(vm, k, prog, env);
            g == Vm(LoopEdge(vm.ctx.(code := ForBreak, keyIndex := i + 1)), Some(OpAt(prog, i)), vm.records, Running)
  {
  }

  /** In a pass that began at the body's first op with count `r`. */
  predicate InRound(vm: Vm, p: nat, r: nat, limit: nat) {
    Ready(vm, p + 1) && !vm.ctx.flags.matchBlack && vm.ctx.loop == Loop(r, limit, p + 1)
  }

  /** `n` laps from here: each begins at the body's first op, and the last one ends outside,
      unless the run ends on the way. */
  ghost predicate Laps(vm: Vm, k: nat, n: nat, p: nat, q: nat, prog: Program, env: Env)
    requires Region(prog, p, q)
    decreases n
  {
    && n > 0
    && Ready(vm, p + 1)
    && var g := Run(vm, k, Lap(prog, p, q), prog, env);
    && (g.status == Running ==>
          if n == 1 then Outside(g, q) else Laps(g, k + Lap(prog, p, q), n - 1, p, q, prog, env))
  }

  /** In the last of these laps, if the run gets that far, a pointer string could not be saved. */
  ghost predicate LastFails(vm: Vm, k: nat, n: nat, p: nat, q: nat, prog: Program, env: Env)
    requires Region(prog, p, q)
    decreases n
  {
    var g := Run(vm, k, Lap(prog, p, q), prog, env);
    if n <= 1 then g.status == Running ==> FailsWithin(vm, k, PassSteps(prog, p + 1, q), prog, env)
    else g.status == Running ==> LastFails(g, k + Lap(prog, p, q), n - 1, p, q, prog, env)
  }

  lemma {:induction false} NoMatch(vm: Vm, k: nat, n: nat, prog: Program, env: Env)
    requires !vm.ctx.flags.matchBlack
    ensures Run(vm, k, n, prog, env).status == Running ==> !Run(vm, k, n, prog, env).ctx.flags.matchBlack
    decreases n
  {
    hide Step;
    if n > 0 && vm.status == Running {
      var g := Step(vm, k, prog, env);
      if g.status == Running {
        StepNoMatch(vm, k, prog, env);
        NoMatch(g, k + 1, n - 1, prog, env);
      }
    }
  }

  lemma StepNoMatch(vm: Vm, k: nat, prog: Program, env: Env)
    requires Step(vm, k, prog, env).status == Running && !vm.ctx.flags.matchBlack
    ensures !Step(vm, k, prog, env).ctx.flags.matchBlack
  {
    hide Save, Judge, ReadRegister, Compute;
  }

  lemma ClosingEdge(vm: Vm, k: nat, p: nat, q: nat, r: nat, limit: nat, prog: Program, env: Env)
    requires Ready(vm, q) && Edge(prog, q) && !vm.ctx.flags.matchBlack
    requires vm.ctx.loop == Loop(r, limit, p + 1) && 1 <= r <= limit
    ensures r < limit ==> InRound(Step(vm, k, prog, env), p, r + 1, limit)
    ensures r == limit ==> Outside(Step(vm, k, prog, env), q)
  {
    hide Step;
    EdgeStep(vm, k, q, prog, env);
  }

  lemma LapEnds(vm: Vm, k: nat, p: nat, q: nat, r: nat, limit: nat, prog: Program, env: Env)
    requires Region(prog, p, q) && InRound(vm, p, r, limit) && 1 <= r <= limit
    ensures var g := Run(vm, k, Lap(prog, p, q), prog, env);
            g.status == Running ==>
              || (r < limit && InRound(g, p, r + 1, limit))
              || (Outside(g, q) && (r < limit ==> FailsWithin(vm, k, PassSteps(prog, p + 1, q), prog, env)))
  {
    hide Step, FailsWithin, Body, PassSteps, Edge, Run;
    var n := PassSteps(prog, p + 1, q);
    BodyPasses(vm, k, p + 1, q, prog, env);
    NoMatch(vm, k, n, prog, env);
    RunSplit(vm, k, n, 1, prog, env);
    var h := Run(vm, k, n, prog, env);
    if h.status == Running {
      RunOnce(h, k + n, prog, env);
      hide InRound, Outside;
      ClosingEdge(h, k + n, p, q, h.ctx.loop.count, limit, prog, env);
    } else {
      RunStopped(h, k + n, 1, prog, env);
    }
  }

  /** From a pass with count `r`, the body runs until the count reaches the limit, or to the
      end of the pass in which a pointer string could not be saved. */
  lemma {:induction false} RoundsRun(vm: Vm, k: nat, p: nat, q: nat, r: nat, limit: nat, prog: Program, env: Env)
      returns (n: nat)
    requires Region(prog, p, q) && InRound(vm, p, r, limit) && 1 <= r <= limit
    ensures 1 <= n <= limit - r + 1
    ensures Laps(vm, k, n, p, q, prog, env)
    ensures n < limit - r + 1 ==> LastFails(vm, k, n, p, q, prog, env)
    decreases limit - r
  {
    hide Run, FailsWithin, Region, InRound, Outside;
    LapEnds(vm, k, p, q, r, limit, prog, env);
    assert Ready(vm, p + 1) by {
      InRoundReady(vm, p, r, limit);
    }
    var g := Run(vm, k, Lap(prog, p, q), prog, env);
    if g.status == Running && r < limit && InRound(g, p, r + 1, limit) {
      var m := RoundsRun(g, k + Lap(prog, p, q), p, q, r + 1, limit, prog, env);
      n := m + 1;
    } else {
      n := 1;
    }
  }

  lemma InRoundReady(vm: Vm, p: nat, r: nat, limit: nat)
    requires InRound(vm, p, r, limit)
    ensures Ready(vm, p + 1)
  {
  }

  /** A region entered with count zero and limit `n` runs its body `n` times, and once when
      `n` is zero; fewer only when a pointer string could not be saved in the last pass; and
      nothing of the loop is left behind. */
  lemma ForBreakRuns(vm: Vm, k: nat, p: nat, q: nat, prog: Program, env: Env) returns (n: nat)
    requires Region(prog, p, q) && Ready(vm, p) && !vm.ctx.flags.matchBlack && vm.ctx.loop.count == 0
    ensures var limit := if vm.ctx.loop.limit == 0 then 1 else vm.ctx.loop.limit;
            var first := Step(vm, k, prog, env);
            && 1 <= n <= limit
            && Laps(first, k + 1, n, p, q, prog, env)
            && (n < limit ==> LastFails(first, k + 1, n, p, q, prog, env))
  {
    hide Step, Run, FailsWithin, Body, LastFails, PassSteps;
    EdgeStep(vm, k, p, prog, env);
    var first := Step(vm, k, prog, env);
    var limit := vm.ctx.loop.limit;
    if limit > 0 {
      hide Laps, Edge;
      n := RoundsRun(first, k + 1, p, q, 1, limit, prog, env);
    } else {
      n := 1;
      UnloopedLap(first, k + 1, p, q, prog, env);
    }
  }

  /** With limit zero the body is passed once, and the second edge finds nothing to do. */
  lemma UnloopedLap(vm: Vm, k: nat, p: nat, q: nat, prog: Program, env: Env)
    requires Region(prog, p, q) && Ready(vm, p + 1) && !vm.ctx.flags.matchBlack && vm.ctx.loop == Loop(0, 0, 0)
    ensures var g := Run(vm, k, Lap(prog, p, q), prog, env);
            g.status == Running ==> Outside(g, q)
  {
    hide Step, FailsWithin, Body, PassSteps, Edge, Run;
    var n := PassSteps(prog, p + 1, q);
    BodyPasses(vm, k, p + 1, q, prog, env);
    NoMatch(vm, k, n, prog, env);
    RunSplit(vm, k, n, 1, prog, env);
    var h := Run(vm, k, n, prog, env);
    if h.status == Running {
      RunOnce(h, k + n, prog, env);
      EdgeStep(h, k + n, q, prog, env);
    } else {
      RunStopped(h, k + n, 1, prog, env);
    }
  }

  predicate NoPointerStrings(prog: Program) {
    forall key :: key in prog.ops ==> !PointerString(prog.ops[key].code) && !PointerString(prog.ops[key].post)
  }

  lemma FetchNoPointerString(vm: Vm, prog: Program)
    requires NoPointerStrings(prog) && !PointerString(vm.ctx.post)
    ensures var f := Fetch(vm, prog);
            !PointerString(f.ctx.post) && (f.status == Running && vm.status == Running ==> !PointerString(f.ctx.code))
  {
  }

  lemma ExecutePost(vm: Vm, op: Op, k: nat, prog: Program, env: Env)
    ensures Execute(vm, op, k, prog, env).ctx.post == vm.ctx.post
  {
    hide Save, Judge, ReadRegister, SameLoop;
    SaveKeeps(vm, op, k, env);
    OthersKeep(vm, op, k, prog, env);
    hide SetLimit, ResetContext, LoopEdge;
    ComputePost(vm.ctx, op, k, env);
  }

  lemma ComputePost(c: Ctx, op: Op, k: nat, env: Env)
    ensures Compute(c, op, k, env).post == c.post
  {
    hide Add, Sub, Min, StdStringAddress, PointerAddress;
  }

  /** A program without pointer strings never falls short. */
  lemma {:induction false} NoPointerStringNoFailure(vm: Vm, k: nat, n: nat, prog: Program, env: Env)
    requires NoPointerStrings(prog) && !PointerString(vm.ctx.post)
    ensures !FailsWithin(vm, k, n, prog, env)
    decreases n
  {
    hide Execute, Fetch, NoPointerStrings;
    if n > 0 && vm.status == Running {
      var f, g := Fetch(vm, prog), Step(vm, k, prog, env);
      FetchNoPointerString(vm, prog);
      if f.op.Some? {
        ExecutePost(f, f.op.value, k, prog, env);
      }
      assert g.ctx.post == f.ctx.post;
      assert !PointerStringFails(vm, k, prog, env);
      if f.status == Running {
        hide Step, PointerStringFails, PointerString;
        NoPointerStringNoFailure(g, k + 1, n - 1, prog, env);
      }
    }
  }

  /** The run ends within `n` laps. */
  ghost predicate StopsWithin(vm: Vm, k: nat, n: nat, p: nat, q: nat, prog: Program, env: Env)
    requires Region(prog, p, q)
    decreases n
  {
    n > 0 &&
    var g := Run(vm, k, Lap(prog, p, q), prog, env);
    g.status == Running ==> StopsWithin(g, k + Lap(prog, p, q), n - 1, p, q, prog, env)
  }

  lemma {:induction false} NoShortfall(vm: Vm, k: nat, n: nat, p: nat, q: nat, prog: Program, env: Env)
    requires Region(prog, p, q) && NoPointerStrings(prog)
    requires Laps(vm, k, n, p, q, prog, env)
    requires LastFails(vm, k, n, p, q, prog, env)
    ensures StopsWithin(vm, k, n, p, q, prog, env)
    decreases n
  {
    hide Run, FailsWithin, NoPointerStrings, Outside;
    NoPointerStringNoFailure(vm, k, PassSteps(prog, p + 1, q), prog, env);
    hide Region;
    var g := Run(vm, k, Lap(prog, p, q), prog, env);
    if n > 1 && g.status == Running {
      NoShortfall(g, k + Lap(prog, p, q), n - 1, p, q, prog, env);
    }
  }

  /** Without pointer strings the body runs exactly as often as the limit says, or the run
      itself ends inside the region. */
  lemma ExactRounds(vm: Vm, k: nat, p: nat, q: nat, prog: Program, env: Env) returns (n: nat)
    requires Region(prog, p, q) && Ready(vm, p) && !vm.ctx.flags.matchBlack && vm.ctx.loop.count == 0
    requires NoPointerStrings(prog)
    ensures var first := Step(vm, k, prog, env);
            && Laps(first, k + 1, n, p, q, prog, env)
            && (n == (if vm.ctx.loop.limit == 0 then 1 else vm.ctx.loop.limit)
                || StopsWithin(first, k + 1, n, p, q, prog, env))
  {
    hide Step, Run, Laps, LastFails, Region, NoPointerStrings, StopsWithin;
    n := ForBreakRuns(vm, k, p, q, prog, env);
    var limit := if vm.ctx.loop.limit == 0 then 1 else vm.ctx.loop.limit;
    if n < limit {
      NoShortfall(Step(vm, k, prog, env), k + 1, n, p, q, prog, env);
    }
  }

  // ---------------------------------------------------------------------------
  // Setting the count and running the region
  // ---------------------------------------------------------------------------

  /** The ops that set a loop's limit: from a constant, or from a register or a pointer read by
      the first half of the same op. */
  predicate SetsLimit(op: Op) {
    || (op.code == SetBreakCount && op.post == Skip)
    || (op.code == ReadReg && op.post == SetBreakCountRegValue)
    || (op.code == ReadPointer && op.post == SetBreakCountPointerValue)
  }

  /** The count such an op asks for. */
  function CountAsked(vm: Vm, op: Op, k: nat, env: Env): nat {
    match op.code
    case ReadReg =>
      var r := RegisterNumber(vm.ctx, op);
      if r == 0 then vm.ctx.reg0 else env.register(r)
    case ReadPointer => env.word(k, PointerAddress(vm.ctx, op))
    case _ => op.value
  }

  /** In front of a loop region, outside any other. */
  predicate Before(vm: Vm, p: nat) {
    Ready(vm, p) && !vm.ctx.flags.matchBlack && vm.ctx.loop.count == 0
  }

  lemma LimitFirstHalf(vm: Vm, k: nat, p: nat, prog: Program, env: Env)
    requires Before(vm, p) && Defined(prog, p) && SetsLimit(OpAt(prog, p))
    requires OpAt(prog, p).code == ReadReg ==> RegisterNumber(vm.ctx, OpAt(prog, p)) < REG_MAX
    ensures var op, g := OpAt(prog, p), Step(vm, k, prog, env);
            && g.status == Running && g.op == Some(op) && !g.ctx.flags.matchBlack
            && g.ctx.keyIndex == p + 1 && g.ctx.post == op.post && g.ctx.loop.count == 0
            && (op.code == SetBreakCount ==> g.ctx.loop.limit == Min(MAX_LOOP_COUNT, op.value))
            && (op.code == ReadReg ==> g.ctx.regValue == CountAsked(vm, op, k, env))
            && (op.code == ReadPointer ==> g.ctx.pointerValue == CountAsked(vm, op, k, env))
  {
    hide Save, Judge, Min, Add, Sub;
  }

  lemma LimitSecondHalf(vm: Vm, k: nat, prog: Program, env: Env)
    requires vm.status == Running && vm.op.Some? && !vm.ctx.flags.matchBlack
    requires vm.ctx.post == SetBreakCountRegValue || vm.ctx.post == SetBreakCountPointerValue
    ensures var c := vm.ctx;
            var value := if c.post == SetBreakCountRegValue then c.regValue else c.pointerValue;
            Step(vm, k, prog, env) ==
            vm.(ctx := c.(code := c.post, post := Skip, loop := c.loop.(limit := Min(MAX_LOOP_COUNT, value))))
  {
    hide Save, Judge, ReadRegister, Min, Add, Sub;
  }

  lemma LimitSet(vm: Vm, k: nat, p: nat, prog: Program, env: Env)
    requires Before(vm, p) && Defined(prog, p) && SetsLimit(OpAt(prog, p))
    requires OpAt(prog, p).code == ReadReg ==> RegisterNumber(vm.ctx, OpAt(prog, p)) < REG_MAX
    ensures var op := OpAt(prog, p);
            var g := Run(vm, k, Cost(op), prog, env);
            Before(g, p + 1) && g.ctx.loop.limit == Min(MAX_LOOP_COUNT, CountAsked(vm, op, k, env))
  {
    hide Step, Run, Min, PointerAddress, RegisterNumber;
    var g := Step(vm, k, prog, env);
    LimitFirstHalf(vm, k, p, prog, env);
    RunOnce(vm, k, prog, env);
    if OpAt(prog, p).post != Skip {
      LimitSecondHalf(g, k + 1, prog, env);
      RunOnce(g, k + 1, prog, env);
      RunSplit(vm, k, 1, 1, prog, env);
    }
  }

  /** A count op and the region after it: the body runs as often as was asked for, but at least
      once and at most 32 times; fewer only when a pointer string could not be saved in the
      last pass. */
  lemma CountedRegion(vm: Vm, k: nat, p: nat, q: nat, prog: Program, env: Env) returns (n: nat)
    requires Before(vm, p) && Defined(prog, p) && SetsLimit(OpAt(prog, p)) && Region(prog, p + 1, q)
    requires OpAt(prog, p).code == ReadReg ==> RegisterNumber(vm.ctx, OpAt(prog, p)) < REG_MAX
    ensures var op := OpAt(prog, p);
            var asked := CountAsked(vm, op, k, env);
            var rounds := if asked == 0 then 1 else if asked < 32 then asked else 32;
            var first := Run(vm, k, Cost(op) + 1, prog, env);
            && 1 <= n <= rounds
            && Laps(first, k + Cost(op) + 1, n, p + 1, q, prog, env)
            && (n < rounds ==> LastFails(first, k + Cost(op) + 1, n, p + 1, q, prog, env))
  {
    hide Step, Run, Laps, LastFails, Region, CountAsked, SetsLimit;
    var c := Cost(OpAt(prog, p));
    LimitSet(vm, k, p, prog, env);
    var g := Run(vm, k, c, prog, env);
    RunOnce(g, k + c, prog, env);
    RunSplit(vm, k, c, 1, prog, env);
    n := ForBreakRuns(g, k + c, p + 1, q, prog, env);
  }
}
