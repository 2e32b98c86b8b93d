/** What the arguments of a probe point come to: the ops that user/config/config_point_arg.go lists
    for them, run by the interpreter of src/utils.h, save what the arguments ask for and judge the
    event by its filters. */
module ArgPoints {
  import opened Common
  import opened ArgBuffer
  import opened ArgVm
  import opened ArgLoop
  import opened ReadExpr
  import opened ArgEvents
  import opened ArgKinds
  import opened ArgArrays

  // ---------------------------------------------------------------------------
  // Arguments and their ops
  // ---------------------------------------------------------------------------

  datatype Judging = OnValue | OnText | OnBuffer

  datatype Arg = Arg(reg: U64, kind: Kind, judging: Judging, filters: seq<U64>)

  function FilterCode(judging: Judging): Code {
    match judging
    case OnValue => FilterValue
    case OnText => FilterString
    case OnBuffer => FilterBuffer
  }

  function FilterOps(judging: Judging, ids: seq<U64>): seq<Op> {
    if ids == [] then [] else [Plain(FilterCode(judging), ids[0])] + FilterOps(judging, ids[1..])
  }

  /** The register is saved and moved; filters on its value come before what is read through it,
      filters on a text or a buffer after. */
  function ArgOps(a: Arg): seq<Op> {
    [ReadSaveReg(a.reg), MOVE_OP]
    + (if a.judging == OnValue then FilterOps(a.judging, a.filters) + KindOps(a.kind)
       else KindOps(a.kind) + FilterOps(a.judging, a.filters))
  }

  function PointOps(args: seq<Arg>): seq<Op> {
    if args == [] then [] else ArgOps(args[0]) + PointOps(args[1..])
  }

  // ---------------------------------------------------------------------------
  // What they mean
  // ---------------------------------------------------------------------------

  /** A value passes a filter. */
  predicate Passes(f: Filter, value: nat) {
    match f.kind
    case Equal => value == f.num
    case Greater => value < f.num
    case Less => value > f.num
    case _ => true
  }

  /** What one filter finds. */
  function FilterMeans(s: Seen, judging: Judging, id: nat, f: Filter, value: nat, addr: nat, env: Env): Seen {
    var t := Waits(s, 1);
    match judging
    case OnValue => t.(rejected := !Passes(f, value))
    case OnText =>
      var same := env.equal(s.step, id, addr);
      if f.kind == Whitelist then t.(tried := true, white := s.white || same)
      else t.(rejected := f.kind == Blacklist && same)
    case OnBuffer =>
      var same := f.modulus != 0 && env.word(s.step, Low(addr)) % f.modulus == f.num;
      if f.kind == Whitelist then t.(tried := true, white := s.white || same) else t
  }

  predicate Known(filters: map<nat, Filter>, ids: seq<U64>) {
    forall i :: 0 <= i < |ids| ==> ids[i] in filters
  }

  /** A rejected event is judged no further. */
  function FiltersMean(
      s: Seen, judging: Judging, ids: seq<U64>, value: nat, addr: nat, filters: map<nat, Filter>, env: Env): Seen
    requires Known(filters, ids)
    decreases |ids|
  {
    if ids == [] || s.rejected then s
    else
      FiltersMean(FilterMeans(s, judging, ids[0], filters[ids[0]], value, addr, env), judging, ids[1..],
                  value, addr, filters, env)
  }

  /** After the register of an argument has been saved and moved. */
  function ValueMeans(s: Seen, value: nat, env: Env): Seen {
    Waits(Saves(Waits(s, 1), WordWants(s.index, value, s.step + 1, env)), 1)
  }

  function ArgMeans(s: Seen, a: Arg, reg0: U64, filters: map<nat, Filter>, env: Env): Seen
    requires Known(filters, a.filters)
  {
    var value := Register(a.reg, reg0, env);
    var t := ValueMeans(s, value, env);
    if a.judging == OnValue then
      var u := FiltersMean(t, a.judging, a.filters, value, value, filters, env);
      if u.rejected then u else KindMeans(u, a.kind, value, reg0, env).seen
    else
      var At(u, addr) := KindMeans(t, a.kind, value, reg0, env);
      FiltersMean(u, a.judging, a.filters, value, addr, filters, env)
  }

  predicate AllKnown(filters: map<nat, Filter>, args: seq<Arg>) {
    forall i :: 0 <= i < |args| ==> args[i].reg < REG_MAX && GoodKind(args[i].kind) && Known(filters, args[i].filters)
  }

  function PointMeans(s: Seen, args: seq<Arg>, reg0: U64, filters: map<nat, Filter>, env: Env): Seen
    requires AllKnown(filters, args)
    decreases |args|
  {
    if args == [] || s.rejected then s
    else PointMeans(ArgMeans(s, args[0], reg0, filters, env), args[1..], reg0, filters, env)
  }

  // ---------------------------------------------------------------------------
  // Filters
  // ---------------------------------------------------------------------------

  /** The interpreter has come to what `s` says: rejected, and stopped, or about to fetch the op
      at `at`. */
  predicate Finds(vm: Vm, s: Seen, at: nat) {
    && vm.records == s.records && vm.ctx.saveIndex == s.index
    && vm.ctx.flags == Flags(s.tried, false, s.white, s.rejected)
    && if s.rejected then vm.status == Broke else Going(vm, at) && vm.ctx.loop.count == 0
  }

  ghost predicate Comes(vm: Vm, s: Seen, t: Seen, to: nat, prog: Program, env: Env) {
    && s.step <= t.step
    && var g := Run(vm, s.step, t.step - s.step, prog, env);
    && Finds(g, t, to) && g.ctx.reg0 == vm.ctx.reg0
  }

  lemma FindsStands(vm: Vm, s: Seen, at: nat)
    ensures Finds(vm, s, at) && !s.rejected <==> Stands(vm, s, at) && vm.ctx.loop.count == 0
  {
  }

  /** First to `t`, then to `u`; a rejected event goes no further. */
  lemma ComesOn(vm: Vm, s: Seen, t: Seen, at: nat, u: Seen, to: nat, prog: Program, env: Env)
    requires Comes(vm, s, t, at, prog, env)
    requires if t.rejected then u == t
             else Comes(Run(vm, s.step, t.step - s.step, prog, env), t, u, to, prog, env)
    ensures Comes(vm, s, u, to, prog, env)
  {
    hide Run;
    RunSplit(vm, s.step, t.step - s.step, u.step - t.step, prog, env);
    if t.rejected {
      hide Going;
    }
  }

  /** A filter op judges by what the filter means. */
  lemma JudgeMeans(vm: Vm, s: Seen, judging: Judging, op: Op, prog: Program, env: Env)
    requires vm.ctx.code == FilterCode(judging) && op.value in prog.filters && !s.rejected
    requires vm.ctx.flags == Flags(s.tried, false, s.white, false)
    ensures var g, c := Judge(vm, op, s.step, prog, env), vm.ctx;
            var t := FilterMeans(s, judging, op.value, prog.filters[op.value], c.regValue, c.readAddr, env);
            g == vm.(ctx := c.(flags := Flags(t.tried, false, t.white, t.rejected)))
  {
  }

  lemma FilterKeeps(s: Seen, judging: Judging, id: nat, f: Filter, value: nat, addr: nat, env: Env)
    ensures var t := FilterMeans(s, judging, id, f, value, addr, env);
            t.records == s.records && t.index == s.index && t.step == s.step + 1
  {
  }

  lemma FilterRuns(vm: Vm, s: Seen, at: nat, judging: Judging, id: U64, prog: Program, env: Env)
    requires Stands(vm, s, at) && vm.ctx.loop.count == 0
    requires IsOp(prog, at, Plain(FilterCode(judging), id)) && id in prog.filters
    ensures var g, c := Step(vm, s.step, prog, env), vm.ctx;
            && Finds(g, FilterMeans(s, judging, id, prog.filters[id], c.regValue, c.readAddr, env), at + 1)
            && g.ctx.regValue == c.regValue && g.ctx.readAddr == c.readAddr && g.ctx.reg0 == c.reg0
  {
    hide Save, Compute, ReadRegister, Judge, FilterMeans;
    var op := Plain(FilterCode(judging), id);
    JudgeMeans(Loaded(vm, op), s, judging, op, prog, env);
    FilterKeeps(s, judging, id, prog.filters[id], vm.ctx.regValue, vm.ctx.readAddr, env);
  }

  lemma {:induction false} FiltersRun(
      vm: Vm, s: Seen, at: nat, judging: Judging, ids: seq<U64>, prog: Program, env: Env)
    requires Stands(vm, s, at) && vm.ctx.loop.count == 0
    requires HasOps(prog, at, FilterOps(judging, ids)) && Known(prog.filters, ids)
    ensures var t := FiltersMean(s, judging, ids, vm.ctx.regValue, vm.ctx.readAddr, prog.filters, env);
            && Comes(vm, s, t, at + |ids|, prog, env)
            && Run(vm, s.step, t.step - s.step, prog, env).ctx.readAddr == vm.ctx.readAddr
    decreases |ids|
  {
    hide Step, Run, IsOp, FilterMeans;
    var k := s.step;
    RunNone(vm, k, prog, env);
    if ids != [] {
      var f := prog.filters[ids[0]];
      var t := FilterMeans(s, judging, ids[0], f, vm.ctx.regValue, vm.ctx.readAddr, env);
      FilterKeeps(s, judging, ids[0], f, vm.ctx.regValue, vm.ctx.readAddr, env);
      assert FilterOps(judging, ids)[1..] == FilterOps(judging, ids[1..]);
      FilterRuns(vm, s, at, judging, ids[0], prog, env);
      RunOnce(vm, k, prog, env);
      var g := Step(vm, k, prog, env);
      if !t.rejected {
        FindsStands(g, t, at + 1);
        FiltersRun(g, t, at + 1, judging, ids[1..], prog, env);
        var u := FiltersMean(t, judging, ids[1..], vm.ctx.regValue, vm.ctx.readAddr, prog.filters, env);
        hide Finds, FiltersMean;
        RunSplit(vm, k, 1, u.step - t.step, prog, env);
      }
    }
  }

  // ---------------------------------------------------------------------------
  // Whole arguments and whole points
  // ---------------------------------------------------------------------------

  lemma ValueRuns(vm: Vm, s: Seen, at: nat, reg: U64, prog: Program, env: Env)
    requires Stands(vm, s, at) && vm.ctx.loop.count == 0 && reg < REG_MAX
    requires IsOp(prog, at, ReadSaveReg(reg)) && IsOp(prog, at + 1, MOVE_OP)
    ensures var g, value := Run(vm, s.step, 3, prog, env), Register(reg, vm.ctx.reg0, env);
            && Stands(g, ValueMeans(s, value, env), at + 2) && g.ctx.loop.count == 0 && g.ctx.reg0 == vm.ctx.reg0
            && g.ctx.readAddr == value == g.ctx.regValue
  {
    hide Run, IsOp, LittleEndian, EncodeAll;
    ArgumentRuns(vm, s.step, at, reg, prog, env);
    var value := Register(reg, vm.ctx.reg0, env);
    var wants := WordWants(s.index, value, s.step + 1, env);
    assert Kept(s.records, wants[1..]) == s.records;
  }

  lemma ArgRuns(vm: Vm, s: Seen, at: nat, a: Arg, prog: Program, env: Env)
    requires Stands(vm, s, at) && vm.ctx.loop.count == 0 && HasOps(prog, at, ArgOps(a))
    requires a.reg < REG_MAX && GoodKind(a.kind) && Known(prog.filters, a.filters)
    ensures Comes(vm, s, ArgMeans(s, a, vm.ctx.reg0, prog.filters, env), at + |ArgOps(a)|, prog, env)
  {
    hide Run, Step, HasOps, IsOp, Stands, KindOps, KindMeans, FilterMeans, FiltersMean, Register;
    var value, ids := Register(a.reg, vm.ctx.reg0, env), a.filters;
    var filterOps, kindOps := FilterOps(a.judging, ids), KindOps(a.kind);
    FilterCount(a.judging, ids);
    ArgHasOps(prog, at, a);
    ValueRuns(vm, s, at, a.reg, prog, env);
    var g, t := Run(vm, s.step, 3, prog, env), ValueMeans(s, value, env);
    FindsStands(g, t, at + 2);
    if a.judging == OnValue {
      FiltersRun(g, t, at + 2, a.judging, ids, prog, env);
      var u := FiltersMean(t, a.judging, ids, value, value, prog.filters, env);
      if !u.rejected {
        var h := Run(g, t.step, u.step - t.step, prog, env);
        FindsStands(h, u, at + 2 + |ids|);
        KindReads(h, u, at + 2 + |ids|, a.kind, prog, env);
        var end := KindMeans(u, a.kind, value, vm.ctx.reg0, env);
        LeavesComes(h, u, end, at + |ArgOps(a)|, prog, env);
        ComesOn(g, t, u, at + 2 + |ids|, end.seen, at + |ArgOps(a)|, prog, env);
      }
    } else {
      KindReads(g, t, at + 2, a.kind, prog, env);
      var m, to := KindMeans(t, a.kind, value, vm.ctx.reg0, env), at + 2 + |kindOps|;
      LeavesComes(g, t, m, to, prog, env);
      var h := Run(g, t.step, m.seen.step - t.step, prog, env);
      FiltersRun(h, m.seen, to, a.judging, ids, prog, env);
      var u := FiltersMean(m.seen, a.judging, ids, value, m.addr, prog.filters, env);
      ValueUnused(m.seen, a.judging, ids, value, h.ctx.regValue, m.addr, prog.filters, env);
      ComesOn(g, t, m.seen, to, u, at + |ArgOps(a)|, prog, env);
    }
    ComesOn(vm, s, t, at + 2, ArgMeans(s, a, vm.ctx.reg0, prog.filters, env), at + |ArgOps(a)|, prog, env);
  }

  lemma LeavesComes(vm: Vm, s: Seen, m: At, to: nat, prog: Program, env: Env)
    requires Leaves(vm, s, m, to, prog, env)
    ensures Comes(vm, s, m.seen, to, prog, env) && !m.seen.rejected
  {
    hide Run;
  }

  lemma {:induction false} FilterCount(judging: Judging, ids: seq<U64>)
    ensures |FilterOps(judging, ids)| == |ids|
  {
    if ids != [] {
      FilterCount(judging, ids[1..]);
    }
  }

  /** Only filters on the value look at the register's value. */
  lemma {:induction false} ValueUnused(
      s: Seen, judging: Judging, ids: seq<U64>, a: nat, b: nat, addr: nat, filters: map<nat, Filter>, env: Env)
    requires Known(filters, ids) && judging != OnValue
    ensures FiltersMean(s, judging, ids, a, addr, filters, env) == FiltersMean(s, judging, ids, b, addr, filters, env)
    decreases |ids|
  {
    if ids != [] {
      var t := FilterMeans(s, judging, ids[0], filters[ids[0]], a, addr, env);
      assert t == FilterMeans(s, judging, ids[0], filters[ids[0]], b, addr, env);
      hide FilterMeans;
      ValueUnused(t, judging, ids[1..], a, b, addr, filters, env);
    }
  }

  lemma ArgHasOps(prog: Program, at: nat, a: Arg)
    requires HasOps(prog, at, ArgOps(a))
    ensures var filterOps, kindOps := FilterOps(a.judging, a.filters), KindOps(a.kind);
            && IsOp(prog, at, ReadSaveReg(a.reg)) && IsOp(prog, at + 1, MOVE_OP)
            && (a.judging == OnValue ==>
                  HasOps(prog, at + 2, filterOps) && HasOps(prog, at + 2 + |filterOps|, kindOps))
            && (a.judging != OnValue ==>
                  HasOps(prog, at + 2, kindOps) && HasOps(prog, at + 2 + |kindOps|, filterOps))
  {
    hide IsOp, HasOps, KindOps, FilterOps;
    var filterOps, kindOps := FilterOps(a.judging, a.filters), KindOps(a.kind);
    var front := [ReadSaveReg(a.reg), MOVE_OP];
    OpsAt(prog, at, ArgOps(a), 0);
    OpsAt(prog, at, ArgOps(a), 1);
    if a.judging == OnValue {
      HasRest(prog, at, front, filterOps + kindOps);
      HasRest(prog, at + 2, filterOps, kindOps);
    } else {
      HasRest(prog, at, front, kindOps + filterOps);
      HasRest(prog, at + 2, kindOps, filterOps);
    }
  }

  /** The ops of a point do what its arguments mean: the records, their numbers, the filters'
      findings and the number of steps. */
  lemma {:induction false} PointRuns(vm: Vm, s: Seen, at: nat, args: seq<Arg>, prog: Program, env: Env)
    requires Finds(vm, s, at) && !s.rejected && HasOps(prog, at, PointOps(args)) && AllKnown(prog.filters, args)
    ensures Comes(vm, s, PointMeans(s, args, vm.ctx.reg0, prog.filters, env), at + |PointOps(args)|, prog, env)
    decreases |args|
  {
    hide Run, Step, HasOps, ArgOps, ArgMeans, Finds;
    if args == [] {
      RunNone(vm, s.step, prog, env);
    } else {
      var ops, rest := ArgOps(args[0]), PointOps(args[1..]);
      HasRest(prog, at, ops, rest);
      FindsStands(vm, s, at);
      ArgRuns(vm, s, at, args[0], prog, env);
      var t := ArgMeans(s, args[0], vm.ctx.reg0, prog.filters, env);
      var u := PointMeans(t, args[1..], vm.ctx.reg0, prog.filters, env);
      if !t.rejected {
        PointRuns(Run(vm, s.step, t.step - s.step, prog, env), t, at + |ops|, args[1..], prog, env);
      }
      assert |PointOps(args)| == |ops| + |rest|;
      ComesOn(vm, s, t, at + |ops|, u, at + |ops| + |rest|, prog, env);
    }
  }

  /** Before the first argument of an event. */
  function Start(first: Byte, records: seq<Record>): Seen {
    Seen(records, first, false, false, false, 0)
  }

  /** After the last argument the interpreter comes to a stop. */
  lemma PointEnds(vm: Vm, s: Seen, n: nat, args: seq<Arg>, prog: Program, env: Env)
    requires Finds(vm, s, 0) && !s.rejected && s.step == 0 && AllKnown(prog.filters, args)
    requires HasOps(prog, 0, PointOps(args) + [Plain(Skip, 0)])
    requires PointMeans(s, args, vm.ctx.reg0, prog.filters, env).step < n
    ensures var g, t := Run(vm, 0, n, prog, env), PointMeans(s, args, vm.ctx.reg0, prog.filters, env);
            g.status == Broke && g.records == t.records && g.ctx.flags == Flags(t.tried, false, t.white, t.rejected)
  {
    hide Run, Step, HasOps, PointMeans, PointOps, IsOp;
    var ops := PointOps(args);
    HasRest(prog, 0, ops, [Plain(Skip, 0)]);
    OpsAt(prog, |ops|, [Plain(Skip, 0)], 0);
    PointRuns(vm, s, 0, args, prog, env);
    var t := PointMeans(s, args, vm.ctx.reg0, prog.filters, env);
    var g := Run(vm, 0, t.step, prog, env);
    RunSplit(vm, 0, t.step, n - t.step, prog, env);
    if t.rejected {
      RunStopped(g, t.step, n - t.step, prog, env);
    } else {
      SkipEnds(g, t.step, |ops|, prog, env);
      RunOnce(g, t.step, prog, env);
      RunSplit(g, t.step, 1, n - t.step - 1, prog, env);
      RunStopped(Step(g, t.step, prog, env), t.step + 1, n - t.step - 1, prog, env);
    }
  }

  /** A whole event, entered with nothing pending and with a budget that suffices: it saves what
      its arguments mean, and is dropped exactly when a filter rejects it or whitelists were
      tried and none matched. */
  lemma EventMeans(
      c: Ctx, first: Byte, reg0: U64, records: seq<Record>, args: seq<Arg>, prog: Program, env: Env)
    requires c.post == Skip && AllKnown(prog.filters, args) && HasOps(prog, 0, PointOps(args) + [Plain(Skip, 0)])
    requires PointMeans(Start(first, records), args, reg0, prog.filters, env).step < |prog.keys|
    ensures var t := PointMeans(Start(first, records), args, reg0, prog.filters, env);
            && Run(Entered(c, first, reg0, records, prog), 0, |prog.keys|, prog, env).records == t.records
            && (EventEnd(c, first, reg0, records, prog, env).flags.skip <==> t.rejected || (t.tried && !t.white))
  {
    hide Run, HasOps, PointMeans, PointOps, AllKnown;
    PointEnds(Entered(c, first, reg0, records, prog), Start(first, records), |prog.keys|, args, prog, env);
  }

  lemma SkipEnds(vm: Vm, k: nat, at: nat, prog: Program, env: Env)
    requires Going(vm, at) && IsOp(prog, at, Plain(Skip, 0))
    ensures var g := Step(vm, k, prog, env);
            g.status == Broke && g.records == vm.records && g.ctx.flags == vm.ctx.flags
  {
    hide Execute;
  }

  // ---------------------------------------------------------------------------
  // When an event is dropped
  // ---------------------------------------------------------------------------

  /** Some filter on the value of an argument is not passed. */
  predicate SomeFails(a: Arg, value: nat, filters: map<nat, Filter>)
    requires Known(filters, a.filters)
  {
    exists i :: 0 <= i < |a.filters| && !Passes(filters[a.filters[i]], value)
  }

  lemma {:induction false} ValuesReject(
      s: Seen, ids: seq<U64>, value: nat, addr: nat, filters: map<nat, Filter>, env: Env)
    requires Known(filters, ids) && !s.rejected
    ensures var t := FiltersMean(s, OnValue, ids, value, addr, filters, env);
            && (t.rejected <==> exists i :: 0 <= i < |ids| && !Passes(filters[ids[i]], value))
            && t.tried == s.tried && t.white == s.white
    decreases |ids|
  {
    hide Passes;
    if ids != [] {
      var t := FilterMeans(s, OnValue, ids[0], filters[ids[0]], value, addr, env);
      if !t.rejected {
        ValuesReject(t, ids[1..], value, addr, filters, env);
        assert forall i :: 0 < i < |ids| ==> ids[i] == ids[1..][i - 1];
      }
    }
  }

  /** Reading judges nothing. */
  lemma KindKeeps(s: Seen, kind: Kind, addr: U64, reg0: U64, env: Env)
    ensures var t := KindMeans(s, kind, addr, reg0, env).seen;
            t.rejected == s.rejected && t.tried == s.tried && t.white == s.white
  {
    hide Kept, BytesWant, TextWant, EmptyWant, WordWants, StdAddress, Low, SavesArray, SavesIovecs;
    var here, k := Low(addr), s.step;
    if kind.TextArray? {
      ArrayKeeps(Waits(s, 2), addr, 32, kind.wide, env);
    } else if kind.IovecArray? {
      var count := Register(kind.reg, reg0, env);
      var t := Saves(Waits(s, 2), WordWants(s.index, count, k + 2, env));
      IovecsKeep(Waits(t, 1), addr, UpTo32(count), env);
    } else if kind.Msghdr? {
      var count := UpTo32(env.word(k + 10, here + 24));
      IovecsKeep(Waits(ControlMeans(s, here, env), 6), env.word(k + 12, here + 16), count, env);
    }
  }

  lemma {:induction false} IovecsKeep(s: Seen, addr: nat, n: nat, env: Env)
    ensures var t := SavesIovecs(s, addr, n, env).seen;
            t.rejected == s.rejected && t.tried == s.tried && t.white == s.white
    decreases n
  {
    hide Kept, BytesWant, EmptyWant, Low;
    if n > 1 {
      IovecsKeep(Waits(IovecMeans(Waits(s, 1), addr, env).seen, 3), (addr + 16) % TWO64, n - 1, env);
    }
  }

  lemma {:induction false} ArrayKeeps(s: Seen, addr: nat, n: nat, wide: bool, env: Env)
    ensures var t := SavesArray(s, addr, n, wide, env).seen;
            t.rejected == s.rejected && t.tried == s.tried && t.white == s.white
    decreases n
  {
    hide Kept, BehindWant, EmptyWant, WordWants, BehindSaved;
    if n > 1 && BehindSaved(s, addr, wide, env) {
      ArrayKeeps(Waits(SavesBehind(s, addr, wide, env), 2), (addr + 8) % TWO64, n - 1, wide, env);
    }
  }

  /** With filters on values only, an event is rejected exactly when the value of some argument
      fails one of its filters. */
  lemma {:induction false} DroppedByValue(
      s: Seen, args: seq<Arg>, reg0: U64, filters: map<nat, Filter>, env: Env)
    requires AllKnown(filters, args) && !s.rejected
    requires forall i :: 0 <= i < |args| ==> args[i].judging == OnValue
    ensures var t := PointMeans(s, args, reg0, filters, env);
            && (t.rejected <==>
                  exists i :: 0 <= i < |args| && SomeFails(args[i], Register(args[i].reg, reg0, env), filters))
            && t.tried == s.tried && t.white == s.white
    decreases |args|
  {
    hide KindMeans, FiltersMean, ValueMeans, Register;
    if args != [] {
      var a := args[0];
      var value := Register(a.reg, reg0, env);
      var t := ValueMeans(s, value, env);
      ValueKeeps(s, value, env);
      ValuesReject(t, a.filters, value, value, filters, env);
      var u := FiltersMean(t, OnValue, a.filters, value, value, filters, env);
      KindKeeps(u, a.kind, value, reg0, env);
      assert SomeFails(a, value, filters) <==> u.rejected;
      hide SomeFails;
      var v := ArgMeans(s, a, reg0, filters, env);
      if !v.rejected {
        DroppedByValue(v, args[1..], reg0, filters, env);
        assert forall i :: 0 < i < |args| ==> args[i] == args[1..][i - 1];
      }
    }
  }

  lemma ValueKeeps(s: Seen, value: nat, env: Env)
    ensures var t := ValueMeans(s, value, env);
            t.rejected == s.rejected && t.tried == s.tried && t.white == s.white
  {
    hide Kept, WordWants;
  }

  /** Whitelists on a text: one of them is tried, and one matches if the text equals one. */
  lemma {:induction false} WhitelistsMean(
      s: Seen, ids: seq<U64>, value: nat, addr: nat, filters: map<nat, Filter>, env: Env)
    requires Known(filters, ids) && !s.rejected
    requires forall i :: 0 <= i < |ids| ==> filters[ids[i]].kind == Whitelist
    ensures var t := FiltersMean(s, OnText, ids, value, addr, filters, env);
            && !t.rejected && (t.tried <==> s.tried || ids != [])
            && (t.white <==> s.white || exists i :: 0 <= i < |ids| && env.equal(s.step + i, ids[i], addr))
    decreases |ids|
  {
    if ids != [] {
      var t := FilterMeans(s, OnText, ids[0], filters[ids[0]], value, addr, env);
      WhitelistsMean(t, ids[1..], value, addr, filters, env);
      assert forall i :: 0 < i < |ids| ==> ids[i] == ids[1..][i - 1] && s.step + i == t.step + (i - 1);
      assert s.step + 0 == s.step;
    }
  }

  /** Blacklists on a text: the event is rejected exactly when the text equals one. */
  lemma {:induction false} BlacklistsMean(
      s: Seen, ids: seq<U64>, value: nat, addr: nat, filters: map<nat, Filter>, env: Env)
    requires Known(filters, ids) && !s.rejected
    requires forall i :: 0 <= i < |ids| ==> filters[ids[i]].kind == Blacklist
    ensures var t := FiltersMean(s, OnText, ids, value, addr, filters, env);
            && t.tried == s.tried && t.white == s.white
            && (t.rejected <==> exists i :: 0 <= i < |ids| && env.equal(s.step + i, ids[i], addr))
    decreases |ids|
  {
    if ids != [] {
      var t := FilterMeans(s, OnText, ids[0], filters[ids[0]], value, addr, env);
      assert s.step + 0 == s.step;
      if !t.rejected {
        BlacklistsMean(t, ids[1..], value, addr, filters, env);
        assert forall i :: 0 < i < |ids| ==> ids[i] == ids[1..][i - 1] && s.step + i == t.step + (i - 1);
      }
    }
  }
}
