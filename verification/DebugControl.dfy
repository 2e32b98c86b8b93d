/** The per-CPU hardware breakpoint controller of kpm/core/debug.c.

    The controller borrows one breakpoint or watchpoint slot, programs it, disables
    it on a hit, single-steps, re-arms it and finally puts back what was there.
    Every register operation may fail, and foreign code may change any register
    between two calls.  `log` records every access that matters to the controller's
    manners: owners read, reads that failed and registers written. */
module DebugControl {
  import opened Common
  import opened Breakpoints

  /** A register word with the bits the controller touches named and the others kept
      together.  `ControlOf`, `MdscrOf` and `PstateOf` below are one-to-one, so two
      records are equal exactly when the words are bit-identical. */
  datatype Control = Control(enable: bool, upper: bv32)

  datatype Mdscr = Mdscr(ss: bool, mde: bool, rest: bv64)

  datatype Pstate = Pstate(ss: bool, rest: bv64)

  function ControlOf(word: bv32): Control {
    Control(word & CTRL_ENABLE == CTRL_ENABLE, word >> 1)
  }

  function MdscrOf(word: bv64): Mdscr {
    Mdscr(word & 0x1 != 0, word & 0x8000 != 0, word & 0xffff_ffff_ffff_7ffe)
  }

  function PstateOf(word: bv64): Pstate {
    Pstate(word & 0x20_0000 != 0, word & 0xffff_ffff_ffdf_ffff)
  }

  lemma ControlDetermined(c: bv32, c': bv32)
    requires ControlOf(c) == ControlOf(c')
    ensures c == c'
  {
    assert c == (c >> 1 << 1) | (c & 1) && c' == (c' >> 1 << 1) | (c' & 1);
  }

  lemma MdscrSplits(w: bv64)
    ensures w == (w & 0xffff_ffff_ffff_7ffe) | (w & 0x8000) | (w & 0x1)
  {
  }

  lemma StepBit(w: bv64)
    ensures w & 0x1 == 0 || w & 0x1 == 0x1
  {
  }

  lemma MonitorBit(w: bv64)
    ensures w & 0x8000 == 0 || w & 0x8000 == 0x8000
  {
  }

  lemma MdscrDetermined(w: bv64, w': bv64)
    requires MdscrOf(w) == MdscrOf(w')
    ensures w == w'
  {
    MdscrSplits(w);
    MdscrSplits(w');
    StepBit(w);
    StepBit(w');
    MonitorBit(w);
    MonitorBit(w');
  }

  lemma PstateDetermined(w: bv64, w': bv64)
    requires PstateOf(w) == PstateOf(w')
    ensures w == w'
  {
    assert w == (w & 0xffff_ffff_ffdf_ffff) | (w & 0x20_0000);
    assert w' == (w' & 0xffff_ffff_ffdf_ffff) | (w' & 0x20_0000);
    assert w & 0x20_0000 == w' & 0x20_0000;
  }

  lemma WordsDetermined(c: bv32, c': bv32, w: bv64, w': bv64)
    ensures ControlOf(c) == ControlOf(c') ==> c == c'
    ensures MdscrOf(w) == MdscrOf(w') ==> w == w'
    ensures PstateOf(w) == PstateOf(w') ==> w == w'
  {
    hide ControlOf, MdscrOf, PstateOf;
    if ControlOf(c) == ControlOf(c') {
      ControlDetermined(c, c');
    }
    if MdscrOf(w) == MdscrOf(w') {
      MdscrDetermined(w, w');
    }
    if PstateOf(w) == PstateOf(w') {
      PstateDetermined(w, w');
    }
  }

  datatype SlotKind = BreakSlot | WatchSlot

  datatype Slot = Slot(kind: SlotKind, index: nat)

  datatype SlotRegs = SlotRegs(value: nat, control: Control, owner: nat)

  function Disabled(control: Control): Control {
    control.(enable := false)
  }

  /** One CPU's debug registers, with the kernel's record of who owns each slot. */
  datatype Regs = Regs(brp: seq<SlotRegs>, wrp: seq<SlotRegs>, mdscr: Mdscr)
  {
    function Bank(kind: SlotKind): seq<SlotRegs> {
      if kind.BreakSlot? then brp else wrp
    }

    predicate Has(s: Slot) {
      s.index < |Bank(s.kind)|
    }

    function Get(s: Slot): SlotRegs
      requires Has(s)
    {
      Bank(s.kind)[s.index]
    }

    function Put(s: Slot, r: SlotRegs): Regs
      requires Has(s)
    {
      if s.kind.BreakSlot? then this.(brp := brp[s.index := r]) else this.(wrp := wrp[s.index := r])
    }

    function PutValue(s: Slot, value: nat): Regs
      requires Has(s)
    {
      Put(s, Get(s).(value := value))
    }

    function PutControl(s: Slot, control: Control): Regs
      requires Has(s)
    {
      Put(s, Get(s).(control := control))
    }
  }

  lemma PutLaws(regs: Regs, s: Slot, a: SlotRegs)
    requires regs.Has(s)
    ensures regs.Put(s, a).Has(s) && regs.Put(s, a).Get(s) == a
    ensures SameShape(regs, regs.Put(s, a)) && regs.Put(s, a).mdscr == regs.mdscr
    ensures forall b :: regs.Put(s, a).Put(s, b) == regs.Put(s, b)
    ensures regs.Put(s, regs.Get(s)) == regs
  {
    forall b
      ensures regs.Put(s, a).Put(s, b) == regs.Put(s, b)
    {
      var bank := regs.Bank(s.kind);
      assert bank[s.index := a][s.index := b] == bank[s.index := b];
    }
    var bank := regs.Bank(s.kind);
    assert bank[s.index := bank[s.index]] == bank;
  }

  lemma MdscrLaws(regs: Regs, s: Slot, a: SlotRegs, mdscr: Mdscr)
    requires regs.Has(s)
    ensures regs.(mdscr := mdscr).Has(s) && regs.(mdscr := mdscr).Get(s) == regs.Get(s)
    ensures regs.(mdscr := mdscr).Put(s, a) == regs.Put(s, a).(mdscr := mdscr)
    ensures SameShape(regs, regs.(mdscr := mdscr))
  {
  }

  datatype Phase =
    | Empty | Snapshotted | Armed | HitDisabled | StepPending | OneShotDone | Restoring | Quarantined

  datatype Identity = Identity(generation: nat, pid: nat, tgid: nat, startTime: nat, startBootTime: nat)

  /** What an event says about its task beyond its identity. */
  datatype TaskLabel = TaskLabel(cookie: nat, uid: nat, comm: string)

  datatype Target = Target(bindingId: nat, identity: Identity, about: TaskLabel)

  datatype CpuState = CpuState(
    phase: Phase, slot: Slot,
    savedValue: nat, savedControl: Control, savedMdscr: Mdscr,
    programmedValue: nat, programmedControl: Control, disabledControl: Control,
    addedMde: bool, addedSs: bool, addedPstateSs: bool, forward: bool,
    request: Request, target: Target)

  /** A zeroed record, as spz_debug_reset_state leaves it. */
  const BLANK: CpuState := CpuState(
    Empty, Slot(BreakSlot, 0), 0, Control(false, 0), Mdscr(false, false, 0), 0, Control(false, 0), Control(false, 0),
    false, false, false, false,
    Request(0, KindInvalid, 0, 0, ModeInvalid), Target(0, Identity(0, 0, 0, 0, 0), TaskLabel(0, 0, "")))

  datatype Code = Done | Inval | SlotBusy | Unclean | OpFailed

  datatype Outcome = NotOwned | Consumed | ForwardOriginal | Failed(code: Code)

  /** What the controller did to the registers.  A write records the slot's contents just
      before it and the slot the controller had chosen. */
  datatype Access =
    | CallBegins
    | OwnerRead(slot: Slot, owner: nat)
    | FailedRead
    | FailedWrite
    | ValueWrite(slot: Slot, before: SlotRegs, chosen: Slot)
    | ControlWrite(slot: Slot, before: SlotRegs, chosen: Slot)
    | MdscrWrite

  predicate SlotWrite(a: Access) {
    a.ValueWrite? || a.ControlWrite?
  }

  /** Entry `j` reads the slot's owner as 0, in the same call as entry `i`. */
  ghost predicate SeenFree(log: seq<Access>, s: Slot, j: nat, i: nat) {
    && j < i <= |log| && log[j] == OwnerRead(s, 0)
    && forall k :: j < k < i ==> log[k] != CallBegins
  }

  /** Every write to a value or control register goes to the slot the controller has chosen,
      after that slot's owner was read as 0 in the same call, and no value register is
      written while its slot is enabled. */
  ghost predicate Disciplined(log: seq<Access>) {
    forall i :: 0 <= i < |log| && SlotWrite(log[i]) ==>
      && log[i].slot == log[i].chosen
      && (log[i].ValueWrite? ==> !log[i].before.control.enable)
      && exists j :: SeenFree(log, log[i].slot, j, i)
  }

  /** The log in sums: whether it is disciplined so far, how many writes, failed reads and failed
      writes it has, and which slots' owners have read as 0 since the current call began. */
  datatype Audit = Audit(disciplined: bool, writes: nat, failedReads: nat, failedWrites: nat)
  {
    function ValueWrite(s: Slot, before: SlotRegs, chosen: Slot, freed: set<Slot>): Audit {
      this.(disciplined := disciplined && s == chosen && s in freed && !before.control.enable,
            writes := writes + 1)
    }

    function ControlWrite(s: Slot, chosen: Slot, freed: set<Slot>): Audit {
      this.(disciplined := disciplined && s == chosen && s in freed, writes := writes + 1)
    }

    function MdscrWrite(): Audit {
      this.(writes := writes + 1)
    }

    function Read(ok: bool): Audit {
      if ok then this else this.(failedReads := failedReads + 1)
    }

    function Wrote(ok: bool): Audit {
      if ok then this else this.(failedWrites := failedWrites + 1)
    }
  }

  datatype Sums = Sums(audit: Audit, freed: set<Slot>)

  function Book(sums: Sums, a: Access): Sums {
    match a
    case CallBegins => sums.(freed := {})
    case OwnerRead(s, owner) => if owner == 0 then sums.(freed := sums.freed + {s}) else sums
    case FailedRead => sums.(audit := sums.audit.Read(false))
    case FailedWrite => sums.(audit := sums.audit.Wrote(false))
    case ValueWrite(s, before, chosen) => sums.(audit := sums.audit.ValueWrite(s, before, chosen, sums.freed))
    case ControlWrite(s, _, chosen) => sums.(audit := sums.audit.ControlWrite(s, chosen, sums.freed))
    case MdscrWrite => sums.(audit := sums.audit.MdscrWrite())
  }

  function Totals(log: seq<Access>): Sums {
    if log == [] then Sums(Audit(true, 0, 0, 0), {})
    else Book(Totals(log[..|log| - 1]), log[|log| - 1])
  }

  lemma TotalsAppend(log: seq<Access>, a: Access)
    ensures Totals(log + [a]) == Book(Totals(log), a)
  {
    assert (log + [a])[..|log|] == log;
  }

  lemma {:induction false} FreedSeen(log: seq<Access>, s: Slot) returns (j: nat)
    requires s in Totals(log).freed
    ensures SeenFree(log, s, j, |log|)
  {
    var n := |log| - 1;
    if log[n] == OwnerRead(s, 0) {
      j := n;
    } else {
      j := FreedSeen(log[..n], s);
    }
  }

  /** The sums say that the log is disciplined only when it is. */
  lemma {:induction false} TotalsTell(log: seq<Access>)
    requires Totals(log).audit.disciplined
    ensures Disciplined(log)
  {
    if log != [] {
      var n := |log| - 1;
      var before := log[..n];
      TotalsTell(before);
      if SlotWrite(log[n]) {
        var j := FreedSeen(before, log[n].slot);
        assert SeenFree(log, log[n].slot, j, n);
      }
      forall i | 0 <= i < n && SlotWrite(log[i])
        ensures log[i].slot == log[i].chosen && (log[i].ValueWrite? ==> !log[i].before.control.enable)
        ensures exists j :: SeenFree(log, log[i].slot, j, i)
      {
        assert before[i] == log[i];
        var j :| SeenFree(before, before[i].slot, j, i);
        assert SeenFree(log, log[i].slot, j, i);
      }
    }
  }

  function SlotKindOf(r: Request): SlotKind {
    if r.kind.Execute? then BreakSlot else WatchSlot
  }

  predicate ValidTarget(t: Target) {
    t.bindingId != 0 && t.identity.generation != 0 && (t.identity.pid != 0 || t.identity.tgid != 0)
  }

  /** spz_debug_target_matches compares the binding and the strong identity. */
  predicate Matches(expected: Target, current: Target) {
    expected.bindingId == current.bindingId && expected.identity == current.identity
  }

  /** The phases a caller can find the controller in. */
  predicate Visible(p: Phase) {
    p in {Empty, Armed, StepPending, OneShotDone, Quarantined}
  }

  /** The record describes a slot of this CPU, a valid request and its encoding. */
  ghost predicate Core(st: CpuState, regs: Regs) {
    && regs.Has(st.slot) && st.slot.kind == SlotKindOf(st.request)
    && Validate(st.request).Encoding?
    && st.programmedValue == Validate(st.request).value
    && st.programmedControl == ControlOf(Validate(st.request).control)
    && st.programmedControl.enable && !st.savedControl.enable
    && st.disabledControl == Disabled(st.programmedControl)
    && st.addedMde == !st.savedMdscr.mde
  }

  /** What a call leaves in the controller's own record, whatever the registers hold. */
  ghost predicate StateInv(st: CpuState, regs: Regs) {
    && Visible(st.phase)
    && (st.phase != Empty ==> Core(st, regs))
    && (st.phase == Armed || st.phase == OneShotDone ==> !st.addedSs && !st.addedPstateSs && !st.forward)
  }

  /** Phase and step flags are no part of `Core`, and neither are register contents. */
  lemma CoreKept(st: CpuState, st': CpuState, regs: Regs, regs': Regs)
    requires Core(st, regs) && SameShape(regs, regs')
    requires st' == st.(phase := st'.phase, addedSs := st'.addedSs, addedPstateSs := st'.addedPstateSs,
                        forward := st'.forward)
    ensures Core(st', regs')
    ensures regs'.Has(st.slot)
  {
    hide Validate;
  }

  lemma ProgrammedEnabled(r: Request)
    requires Validate(r).Encoding?
    ensures ControlOf(Validate(r).control).enable
  {
    ControlFields(r);
  }

  /** The slot that arming picks: free, and every higher one taken. */
  ghost predicate HighestFree(regs: Regs, s: Slot) {
    && regs.Has(s) && regs.Get(s).owner == 0 && !regs.Get(s).control.enable
    && forall j :: s.index < j < |regs.Bank(s.kind)| ==>
         regs.Bank(s.kind)[j].owner != 0 && regs.Bank(s.kind)[j].control.enable
  }

  /** Another slot needs monitor debug events to stay on. */
  ghost predicate OtherBusy(regs: Regs, own: Slot) {
    exists s: Slot :: regs.Has(s) && s != own && (regs.Get(s).owner != 0 || regs.Get(s).control.enable)
  }

  ghost predicate SameShape(a: Regs, b: Regs) {
    |a.brp| == |b.brp| && |a.wrp| == |b.wrp|
  }

  // ---------------------------------------------------------------------------
  // What each call may do
  // ---------------------------------------------------------------------------

  datatype Machine = Machine(state: CpuState, regs: Regs, audit: Audit)

  /** The exception frame of a debug event. */
  datatype Frame = Frame(
    general: seq<nat>, sp: nat, pc: nat, pstate: Pstate, exceptionClass: nat, isWrite: bool, far: nat, kernelMode: bool)

  datatype Call =
    | Arm(request: Request, target: Target, code: Code)
    | Restore(code: Code)
    | Hit(watch: bool, current: Target, frame: Frame, outcome: Outcome, pstate: Pstate)
    | SingleStep(current: Target, frame: Frame, outcome: Outcome, pstate: Pstate)
    | Foreign

  /** The borrowed slot holds the programmed value and this control word, and nobody
      else has claimed it. */
  ghost predicate Image(st: CpuState, regs: Regs, control: Control) {
    regs.Has(st.slot) && regs.Get(st.slot) == SlotRegs(st.programmedValue, control, 0)
  }

  function ExpectedControl(st: CpuState): Control {
    if st.phase == Armed then st.programmedControl else st.disabledControl
  }

  function ArmedState(regs: Regs, s: Slot, r: Request, t: Target): CpuState
    requires regs.Has(s) && Validate(r).Encoding?
  {
    var e := Validate(r);
    CpuState(Armed, s, regs.Get(s).value, regs.Get(s).control, regs.mdscr, e.value, ControlOf(e.control),
             Disabled(ControlOf(e.control)), !regs.mdscr.mde, false, false, false, r, t)
  }

  ghost predicate ArmEffect(m: Machine, r: Request, t: Target, code: Code, m': Machine) {
    && (!ValidTarget(t) ==> code == Inval)
    && (ValidTarget(t) && m.state.phase != Empty ==> code == SlotBusy)
    && (ValidTarget(t) && m.state.phase == Empty && Validate(r).Rejected? ==> code == Inval)
    && (!ValidTarget(t) || m.state.phase != Empty || Validate(r).Rejected? ==> m' == m)
    && (code == Done ==>
          var s, e := m'.state.slot, Validate(r);
          && s.kind == SlotKindOf(r) && HighestFree(m.regs, s)
          && m'.state == ArmedState(m.regs, s, r, t)
          && m'.regs == m.regs.Put(s, SlotRegs(e.value, ControlOf(e.control), 0)).(mdscr := m.regs.mdscr.(mde := true)))
    && (code != Done && m' != m && m.state.phase == Empty ==>
          || (m'.state == m.state && m'.regs == m.regs)
          || m'.state == BLANK
          || (var s := m'.state.slot;
              && s.kind == SlotKindOf(r) && HighestFree(m.regs, s) && Validate(r).Encoding?
              && m'.state == ArmedState(m.regs, s, r, t).(phase := Quarantined)))
  }

  /** The MDSCR value a successful restore leaves. */
  function RestoredMdscr(st: CpuState, mdscr: Mdscr, keepMde: bool): Mdscr {
    var stepped := if st.addedSs then mdscr.(ss := false) else mdscr;
    if st.addedMde && !keepMde then stepped.(mde := false) else stepped
  }

  ghost predicate RestoreEffect(m: Machine, code: Code, m': Machine) {
    && (m.state.phase == Empty ==> code == Done && m' == m)
    && (m.state.phase == Quarantined ==> code == Unclean && m' == m)
    && (m.state.phase !in {Empty, Quarantined} ==>
          if code == Done then
            var st := m.state;
            && Image(st, m.regs, ExpectedControl(st))
            && m'.state == BLANK
            && m'.regs == m.regs.Put(st.slot, SlotRegs(st.savedValue, st.savedControl, 0)).(mdscr :=
                 RestoredMdscr(st, m.regs.mdscr,
                               OtherBusy(m.regs, st.slot) || m'.audit.failedReads > m.audit.failedReads))
          else
            (m'.state == m.state && m'.regs == m.regs) || m'.state == m.state.(phase := Quarantined))
  }

  /** The debug event belongs to the armed request. */
  predicate HitGuard(st: CpuState, watch: bool, f: Frame) {
    && st.phase == Armed
    && if watch then
         && st.slot.kind == WatchSlot
         && st.request.address <= f.far < (st.request.address + st.request.length) % TWO64
         && !(st.request.kind == Read && f.isWrite) && !(st.request.kind == Write && !f.isWrite)
       else
         st.slot.kind == BreakSlot && f.pc == st.request.address
  }

  /** The control word makes the hardware watch accesses in this direction: bit 3 of the word
      stands for loads and bit 4 for stores, one place lower without the enable bit. */
  predicate Watches(control: Control, isWrite: bool) {
    control.upper & (if isWrite then 0x8 else 0x4) != 0
  }

  lemma WatchesWord(word: bv32)
    ensures Watches(ControlOf(word), false) <==> word & 0x8 != 0
    ensures Watches(ControlOf(word), true) <==> word & 0x10 != 0
  {
  }

  /** The faults an armed watchpoint claims are exactly those its programmed words make the
      hardware report: an access in a direction set in the control word, on a byte that the
      value and the byte-select mask pick. */
  lemma WatchClaimsSelected(st: CpuState, regs: Regs, f: Frame)
    requires Core(st, regs) && st.phase == Armed && st.slot.kind == WatchSlot
    ensures HitGuard(st, true, f) <==>
            && Watches(st.programmedControl, f.isWrite)
            && st.programmedValue <= f.far < st.programmedValue + 8
            && Selected(Validate(st.request).bas, f.far - st.programmedValue)
  {
    hide Validate, Selected, Watches;
    RangeSelected(st.request, f.far);
    AccessDirections(st.request);
    WatchesWord(Validate(st.request).control);
  }

  /** A breakpoint claims exactly the one instruction it is programmed for. */
  lemma BreakClaimsInstruction(st: CpuState, regs: Regs, f: Frame)
    requires Core(st, regs) && st.phase == Armed && st.slot.kind == BreakSlot
    ensures HitGuard(st, false, f) <==> f.pc == st.programmedValue
    ensures st.programmedValue % 4 == 0
  {
  }

  /** The hit retires the slot instead of stepping over the instruction. */
  predicate Final(st: CpuState, f: Frame) {
    st.request.mode == Once || (st.slot.kind == WatchSlot && f.kernelMode)
  }

  function Stepping(st: CpuState, mdscr: Mdscr, pstate: Pstate): CpuState {
    var addedSs, addedPstate := !mdscr.ss, !pstate.ss;
    st.(phase := StepPending, addedSs := addedSs, addedPstateSs := addedPstate,
        forward := !addedSs || !addedPstate)
  }

  ghost predicate HitEffect(m: Machine, watch: bool, t: Target, f: Frame, o: Outcome, pstate: Pstate, m': Machine) {
    var st := m.state;
    && (o == NotOwned <==> !(HitGuard(st, watch, f) && Matches(st.target, t)))
    && (o == NotOwned ==> m' == m)
    && o != ForwardOriginal
    && (o == Consumed ==>
          && Image(st, m.regs, st.programmedControl)
          && var off := m.regs.PutControl(st.slot, st.disabledControl);
             if Final(st, f) then
               m'.state == st.(phase := OneShotDone) && m'.regs == off && pstate == f.pstate
             else
               && m'.state == Stepping(st, m.regs.mdscr, f.pstate)
               && m'.regs == off.(mdscr := m.regs.mdscr.(ss := true)) && pstate == f.pstate.(ss := true))
    && (o.Failed? ==>
          || (m'.state == st && m'.regs == m.regs)
          || m'.state == st.(phase := Quarantined)
          || m'.state == Stepping(st, m.regs.mdscr, f.pstate).(phase := Quarantined))
  }

  ghost predicate StepEffect(m: Machine, t: Target, f: Frame, o: Outcome, pstate: Pstate, m': Machine) {
    var st := m.state;
    && (o == NotOwned <==> !(st.phase == StepPending && Matches(st.target, t)))
    && (o == NotOwned ==> m' == m)
    && (o == Consumed || o == ForwardOriginal ==>
          && (o == ForwardOriginal <==> st.forward)
          && Image(st, m.regs, st.disabledControl)
          && m'.state == st.(phase := Armed, addedSs := false, addedPstateSs := false, forward := false)
          && m'.regs == m.regs.PutControl(st.slot, st.programmedControl).(mdscr :=
               if st.addedSs then m.regs.mdscr.(ss := false) else m.regs.mdscr)
          && pstate == if st.addedPstateSs then f.pstate.(ss := false) else f.pstate)
    && (o.Failed? ==> (m'.state == st && m'.regs == m.regs) || m'.state == st.(phase := Quarantined))
  }

  /** The effect of one call, or of foreign code between calls. */
  ghost predicate Transition(m: Machine, c: Call, m': Machine) {
    && SameShape(m.regs, m'.regs)
    && match c
       case Arm(r, t, code) => ArmEffect(m, r, t, code, m')
       case Restore(code) => RestoreEffect(m, code, m')
       case Hit(watch, t, f, o, pstate) => HitEffect(m, watch, t, f, o, pstate, m')
       case SingleStep(t, f, o, pstate) => StepEffect(m, t, f, o, pstate, m')
       case Foreign => m'.state == m.state && m'.audit == m.audit
  }

  /** A register operation failed in between. */
  predicate OpsFailed(before: Audit, after: Audit) {
    after.failedReads > before.failedReads || after.failedWrites > before.failedWrites
  }

  predicate Later(before: Audit, after: Audit) {
    after.failedReads >= before.failedReads && after.failedWrites >= before.failedWrites
  }

  /** A call that fails does so because a register operation failed or because the registers are
      not as the controller left them; arming finds no slot only where none is free. */
  ghost predicate Caused(m: Machine, c: Call, m': Machine) {
    var st, broken := m.state, OpsFailed(m.audit, m'.audit);
    match c
    case Arm(r, t, code) =>
      && code != Unclean && (code == OpFailed ==> broken)
      && (code == Inval ==> !ValidTarget(t) || Validate(r).Rejected?)
      && (code == SlotBusy && st.phase == Empty ==> forall s :: HighestFree(m.regs, s) ==> s.kind != SlotKindOf(r))
    case Restore(code) =>
      && code in {Done, Unclean, OpFailed} && (code == OpFailed ==> broken)
      && (code == Unclean ==> st.phase == Quarantined || !Image(st, m.regs, ExpectedControl(st)))
    case Hit(_, _, _, o, _) =>
      o.Failed? ==> (o.code == OpFailed && broken) || (o.code == Unclean && !Image(st, m.regs, st.programmedControl))
    case SingleStep(_, _, o, _) =>
      o.Failed? ==> (o.code == OpFailed && broken) || (o.code == Unclean && !Image(st, m.regs, st.disabledControl))
    case Foreign => true
  }

  class DebugCpu {
    var state: CpuState
    var regs: Regs
    /** Whether a register operation that reports failure is known to have had no effect. */
    const faithful: bool
    ghost var log: seq<Access>
    ghost var audit: Audit
    /** Slots whose owner has read as 0 since the current call began. */
    ghost var freed: set<Slot>

    /** `audit` and `freed` are the sums of the log. */
    ghost predicate Traced()
      reads this`log, this`audit, this`freed
    {
      Totals(log) == Sums(audit, freed)
    }

    ghost predicate Valid()
      reads this
    {
      Traced() && audit.disciplined && StateInv(state, regs)
    }

    constructor (regs: Regs, faithful: bool)
      ensures Valid() && state == BLANK && this.regs == regs && this.faithful == faithful && log == []
    {
      this.regs, this.faithful, state := regs, faithful, BLANK;
      log, audit, freed := [], Audit(true, 0, 0, 0), {};
    }

    /** A call begins: nothing has been read yet. */
    ghost method Begin()
      requires Traced()
      modifies this`log, this`freed
      ensures Traced() && freed == {}
    {
      hide Totals;
      TotalsAppend(log, CallBegins);
      log, freed := log + [CallBegins], {};
    }

    // --- Register operations.  Each may fail; a write that fails may still have
    // --- reached the register unless `faithful`.

    method ReadOwner(s: Slot) returns (ok: bool, owner: nat)
      requires Traced() && regs.Has(s)
      modifies this`log, this`audit, this`freed
      ensures Traced()
      ensures ok ==> owner == regs.Get(s).owner
      ensures audit == old(audit).Read(ok)
      ensures freed == if ok && owner == 0 then old(freed) + {s} else old(freed)
    {
      hide Totals;
      ok, owner := *, regs.Get(s).owner;
      ghost var a := if ok then OwnerRead(s, owner) else FailedRead;
      TotalsAppend(log, a);
      log, audit := log + [a], audit.Read(ok);
      if ok && owner == 0 {
        freed := freed + {s};
      }
    }

    ghost method NoteRead(ok: bool)
      requires Traced()
      modifies this`log, this`audit
      ensures Traced() && audit == old(audit).Read(ok)
    {
      hide Totals;
      if !ok {
        TotalsAppend(log, FailedRead);
        log, audit := log + [FailedRead], audit.Read(false);
      }
    }

    ghost method NoteWrite(ok: bool)
      requires Traced()
      modifies this`log, this`audit
      ensures Traced() && audit == old(audit).Wrote(ok)
    {
      hide Totals;
      if !ok {
        TotalsAppend(log, FailedWrite);
        log, audit := log + [FailedWrite], audit.Wrote(false);
      }
    }

    method ReadControl(s: Slot) returns (ok: bool, control: Control)
      requires Traced() && regs.Has(s)
      modifies this`log, this`audit
      ensures Traced()
      ensures ok ==> control == regs.Get(s).control
      ensures audit == old(audit).Read(ok)
    {
      ok, control := *, regs.Get(s).control;
      NoteRead(ok);
    }

    method ReadValue(s: Slot) returns (ok: bool, value: nat)
      requires Traced() && regs.Has(s)
      modifies this`log, this`audit
      ensures Traced()
      ensures ok ==> value == regs.Get(s).value
      ensures audit == old(audit).Read(ok)
    {
      ok, value := *, regs.Get(s).value;
      NoteRead(ok);
    }

    method ReadMdscr() returns (ok: bool, mdscr: Mdscr)
      requires Traced()
      modifies this`log, this`audit
      ensures Traced()
      ensures ok ==> mdscr == regs.mdscr
      ensures audit == old(audit).Read(ok)
    {
      ok, mdscr := *, regs.mdscr;
      NoteRead(ok);
    }

    method WriteValue(s: Slot, value: nat) returns (ok: bool)
      requires Traced() && regs.Has(s)
      modifies this`regs, this`log, this`audit
      ensures Traced()
      ensures regs == old(regs).PutValue(s, value) || (!ok && regs == old(regs))
      ensures !ok && faithful ==> regs == old(regs)
      ensures audit == old(audit).ValueWrite(s, old(regs).Get(s), state.slot, freed).Wrote(ok)
    {
      hide Totals, Regs.Put, Regs.Get;
      TotalsAppend(log, Access.ValueWrite(s, regs.Get(s), state.slot));
      log := log + [Access.ValueWrite(s, regs.Get(s), state.slot)];
      audit := audit.ValueWrite(s, regs.Get(s), state.slot, freed);
      ok := *;
      NoteWrite(ok);
      var reached: bool := *;
      if ok || (reached && !faithful) {
        regs := regs.PutValue(s, value);
      }
    }

    method WriteControl(s: Slot, control: Control) returns (ok: bool)
      requires Traced() && regs.Has(s)
      modifies this`regs, this`log, this`audit
      ensures Traced()
      ensures regs == old(regs).PutControl(s, control) || (!ok && regs == old(regs))
      ensures !ok && faithful ==> regs == old(regs)
      ensures audit == old(audit).ControlWrite(s, state.slot, freed).Wrote(ok)
    {
      hide Totals, Regs.Put, Regs.Get;
      TotalsAppend(log, Access.ControlWrite(s, regs.Get(s), state.slot));
      log := log + [Access.ControlWrite(s, regs.Get(s), state.slot)];
      audit := audit.ControlWrite(s, state.slot, freed);
      ok := *;
      NoteWrite(ok);
      var reached: bool := *;
      if ok || (reached && !faithful) {
        regs := regs.PutControl(s, control);
      }
    }

    method WriteMdscr(mdscr: Mdscr) returns (ok: bool)
      requires Traced()
      modifies this`regs, this`log, this`audit
      ensures Traced()
      ensures regs == old(regs).(mdscr := mdscr) || (!ok && regs == old(regs))
      ensures !ok && faithful ==> regs == old(regs)
      ensures audit == old(audit).MdscrWrite().Wrote(ok)
    {
      hide Totals, Regs.Put, Regs.Get;
      TotalsAppend(log, Access.MdscrWrite);
      log, audit := log + [Access.MdscrWrite], audit.MdscrWrite();
      ok := *;
      NoteWrite(ok);
      var reached: bool := *;
      if ok || (reached && !faithful) {
        regs := regs.(mdscr := mdscr);
      }
    }

    /** spz_debug_find_slot. */
    method FindSlot(kind: SlotKind) returns (code: Code, found: Slot, value: nat, control: Control)
      requires Traced()
      modifies this`log, this`audit, this`freed
      ensures Traced()
      ensures audit == old(audit) || audit == old(audit).Read(false)
      ensures code in {Done, SlotBusy, OpFailed} && (code == OpFailed <==> audit != old(audit))
      ensures code == Done ==>
                && found.kind == kind && HighestFree(regs, found) && found in freed
                && value == regs.Get(found).value && control == regs.Get(found).control
                && audit == old(audit)
      ensures code == SlotBusy ==> forall s :: HighestFree(regs, s) ==> s.kind != kind
    {
      hide Totals;
      var bank := regs.Bank(kind);
      var index := |bank|;
      found, value, control := Slot(kind, 0), 0, Control(false, 0);
      while index != 0
        invariant 0 <= index <= |bank| && Traced() && audit == old(audit)
        invariant forall j :: index <= j < |bank| ==> bank[j].owner != 0 && bank[j].control.enable
      {
        index := index - 1;
        found := Slot(kind, index);
        var ok, owner := ReadOwner(found);
        if !ok {
          return OpFailed, found, 0, Control(false, 0);
        }
        ok, control := ReadControl(found);
        if !ok {
          return OpFailed, found, 0, Control(false, 0);
        }
        if (owner == 0) != !control.enable {
          return SlotBusy, found, 0, Control(false, 0);
        }
        if owner != 0 {
          continue;
        }
        ok, value := ReadValue(found);
        if !ok {
          return OpFailed, found, 0, Control(false, 0);
        }
        return Done, found, value, control;
      }
      code := SlotBusy;
    }

    ghost function View(): Machine
      reads this
    {
      Machine(state, regs, audit)
    }

    /** Foreign code between two calls. */
    method ForeignChange(regs': Regs)
      requires Valid() && SameShape(regs, regs')
      modifies this`regs
      ensures Valid() && Transition(old(View()), Foreign, View())
    {
      regs := regs';
    }

    /** spz_debug_live_image: owner, value and control of the borrowed slot. */
    method LiveImage() returns (ok: bool, live: SlotRegs)
      requires Traced() && regs.Has(state.slot)
      modifies this`log, this`audit, this`freed
      ensures Traced()
      ensures audit == old(audit).Read(ok)
      ensures ok ==> live == regs.Get(state.slot)
      ensures ok && live.owner == 0 ==> state.slot in freed
    {
      hide Totals;
      var owner, value, control;
      live := SlotRegs(0, Control(false, 0), 0);
      ok, owner := ReadOwner(state.slot);
      if !ok {
        return;
      }
      ok, value := ReadValue(state.slot);
      if !ok {
        return;
      }
      ok, control := ReadControl(state.slot);
      live := SlotRegs(value, control, owner);
    }

    /** spz_debug_restore_cpu's question: does another slot need MDE?  A read that
        fails counts as a yes. */
    method OtherRequiresMde() returns (busy: bool)
      requires Traced()
      modifies this`log, this`audit, this`freed
      ensures Traced()
      ensures audit == old(audit) || audit == old(audit).Read(false)
      ensures busy <==> OtherBusy(regs, state.slot) || audit != old(audit)
    {
      hide Totals;
      for k := 0 to 2
        invariant Traced() && audit == old(audit)
        invariant forall s: Slot ::
                    && regs.Has(s) && s != state.slot
                    && (s.kind.BreakSlot? ==> k > 0) && (s.kind.WatchSlot? ==> k > 1) ==>
                    regs.Get(s).owner == 0 && !regs.Get(s).control.enable
      {
        var kind := if k == 0 then BreakSlot else WatchSlot;
        for index := 0 to |regs.Bank(kind)|
          invariant Traced() && audit == old(audit)
          invariant forall i :: 0 <= i < index && Slot(kind, i) != state.slot ==>
                      regs.Get(Slot(kind, i)).owner == 0 && !regs.Get(Slot(kind, i)).control.enable
        {
          var s := Slot(kind, index);
          if s == state.slot {
            continue;
          }
          var ok, owner := ReadOwner(s);
          if !ok {
            return true;
          }
          var control;
          ok, control := ReadControl(s);
          if !ok {
            return true;
          }
          if owner != 0 || control.enable {
            assert regs.Has(s);
            return true;
          }
        }
      }
      return false;
    }

    /** spz_debug_rollback_arm. */
    method RollbackArm()
      requires Traced() && audit.disciplined && state.phase == Snapshotted && StateInv(state.(phase := Armed), regs)
      modifies this
      ensures Traced() && audit.disciplined && SameShape(old(regs), regs) && Later(old(audit), audit)
      ensures state == BLANK || state == old(state).(phase := Quarantined)
      ensures state == BLANK ==>
                regs == old(regs).Put(old(state).slot, SlotRegs(old(state).savedValue, old(state).savedControl, 0))
    {
      hide Totals, Validate, Regs.Put, Regs.Get, Regs.Has;
      var ok, live := LiveImage();
      if !ok || live.owner != 0 || live.value != state.programmedValue ||
         (live.control != state.programmedControl && live.control != state.savedControl) {
        state := state.(phase := Quarantined);
        return;
      }
      var slot := state.slot;
      PutLaws(regs, slot, live.(control := state.savedControl));
      if live.control == state.programmedControl {
        ok := WriteControl(slot, state.savedControl);
        if !ok {
          state := state.(phase := Quarantined);
          return;
        }
      }
      PutLaws(regs, slot, SlotRegs(state.savedValue, state.savedControl, 0));
      ok := WriteValue(slot, state.savedValue);
      if !ok {
        state := state.(phase := Quarantined);
        return;
      }
      state := BLANK;
    }

    /** The register writes of spz_debug_arm_current, with their rollbacks. */
    method ProgramSlot() returns (ok: bool)
      requires Traced() && audit.disciplined && state.phase == Snapshotted && StateInv(state.(phase := Armed), regs)
      requires regs.Get(state.slot) == SlotRegs(state.savedValue, state.savedControl, 0)
      requires state.slot in freed && regs.mdscr == state.savedMdscr
      modifies this
      ensures Traced() && audit.disciplined && SameShape(old(regs), regs)
      ensures !ok ==> OpsFailed(old(audit), audit)
      ensures ok ==> state == old(state).(phase := Armed)
      ensures ok ==>
                var st := old(state);
                regs == old(regs).Put(st.slot, SlotRegs(st.programmedValue, st.programmedControl, 0)).(mdscr :=
                          old(regs).mdscr.(mde := true))
      ensures !ok ==> state == BLANK || state == old(state).(phase := Quarantined)
      ensures !ok && state == BLANK && faithful ==> regs == old(regs)
    {
      hide Totals, Validate, Regs.Put, Regs.Get, Regs.Has;
      var st := state;
      PutLaws(regs, st.slot, regs.Get(st.slot).(value := st.programmedValue));
      ok := WriteValue(st.slot, st.programmedValue);
      if !ok {
        state := BLANK;
        return;
      }
      PutLaws(regs, st.slot, SlotRegs(st.programmedValue, st.programmedControl, 0));
      ok := WriteControl(st.slot, st.programmedControl);
      if ok && st.addedMde {
        MdscrLaws(regs, st.slot, regs.Get(st.slot), st.savedMdscr.(mde := true));
        ok := WriteMdscr(st.savedMdscr.(mde := true));
      }
      if !ok {
        RollbackArm();
        return;
      }
      state := state.(phase := Armed);
    }

    /** spz_debug_arm_current. */
    method ArmCurrent(request: Request, target: Target) returns (code: Code)
      requires Valid()
      modifies this
      ensures Valid() && Transition(old(View()), Arm(request, target, code), View())
      ensures Caused(old(View()), Arm(request, target, code), View())
      ensures code != Done && state.phase == Empty && faithful ==> regs == old(regs)
    {
      hide Totals, Validate, Transition, StateInv, HighestFree, SameShape;
      Begin();
      code := Refusal(state, request, target);
      if code != Done {
        ArmRefused(old(View()), request, target, code, View());
        return;
      }
      var slot, savedValue, savedControl, ok, savedMdscr;
      code, slot, savedValue, savedControl := FindSlot(SlotKindOf(request));
      if code == Done {
        ok, savedMdscr := ReadMdscr();
        code := if ok then Done else OpFailed;
      }
      if code != Done {
        ArmRefused(old(View()), request, target, code, View());
        return;
      }
      ArmedStateInv(regs, slot, request, target);
      state := ArmedState(regs, slot, request, target).(phase := Snapshotted, savedValue := savedValue,
                                                        savedControl := savedControl, savedMdscr := savedMdscr);
      ok := ProgramSlot();
      code := if ok then Done else OpFailed;
      ArmFinished(old(View()), slot, request, target, code, View());
    }

    /** spz_debug_restore_cpu. */
    method RestoreCpu() returns (code: Code)
      requires Valid()
      modifies this
      ensures Valid() && Transition(old(View()), Restore(code), View())
      ensures Caused(old(View()), Restore(code), View())
    {
      hide Totals, Regs.Put, Regs.Get, Regs.Has, OtherBusy, RestoredMdscr, Validate;
      Begin();
      if state.phase == Empty {
        return Done;
      }
      if state.phase == Quarantined {
        return Unclean;
      }
      var ok, live := LiveImage();
      if !ok {
        return OpFailed;
      }
      if live != SlotRegs(state.programmedValue, ExpectedControl(state), 0) {
        state := state.(phase := Quarantined);
        CoreKept(old(state), state, regs, regs);
        return Unclean;
      }
      var mdscr;
      ok, mdscr := ReadMdscr();
      if !ok {
        return OpFailed;
      }
      ok := PutBack(live, mdscr);
      CoreKept(old(state), old(state).(phase := Quarantined), old(regs), regs);
      code := if ok then Done else OpFailed;
    }

    /** The last part of a restore: the monitor bits that were added are taken back, the enable
        bit only when no other slot needs it. */
    method RestoreMonitor(st: CpuState, mdscr: Mdscr) returns (ok: bool)
      requires Traced() && audit.disciplined && mdscr == regs.mdscr && state.slot == st.slot
      modifies this`regs, this`log, this`audit, this`freed
      ensures Traced() && audit.disciplined && SameShape(old(regs), regs)
      ensures Later(old(audit), audit) && (!ok ==> OpsFailed(old(audit), audit))
      ensures ok ==> regs == old(regs).(mdscr := RestoredMdscr(st, mdscr,
                       OtherBusy(old(regs), st.slot) || audit.failedReads > old(audit).failedReads))
    {
      hide Totals, Regs.Put, Regs.Get, OtherBusy;
      ok := true;
      var restored := if st.addedSs then mdscr.(ss := false) else mdscr;
      if st.addedMde {
        var busy := OtherRequiresMde();
        if !busy {
          restored := restored.(mde := false);
        }
      }
      if restored != mdscr {
        ok := WriteMdscr(restored);
      }
    }

    /** The writes of spz_debug_restore_cpu: disable first, then the saved value, then
        the saved control, then MDSCR. */
    method PutBack(live: SlotRegs, mdscr: Mdscr) returns (ok: bool)
      requires Traced() && audit.disciplined && StateInv(state, regs) && state.phase !in {Empty, Quarantined}
      requires live == SlotRegs(state.programmedValue, ExpectedControl(state), 0)
      requires live == regs.Get(state.slot) && mdscr == regs.mdscr && state.slot in freed
      modifies this
      ensures Traced() && audit.disciplined && SameShape(old(regs), regs)
      ensures !ok ==> state == old(state).(phase := Quarantined) && OpsFailed(old(audit), audit)
      ensures ok ==>
                var st := old(state);
                && state == BLANK
                && regs == old(regs).Put(st.slot, SlotRegs(st.savedValue, st.savedControl, 0)).(mdscr :=
                     RestoredMdscr(st, old(regs).mdscr, OtherBusy(old(regs), st.slot) ||
                                                        audit.failedReads > old(audit).failedReads))
    {
      hide Totals, Validate, Regs.Put, Regs.Get, OtherBusy;
      var st := state;
      state := state.(phase := Restoring);
      ok := true;
      PutLaws(regs, st.slot, SlotRegs(live.value, st.disabledControl, 0));
      if live.control.enable {
        ok := WriteControl(st.slot, st.disabledControl);
      }
      if ok {
        PutLaws(regs, st.slot, SlotRegs(st.savedValue, regs.Get(st.slot).control, 0));
        ok := WriteValue(st.slot, st.savedValue);
      }
      if ok {
        PutLaws(regs, st.slot, SlotRegs(st.savedValue, st.savedControl, 0));
        ok := WriteControl(st.slot, st.savedControl);
      }
      if ok {
        SameOthers(old(regs), regs, st.slot, SlotRegs(st.savedValue, st.savedControl, 0));
        ok := RestoreMonitor(st, mdscr);
      }
      state := if ok then BLANK else st.(phase := Quarantined);
    }

    /** spz_debug_handle_hit, with its two callers' guards in `HitGuard`. */
    method HandleHit(watch: bool, current: Target, frame: Frame)
        returns (outcome: Outcome, pstate: Pstate, event: HitEvent)
      requires Valid()
      modifies this
      ensures Valid() && Transition(old(View()), Hit(watch, current, frame, outcome, pstate), View())
      ensures Caused(old(View()), Hit(watch, current, frame, outcome, pstate), View())
      ensures outcome == Consumed ==>
                var st := old(state);
                var live := old(regs).Get(st.slot);
                && event.slot == st.slot && event.breakpoint == st.request.id && event.target == st.target
                && event.exceptionClass == frame.exceptionClass && event.requested == st.request.address
                && event.observed == (if watch then frame.far else frame.pc)
                && event.value == live.value && event.control == st.programmedControl
                && event.observedControl == live.control && event.mdscr == old(regs).mdscr
                && event.general == frame.general && event.sp == frame.sp && event.pc == frame.pc
                && event.pstate == frame.pstate
                && event.kernelAccess == (frame.kernelMode && Final(st, frame))
    {
      hide Totals, Core, Regs.Put, Regs.Get;
      Begin();
      pstate := frame.pstate;
      var observed := if watch then frame.far else frame.pc;
      event := Report(state, frame, observed, SlotRegs(0, Control(false, 0), 0), regs.mdscr, false);
      if !HitGuard(state, watch, frame) || !Matches(state.target, current) {
        return NotOwned, pstate, event;
      }
      CoreKept(state, state.(phase := Quarantined), regs, regs);
      var ok, live := LiveImage();
      if !ok {
        return Failed(OpFailed), pstate, event;
      }
      if live != SlotRegs(state.programmedValue, state.programmedControl, 0) {
        state := state.(phase := Quarantined);
        return Failed(Unclean), pstate, event;
      }
      var mdscr;
      ok, mdscr := ReadMdscr();
      if !ok {
        return Failed(OpFailed), pstate, event;
      }
      event := Report(state, frame, observed, live, mdscr, frame.kernelMode && Final(state, frame));
      ok, pstate := TakeHit(frame, mdscr);
      outcome := if ok then Consumed else Failed(OpFailed);
    }

    /** The writes of spz_debug_handle_hit: disable the slot, then either retire it or
        ask for a single step. */
    method TakeHit(frame: Frame, mdscr: Mdscr) returns (ok: bool, pstate: Pstate)
      requires Traced() && audit.disciplined && StateInv(state, regs) && state.phase == Armed
      requires regs.Has(state.slot) && state.slot in freed && mdscr == regs.mdscr
      modifies this
      ensures Valid() && SameShape(old(regs), regs)
      ensures !ok ==> pstate == frame.pstate && OpsFailed(old(audit), audit)
      ensures !ok ==>
                || state == old(state).(phase := Quarantined)
                || state == Stepping(old(state), mdscr, frame.pstate).(phase := Quarantined)
      ensures ok ==>
                var st := old(state);
                var off := old(regs).PutControl(st.slot, st.disabledControl);
                if Final(st, frame) then
                  state == st.(phase := OneShotDone) && regs == off && pstate == frame.pstate
                else
                  && state == Stepping(st, mdscr, frame.pstate)
                  && regs == off.(mdscr := mdscr.(ss := true)) && pstate == frame.pstate.(ss := true)
    {
      hide Totals, Core, Regs.Put, Regs.Get;
      var st := state;
      pstate := frame.pstate;
      PutLaws(regs, st.slot, regs.Get(st.slot).(control := st.disabledControl));
      ok := WriteControl(st.slot, st.disabledControl);
      if !ok {
        state := st.(phase := Quarantined);
      } else if Final(st, frame) {
        state := st.(phase := OneShotDone);
      } else {
        state := st.(addedSs := !mdscr.ss, addedPstateSs := !frame.pstate.ss,
                     forward := mdscr.ss || frame.pstate.ss);
        if mdscr.(ss := true) != mdscr {
          ok := WriteMdscr(mdscr.(ss := true));
        }
        if ok {
          pstate := pstate.(ss := true);
        }
        state := state.(phase := if ok then StepPending else Quarantined);
      }
      CoreKept(st, state, old(regs), regs);
    }

    /** spz_debug_handle_step. */
    method HandleStep(current: Target, frame: Frame) returns (outcome: Outcome, pstate: Pstate)
      requires Valid()
      modifies this
      ensures Valid() && Transition(old(View()), SingleStep(current, frame, outcome, pstate), View())
      ensures Caused(old(View()), SingleStep(current, frame, outcome, pstate), View())
    {
      hide Totals, Core, Regs.Put, Regs.Get;
      Begin();
      pstate := frame.pstate;
      if state.phase != StepPending || !Matches(state.target, current) {
        return NotOwned, pstate;
      }
      CoreKept(state, state.(phase := Quarantined), regs, regs);
      var ok, live := LiveImage();
      if !ok {
        return Failed(OpFailed), pstate;
      }
      if live != SlotRegs(state.programmedValue, state.disabledControl, 0) {
        state := state.(phase := Quarantined);
        return Failed(Unclean), pstate;
      }
      var mdscr;
      ok, mdscr := ReadMdscr();
      if !ok {
        return Failed(OpFailed), pstate;
      }
      var forward := state.forward;
      ok, pstate := Rearm(frame, mdscr);
      outcome := if !ok then Failed(OpFailed) else if forward then ForwardOriginal else Consumed;
    }

    /** The writes of spz_debug_handle_step: stop stepping, then enable the slot again. */
    method Rearm(frame: Frame, mdscr: Mdscr) returns (ok: bool, pstate: Pstate)
      requires Traced() && audit.disciplined && StateInv(state, regs) && state.phase == StepPending
      requires regs.Has(state.slot) && state.slot in freed && mdscr == regs.mdscr
      modifies this
      ensures Valid() && SameShape(old(regs), regs)
      ensures !ok ==> state == old(state).(phase := Quarantined) && OpsFailed(old(audit), audit)
      ensures ok ==>
                var st := old(state);
                && state == st.(phase := Armed, addedSs := false, addedPstateSs := false, forward := false)
                && regs == old(regs).PutControl(st.slot, st.programmedControl).(mdscr :=
                             if st.addedSs then mdscr.(ss := false) else mdscr)
                && pstate == if st.addedPstateSs then frame.pstate.(ss := false) else frame.pstate
    {
      hide Totals, Core, Regs.Put, Regs.Get;
      var st := state;
      pstate := frame.pstate;
      ok := true;
      var restored := if st.addedSs then mdscr.(ss := false) else mdscr;
      MdscrLaws(regs, st.slot, regs.Get(st.slot).(control := st.programmedControl), restored);
      PutLaws(regs, st.slot, regs.Get(st.slot).(control := st.programmedControl));
      if restored != mdscr {
        ok := WriteMdscr(restored);
      }
      if ok {
        if st.addedPstateSs {
          pstate := pstate.(ss := false);
        }
        CoreKept(st, st, old(regs), regs);
        PutLaws(regs, st.slot, regs.Get(st.slot).(control := st.programmedControl));
        ok := WriteControl(st.slot, st.programmedControl);
      }
      state := if ok then st.(phase := Armed, addedSs := false, addedPstateSs := false, forward := false)
               else st.(phase := Quarantined);
      CoreKept(st, state, old(regs), regs);
    }
  }

  /** What a hit reports: its task, the slot as it was when the hit was taken, and the
      registers of the interrupted code as they were before any step bit was set. */
  datatype HitEvent = HitEvent(
    slot: Slot, breakpoint: nat, target: Target, exceptionClass: nat, requested: nat, observed: nat,
    value: nat, control: Control, observedControl: Control, mdscr: Mdscr,
    general: seq<nat>, sp: nat, pc: nat, pstate: Pstate, kernelAccess: bool)

  /** spz_debug_fill_event, and the flag set for kernel accesses. */
  function Report(st: CpuState, f: Frame, observed: nat, live: SlotRegs, mdscr: Mdscr, kernelAccess: bool): HitEvent {
    HitEvent(st.slot, st.request.id, st.target, f.exceptionClass, st.request.address, observed,
             live.value, st.programmedControl, live.control, mdscr,
             f.general, f.sp, f.pc, f.pstate, kernelAccess)
  }

  /** Changing the borrowed slot says nothing about the others. */
  lemma SameOthers(regs: Regs, regs': Regs, s: Slot, a: SlotRegs)
    requires regs.Has(s) && regs' == regs.Put(s, a)
    ensures OtherBusy(regs, s) <==> OtherBusy(regs', s)
  {
    forall o: Slot | o != s
      ensures regs.Has(o) <==> regs'.Has(o)
      ensures regs.Has(o) ==> regs.Get(o) == regs'.Get(o)
    {
    }
  }

  /** The checks spz_debug_arm_current makes before it looks at a register. */
  function Refusal(st: CpuState, r: Request, t: Target): Code {
    if !ValidTarget(t) then Inval
    else if st.phase != Empty then SlotBusy
    else if Validate(r).Rejected? then Inval
    else Done
  }

  lemma ArmedStateInv(regs: Regs, s: Slot, r: Request, t: Target)
    requires HighestFree(regs, s) && s.kind == SlotKindOf(r) && Validate(r).Encoding?
    ensures regs.Has(s) && StateInv(ArmedState(regs, s, r, t), regs)
    ensures regs.Get(s) == SlotRegs(regs.Get(s).value, regs.Get(s).control, 0)
  {
    ProgrammedEnabled(r);
  }

  lemma ArmRefused(m: Machine, r: Request, t: Target, code: Code, m': Machine)
    requires StateInv(m.state, m.regs) && m.audit.disciplined
    requires m'.state == m.state && m'.regs == m.regs && code != Done
    requires m'.audit == m.audit || (m'.audit == m.audit.Read(false) && Refusal(m.state, r, t) == Done)
    requires Refusal(m.state, r, t) != Done ==> code == Refusal(m.state, r, t)
    ensures Transition(m, Arm(r, t, code), m') && StateInv(m'.state, m'.regs)
  {
  }

  lemma ArmFinished(m: Machine, s: Slot, r: Request, t: Target, code: Code, m': Machine)
    requires StateInv(m.state, m.regs) && m'.audit.disciplined && SameShape(m.regs, m'.regs)
    requires Refusal(m.state, r, t) == Done && HighestFree(m.regs, s) && s.kind == SlotKindOf(r)
    requires code == Done ==>
               var e := Validate(r);
               && m'.state == ArmedState(m.regs, s, r, t)
               && m'.regs == m.regs.Put(s, SlotRegs(e.value, ControlOf(e.control), 0)).(mdscr :=
                               m.regs.mdscr.(mde := true))
    requires code != Done ==>
               m'.state == BLANK || m'.state == ArmedState(m.regs, s, r, t).(phase := Quarantined)
    ensures Transition(m, Arm(r, t, code), m') && StateInv(m'.state, m'.regs)
  {
    hide Validate;
    ArmedStateInv(m.regs, s, r, t);
  }

  /** When no register operation fails, arming takes the highest slot exactly when there is one to
      take, and hits, steps and restores go through exactly when nobody has touched the slot. */
  lemma FaultFree(m: Machine, c: Call, m': Machine)
    requires StateInv(m.state, m.regs) && Transition(m, c, m') && Caused(m, c, m')
    requires !OpsFailed(m.audit, m'.audit)
    ensures c.Arm? ==>
              (c.code == Done <==>
                 && ValidTarget(c.target) && m.state.phase == Empty && Validate(c.request).Encoding?
                 && exists s :: HighestFree(m.regs, s) && s.kind == SlotKindOf(c.request))
    ensures c.Restore? ==>
              (c.code == Done <==>
                 || m.state.phase == Empty
                 || (m.state.phase != Quarantined && Image(m.state, m.regs, ExpectedControl(m.state))))
    ensures c.Hit? && HitGuard(m.state, c.watch, c.frame) && Matches(m.state.target, c.current) ==>
              (c.outcome == Consumed <==> Image(m.state, m.regs, m.state.programmedControl))
    ensures c.SingleStep? && m.state.phase == StepPending && Matches(m.state.target, c.current) ==>
              (c.outcome == (if m.state.forward then ForwardOriginal else Consumed) <==>
                 Image(m.state, m.regs, m.state.disabledControl))
  {
    hide Validate, Core, HighestFree, Image, HitGuard, Matches, OtherBusy, Regs.Put, Regs.Get;
  }

  // ---------------------------------------------------------------------------
  // Every run
  // ---------------------------------------------------------------------------

  /** Machine i becomes machine i + 1 by call i, or by foreign code. */
  ghost predicate Run(machines: seq<Machine>, calls: seq<Call>) {
    && |machines| == |calls| + 1
    && StateInv(machines[0].state, machines[0].regs)
    && forall i :: 0 <= i < |calls| ==> Transition(machines[i], calls[i], machines[i + 1])
  }

  /** No effect of a call leads out of the documented states or away from a record that
      describes its slot, its request and the encoding of that request. */
  lemma TransitionKeeps(m: Machine, c: Call, m': Machine)
    requires StateInv(m.state, m.regs) && Transition(m, c, m')
    ensures StateInv(m'.state, m'.regs)
  {
    hide Regs.Put, Regs.Get, OtherBusy, Image, Validate;
    if c.Arm? {
      ArmKeeps(m, c.request, c.target, c.code, m');
    } else if m.state.phase != Empty {
      CoreMoves(m.state, m.regs, m'.state, m'.regs);
    }
  }

  lemma ArmKeeps(m: Machine, r: Request, t: Target, code: Code, m': Machine)
    requires StateInv(m.state, m.regs) && SameShape(m.regs, m'.regs) && ArmEffect(m, r, t, code, m')
    ensures StateInv(m'.state, m'.regs)
  {
    hide Validate;
    var s := m'.state.slot;
    if s.kind == SlotKindOf(r) && HighestFree(m.regs, s) && Validate(r).Encoding? {
      ArmedStateInv(m.regs, s, r, t);
    }
  }

  /** `Core` follows the record through every change of phase and step flags. */
  lemma CoreMoves(st: CpuState, regs: Regs, st': CpuState, regs': Regs)
    requires Core(st, regs) && SameShape(regs, regs')
    ensures (st' == st.(phase := st'.phase, addedSs := st'.addedSs, addedPstateSs := st'.addedPstateSs,
                        forward := st'.forward)) ==> Core(st', regs')
  {
    hide Validate;
  }

  /** Whatever is called, whatever fails and whatever foreign code does: the controller rests
      only in the documented states, with a record that describes the slot it borrowed. */
  lemma {:induction false} RunKeeps(machines: seq<Machine>, calls: seq<Call>)
    requires Run(machines, calls)
    ensures var last := machines[|calls|];
            StateInv(last.state, last.regs) && Visible(last.state.phase)
  {
    var n := |calls|;
    if n > 0 {
      hide StateInv, ArmEffect, RestoreEffect, HitEffect, StepEffect;
      RunKeeps(machines[..n], calls[..n - 1]);
      assert Transition(machines[n - 1], calls[n - 1], machines[n]);
      TransitionKeeps(machines[n - 1], calls[n - 1], machines[n]);
      VisibleInv(machines[n]);
    }
  }

  /** What can be asked of the controller, and foreign code in between. */
  datatype Act =
    | DoArm(request: Request, target: Target)
    | DoRestore
    | DoHit(watch: bool, current: Target, frame: Frame)
    | DoStep(current: Target, frame: Frame)
    | DoForeign(regs: Regs)

  /** The call is the one the script asks for, with some answer. */
  predicate Answers(a: Act, c: Call) {
    match a
    case DoArm(request, target) => c.Arm? && c.request == request && c.target == target
    case DoRestore => c.Restore?
    case DoHit(watch, current, frame) =>
      c.Hit? && c.watch == watch && c.current == current && c.frame == frame
    case DoStep(current, frame) => c.SingleStep? && c.current == current && c.frame == frame
    case DoForeign(_) => c.Foreign?
  }

  lemma RunAppend(machines: seq<Machine>, calls: seq<Call>, c: Call, m: Machine)
    requires Run(machines, calls) && Transition(machines[|calls|], c, m)
    ensures Run(machines + [m], calls + [c])
  {
    hide Transition, StateInv;
    var ms, cs := machines + [m], calls + [c];
    forall i | 0 <= i < |cs| ensures Transition(ms[i], cs[i], ms[i + 1]) {
      if i < |calls| {
        assert Transition(machines[i], calls[i], machines[i + 1]);
      }
    }
  }

  /** Any script of calls and foreign changes on a fresh controller: what the code does is a
      run of the transitions above, and every register write it makes is disciplined. */
  method RunScript(regs: Regs, faithful: bool, script: seq<Act>)
      returns (cpu: DebugCpu, ghost machines: seq<Machine>, ghost calls: seq<Call>)
    ensures cpu.Valid() && Disciplined(cpu.log)
    ensures |calls| == |script| && Run(machines, calls)
    ensures forall i :: 0 <= i < |script| ==> Answers(script[i], calls[i])
    ensures machines[0].state == BLANK && machines[0].regs == regs && machines[|calls|] == cpu.View()
  {
    hide Transition, StateInv, Totals, Disciplined;
    cpu := new DebugCpu(regs, faithful);
    machines, calls := [cpu.View()], [];
    BlankInv(regs);
    for i := 0 to |script|
      invariant cpu.Valid() && fresh(cpu) && |calls| == i && Run(machines, calls)
      invariant forall j :: 0 <= j < i ==> Answers(script[j], calls[j])
      invariant machines[0].state == BLANK && machines[0].regs == regs && machines[i] == cpu.View()
    {
      ghost var c := Foreign;
      match script[i] {
        case DoArm(request, target) =>
          var code := cpu.ArmCurrent(request, target);
          c := Arm(request, target, code);
        case DoRestore =>
          var code := cpu.RestoreCpu();
          c := Restore(code);
        case DoHit(watch, current, frame) =>
          var outcome, pstate, event := cpu.HandleHit(watch, current, frame);
          c := Hit(watch, current, frame, outcome, pstate);
        case DoStep(current, frame) =>
          var outcome, pstate := cpu.HandleStep(current, frame);
          c := SingleStep(current, frame, outcome, pstate);
        case DoForeign(changed) =>
          var fits := |changed.brp| == |cpu.regs.brp| && |changed.wrp| == |cpu.regs.wrp|;
          var shaped := if fits then changed else cpu.regs;
          cpu.ForeignChange(shaped);
      }
      RunAppend(machines, calls, c, cpu.View());
      machines, calls := machines + [cpu.View()], calls + [c];
    }
    TotalsTell(cpu.log);
  }

  lemma BlankInv(regs: Regs)
    ensures StateInv(BLANK, regs)
  {
  }

  lemma VisibleInv(m: Machine)
    requires StateInv(m.state, m.regs)
    ensures Visible(m.state.phase)
  {
  }

  /** Once quarantined, the controller stays quarantined and writes no register again,
      whatever is called and whatever foreign code does. */
  lemma {:induction false} QuarantineAbsorbs(machines: seq<Machine>, calls: seq<Call>)
    requires Run(machines, calls) && machines[0].state.phase == Quarantined
    ensures var last := machines[|calls|];
            last.state == machines[0].state && last.audit.writes == machines[0].audit.writes
  {
    var n := |calls|;
    if n > 0 {
      hide StateInv;
      QuarantineAbsorbs(machines[..n], calls[..n - 1]);
      assert Transition(machines[n - 1], calls[n - 1], machines[n]);
    }
  }

  // --- Borrowing a slot and giving it back -----------------------------------

  /** Between arming and restoring, with nobody else at the registers, they differ from
      the ones found at arming in just the ways the controller's phase accounts for. */
  ghost predicate Borrowed(found: Regs, m: Machine) {
    var st := m.state;
    && st.phase in {Armed, StepPending, OneShotDone}
    && found.Has(st.slot) && found.Get(st.slot) == SlotRegs(st.savedValue, st.savedControl, 0)
    && st.savedMdscr == found.mdscr && st.addedMde == !found.mdscr.mde
    && st.addedSs == (st.phase == StepPending && !found.mdscr.ss)
    && m.regs == found.Put(st.slot, SlotRegs(st.programmedValue, ExpectedControl(st), 0)).(mdscr :=
                   found.mdscr.(mde := true, ss := found.mdscr.ss || st.phase == StepPending))
  }

  lemma ArmBorrows(m: Machine, r: Request, t: Target, m': Machine)
    requires Transition(m, Arm(r, t, Done), m')
    ensures Borrowed(m.regs, m')
  {
    hide Validate, StateInv;
  }

  lemma BorrowedStep(found: Regs, m: Machine, c: Call, m': Machine)
    requires Borrowed(found, m) && StateInv(m.state, m.regs) && Transition(m, c, m')
    requires !c.Foreign? && c != Restore(Done)
    ensures Borrowed(found, m') || m'.state.phase == Quarantined
  {
    hide Validate, Core;
    var st := m.state;
    PutLaws(found, st.slot, SlotRegs(st.programmedValue, ExpectedControl(st), 0));
    MdscrLaws(found, st.slot, SlotRegs(st.programmedValue, ExpectedControl(st), 0), m.regs.mdscr);
    PutLaws(found.(mdscr := m.regs.mdscr), st.slot, SlotRegs(st.programmedValue, ExpectedControl(st), 0));
    hide Regs.Put, Regs.Get, Regs.Has;
  }

  lemma {:induction false} BorrowedRun(found: Regs, machines: seq<Machine>, calls: seq<Call>)
    requires Run(machines, calls) && Borrowed(found, machines[0])
    requires forall i :: 0 <= i < |calls| ==> !calls[i].Foreign? && calls[i] != Restore(Done)
    ensures Borrowed(found, machines[|calls|]) || machines[|calls|].state.phase == Quarantined
  {
    var n := |calls|;
    if n > 0 {
      hide Borrowed, StateInv, Transition;
      BorrowedRun(found, machines[..n], calls[..n - 1]);
      RunKeeps(machines[..n], calls[..n - 1]);
      assert Transition(machines[n - 1], calls[n - 1], machines[n]);
      if machines[n - 1].state.phase == Quarantined {
        QuarantineAbsorbs(machines[n - 1..], calls[n - 1..]);
      } else {
        BorrowedStep(found, machines[n - 1], calls[n - 1], machines[n]);
      }
    }
  }

  lemma RestoreReturns(found: Regs, m: Machine, m': Machine)
    requires Borrowed(found, m) && Transition(m, Restore(Done), m')
    ensures m'.state == BLANK
    ensures m'.regs == found.(mdscr := found.mdscr.(mde :=
              found.mdscr.mde || OtherBusy(found, m.state.slot) || m'.audit.failedReads > m.audit.failedReads))
  {
    hide StateInv;
    var st := m.state;
    var used := SlotRegs(st.programmedValue, ExpectedControl(st), 0);
    PutLaws(found, st.slot, used);
    MdscrLaws(found, st.slot, used, m.regs.mdscr);
    PutLaws(found.(mdscr := m.regs.mdscr), st.slot, used);
    PutLaws(found.(mdscr := m.regs.mdscr), st.slot, found.Get(st.slot));
    SameOthers(found, found.Put(st.slot, used), st.slot, used);
    OtherBusyMdscr(found.Put(st.slot, used), m.regs.mdscr, st.slot);
    hide Regs.Put, Regs.Get, Regs.Has, OtherBusy;
    assert m'.regs.mdscr ==
           RestoredMdscr(st, m.regs.mdscr,
                         OtherBusy(m.regs, st.slot) || m'.audit.failedReads > m.audit.failedReads);
  }

  lemma OtherBusyMdscr(regs: Regs, mdscr: Mdscr, s: Slot)
    ensures OtherBusy(regs.(mdscr := mdscr), s) <==> OtherBusy(regs, s)
  {
    forall o: Slot
      ensures regs.(mdscr := mdscr).Has(o) <==> regs.Has(o)
      ensures regs.Has(o) ==> regs.(mdscr := mdscr).Get(o) == regs.Get(o)
    {
    }
  }

  /** Arm, then any mix of hits, steps, refused calls and failed operations, then a
      successful restore: the registers are bit for bit those found at arming, except
      that MDE stays set exactly when arming set it and another slot is owned, enabled
      or cannot be read. */
  lemma BorrowAndReturn(machines: seq<Machine>, calls: seq<Call>, r: Request, t: Target)
    requires |calls| >= 2 && Run(machines, calls)
    requires calls[0] == Arm(r, t, Done) && calls[|calls| - 1] == Restore(Done)
    requires forall i :: 0 < i < |calls| - 1 ==> !calls[i].Foreign? && calls[i] != Restore(Done)
    ensures var found, before, last := machines[0].regs, machines[|calls| - 1], machines[|calls|];
            last.regs == found.(mdscr := found.mdscr.(mde :=
              found.mdscr.mde || OtherBusy(found, before.state.slot) ||
              last.audit.failedReads > before.audit.failedReads))
    ensures machines[|calls|].state == BLANK
  {
    hide Borrowed, StateInv, OtherBusy, ArmEffect, HitEffect, StepEffect;
    var n := |calls|;
    var found := machines[0].regs;
    assert Transition(machines[0], calls[0], machines[1]);
    assert Transition(machines[n - 1], calls[n - 1], machines[n]);
    ArmBorrows(machines[0], r, t, machines[1]);
    TransitionKeeps(machines[0], calls[0], machines[1]);
    var middle, between := machines[1..n], calls[1..n - 1];
    assert Run(middle, between) by {
      forall i | 0 <= i < |between|
        ensures Transition(middle[i], between[i], middle[i + 1])
      {
        assert Transition(machines[i + 1], calls[i + 1], machines[i + 2]);
      }
    }
    BorrowedRun(found, middle, between);
    RestoreReturns(found, machines[n - 1], machines[n]);
  }

  // --- Hits and steps ---------------------------------------------------------

  predicate IsHit(c: Call) {
    c.Hit? && c.outcome == Consumed
  }

  predicate IsStep(c: Call) {
    c.SingleStep? && (c.outcome == Consumed || c.outcome == ForwardOriginal)
  }

  function Hits(calls: seq<Call>): nat {
    if calls == [] then 0
    else Hits(calls[..|calls| - 1]) + if IsHit(calls[|calls| - 1]) then 1 else 0
  }

  function Steps(calls: seq<Call>): nat {
    if calls == [] then 0
    else Steps(calls[..|calls| - 1]) + if IsStep(calls[|calls| - 1]) then 1 else 0
  }

  /** What the phase says about the hits and steps since arming. */
  ghost predicate Paced(armed: CpuState, m: Machine, hits: nat, steps: nat) {
    match m.state.phase
    case Armed => hits == steps && (armed.request.mode == Once ==> hits == 0) && m.state == armed
    case StepPending => hits == steps + 1 && armed.request.mode != Once && m.state.request == armed.request &&
                        m.state.(phase := Armed, addedSs := false, addedPstateSs := false, forward := false) == armed
    case OneShotDone =>
      hits == steps + 1 && (armed.request.mode == Once ==> hits == 1) && m.state.request == armed.request
    case Quarantined => steps <= hits <= steps + 1 && (armed.request.mode == Once ==> hits <= 1)
    case _ => false
  }

  lemma PacedStep(armed: CpuState, m: Machine, hits: nat, steps: nat, c: Call, m': Machine)
    requires Paced(armed, m, hits, steps) && StateInv(m.state, m.regs) && Transition(m, c, m')
    requires !(c.Restore? && c.code == Done)
    ensures Paced(armed, m', hits + (if IsHit(c) then 1 else 0), steps + (if IsStep(c) then 1 else 0))
  {
    hide Core, Image, Regs.Put, Regs.Get;
  }

  /** From arming up to the next restore, with foreign register changes allowed: hits
      and completed steps alternate, starting with a hit, and a one-shot request takes
      at most one hit. */
  lemma {:induction false} HitsAndStepsAlternate(machines: seq<Machine>, calls: seq<Call>)
    requires Run(machines, calls) && machines[0].state.phase == Armed
    requires forall i :: 0 <= i < |calls| ==> !(calls[i].Restore? && calls[i].code == Done)
    ensures Paced(machines[0].state, machines[|calls|], Hits(calls), Steps(calls))
    ensures Steps(calls) <= Hits(calls) <= Steps(calls) + 1
    ensures machines[0].state.request.mode == Once ==> Hits(calls) <= 1 && Steps(calls) == 0
  {
    var n := |calls|;
    if n > 0 {
      hide StateInv, Transition;
      HitsAndStepsAlternate(machines[..n], calls[..n - 1]);
      RunKeeps(machines[..n], calls[..n - 1]);
      assert Transition(machines[n - 1], calls[n - 1], machines[n]);
      PacedStep(machines[0].state, machines[n - 1], Hits(calls[..n - 1]), Steps(calls[..n - 1]),
                calls[n - 1], machines[n]);
    }
  }
}
