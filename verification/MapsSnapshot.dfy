/** The maps snapshot of kpm/core/maps.c with any number of threads interleaved.

    A writer flag and a reader count guard the snapshot: a writer raises the flag and
    waits for the count to reach zero, a reader raises the count and backs out if the
    flag is up.  Each step is one access to shared memory or one backend call; the
    snapshot's fields are stored and loaded one at a time.  For every rendered buffer
    and every retained task a `Holding` records who has to release it and how often it
    has been released. */
module MapsSnapshot {
  import opened Common
  import opened Crc32

  datatype Phase = Vacant | TaskCaptured | ReadyToRead

  datatype Code = Fine | Inval | Busy | StaleErr | RangeErr | TooBig | Unclean | BackendErr

  /** Buffers and retained tasks are named by their place in `buffers` and `retains`. */
  datatype Maps = Maps(
    task: Option<nat>, generation: nat, data: Option<nat>, length: nat, crc: Word, snapshot: nat, phase: Phase)

  datatype Store =
    | SetTask(retain: Option<nat>) | SetGeneration(generation: nat) | SetData(buffer: Option<nat>)
    | SetLength(length: nat) | SetCrc(crc: Word) | SetSnapshot(snapshot: nat) | SetPhase(phase: Phase)

  function Put(m: Maps, s: Store): Maps {
    match s
    case SetTask(r) => m.(task := r)
    case SetGeneration(g) => m.(generation := g)
    case SetData(b) => m.(data := b)
    case SetLength(n) => m.(length := n)
    case SetCrc(c) => m.(crc := c)
    case SetSnapshot(k) => m.(snapshot := k)
    case SetPhase(p) => m.(phase := p)
  }

  function PutAll(m: Maps, todo: seq<Store>): Maps
    decreases |todo|
  {
    if todo == [] then m else PutAll(Put(m, todo[0]), todo[1..])
  }

  /** A writing call, with what the backend will answer; `claimed` is the length it reports
      when it hands back no buffer. */
  datatype WriteOp =
    | Capture(task: nat, generation: nat, retains: bool)
    | Snapshot(generation: nat, id: nat, renders: bool, bytes: Option<seq<Byte>>, claimed: nat)
    | Clear

  /** What a successful spz_maps_read_begin hands out. */
  datatype Chunk = Chunk(buffer: nat, snapshot: nat, offset: nat, total: nat, length: nat, crc: Word, eof: bool)

  datatype Thread =
    | Idle
    | Flagging(op: WriteOp)                       // about to raise the writer flag
    | Waiting(op: WriteOp)                        // flag raised, waiting for readers to leave
    | Alone(op: WriteOp)                          // no reader is left
    | Storing(todo: seq<Store>, buffer: Option<nat>, retain: Option<nat>, code: Code)
    | Releasing(buffer: Option<nat>, retain: Option<nat>, code: Code)
    | Peeking(id: nat, offset: nat)               // reader: first look at the flag
    | Counting(id: nat, offset: nat)              // reader: about to raise the count
    | Rechecking(id: nat, offset: nat)            // reader: counted, second look at the flag
    | Gathering(id: nat, offset: nat, loads: nat, got: Maps)
    | Reading(chunk: Chunk)                       // between read_begin and read_end
    | Leaving(id: nat)                            // checks failed, about to lower the count
    | Explaining(id: nat)                         // count lowered, about to choose the error code
    | BackingOut                                  // about to lower the count, flag was up
    | Finished(code: Code)

  datatype Flag = Down | Up(holder: nat)

  datatype Owner = ByMaps | ByThread(thread: nat) | Nobody

  datatype Holding = Holding(owner: Owner, releases: nat)

  /** A rendered buffer and the snapshot call it was rendered for. */
  datatype Rendered = Rendered(bytes: seq<Byte>, id: nat)

  datatype Limits = Limits(snapshot: nat, chunk: nat)

  datatype State = State(
    maps: Maps, flag: Flag, readers: int, threads: seq<Thread>,
    buffers: seq<Rendered>, bufferHeld: seq<Holding>,
    retains: seq<nat>, retainHeld: seq<Holding>)

  // ---------------------------------------------------------------------------
  // Steps
  // ---------------------------------------------------------------------------

  datatype Choice = Write(op: WriteOp) | Read(id: nat, offset: nat) | TimeOut | Proceed

  function Become(s: State, t: nat, next: Thread): State
    requires t < |s.threads|
  {
    s.(threads := s.threads[t := next])
  }

  function Begin(c: Choice): Thread {
    match c
    case Write(op) =>
      if (op.Capture? && op.generation == 0) || (op.Snapshot? && (op.generation == 0 || op.id == 0))
      then Finished(Inval) else Flagging(op)
    case Read(id, offset) => if id == 0 then Finished(Inval) else Peeking(id, offset)
    case _ => Idle
  }

  /** The body of a write section up to its stores. */
  function Decide(s: State, t: nat, op: WriteOp, limits: Limits): State
    requires t < |s.threads|
  {
    var m := s.maps;
    match op
    case Capture(task, g, retains) =>
      if m.task.Some? then
        var same := m.task.value < |s.retains| && s.retains[m.task.value] == task && m.generation == g;
        Become(s, t, Storing([], None, None, if same then Fine else Busy))
      else if !retains then Become(s, t, Storing([], None, None, BackendErr))
      else
        var r := |s.retains|;
        Become(s, t, Storing([SetTask(Some(r)), SetGeneration(g), SetPhase(TaskCaptured)], None, None, Fine))
        .(retains := s.retains + [task], retainHeld := s.retainHeld + [Holding(ByMaps, 0)])
    case Snapshot(g, id, renders, bytes, claimed) =>
      if m.task.None? || m.generation != g then Become(s, t, Storing([], None, None, StaleErr))
      else if bytes.None? then
        var code := if !renders then BackendErr else if claimed > limits.snapshot then TooBig else Unclean;
        Become(s, t, Storing([], None, None, code))
      else
        var b, n := |s.buffers|, |bytes.value|;
        var s' := s.(buffers := s.buffers + [Rendered(bytes.value, id)]);
        if !renders || n == 0 || n > limits.snapshot then
          var code := if !renders then BackendErr else if n > limits.snapshot then TooBig else Unclean;
          Become(s', t, Storing([], Some(b), None, code)).(bufferHeld := s.bufferHeld + [Holding(ByThread(t), 0)])
        else
          var todo := [SetData(Some(b)), SetLength(n), SetCrc(Checksum(bytes.value)), SetSnapshot(id),
                       SetPhase(ReadyToRead)];
          Become(s', t, Storing(todo, m.data, None, Fine))
          .(bufferHeld := Transfer(s.bufferHeld, m.data, t) + [Holding(ByMaps, 0)])
    case Clear =>
      var todo := [SetTask(None), SetData(None), SetGeneration(0), SetSnapshot(0), SetLength(0), SetCrc(Zeros(32)),
                   SetPhase(Vacant)];
      Become(s, t, Storing(todo, m.data, m.task, Fine))
      .(bufferHeld := Transfer(s.bufferHeld, m.data, t), retainHeld := Transfer(s.retainHeld, m.task, t))
  }

  /** The thread takes over the duty to release `x`. */
  function Transfer(held: seq<Holding>, x: Option<nat>, t: nat): seq<Holding> {
    if x.Some? && x.value < |held| then held[x.value := held[x.value].(owner := ByThread(t))] else held
  }

  function Release(held: seq<Holding>, x: nat): seq<Holding> {
    if x < |held| then held[x := Holding(Nobody, held[x].releases + 1)] else held
  }

  /** Field number `n` of the five that read_begin looks at. */
  function Load(got: Maps, m: Maps, n: nat): Maps {
    if n == 0 then got.(phase := m.phase)
    else if n == 1 then got.(snapshot := m.snapshot)
    else if n == 2 then got.(data := m.data)
    else if n == 3 then got.(length := m.length)
    else got.(crc := m.crc)
  }

  /** The end of read_begin, on the fields it loaded. */
  function Serve(id: nat, offset: nat, got: Maps, limits: Limits): Thread {
    if got.phase != ReadyToRead || got.snapshot != id || got.data.None? || offset >= got.length then
      Leaving(id)
    else
      var remaining := got.length - offset;
      var length := if remaining < limits.chunk then remaining else limits.chunk;
      Reading(Chunk(got.data.value, got.snapshot, offset, got.length, length, got.crc, length == remaining))
  }

  predicate Writing(th: Thread) {
    th.Flagging? || th.Waiting? || th.Alone? || th.Storing? || th.Releasing?
  }

  function WriterStep(s: State, t: nat, choice: Choice, limits: Limits): State
    requires t < |s.threads| && Writing(s.threads[t])
  {
    match s.threads[t]
    case Flagging(op) =>
      if s.flag.Up? then Become(s, t, Finished(Busy)) else Become(s, t, Waiting(op)).(flag := Up(t))
    case Waiting(op) =>
      if s.readers == 0 then Become(s, t, Alone(op))
      else if choice.TimeOut? then Become(s, t, Finished(Busy)).(flag := Down)
      else s
    case Alone(op) => Decide(s, t, op, limits)
    case Storing(todo, buffer, retain, code) =>
      if todo != [] then Become(s, t, Storing(todo[1..], buffer, retain, code)).(maps := Put(s.maps, todo[0]))
      else Become(s, t, Releasing(buffer, retain, code)).(flag := Down)
    case Releasing(buffer, retain, code) =>
      if buffer.Some? then
        Become(s, t, Releasing(None, retain, code)).(bufferHeld := Release(s.bufferHeld, buffer.value))
      else if retain.Some? then
        Become(s, t, Releasing(None, None, code)).(retainHeld := Release(s.retainHeld, retain.value))
      else Become(s, t, Finished(code))
  }

  function ReaderStep(s: State, t: nat, choice: Choice, limits: Limits): State
    requires t < |s.threads| && !Writing(s.threads[t])
  {
    match s.threads[t]
    case Idle => Become(s, t, Begin(choice))
    case Finished(_) => Become(s, t, Idle)
    case Peeking(id, offset) =>
      Become(s, t, if s.flag.Up? then Finished(Busy) else Counting(id, offset))
    case Counting(id, offset) => Become(s, t, Rechecking(id, offset)).(readers := s.readers + 1)
    case Rechecking(id, offset) =>
      Become(s, t, if s.flag.Up? then BackingOut else Gathering(id, offset, 0, Blank()))
    case Gathering(id, offset, loads, got) =>
      if loads < 5 then Become(s, t, Gathering(id, offset, loads + 1, Load(got, s.maps, loads)))
      else Become(s, t, Serve(id, offset, got, limits))
    case Reading(chunk) => Become(s, t, Finished(Fine)).(readers := s.readers - 1)
    case Leaving(id) => Become(s, t, Explaining(id)).(readers := s.readers - 1)
    case Explaining(id) => Become(s, t, Finished(if s.maps.snapshot != id then StaleErr else RangeErr))
    case BackingOut => Become(s, t, Finished(Busy)).(readers := s.readers - 1)
  }

  /** One step of thread `t`. */
  function Advance(s: State, t: nat, choice: Choice, limits: Limits): State
    requires t < |s.threads|
  {
    if Writing(s.threads[t]) then WriterStep(s, t, choice, limits) else ReaderStep(s, t, choice, limits)
  }

  function Blank(): Maps {
    Maps(None, 0, None, 0, Zeros(32), 0, Vacant)
  }

  function Start(threads: nat): State {
    State(Blank(), Down, 0, seq(threads, i => Idle), [], [], [], [])
  }

  // ---------------------------------------------------------------------------
  // Who has to release what
  // ---------------------------------------------------------------------------

  function BufferDue(th: Thread): Option<nat> {
    if th.Storing? || th.Releasing? then th.buffer else None
  }

  function RetainDue(th: Thread): Option<nat> {
    if th.Storing? || th.Releasing? then th.retain else None
  }

  function BuffersDue(threads: seq<Thread>): seq<Option<nat>> {
    seq(|threads|, i requires 0 <= i < |threads| => BufferDue(threads[i]))
  }

  function RetainsDue(threads: seq<Thread>): seq<Option<nat>> {
    seq(|threads|, i requires 0 <= i < |threads| => RetainDue(threads[i]))
  }

  /** Exactly one party has to release `x`, or it has been released exactly once. */
  predicate OneHolder(h: Holding, x: nat, inMaps: Option<nat>, due: seq<Option<nat>>) {
    && (h.owner == ByMaps <==> inMaps == Some(x))
    && (h.owner.ByThread? ==> h.owner.thread < |due|)
    && (forall t :: 0 <= t < |due| ==> (h.owner == ByThread(t) <==> due[t] == Some(x)))
    && h.releases == (if h.owner == Nobody then 1 else 0)
  }

  predicate Custody(held: seq<Holding>, inMaps: Option<nat>, due: seq<Option<nat>>) {
    && (inMaps.Some? ==> inMaps.value < |held|)
    && (forall t :: 0 <= t < |due| && due[t].Some? ==> due[t].value < |held|)
    && (forall x :: 0 <= x < |held| ==> OneHolder(held[x], x, inMaps, due))
  }

  lemma HandOver(held: seq<Holding>, inMaps: Option<nat>, due: seq<Option<nat>>, t: nat)
    requires Custody(held, inMaps, due) && t < |due| && due[t] == None
    ensures Custody(Transfer(held, inMaps, t), None, due[t := inMaps])
  {
  }

  lemma AddToMaps(held: seq<Holding>, due: seq<Option<nat>>)
    requires Custody(held, None, due)
    ensures Custody(held + [Holding(ByMaps, 0)], Some(|held|), due)
  {
  }

  lemma AddToThread(held: seq<Holding>, inMaps: Option<nat>, due: seq<Option<nat>>, t: nat)
    requires Custody(held, inMaps, due) && t < |due| && due[t] == None
    ensures Custody(held + [Holding(ByThread(t), 0)], inMaps, due[t := Some(|held|)])
  {
  }

  lemma GiveUp(held: seq<Holding>, inMaps: Option<nat>, due: seq<Option<nat>>, t: nat)
    requires Custody(held, inMaps, due) && t < |due| && due[t].Some?
    ensures Custody(Release(held, due[t].value), inMaps, due[t := None])
  {
    assert OneHolder(held[due[t].value], due[t].value, inMaps, due);
  }

  // ---------------------------------------------------------------------------
  // The invariant
  // ---------------------------------------------------------------------------

  /** The thread's share of the reader count is still to be taken back. */
  predicate Counted(th: Thread) {
    th.Rechecking? || th.Gathering? || th.Reading? || th.Leaving? || th.BackingOut?
  }

  /** A counted reader that saw the flag down, up to its read_end. */
  predicate Inside(th: Thread) {
    th.Gathering? || th.Reading? || th.Leaving?
  }

  predicate Flagged(th: Thread) {
    th.Waiting? || InSection(th)
  }

  /** A writer past its wait, up to its write_end. */
  predicate InSection(th: Thread) {
    th.Alone? || th.Storing?
  }

  function Count(threads: seq<Thread>): nat {
    if threads == [] then 0 else Count(threads[1..]) + if Counted(threads[0]) then 1 else 0
  }

  lemma {:induction false} CountUpdate(threads: seq<Thread>, t: nat, th: Thread)
    requires t < |threads|
    ensures Count(threads[t := th]) ==
            Count(threads) - (if Counted(threads[t]) then 1 else 0) + if Counted(th) then 1 else 0
    decreases |threads|
  {
    var updated := threads[t := th];
    if t == 0 {
      assert updated[1..] == threads[1..];
    } else {
      assert updated[1..] == threads[1..][t - 1 := th];
      CountUpdate(threads[1..], t - 1, th);
    }
  }

  lemma {:induction false} CountZero(threads: seq<Thread>, t: nat)
    requires Count(threads) == 0 && t < |threads|
    ensures !Counted(threads[t])
    decreases |threads|
  {
    if t > 0 {
      CountZero(threads[1..], t - 1);
    }
  }

  predicate Locked(s: State) {
    && s.readers == Count(s.threads)
    && (forall t :: 0 <= t < |s.threads| ==> (Flagged(s.threads[t]) <==> s.flag == Up(t)))
    && (s.flag.Up? ==> s.flag.holder < |s.threads|)
    && (forall t, r :: 0 <= t < |s.threads| && 0 <= r < |s.threads| && InSection(s.threads[t]) ==>
          !Inside(s.threads[r]))
  }

  /** What the fields will be once the writer in its section, if any, has made its stores. */
  function Settled(s: State): Maps {
    if s.flag.Up? && s.flag.holder < |s.threads| && s.threads[s.flag.holder].Storing?
    then PutAll(s.maps, s.threads[s.flag.holder].todo) else s.maps
  }

  predicate Consistent(m: Maps, buffers: seq<Rendered>, limits: Limits) {
    && (m.phase == Vacant <==> m.task.None?)
    && (m.phase == ReadyToRead <==> m.data.Some?)
    && (m.data.Some? ==>
          && m.data.value < |buffers|
          && 0 < m.length == |buffers[m.data.value].bytes| <= limits.snapshot
          && m.crc == Checksum(buffers[m.data.value].bytes)
          && m.snapshot == buffers[m.data.value].id)
  }

  predicate Gathered(loads: nat, got: Maps, m: Maps) {
    && loads <= 5
    && (loads > 0 ==> got.phase == m.phase)
    && (loads > 1 ==> got.snapshot == m.snapshot)
    && (loads > 2 ==> got.data == m.data)
    && (loads > 3 ==> got.length == m.length)
    && (loads > 4 ==> got.crc == m.crc)
  }

  /** The chunk describes part of the snapshot the fields hold now. */
  predicate Describes(chunk: Chunk, m: Maps, limits: Limits) {
    && m.phase == ReadyToRead
    && m.data == Some(chunk.buffer)
    && chunk.snapshot == m.snapshot
    && chunk.total == m.length
    && chunk.crc == m.crc
    && chunk.offset < chunk.total
    && chunk.offset + chunk.length <= chunk.total
    && (chunk.eof <==> chunk.offset + chunk.length == chunk.total)
    && (chunk.eof || chunk.length == limits.chunk)
    && chunk.length <= limits.chunk
  }

  predicate ReaderSees(th: Thread, m: Maps, limits: Limits) {
    match th
    case Gathering(_, _, loads, got) => Gathered(loads, got, m)
    case Reading(chunk) => Describes(chunk, m, limits)
    case _ => true
  }

  predicate ReadersSee(s: State, limits: Limits) {
    forall t :: 0 <= t < |s.threads| ==> ReaderSees(s.threads[t], s.maps, limits)
  }

  predicate Held(s: State) {
    && |s.bufferHeld| == |s.buffers|
    && |s.retainHeld| == |s.retains|
    && Custody(s.bufferHeld, Settled(s).data, BuffersDue(s.threads))
    && Custody(s.retainHeld, Settled(s).task, RetainsDue(s.threads))
  }

  predicate Inv(s: State, limits: Limits) {
    Locked(s) && ReadersSee(s, limits) && Consistent(Settled(s), s.buffers, limits) && Held(s)
  }

  lemma StartInv(n: nat, limits: Limits)
    ensures Inv(Start(n), limits)
  {
    AllIdle(n);
  }

  lemma {:induction false} AllIdle(n: nat)
    ensures Count(seq(n, i => Idle)) == 0
  {
    if n > 0 {
      assert seq(n, i => Idle)[1..] == seq(n - 1, i => Idle);
      AllIdle(n - 1);
    }
  }

  // ---------------------------------------------------------------------------
  // Every step keeps it
  // ---------------------------------------------------------------------------

  lemma DecideStores(s: State, t: nat, op: WriteOp, limits: Limits)
    requires t < |s.threads|
    ensures var s' := Decide(s, t, op, limits);
            && |s'.threads| == |s.threads|
            && s'.threads[t].Storing?
            && s' == s.(threads := s.threads[t := s'.threads[t]], buffers := s'.buffers, retains := s'.retains,
                        bufferHeld := s'.bufferHeld, retainHeld := s'.retainHeld)
  {
    hide Checksum, Transfer;
  }

  /** What a step does to the lock words: a writer raises the flag only when it is down and
      enters only when no reader is counted, a reader gets inside only when the flag is down. */
  predicate LockMove(s: State, s': State, t: nat)
    requires t < |s.threads|
  {
    && |s'.threads| == |s.threads|
    && var th, th' := s.threads[t], s'.threads[t];
    && s'.threads == s.threads[t := th']
    && s'.readers == s.readers - (if Counted(th) then 1 else 0) + (if Counted(th') then 1 else 0)
    && (if Flagged(th) == Flagged(th') then s'.flag == s.flag
        else if Flagged(th') then s.flag == Down && s'.flag == Up(t) && !InSection(th')
        else s'.flag == Down)
    && (Inside(th') && !Inside(th) ==> s.flag == Down && Counted(th))
    && (InSection(th') && !InSection(th) ==> s.readers == 0)
  }

  lemma WriterMoves(s: State, t: nat, choice: Choice, limits: Limits)
    requires t < |s.threads| && Writing(s.threads[t])
    ensures var s' := WriterStep(s, t, choice, limits);
            && LockMove(s, s', t)
            && (Writing(s'.threads[t]) || s'.threads[t].Finished?)
  {
    hide Put, Release, Decide;
    if s.threads[t].Alone? {
      DecideStores(s, t, s.threads[t].op, limits);
    }
  }

  lemma ReaderMoves(s: State, t: nat, choice: Choice, limits: Limits)
    requires t < |s.threads| && !Writing(s.threads[t])
    ensures var s' := ReaderStep(s, t, choice, limits);
            && LockMove(s, s', t)
            && s' == s.(threads := s'.threads, readers := s'.readers, flag := s'.flag)
            && (!Writing(s'.threads[t]) || s'.threads[t].Flagging?)
  {
    hide Load;
  }

  lemma StepMoves(s: State, t: nat, choice: Choice, limits: Limits)
    requires t < |s.threads|
    ensures LockMove(s, Advance(s, t, choice, limits), t)
  {
    hide WriterStep, ReaderStep, LockMove;
    if Writing(s.threads[t]) {
      WriterMoves(s, t, choice, limits);
    } else {
      ReaderMoves(s, t, choice, limits);
    }
  }

  lemma LockKeeps(s: State, s': State, t: nat)
    requires Locked(s) && t < |s.threads| && LockMove(s, s', t)
    ensures Locked(s')
  {
    hide Count;
    CountUpdate(s.threads, t, s'.threads[t]);
    if s.readers == 0 {
      forall r | 0 <= r < |s.threads| ensures !Counted(s.threads[r]) {
        CountZero(s.threads, r);
      }
    }
  }

  /** The fields change only at the hands of a writer in its section. */
  lemma FieldsKeep(s: State, t: nat, choice: Choice, limits: Limits)
    requires t < |s.threads|
    ensures Advance(s, t, choice, limits).maps != s.maps ==> InSection(s.threads[t])
  {
    hide Checksum, Put, Load, Transfer, Release, Decide;
  }

  lemma ReadersKeep(s: State, t: nat, choice: Choice, limits: Limits)
    requires Locked(s) && ReadersSee(s, limits) && t < |s.threads|
    ensures ReadersSee(Advance(s, t, choice, limits), limits)
  {
    var s' := Advance(s, t, choice, limits);
    FieldsKeep(s, t, choice, limits);
    StepMoves(s, t, choice, limits);
    assert ReaderSees(s.threads[t], s.maps, limits);
    OwnReaderKeeps(s, t, choice, limits);
    hide WriterStep, ReaderStep, Count;
    forall r | 0 <= r < |s.threads| && r != t ensures ReaderSees(s'.threads[r], s'.maps, limits) {
      assert s'.threads[r] == s.threads[r];
      assert ReaderSees(s.threads[r], s.maps, limits);
    }
  }

  lemma OwnReaderKeeps(s: State, t: nat, choice: Choice, limits: Limits)
    requires t < |s.threads| && ReaderSees(s.threads[t], s.maps, limits)
    ensures var s' := Advance(s, t, choice, limits);
            t < |s'.threads| && ReaderSees(s'.threads[t], s'.maps, limits)
  {
    hide Count, WriterStep;
    if Writing(s.threads[t]) {
      WriterMoves(s, t, choice, limits);
    }
  }

  // ---------------------------------------------------------------------------
  // Fields and holdings
  // ---------------------------------------------------------------------------

  /** Only the decision at the start of a section changes where the fields are heading. */
  lemma SettledKeeps(s: State, t: nat, choice: Choice, limits: Limits)
    requires Locked(s) && t < |s.threads| && !s.threads[t].Alone?
    ensures Settled(Advance(s, t, choice, limits)) == Settled(s)
  {
    hide Put, Release, Decide, Count, ReaderStep;
    if Writing(s.threads[t]) {
    } else {
      ReaderMoves(s, t, choice, limits);
    }
  }

  lemma DueUpdate(threads: seq<Thread>, t: nat, th: Thread)
    requires t < |threads|
    ensures BuffersDue(threads[t := th]) == BuffersDue(threads)[t := BufferDue(th)]
    ensures RetainsDue(threads[t := th]) == RetainsDue(threads)[t := RetainDue(th)]
  {
  }

  lemma HoldingsKeep(s: State, t: nat, choice: Choice, limits: Limits)
    requires Locked(s) && Held(s) && t < |s.threads| && !s.threads[t].Alone?
    ensures Held(Advance(s, t, choice, limits))
  {
    var s' := Advance(s, t, choice, limits);
    SettledKeeps(s, t, choice, limits);
    StepMoves(s, t, choice, limits);
    DueUpdate(s.threads, t, s'.threads[t]);
    OwnHoldingsKeep(s, t, choice, limits);
    hide Settled, Custody, WriterStep, ReaderStep;
    var th := s.threads[t];
    if th.Releasing? && th.buffer.Some? {
      GiveUp(s.bufferHeld, Settled(s).data, BuffersDue(s.threads), t);
      assert RetainsDue(s'.threads) == RetainsDue(s.threads);
    } else if th.Releasing? && th.retain.Some? {
      GiveUp(s.retainHeld, Settled(s).task, RetainsDue(s.threads), t);
      assert BuffersDue(s'.threads) == BuffersDue(s.threads);
    } else {
      assert BuffersDue(s'.threads) == BuffersDue(s.threads);
      assert RetainsDue(s'.threads) == RetainsDue(s.threads);
    }
  }

  lemma OwnHoldingsKeep(s: State, t: nat, choice: Choice, limits: Limits)
    requires t < |s.threads| && !s.threads[t].Alone?
    ensures var s' := Advance(s, t, choice, limits);
            var th := s.threads[t];
            && t < |s'.threads|
            && s'.buffers == s.buffers && s'.retains == s.retains
            && (if th.Releasing? && th.buffer.Some?
                then && BufferDue(s'.threads[t]) == None && s'.bufferHeld == Release(s.bufferHeld, th.buffer.value)
                     && RetainDue(s'.threads[t]) == RetainDue(th) && s'.retainHeld == s.retainHeld
                else && BufferDue(s'.threads[t]) == BufferDue(th) && s'.bufferHeld == s.bufferHeld
                     && (if th.Releasing? && th.retain.Some?
                         then && RetainDue(s'.threads[t]) == None
                              && s'.retainHeld == Release(s.retainHeld, th.retain.value)
                         else && RetainDue(s'.threads[t]) == RetainDue(th) && s'.retainHeld == s.retainHeld))
  {
    hide Put, Release, Decide, ReaderStep;
    if !Writing(s.threads[t]) {
      ReaderMoves(s, t, choice, limits);
    }
  }

  lemma PutFirst(m: Maps, first: Store, rest: seq<Store>, todo: seq<Store>)
    requires todo == [first] + rest
    ensures PutAll(m, todo) == PutAll(Put(m, first), rest)
  {
    assert todo[1..] == rest;
  }

  lemma CaptureStores(m: Maps, r: nat, g: nat)
    ensures PutAll(m, [SetTask(Some(r)), SetGeneration(g), SetPhase(TaskCaptured)])
         == m.(task := Some(r), generation := g, phase := TaskCaptured)
  {
    var todo := [SetTask(Some(r)), SetGeneration(g), SetPhase(TaskCaptured)];
    PutFirst(m, todo[0], todo[1..], todo);
    PutFirst(m.(task := Some(r)), todo[1], todo[2..], todo[1..]);
  }

  lemma SnapshotStores(m: Maps, b: nat, n: nat, crc: Word, id: nat)
    ensures PutAll(m, [SetData(Some(b)), SetLength(n), SetCrc(crc), SetSnapshot(id), SetPhase(ReadyToRead)])
         == m.(data := Some(b), length := n, crc := crc, snapshot := id, phase := ReadyToRead)
  {
    var todo := [SetData(Some(b)), SetLength(n), SetCrc(crc), SetSnapshot(id), SetPhase(ReadyToRead)];
    PutFirst(m, todo[0], todo[1..], todo);
    PutFirst(m.(data := Some(b)), todo[1], todo[2..], todo[1..]);
    PutFirst(m.(data := Some(b), length := n), todo[2], todo[3..], todo[2..]);
    PutFirst(m.(data := Some(b), length := n, crc := crc), todo[3], todo[4..], todo[3..]);
  }

  lemma ClearStores(m: Maps)
    ensures PutAll(m, [SetTask(None), SetData(None), SetGeneration(0), SetSnapshot(0), SetLength(0),
                       SetCrc(Zeros(32)), SetPhase(Vacant)]) == Blank()
  {
    var todo := [SetTask(None), SetData(None), SetGeneration(0), SetSnapshot(0), SetLength(0),
                 SetCrc(Zeros(32)), SetPhase(Vacant)];
    var m1 := m.(task := None, data := None);
    var m2 := m1.(generation := 0, snapshot := 0);
    PutFirst(m, todo[0], todo[1..], todo);
    PutFirst(m.(task := None), todo[1], todo[2..], todo[1..]);
    PutFirst(m1, todo[2], todo[3..], todo[2..]);
    PutFirst(m1.(generation := 0), todo[3], todo[4..], todo[3..]);
    PutFirst(m2, todo[4], todo[5..], todo[4..]);
    PutFirst(m2.(length := 0), todo[5], todo[6..], todo[5..]);
  }

  /** Where a decision leaves the fields, the buffers and the holdings. */
  predicate Decided(s: State, s': State, t: nat, limits: Limits)
    requires t < |s.threads|
  {
    && |s'.threads| == |s.threads|
    && s'.threads[t].Storing?
    && var m := PutAll(s.maps, s'.threads[t].todo);
    && Consistent(m, s'.buffers, limits)
    && |s'.bufferHeld| == |s'.buffers|
    && |s'.retainHeld| == |s'.retains|
    && Custody(s'.bufferHeld, m.data, BuffersDue(s.threads)[t := s'.threads[t].buffer])
    && Custody(s'.retainHeld, m.task, RetainsDue(s.threads)[t := s'.threads[t].retain])
  }

  lemma CaptureDecides(s: State, t: nat, op: WriteOp, limits: Limits)
    requires Inv(s, limits) && t < |s.threads| && s.threads[t] == Alone(op) && op.Capture?
    ensures Decided(s, Decide(s, t, op, limits), t, limits)
  {
    DecideStores(s, t, op, limits);
    assert s.flag == Up(t);
    CaptureStores(s.maps, |s.retains|, op.generation);
    var buffers, retains := BuffersDue(s.threads), RetainsDue(s.threads);
    assert buffers[t := None] == buffers && retains[t := None] == retains;
    if s.maps.task.None? {
      AddToMaps(s.retainHeld, retains);
    }
    hide Checksum, Custody, OneHolder, Locked, ReadersSee, Transfer, BuffersDue, RetainsDue;
  }

  lemma SnapshotDecides(s: State, t: nat, op: WriteOp, limits: Limits)
    requires Inv(s, limits) && t < |s.threads| && s.threads[t] == Alone(op) && op.Snapshot?
    ensures Decided(s, Decide(s, t, op, limits), t, limits)
  {
    DecideStores(s, t, op, limits);
    assert s.flag == Up(t);
    var buffers, retains := BuffersDue(s.threads), RetainsDue(s.threads);
    assert buffers[t := None] == buffers && retains[t := None] == retains;
    hide Checksum, Custody, OneHolder, Locked, ReadersSee, Transfer, BuffersDue, RetainsDue;
    if s.maps.task.Some? && s.maps.generation == op.generation && op.bytes.Some? {
      var bytes := op.bytes.value;
      if op.renders && 0 < |bytes| <= limits.snapshot {
        SnapshotStores(s.maps, |s.buffers|, |bytes|, Checksum(bytes), op.id);
        HandOver(s.bufferHeld, s.maps.data, buffers, t);
        TransferLength(s.bufferHeld, s.maps.data, t);
        AddToMaps(Transfer(s.bufferHeld, s.maps.data, t), buffers[t := s.maps.data]);
      } else {
        AddToThread(s.bufferHeld, s.maps.data, buffers, t);
      }
    }
  }

  lemma ClearDecides(s: State, t: nat, limits: Limits)
    requires Inv(s, limits) && t < |s.threads| && s.threads[t] == Alone(Clear)
    ensures Decided(s, Decide(s, t, Clear, limits), t, limits)
  {
    DecideStores(s, t, Clear, limits);
    assert s.flag == Up(t);
    var buffers, retains := BuffersDue(s.threads), RetainsDue(s.threads);
    assert buffers[t] == None && retains[t] == None;
    hide Checksum, Custody, OneHolder, Locked, ReadersSee, Transfer, BuffersDue, RetainsDue;
    ClearStores(s.maps);
    HandOver(s.bufferHeld, s.maps.data, buffers, t);
    HandOver(s.retainHeld, s.maps.task, retains, t);
    TransferLength(s.bufferHeld, s.maps.data, t);
    TransferLength(s.retainHeld, s.maps.task, t);
  }

  lemma TransferLength(held: seq<Holding>, x: Option<nat>, t: nat)
    ensures |Transfer(held, x, t)| == |held|
  {
  }

  lemma AloneKeeps(s: State, t: nat, choice: Choice, limits: Limits)
    requires Inv(s, limits) && t < |s.threads| && s.threads[t].Alone?
    ensures var s' := Advance(s, t, choice, limits);
            Consistent(Settled(s'), s'.buffers, limits) && Held(s')
  {
    var op := s.threads[t].op;
    var s' := Advance(s, t, choice, limits);
    assert s.flag == Up(t);
    DecideStores(s, t, op, limits);
    DueUpdate(s.threads, t, s'.threads[t]);
    match op {
      case Capture(_, _, _) => CaptureDecides(s, t, op, limits);
      case Snapshot(_, _, _, _, _) => SnapshotDecides(s, t, op, limits);
      case Clear => ClearDecides(s, t, limits);
    }
    hide Decide, Custody, Consistent, Inv, PutAll, BuffersDue, RetainsDue;
  }

  lemma AdvanceKeeps(s: State, t: nat, choice: Choice, limits: Limits)
    requires Inv(s, limits) && t < |s.threads|
    ensures Inv(Advance(s, t, choice, limits), limits)
    ensures |Advance(s, t, choice, limits).threads| == |s.threads|
  {
    hide Locked, ReadersSee, Consistent, Held, Settled, WriterStep, ReaderStep;
    var s' := Advance(s, t, choice, limits);
    StepMoves(s, t, choice, limits);
    LockKeeps(s, s', t);
    ReadersKeep(s, t, choice, limits);
    if s.threads[t].Alone? {
      AloneKeeps(s, t, choice, limits);
    } else {
      SettledKeeps(s, t, choice, limits);
      HoldingsKeep(s, t, choice, limits);
      OwnHoldingsKeep(s, t, choice, limits);
    }
  }

  // ---------------------------------------------------------------------------
  // Every run
  // ---------------------------------------------------------------------------

  datatype Action = Action(thread: nat, choice: Choice)

  ghost predicate Run(states: seq<State>, actions: seq<Action>, limits: Limits) {
    && |states| == |actions| + 1 && states[0] == Start(|states[0].threads|)
    && forall i :: 0 <= i < |actions| ==>
         && actions[i].thread < |states[i].threads|
         && states[i + 1] == Advance(states[i], actions[i].thread, actions[i].choice, limits)
  }

  lemma {:induction false} RunInv(states: seq<State>, actions: seq<Action>, limits: Limits)
    requires Run(states, actions, limits)
    ensures Inv(states[|actions|], limits)
  {
    hide Inv, Advance;
    var n := |actions|;
    if n == 0 {
      StartInv(|states[0].threads|, limits);
    } else {
      RunInv(states[..n], actions[..n - 1], limits);
      AdvanceKeeps(states[n - 1], actions[n - 1].thread, actions[n - 1].choice, limits);
    }
  }

  /** While a reader is between read_begin and read_end, no writer is in its section, the
      buffer it was given has not been released and is the snapshot's, and the total, the
      checksum and the snapshot number it was given are those of one snapshot call. */
  lemma ReadersProtected(states: seq<State>, actions: seq<Action>, limits: Limits, t: nat)
    requires Run(states, actions, limits)
    requires t < |states[|actions|].threads| && states[|actions|].threads[t].Reading?
    ensures var s := states[|actions|];
            var chunk := s.threads[t].chunk;
            && (forall u :: 0 <= u < |s.threads| ==> !InSection(s.threads[u]))
            && chunk.buffer < |s.buffers|
            && |s.bufferHeld| == |s.buffers|
            && s.maps.data == Some(chunk.buffer)
            && s.bufferHeld[chunk.buffer] == Holding(ByMaps, 0)
            && var rendered := s.buffers[chunk.buffer];
            && chunk.snapshot == rendered.id
            && chunk.total == |rendered.bytes| <= limits.snapshot
            && chunk.crc == Checksum(rendered.bytes)
            && chunk.offset + chunk.length <= chunk.total
            && (chunk.eof <==> chunk.offset + chunk.length == chunk.total)
            && chunk.length <= limits.chunk
            && (chunk.length == limits.chunk || chunk.eof)
  {
    hide Count, PutAll, BuffersDue, RetainsDue;
    RunInv(states, actions, limits);
    var s := states[|actions|];
    assert ReaderSees(s.threads[t], s.maps, limits);
    assert !(s.flag.Up? && s.threads[s.flag.holder].Storing?);
    assert OneHolder(s.bufferHeld[s.threads[t].chunk.buffer], s.threads[t].chunk.buffer,
                     s.maps.data, BuffersDue(s.threads));
  }

  /** Rendered bytes never change: later states only add buffers. */
  lemma {:induction false} SnapshotsStay(states: seq<State>, actions: seq<Action>, limits: Limits, i: nat, j: nat)
    requires Run(states, actions, limits) && i <= j <= |actions|
    ensures states[i].buffers <= states[j].buffers
    decreases j
  {
    if i < j {
      SnapshotsStay(states, actions, limits, i, j - 1);
      var s, a := states[j - 1], actions[j - 1];
      if s.threads[a.thread].Alone? {
        hide Checksum, Transfer;
        assert s.buffers <= Decide(s, a.thread, s.threads[a.thread].op, limits).buffers;
      } else {
        OwnHoldingsKeep(s, a.thread, a.choice, limits);
      }
    }
  }

  /** Sections exclude each other. */
  lemma WritersExclude(states: seq<State>, actions: seq<Action>, limits: Limits, t: nat, u: nat)
    requires Run(states, actions, limits)
    requires t < |states[|actions|].threads| && u < |states[|actions|].threads|
    requires InSection(states[|actions|].threads[t]) && InSection(states[|actions|].threads[u])
    ensures t == u
  {
    hide Count;
    RunInv(states, actions, limits);
  }

  predicate Quiet(s: State) {
    forall t :: 0 <= t < |s.threads| ==> s.threads[t].Idle? || s.threads[t].Finished?
  }

  /** No buffer and no task is ever released twice, and with every call returned the only
      things not yet released are the ones the snapshot still holds. */
  lemma ReleasedOnce(states: seq<State>, actions: seq<Action>, limits: Limits)
    requires Run(states, actions, limits)
    ensures var s := states[|actions|];
            && |s.bufferHeld| == |s.buffers| && |s.retainHeld| == |s.retains|
            && (forall b :: 0 <= b < |s.buffers| ==> s.bufferHeld[b].releases <= 1)
            && (forall r :: 0 <= r < |s.retains| ==> s.retainHeld[r].releases <= 1)
            && (Quiet(s) ==>
                  && (forall b :: 0 <= b < |s.buffers| ==>
                        (s.bufferHeld[b].releases == 0 <==> s.maps.data == Some(b)))
                  && (forall r :: 0 <= r < |s.retains| ==>
                        (s.retainHeld[r].releases == 0 <==> s.maps.task == Some(r))))
  {
    hide Count, PutAll, Consistent, ReadersSee;
    RunInv(states, actions, limits);
    var s := states[|actions|];
    forall b | 0 <= b < |s.buffers|
      ensures s.bufferHeld[b].releases <= 1
      ensures Quiet(s) ==> (s.bufferHeld[b].releases == 0 <==> s.maps.data == Some(b))
    {
      assert OneHolder(s.bufferHeld[b], b, Settled(s).data, BuffersDue(s.threads));
    }
    forall r | 0 <= r < |s.retains|
      ensures s.retainHeld[r].releases <= 1
      ensures Quiet(s) ==> (s.retainHeld[r].releases == 0 <==> s.maps.task == Some(r))
    {
      assert OneHolder(s.retainHeld[r], r, Settled(s).task, RetainsDue(s.threads));
    }
  }

  /** From a clear that got the section, with no later section, the fields are heading for blank. */
  lemma {:induction false} ClearedStays(
      states: seq<State>, actions: seq<Action>, limits: Limits, i: nat, j: nat)
    requires Run(states, actions, limits) && i < j <= |actions|
    requires states[i].threads[actions[i].thread] == Alone(Clear)
    requires forall k :: i < k < j ==> !states[k].threads[actions[k].thread].Alone?
    ensures Settled(states[j]) == Blank()
    decreases j
  {
    hide Inv;
    var s, a := states[j - 1], actions[j - 1];
    RunInv(states[..j], actions[..j - 1], limits);
    InvLocked(s, limits);
    if i == j - 1 {
      DecideStores(s, a.thread, Clear, limits);
      ClearStores(s.maps);
      assert s.flag == Up(a.thread);
      hide PutAll, Count;
    } else {
      ClearedStays(states, actions, limits, i, j - 1);
      SettledKeeps(s, a.thread, a.choice, limits);
    }
  }

  lemma InvLocked(s: State, limits: Limits)
    requires Inv(s, limits)
    ensures Locked(s)
  {
  }

  /** After a clear, and no capture or snapshot since, every buffer ever rendered and every
      task ever retained has been released exactly once when all calls have returned. */
  lemma ClearReleasesAll(states: seq<State>, actions: seq<Action>, limits: Limits, i: nat)
    requires Run(states, actions, limits) && i < |actions|
    requires states[i].threads[actions[i].thread] == Alone(Clear)
    requires forall k :: i < k < |actions| ==> !states[k].threads[actions[k].thread].Alone?
    requires Quiet(states[|actions|])
    ensures var s := states[|actions|];
            && s.maps == Blank()
            && |s.bufferHeld| == |s.buffers| && |s.retainHeld| == |s.retains|
            && (forall b :: 0 <= b < |s.buffers| ==> s.bufferHeld[b].releases == 1)
            && (forall r :: 0 <= r < |s.retains| ==> s.retainHeld[r].releases == 1)
  {
    ClearedStays(states, actions, limits, i, |actions|);
    ReleasedOnce(states, actions, limits);
    hide Run, PutAll;
  }

  /** With no section entered, the fields are heading for the same values all along. */
  lemma {:induction false} SettledStays(
      states: seq<State>, actions: seq<Action>, limits: Limits, i: nat, j: nat)
    requires Run(states, actions, limits) && i <= j <= |actions|
    requires forall k :: i <= k < j ==> !states[k].threads[actions[k].thread].Alone?
    ensures Settled(states[j]) == Settled(states[i])
    decreases j
  {
    hide Inv, Advance, Settled;
    if i < j {
      SettledStays(states, actions, limits, i, j - 1);
      RunInv(states[..j], actions[..j - 1], limits);
      InvLocked(states[j - 1], limits);
      SettledKeeps(states[j - 1], actions[j - 1].thread, actions[j - 1].choice, limits);
    }
  }

  /** A reader between read_begin and read_end describes the fields as they are settled. */
  lemma ReaderDescribes(states: seq<State>, actions: seq<Action>, limits: Limits, t: nat)
    requires Run(states, actions, limits)
    requires t < |states[|actions|].threads| && states[|actions|].threads[t].Reading?
    ensures var s := states[|actions|];
            Describes(s.threads[t].chunk, Settled(s), limits) && Consistent(Settled(s), s.buffers, limits)
  {
    hide Count, PutAll, Custody, Consistent, Advance;
    RunInv(states, actions, limits);
    var s := states[|actions|];
    assert ReaderSees(s.threads[t], s.maps, limits);
    assert !(s.flag.Up? && s.threads[s.flag.holder].Storing?);
  }
}
