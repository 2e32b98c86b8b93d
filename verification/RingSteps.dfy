/** The event ring of kpm/core/ring.c with its calls interleaved.

    One producer per CPU runs spz_ring_push and one consumer runs
    spz_ring_pop_after.  Every step below performs at most one access to a word that
    another thread may write; words only the stepping thread writes (a producer's head,
    lost and loss_pending, the consumer's tail and cursor) may be read or written along
    with it.  An event is stored into its slot and copied out of it one word at a time.
    A run is any sequence of such steps, with any events pushed and any cursor
    acknowledged. */
module RingSteps {
  import opened Common
  import opened EventRing

  const EVENT_WORDS: nat := 54
  const BODY_WORDS: nat := 52

  type Words = seq<int>

  type Body = b: Words | |b| == BODY_WORDS witness seq(BODY_WORDS, i => 0)

  /** A sequence number handed out: who took it, the ring index it is meant for, what its
      publisher will store there, and whether that is a loss record of the ring's own. */
  datatype Record = Record(cpu: nat, index: nat, body: Body, announces: bool)

  /** The words of the event published under a sequence number. */
  function Content(r: Record, sequence: nat): (w: Words)
    ensures |w| == EVENT_WORDS
  {
    [r.cpu, sequence] + r.body
  }

  datatype Cell = Cell(commit: nat, words: Words)

  datatype Stage = Loss(pending: int) | Caller

  datatype Producer =
    | Idle
    | Opening(body: Body)                    // in spz_ring_push, free space not read yet
    | Counting(body: Body)                   // `lost` raised, `loss_pending` not yet
    | Checking(body: Body, stage: Stage)     // spz_publish: capacity test
    | Probing(body: Body, stage: Stage)      // spz_publish: commit word of the slot
    | Reserving(body: Body, stage: Stage)    // spz_publish: next sequence number
    | Writing(body: Body, stage: Stage, sequence: nat, words: Words, done: nat)
    | Advancing(body: Body, stage: Stage)    // committed, head not stored yet
    | Settling(body: Body, pending: int)     // loss record out, `loss_pending` not lowered yet
    | Broken(code: Code)

  datatype Lane = Lane(
    head: nat, tail: nat, lost: nat, pending: int, cells: seq<Cell>, producer: Producer,
    history: seq<nat>,      // the sequence number taken for each ring index so far
    refused: nat,           // pushes answered with -ENOSPC
    reported: int)          // losses announced in loss records
  {
    function At(i: nat): Cell
      requires |cells| == CAPACITY
    {
      cells[i % CAPACITY]
    }

    function Set(i: nat, c: Cell): Lane
      requires |cells| == CAPACITY
    {
      this.(cells := cells[i % CAPACITY := c])
    }
  }

  /** What the consumer is doing on one lane. */
  datatype Phase =
    | Entering                    // spz_discard_through: about to load head
    | Discarding(head: nat)       // head loaded
    | Clearing(head: nat)         // the oldest commit word is acknowledged
    | Cleared(head: nat)          // commit zeroed, tail not stored yet
    | Scanning                    // looking for the next event: about to load head
    | Matching                    // about to load the commit word
    | Copying(words: Words)       // words of the event copied so far
    | Erasing(words: Words)       // second look at the commit word passed
    | Erased(words: Words)        // commit zeroed, tail not stored yet

  datatype Consumer =
    | Ready
    | Floor(after: nat)                         // cursor is not below consumer_after
    | Visit(after: nat, cpu: nat, phase: Phase)
    | Acknowledging(after: nat)
    | Closing(after: nat, words: Words)         // tail stored, consumer_after not yet
    | Stuck(code: Code)

  datatype Delivery = Delivery(after: nat, words: Words)

  datatype State = State(
    lanes: seq<Lane>, consumerAfter: nat, consumer: Consumer,
    taken: seq<Record>,         // taken[s - 1] belongs to sequence number s
    delivered: seq<Delivery>)

  function LossBody(pending: int, lost: int): Body {
    [EVENT_LOSS, pending, lost] + seq(BODY_WORDS - 3, i => 0)
  }

  /** What a producer at `stage` publishes. */
  function Published(stage: Stage, body: Body, lost: int): Body {
    if stage.Loss? then LossBody(stage.pending, lost) else body
  }

  // ---------------------------------------------------------------------------
  // Steps
  // ---------------------------------------------------------------------------

  /** One step of the producer of lane `l`, other than taking a sequence number.
      `push` is what an idle producer pushes next. */
  function LaneStep(l: Lane, push: Body): Lane
    requires |l.cells| == CAPACITY
  {
    match l.producer
    case Idle => l.(producer := Opening(push))
    case Opening(body) =>
      var free := CAPACITY - (l.head - l.tail);
      if free == 0 then l.(lost := l.lost + 1, producer := Counting(body))
      else if l.pending != 0 && free >= 2 then l.(producer := Checking(body, Loss(l.pending)))
      else l.(producer := Checking(body, Caller))
    case Counting(body) =>
      l.(pending := l.pending + 1, refused := l.refused + 1, producer := Idle)
    case Checking(body, stage) =>
      if l.head - l.tail >= CAPACITY then l.(producer := Broken(NoSpace))
      else l.(producer := Probing(body, stage))
    case Probing(body, stage) =>
      if l.At(l.head).commit != 0 then l.(producer := Broken(Busy))
      else l.(producer := Reserving(body, stage))
    case Reserving(_, _) => l
    case Writing(body, stage, sequence, words, done) =>
      var c := l.At(l.head);
      if done < |words| && done < |c.words| then
        l.Set(l.head, c.(words := c.words[done := words[done]]))
        .(producer := Writing(body, stage, sequence, words, done + 1))
      else
        l.Set(l.head, c.(commit := sequence)).(producer := Advancing(body, stage))
    case Advancing(body, stage) =>
      var next := l.(head := l.head + 1);
      if stage.Loss? then
        next.(reported := l.reported + stage.pending, producer := Settling(body, stage.pending))
      else next.(producer := Idle)
    case Settling(body, p) =>
      l.(pending := l.pending - p, producer := Checking(body, Caller))
    case Broken(_) => l
  }

  /** spz_next_sequence: the compare-and-swap that takes the next number. */
  function Reserve(s: State, cpu: nat): State
    requires cpu < |s.lanes| && s.lanes[cpu].producer.Reserving?
  {
    var l := s.lanes[cpu];
    var body, stage := l.producer.body, l.producer.stage;
    var sequence := |s.taken| + 1;
    if sequence > UINT64_MAX then
      s.(lanes := s.lanes[cpu := l.(producer := Idle)])
    else
      var r := Record(cpu, l.head, Published(stage, body, l.lost), stage.Loss?);
      var l' := l.(history := l.history + [sequence],
                   producer := Writing(body, stage, sequence, Content(r, sequence), 0));
      s.(lanes := s.lanes[cpu := l'], taken := s.taken + [r])
  }

  function Produce(s: State, cpu: nat, push: Body): State
    requires cpu < |s.lanes| && |s.lanes[cpu].cells| == CAPACITY
  {
    if s.lanes[cpu].producer.Reserving? then Reserve(s, cpu)
    else s.(lanes := s.lanes[cpu := LaneStep(s.lanes[cpu], push)])
  }

  /** The next lane to visit in one of the consumer's loops. */
  function NextDiscard(after: nat, cpu: nat): Consumer {
    if cpu + 1 < MAX_CPUS then Visit(after, cpu + 1, Entering) else Acknowledging(after)
  }

  function NextScan(after: nat, cpu: nat): Consumer {
    if cpu + 1 < MAX_CPUS then Visit(after, cpu + 1, Scanning) else Ready
  }

  /** One step of the consumer on lane `l`: the lane and where the consumer goes next. */
  function VisitStep(l: Lane, after: nat, cpu: nat, phase: Phase): (Lane, Consumer)
    requires |l.cells| == CAPACITY
  {
    var c := l.At(l.tail);
    match phase
    case Entering => (l, Visit(after, cpu, Discarding(l.head)))
    case Discarding(head) =>
      if l.tail < head && c.commit != 0 && c.commit <= after then (l, Visit(after, cpu, Clearing(head)))
      else (l, NextDiscard(after, cpu))
    case Clearing(head) => (l.Set(l.tail, c.(commit := 0)), Visit(after, cpu, Cleared(head)))
    case Cleared(head) => (l.(tail := l.tail + 1), Visit(after, cpu, Discarding(head)))
    case Scanning => (l, if l.tail >= l.head then NextScan(after, cpu) else Visit(after, cpu, Matching))
    case Matching => (l, if c.commit != after + 1 then NextScan(after, cpu) else Visit(after, cpu, Copying([])))
    case Copying(words) =>
      if |words| < |c.words| then (l, Visit(after, cpu, Copying(words + [c.words[|words|]])))
      else if c.commit != after + 1 then (l, Stuck(Again))
      else (l, Visit(after, cpu, Erasing(words)))
    case Erasing(words) => (l.Set(l.tail, c.(commit := 0)), Visit(after, cpu, Erased(words)))
    case Erased(words) => (l.(tail := l.tail + 1), Closing(after, words))
  }

  /** One step of the consumer; `ask` is the cursor it passes to its next call. */
  function Consume(s: State, ask: nat): State
    requires s.consumer.Visit? ==>
               s.consumer.cpu < |s.lanes| && |s.lanes[s.consumer.cpu].cells| == CAPACITY
  {
    match s.consumer
    case Ready =>
      if ask < s.consumerAfter then s else s.(consumer := Floor(ask))
    case Floor(after) =>
      if after > |s.taken| || after >= UINT64_MAX then s.(consumer := Ready)
      else s.(consumer := Visit(after, 0, Entering))
    case Visit(after, cpu, phase) =>
      var (l, next) := VisitStep(s.lanes[cpu], after, cpu, phase);
      s.(lanes := s.lanes[cpu := l], consumer := next)
    case Acknowledging(after) =>
      s.(consumerAfter := if after > s.consumerAfter then after else s.consumerAfter,
         consumer := Visit(after, 0, Scanning))
    case Closing(after, words) =>
      s.(consumerAfter := after + 1, consumer := Ready, delivered := s.delivered + [Delivery(after, words)])
    case Stuck(_) => s
  }

  // ---------------------------------------------------------------------------
  // The invariant of one lane
  // ---------------------------------------------------------------------------

  /** The producer holds a sequence number it has not yet moved head past. */
  predicate HasNumber(p: Producer) {
    p.Writing? || p.Advancing?
  }

  /** Free slots a producer still needs. */
  function Need(stage: Stage): nat {
    if stage.Loss? then 2 else 1
  }

  ghost predicate Numbers(history: seq<nat>, cpu: nat, taken: seq<Record>) {
    && (forall i :: 0 <= i < |history| ==>
          && 1 <= history[i] <= |taken|
          && taken[history[i] - 1].cpu == cpu && taken[history[i] - 1].index == i)
    && (forall i, j :: 0 <= i < j < |history| ==> history[i] < history[j])
  }

  /** Ring index `i` holds the whole event its sequence number was taken for. */
  ghost predicate Holds(l: Lane, i: nat, taken: seq<Record>) {
    && |l.cells| == CAPACITY && i < |l.history| && 1 <= l.history[i] <= |taken|
    && l.At(i) == Cell(l.history[i], Content(taken[l.history[i] - 1], l.history[i]))
  }

  ghost predicate ProducerInv(l: Lane, taken: seq<Record>)
    requires |l.cells| == CAPACITY
  {
    match l.producer
    case Checking(_, stage) => l.head + Need(stage) <= l.tail + CAPACITY
    case Probing(_, stage) => l.head + Need(stage) <= l.tail + CAPACITY
    case Reserving(_, stage) => l.head + Need(stage) <= l.tail + CAPACITY
    case Writing(_, stage, sequence, words, done) =>
      && l.head + Need(stage) <= l.tail + CAPACITY
      && l.head < |l.history| && sequence == l.history[l.head] && 1 <= sequence <= |taken|
      && words == Content(taken[sequence - 1], sequence)
      && done <= EVENT_WORDS == |l.At(l.head).words| && l.At(l.head).words[..done] == words[..done]
    case Advancing(_, stage) => l.head + Need(stage) <= l.tail + CAPACITY && Holds(l, l.head, taken)
    case Settling(_, _) => l.head + 1 <= l.tail + CAPACITY
    case Broken(_) => false
    case _ => true
  }

  /** Refusals are counted, pending or reported, step by step. */
  ghost predicate Accounts(l: Lane) {
    && l.lost == l.refused + (if l.producer.Counting? then 1 else 0)
    && l.lost == l.pending + l.reported + (if l.producer.Counting? then 1 else 0)
                 - (if l.producer.Settling? then l.producer.pending else 0)
    && (l.producer.Settling? ==> l.producer.pending == l.pending)
    && (l.producer.Checking? || l.producer.Probing? || l.producer.Reserving? || HasNumber(l.producer) ==>
        (l.producer.stage.Loss? ==> l.producer.stage.pending == l.pending))
  }

  /** `hole`: the consumer has zeroed the commit word at tail and not moved tail yet. */
  ghost predicate LaneInv(l: Lane, cpu: nat, taken: seq<Record>, hole: bool) {
    && |l.cells| == CAPACITY
    && (forall i :: 0 <= i < CAPACITY ==> |l.cells[i].words| == EVENT_WORDS)
    && l.tail <= l.head <= l.tail + CAPACITY
    && |l.history| == l.head + (if HasNumber(l.producer) then 1 else 0)
    && Numbers(l.history, cpu, taken)
    && (forall i :: l.tail <= i < l.head && !(hole && i == l.tail) ==> Holds(l, i, taken))
    && (hole ==> l.tail < l.head && l.At(l.tail).commit == 0)
    && (forall i :: l.head <= i < l.tail + CAPACITY && !(l.producer.Advancing? && i == l.head) ==>
          l.At(i).commit == 0)
    && ProducerInv(l, taken)
    && Accounts(l)
  }

  /** Writing one cell leaves every other index less than a lap away. */
  lemma CellUpdate(l: Lane, k: nat, c: Cell)
    requires |l.cells| == CAPACITY
    ensures l.Set(k, c).At(k) == c
    ensures forall i: nat :: k - CAPACITY < i < k + CAPACITY && i != k ==> l.Set(k, c).At(i) == l.At(i)
  {
    forall i: nat | k - CAPACITY < i < k + CAPACITY && i != k
      ensures l.Set(k, c).At(i) == l.At(i)
    {
      if i < k { DistinctSlots(i, k); } else { DistinctSlots(k, i); }
    }
  }

  /** What the consumer may rely on while the producer of the same lane moves. */
  ghost predicate Steady(l: Lane, l': Lane) {
    && |l.cells| == |l'.cells| == CAPACITY
    && l'.tail == l.tail && l.head <= l'.head <= |l'.history| && l.history <= l'.history
    && forall i :: l.tail <= i < l.head ==> l'.At(i) == l.At(i)
  }

  /** A cell at head may change freely except for what the producer has promised about it. */
  lemma HeadCellKeeps(l: Lane, l': Lane, cpu: nat, taken: seq<Record>, hole: bool, c: Cell)
    requires LaneInv(l, cpu, taken, hole) && l.producer.Writing? && |c.words| == EVENT_WORDS
    requires l' == l.Set(l.head, c).(producer := l'.producer)
    requires HasNumber(l'.producer) && Accounts(l') && ProducerInv(l', taken)
    requires l'.producer.Advancing? || c.commit == 0
    ensures LaneInv(l', cpu, taken, hole) && Steady(l, l')
  {
    CellUpdate(l, l.head, c);
    assert forall i: nat :: l'.At(i) == l.Set(l.head, c).At(i);
    assert forall i :: l.tail <= i < l.head ==> Holds(l, i, taken) ==> Holds(l', i, taken);
  }

  lemma WritingKeeps(l: Lane, cpu: nat, taken: seq<Record>, hole: bool, push: Body)
    requires LaneInv(l, cpu, taken, hole) && l.producer.Writing?
    ensures LaneInv(LaneStep(l, push), cpu, taken, hole)
    ensures Steady(l, LaneStep(l, push))
  {
    var l', p, c := LaneStep(l, push), l.producer, l.At(l.head);
    if p.done < EVENT_WORDS {
      var c' := c.(words := c.words[p.done := p.words[p.done]]);
      assert c'.words[..p.done + 1] == p.words[..p.done + 1];
      assert l'.At(l.head) == c';
      HeadCellKeeps(l, l', cpu, taken, hole, c');
    } else {
      var c' := c.(commit := p.sequence);
      assert c.words == c.words[..p.done] == p.words[..p.done] == p.words;
      assert l'.At(l.head) == c';
      HeadCellKeeps(l, l', cpu, taken, hole, c');
    }
  }

  lemma AdvancingKeeps(l: Lane, cpu: nat, taken: seq<Record>, hole: bool, push: Body)
    requires LaneInv(l, cpu, taken, hole) && l.producer.Advancing?
    ensures LaneInv(LaneStep(l, push), cpu, taken, hole)
    ensures Steady(l, LaneStep(l, push))
  {
    var l' := LaneStep(l, push);
    assert forall i: nat :: l'.At(i) == l.At(i);
    assert forall i :: l.tail <= i <= l.head ==> Holds(l, i, taken) ==> Holds(l', i, taken);
  }

  /** A producer step that touches neither the cells nor head nor the history. */
  lemma QuietKeeps(l: Lane, l': Lane, cpu: nat, taken: seq<Record>, hole: bool)
    requires LaneInv(l, cpu, taken, hole) && !HasNumber(l.producer) && !HasNumber(l'.producer)
    requires l'.cells == l.cells && l'.head == l.head && l'.tail == l.tail && l'.history == l.history
    requires ProducerInv(l', taken) && Accounts(l')
    ensures LaneInv(l', cpu, taken, hole) && Steady(l, l')
  {
    assert forall i: nat :: l'.At(i) == l.At(i);
    assert forall i :: l.tail <= i < l.head ==> Holds(l, i, taken) ==> Holds(l', i, taken);
  }

  lemma LaneStepKeeps(l: Lane, cpu: nat, taken: seq<Record>, hole: bool, push: Body)
    requires LaneInv(l, cpu, taken, hole) && !l.producer.Reserving?
    ensures LaneInv(LaneStep(l, push), cpu, taken, hole)
    ensures Steady(l, LaneStep(l, push))
  {
    hide Numbers, Holds, Steady;
    if l.producer.Writing? {
      WritingKeeps(l, cpu, taken, hole, push);
    } else if l.producer.Advancing? {
      AdvancingKeeps(l, cpu, taken, hole, push);
    } else {
      QuietKeeps(l, LaneStep(l, push), cpu, taken, hole);
    }
  }

  // ---------------------------------------------------------------------------
  // The consumer's steps on one lane
  // ---------------------------------------------------------------------------

  predicate Hollow(phase: Phase) {
    phase.Cleared? || phase.Erased?
  }

  /** The cursor is already stored and the consumer is after the next event. */
  predicate Seeking(phase: Phase) {
    phase.Scanning? || phase.Matching? || phase.Copying? || phase.Erasing? || phase.Erased?
  }

  predicate Hole(c: Consumer, cpu: nat) {
    c.Visit? && c.cpu == cpu && Hollow(c.phase)
  }

  /** The oldest event of the lane is the one numbered `sequence`. */
  ghost predicate Oldest(l: Lane, sequence: nat) {
    l.tail < l.head <= |l.history| && l.history[l.tail] == sequence
  }

  ghost predicate VisitInv(l: Lane, after: nat, phase: Phase, taken: seq<Record>)
    requires |l.cells| == CAPACITY
  {
    match phase
    case Entering => true
    case Discarding(head) => head <= l.head
    case Clearing(head) => l.tail < head <= l.head <= |l.history| && l.history[l.tail] <= after
    case Cleared(head) => l.tail < head <= l.head <= |l.history| && l.history[l.tail] <= after
    case Scanning => true
    case Matching => l.tail < l.head
    case Copying(words) =>
      Oldest(l, after + 1) && |words| <= |l.At(l.tail).words| && words == l.At(l.tail).words[..|words|]
    case Erasing(words) =>
      Oldest(l, after + 1) && after < |taken| && words == Content(taken[after], after + 1)
    case Erased(words) =>
      Oldest(l, after + 1) && after < |taken| && words == Content(taken[after], after + 1)
  }

  lemma ClearKeeps(l: Lane, cpu: nat, taken: seq<Record>)
    requires LaneInv(l, cpu, taken, false) && l.tail < l.head
    ensures LaneInv(l.Set(l.tail, l.At(l.tail).(commit := 0)), cpu, taken, true)
  {
    var c := l.At(l.tail).(commit := 0);
    var l' := l.Set(l.tail, c);
    CellUpdate(l, l.tail, c);
    assert forall i :: l.tail < i <= l.head && i < l.tail + CAPACITY ==> Holds(l, i, taken) ==> Holds(l', i, taken);
  }

  lemma TailKeeps(l: Lane, cpu: nat, taken: seq<Record>)
    requires LaneInv(l, cpu, taken, true)
    ensures LaneInv(l.(tail := l.tail + 1), cpu, taken, false)
  {
    var l' := l.(tail := l.tail + 1);
    assert forall i: nat :: l'.At(i) == l.At(i);
    assert l'.At(l.tail + CAPACITY) == l.At(l.tail);
    assert forall i :: l.tail < i <= l.head ==> Holds(l, i, taken) ==> Holds(l', i, taken);
  }

  /** What one step of a visit keeps of the lane and says about where it goes next. */
  ghost predicate VisitKept(l: Lane, after: nat, cpu: nat, taken: seq<Record>, l': Lane, next: Consumer) {
    && LaneInv(l', cpu, taken, Hole(next, cpu))
    && (next.Visit? && next.cpu == cpu ==> VisitInv(l', after, next.phase, taken))
    && l'.history == l.history && l'.head == l.head && l'.producer == l.producer
    && (l'.tail == l.tail || (l'.tail == l.tail + 1 && l.tail < |l.history| && Oldest(l, l.history[l.tail]) &&
                              l.history[l.tail] <= if next.Closing? then after + 1 else after))
    && (next.Closing? ==> next.after == after < |taken| && next.words == Content(taken[after], after + 1))
    && !next.Stuck?
  }

  lemma ErasingKept(l: Lane, after: nat, cpu: nat, phase: Phase, taken: seq<Record>)
    requires LaneInv(l, cpu, taken, Hollow(phase)) && VisitInv(l, after, phase, taken)
    requires phase.Clearing? || phase.Erasing?
    ensures var (l', next) := VisitStep(l, after, cpu, phase); VisitKept(l, after, cpu, taken, l', next)
  {
    ClearKeeps(l, cpu, taken);
  }

  lemma HollowKept(l: Lane, after: nat, cpu: nat, phase: Phase, taken: seq<Record>)
    requires LaneInv(l, cpu, taken, true) && VisitInv(l, after, phase, taken) && Hollow(phase)
    ensures var (l', next) := VisitStep(l, after, cpu, phase); VisitKept(l, after, cpu, taken, l', next)
  {
    TailKeeps(l, cpu, taken);
  }

  lemma LookingKept(l: Lane, after: nat, cpu: nat, phase: Phase, taken: seq<Record>)
    requires LaneInv(l, cpu, taken, false) && VisitInv(l, after, phase, taken)
    requires !phase.Clearing? && !phase.Erasing? && !Hollow(phase)
    ensures var (l', next) := VisitStep(l, after, cpu, phase); VisitKept(l, after, cpu, taken, l', next)
  {
    if l.tail < l.head {
      assert Holds(l, l.tail, taken);
    }
  }

  lemma VisitStepKeeps(l: Lane, after: nat, cpu: nat, phase: Phase, taken: seq<Record>)
    requires LaneInv(l, cpu, taken, Hollow(phase)) && VisitInv(l, after, phase, taken)
    ensures var (l', next) := VisitStep(l, after, cpu, phase); VisitKept(l, after, cpu, taken, l', next)
  {
    if phase.Clearing? || phase.Erasing? {
      ErasingKept(l, after, cpu, phase, taken);
    } else if Hollow(phase) {
      HollowKept(l, after, cpu, phase, taken);
    } else {
      LookingKept(l, after, cpu, phase, taken);
    }
  }

  // ---------------------------------------------------------------------------
  // The invariant of the whole ring
  // ---------------------------------------------------------------------------

  /** Every number handed out is in the history of exactly the lane it was taken on. */
  ghost predicate Located(lanes: seq<Lane>, taken: seq<Record>) {
    forall k :: 0 <= k < |taken| ==>
      && taken[k].cpu < |lanes| && taken[k].index < |lanes[taken[k].cpu].history|
      && lanes[taken[k].cpu].history[taken[k].index] == k + 1
  }

  /** The highest sequence number the consumer may have left behind. */
  function Level(s: State): nat {
    match s.consumer
    case Visit(after, _, _) => after
    case Acknowledging(after) => after
    case Closing(after, _) => after + 1
    case _ => s.consumerAfter
  }

  ghost predicate Passed(l: Lane, level: nat) {
    l.tail <= |l.history| && forall i :: 0 <= i < l.tail ==> l.history[i] <= level
  }

  ghost predicate ConsumerInv(s: State)
    requires |s.lanes| == MAX_CPUS
    requires forall c :: 0 <= c < MAX_CPUS ==> |s.lanes[c].cells| == CAPACITY
  {
    && s.consumerAfter <= Level(s) <= |s.taken|
    && match s.consumer
       case Floor(after) => s.consumerAfter <= after
       case Visit(after, cpu, phase) =>
         && cpu < MAX_CPUS && VisitInv(s.lanes[cpu], after, phase, s.taken)
         && (Seeking(phase) ==> after == s.consumerAfter)
       case Closing(after, words) => after < |s.taken| && words == Content(s.taken[after], after + 1)
       case Stuck(_) => false
       case _ => true
  }

  ghost predicate Whole(d: Delivery, taken: seq<Record>) {
    d.after < |taken| && d.words == Content(taken[d.after], d.after + 1)
  }

  ghost predicate Inv(s: State) {
    && |s.lanes| == MAX_CPUS
    && (forall c :: 0 <= c < MAX_CPUS ==> LaneInv(s.lanes[c], c, s.taken, Hole(s.consumer, c)))
    && (forall c :: 0 <= c < MAX_CPUS ==> Passed(s.lanes[c], Level(s)))
    && Located(s.lanes, s.taken)
    && ConsumerInv(s)
    && (forall i :: 0 <= i < |s.delivered| ==> Whole(s.delivered[i], s.taken))
  }

  /** spz_ring_init: zeroed memory. */
  function Start(): State {
    var cell := Cell(0, seq(EVENT_WORDS, i => 0));
    var lane := Lane(0, 0, 0, 0, seq(CAPACITY, i => cell), Idle, [], 0, 0);
    State(seq(MAX_CPUS, i => lane), 0, Ready, [], [])
  }

  datatype Action = ByProducer(cpu: nat, push: Body) | ByConsumer(ask: nat)

  /** Any step of any producer or of the consumer. */
  ghost predicate Step(s: State, a: Action, s': State) {
    match a
    case ByProducer(cpu, push) =>
      cpu < |s.lanes| && |s.lanes[cpu].cells| == CAPACITY && s' == Produce(s, cpu, push)
    case ByConsumer(ask) =>
      && (s.consumer.Visit? ==> s.consumer.cpu < |s.lanes| && |s.lanes[s.consumer.cpu].cells| == CAPACITY)
      && s' == Consume(s, ask)
  }

  lemma StartInv()
    ensures Inv(Start())
  {
  }

  lemma VisitSteady(l: Lane, l': Lane, after: nat, phase: Phase, taken: seq<Record>, taken': seq<Record>)
    requires |l.cells| == CAPACITY && Steady(l, l') && taken <= taken'
    requires VisitInv(l, after, phase, taken)
    ensures VisitInv(l', after, phase, taken')
  {
  }

  lemma LaneGrows(l: Lane, cpu: nat, taken: seq<Record>, hole: bool, r: Record)
    requires LaneInv(l, cpu, taken, hole)
    ensures LaneInv(l, cpu, taken + [r], hole)
  {
    assert forall i :: l.tail <= i <= l.head ==> Holds(l, i, taken) ==> Holds(l, i, taken + [r]);
  }

  /** Taking a number appends it to the lane's history; the slot at head is free. */
  lemma ReserveKeeps(l: Lane, l': Lane, cpu: nat, taken: seq<Record>, hole: bool, r: Record)
    requires LaneInv(l, cpu, taken, hole) && l.producer.Reserving?
    requires r.cpu == cpu && r.index == l.head
    requires var n := |taken| + 1;
             l' == l.(history := l.history + [n],
                      producer := Writing(l.producer.body, l.producer.stage, n, Content(r, n), 0))
    ensures LaneInv(l', cpu, taken + [r], hole) && Steady(l, l')
  {
    LaneGrows(l, cpu, taken, hole, r);
    assert forall i: nat :: l'.At(i) == l.At(i);
    assert forall i :: l.tail <= i < l.head ==> Holds(l, i, taken + [r]) ==> Holds(l', i, taken + [r]);
  }

  /** A producer that changed only its own lane, and perhaps took one more number. */
  lemma ProducerFrame(s: State, s': State, cpu: nat)
    requires Inv(s) && cpu < MAX_CPUS && |s'.lanes| == MAX_CPUS
    requires s' == s.(lanes := s.lanes[cpu := s'.lanes[cpu]], taken := s'.taken)
    requires s.taken <= s'.taken && Steady(s.lanes[cpu], s'.lanes[cpu])
    requires forall c :: 0 <= c < MAX_CPUS ==> LaneInv(s'.lanes[c], c, s'.taken, Hole(s.consumer, c))
    requires Located(s'.lanes, s'.taken)
    ensures Inv(s')
  {
    hide LaneInv, Located, Steady, VisitInv;
    assert LaneInv(s.lanes[cpu], cpu, s.taken, Hole(s.consumer, cpu));
    LaneShape(s);
    if s.consumer.Visit? && s.consumer.cpu == cpu {
      VisitSteady(s.lanes[cpu], s'.lanes[cpu], s.consumer.after, s.consumer.phase, s.taken, s'.taken);
    } else if s.consumer.Visit? {
      LaneSelfSteady(s.lanes[s.consumer.cpu], s.consumer.cpu, s.taken, Hole(s.consumer, s.consumer.cpu));
      VisitSteady(s.lanes[s.consumer.cpu], s.lanes[s.consumer.cpu], s.consumer.after, s.consumer.phase,
                  s.taken, s'.taken);
    }
    PassedSteady(s.lanes[cpu], s'.lanes[cpu], Level(s));
  }

  lemma LaneShape(s: State)
    requires |s.lanes| == MAX_CPUS
    requires forall c :: 0 <= c < MAX_CPUS ==> LaneInv(s.lanes[c], c, s.taken, Hole(s.consumer, c))
    ensures forall c :: 0 <= c < MAX_CPUS ==> |s.lanes[c].cells| == CAPACITY
  {
  }

  lemma LaneSelfSteady(l: Lane, cpu: nat, taken: seq<Record>, hole: bool)
    requires LaneInv(l, cpu, taken, hole)
    ensures Steady(l, l)
  {
  }

  lemma PassedSteady(l: Lane, l': Lane, level: nat)
    requires Passed(l, level) && Steady(l, l')
    ensures Passed(l', level)
  {
  }

  lemma ProduceKeeps(s: State, cpu: nat, push: Body)
    requires Inv(s) && cpu < MAX_CPUS
    ensures |s.lanes[cpu].cells| == CAPACITY
    ensures Inv(Produce(s, cpu, push))
  {
    hide Numbers, ProducerInv, Accounts, Holds, Passed, ConsumerInv;
    LaneShape(s);
    var l, s' := s.lanes[cpu], Produce(s, cpu, push);
    var hole := Hole(s.consumer, cpu);
    if l.producer.Reserving? && |s.taken| < UINT64_MAX {
      var r := s'.taken[|s.taken|];
      ReserveKeeps(l, s'.lanes[cpu], cpu, s.taken, hole, r);
      forall c | 0 <= c < MAX_CPUS && c != cpu
        ensures LaneInv(s.lanes[c], c, s'.taken, Hole(s.consumer, c))
      {
        LaneGrows(s.lanes[c], c, s.taken, Hole(s.consumer, c), r);
      }
      LocatedGrows(s.lanes, s.taken, cpu, r, s'.lanes[cpu]);
    } else {
      if l.producer.Reserving? {
        QuietKeeps(l, s'.lanes[cpu], cpu, s.taken, hole) by { GiveUpQuiet(l, cpu, s.taken, hole); }
      } else {
        LaneStepKeeps(l, cpu, s.taken, hole, push);
      }
      LocatedSteady(s.lanes, s.taken, cpu, s'.lanes[cpu]);
    }
    ProducerFrame(s, s', cpu);
  }

  /** Leaving spz_publish because the counter is exhausted. */
  lemma GiveUpQuiet(l: Lane, cpu: nat, taken: seq<Record>, hole: bool)
    requires LaneInv(l, cpu, taken, hole) && l.producer.Reserving?
    ensures ProducerInv(l.(producer := Idle), taken) && Accounts(l.(producer := Idle))
  {
  }

  lemma LocatedSteady(lanes: seq<Lane>, taken: seq<Record>, cpu: nat, l': Lane)
    requires Located(lanes, taken) && cpu < |lanes| && lanes[cpu].history <= l'.history
    ensures Located(lanes[cpu := l'], taken)
  {
  }

  lemma LocatedGrows(lanes: seq<Lane>, taken: seq<Record>, cpu: nat, r: Record, l': Lane)
    requires Located(lanes, taken) && cpu < |lanes|
    requires r.cpu == cpu && r.index == |lanes[cpu].history|
    requires l'.history == lanes[cpu].history + [|taken| + 1]
    ensures Located(lanes[cpu := l'], taken + [r])
  {
  }

  lemma PassedGrows(l: Lane, level: nat, level': nat)
    requires Passed(l, level) && level <= level'
    ensures Passed(l, level')
  {
  }

  lemma VisitKeeps(s: State, ask: nat)
    requires Inv(s) && s.consumer.Visit?
    ensures |s.lanes[s.consumer.cpu].cells| == CAPACITY
    ensures Inv(Consume(s, ask))
  {
    hide LaneInv, Located, VisitStep;
    LaneShape(s);
    var after, cpu, phase := s.consumer.after, s.consumer.cpu, s.consumer.phase;
    var l, s' := s.lanes[cpu], Consume(s, ask);
    var (l', next) := VisitStep(l, after, cpu, phase);
    VisitStepKeeps(l, after, cpu, phase, s.taken);
    VisitNext(l, after, cpu, phase);
    forall c | 0 <= c < MAX_CPUS
      ensures LaneInv(s'.lanes[c], c, s.taken, Hole(next, c)) && Passed(s'.lanes[c], Level(s'))
    {
      assert LaneInv(s.lanes[c], c, s.taken, Hole(s.consumer, c));
      assert Passed(s.lanes[c], Level(s));
    }
    LaneShape(s');
    LocatedSteady(s.lanes, s.taken, cpu, l');
  }

  /** Where a lane step can lead. */
  lemma VisitNext(l: Lane, after: nat, cpu: nat, phase: Phase)
    requires |l.cells| == CAPACITY && cpu < MAX_CPUS
    ensures var next := VisitStep(l, after, cpu, phase).1;
            match next
            case Visit(a, c, p) =>
              a == after && c < MAX_CPUS && (c != cpu ==> p.Entering? || p.Scanning?) && Seeking(p) == Seeking(phase)
            case Acknowledging(a) => a == after && !Seeking(phase)
            case Closing(a, _) => a == after && Seeking(phase)
            case Ready => Seeking(phase)
            case Stuck(_) => true
            case Floor(_) => false
  {
  }

  /** Between visits the lanes stay as they are. */
  lemma PauseKeeps(s: State, ask: nat)
    requires Inv(s) && !s.consumer.Visit?
    ensures Inv(Consume(s, ask))
  {
    hide LaneInv, Located, Passed, VisitStep, VisitInv;
    LaneShape(s);
    var s' := Consume(s, ask);
    assert s'.lanes == s.lanes && s'.taken == s.taken;
    assert forall c :: !Hole(s.consumer, c) && !Hole(s'.consumer, c);
    forall c | 0 <= c < MAX_CPUS
      ensures LaneInv(s'.lanes[c], c, s'.taken, Hole(s'.consumer, c)) && Passed(s'.lanes[c], Level(s'))
    {
      assert LaneInv(s.lanes[c], c, s.taken, Hole(s.consumer, c));
      PassedGrows(s.lanes[c], Level(s), Level(s'));
    }
    VisitStarts(s, s');
  }

  lemma ConsumeKeeps(s: State, ask: nat)
    requires Inv(s)
    ensures s.consumer.Visit? ==> s.consumer.cpu < MAX_CPUS && |s.lanes[s.consumer.cpu].cells| == CAPACITY
    ensures Inv(Consume(s, ask))
  {
    if s.consumer.Visit? {
      VisitKeeps(s, ask);
    } else {
      PauseKeeps(s, ask);
    }
    hide LaneInv, Located, Passed, VisitStep, VisitInv, Consume;
  }

  lemma VisitStarts(s: State, s': State)
    requires s'.lanes == s.lanes && |s.lanes| == MAX_CPUS
    requires forall c :: 0 <= c < MAX_CPUS ==> |s.lanes[c].cells| == CAPACITY
    requires s'.consumer.Visit? ==> s'.consumer.phase.Entering? || s'.consumer.phase.Scanning?
    ensures s'.consumer.Visit? && s'.consumer.cpu < MAX_CPUS ==>
              VisitInv(s'.lanes[s'.consumer.cpu], s'.consumer.after, s'.consumer.phase, s'.taken)
  {
  }

  // ---------------------------------------------------------------------------
  // Every run
  // ---------------------------------------------------------------------------

  /** A run from zeroed memory: states[i] steps to states[i + 1] by actions[i]. */
  ghost predicate Run(states: seq<State>, actions: seq<Action>) {
    && |states| == |actions| + 1 && states[0] == Start()
    && forall i :: 0 <= i < |actions| ==> Step(states[i], actions[i], states[i + 1])
  }

  lemma {:induction false} RunInv(states: seq<State>, actions: seq<Action>)
    requires Run(states, actions)
    ensures Inv(states[|actions|])
  {
    var n := |actions|;
    if n == 0 {
      StartInv();
    } else {
      RunInv(states[..n], actions[..n - 1]);
      assert Step(states[n - 1], actions[n - 1], states[n]);
      match actions[n - 1]
      case ByProducer(cpu, push) => ProduceKeeps(states[n - 1], cpu, push);
      case ByConsumer(ask) => ConsumeKeeps(states[n - 1], ask);
    }
  }

  /** In no interleaving does spz_publish find its slot taken (-EBUSY) or its space
      gone (-ENOSPC after the free-space test), or the consumer find the commit word
      changed under its copy (-EAGAIN). */
  lemma NoSpuriousExit(states: seq<State>, actions: seq<Action>)
    requires Run(states, actions)
    ensures var s := states[|actions|];
            !s.consumer.Stuck? && forall c :: 0 <= c < |s.lanes| ==> !s.lanes[c].producer.Broken?
  {
    RunInv(states, actions);
  }

  /** No torn event: whatever was acknowledged before, a delivery for cursor `after`
      is, word for word, the event published under `after + 1`. */
  lemma DeliveriesWhole(states: seq<State>, actions: seq<Action>, d: Delivery)
    requires Run(states, actions) && d in states[|actions|].delivered
    ensures d.after < |states[|actions|].taken|
    ensures d.words == Content(states[|actions|].taken[d.after], d.after + 1)
  {
    RunInv(states, actions);
  }

  /** Nothing disappears: every sequence number handed out is still being written by
      its producer, or waits whole in its lane, or has been passed by the cursor. */
  lemma NothingLost(states: seq<State>, actions: seq<Action>, k: nat)
    requires Run(states, actions) && k < |states[|actions|].taken|
    ensures var s := states[|actions|];
            var r := s.taken[k];
            && r.cpu < |s.lanes|
            && var l := s.lanes[r.cpu];
               || (r.index == l.head && HasNumber(l.producer))
               || (l.tail <= r.index < l.head &&
                   (Holds(l, r.index, s.taken) || (r.index == l.tail && Hole(s.consumer, r.cpu))))
               || (r.index < l.tail && k + 1 <= Level(s))
  {
    RunInv(states, actions);
    var s := states[|actions|];
    var r := s.taken[k];
    assert Located(s.lanes, s.taken);
    assert LaneInv(s.lanes[r.cpu], r.cpu, s.taken, Hole(s.consumer, r.cpu));
    assert Passed(s.lanes[r.cpu], Level(s));
  }

  // ---------------------------------------------------------------------------
  // Losses
  // ---------------------------------------------------------------------------

  /** The losses announced by the ring's own loss records of this CPU. */
  function Announced(taken: seq<Record>, cpu: nat): int {
    if taken == [] then 0
    else
      var r := taken[|taken| - 1];
      Announced(taken[..|taken| - 1], cpu) + if r.announces && r.cpu == cpu then r.body[1] else 0
  }

  /** A loss record whose number is taken and whose slot is not yet behind head. */
  function Unfinished(p: Producer): int {
    if HasNumber(p) && p.stage.Loss? then p.stage.pending else 0
  }

  /** Each loss record says how many losses it announces and how many have been announced on
      its CPU up to and including it. */
  ghost predicate RunningTotals(taken: seq<Record>) {
    forall k :: 0 <= k < |taken| && taken[k].announces ==>
      taken[k].body == LossBody(taken[k].body[1], Announced(taken[..k + 1], taken[k].cpu))
  }

  ghost predicate LossInv(s: State) {
    && |s.lanes| == MAX_CPUS
    && (forall c :: 0 <= c < MAX_CPUS ==>
          Announced(s.taken, c) == s.lanes[c].reported + Unfinished(s.lanes[c].producer))
    && RunningTotals(s.taken)
  }

  lemma AnnouncedAppend(taken: seq<Record>, r: Record, cpu: nat)
    ensures Announced(taken + [r], cpu) ==
            Announced(taken, cpu) + if r.announces && r.cpu == cpu then r.body[1] else 0
  {
    assert (taken + [r])[..|taken|] == taken;
  }

  lemma TotalsAppend(taken: seq<Record>, r: Record)
    requires RunningTotals(taken)
    requires r.announces ==> r.body == LossBody(r.body[1], Announced(taken + [r], r.cpu))
    ensures RunningTotals(taken + [r])
  {
    var more := taken + [r];
    forall k | 0 <= k < |more| && more[k].announces
      ensures more[k].body == LossBody(more[k].body[1], Announced(more[..k + 1], more[k].cpu))
    {
      if k < |taken| {
        assert more[..k + 1] == taken[..k + 1];
      } else {
        assert more[..k + 1] == more;
      }
    }
  }

  lemma LaneKeepsSum(l: Lane, push: Body)
    requires |l.cells| == CAPACITY && !l.producer.Reserving?
    ensures var l' := LaneStep(l, push);
            l'.reported + Unfinished(l'.producer) == l.reported + Unfinished(l.producer)
  {
  }

  lemma VisitKeepsSum(l: Lane, after: nat, cpu: nat, phase: Phase)
    requires |l.cells| == CAPACITY
    ensures var l' := VisitStep(l, after, cpu, phase).0;
            l'.reported == l.reported && l'.producer == l.producer
  {
  }

  lemma ReserveKeepsSum(s: State, cpu: nat)
    requires LossInv(s) && cpu < MAX_CPUS && s.lanes[cpu].producer.Reserving? && Accounts(s.lanes[cpu])
    ensures LossInv(Reserve(s, cpu))
  {
    hide RunningTotals;
    if |s.taken| + 1 <= UINT64_MAX {
      var l, s' := s.lanes[cpu], Reserve(s, cpu);
      var r := s'.taken[|s.taken|];
      assert s'.taken == s.taken + [r];
      forall c | 0 <= c < MAX_CPUS
        ensures Announced(s'.taken, c) == s'.lanes[c].reported + Unfinished(s'.lanes[c].producer)
      {
        AnnouncedAppend(s.taken, r, c);
      }
      AnnouncedAppend(s.taken, r, cpu);
      TotalsAppend(s.taken, r);
    }
  }

  lemma LossStep(s: State, a: Action, s': State)
    requires Inv(s) && LossInv(s) && Step(s, a, s')
    ensures LossInv(s')
  {
    hide RunningTotals, Announced, Located, Passed, VisitStep, LaneStep, VisitInv, Unfinished;
    match a
    case ByProducer(cpu, push) =>
      assert Accounts(s.lanes[cpu]) by {
        assert LaneInv(s.lanes[cpu], cpu, s.taken, Hole(s.consumer, cpu));
      }
      if s.lanes[cpu].producer.Reserving? {
        hide Reserve;
        ReserveKeepsSum(s, cpu);
      } else {
        LaneKeepsSum(s.lanes[cpu], push);
      }
    case ByConsumer(ask) =>
      if s.consumer.Visit? {
        VisitKeepsSum(s.lanes[s.consumer.cpu], s.consumer.after, s.consumer.cpu, s.consumer.phase);
      }
  }

  lemma {:induction false} RunLosses(states: seq<State>, actions: seq<Action>)
    requires Run(states, actions)
    ensures LossInv(states[|actions|])
  {
    var n := |actions|;
    if n > 0 {
      hide LossInv, Inv, Step;
      RunLosses(states[..n], actions[..n - 1]);
      RunInv(states[..n], actions[..n - 1]);
      LossStep(states[n - 1], actions[n - 1], states[n]);
    }
  }

  /** Refusals are neither forgotten nor counted twice: on a lane with no push under way, the
      pushes answered with -ENOSPC are those still pending plus those the ring's own loss
      records announce; and every such record carries the running total of its CPU. */
  lemma LossesAccounted(states: seq<State>, actions: seq<Action>, cpu: nat)
    requires Run(states, actions) && cpu < MAX_CPUS
    ensures |states[|actions|].lanes| == MAX_CPUS
    ensures var s := states[|actions|];
            var l := s.lanes[cpu];
            l.producer.Idle? ==> l.lost == l.refused == l.pending + Announced(s.taken, cpu)
    ensures RunningTotals(states[|actions|].taken)
  {
    hide RunningTotals, Announced;
    RunInv(states, actions);
    RunLosses(states, actions);
    assert Accounts(states[|actions|].lanes[cpu]);
  }

  // ---------------------------------------------------------------------------
  // A consumer that acknowledges only what it received
  // ---------------------------------------------------------------------------

  /** No call acknowledges more than the number of events received so far; a smaller cursor
      is refused as stale. */
  ghost predicate Honest(states: seq<State>, actions: seq<Action>)
    requires |states| == |actions| + 1
  {
    forall i :: 0 <= i < |actions| && actions[i].ByConsumer? && states[i].consumer.Ready? ==>
      actions[i].ask <= |states[i].delivered|
  }

  ghost predicate Ordered(s: State) {
    && s.consumerAfter == |s.delivered|
    && (!s.consumer.Ready? && !s.consumer.Stuck? ==> s.consumer.after == |s.delivered|)
    && forall i :: 0 <= i < |s.delivered| ==> s.delivered[i].after == i
  }

  lemma OrderedStep(s: State, a: Action, s': State)
    requires Inv(s) && Ordered(s) && Step(s, a, s')
    requires a.ByConsumer? && s.consumer.Ready? ==> a.ask <= |s.delivered|
    ensures Ordered(s')
  {
    if a.ByConsumer? && s.consumer.Visit? {
      VisitNext(s.lanes[s.consumer.cpu], s.consumer.after, s.consumer.cpu, s.consumer.phase);
    }
  }

  lemma {:induction false} OrderedRun(states: seq<State>, actions: seq<Action>)
    requires Run(states, actions) && Honest(states, actions)
    ensures Ordered(states[|actions|])
  {
    var n := |actions|;
    if n > 0 {
      hide Ordered, Inv, Step;
      OrderedRun(states[..n], actions[..n - 1]);
      RunInv(states[..n], actions[..n - 1]);
      OrderedStep(states[n - 1], actions[n - 1], states[n]);
    }
  }

  /** Delivered sequence numbers are exactly 1, 2, ..., k, in every interleaving. */
  lemma DeliveredInOrder(states: seq<State>, actions: seq<Action>)
    requires Run(states, actions) && Honest(states, actions)
    ensures Ordered(states[|actions|])
    ensures var s := states[|actions|];
            forall i :: 0 <= i < |s.delivered| ==>
              i < |s.taken| && s.delivered[i].words == Content(s.taken[i], i + 1)
  {
    hide LaneInv, Located, Passed, VisitInv, Step;
    OrderedRun(states, actions);
    RunInv(states, actions);
    var s := states[|actions|];
    assert forall i :: 0 <= i < |s.delivered| ==> Whole(s.delivered[i], s.taken);
  }

  /** ... and then no event is skipped: one that has left its lane was delivered, or
      is the one just copied out. */
  lemma NothingSkipped(states: seq<State>, actions: seq<Action>, k: nat)
    requires Run(states, actions) && Honest(states, actions) && k < |states[|actions|].taken|
    ensures var s := states[|actions|];
            var r := s.taken[k];
            && r.cpu < |s.lanes|
            && (r.index < s.lanes[r.cpu].tail ==>
                  || k < |s.delivered|
                  || (k == |s.delivered| && s.consumer.Closing? && s.consumer.words == Content(r, k + 1)))
  {
    NothingLost(states, actions, k);
    DeliveredInOrder(states, actions);
    RunInv(states, actions);
  }
}
