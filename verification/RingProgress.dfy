/** The interleaved event ring of kpm/core/ring.c gets its work done: a poll delivers the next
    event if it was published when the poll began, a push publishes its event if there was
    room, and both end after a bounded number of their own steps, whatever the others do. */
module RingProgress {
  import opened Common
  import opened EventRing
  import opened RingSteps

  // ---------------------------------------------------------------------------
  // What the steps of one thread leave alone
  // ---------------------------------------------------------------------------

  /** Another lane's producer, or this one's, has moved. */
  ghost predicate Undisturbed(s: State, s': State) {
    && |s.lanes| == |s'.lanes| == MAX_CPUS
    && (forall c :: 0 <= c < MAX_CPUS ==> Steady(s.lanes[c], s'.lanes[c]))
    && s'.consumer == s.consumer && s'.consumerAfter == s.consumerAfter && s'.delivered == s.delivered
    && s.taken <= s'.taken && (|s.taken| <= UINT64_MAX ==> |s'.taken| <= UINT64_MAX)
  }

  lemma ProduceSteady(s: State, cpu: nat, push: Body)
    requires Inv(s) && cpu < MAX_CPUS
    ensures |s.lanes[cpu].cells| == CAPACITY
    ensures Undisturbed(s, Produce(s, cpu, push))
    ensures forall c :: 0 <= c < MAX_CPUS && c != cpu ==> Produce(s, cpu, push).lanes[c] == s.lanes[c]
  {
    hide Numbers, ProducerInv, Accounts, Holds, Passed, ConsumerInv, Located, Steady;
    LaneShape(s);
    var l, s' := s.lanes[cpu], Produce(s, cpu, push);
    var hole := Hole(s.consumer, cpu);
    if l.producer.Reserving? && |s.taken| < UINT64_MAX {
      ReserveKeeps(l, s'.lanes[cpu], cpu, s.taken, hole, s'.taken[|s.taken|]);
    } else if l.producer.Reserving? {
      GiveUpQuiet(l, cpu, s.taken, hole);
      QuietKeeps(l, s'.lanes[cpu], cpu, s.taken, hole);
    } else {
      LaneStepKeeps(l, cpu, s.taken, hole, push);
    }
    forall c | 0 <= c < MAX_CPUS && c != cpu ensures Steady(s.lanes[c], s'.lanes[c]) {
      LaneSelfSteady(s.lanes[c], c, s.taken, Hole(s.consumer, c));
    }
  }

  // ---------------------------------------------------------------------------
  // A poll delivers
  // ---------------------------------------------------------------------------

  /** The event numbered `after + 1` is behind head at index `x` of the lane and has not been
      passed by tail. */
  ghost predicate Waits(l: Lane, x: nat, after: nat) {
    l.tail <= x < l.head <= |l.history| && l.history[x] == after + 1
  }

  /** How far a poll for `after` has come while that event still waits in lane `c`. */
  ghost predicate Seeks(s: State, after: nat, c: nat, x: nat) {
    && |s.lanes| == MAX_CPUS && c < MAX_CPUS
    && var l := s.lanes[c];
    match s.consumer
    case Floor(a) => a == after && Waits(l, x, after)
    case Visit(a, cpu, phase) =>
      && a == after && Waits(l, x, after)
      && (if Seeking(phase) then
            l.tail == x && (phase.Scanning? || phase.Matching? ==> cpu <= c)
          else
            && (cpu == c && !phase.Entering? ==> x < phase.head)
            && (cpu == c && (phase.Clearing? || phase.Cleared?) ==> l.tail < x)
            && (cpu > c ==> l.tail == x))
    case Acknowledging(a) => a == after && Waits(l, x, after) && l.tail == x
    case Closing(a, _) => a == after
    case _ => false
  }

  ghost predicate DeliveredNext(s: State, s': State, after: nat) {
    && after < |s'.taken|
    && s'.delivered == s.delivered + [Delivery(after, Content(s'.taken[after], after + 1))]
  }

  lemma SeeksSteady(s: State, s': State, after: nat, c: nat, x: nat)
    requires Undisturbed(s, s') && Seeks(s, after, c, x)
    ensures Seeks(s', after, c, x)
  {
    assert Steady(s.lanes[c], s'.lanes[c]);
  }

  /** On the lane where the event waits, the discard loop stops exactly in front of it and the
      scan finds it. */
  lemma VisitOwnLane(l: Lane, after: nat, cpu: nat, phase: Phase, taken: seq<Record>, x: nat)
    requires LaneInv(l, cpu, taken, Hollow(phase)) && VisitInv(l, after, phase, taken) && Waits(l, x, after)
    requires Seeking(phase) ==> l.tail == x
    requires !Seeking(phase) && !phase.Entering? ==> x < phase.head
    requires phase.Clearing? || phase.Cleared? ==> l.tail < x
    ensures var (l', next) := VisitStep(l, after, cpu, phase);
            && (next.Visit? && next.cpu == cpu ==>
                  && Waits(l', x, after)
                  && (Seeking(next.phase) ==> l'.tail == x && Seeking(phase))
                  && (!Seeking(next.phase) && !next.phase.Entering? ==> x < next.phase.head)
                  && (next.phase.Clearing? || next.phase.Cleared? ==> l'.tail < x))
            && (next.Closing? ==> next.after == after)
            && (!(next.Visit? && next.cpu == cpu) && !next.Closing? && !next.Stuck? ==>
                  next == NextDiscard(after, cpu) && l' == l && l.tail == x && !Seeking(phase))
  {
    if !Hollow(phase) {
      assert Holds(l, l.tail, taken);
    }
  }

  lemma VisitOtherLane(l: Lane, after: nat, cpu: nat, phase: Phase)
    requires |l.cells| == CAPACITY
    ensures var next := VisitStep(l, after, cpu, phase).1;
            || (next.Visit? && next.cpu == cpu && next.after == after && Seeking(next.phase) == Seeking(phase))
            || (next == NextDiscard(after, cpu) && !Seeking(phase))
            || (next == NextScan(after, cpu) && (phase.Scanning? || phase.Matching?))
            || (next.Closing? && next.after == after && phase.Erased?)
            || next.Stuck?
    ensures var next := VisitStep(l, after, cpu, phase).1;
            next.Visit? && next.cpu == cpu && (next.phase.Scanning? || next.phase.Matching?) ==> phase.Scanning?
  {
  }

  /** Two lanes cannot both have the event as their oldest. */
  lemma OneLane(s: State, a: nat, b: nat, x: nat, y: nat, after: nat)
    requires Inv(s) && a < MAX_CPUS && b < MAX_CPUS
    requires Waits(s.lanes[a], x, after) && Waits(s.lanes[b], y, after)
    ensures a == b
  {
    hide Located, Passed, ConsumerInv, Holds, ProducerInv, Accounts;
    assert LaneInv(s.lanes[a], a, s.taken, Hole(s.consumer, a));
    assert LaneInv(s.lanes[b], b, s.taken, Hole(s.consumer, b));
  }

  lemma SeekVisit(s: State, ask: nat, after: nat, c: nat, x: nat)
    requires Inv(s) && Seeks(s, after, c, x) && s.consumer.Visit?
    ensures |s.lanes[s.consumer.cpu].cells| == CAPACITY
    ensures var s' := Consume(s, ask);
            Seeks(s', after, c, x) && s'.delivered == s.delivered && s'.taken == s.taken
  {
    hide LaneInv, Located, Passed, VisitStep, VisitInv;
    LaneShape(s);
    var cpu, phase := s.consumer.cpu, s.consumer.phase;
    var l, s' := s.lanes[cpu], Consume(s, ask);
    assert LaneInv(l, cpu, s.taken, Hole(s.consumer, cpu));
    VisitStepKeeps(l, after, cpu, phase, s.taken);
    VisitOtherLane(l, after, cpu, phase);
    if cpu == c {
      VisitOwnLane(l, after, cpu, phase, s.taken, x);
    } else if phase.Copying? || phase.Erasing? || phase.Erased? {
      assert Waits(l, l.tail, after) by {
        CopyingWaits(l, after, phase, s.taken);
      }
      OneLane(s, cpu, c, l.tail, x, after);
      assert false;
    }
  }

  lemma CopyingWaits(l: Lane, after: nat, phase: Phase, taken: seq<Record>)
    requires |l.cells| == CAPACITY && VisitInv(l, after, phase, taken)
    requires phase.Copying? || phase.Erasing? || phase.Erased?
    ensures Waits(l, l.tail, after)
  {
  }

  lemma SeekStep(s: State, ask: nat, after: nat, c: nat, x: nat)
    requires Inv(s) && Seeks(s, after, c, x) && after < |s.taken| <= UINT64_MAX
    ensures s.consumer.Visit? ==> s.consumer.cpu < MAX_CPUS && |s.lanes[s.consumer.cpu].cells| == CAPACITY
    ensures var s' := Consume(s, ask);
            && s'.taken == s.taken
            && ((!s'.consumer.Ready? && Seeks(s', after, c, x) && s'.delivered == s.delivered)
                || (s'.consumer.Ready? && DeliveredNext(s, s', after)))
  {
    if s.consumer.Visit? {
      SeekVisit(s, ask, after, c, x);
    } else {
      hide LaneInv, Located, VisitStep, VisitInv;
      if s.consumer.Floor? {
        assert Passed(s.lanes[c], Level(s));
      }
    }
  }

  lemma {:induction false} TakenBounded(states: seq<State>, actions: seq<Action>)
    requires Run(states, actions)
    ensures |states[|actions|].taken| <= UINT64_MAX
  {
    var n := |actions|;
    if n > 0 {
      hide Inv, LaneStep, VisitStep;
      TakenBounded(states[..n], actions[..n - 1]);
      assert Step(states[n - 1], actions[n - 1], states[n]);
    }
  }

  /** The states from `i` to `j` belong to one consumer call: it is not idle in between. */
  ghost predicate OneCall(states: seq<State>, i: nat, j: nat) {
    i < j < |states| && states[i].consumer.Ready? && forall k :: i < k < j ==> !states[k].consumer.Ready?
  }

  /** What has become, by state `k`, of a poll that began in state `i`. */
  ghost predicate Underway(s: State, s': State, after: nat, c: nat, x: nat) {
    && s.taken <= s'.taken
    && if s'.consumer.Ready? then DeliveredNext(s, s', after)
       else Seeks(s', after, c, x) && s'.delivered == s.delivered
  }

  /** The last of the first `k` steps of a run. */
  lemma LastStep(states: seq<State>, actions: seq<Action>, k: nat)
    requires Run(states, actions) && 0 < k < |states|
    ensures |states| == |actions| + 1
    ensures var s := states[k - 1];
            && Inv(s) && |s.taken| <= UINT64_MAX && |s.lanes| == MAX_CPUS
            && Step(s, actions[k - 1], states[k])
  {
    hide Inv;
    assert Step(states[k - 1], actions[k - 1], states[k]);
    hide Step;
    RunInv(states[..k], actions[..k - 1]);
    TakenBounded(states[..k], actions[..k - 1]);
    InvLanes(states[k - 1]);
  }

  lemma {:induction false} SeekGoesOn(
      states: seq<State>, actions: seq<Action>, i: nat, k: nat, after: nat, c: nat, x: nat)
    requires Run(states, actions) && i <= k < |states|
    requires forall n :: i <= n < k ==> !states[n].consumer.Ready?
    requires Seeks(states[i], after, c, x) && after < |states[i].taken|
    ensures Underway(states[i], states[k], after, c, x)
    decreases k
  {
    hide Inv, Waits, Undisturbed;
    if i < k {
      hide Seeks;
      var before, a := states[k - 1], actions[k - 1];
      assert Step(before, a, states[k]);
      SeekGoesOn(states, actions, i, k - 1, after, c, x);
      RunInv(states[..k], actions[..k - 1]);
      TakenBounded(states[..k], actions[..k - 1]);
      match a
      case ByProducer(cpu, push) =>
        InvLanes(before);
        ProduceSteady(before, cpu, push);
        SeeksSteady(before, states[k], after, c, x);
        UndisturbedMeans(before, states[k]);
      case ByConsumer(ask) =>
        SeekStep(before, ask, after, c, x);
    }
  }

  lemma InvLanes(s: State)
    requires Inv(s)
    ensures |s.lanes| == MAX_CPUS
  {
  }

  lemma UndisturbedMeans(s: State, s': State)
    requires Undisturbed(s, s')
    ensures s.taken <= s'.taken && s'.consumer == s.consumer && s'.delivered == s.delivered
  {
  }

  lemma PollBegins(s: State, after: nat, c: nat, x: nat)
    requires s.consumer.Ready? && s.consumerAfter <= after
    requires |s.lanes| == MAX_CPUS && c < MAX_CPUS && Waits(s.lanes[c], x, after)
    ensures var s' := Consume(s, after);
            Seeks(s', after, c, x) && s'.taken == s.taken && s'.delivered == s.delivered
  {
  }

  /** In every interleaving: if the event after the cursor was published, its slot behind head,
      when a poll began with a cursor that is not stale, then that poll delivers it. */
  lemma PollDelivers(states: seq<State>, actions: seq<Action>, i: nat, j: nat, after: nat)
    requires Run(states, actions) && OneCall(states, i, j) && states[j].consumer.Ready?
    requires actions[i] == ByConsumer(after) && states[i].consumerAfter <= after < |states[i].taken|
    requires var r := states[i].taken[after];
             r.cpu < |states[i].lanes| && r.index < states[i].lanes[r.cpu].head
    ensures DeliveredNext(states[i], states[j], after)
  {
    var s := states[i];
    var r := s.taken[after];
    RunInv(states[..i + 1], actions[..i]);
    assert s == states[..i + 1][i];
    assert Waits(s.lanes[r.cpu], r.index, after) by {
      assert Located(s.lanes, s.taken);
      assert LaneInv(s.lanes[r.cpu], r.cpu, s.taken, Hole(s.consumer, r.cpu));
      assert Passed(s.lanes[r.cpu], Level(s));
    }
    InvLanes(s);
    hide Inv, Waits, Seeks;
    assert Step(s, actions[i], states[i + 1]);
    PollBegins(s, after, r.cpu, r.index);
    SeekGoesOn(states, actions, i + 1, j, after, r.cpu, r.index);
  }

  /** The same from the middle of a poll: once the cursor is acknowledged, an event that is the
      oldest of its lane and next after the cursor is delivered. */
  lemma OldestDelivered(states: seq<State>, actions: seq<Action>, i: nat, j: nat, after: nat, c: nat)
    requires Run(states, actions) && i < j < |states| && states[j].consumer.Ready?
    requires forall k :: i <= k < j ==> !states[k].consumer.Ready?
    requires states[i].consumer == Acknowledging(after) && c < |states[i].lanes|
    requires Oldest(states[i].lanes[c], after + 1)
    ensures DeliveredNext(states[i], states[j], after)
  {
    RunInv(states[..i + 1], actions[..i]);
    var s := states[i];
    assert s == states[..i + 1][i];
    assert after < |s.taken| by {
      assert LaneInv(s.lanes[c], c, s.taken, Hole(s.consumer, c));
    }
    SeekGoesOn(states, actions, i, j, after, c, s.lanes[c].tail);
  }

  // ---------------------------------------------------------------------------
  // A poll ends
  // ---------------------------------------------------------------------------

  /** A bound on the steps the consumer still takes on the lane it visits. */
  function VisitLeft(l: Lane, phase: Phase): int {
    match phase
    case Entering => 194
    case Discarding(head) => 1 + if head > l.tail then 3 * (head - l.tail) else 0
    case Clearing(head) => 3 * (head - l.tail)
    case Cleared(head) => 3 * (head - l.tail) - 1
    case Scanning => 62
    case Matching => 61
    case Copying(words) => 58 - |words|
    case Erasing(_) => 3
    case Erased(_) => 2
  }

  /** A bound on the steps the consumer still takes in this call. */
  function StepsLeft(s: State): int {
    match s.consumer
    case Ready => 0
    case Floor(_) => 2092
    case Visit(_, cpu, phase) =>
      if cpu >= |s.lanes| then 0
      else if phase.Scanning? || phase.Matching? then VisitLeft(s.lanes[cpu], phase) + 62 * (7 - cpu)
      else if Seeking(phase) then VisitLeft(s.lanes[cpu], phase)
      else 497 + VisitLeft(s.lanes[cpu], phase) + 200 * (7 - cpu)
    case Acknowledging(_) => 497
    case Closing(_, _) => 1
    case Stuck(_) => 0
  }

  lemma LeftSteady(s: State, s': State)
    requires Undisturbed(s, s')
    ensures StepsLeft(s') == StepsLeft(s)
  {
    if s.consumer.Visit? && s.consumer.cpu < MAX_CPUS {
      assert Steady(s.lanes[s.consumer.cpu], s'.lanes[s.consumer.cpu]);
    }
  }

  lemma VisitShrinks(l: Lane, after: nat, cpu: nat, phase: Phase, taken: seq<Record>)
    requires LaneInv(l, cpu, taken, Hollow(phase)) && VisitInv(l, after, phase, taken) && cpu < MAX_CPUS
    ensures var (l', next) := VisitStep(l, after, cpu, phase);
            next.Visit? && next.cpu == cpu ==> VisitLeft(l', next.phase) < VisitLeft(l, phase)
    ensures VisitLeft(l, phase) > 0
    ensures phase.Erased? ==> VisitLeft(l, phase) > 1
  {
    hide Numbers, Holds, ProducerInv, Accounts;
    assert |l.At(l.tail).words| == EVENT_WORDS;
  }

  lemma StepShrinks(s: State, ask: nat)
    requires Inv(s) && !s.consumer.Ready?
    ensures s.consumer.Visit? ==> s.consumer.cpu < MAX_CPUS && |s.lanes[s.consumer.cpu].cells| == CAPACITY
    ensures 0 <= StepsLeft(Consume(s, ask)) < StepsLeft(s)
  {
    hide LaneInv, Located, Passed, VisitInv, VisitStep, VisitLeft;
    LaneShape(s);
    if s.consumer.Visit? {
      var after, cpu, phase := s.consumer.after, s.consumer.cpu, s.consumer.phase;
      var l := s.lanes[cpu];
      assert LaneInv(l, cpu, s.taken, Hole(s.consumer, cpu));
      VisitStepKeeps(l, after, cpu, phase, s.taken);
      VisitOtherLane(l, after, cpu, phase);
      VisitShrinks(l, after, cpu, phase, s.taken);
      NextPositive(s, ask);
      FreshVisits(s);
    } else {
      FreshVisits(s);
      FreshVisits(Consume(s, ask));
    }
  }

  lemma FreshVisits(s: State)
    ensures forall l: Lane :: VisitLeft(l, Entering) == 194 && VisitLeft(l, Scanning) == 62
  {
  }

  lemma NextPositive(s: State, ask: nat)
    requires Inv(s) && s.consumer.Visit? && |s.lanes[s.consumer.cpu].cells| == CAPACITY
    ensures var s' := Consume(s, ask);
            s'.consumer.Visit? ==>
              s'.consumer.cpu < MAX_CPUS && VisitLeft(s'.lanes[s'.consumer.cpu], s'.consumer.phase) > 0
  {
    hide VisitLeft;
    VisitKeeps(s, ask);
    var s' := Consume(s, ask);
    if s'.consumer.Visit? {
      hide VisitStep;
      var cpu := s'.consumer.cpu;
      assert LaneInv(s'.lanes[cpu], cpu, s'.taken, Hole(s'.consumer, cpu));
      LaneShape(s');
      VisitShrinks(s'.lanes[cpu], s'.consumer.after, cpu, s'.consumer.phase, s'.taken);
    }
  }

  /** Consumer steps among the first `k` actions from `i` on. */
  function ConsumerSteps(actions: seq<Action>, i: nat, k: nat): nat
    requires i <= k <= |actions|
    decreases k
  {
    if i == k then 0 else ConsumerSteps(actions, i, k - 1) + if actions[k - 1].ByConsumer? then 1 else 0
  }

  lemma RunLength(states: seq<State>, actions: seq<Action>)
    requires Run(states, actions)
    ensures |states| == |actions| + 1
  {
  }

  lemma StepCounts(s: State, a: Action, s': State)
    requires Inv(s) && Step(s, a, s') && !s.consumer.Ready?
    ensures StepsLeft(s') + (if a.ByConsumer? then 1 else 0) <= StepsLeft(s)
  {
    hide Inv, StepsLeft, Undisturbed;
    match a
    case ByProducer(cpu, push) =>
      InvLanes(s);
      ProduceSteady(s, cpu, push);
      LeftSteady(s, s');
    case ByConsumer(ask) =>
      StepShrinks(s, ask);
  }

  lemma {:induction false} StepsCounted(states: seq<State>, actions: seq<Action>, i: nat, k: nat)
    requires Run(states, actions) && i <= k <= |actions|
    requires forall n :: i <= n < k ==> !states[n].consumer.Ready?
    ensures ConsumerSteps(actions, i, k) + StepsLeft(states[k]) <= StepsLeft(states[i])
    decreases k
  {
    hide Run, Inv, StepsLeft, Step;
    if i < k {
      RunLength(states, actions);
      LastStep(states, actions, k);
      StepsCounted(states, actions, i, k - 1);
      StepCounts(states[k - 1], actions[k - 1], states[k]);
    }
  }

  /** Every poll ends: in no interleaving is the consumer still at it after its first step and
      2092 more of its own. */
  lemma PollEnds(states: seq<State>, actions: seq<Action>, i: nat, k: nat)
    requires Run(states, actions) && i < k <= |actions|
    requires states[i].consumer.Ready? && actions[i].ByConsumer?
    requires forall n :: i < n <= k ==> !states[n].consumer.Ready?
    ensures ConsumerSteps(actions, i + 1, k) < 2092
  {
    hide Run, Inv, Step, StepsLeft;
    RunLength(states, actions);
    LastStep(states, actions, i + 1);
    PollStarts(states[i], actions[i], states[i + 1]);
    StepsCounted(states, actions, i + 1, k);
    InvAt(states, actions, k);
    StepShrinks(states[k], 0);
  }

  lemma PollStarts(s: State, a: Action, s': State)
    requires Step(s, a, s') && a.ByConsumer? && s.consumer.Ready? && !s'.consumer.Ready?
    ensures StepsLeft(s') <= 2092
  {
    hide Inv;
  }

  lemma InvAt(states: seq<State>, actions: seq<Action>, k: nat)
    requires Run(states, actions) && k < |states|
    ensures Inv(states[k])
  {
    hide Inv, Step;
    RunInv(states[..k + 1], actions[..k]);
    assert states[..k + 1][k] == states[k];
  }

  // ---------------------------------------------------------------------------
  // A push publishes
  // ---------------------------------------------------------------------------

  /** What a lane looked like when its producer tested for room. */
  predicate Full(l: Lane) {
    l.head - l.tail == CAPACITY
  }

  predicate Announces(l: Lane) {
    l.pending != 0 && l.head - l.tail + 2 <= CAPACITY
  }

  /** The lane has taken these numbers since `l0`: a loss record first, if one was due, and then
      the caller's event. */
  ghost predicate TakenSince(l0: Lane, l: Lane, cpu: nat, taken: seq<Record>, loss: bool, event: bool, body: Body) {
    var n := |l0.history|;
    && |l.history| == n + (if loss then 1 else 0) + (if event then 1 else 0)
    && l0.history <= l.history
    && (loss ==> 1 <= l.history[n] <= |taken| && taken[l.history[n] - 1].announces)
    && (event ==>
          && 1 <= l.history[|l.history| - 1] <= |taken|
          && taken[l.history[|l.history| - 1] - 1] == Record(cpu, |l.history| - 1, body, false))
  }

  /** How far a push has come since it found room, or none, in lane `l0`. */
  ghost predicate Pushes(l0: Lane, l: Lane, cpu: nat, taken: seq<Record>, body: Body) {
    match l.producer
    case Counting(b) => b == body && Full(l0) && l.refused == l0.refused && l.history == l0.history
    case Checking(b, stage) => b == body && Staged(l0, l, cpu, taken, body, stage, false)
    case Probing(b, stage) => b == body && Staged(l0, l, cpu, taken, body, stage, false)
    case Reserving(b, stage) => b == body && Staged(l0, l, cpu, taken, body, stage, false)
    case Writing(b, stage, _, _, _) => b == body && Staged(l0, l, cpu, taken, body, stage, true)
    case Advancing(b, stage) => b == body && Staged(l0, l, cpu, taken, body, stage, true)
    case Settling(b, _) =>
      && b == body && !Full(l0) && Announces(l0) && l.refused == l0.refused
      && TakenSince(l0, l, cpu, taken, true, false, body)
    case _ => false
  }

  /** At `stage`, with the number for it taken or not. */
  ghost predicate Staged(l0: Lane, l: Lane, cpu: nat, taken: seq<Record>, body: Body, stage: Stage, numbered: bool) {
    && !Full(l0) && l.refused == l0.refused
    && (stage.Loss? ==> Announces(l0) && TakenSince(l0, l, cpu, taken, numbered, false, body))
    && (stage.Caller? ==> TakenSince(l0, l, cpu, taken, Announces(l0), numbered, body))
  }

  /** How a push ends: refused and counted, or published with its loss record in front, or
      given up because the numbers have run out. */
  ghost predicate Pushed(l0: Lane, l: Lane, cpu: nat, taken: seq<Record>, body: Body) {
    if Full(l0) then l.refused == l0.refused + 1 && l.history == l0.history
    else
      && l.refused == l0.refused
      && (|taken| == UINT64_MAX
          || (l.head == |l.history| && TakenSince(l0, l, cpu, taken, Announces(l0), true, body)))
  }

  lemma PushOpens(l: Lane, cpu: nat, taken: seq<Record>, push: Body)
    requires LaneInv(l, cpu, taken, false) || LaneInv(l, cpu, taken, true)
    requires l.producer.Opening?
    ensures Pushes(l, LaneStep(l, push), cpu, taken, l.producer.body)
  {
  }

  lemma PushLaneStep(l0: Lane, l: Lane, cpu: nat, taken: seq<Record>, hole: bool, body: Body, push: Body)
    requires LaneInv(l, cpu, taken, hole) && Pushes(l0, l, cpu, taken, body) && !l.producer.Reserving?
    ensures var l' := LaneStep(l, push);
            if l'.producer.Idle? then Pushed(l0, l', cpu, taken, body) else Pushes(l0, l', cpu, taken, body)
  {
    hide Numbers, Holds, Accounts;
  }

  lemma PushReserves(l0: Lane, s: State, cpu: nat, body: Body)
    requires Inv(s) && cpu < MAX_CPUS && s.lanes[cpu].producer.Reserving?
    requires |s.taken| <= UINT64_MAX && Pushes(l0, s.lanes[cpu], cpu, s.taken, body)
    ensures var s' := Reserve(s, cpu);
            var l' := s'.lanes[cpu];
            if l'.producer.Idle? then Pushed(l0, l', cpu, s'.taken, body) else Pushes(l0, l', cpu, s'.taken, body)
  {
    hide Located, Passed, ConsumerInv, Holds, Accounts;
    assert LaneInv(s.lanes[cpu], cpu, s.taken, Hole(s.consumer, cpu));
  }

  /** Neither the consumer nor another producer touches this. */
  lemma PushesStay(l0: Lane, l: Lane, l': Lane, cpu: nat, taken: seq<Record>, taken': seq<Record>, body: Body)
    requires Pushes(l0, l, cpu, taken, body) && taken <= taken'
    requires l'.producer == l.producer && l'.history == l.history && l'.refused == l.refused
    ensures Pushes(l0, l', cpu, taken', body)
  {
  }

  lemma ConsumeSpares(s: State, ask: nat, cpu: nat)
    requires |s.lanes| == MAX_CPUS && cpu < MAX_CPUS
    requires s.consumer.Visit? ==> s.consumer.cpu < MAX_CPUS && |s.lanes[s.consumer.cpu].cells| == CAPACITY
    ensures var s' := Consume(s, ask);
            var l, l' := s.lanes[cpu], s'.lanes[cpu];
            && s'.taken == s.taken && |s'.lanes| == MAX_CPUS
            && l'.producer == l.producer && l'.history == l.history && l'.refused == l.refused && l'.head == l.head
  {
  }

  /** What has become, by a later state, of a push that found lane `l0` so. */
  ghost predicate PushUnderway(l0: Lane, s: State, cpu: nat, body: Body) {
    && cpu < |s.lanes|
    && if s.lanes[cpu].producer.Idle? then Pushed(l0, s.lanes[cpu], cpu, s.taken, body)
       else Pushes(l0, s.lanes[cpu], cpu, s.taken, body)
  }

  lemma PushStep(l0: Lane, s: State, a: Action, s': State, cpu: nat, body: Body)
    requires Inv(s) && |s.taken| <= UINT64_MAX && Step(s, a, s') && cpu < MAX_CPUS
    requires !s.lanes[cpu].producer.Idle? && PushUnderway(l0, s, cpu, body)
    ensures PushUnderway(l0, s', cpu, body)
  {
    hide Pushes, Pushed, LaneInv, Located, Passed, ConsumerInv, LaneStep;
    LaneShape(s);
    match a
    case ByProducer(c, push) =>
      ProduceSteady(s, c, push);
      if c != cpu {
        PushesStay(l0, s.lanes[cpu], s'.lanes[cpu], cpu, s.taken, s'.taken, body);
      } else if s.lanes[cpu].producer.Reserving? {
        PushReserves(l0, s, cpu, body);
      } else {
        assert LaneInv(s.lanes[cpu], cpu, s.taken, Hole(s.consumer, cpu));
        PushLaneStep(l0, s.lanes[cpu], cpu, s.taken, Hole(s.consumer, cpu), body, push);
      }
    case ByConsumer(ask) =>
      ConsumeSpares(s, ask, cpu);
      PushesStay(l0, s.lanes[cpu], s'.lanes[cpu], cpu, s.taken, s'.taken, body);
  }

  lemma PushBegins(s: State, s': State, cpu: nat, push: Body)
    requires Inv(s) && cpu < MAX_CPUS && s.lanes[cpu].producer.Opening? && Step(s, ByProducer(cpu, push), s')
    ensures PushUnderway(s.lanes[cpu], s', cpu, s.lanes[cpu].producer.body)
  {
    hide LaneInv, Located, Passed, ConsumerInv, LaneStep, Pushes, Pushed;
    var l := s.lanes[cpu];
    LaneShape(s);
    assert LaneInv(l, cpu, s.taken, Hole(s.consumer, cpu));
    PushOpens(l, cpu, s.taken, push);
    OpeningGoesOn(l, push);
  }

  lemma OpeningGoesOn(l: Lane, push: Body)
    requires |l.cells| == CAPACITY && l.producer.Opening?
    ensures !LaneStep(l, push).producer.Idle?
  {
  }

  lemma {:induction false} PushGoesOn(
      states: seq<State>, actions: seq<Action>, i: nat, k: nat, cpu: nat, push: Body)
    requires Run(states, actions) && i < k < |states| && cpu < |states[i].lanes|
    requires actions[i] == ByProducer(cpu, push) && states[i].lanes[cpu].producer.Opening?
    requires forall n :: i < n < k ==> cpu < |states[n].lanes| && !states[n].lanes[cpu].producer.Idle?
    ensures PushUnderway(states[i].lanes[cpu], states[k], cpu, states[i].lanes[cpu].producer.body)
    decreases k
  {
    hide Run, Inv, Step, PushUnderway;
    LastStep(states, actions, k);
    var before, a, l0 := states[k - 1], actions[k - 1], states[i].lanes[cpu];
    if k == i + 1 {
      PushBegins(before, states[k], cpu, push);
    } else {
      PushGoesOn(states, actions, i, k - 1, cpu, push);
      PushStep(l0, before, a, states[k], cpu, l0.producer.body);
    }
  }

  /** In every interleaving: a push that finds its lane full is refused and counted; any other
      takes a number for its event, after one for a loss record exactly when losses are pending
      and there is room for both, and when it returns the event is behind head; only when the
      numbers have run out does it give up. */
  lemma PushPublishes(states: seq<State>, actions: seq<Action>, i: nat, j: nat, cpu: nat, push: Body)
    requires Run(states, actions) && i < j < |states| && cpu < |states[i].lanes|
    requires actions[i] == ByProducer(cpu, push) && states[i].lanes[cpu].producer.Opening?
    requires forall n :: i < n < j ==> cpu < |states[n].lanes| && !states[n].lanes[cpu].producer.Idle?
    requires cpu < |states[j].lanes| && states[j].lanes[cpu].producer.Idle?
    ensures Pushed(states[i].lanes[cpu], states[j].lanes[cpu], cpu, states[j].taken,
                   states[i].lanes[cpu].producer.body)
  {
    hide Run;
    PushGoesOn(states, actions, i, j, cpu, push);
  }

  // ---------------------------------------------------------------------------
  // A push ends
  // ---------------------------------------------------------------------------

  function StageLeft(stage: Stage): nat {
    if stage.Loss? then 61 else 0
  }

  /** A bound on the steps the producer still takes in this push. */
  function PushLeft(p: Producer): int {
    match p
    case Idle => 0
    case Opening(_) => 122
    case Counting(_) => 1
    case Checking(_, stage) => 60 + StageLeft(stage)
    case Probing(_, stage) => 59 + StageLeft(stage)
    case Reserving(_, stage) => 58 + StageLeft(stage)
    case Writing(_, stage, _, words, done) => 57 - done + StageLeft(stage)
    case Advancing(_, stage) => 1 + StageLeft(stage)
    case Settling(_, _) => 61
    case Broken(_) => 0
  }

  lemma PushShrinks(s: State, cpu: nat, push: Body)
    requires Inv(s) && cpu < MAX_CPUS && !s.lanes[cpu].producer.Idle?
    ensures |s.lanes[cpu].cells| == CAPACITY
    ensures 0 <= PushLeft(Produce(s, cpu, push).lanes[cpu].producer) < PushLeft(s.lanes[cpu].producer)
  {
    hide Located, Passed, ConsumerInv, Numbers, Holds, Accounts;
    assert LaneInv(s.lanes[cpu], cpu, s.taken, Hole(s.consumer, cpu));
  }

  /** Steps of this producer among the actions from `i` to `k`. */
  function ProducerSteps(actions: seq<Action>, cpu: nat, i: nat, k: nat): nat
    requires i <= k <= |actions|
    decreases k
  {
    if i == k then 0
    else
      var a := actions[k - 1];
      ProducerSteps(actions, cpu, i, k - 1) + if a.ByProducer? && a.cpu == cpu then 1 else 0
  }

  lemma PushCounts(s: State, a: Action, s': State, cpu: nat)
    requires Inv(s) && Step(s, a, s') && cpu < MAX_CPUS && !s.lanes[cpu].producer.Idle?
    ensures cpu < |s'.lanes|
    ensures var own := if a.ByProducer? && a.cpu == cpu then 1 else 0;
            PushLeft(s'.lanes[cpu].producer) + own <= PushLeft(s.lanes[cpu].producer)
  {
    InvLanes(s);
    LaneShape(s);
    hide Inv, PushLeft;
    match a
    case ByProducer(c, push) =>
      ProduceSteady(s, c, push);
      if c == cpu {
        PushShrinks(s, cpu, push);
      }
    case ByConsumer(ask) =>
      ConsumeSpares(s, ask, cpu);
  }

  lemma {:induction false} PushCounted(states: seq<State>, actions: seq<Action>, cpu: nat, i: nat, k: nat)
    requires Run(states, actions) && i <= k <= |actions| && cpu < MAX_CPUS
    requires forall n :: i <= n < k ==> cpu < |states[n].lanes| && !states[n].lanes[cpu].producer.Idle?
    requires cpu < |states[i].lanes| && cpu < |states[k].lanes|
    ensures ProducerSteps(actions, cpu, i, k) + PushLeft(states[k].lanes[cpu].producer)
            <= PushLeft(states[i].lanes[cpu].producer)
    decreases k
  {
    hide Run, Inv, Step, PushLeft;
    if i < k {
      RunLength(states, actions);
      LastStep(states, actions, k);
      PushCounted(states, actions, cpu, i, k - 1);
      PushCounts(states[k - 1], actions[k - 1], states[k], cpu);
    }
  }

  lemma OpeningLeft(p: Producer)
    requires p.Opening?
    ensures PushLeft(p) == 122
  {
  }

  /** Every push ends: in no interleaving is a producer still at it after 122 steps of its own. */
  lemma PushEnds(states: seq<State>, actions: seq<Action>, cpu: nat, i: nat, k: nat)
    requires Run(states, actions) && i <= k <= |actions| && cpu < MAX_CPUS
    requires forall n :: i <= n <= k ==> cpu < |states[n].lanes| && !states[n].lanes[cpu].producer.Idle?
    requires states[i].lanes[cpu].producer.Opening?
    ensures ProducerSteps(actions, cpu, i, k) < 122
  {
    hide Run, Inv, PushLeft;
    RunLength(states, actions);
    PushCounted(states, actions, cpu, i, k);
    InvAt(states, actions, k);
    InvLanes(states[k]);
    assert PushLeft(states[i].lanes[cpu].producer) == 122 by {
      OpeningLeft(states[i].lanes[cpu].producer);
    }
    PushShrinks(states[k], cpu, states[i].lanes[cpu].producer.body);
  }
}
