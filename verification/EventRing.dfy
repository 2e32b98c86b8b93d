/** The event ring of kpm/core/ring.c under calls that do not overlap.

    Eight per-CPU rings share one sequence counter.  Seen from outside they are
    one queue: `backlog` holds the events with sequence numbers
    consumerAfter + 1 .. nextSequence in order, whichever CPU they came from.
    The interleaved behaviour of the same code is in RingSteps. */
module EventRing {
  import opened Common
  import opened Crc32

  const MAX_CPUS: nat := 8
  const CAPACITY: nat := 64
  const EVENT_MAGIC: nat := 0x455a5053
  const ABI_VERSION: nat := 1
  const WIRE_SIZE: nat := 432
  const EVENT_LOSS: nat := 4

  datatype Code = Done | Invalid | NoSpace | Busy | Overflow | Stale | Range | Again | Empty

  /** An event record.  `rest` stands for the caller's fields the ring never looks at. */
  datatype Event = Event(
    magic: nat, version: nat, size: nat, kind: nat, cpu: nat, sequence: nat,
    observedAddress: nat, value: nat, rest: seq<Byte>, crc: Word)

  /** How the checksum of a record with a zero checksum field is computed.  The
      ring works for any such function; spz_publish uses `CrcStamp` of the wire layout. */
  type Stamp = Event -> Word

  function CrcStamp(wire: Event -> seq<Byte>): Stamp {
    (e: Event) => Checksum(wire(e))
  }

  /** A caller's event as spz_publish stamps it. */
  function Sealed(stamp: Stamp, source: Event, cpu: nat, sequence: nat): (e: Event)
    ensures e.cpu == cpu && e.sequence == sequence && Intact(stamp, e)
    ensures e.kind == source.kind && e.value == source.value && e.rest == source.rest
    ensures e.observedAddress == source.observedAddress
    ensures e.magic == 0x455a_5053 && e.version == 1 && e.size == 432
  {
    var e := source.(magic := EVENT_MAGIC, version := ABI_VERSION, size := WIRE_SIZE,
                     cpu := cpu, sequence := sequence, crc := Zeros(32));
    e.(crc := stamp(e))
  }

  predicate Intact(stamp: Stamp, e: Event) {
    e.crc == stamp(e.(crc := Zeros(32)))
  }

  function LossRecord(pending: nat, lost: nat): Event {
    Event(0, 0, 0, EVENT_LOSS, 0, 0, lost, pending, [], Zeros(32))
  }

  datatype Slot = Slot(commit: nat, event: Event)

  datatype CpuRing = CpuRing(head: nat, tail: nat, lost: nat, lossPending: nat, slots: seq<Slot>)
  {
    /** The slot that ring index `i` lives in. */
    function At(i: nat): Slot
      requires |slots| == CAPACITY
    {
      slots[i % CAPACITY]
    }

    ghost predicate Valid() {
      && |slots| == CAPACITY
      && tail <= head <= tail + CAPACITY
      && (forall i :: tail <= i < head ==> 0 < At(i).commit == At(i).event.sequence)
      && (forall i :: head <= i < tail + CAPACITY ==> At(i).commit == 0)
    }

    /** The committed events, oldest first. */
    ghost function Live(): (events: seq<Event>)
      requires Valid()
      ensures |events| == head - tail
    {
      seq(head - tail, i requires 0 <= i < head - tail => At(tail + i).event)
    }

    /** The slot write, commit and head advance at the end of spz_publish. */
    function Store(e: Event): CpuRing
      requires |slots| == CAPACITY
    {
      this.(slots := slots[head % CAPACITY := Slot(e.sequence, e)], head := head + 1)
    }

    /** Clearing the oldest commit and advancing tail. */
    function Drop(): CpuRing
      requires |slots| == CAPACITY
    {
      var index := tail % CAPACITY;
      this.(slots := slots[index := At(tail).(commit := 0)], tail := tail + 1)
    }
  }

  lemma DistinctSlots(i: nat, j: nat)
    requires i < j < i + CAPACITY
    ensures i % CAPACITY != j % CAPACITY
  {
  }

  /** Writing the slot of index `k` leaves every other index less than a lap away. */
  lemma SlotUpdate(r: CpuRing, r': CpuRing, k: nat, s: Slot)
    requires |r.slots| == CAPACITY && r'.slots == r.slots[k % CAPACITY := s]
    ensures r'.At(k) == s
    ensures forall i: nat :: k - CAPACITY < i < k + CAPACITY && i != k ==> r'.At(i) == r.At(i)
  {
    forall i: nat | k - CAPACITY < i < k + CAPACITY && i != k
      ensures r'.At(i) == r.At(i)
    {
      if i < k { DistinctSlots(i, k); } else { DistinctSlots(k, i); }
    }
  }

  lemma StoreAppends(r: CpuRing, e: Event)
    requires r.Valid() && r.head < r.tail + CAPACITY && e.sequence > 0
    ensures r.Store(e).Valid()
    ensures r.Store(e).Live() == r.Live() + [e]
  {
    SlotUpdate(r, r.Store(e), r.head, Slot(e.sequence, e));
  }

  lemma DropValid(r: CpuRing)
    requires r.Valid() && r.tail < r.head
    ensures r.Drop().Valid()
    ensures forall i :: r.tail < i < r.head ==> r.Drop().At(i) == r.At(i)
  {
    SlotUpdate(r, r.Drop(), r.tail, r.At(r.tail).(commit := 0));
    NextLap(r.Drop(), r.tail);
  }

  lemma DropRemovesFirst(r: CpuRing)
    requires r.Valid() && r.tail < r.head
    ensures r.Drop().Valid()
    ensures r.Drop().Live() == r.Live()[1..]
  {
    DropValid(r);
    var r' := r.Drop();
    assert r'.tail == r.tail + 1 && r'.head == r.head;
    hide CpuRing.Valid, CpuRing.Drop, CpuRing.At;
    forall i | 0 <= i < r'.head - r'.tail
      ensures r'.Live()[i] == r.Live()[i + 1]
    {
      var k := r.tail + 1 + i;
      assert r'.At(k) == r.At(k);
    }
  }

  lemma NextLap(r: CpuRing, i: nat)
    requires |r.slots| == CAPACITY
    ensures r.At(i + CAPACITY) == r.At(i)
  {
  }

  // ---------------------------------------------------------------------------
  // The queue seen by one CPU, and the part of it above a sequence number
  // ---------------------------------------------------------------------------

  function OfCpu(events: seq<Event>, cpu: nat): (own: seq<Event>)
    ensures |own| <= |events|
  {
    if events == [] then []
    else if events[0].cpu == cpu then [events[0]] + OfCpu(events[1..], cpu)
    else OfCpu(events[1..], cpu)
  }

  function Above(events: seq<Event>, after: nat): (later: seq<Event>)
    ensures forall i :: 0 <= i < |later| ==> later[i].sequence > after
  {
    if events == [] then []
    else if events[0].sequence > after then [events[0]] + Above(events[1..], after)
    else Above(events[1..], after)
  }

  ghost predicate Ascending(events: seq<Event>) {
    forall i, j :: 0 <= i < j < |events| ==> events[i].sequence < events[j].sequence
  }

  /** Sequence numbers base + 1, base + 2, ... without a gap. */
  ghost predicate Contiguous(events: seq<Event>, base: nat) {
    forall i :: 0 <= i < |events| ==> events[i].sequence == base + 1 + i
  }

  lemma {:induction false} OfCpuAppend(a: seq<Event>, b: seq<Event>, cpu: nat)
    ensures OfCpu(a + b, cpu) == OfCpu(a, cpu) + OfCpu(b, cpu)
  {
    if a == [] {
      assert a + b == b;
    } else {
      assert (a + b)[0] == a[0] && (a + b)[1..] == a[1..] + b;
      OfCpuAppend(a[1..], b, cpu);
      var own, theirs := OfCpu(a[1..], cpu), OfCpu(b, cpu);
      assert [a[0]] + (own + theirs) == [a[0]] + own + theirs;
    }
  }

  lemma OfCpuExtend(events: seq<Event>, e: Event, cpu: nat)
    ensures OfCpu(events + [e], cpu) == if e.cpu == cpu then OfCpu(events, cpu) + [e] else OfCpu(events, cpu)
  {
    OfCpuAppend(events, [e], cpu);
    assert [e][1..] == [];
  }

  lemma {:induction false} AboveCommutes(events: seq<Event>, after: nat, cpu: nat)
    ensures Above(OfCpu(events, cpu), after) == OfCpu(Above(events, after), cpu)
  {
    if events == [] {
      assert OfCpu(events, cpu) == [] && Above(events, after) == [];
    } else {
      AboveCommutes(events[1..], after, cpu);
      var own, later := OfCpu(events[1..], cpu), Above(events[1..], after);
      assert ([events[0]] + own)[1..] == own;
      assert ([events[0]] + later)[1..] == later;
    }
  }

  lemma {:induction false} AboveAll(events: seq<Event>, after: nat)
    requires forall i :: 0 <= i < |events| ==> events[i].sequence > after
    ensures Above(events, after) == events
  {
    if events != [] {
      AboveAll(events[1..], after);
    }
  }

  lemma {:induction false} AboveContiguous(events: seq<Event>, base: nat, after: nat)
    requires Contiguous(events, base) && base <= after <= base + |events|
    ensures Above(events, after) == events[after - base..]
  {
    if after == base {
      AboveAll(events, after);
    } else {
      AboveContiguous(events[1..], base + 1, after);
    }
  }

  /** A CPU's queue keeps the lower bound and the order of the whole queue. */
  lemma {:induction false} OfCpuAscending(events: seq<Event>, cpu: nat, floor: nat)
    requires Ascending(events)
    requires forall i :: 0 <= i < |events| ==> floor <= events[i].sequence
    ensures Ascending(OfCpu(events, cpu))
    ensures forall i :: 0 <= i < |OfCpu(events, cpu)| ==> floor <= OfCpu(events, cpu)[i].sequence
  {
    if events != [] {
      OfCpuAscending(events[1..], cpu, events[0].sequence + 1);
    }
  }

  /** The next event heads the queue of exactly one CPU. */
  lemma HeadOfQueue(events: seq<Event>, cpu: nat, base: nat)
    requires Contiguous(events, base)
    ensures var own := OfCpu(events, cpu);
            (own != [] && own[0].sequence == base + 1) <==> (events != [] && events[0].cpu == cpu)
    ensures events != [] && events[0].cpu == cpu ==> OfCpu(events, cpu)[0] == events[0]
  {
    if events != [] && events[0].cpu != cpu {
      OfCpuAscending(events[1..], cpu, base + 2);
    }
  }

  // ---------------------------------------------------------------------------
  // The backlog is the disjoint union of the per-CPU queues
  // ---------------------------------------------------------------------------

  function Backlogs(events: seq<Event>, cpus: nat): nat {
    if cpus == 0 then 0 else Backlogs(events, cpus - 1) + |OfCpu(events, cpus - 1)|
  }

  lemma {:induction false} BacklogsAdd(e: Event, events: seq<Event>, cpus: nat)
    ensures Backlogs([e] + events, cpus) ==
            Backlogs(events, cpus) + if e.cpu < cpus then 1 else 0
  {
    assert ([e] + events)[1..] == events;
    if cpus > 0 {
      BacklogsAdd(e, events, cpus - 1);
    }
  }

  lemma {:induction false} BacklogsTotal(events: seq<Event>, cpus: nat)
    requires forall i :: 0 <= i < |events| ==> events[i].cpu < cpus
    ensures Backlogs(events, cpus) == |events|
  {
    if events == [] {
      BacklogsEmpty(cpus);
    } else {
      BacklogsTotal(events[1..], cpus);
      BacklogsAdd(events[0], events[1..], cpus);
      assert events == [events[0]] + events[1..];
    }
  }

  lemma {:induction false} BacklogsEmpty(cpus: nat)
    ensures Backlogs([], cpus) == 0
  {
    if cpus > 0 {
      BacklogsEmpty(cpus - 1);
    }
  }

  lemma {:induction false} BacklogsBound(events: seq<Event>, cpus: nat, limit: nat)
    requires forall c :: 0 <= c < cpus ==> |OfCpu(events, c)| <= limit
    ensures Backlogs(events, cpus) <= cpus * limit
  {
    if cpus > 0 {
      BacklogsBound(events, cpus - 1, limit);
      assert cpus * limit == (cpus - 1) * limit + limit;
    }
  }

  // ---------------------------------------------------------------------------
  // Loss accounting
  // ---------------------------------------------------------------------------

  function Reported(records: seq<Event>): nat {
    if records == [] then 0 else Reported(records[..|records| - 1]) + records[|records| - 1].value
  }

  /** Each loss record carries the running total of losses in its address field. */
  ghost predicate RunningTotals(records: seq<Event>) {
    forall i :: 0 <= i < |records| ==>
      records[i].kind == EVENT_LOSS && records[i].observedAddress == Reported(records[..i + 1])
  }

  ghost predicate Accounted(r: CpuRing, refused: nat, records: seq<Event>) {
    && r.lost == refused
    && r.lost == r.lossPending + Reported(records)
    && RunningTotals(records)
  }

  lemma AccountLoss(r: CpuRing, refused: nat, records: seq<Event>, record: Event)
    requires Accounted(r, refused, records)
    requires record.kind == EVENT_LOSS
    requires record.value == r.lossPending && record.observedAddress == r.lost
    ensures Accounted(r.(lossPending := 0), refused, records + [record])
  {
    var more := records + [record];
    assert more[..|records|] == records;
    forall i | 0 <= i < |more|
      ensures more[i].observedAddress == Reported(more[..i + 1])
    {
      if i < |records| {
        assert more[..i + 1] == records[..i + 1];
      } else {
        assert more[..i + 1] == more;
      }
    }
  }

  // ---------------------------------------------------------------------------
  // The per-CPU rings hold the backlog
  // ---------------------------------------------------------------------------

  ghost predicate Tracks(cpus: seq<CpuRing>, backlog: seq<Event>) {
    && |cpus| == MAX_CPUS
    && forall c :: 0 <= c < MAX_CPUS ==> cpus[c].Valid() && cpus[c].Live() == OfCpu(backlog, c)
  }

  ghost predicate Numbered(backlog: seq<Event>, consumerAfter: nat, nextSequence: nat) {
    && consumerAfter + |backlog| == nextSequence <= UINT64_MAX
    && Contiguous(backlog, consumerAfter)
    && forall i :: 0 <= i < |backlog| ==> backlog[i].cpu < MAX_CPUS
  }

  ghost predicate AllIntact(stamp: Stamp, backlog: seq<Event>) {
    forall i :: 0 <= i < |backlog| ==> Intact(stamp, backlog[i])
  }

  ghost predicate Books(cpus: seq<CpuRing>, refused: seq<nat>, records: seq<seq<Event>>) {
    && |cpus| == |refused| == |records| == MAX_CPUS
    && forall c :: 0 <= c < MAX_CPUS ==> Accounted(cpus[c], refused[c], records[c])
  }

  lemma NumberedAppend(backlog: seq<Event>, consumerAfter: nat, nextSequence: nat, e: Event)
    requires Numbered(backlog, consumerAfter, nextSequence) && nextSequence < UINT64_MAX
    requires e.cpu < MAX_CPUS && e.sequence == nextSequence + 1
    ensures Numbered(backlog + [e], consumerAfter, nextSequence + 1)
  {
  }

  lemma NumberedDrop(backlog: seq<Event>, consumerAfter: nat, nextSequence: nat, n: nat)
    requires Numbered(backlog, consumerAfter, nextSequence) && n <= |backlog|
    ensures Numbered(backlog[n..], consumerAfter + n, nextSequence)
  {
  }

  lemma IntactAppend(stamp: Stamp, backlog: seq<Event>, e: Event)
    requires AllIntact(stamp, backlog) && Intact(stamp, e)
    ensures AllIntact(stamp, backlog + [e])
  {
  }

  lemma IntactDrop(stamp: Stamp, backlog: seq<Event>, n: nat)
    requires AllIntact(stamp, backlog) && n <= |backlog|
    ensures AllIntact(stamp, backlog[n..])
  {
  }

  lemma SlotFree(r: CpuRing)
    requires r.Valid() && r.head < r.tail + CAPACITY
    ensures r.At(r.head).commit == 0
  {
  }

  lemma NumberedBound(backlog: seq<Event>, consumerAfter: nat, nextSequence: nat)
    requires Numbered(backlog, consumerAfter, nextSequence)
    ensures consumerAfter + |backlog| == nextSequence <= UINT64_MAX
    ensures Contiguous(backlog, consumerAfter) && Ascending(backlog)
    ensures backlog != [] ==> backlog[0].cpu < MAX_CPUS && backlog[0].sequence == consumerAfter + 1
  {
  }

  lemma SizesMatch(cpus: seq<CpuRing>, refused: seq<nat>, records: seq<seq<Event>>)
    requires Books(cpus, refused, records)
    ensures |cpus| == |refused| == |records| == MAX_CPUS
  {
  }

  lemma TracksUsed(cpus: seq<CpuRing>, backlog: seq<Event>, cpu: nat)
    requires Tracks(cpus, backlog) && cpu < MAX_CPUS
    ensures cpus[cpu].Valid()
    ensures |OfCpu(backlog, cpu)| == cpus[cpu].head - cpus[cpu].tail
  {
    assert |cpus[cpu].Live()| == cpus[cpu].head - cpus[cpu].tail;
  }

  lemma TracksStore(cpus: seq<CpuRing>, backlog: seq<Event>, e: Event)
    requires Tracks(cpus, backlog) && e.cpu < MAX_CPUS && e.sequence > 0
    requires |OfCpu(backlog, e.cpu)| < CAPACITY
    ensures Tracks(cpus[e.cpu := cpus[e.cpu].Store(e)], backlog + [e])
  {
    TracksUsed(cpus, backlog, e.cpu);
    StoreAppends(cpus[e.cpu], e);
    var cpus' := cpus[e.cpu := cpus[e.cpu].Store(e)];
    forall c | 0 <= c < MAX_CPUS
      ensures cpus'[c].Valid() && cpus'[c].Live() == OfCpu(backlog + [e], c)
    {
      OfCpuExtend(backlog, e, c);
    }
  }

  /** Loss counters are not part of the queue. */
  lemma TracksCount(cpus: seq<CpuRing>, backlog: seq<Event>, cpu: nat, lost: nat, pending: nat)
    requires Tracks(cpus, backlog) && cpu < MAX_CPUS
    ensures Tracks(cpus[cpu := cpus[cpu].(lost := lost, lossPending := pending)], backlog)
  {
    var r := cpus[cpu];
    var r' := r.(lost := lost, lossPending := pending);
    assert forall i: nat :: r'.At(i) == r.At(i);
    assert r'.Live() == r.Live();
  }

  ghost predicate SameCounters(cpus: seq<CpuRing>, cpus': seq<CpuRing>) {
    && |cpus| == |cpus'|
    && forall c :: 0 <= c < |cpus| ==> cpus[c].lost == cpus'[c].lost && cpus[c].lossPending == cpus'[c].lossPending
  }

  lemma BooksSame(cpus: seq<CpuRing>, cpus': seq<CpuRing>, refused: seq<nat>, records: seq<seq<Event>>)
    requires Books(cpus, refused, records) && SameCounters(cpus, cpus')
    ensures Books(cpus', refused, records)
  {
  }

  lemma BooksRefuse(cpus: seq<CpuRing>, refused: seq<nat>, records: seq<seq<Event>>, cpu: nat)
    requires Books(cpus, refused, records) && cpu < MAX_CPUS
    ensures var r := cpus[cpu];
            Books(cpus[cpu := r.(lost := r.lost + 1, lossPending := r.lossPending + 1)],
                  refused[cpu := refused[cpu] + 1], records)
  {
  }

  lemma BooksReport(cpus: seq<CpuRing>, refused: seq<nat>, records: seq<seq<Event>>, cpu: nat, record: Event)
    requires Books(cpus, refused, records) && cpu < MAX_CPUS
    requires record.kind == EVENT_LOSS
    requires record.value == cpus[cpu].lossPending && record.observedAddress == cpus[cpu].lost
    ensures Books(cpus[cpu := cpus[cpu].(lossPending := 0)], refused, records[cpu := records[cpu] + [record]])
  {
    AccountLoss(cpus[cpu], refused[cpu], records[cpu], record);
  }

  lemma TracksDrop(cpus: seq<CpuRing>, backlog: seq<Event>)
    requires Tracks(cpus, backlog) && backlog != [] && backlog[0].cpu < MAX_CPUS
    ensures var cpu := backlog[0].cpu; Tracks(cpus[cpu := cpus[cpu].Drop()], backlog[1..])
  {
    TracksUsed(cpus, backlog, backlog[0].cpu);
    DropRemovesFirst(cpus[backlog[0].cpu]);
  }

  /** The next event, if there is one, is at the tail of its CPU's ring, and no
      other ring has it there. */
  lemma TracksNext(cpus: seq<CpuRing>, backlog: seq<Event>, cpu: nat, base: nat)
    requires Tracks(cpus, backlog) && Contiguous(backlog, base) && cpu < MAX_CPUS
    ensures |cpus[cpu].slots| == CAPACITY
    ensures (cpus[cpu].tail < cpus[cpu].head && cpus[cpu].At(cpus[cpu].tail).commit == base + 1) <==>
            (backlog != [] && backlog[0].cpu == cpu)
    ensures backlog != [] && backlog[0].cpu == cpu ==> cpus[cpu].At(cpus[cpu].tail).event == backlog[0]
  {
    HeadOfQueue(backlog, cpu, base);
    if cpus[cpu].tail < cpus[cpu].head {
      assert cpus[cpu].Live()[0] == cpus[cpu].At(cpus[cpu].tail).event;
    }
  }

  // ---------------------------------------------------------------------------
  // spz_discard_through
  // ---------------------------------------------------------------------------

  method DiscardThrough(r: CpuRing, after: nat) returns (r': CpuRing)
    requires r.Valid() && Ascending(r.Live())
    ensures r'.Valid() && r'.Live() == Above(r.Live(), after)
    ensures r'.head == r.head && r'.lost == r.lost && r'.lossPending == r.lossPending
  {
    r' := r;
    while r'.tail < r'.head
      invariant r'.Valid() && Ascending(r'.Live())
      invariant Above(r'.Live(), after) == Above(r.Live(), after)
      invariant r'.head == r.head && r'.lost == r.lost && r'.lossPending == r.lossPending
      decreases r'.head - r'.tail
    {
      var commit := r'.At(r'.tail).commit;
      assert commit == r'.Live()[0].sequence;
      if commit == 0 || commit > after {
        break;
      }
      DropRemovesFirst(r');
      r' := r'.Drop();
    }
    AboveAll(r'.Live(), after);
  }

  /** The loop of spz_ring_pop_after that acknowledges on every CPU. */
  method DiscardAll(cpus: seq<CpuRing>, ghost backlog: seq<Event>, after: nat) returns (cpus': seq<CpuRing>)
    requires Tracks(cpus, backlog) && Ascending(backlog)
    ensures Tracks(cpus', Above(backlog, after)) && SameCounters(cpus, cpus')
  {
    cpus' := cpus;
    for cpu := 0 to MAX_CPUS
      invariant SameCounters(cpus, cpus')
      invariant forall c :: 0 <= c < cpu ==> cpus'[c].Valid() && cpus'[c].Live() == OfCpu(Above(backlog, after), c)
      invariant forall c :: cpu <= c < MAX_CPUS ==> cpus'[c] == cpus[c]
    {
      OfCpuAscending(backlog, cpu, 0);
      AboveCommutes(backlog, after, cpu);
      var r := DiscardThrough(cpus[cpu], after);
      cpus' := cpus'[cpu := r];
    }
  }

  datatype Pop = Refused(code: Code) | Nothing | Delivered(event: Event)

  class Ring {
    const stamp: Stamp
    var nextSequence: nat
    var consumerAfter: nat
    var cpus: seq<CpuRing>

    /** The undelivered events, in sequence order. */
    ghost var backlog: seq<Event>
    /** Pushes refused for lack of space, per CPU. */
    ghost var refused: seq<nat>
    /** Loss records the ring generated, per CPU. */
    ghost var records: seq<seq<Event>>

    ghost predicate Valid()
      reads this
    {
      && Tracks(cpus, backlog)
      && Numbered(backlog, consumerAfter, nextSequence)
      && AllIntact(stamp, backlog)
      && Books(cpus, refused, records)
    }

    constructor (stamp: Stamp)
      ensures Valid() && this.stamp == stamp && backlog == [] && consumerAfter == 0
      ensures forall c :: 0 <= c < MAX_CPUS ==> refused[c] == 0 && records[c] == []
    {
      this.stamp := stamp;
      nextSequence, consumerAfter, backlog := 0, 0, [];
      var blank := Event(0, 0, 0, 0, 0, 0, 0, 0, [], Zeros(32));
      cpus := seq(MAX_CPUS, i => CpuRing(0, 0, 0, 0, seq(CAPACITY, j => Slot(0, blank))));
      refused := seq(MAX_CPUS, i => 0);
      records := seq(MAX_CPUS, i => []);
    }

    /** spz_publish.  The slot at head is always free here, so -EBUSY is not a result. */
    method Publish(cpu: nat, source: Event) returns (code: Code)
      requires Valid() && cpu < MAX_CPUS
      modifies this`cpus, this`nextSequence, this`backlog
      ensures Valid()
      ensures code == NoSpace <==> |OfCpu(old(backlog), cpu)| == CAPACITY
      ensures code == Overflow <==>
              |OfCpu(old(backlog), cpu)| < CAPACITY && old(nextSequence) == UINT64_MAX
      ensures code != NoSpace && code != Overflow ==> code == Done
      ensures code == Done ==> nextSequence == old(nextSequence) + 1
      ensures backlog == if code == Done then old(backlog) + [Sealed(stamp, source, cpu, nextSequence)]
                         else old(backlog)
      ensures code != Done ==> cpus == old(cpus)
      ensures SameCounters(old(cpus), cpus)
    {
      hide Tracks, Numbered, AllIntact, Books, CpuRing.Valid;
      SizesMatch(cpus, refused, records);
      NumberedBound(backlog, consumerAfter, nextSequence);
      TracksUsed(cpus, backlog, cpu);
      var r := cpus[cpu];
      if r.head - r.tail >= CAPACITY {
        return NoSpace;
      }
      SlotFree(r);
      if r.At(r.head).commit != 0 {
        assert false;
      }
      if nextSequence == UINT64_MAX {
        return Overflow;
      }
      nextSequence := nextSequence + 1;
      var event := Sealed(stamp, source, cpu, nextSequence);
      TracksStore(cpus, backlog, event);
      NumberedAppend(backlog, consumerAfter, nextSequence - 1, event);
      IntactAppend(stamp, backlog, event);
      cpus := cpus[cpu := r.Store(event)];
      BooksSame(old(cpus), cpus, refused, records);
      backlog := backlog + [event];
      return Done;
    }

    /** The branch of spz_ring_push that publishes a loss record. */
    method ReportLoss(cpu: nat) returns (code: Code)
      requires Valid() && cpu < MAX_CPUS && |OfCpu(backlog, cpu)| < CAPACITY
      modifies this`cpus, this`nextSequence, this`backlog, this`records
      ensures Valid()
      ensures code == if old(nextSequence) == UINT64_MAX then Overflow else Done
      ensures code == Overflow ==> backlog == old(backlog) && records == old(records) && cpus == old(cpus)
      ensures code == Done ==>
                var r := old(cpus)[cpu];
                var record := Sealed(stamp, LossRecord(r.lossPending, r.lost), cpu, old(nextSequence) + 1);
                && nextSequence == old(nextSequence) + 1
                && backlog == old(backlog) + [record]
                && |OfCpu(backlog, cpu)| == |OfCpu(old(backlog), cpu)| + 1
                && records == old(records)[cpu := old(records)[cpu] + [record]]
    {
      hide Tracks, Numbered, AllIntact, Books;
      SizesMatch(cpus, refused, records);
      var pending := cpus[cpu].lossPending;
      code := Publish(cpu, LossRecord(pending, cpus[cpu].lost));
      if code != Done {
        return;
      }
      ghost var record := backlog[|backlog| - 1];
      OfCpuExtend(old(backlog), record, cpu);
      TracksCount(cpus, backlog, cpu, cpus[cpu].lost, 0);
      BooksReport(cpus, refused, records, cpu, record);
      records := records[cpu := records[cpu] + [record]];
      cpus := cpus[cpu := cpus[cpu].(lossPending := cpus[cpu].lossPending - pending)];
    }

    /** Whether a push on `cpu` announces earlier losses first. */
    ghost predicate Announces(cpu: nat)
      requires |cpus| == MAX_CPUS && cpu < MAX_CPUS
      reads this
    {
      cpus[cpu].lossPending != 0 && |OfCpu(backlog, cpu)| + 2 <= CAPACITY
    }

    /** The events an accepted push appends. */
    ghost function Appended(cpu: nat, event: Event): seq<Event>
      requires |cpus| == MAX_CPUS && cpu < MAX_CPUS
      reads this
    {
      var r := cpus[cpu];
      if Announces(cpu) then
        [Sealed(stamp, LossRecord(r.lossPending, r.lost), cpu, nextSequence + 1),
         Sealed(stamp, event, cpu, nextSequence + 2)]
      else
        [Sealed(stamp, event, cpu, nextSequence + 1)]
    }

    /** spz_ring_push. */
    method Push(cpu: nat, event: Event) returns (code: Code)
      requires Valid()
      modifies this
      ensures Valid() && consumerAfter == old(consumerAfter)
      ensures code == Invalid <==> cpu >= MAX_CPUS
      ensures code == NoSpace <==> cpu < MAX_CPUS && |OfCpu(old(backlog), cpu)| == CAPACITY
      ensures code == Overflow <==>
              && cpu < MAX_CPUS && |OfCpu(old(backlog), cpu)| < CAPACITY
              && old(nextSequence) + |old(Appended(cpu, event))| > UINT64_MAX
      ensures code in {Invalid, NoSpace, Overflow, Done}
      ensures code in {Invalid, NoSpace} ==> backlog == old(backlog)
      ensures code == Done ==> backlog == old(backlog) + old(Appended(cpu, event))
      ensures code == Overflow ==>
                backlog == old(backlog) + old(Appended(cpu, event))[..UINT64_MAX - old(nextSequence)]
      ensures refused == if code == NoSpace then old(refused)[cpu := old(refused)[cpu] + 1] else old(refused)
      ensures code == Done ==>
                records == if old(Announces(cpu))
                           then old(records)[cpu := old(records)[cpu] + [old(Appended(cpu, event))[0]]]
                           else old(records)
    {
      hide Tracks, Numbered, AllIntact, Books, OfCpu, Contiguous, Ascending, Sealed, Intact;
      SizesMatch(cpus, refused, records);
      NumberedBound(backlog, consumerAfter, nextSequence);
      if cpu >= MAX_CPUS {
        return Invalid;
      }
      var r := cpus[cpu];
      TracksUsed(cpus, backlog, cpu);
      var freeSlots := CAPACITY - (r.head - r.tail);
      if freeSlots == 0 {
        TracksCount(cpus, backlog, cpu, r.lost + 1, r.lossPending + 1);
        BooksRefuse(cpus, refused, records, cpu);
        refused := refused[cpu := refused[cpu] + 1];
        cpus := cpus[cpu := r.(lost := r.lost + 1, lossPending := r.lossPending + 1)];
        return NoSpace;
      }
      if r.lossPending != 0 && freeSlots >= 2 {
        code := ReportLoss(cpu);
        if code != Done {
          return;
        }
      }
      code := Publish(cpu, event);
      if code == NoSpace {
        assert false;
      }
    }

    /** spz_ring_pop_after.  Every acknowledgement inside the window delivers the
        very next event; -EAGAIN is not a result. */
    method PopAfter(after: nat) returns (result: Pop)
      requires Valid()
      modifies this`cpus, this`consumerAfter, this`backlog
      ensures Valid()
      ensures result == Refused(Stale) <==> after < old(consumerAfter)
      ensures result == Refused(Range) <==> after > nextSequence
      ensures result == Refused(Overflow) <==> after == nextSequence == UINT64_MAX
      ensures result.Refused? ==> backlog == old(backlog) && consumerAfter == old(consumerAfter)
      ensures result.Refused? ==> result.code in {Stale, Range, Overflow}
      ensures result == Nothing ==> after == nextSequence && backlog == [] && consumerAfter == after
      ensures result.Delivered? ==>
                && old(consumerAfter) <= after < nextSequence && consumerAfter == after + 1
                && result.event == old(backlog)[after - old(consumerAfter)]
                && result.event.sequence == after + 1
                && backlog == old(backlog)[after + 1 - old(consumerAfter)..]
    {
      hide Tracks, Numbered, AllIntact, Books, Contiguous, Ascending, Above, SameCounters, Intact;
      SizesMatch(cpus, refused, records);
      NumberedBound(backlog, consumerAfter, nextSequence);
      if after < consumerAfter {
        return Refused(Stale);
      }
      if after > nextSequence {
        return Refused(Range);
      }
      if after == UINT64_MAX {
        return Refused(Overflow);
      }
      ghost var seen := after - consumerAfter;
      AboveContiguous(backlog, consumerAfter, after);
      NumberedDrop(backlog, consumerAfter, nextSequence, seen);
      IntactDrop(stamp, backlog, seen);
      cpus := DiscardAll(cpus, backlog, after);
      BooksSame(old(cpus), cpus, refused, records);
      backlog := backlog[after - consumerAfter..];
      consumerAfter := after;
      result := Select(after + 1);
    }

    /** The scan and delivery at the end of spz_ring_pop_after. */
    method Select(expected: nat) returns (result: Pop)
      requires Valid() && expected == consumerAfter + 1
      modifies this`cpus, this`consumerAfter, this`backlog
      ensures Valid()
      ensures old(backlog) == [] ==> result == Nothing && backlog == [] && consumerAfter == old(consumerAfter)
      ensures old(backlog) != [] ==>
                && result == Delivered(old(backlog)[0]) && backlog == old(backlog)[1..]
                && consumerAfter == expected
    {
      hide Tracks, Numbered, AllIntact, Books, Contiguous, Ascending;
      SizesMatch(cpus, refused, records);
      NumberedBound(backlog, consumerAfter, nextSequence);
      for cpu := 0 to MAX_CPUS
        invariant backlog != [] ==> cpu <= backlog[0].cpu
        invariant cpus == old(cpus) && backlog == old(backlog) && consumerAfter == old(consumerAfter)
      {
        var r := cpus[cpu];
        TracksNext(cpus, backlog, cpu, consumerAfter);
        if r.tail >= r.head {
          continue;
        }
        var slot := r.At(r.tail);
        if slot.commit != expected {
          continue;
        }
        result := Delivered(slot.event);
        TracksDrop(cpus, backlog);
        NumberedDrop(backlog, consumerAfter, nextSequence, 1);
        IntactDrop(stamp, backlog, 1);
        cpus := cpus[cpu := r.Drop()];
        BooksSame(old(cpus), cpus, refused, records);
        backlog := backlog[1..];
        consumerAfter := expected;
        return;
      }
      result := Nothing;
    }

    /** At most CPUs times capacity events can be waiting. */
    lemma BacklogBounded()
      requires Valid()
      ensures |backlog| <= MAX_CPUS * CAPACITY
    {
      BacklogsTotal(backlog, MAX_CPUS);
      forall c | 0 <= c < MAX_CPUS
        ensures |OfCpu(backlog, c)| <= CAPACITY
      {
        TracksUsed(cpus, backlog, c);
      }
      BacklogsBound(backlog, MAX_CPUS, CAPACITY);
    }
  }
}
