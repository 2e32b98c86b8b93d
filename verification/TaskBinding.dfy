/** Task binding in kpm/core/task.c with any number of threads interleaved.

    The binding is a block of words guarded by a sequence counter: writers make it
    odd with a compare-and-swap, store their fields one word at a time and make it
    even again; readers copy the words one at a time and look at the counter before
    and after.  Every step below is one access to shared memory, except that a writer
    reads generation and state together while it holds the counter. */
module TaskBinding {
  import opened Common

  // The words of struct spz_binding after `sequence`, in the order the snapshot reads them.
  const REQUEST_WORDS: nat := 24
  const IDENTITY_WORDS: nat := 23
  const CELLS: nat := 49
  const COMM: nat := 16

  const EMPTY: nat := 0
  const PENDING: nat := 1
  const BOUND: nat := 2
  const STALE: nat := 3
  const EXITED: nat := 4

  const BIND_PID: nat := 1
  const BIND_TGID: nat := 2
  const BIND_EITHER: nat := 3

  type Words = seq<nat>

  /** binding_id, pid, mode, uid, start_boot_time, comm[16], has_uid, has_comm, has_start_boot_time */
  type Request = w: Words | |w| == REQUEST_WORDS witness seq(REQUEST_WORDS, i => 0)

  /** generation, task_cookie, pid, tgid, uid, start_time, start_boot_time, comm[16] */
  type Identity = w: Words | |w| == IDENTITY_WORDS witness seq(IDENTITY_WORDS, i => 0)

  type Cells = w: Words | |w| == CELLS witness seq(CELLS, i => 0)

  function Block(generation: nat, state: nat, request: Request, identity: Identity): Cells {
    [generation, state] + request + identity
  }

  function Generation(c: Cells): nat {
    c[0]
  }

  function StateOf(c: Cells): nat {
    c[1]
  }

  function RequestOf(c: Cells): Request {
    c[2..26]
  }

  function IdentityOf(c: Cells): Identity {
    c[26..]
  }

  function ZeroWords(n: nat): (z: Words)
    ensures |z| == n
  {
    seq(n, i => 0)
  }

  // ---------------------------------------------------------------------------
  // Predicates without state
  // ---------------------------------------------------------------------------

  /** strncmp(a, b, 16) == 0, from character `k` on. */
  predicate CommEqual(a: Words, b: Words, k: nat)
    requires |a| == |b| == COMM && k <= COMM
    decreases COMM - k
  {
    k == COMM || (a[k] == b[k] && (a[k] == 0 || CommEqual(a, b, k + 1)))
  }

  predicate CommByte(b: nat) {
    || 'a' as nat <= b <= 'z' as nat || 'A' as nat <= b <= 'Z' as nat || '0' as nat <= b <= '9' as nat
    || b in {'.' as nat, '_' as nat, ':' as nat, '-' as nat}
  }

  /** spz_safe_request_comm from character `k` on. */
  predicate SafeComm(comm: Words, k: nat)
    requires |comm| == COMM && k <= COMM
    decreases COMM - k
  {
    k < COMM && if comm[k] == 0 then k != 0 else CommByte(comm[k]) && SafeComm(comm, k + 1)
  }

  predicate RequestValid(r: Request) {
    && r[0] != 0 && r[1] != 0
    && r[2] in {BIND_PID, BIND_TGID, BIND_EITHER}
    && r[21] <= 1 && r[22] <= 1 && r[23] <= 1
    && (r[22] != 0 ==> SafeComm(r[5..21], 0))
  }

  predicate SelectorMatches(r: Request, i: Identity) {
    && (if r[2] == BIND_PID then i[2] == r[1]
        else if r[2] == BIND_TGID then i[3] == r[1]
        else i[2] == r[1] || i[3] == r[1])
    && (r[21] != 0 ==> i[4] == r[3])
    && (r[22] != 0 ==> CommEqual(i[7..23], r[5..21], 0))
    && (r[23] != 0 ==> i[6] == r[4])
  }

  predicate SameStrongIdentity(a: Identity, b: Identity) {
    a[2] == b[2] && a[3] == b[3] && a[5] == b[5] && a[6] == b[6]
  }

  function NextGeneration(g: nat): nat {
    if g == UINT64_MAX then 1 else g + 1
  }

  // ---------------------------------------------------------------------------
  // Threads
  // ---------------------------------------------------------------------------

  datatype Code = Fine | Matched | Marked | Unmatched | Inval | Again | StaleErr | GoneErr | ReadErr

  /** The kernel task a caller looks at: its identity words, whether it is exiting and whether
      its fields could be read. */
  datatype Task = Task(identity: Identity, exiting: bool, readable: bool)

  datatype Op =
    | TakeSnapshot
    | SetBinding(request: Request)
    | ClearBinding
    | Observe(task: Task)
    | MatchCurrent(expected: nat, task: Task)
    | MarkExit(task: Task)

  datatype Write =
    | SetWrite(request: Request)
    | ClearWrite
    | BindWrite(generation: nat, identity: Identity, at: nat)
    | MarkWrite(generation: nat, replacement: nat, stale: Code, busy: Code, done: Code, task: Task, at: nat)

  datatype Store = Store(cell: nat, value: nat)

  datatype Thread =
    | Idle
    | Starting(op: Op)                              // snapshot: about to load sequence
    | Loading(op: Op, before: nat, got: Words)      // snapshot: words copied so far
    | Wanting(w: Write)                             // about to take the counter
    | Checking(w: Write)                            // counter taken, nothing stored yet
    | Storing(w: Write, todo: seq<Store>, code: Code)
    | Finished(code: Code, identity: Identity, at: nat)

  datatype Lock = Free | Held(owner: nat)

  /** `lock` and `versions` are bookkeeping: which thread made the counter odd, and the
      block after each completed write section (versions[k] when the counter is 2k). */
  datatype State = State(sequence: nat, block: Cells, threads: seq<Thread>, lock: Lock, versions: seq<Cells>)

  function StoresAt(base: nat, values: Words): seq<Store>
    decreases |values|
  {
    if values == [] then [] else [Store(base, values[0])] + StoresAt(base + 1, values[1..])
  }

  /** Whether the writer, having read generation and state, goes on to store. */
  predicate Proceeds(c: Cells, w: Write) {
    match w
    case SetWrite(_) => true
    case ClearWrite => true
    case BindWrite(g, _, _) => Generation(c) == g && StateOf(c) == PENDING
    case MarkWrite(g, _, _, _, _, _, _) => Generation(c) == g && StateOf(c) == BOUND
  }

  /** The stores of a write section, in program order. */
  function Plan(c: Cells, w: Write): seq<Store> {
    match w
    case SetWrite(r) =>
      StoresAt(2, r) + StoresAt(26, ZeroWords(23)) + [Store(0, NextGeneration(Generation(c))), Store(1, PENDING)]
    case ClearWrite =>
      StoresAt(2, ZeroWords(24)) + StoresAt(26, ZeroWords(23))
      + [Store(0, NextGeneration(Generation(c))), Store(1, EMPTY)]
    case BindWrite(_, i, _) => StoresAt(26, i) + [Store(1, BOUND)]
    case MarkWrite(_, replacement, _, _, _, _, _) => [Store(1, replacement)]
  }

  function StaleCode(w: Write): Code {
    if w.MarkWrite? then w.stale else StaleErr
  }

  function DoneCode(w: Write): Code {
    match w
    case BindWrite(_, _, _) => Matched
    case MarkWrite(_, _, _, _, done, _, _) => done
    case _ => Fine
  }

  function BusyCode(w: Write): Code {
    if w.MarkWrite? then w.busy else Again
  }

  function WithGeneration(i: Identity, g: nat): Identity {
    i[0 := g]
  }

  function Nobody(): Identity {
    ZeroWords(IDENTITY_WORDS)
  }

  /** What a caller does with a successful snapshot, taken of version `at`. */
  function Decide(op: Op, c: Cells, at: nat): Thread {
    var g, state := Generation(c), StateOf(c);
    match op
    case Observe(task) =>
      if state == BOUND then Starting(MatchCurrent(g, task))
      else if state == STALE then Finished(StaleErr, Nobody(), at)
      else if state == EXITED then Finished(GoneErr, Nobody(), at)
      else if state != PENDING then Finished(Unmatched, Nobody(), at)
      else if !task.readable then Finished(ReadErr, Nobody(), at)
      else if task.exiting || !SelectorMatches(RequestOf(c), task.identity) then Finished(Unmatched, Nobody(), at)
      else Wanting(BindWrite(g, WithGeneration(task.identity, g), at))
    case MatchCurrent(expected, task) =>
      if g != expected || state == STALE then Finished(StaleErr, Nobody(), at)
      else if state == EXITED then Finished(GoneErr, Nobody(), at)
      else if state != BOUND then Finished(Unmatched, Nobody(), at)
      else if !task.readable then Finished(ReadErr, Nobody(), at)
      else if task.identity[2] != IdentityOf(c)[2] then Finished(Unmatched, Nobody(), at)
      else if !SameStrongIdentity(IdentityOf(c), task.identity) then
        Wanting(MarkWrite(g, STALE, StaleErr, StaleErr, StaleErr, task, at))
      else if task.exiting then Wanting(MarkWrite(g, EXITED, GoneErr, GoneErr, GoneErr, task, at))
      else Finished(Matched, WithGeneration(task.identity, g), at)
    case MarkExit(task) =>
      if state != BOUND then Finished(Unmatched, Nobody(), at)
      else if !task.readable then Finished(ReadErr, Nobody(), at)
      else if !SameStrongIdentity(IdentityOf(c), task.identity) then Finished(Unmatched, Nobody(), at)
      else Wanting(MarkWrite(g, EXITED, StaleErr, Again, Marked, task, at))
    case _ => Finished(Fine, Nobody(), at)
  }

  /** The first step of a call. */
  function Begin(op: Op): Thread {
    match op
    case SetBinding(r) => if RequestValid(r) then Wanting(SetWrite(r)) else Finished(Inval, Nobody(), 0)
    case ClearBinding => Wanting(ClearWrite)
    case _ => Starting(op)
  }

  /** A thread's choice: what to call when idle, and whether to give up when the
      attempt limits allow it. */
  datatype Choice = Go(op: Op) | GiveUp

  function Become(s: State, t: nat, next: Thread): State
    requires t < |s.threads|
  {
    s.(threads := s.threads[t := next])
  }

  /** One step of thread `t`. */
  function Advance(s: State, t: nat, choice: Choice): State
    requires t < |s.threads|
  {
    match s.threads[t]
    case Idle => if choice.Go? then Become(s, t, Begin(choice.op)) else s
    case Finished(_, _, _) => Become(s, t, Idle)
    case Starting(op) =>
      if s.sequence % 2 == 0 then Become(s, t, Loading(op, s.sequence, []))
      else if choice.GiveUp? then Become(s, t, Finished(Again, Nobody(), 0))
      else s
    case Loading(op, before, got) =>
      if |got| < CELLS then Become(s, t, Loading(op, before, got + [s.block[|got|]]))
      else if s.sequence == before then Become(s, t, Decide(op, got[..CELLS], before / 2))
      else if choice.GiveUp? then Become(s, t, Finished(Again, Nobody(), 0))
      else Become(s, t, Starting(op))
    case Wanting(w) =>
      if s.sequence % 2 == 0 then
        Become(s, t, Checking(w)).(sequence := s.sequence + 1, lock := Held(t))
      else if choice.GiveUp? then Become(s, t, Finished(BusyCode(w), Nobody(), 0))
      else s
    case Checking(w) =>
      if Proceeds(s.block, w) then Become(s, t, Storing(w, Plan(s.block, w), DoneCode(w)))
      else Become(s, t, Storing(w, [], StaleCode(w)))
    case Storing(w, todo, code) =>
      if todo != [] then
        var st := todo[0];
        Become(s, t, Storing(w, todo[1..], code))
        .(block := if st.cell < CELLS then s.block[st.cell := st.value] else s.block)
      else
        Become(s, t, Finished(code, if w.BindWrite? then w.identity else Nobody(), |s.versions|))
        .(sequence := s.sequence + 1, lock := Free, versions := s.versions + [s.block])
  }

  // ---------------------------------------------------------------------------
  // What a write section as a whole does to the block
  // ---------------------------------------------------------------------------

  function Apply(c: Cells, todo: seq<Store>): Cells
    decreases |todo|
  {
    if todo == [] then c
    else Apply(if todo[0].cell < CELLS then c[todo[0].cell := todo[0].value] else c, todo[1..])
  }

  function Outcome(c: Cells, w: Write): Cells {
    if Proceeds(c, w) then Apply(c, Plan(c, w)) else c
  }

  lemma {:induction false} ApplyAppend(c: Cells, a: seq<Store>, b: seq<Store>)
    ensures Apply(c, a + b) == Apply(Apply(c, a), b)
    decreases |a|
  {
    if a == [] {
      assert a + b == b;
    } else {
      assert (a + b)[0] == a[0] && (a + b)[1..] == a[1..] + b;
      ApplyAppend(if a[0].cell < CELLS then c[a[0].cell := a[0].value] else c, a[1..], b);
    }
  }

  lemma ApplyFirst(c: Cells, base: nat, values: Words)
    requires base < CELLS && values != []
    ensures Apply(c, StoresAt(base, values)) == Apply(c[base := values[0]], StoresAt(base + 1, values[1..]))
  {
    assert StoresAt(base, values)[1..] == StoresAt(base + 1, values[1..]);
  }

  /** Storing consecutive words replaces that part of the block. */
  lemma {:induction false} ApplyStoresAt(c: Cells, base: nat, values: Words)
    requires base + |values| <= CELLS
    ensures Apply(c, StoresAt(base, values)) == c[..base] + values + c[base + |values|..]
    decreases |values|
  {
    if values == [] {
      assert c == c[..base] + values + c[base..];
    } else {
      ApplyFirst(c, base, values);
      var c', rest, tail := c[base := values[0]], values[1..], c[base + |values|..];
      ApplyStoresAt(c', base + 1, rest);
      hide Apply, StoresAt;
      assert c'[..base + 1] == c[..base] + [values[0]];
      assert c'[base + 1 + |rest|..] == tail;
      Regroup(c[..base], values[0], rest, tail);
      assert values == [values[0]] + rest;
    }
  }

  lemma Regroup(front: Words, x: nat, rest: Words, tail: Words)
    ensures front + [x] + rest + tail == front + ([x] + rest) + tail
  {
  }

  /** set and clear replace all four parts. */
  lemma ApplyReset(c: Cells, r: Request, g: nat, state: nat)
    ensures Apply(c, StoresAt(2, r) + StoresAt(26, ZeroWords(23)) + [Store(0, g), Store(1, state)]) ==
            Block(g, state, r, Nobody())
  {
    hide Apply, StoresAt;
    var a, b, z := StoresAt(2, r), StoresAt(26, ZeroWords(23)), [Store(0, g), Store(1, state)];
    hide Apply, StoresAt;
    ApplyAppend(c, a + b, z);
    ApplyAppend(c, a, b);
    ApplyStoresAt(c, 2, r);
    var c1 := Apply(c, a);
    ApplyStoresAt(c1, 26, ZeroWords(23));
    var c2 := Apply(c1, b);
    assert c2 == c[..2] + r + ZeroWords(23);
    ApplyTwo(c2, z[0], z[1]);
    assert c2[0 := g][1 := state] == Block(g, state, r, Nobody());
  }

  lemma ApplyTwo(c: Cells, p: Store, q: Store)
    requires p.cell < CELLS && q.cell < CELLS
    ensures Apply(c, [p, q]) == c[p.cell := p.value][q.cell := q.value]
    ensures Apply(c, [p]) == c[p.cell := p.value]
  {
    assert [p, q][1..] == [q] && [q][1..] == [] && [p][1..] == [];
    assert Apply(c, [p, q]) == Apply(c[p.cell := p.value], [q]);
  }

  lemma ApplyBind(c: Cells, i: Identity)
    ensures Apply(c, StoresAt(26, i) + [Store(1, BOUND)]) == Block(Generation(c), BOUND, RequestOf(c), i)
  {
    var a, z := StoresAt(26, i), [Store(1, BOUND)];
    ApplyAppend(c, a, z);
    ApplyStoresAt(c, 26, i);
    var c1 := Apply(c, a);
    ApplyTwo(c1, z[0], z[0]);
    assert c1 == c[..26] + i;
    assert c1[1 := BOUND] == Block(Generation(c), BOUND, RequestOf(c), i);
  }

  /** The effect of one completed write section: nothing, a new pending request, a
      cleared binding, an identity that satisfies the pending request, or the end of
      a bound one. */
  ghost predicate Succeeds(a: Cells, b: Cells) {
    || b == a
    || (RequestValid(RequestOf(b)) &&
        b == Block(NextGeneration(Generation(a)), PENDING, RequestOf(b), Nobody()))
    || b == Block(NextGeneration(Generation(a)), EMPTY, ZeroWords(24), Nobody())
    || (&& StateOf(a) == PENDING && IdentityOf(b)[0] == Generation(a)
        && SelectorMatches(RequestOf(a), IdentityOf(b))
        && b == Block(Generation(a), BOUND, RequestOf(a), IdentityOf(b)))
    || (StateOf(a) == BOUND && (b == a[1 := STALE] || b == a[1 := EXITED]))
  }

  lemma BlockParts(g: nat, state: nat, r: Request, i: Identity)
    ensures var c := Block(g, state, r, i);
            Generation(c) == g && StateOf(c) == state && RequestOf(c) == r && IdentityOf(c) == i
  {
  }

  /** The promises a writer carries into its section. */
  ghost predicate Promised(w: Write, versions: seq<Cells>) {
    match w
    case SetWrite(r) => RequestValid(r)
    case ClearWrite => true
    case BindWrite(g, i, at) =>
      && at < |versions| && Generation(versions[at]) == g && StateOf(versions[at]) == PENDING
      && i[0] == g && SelectorMatches(RequestOf(versions[at]), i)
    case MarkWrite(g, replacement, stale, busy, done, task, at) =>
      && stale != Matched && busy != Matched && done != Matched
      && at < |versions| && Generation(versions[at]) == g && StateOf(versions[at]) == BOUND
      && task.readable
      && (replacement == EXITED || replacement == STALE)
      && (replacement == EXITED ==> SameStrongIdentity(IdentityOf(versions[at]), task.identity))
      && (replacement == STALE ==>
            && task.identity[2] == IdentityOf(versions[at])[2]
            && !SameStrongIdentity(IdentityOf(versions[at]), task.identity))
  }

  lemma OutcomeSucceeds(c: Cells, w: Write, versions: seq<Cells>)
    requires Promised(w, versions)
    requires w.BindWrite? && Proceeds(c, w) ==> RequestOf(versions[w.at]) == RequestOf(c)
    ensures Succeeds(c, Outcome(c, w))
  {
    hide SelectorMatches, RequestValid, StoresAt;
    if Proceeds(c, w) {
      var g := NextGeneration(Generation(c));
      match w
      case SetWrite(r) =>
        ApplyReset(c, r, g, PENDING);
        BlockParts(g, PENDING, r, Nobody());
      case ClearWrite =>
        ApplyReset(c, ZeroWords(24), g, EMPTY);
      case BindWrite(_, i, _) =>
        ApplyBind(c, i);
        BlockParts(Generation(c), BOUND, RequestOf(c), i);
      case MarkWrite(_, replacement, _, _, _, _, _) =>
        ApplyTwo(c, Store(1, replacement), Store(1, replacement));
    }
  }

  // ---------------------------------------------------------------------------
  // The life of a binding across versions
  // ---------------------------------------------------------------------------

  ghost predicate Versions(vs: seq<Cells>) {
    && |vs| > 0 && vs[0] == ZeroWords(CELLS)
    && forall k :: 0 < k < |vs| ==> Succeeds(vs[k - 1], vs[k])
  }

  predicate HasIdentity(c: Cells) {
    StateOf(c) == BOUND || StateOf(c) == STALE || StateOf(c) == EXITED
  }

  /** `b` is `a` or a later stage of the same generation. */
  ghost predicate SameLife(a: Cells, b: Cells) {
    && Generation(a) == Generation(b) && RequestOf(a) == RequestOf(b)
    && (HasIdentity(a) ==> HasIdentity(b) && IdentityOf(a) == IdentityOf(b))
    && (StateOf(a) == STALE || StateOf(a) == EXITED ==> b == a)
    && (StateOf(a) == EMPTY ==> StateOf(b) == EMPTY)
  }

  lemma SucceedsLife(a: Cells, b: Cells)
    requires Succeeds(a, b) && Generation(a) < UINT64_MAX
    ensures Generation(b) == Generation(a) + 1 || SameLife(a, b)
    ensures HasIdentity(b) ==> HasIdentity(a) || SelectorMatches(RequestOf(b), IdentityOf(b))
    ensures HasIdentity(b) && !HasIdentity(a) ==> IdentityOf(b)[0] == Generation(b)
    ensures StateOf(b) <= EXITED || StateOf(b) == StateOf(a)
  {
    hide SelectorMatches, RequestValid;
    BlockParts(NextGeneration(Generation(a)), PENDING, RequestOf(b), Nobody());
    BlockParts(NextGeneration(Generation(a)), EMPTY, ZeroWords(24), Nobody());
    BlockParts(Generation(a), BOUND, RequestOf(a), IdentityOf(b));
  }

  lemma SameLifeTransitive(a: Cells, b: Cells, c: Cells)
    requires SameLife(a, b) && SameLife(b, c)
    ensures SameLife(a, c)
  {
  }

  /** Generations never go back, and versions of one generation are stages of one life. */
  lemma {:induction false} LifeCycle(vs: seq<Cells>, i: nat, j: nat)
    requires Versions(vs) && i <= j < |vs| <= UINT64_MAX
    ensures Generation(vs[i]) <= Generation(vs[j]) <= j
    ensures Generation(vs[i]) == Generation(vs[j]) ==> SameLife(vs[i], vs[j])
    decreases j
  {
    if j > 0 {
      LifeCycle(vs, 0, j - 1);
      SucceedsLife(vs[j - 1], vs[j]);
      if i < j {
        LifeCycle(vs, i, j - 1);
        if Generation(vs[i]) == Generation(vs[j]) {
          SameLifeTransitive(vs[i], vs[j - 1], vs[j]);
        }
      }
    }
  }

  /** An installed identity satisfies the request of its own generation. */
  lemma {:induction false} InstalledMatches(vs: seq<Cells>, k: nat)
    requires Versions(vs) && k < |vs| <= UINT64_MAX && HasIdentity(vs[k])
    ensures SelectorMatches(RequestOf(vs[k]), IdentityOf(vs[k]))
    ensures IdentityOf(vs[k])[0] == Generation(vs[k])
  {
    hide SelectorMatches, RequestValid;
    if k > 0 {
      LifeCycle(vs, 0, k - 1);
      SucceedsLife(vs[k - 1], vs[k]);
      if HasIdentity(vs[k - 1]) {
        InstalledMatches(vs, k - 1);
        NoFreshIdentity(vs[k - 1], vs[k]);
      }
    }
  }

  lemma NoFreshIdentity(a: Cells, b: Cells)
    requires Succeeds(a, b) && HasIdentity(a) && HasIdentity(b)
    ensures RequestOf(b) == RequestOf(a) && IdentityOf(b) == IdentityOf(a) && Generation(b) == Generation(a)
  {
    hide SelectorMatches, RequestValid;
    BlockParts(NextGeneration(Generation(a)), PENDING, RequestOf(b), Nobody());
    BlockParts(NextGeneration(Generation(a)), EMPTY, ZeroWords(24), Nobody());
  }

  // ---------------------------------------------------------------------------
  // The invariant
  // ---------------------------------------------------------------------------

  predicate InSection(t: Thread) {
    t.Checking? || t.Storing?
  }

  function Last(vs: seq<Cells>): Cells
    requires |vs| > 0
  {
    vs[|vs| - 1]
  }

  /** What every thread may rely on while others move. */
  ghost predicate ThreadInv(th: Thread, sequence: nat, vs: seq<Cells>)
    requires |vs| > 0
  {
    match th
    case Loading(_, before, got) =>
      && before % 2 == 0 && before / 2 < |vs| && before <= sequence && |got| <= CELLS
      && (sequence == before ==> got == vs[before / 2][..|got|])
    case Wanting(w) => Promised(w, vs)
    case Checking(w) => Promised(w, vs)
    case Storing(w, _, code) =>
      Promised(w, vs) && (code == Matched ==> w.BindWrite? && Proceeds(Last(vs), w))
    case Finished(code, i, at) =>
      code == Matched ==>
        && at < |vs| && StateOf(vs[at]) == BOUND && i[0] == Generation(vs[at])
        && SameStrongIdentity(IdentityOf(vs[at]), i)
    case _ => true
  }

  /** What the thread that holds the counter has done so far. */
  ghost predicate SectionInv(th: Thread, block: Cells, last: Cells) {
    match th
    case Checking(_) => block == last
    case Storing(w, todo, code) => Apply(block, todo) == Outcome(last, w)
    case _ => false
  }

  ghost predicate Inv(s: State) {
    && Versions(s.versions)
    && s.sequence == 2 * (|s.versions| - 1) + (if s.lock.Held? then 1 else 0)
    && (forall t :: 0 <= t < |s.threads| ==> ThreadInv(s.threads[t], s.sequence, s.versions))
    && (forall t :: 0 <= t < |s.threads| && InSection(s.threads[t]) ==> s.lock == Held(t))
    && (s.lock.Free? ==> s.block == Last(s.versions))
    && (s.lock.Held? ==> s.lock.owner < |s.threads| &&
                         SectionInv(s.threads[s.lock.owner], s.block, Last(s.versions)))
  }

  function Start(threads: nat): State {
    State(0, ZeroWords(CELLS), seq(threads, i => Idle), Free, [ZeroWords(CELLS)])
  }

  lemma DecideInv(op: Op, c: Cells, at: nat, sequence: nat, vs: seq<Cells>)
    requires at < |vs| && vs[at] == c
    ensures ThreadInv(Decide(op, c, at), sequence, vs) && !InSection(Decide(op, c, at))
  {
    if op.Observe? {
      SelectorIgnoresGeneration(RequestOf(c), op.task.identity, Generation(c));
    }
  }

  lemma SelectorIgnoresGeneration(r: Request, i: Identity, g: nat)
    ensures SelectorMatches(r, WithGeneration(i, g)) <==> SelectorMatches(r, i)
  {
    assert WithGeneration(i, g)[7..23] == i[7..23];
  }

  lemma ThreadInvStays(th: Thread, sequence: nat, sequence': nat, vs: seq<Cells>)
    requires |vs| > 0 && ThreadInv(th, sequence, vs) && sequence <= sequence'
    ensures ThreadInv(th, sequence', vs)
  {
    hide SelectorMatches, SameStrongIdentity;
  }

  lemma ThreadInvGrows(th: Thread, sequence: nat, sequence': nat, vs: seq<Cells>, v: Cells)
    requires |vs| > 0 && ThreadInv(th, sequence, vs) && sequence < sequence' && !th.Storing?
    ensures ThreadInv(th, sequence', vs + [v])
  {
    hide SelectorMatches, SameStrongIdentity;
  }

  /** A step that touches no shared word. */
  lemma LocalKeeps(s: State, t: nat, next: Thread)
    requires Inv(s) && t < |s.threads| && !InSection(s.threads[t]) && !InSection(next)
    requires ThreadInv(next, s.sequence, s.versions)
    ensures Inv(Become(s, t, next))
  {
    hide Versions, ThreadInv, SectionInv;
    assert s.lock.Held? ==> s.lock.owner != t by {
      if s.lock.Held? && s.lock.owner == t {
        OwnerInSection(s);
      }
    }
  }

  lemma OwnerInSection(s: State)
    requires Inv(s) && s.lock.Held?
    ensures InSection(s.threads[s.lock.owner])
  {
  }

  lemma TakeKeeps(s: State, t: nat)
    requires Inv(s) && t < |s.threads| && s.threads[t].Wanting? && s.sequence % 2 == 0
    ensures Inv(Become(s, t, Checking(s.threads[t].w)).(sequence := s.sequence + 1, lock := Held(t)))
  {
    hide Versions, ThreadInv;
    var next := Checking(s.threads[t].w);
    assert ThreadInv(s.threads[t], s.sequence, s.versions);
    CheckingInv(s.threads[t].w, s.sequence, s.versions);
    forall u | 0 <= u < |s.threads| && u != t
      ensures ThreadInv(s.threads[u], s.sequence + 1, s.versions)
    {
      ThreadInvStays(s.threads[u], s.sequence, s.sequence + 1, s.versions);
    }
  }

  lemma CheckingInv(w: Write, sequence: nat, vs: seq<Cells>)
    requires |vs| > 0 && ThreadInv(Wanting(w), sequence, vs)
    ensures ThreadInv(Checking(w), sequence + 1, vs)
  {
  }

  /** A step inside a write section that leaves the counter alone. */
  lemma SectionKeeps(s: State, t: nat, next: Thread, block: Cells)
    requires Inv(s) && s.lock == Held(t) && t < |s.threads|
    requires InSection(next) && ThreadInv(next, s.sequence, s.versions)
    requires SectionInv(next, block, Last(s.versions))
    ensures Inv(Become(s, t, next).(block := block))
  {
    hide Versions, ThreadInv, SectionInv;
  }

  /** The version a write section leaves continues the history, and a binding writer
      leaves with the identity it installed. */
  lemma ReleaseVersion(s: State, t: nat)
    requires Inv(s) && t < |s.threads| && s.threads[t].Storing? && s.threads[t].todo == []
    requires |s.versions| <= UINT64_MAX
    ensures Succeeds(Last(s.versions), s.block)
    ensures var w := s.threads[t].w;
            ThreadInv(Finished(s.threads[t].code, if w.BindWrite? then w.identity else Nobody(), |s.versions|),
                      s.sequence + 1, s.versions + [s.block])
  {
    hide Succeeds, SelectorMatches, RequestValid, Plan;
    var w, last := s.threads[t].w, Last(s.versions);
    assert ThreadInv(s.threads[t], s.sequence, s.versions) && SectionInv(s.threads[t], s.block, last);
    assert s.block == Outcome(last, w);
    if w.BindWrite? && Proceeds(last, w) {
      LifeCycle(s.versions, w.at, |s.versions| - 1);
      BindOutcome(last, w);
      BlockParts(Generation(last), BOUND, RequestOf(last), w.identity);
    }
    OutcomeSucceeds(last, w, s.versions);
  }

  lemma BindOutcome(c: Cells, w: Write)
    requires w.BindWrite? && Proceeds(c, w)
    ensures Outcome(c, w) == Block(Generation(c), BOUND, RequestOf(c), w.identity)
  {
    ApplyBind(c, w.identity);
  }

  lemma ReleaseKeeps(s: State, t: nat)
    requires Inv(s) && t < |s.threads| && s.threads[t].Storing? && s.threads[t].todo == []
    requires |s.versions| <= UINT64_MAX
    ensures Inv(Advance(s, t, GiveUp))
  {
    hide Succeeds, ThreadInv, SectionInv;
    var vs := s.versions + [s.block];
    assert s.lock == Held(t);
    ReleaseVersion(s, t);
    forall u | 0 <= u < |s.threads| && u != t
      ensures ThreadInv(s.threads[u], s.sequence + 1, vs)
    {
      ThreadInvGrows(s.threads[u], s.sequence, s.sequence + 1, s.versions, s.block);
    }
  }

  lemma AdvanceKeeps(s: State, t: nat, choice: Choice)
    requires Inv(s) && t < |s.threads| && |s.versions| <= UINT64_MAX
    ensures Inv(Advance(s, t, choice))
  {
    hide Versions, Succeeds, SelectorMatches, Plan, Decide;
    var th := s.threads[t];
    assert ThreadInv(th, s.sequence, s.versions);
    match th
    case Wanting(w) =>
      if s.sequence % 2 == 0 {
        TakeKeeps(s, t);
      } else {
        BusyInv(w, s.sequence, s.versions);
        LocalKeeps(s, t, Finished(BusyCode(w), Nobody(), 0));
      }
    case Checking(w) =>
      assert s.lock == Held(t) && s.block == Last(s.versions);
      if Proceeds(s.block, w) {
        SectionKeeps(s, t, Storing(w, Plan(s.block, w), DoneCode(w)), s.block);
      } else {
        SectionKeeps(s, t, Storing(w, [], StaleCode(w)), s.block);
      }
    case Storing(w, todo, code) =>
      if todo == [] {
        ReleaseKeeps(s, t);
      } else {
        var block: Cells := if todo[0].cell < CELLS then s.block[todo[0].cell := todo[0].value] else s.block;
        SectionKeeps(s, t, Storing(w, todo[1..], code), block);
      }
    case Loading(op, before, got) =>
      LoadingKeeps(s, t, choice);
    case _ =>
      LocalKeeps(s, t, Advance(s, t, choice).threads[t]);
  }

  lemma BusyInv(w: Write, sequence: nat, vs: seq<Cells>)
    requires |vs| > 0 && Promised(w, vs)
    ensures ThreadInv(Finished(BusyCode(w), Nobody(), 0), sequence, vs)
  {
  }

  lemma LoadingKeeps(s: State, t: nat, choice: Choice)
    requires Inv(s) && t < |s.threads| && s.threads[t].Loading?
    ensures Inv(Advance(s, t, choice))
  {
    hide Versions, Decide, SectionInv;
    var op, before, got := s.threads[t].op, s.threads[t].before, s.threads[t].got;
    assert ThreadInv(s.threads[t], s.sequence, s.versions);
    if |got| < CELLS {
      var more := got + [s.block[|got|]];
      if s.sequence == before {
        assert s.block == s.versions[before / 2];
        assert more == s.versions[before / 2][..|more|];
      }
      LocalKeeps(s, t, Loading(op, before, more));
    } else if s.sequence == before {
      assert got == s.versions[before / 2];
      DecideInv(op, got[..CELLS], before / 2, s.sequence, s.versions);
      LocalKeeps(s, t, Decide(op, got[..CELLS], before / 2));
    } else {
      LocalKeeps(s, t, Advance(s, t, choice).threads[t]);
    }
  }

  // ---------------------------------------------------------------------------
  // Every run
  // ---------------------------------------------------------------------------

  datatype Action = Action(thread: nat, choice: Choice)

  /** A run of any number of threads, shorter than a lap of the generation counter. */
  ghost predicate Run(states: seq<State>, actions: seq<Action>) {
    && |states| == |actions| + 1 && states[0] == Start(|states[0].threads|)
    && (forall i :: 0 <= i < |states| ==> |states[i].versions| <= UINT64_MAX)
    && forall i :: 0 <= i < |actions| ==>
         && actions[i].thread < |states[i].threads|
         && states[i + 1] == Advance(states[i], actions[i].thread, actions[i].choice)
  }

  lemma {:induction false} RunInv(states: seq<State>, actions: seq<Action>)
    requires Run(states, actions)
    ensures Inv(states[|actions|])
  {
    var n := |actions|;
    if n > 0 {
      RunInv(states[..n], actions[..n - 1]);
      AdvanceKeeps(states[n - 1], actions[n - 1].thread, actions[n - 1].choice);
    }
  }

  /** No torn snapshot: when a thread's second look at the counter succeeds, the words
      it copied one by one are the block as one completed write section left it. */
  lemma SnapshotsAtomic(states: seq<State>, actions: seq<Action>, t: nat)
    requires Run(states, actions) && t < |states[|actions|].threads|
    requires var s := states[|actions|];
             s.threads[t].Loading? && |s.threads[t].got| == CELLS && s.sequence == s.threads[t].before
    ensures var s := states[|actions|];
            var k := s.threads[t].before / 2;
            k < |s.versions| && s.threads[t].got == s.versions[k]
  {
    RunInv(states, actions);
    var s := states[|actions|];
    assert ThreadInv(s.threads[t], s.sequence, s.versions);
  }

  /** Of the versions a run goes through, those of one generation have one request and
      at most one identity; the identity satisfies that request; stale and exited are
      final. */
  lemma OneIdentityPerGeneration(states: seq<State>, actions: seq<Action>, i: nat, j: nat)
    requires Run(states, actions)
    requires i <= j < |states[|actions|].versions|
    requires Generation(states[|actions|].versions[i]) == Generation(states[|actions|].versions[j])
    ensures var vs := states[|actions|].versions;
            && RequestOf(vs[i]) == RequestOf(vs[j])
            && (HasIdentity(vs[i]) ==>
                  && HasIdentity(vs[j]) && IdentityOf(vs[i]) == IdentityOf(vs[j])
                  && SelectorMatches(RequestOf(vs[i]), IdentityOf(vs[i]))
                  && IdentityOf(vs[i])[0] == Generation(vs[i]))
            && (StateOf(vs[i]) == STALE || StateOf(vs[i]) == EXITED ==> vs[j] == vs[i])
  {
    RunInv(states, actions);
    LifeCycle(states[|actions|].versions, i, j);
    if HasIdentity(states[|actions|].versions[i]) {
      InstalledMatches(states[|actions|].versions, i);
    }
  }

  /** A caller told "this is the bound task" looked at a task whose pid, tgid and both
      start times are those of an identity that was bound, in the generation reported. */
  lemma MatchedMeansBound(states: seq<State>, actions: seq<Action>, t: nat)
    requires Run(states, actions) && t < |states[|actions|].threads|
    requires states[|actions|].threads[t].Finished? && states[|actions|].threads[t].code == Matched
    ensures var s := states[|actions|];
            var Finished(_, identity, at) := s.threads[t];
            && at < |s.versions| && StateOf(s.versions[at]) == BOUND
            && SameStrongIdentity(IdentityOf(s.versions[at]), identity)
            && identity[0] == Generation(s.versions[at])
            && SelectorMatches(RequestOf(s.versions[at]), IdentityOf(s.versions[at]))
  {
    RunInv(states, actions);
    var s := states[|actions|];
    assert ThreadInv(s.threads[t], s.sequence, s.versions);
    InstalledMatches(s.versions, s.threads[t].at);
  }

  /** Who ends a binding: it goes stale only on the account of a task seen with the bound pid and
      another tgid or start time, and it exits only on the account of the bound task itself. */
  lemma EndedBy(states: seq<State>, actions: seq<Action>)
    requires Run(states, actions) && |actions| > 0
    requires var n := |actions|;
             var vs, vs' := states[n - 1].versions, states[n].versions;
             && vs' == vs + [states[n - 1].block] && |vs| > 0
             && StateOf(Last(vs)) == BOUND
             && (StateOf(Last(vs')) == STALE || StateOf(Last(vs')) == EXITED)
    ensures var n := |actions|;
            var th := states[n - 1].threads[actions[n - 1].thread];
            && th.Storing? && th.w.MarkWrite? && th.w.task.readable
            && var bound, seen := IdentityOf(Last(states[n - 1].versions)), th.w.task.identity;
            && seen[2] == bound[2]
            && (StateOf(Last(states[n].versions)) == EXITED <==>
                  seen[3] == bound[3] && seen[5] == bound[5] && seen[6] == bound[6])
  {
    var n := |actions|;
    var s, t := states[n - 1], actions[n - 1].thread;
    RunInv(states[..n], actions[..n - 1]);
    assert states[..n][n - 1] == s;
    assert ThreadInv(s.threads[t], s.sequence, s.versions);
    hide Versions, SelectorMatches, RequestValid, Plan, Run;
    var w, last := s.threads[t].w, Last(s.versions);
    assert s.block == Outcome(last, w);
    MarkOnly(last, w);
    LifeCycle(s.versions, w.at, |s.versions| - 1);
  }

  lemma MarkOnly(c: Cells, w: Write)
    requires StateOf(c) == BOUND && (StateOf(Outcome(c, w)) == STALE || StateOf(Outcome(c, w)) == EXITED)
    ensures w.MarkWrite? && Proceeds(c, w) && StateOf(Outcome(c, w)) == w.replacement
  {
    hide StoresAt;
    var g := NextGeneration(Generation(c));
    match w
    case SetWrite(r) => ApplyReset(c, r, g, PENDING);
    case ClearWrite => ApplyReset(c, ZeroWords(24), g, EMPTY);
    case BindWrite(_, _, _) =>
    case MarkWrite(_, replacement, _, _, _, _, _) => ApplyTwo(c, Store(1, replacement), Store(1, replacement));
  }

  /** Write sections never overlap. */
  lemma WritersExclude(states: seq<State>, actions: seq<Action>, t: nat, u: nat)
    requires Run(states, actions) && t < |states[|actions|].threads| && u < |states[|actions|].threads|
    requires InSection(states[|actions|].threads[t]) && InSection(states[|actions|].threads[u])
    ensures t == u
  {
    RunInv(states, actions);
  }
}
