/** What the calls of kpm/core/task.c answer and leave behind: for a call that nobody disturbs,
    its whole outcome; for a call in any interleaving, what a refusal says. */
module TaskOutcomes {
  import opened Common
  import opened TaskBinding

  // ---------------------------------------------------------------------------
  // Requests and selectors, field by field
  // ---------------------------------------------------------------------------

  /** A name stored in 16 bytes: what stands before the first zero byte. */
  function Name(comm: Words): Words {
    if comm == [] || comm[0] == 0 then [] else [comm[0]] + Name(comm[1..])
  }

  lemma {:induction false} SameName(a: Words, b: Words, k: nat)
    requires |a| == |b| == COMM && k <= COMM
    ensures CommEqual(a, b, k) <==> Name(a[k..]) == Name(b[k..])
    decreases COMM - k
  {
    if k < COMM {
      SameName(a, b, k + 1);
      assert a[k..][1..] == a[k + 1..] && b[k..][1..] == b[k + 1..];
      var x, y := Name(a[k..]), Name(b[k..]);
      if a[k] != 0 && b[k] != 0 {
        assert x == [a[k]] + Name(a[k + 1..]) && y == [b[k]] + Name(b[k + 1..]);
        assert x[1..] == Name(a[k + 1..]) && y[1..] == Name(b[k + 1..]);
      }
    }
  }

  /** A task that the request asks for.  Words 1 to 4 of a request are pid, mode, uid and
      start time, 5 to 20 the name, 21 to 23 say which of uid, name and start time count; words
      2, 3, 4 and 6 of an identity are pid, tgid, uid and start time, 7 to 22 the name. */
  predicate Wanted(r: Request, i: Identity) {
    && (|| (r[2] != 2 && i[2] == r[1])
        || (r[2] != 1 && i[3] == r[1]))
    && (r[21] == 0 || i[4] == r[3])
    && (r[22] == 0 || Name(i[7..23]) == Name(r[5..21]))
    && (r[23] == 0 || i[6] == r[4])
  }

  lemma SelectorMeans(r: Request, i: Identity)
    ensures SelectorMatches(r, i) <==> Wanted(r, i)
  {
    SameName(i[7..23], r[5..21], 0);
    assert i[7..23][0..] == i[7..23] && r[5..21][0..] == r[5..21];
  }

  predicate Safe(name: Words) {
    forall c :: c in name ==> CommByte(c)
  }

  /** A name fit for a request: one to fifteen safe characters and a zero byte after them. */
  predicate GoodName(comm: Words) {
    0 < |Name(comm)| < |comm| && Safe(Name(comm))
  }

  lemma {:induction false} SafeMeans(comm: Words, k: nat)
    requires |comm| == COMM && k <= COMM
    ensures SafeComm(comm, k) <==>
            && |Name(comm[k..])| < COMM - k && Safe(Name(comm[k..]))
            && (k == 0 ==> Name(comm[k..]) != [])
    decreases COMM - k
  {
    if k < COMM {
      SafeMeans(comm, k + 1);
      assert comm[k..][1..] == comm[k + 1..];
      if comm[k] != 0 {
        assert Name(comm[k..]) == [comm[k]] + Name(comm[k + 1..]);
        assert comm[k] in Name(comm[k..]);
      }
    }
  }

  lemma RequestMeans(r: Request)
    ensures RequestValid(r) <==>
            && r[0] > 0 && r[1] > 0 && 1 <= r[2] <= 3 && r[21] < 2 && r[22] < 2 && r[23] < 2
            && (r[22] == 0 || GoodName(r[5..21]))
  {
    SafeMeans(r[5..21], 0);
    assert r[5..21][0..] == r[5..21];
  }

  // ---------------------------------------------------------------------------
  // One thread moving alone
  // ---------------------------------------------------------------------------

  /** `n` steps of thread `t`, none of which gives up. */
  function Alone(s: State, t: nat, n: nat): (s': State)
    requires t < |s.threads|
    ensures |s'.threads| == |s.threads|
    decreases n
  {
    if n == 0 then s else Alone(Advance(s, t, Go(TakeSnapshot)), t, n - 1)
  }

  lemma {:induction false} AloneSum(s: State, t: nat, m: nat, n: nat)
    requires t < |s.threads|
    ensures Alone(s, t, m + n) == Alone(Alone(s, t, m), t, n)
    decreases m
  {
    hide Advance;
    if m > 0 {
      assert |Advance(s, t, Go(TakeSnapshot)).threads| == |s.threads| by {
        AdvanceSize(s, t);
      }
      AloneSum(Advance(s, t, Go(TakeSnapshot)), t, m - 1, n);
    }
  }

  lemma AdvanceSize(s: State, t: nat)
    requires t < |s.threads|
    ensures |Advance(s, t, Go(TakeSnapshot)).threads| == |s.threads|
  {
    hide Decide, Plan, Proceeds;
  }

  lemma AloneOnce(s: State, t: nat)
    requires t < |s.threads|
    ensures Alone(s, t, 1) == Advance(s, t, Go(TakeSnapshot))
  {
    hide Advance;
    AdvanceSize(s, t);
    assert Alone(Advance(s, t, Go(TakeSnapshot)), t, 0) == Advance(s, t, Go(TakeSnapshot));
  }

  lemma {:induction false} LoadsAlone(s: State, t: nat, op: Op, n: nat)
    requires t < |s.threads| && n <= CELLS && s.threads[t] == Loading(op, s.sequence, s.block[..CELLS - n])
    ensures Alone(s, t, n) == Become(s, t, Loading(op, s.sequence, s.block))
    decreases n
  {
    hide Decide, Plan, Proceeds;
    if n == 0 {
      assert s.block[..CELLS] == s.block;
      assert s.threads[t := s.threads[t]] == s.threads;
    } else {
      var next := Advance(s, t, Go(TakeSnapshot));
      assert s.block[..CELLS - n] + [s.block[CELLS - n]] == s.block[..CELLS - (n - 1)];
      assert next == Become(s, t, Loading(op, s.sequence, s.block[..CELLS - (n - 1)]));
      hide Advance;
      LoadsAlone(next, t, op, n - 1);
      assert Become(next, t, Loading(op, s.sequence, s.block)) == Become(s, t, Loading(op, s.sequence, s.block));
    }
  }

  /** The binding is at rest and the thread begins to read it. */
  predicate Begins(s: State, t: nat, op: Op) {
    t < |s.threads| && s.threads[t] == Starting(op) && s.sequence % 2 == 0
  }

  /** Steps of a snapshot that nobody disturbs. */
  const SNAPSHOT := 51

  lemma SnapshotAlone(s: State, t: nat, op: Op)
    requires Begins(s, t, op)
    ensures Alone(s, t, SNAPSHOT) == Become(s, t, Decide(op, s.block, s.sequence / 2))
  {
    hide Decide, Plan, Proceeds;
    var a := Become(s, t, Loading(op, s.sequence, []));
    AloneOnce(s, t);
    assert Alone(s, t, 1) == a;
    assert s.block[..0] == [];
    LoadsAlone(a, t, op, CELLS);
    var b := Become(a, t, Loading(op, s.sequence, s.block));
    AloneOnce(b, t);
    assert s.block[..CELLS] == s.block;
    assert Advance(b, t, Go(TakeSnapshot)) == Become(b, t, Decide(op, s.block, s.sequence / 2));
    hide Alone, Advance;
    AloneSum(s, t, 1, CELLS);
    AloneSum(s, t, 1 + CELLS, 1);
    assert Become(b, t, Decide(op, s.block, s.sequence / 2)) == Become(s, t, Decide(op, s.block, s.sequence / 2));
  }

  lemma {:induction false} StoresAlone(s: State, t: nat, w: Write, todo: seq<Store>, code: Code)
    requires t < |s.threads| && s.threads[t] == Storing(w, todo, code)
    ensures Alone(s, t, |todo|) == Become(s, t, Storing(w, [], code)).(block := Apply(s.block, todo))
    decreases |todo|
  {
    hide Decide, Plan, Proceeds;
    if todo == [] {
      assert s.threads[t := s.threads[t]] == s.threads;
    } else {
      var next := Advance(s, t, Go(TakeSnapshot));
      hide Advance;
      assert next.threads == s.threads[t := Storing(w, todo[1..], code)] by {
        AdvanceStores(s, t);
      }
      AdvanceStores(s, t);
      StoresAlone(next, t, w, todo[1..], code);
      assert next.threads[t := Storing(w, [], code)] == s.threads[t := Storing(w, [], code)];
    }
  }

  lemma AdvanceStores(s: State, t: nat)
    requires t < |s.threads| && s.threads[t].Storing? && s.threads[t].todo != []
    ensures var Storing(w, todo, code) := s.threads[t];
            var block: Cells := if todo[0].cell < CELLS then s.block[todo[0].cell := todo[0].value] else s.block;
            Advance(s, t, Go(TakeSnapshot)) == Become(s, t, Storing(w, todo[1..], code)).(block := block)
  {
  }

  /** Where a write section that nobody disturbs leaves everything. */
  function Written(s: State, t: nat, w: Write): State
    requires t < |s.threads|
  {
    var block := Outcome(s.block, w);
    Become(s, t, Finished(if Proceeds(s.block, w) then DoneCode(w) else StaleCode(w),
                          if w.BindWrite? then w.identity else Nobody(), |s.versions|))
    .(sequence := s.sequence + 2, lock := Free, block := block, versions := s.versions + [block])
  }

  lemma WriteAlone(s: State, t: nat, w: Write) returns (n: nat)
    requires t < |s.threads| && s.threads[t] == Wanting(w) && s.sequence % 2 == 0
    ensures Alone(s, t, n) == Written(s, t, w)
  {
    hide Decide, Plan, Apply;
    var a := Become(s, t, Checking(w)).(sequence := s.sequence + 1, lock := Held(t));
    AloneOnce(s, t);
    assert Alone(s, t, 1) == a;
    var todo, code := if Proceeds(s.block, w) then Plan(s.block, w) else [],
                      if Proceeds(s.block, w) then DoneCode(w) else StaleCode(w);
    var b := Become(a, t, Storing(w, todo, code));
    AloneOnce(a, t);
    assert Alone(a, t, 1) == b;
    StoresAlone(b, t, w, todo, code);
    NothingApplied(s.block);
    var c := Become(b, t, Storing(w, [], code)).(block := Outcome(s.block, w));
    AloneOnce(c, t);
    hide Alone;
    AloneSum(s, t, 1, 1);
    AloneSum(s, t, 2, |todo|);
    AloneSum(s, t, 2 + |todo|, 1);
    n := 3 + |todo|;
    assert c.threads[t := Written(s, t, w).threads[t]] == Written(s, t, w).threads;
  }

  lemma NothingApplied(c: Cells)
    ensures Apply(c, []) == c
  {
  }

  // ---------------------------------------------------------------------------
  // Whole calls that nobody disturbs
  // ---------------------------------------------------------------------------

  /** The call has returned this, with the binding left so. */
  predicate Ended(s: State, t: nat, code: Code, identity: Identity, block: Cells) {
    && t < |s.threads| && s.threads[t].Finished? && s.threads[t].code == code && s.threads[t].identity == identity
    && s.block == block && s.sequence % 2 == 0 && s.lock == Free
  }

  lemma Answered(s: State, t: nat, op: Op, code: Code, identity: Identity)
    requires Begins(s, t, op) && s.lock == Free
    requires Decide(op, s.block, s.sequence / 2) == Finished(code, identity, s.sequence / 2)
    ensures Ended(Alone(s, t, SNAPSHOT), t, code, identity, s.block)
  {
    hide Decide, Alone;
    SnapshotAlone(s, t, op);
  }

  lemma AnsweredByWrite(s: State, t: nat, op: Op, w: Write) returns (n: nat)
    requires Begins(s, t, op) && Decide(op, s.block, s.sequence / 2) == Wanting(w) && Proceeds(s.block, w)
    ensures Ended(Alone(s, t, n), t, DoneCode(w), if w.BindWrite? then w.identity else Nobody(), Outcome(s.block, w))
  {
    hide Decide, Alone, Outcome, Proceeds;
    SnapshotAlone(s, t, op);
    var a := Become(s, t, Wanting(w));
    var m := WriteAlone(a, t, w);
    AloneSum(s, t, SNAPSHOT, m);
    n := SNAPSHOT + m;
  }

  /** A pending binding meets a task: a live one that it asked for is bound, with the state, the
      request and the identity stored; any other leaves it pending. */
  lemma PendingObserves(s: State, t: nat, task: Task) returns (n: nat)
    requires Begins(s, t, Observe(task)) && s.lock == Free && StateOf(s.block) == PENDING
    ensures var g, r := s.block[0], s.block[2..26];
            var f := Alone(s, t, n);
            if !task.readable then Ended(f, t, ReadErr, Nobody(), s.block)
            else if task.exiting || !Wanted(r, task.identity) then Ended(f, t, Unmatched, Nobody(), s.block)
            else
              var bound := task.identity[0 := g];
              Ended(f, t, Matched, bound, [g, BOUND] + r + bound)
  {
    hide Alone, Wanted, SelectorMatches, Outcome;
    SelectorMeans(RequestOf(s.block), task.identity);
    n := SNAPSHOT;
    if task.readable && !task.exiting && Wanted(RequestOf(s.block), task.identity) {
      var g := Generation(s.block);
      var w := BindWrite(g, WithGeneration(task.identity, g), s.sequence / 2);
      n := AnsweredByWrite(s, t, Observe(task), w);
      BindOutcome(s.block, w);
    } else {
      Answered(s, t, Observe(task), if task.readable then Unmatched else ReadErr, Nobody());
    }
  }

  /** The same process, seen again: same tgid and both start times. */
  predicate SameTask(bound: Identity, seen: Identity) {
    bound[3] == seen[3] && bound[5] == seen[5] && bound[6] == seen[6]
  }

  lemma MarkAlone(s: State, t: nat, op: Op, w: Write) returns (n: nat)
    requires Begins(s, t, op) && Decide(op, s.block, s.sequence / 2) == Wanting(w)
    requires w.MarkWrite? && w.generation == s.block[0] && StateOf(s.block) == BOUND
    ensures Ended(Alone(s, t, n), t, w.done, Nobody(), s.block[1 := w.replacement])
  {
    hide Alone, Decide;
    n := AnsweredByWrite(s, t, op, w);
    ApplyTwo(s.block, Store(1, w.replacement), Store(1, w.replacement));
  }

  /** A bound binding is asked about a task: another pid is no match; the same pid with another
      tgid or start time makes the binding stale; the bound task itself matches, or, exiting,
      ends the binding. */
  predicate Compared(s: State, f: State, t: nat, task: Task) {
    var g, bound := s.block[0], s.block[26..];
    if !task.readable then Ended(f, t, ReadErr, Nobody(), s.block)
    else if task.identity[2] != bound[2] then Ended(f, t, Unmatched, Nobody(), s.block)
    else if !SameTask(bound, task.identity) then Ended(f, t, StaleErr, Nobody(), s.block[1 := STALE])
    else if task.exiting then Ended(f, t, GoneErr, Nobody(), s.block[1 := EXITED])
    else Ended(f, t, Matched, task.identity[0 := g], s.block)
  }

  /** A task is compared with a binding of the expected generation that is bound; another
      generation and a stale binding are refused as stale. */
  lemma MatchAnswers(s: State, t: nat, expected: nat, task: Task) returns (n: nat)
    requires Begins(s, t, MatchCurrent(expected, task)) && s.lock == Free
    ensures var state, f := s.block[1], Alone(s, t, n);
            if s.block[0] != expected || state == STALE then Ended(f, t, StaleErr, Nobody(), s.block)
            else if state == EXITED then Ended(f, t, GoneErr, Nobody(), s.block)
            else if state != BOUND then Ended(f, t, Unmatched, Nobody(), s.block)
            else Compared(s, f, t, task)
  {
    hide Alone;
    var g, bound, op, at := s.block[0], IdentityOf(s.block), MatchCurrent(expected, task), s.sequence / 2;
    n := SNAPSHOT;
    if g != expected || s.block[1] == STALE {
      Answered(s, t, op, StaleErr, Nobody());
    } else if s.block[1] == EXITED {
      Answered(s, t, op, GoneErr, Nobody());
    } else if s.block[1] != BOUND {
      Answered(s, t, op, Unmatched, Nobody());
    } else if !task.readable {
      Answered(s, t, op, ReadErr, Nobody());
    } else if task.identity[2] != bound[2] {
      Answered(s, t, op, Unmatched, Nobody());
    } else if !SameTask(bound, task.identity) {
      n := MarkAlone(s, t, op, MarkWrite(g, STALE, StaleErr, StaleErr, StaleErr, task, at));
    } else if task.exiting {
      n := MarkAlone(s, t, op, MarkWrite(g, EXITED, GoneErr, GoneErr, GoneErr, task, at));
    } else {
      Answered(s, t, op, Matched, WithGeneration(task.identity, g));
    }
  }

  /** Observing a bound binding is comparing what is observed with it. */
  lemma BoundObserves(s: State, t: nat, task: Task) returns (n: nat)
    requires Begins(s, t, Observe(task)) && s.lock == Free && StateOf(s.block) == BOUND
    ensures Compared(s, Alone(s, t, n), t, task)
  {
    hide Alone, Ended, SameTask;
    var a := Become(s, t, Starting(MatchCurrent(s.block[0], task)));
    SnapshotAlone(s, t, Observe(task));
    assert Alone(s, t, SNAPSHOT) == a;
    hide Decide;
    var m := MatchAnswers(a, t, s.block[0], task);
    AloneSum(s, t, SNAPSHOT, m);
    n := SNAPSHOT + m;
  }

  /** Without a live binding there is nothing to observe. */
  lemma OthersObserve(s: State, t: nat, task: Task)
    requires Begins(s, t, Observe(task)) && s.lock == Free
    requires StateOf(s.block) != PENDING && StateOf(s.block) != BOUND
    ensures Ended(Alone(s, t, SNAPSHOT), t,
                  if s.block[1] == 3 then StaleErr else if s.block[1] == 4 then GoneErr else Unmatched,
                  Nobody(), s.block)
  {
    hide Alone;
    var code := if s.block[1] == 3 then StaleErr else if s.block[1] == 4 then GoneErr else Unmatched;
    Answered(s, t, Observe(task), code, Nobody());
  }

  /** An exit is recorded for the bound task and for no other. */
  lemma ExitsMarked(s: State, t: nat, task: Task) returns (n: nat)
    requires Begins(s, t, MarkExit(task)) && s.lock == Free
    ensures var bound := s.block[26..];
            var f := Alone(s, t, n);
            if StateOf(s.block) != BOUND then Ended(f, t, Unmatched, Nobody(), s.block)
            else if !task.readable then Ended(f, t, ReadErr, Nobody(), s.block)
            else if task.identity[2] == bound[2] && SameTask(bound, task.identity) then
              Ended(f, t, Marked, Nobody(), s.block[1 := EXITED])
            else Ended(f, t, Unmatched, Nobody(), s.block)
  {
    hide Alone;
    var bound, op := IdentityOf(s.block), MarkExit(task);
    n := SNAPSHOT;
    if StateOf(s.block) != BOUND {
      Answered(s, t, op, Unmatched, Nobody());
    } else if !task.readable {
      Answered(s, t, op, ReadErr, Nobody());
    } else if task.identity[2] == bound[2] && SameTask(bound, task.identity) {
      n := MarkAlone(s, t, op, MarkWrite(s.block[0], EXITED, StaleErr, Again, Marked, task, s.sequence / 2));
    } else {
      Answered(s, t, op, Unmatched, Nobody());
    }
  }

  /** Setting a binding: a good request becomes pending in the next generation, with no identity;
      a bad one is refused. */
  lemma SetPends(s: State, t: nat, r: Request) returns (n: nat)
    requires t < |s.threads| && s.threads[t] == Idle && s.sequence % 2 == 0 && s.lock == Free
    requires s.block[0] < UINT64_MAX
    ensures var f := Alone(Advance(s, t, Go(SetBinding(r))), t, n);
            if RequestValid(r) then Ended(f, t, Fine, Nobody(), [s.block[0] + 1, PENDING] + r + Nobody())
            else Ended(f, t, Inval, Nobody(), s.block)
  {
    hide Alone, RequestValid, Apply, StoresAt;
    var a := Advance(s, t, Go(SetBinding(r)));
    n := 0;
    if RequestValid(r) {
      n := WriteAlone(a, t, SetWrite(r));
      ApplyReset(s.block, r, s.block[0] + 1, PENDING);
    } else {
      NoSteps(a, t);
    }
  }

  lemma NoSteps(s: State, t: nat)
    requires t < |s.threads|
    ensures Alone(s, t, 0) == s
  {
  }

  /** Clearing a binding empties it and moves on to the next generation. */
  lemma ClearEmpties(s: State, t: nat) returns (n: nat)
    requires t < |s.threads| && s.threads[t] == Idle && s.sequence % 2 == 0 && s.lock == Free
    requires s.block[0] < UINT64_MAX
    ensures var f := Alone(Advance(s, t, Go(ClearBinding)), t, n);
            Ended(f, t, Fine, Nobody(), [s.block[0] + 1, EMPTY] + ZeroWords(24) + Nobody())
  {
    hide Alone, Apply, StoresAt;
    n := WriteAlone(Advance(s, t, Go(ClearBinding)), t, ClearWrite);
    ApplyReset(s.block, ZeroWords(24), s.block[0] + 1, EMPTY);
  }

  // ---------------------------------------------------------------------------
  // A refusal in any interleaving
  // ---------------------------------------------------------------------------

  /** In every interleaving, an observation that answers "not this task" read one version of the
      binding whole, and that version was empty, or pending for other tasks than this one, or
      bound to another pid. */
  lemma UnmatchedMeans(states: seq<State>, actions: seq<Action>, t: nat, task: Task)
    requires Run(states, actions) && |actions| > 0 && actions[|actions| - 1].thread == t
    requires var th := states[|actions| - 1].threads[t];
             th.Loading? && (th.op == Observe(task) || (th.op.MatchCurrent? && th.op.task == task))
    requires var th := states[|actions|].threads[t];
             th.Finished? && th.code == Unmatched
    ensures var s := states[|actions|];
            var at := s.threads[t].at;
            && at < |s.versions|
            && var v := s.versions[at];
            && StateOf(v) != STALE && StateOf(v) != EXITED
            && (StateOf(v) == PENDING && states[|actions| - 1].threads[t].op.Observe? ==>
                  task.readable && (task.exiting || !Wanted(RequestOf(v), task.identity)))
            && (StateOf(v) == BOUND ==> task.readable && task.identity[2] != IdentityOf(v)[2])
  {
    var n := |actions|;
    var s := states[n - 1];
    RunInv(states[..n], actions[..n - 1]);
    assert states[..n][n - 1] == s;
    assert ThreadInv(s.threads[t], s.sequence, s.versions);
    var before, got := s.threads[t].before, s.threads[t].got;
    assert got == s.versions[before / 2] == got[..CELLS];
    SelectorMeans(RequestOf(s.versions[before / 2]), task.identity);
    hide Versions, SelectorMatches, Wanted;
  }
}
