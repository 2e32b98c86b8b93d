/** What the calls of kpm/core/maps.c answer and leave behind when no other thread disturbs them. */
module MapsOutcomes {
  import opened Common
  import opened Crc32
  import opened MapsSnapshot

  /** `n` steps of thread `t`, which does not give up waiting. */
  function Solo(s: State, t: nat, n: nat, limits: Limits): State
    requires t < |s.threads|
    decreases n
  {
    if n == 0 then s
    else
      var s' := Advance(s, t, Proceed, limits);
      if t < |s'.threads| then Solo(s', t, n - 1, limits) else s'
  }

  lemma AdvanceSize(s: State, t: nat, limits: Limits)
    requires t < |s.threads|
    ensures |Advance(s, t, Proceed, limits).threads| == |s.threads|
  {
    hide Checksum, Serve, Load, Put;
  }

  lemma {:induction false} SoloSum(s: State, t: nat, m: nat, n: nat, limits: Limits)
    requires t < |s.threads|
    ensures |Solo(s, t, m, limits).threads| == |s.threads|
    ensures Solo(s, t, m + n, limits) == Solo(Solo(s, t, m, limits), t, n, limits)
    decreases m
  {
    hide Advance;
    if m > 0 {
      AdvanceSize(s, t, limits);
      SoloSum(Advance(s, t, Proceed, limits), t, m - 1, n, limits);
    }
  }

  lemma SoloOnce(s: State, t: nat, limits: Limits)
    requires t < |s.threads|
    ensures Solo(s, t, 1, limits) == Advance(s, t, Proceed, limits)
  {
    hide Advance;
    AdvanceSize(s, t, limits);
    assert Solo(Advance(s, t, Proceed, limits), t, 0, limits) == Advance(s, t, Proceed, limits);
  }

  /** One step more. */
  lemma SoloNext(s: State, t: nat, n: nat, limits: Limits)
    requires t < |s.threads|
    ensures |Solo(s, t, n, limits).threads| == |s.threads|
    ensures Solo(s, t, n + 1, limits) == Advance(Solo(s, t, n, limits), t, Proceed, limits)
  {
    hide Advance, Solo;
    SoloSum(s, t, n, 1, limits);
    SoloOnce(Solo(s, t, n, limits), t, limits);
  }

  // ---------------------------------------------------------------------------
  // Writing calls
  // ---------------------------------------------------------------------------

  /** Nobody writes and nobody reads. */
  predicate Quiet(s: State) {
    s.flag == Down && s.readers == 0
  }

  /** The call has returned `code`, with the snapshot left so. */
  predicate Ended(s: State, t: nat, code: Code, maps: Maps) {
    Quiet(s) && t < |s.threads| && s.threads[t] == Finished(code) && s.maps == maps
  }

  lemma {:induction false} StoresSolo(s: State, t: nat, todo: seq<Store>, limits: Limits)
    requires t < |s.threads| && s.threads[t].Storing? && s.threads[t].todo == todo
    ensures var th := s.threads[t];
            Solo(s, t, |todo|, limits) ==
            Become(s, t, Storing([], th.buffer, th.retain, th.code)).(maps := PutAll(s.maps, todo))
    decreases |todo|
  {
    hide Put, Decide, ReaderStep;
    var th := s.threads[t];
    if todo == [] {
      assert s.threads[t := th] == s.threads;
    } else {
      var s' := Advance(s, t, Proceed, limits);
      assert s' == Become(s, t, Storing(todo[1..], th.buffer, th.retain, th.code)).(maps := Put(s.maps, todo[0]));
      hide Advance;
      StoresSolo(s', t, todo[1..], limits);
      var end := Storing([], th.buffer, th.retain, th.code);
      assert s'.threads[t := end] == s.threads[t := end];
    }
  }

  lemma ReleasesSolo(s: State, t: nat, limits: Limits) returns (n: nat)
    requires t < |s.threads| && s.threads[t].Releasing?
    ensures var f := Solo(s, t, n, limits);
            && f.flag == s.flag && f.readers == s.readers && |f.threads| == |s.threads|
            && f.threads[t] == Finished(s.threads[t].code) && f.maps == s.maps
            && f.buffers == s.buffers && f.retains == s.retains
  {
    hide Release, Decide, ReaderStep;
    var Releasing(buffer, retain, code) := s.threads[t];
    SoloOnce(s, t, limits);
    SoloNext(s, t, 1, limits);
    SoloNext(s, t, 2, limits);
    n := 1 + (if buffer.Some? then 1 else 0) + (if retain.Some? then 1 else 0);
  }

  /** The thread alone in its section. */
  function Entered(s: State, t: nat, op: WriteOp): State
    requires t < |s.threads|
  {
    Become(s, t, Alone(op)).(flag := Up(t))
  }

  lemma EnterSolo(s: State, t: nat, op: WriteOp, limits: Limits)
    requires t < |s.threads| && s.threads[t] == Flagging(op) && Quiet(s)
    ensures Solo(s, t, 3, limits) == Decide(Entered(s, t, op), t, op, limits)
  {
    hide Decide, Solo, ReaderStep;
    SoloOnce(s, t, limits);
    SoloNext(s, t, 1, limits);
    SoloNext(s, t, 2, limits);
    assert Solo(s, t, 2, limits) == Entered(s, t, op);
  }

  /** From the decision on: the stores, the flag, the releases. */
  lemma SectionSolo(d: State, t: nat, limits: Limits) returns (n: nat)
    requires t < |d.threads| && d.threads[t].Storing? && d.readers == 0
    ensures var f := Solo(d, t, n, limits);
            && Ended(f, t, d.threads[t].code, PutAll(d.maps, d.threads[t].todo))
            && f.buffers == d.buffers && f.retains == d.retains
  {
    hide Solo, Decide, PutAll, ReaderStep;
    var todo := d.threads[t].todo;
    StoresSolo(d, t, todo, limits);
    SoloNext(d, t, |todo|, limits);
    var r := Solo(d, t, |todo| + 1, limits);
    var m := ReleasesSolo(r, t, limits);
    SoloSum(d, t, |todo| + 1, m, limits);
    n := |todo| + 1 + m;
  }

  /** A writing call on a quiet snapshot gets to decide, and what it decides is stored. */
  lemma WriteSolo(s: State, t: nat, op: WriteOp, limits: Limits) returns (n: nat)
    requires t < |s.threads| && s.threads[t] == Flagging(op) && Quiet(s)
    ensures var d := Decide(Entered(s, t, op), t, op, limits);
            && t < |d.threads| && d.threads[t].Storing?
            && var f := Solo(s, t, n, limits);
            && Ended(f, t, d.threads[t].code, PutAll(s.maps, d.threads[t].todo))
            && f.buffers == d.buffers && f.retains == d.retains
  {
    hide Decide, PutAll, Solo;
    DecideShape(Entered(s, t, op), t, op, limits);
    EnterSolo(s, t, op, limits);
    var d := Decide(Entered(s, t, op), t, op, limits);
    var m := SectionSolo(d, t, limits);
    SoloSum(s, t, 3, m, limits);
    n := 3 + m;
  }

  lemma DecideShape(s: State, t: nat, op: WriteOp, limits: Limits)
    requires t < |s.threads|
    ensures var d := Decide(s, t, op, limits);
            && |d.threads| == |s.threads| && d.threads[t].Storing? && d.maps == s.maps
            && d.flag == s.flag && d.readers == s.readers
  {
    hide Checksum, Transfer;
  }

  lemma NoSteps(s: State, t: nat, limits: Limits)
    requires t < |s.threads|
    ensures Solo(s, t, 0, limits) == s
  {
  }

  lemma NothingPut(m: Maps)
    ensures PutAll(m, []) == m
  {
  }

  /** What a snapshot of the captured generation answers for what the backend renders. */
  function Rendering(renders: bool, bytes: Option<seq<Byte>>, claimed: nat, limits: Limits): Code {
    var length := if bytes.Some? then |bytes.value| else claimed;
    if !renders then BackendErr
    else if length > limits.snapshot then TooBig
    else if bytes.None? || length == 0 then Unclean
    else Fine
  }

  /** A snapshot succeeds exactly for the generation captured and for a text the backend renders
      whole, not empty and not too long; it then is that text under the number asked for.  In
      every other case the snapshot is left as it was. */
  lemma SnapshotAnswers(
      s: State, t: nat, g: nat, id: nat, renders: bool, bytes: Option<seq<Byte>>, claimed: nat, limits: Limits)
    returns (n: nat)
    requires t < |s.threads| && s.threads[t] == Idle && Quiet(s)
    ensures var a := Advance(s, t, Write(Snapshot(g, id, renders, bytes, claimed)), limits);
            && t < |a.threads|
            && var f, m := Solo(a, t, n, limits), s.maps;
            && f.retains == s.retains
            && if g == 0 || id == 0 then Ended(f, t, Inval, m)
               else if m.task.None? || m.generation != g then Ended(f, t, StaleErr, m)
               else if Rendering(renders, bytes, claimed, limits) != Fine then
                 Ended(f, t, Rendering(renders, bytes, claimed, limits), m)
               else
                 && f.buffers == s.buffers + [Rendered(bytes.value, id)]
                 && Ended(f, t, Fine, m.(data := Some(|s.buffers|), length := |bytes.value|,
                                         crc := Checksum(bytes.value), snapshot := id, phase := ReadyToRead))
  {
    hide Checksum, Solo, Transfer, PutAll;
    var op := Snapshot(g, id, renders, bytes, claimed);
    var a := Advance(s, t, Write(op), limits);
    NothingPut(s.maps);
    n := 0;
    if g == 0 || id == 0 {
      NoSteps(a, t, limits);
    } else {
      n := WriteSolo(a, t, op, limits);
      if bytes.Some? {
        SnapshotStores(s.maps, |s.buffers|, |bytes.value|, Checksum(bytes.value), id);
      }
    }
  }

  /** A capture succeeds when nothing is captured and the backend retains its task, or when just
      that task and generation already are; otherwise everything is left as it was. */
  lemma CaptureAnswers(s: State, t: nat, task: nat, g: nat, retains: bool, limits: Limits) returns (n: nat)
    requires t < |s.threads| && s.threads[t] == Idle && Quiet(s)
    requires s.maps.task.Some? ==> s.maps.task.value < |s.retains|
    ensures var a := Advance(s, t, Write(Capture(task, g, retains)), limits);
            && t < |a.threads|
            && var f, m := Solo(a, t, n, limits), s.maps;
            && f.buffers == s.buffers
            && if g == 0 then Ended(f, t, Inval, m)
               else if m.task.Some? then
                 Ended(f, t, if s.retains[m.task.value] == task && m.generation == g then Fine else Busy, m)
               else if !retains then Ended(f, t, BackendErr, m)
               else
                 && f.retains == s.retains + [task]
                 && Ended(f, t, Fine, m.(task := Some(|s.retains|), generation := g, phase := TaskCaptured))
  {
    hide Solo, PutAll;
    var op := Capture(task, g, retains);
    var a := Advance(s, t, Write(op), limits);
    NothingPut(s.maps);
    CaptureStores(s.maps, |s.retains|, g);
    n := 0;
    if g == 0 {
      NoSteps(a, t, limits);
    } else {
      n := WriteSolo(a, t, op, limits);
    }
  }

  /** Clearing succeeds and leaves nothing. */
  lemma ClearAnswers(s: State, t: nat, limits: Limits) returns (n: nat)
    requires t < |s.threads| && s.threads[t] == Idle && Quiet(s)
    ensures var a := Advance(s, t, Write(Clear), limits);
            t < |a.threads| && Ended(Solo(a, t, n, limits), t, Fine, Maps(None, 0, None, 0, Zeros(32), 0, Vacant))
  {
    hide Solo, PutAll, Transfer;
    n := WriteSolo(Advance(s, t, Write(Clear), limits), t, Clear, limits);
    ClearStores(s.maps);
  }

  // ---------------------------------------------------------------------------
  // Reading calls
  // ---------------------------------------------------------------------------

  lemma Gathers(s: State, t: nat, id: nat, offset: nat, limits: Limits)
    requires t < |s.threads| && s.threads[t] == Gathering(id, offset, 0, Blank())
    ensures var m := s.maps;
            Solo(s, t, 5, limits) ==
            Become(s, t, Gathering(id, offset, 5, Maps(None, 0, m.data, m.length, m.crc, m.snapshot, m.phase)))
  {
    hide WriterStep, Solo;
    SoloOnce(s, t, limits);
    SoloNext(s, t, 1, limits);
    SoloNext(s, t, 2, limits);
    SoloNext(s, t, 3, limits);
    SoloNext(s, t, 4, limits);
  }

  /** Up to the fields being loaded, a read only counts itself in. */
  lemma ReadEnters(s: State, t: nat, id: nat, offset: nat, limits: Limits)
    requires t < |s.threads| && s.threads[t] == Peeking(id, offset) && s.flag == Down
    ensures Solo(s, t, 9, limits) == Become(s, t, Serve(id, offset, s.maps, limits)).(readers := s.readers + 1)
  {
    hide WriterStep, Solo, Load;
    SoloOnce(s, t, limits);
    SoloNext(s, t, 1, limits);
    SoloNext(s, t, 2, limits);
    var g := Solo(s, t, 3, limits);
    assert g == Become(s, t, Gathering(id, offset, 0, Blank())).(readers := s.readers + 1);
    Gathers(g, t, id, offset, limits);
    SoloSum(s, t, 3, 5, limits);
    SoloNext(s, t, 8, limits);
    ServeSame(id, offset, s.maps, limits);
  }

  lemma ServeSame(id: nat, offset: nat, m: Maps, limits: Limits)
    ensures Serve(id, offset, Maps(None, 0, m.data, m.length, m.crc, m.snapshot, m.phase), limits)
         == Serve(id, offset, m, limits)
  {
  }

  function Least(a: nat, b: nat): nat {
    if a < b then a else b
  }

  /** A read of the current snapshot, begun before its end, is handed the bytes from there on, at
      most a chunk of them, and is told whether these are the last; a read of another snapshot
      is refused as stale, one past the end as out of range. */
  lemma ReadAnswers(s: State, t: nat, id: nat, offset: nat, limits: Limits) returns (n: nat)
    requires t < |s.threads| && s.threads[t] == Idle && s.flag == Down
    ensures var a := Advance(s, t, Read(id, offset), limits);
            && t < |a.threads|
            && var f, m := Solo(a, t, n, limits), s.maps;
            && t < |f.threads| && f.maps == m
            && if id == 0 then f.threads[t] == Finished(Inval) && f.readers == s.readers
               else if m.phase == ReadyToRead && m.snapshot == id && m.data.Some? && offset < m.length then
                 && f.readers == s.readers + 1
                 && f.threads[t] == Reading(
                      Chunk(m.data.value, id, offset, m.length, Least(m.length - offset, limits.chunk), m.crc,
                            m.length - offset <= limits.chunk))
               else
                 && f.readers == s.readers
                 && f.threads[t] == Finished(if m.snapshot != id then StaleErr else RangeErr)
  {
    hide Solo, WriterStep;
    var a := Advance(s, t, Read(id, offset), limits);
    n := 0;
    if id == 0 {
      NoSteps(a, t, limits);
    } else {
      ReadEnters(a, t, id, offset, limits);
      SoloNext(a, t, 9, limits);
      SoloNext(a, t, 10, limits);
      n := if Serve(id, offset, s.maps, limits).Reading? then 9 else 11;
    }
  }
}
