/** How a maps snapshot reaches the client: the module serves it in bounded chunks
    (kpm/core/maps.c) and the client asks for them one after the other until it has the
    whole snapshot (user/kpm/client.go). */
module MapsTransfer {
  import opened Common
  import opened Crc32
  import MapsSnapshot

  const MAX_SNAPSHOT := 16 * 1024 * 1024
  const MAX_CHUNK := 1536

  /** A reply to one maps-read command: the command failed or the reply could not be
      parsed, or it carried these fields. */
  datatype Reply = Refused | Piece(snapshot: nat, offset: nat, total: nat, crc: Word, eof: bool, data: seq<Byte>)

  /** The checks made while the reply's fields are parsed. */
  predicate WellFormed(r: Reply) {
    r.Piece? && r.snapshot != 0 && 0 < r.total <= MAX_SNAPSHOT && 0 < |r.data| <= MAX_CHUNK
  }

  datatype Result = Received(content: seq<Byte>) | ReplyError | ChecksumError

  /** The server's answer to the request with this number for this offset. */
  type Server = (nat, nat) -> Reply

  /** What the client knows of the snapshot from its status: its size, if it was told. */
  datatype Known = Unknown | Size(size: nat)

  predicate Fits(known: Known, total: nat) {
    known.Size? ==> known.size == total
  }

  // ---------------------------------------------------------------------------
  // The client's loop
  // ---------------------------------------------------------------------------

  /** The reply answers the question asked and agrees with the first one. */
  predicate Acceptable(r: Reply, id: nat, offset: nat, total: nat, crc: Word) {
    && WellFormed(r) && r.snapshot == id && r.offset == offset
    && r.total == total && r.crc == crc
    && offset + |r.data| <= total
    && (if r.eof then offset + |r.data| == total else offset + |r.data| < total)
  }

  /** The outcome of the transfer, from request `k` on with `content` received. */
  function Finish(ask: Server, id: nat, k: nat, content: seq<Byte>, total: nat, crc: Word): Result
    requires |content| < total
    decreases total - |content|
  {
    var r := ask(k, |content|);
    if !Acceptable(r, id, |content|, total, crc) then ReplyError
    else if !r.eof then Finish(ask, id, k + 1, content + r.data, total, crc)
    else if Checksum(content + r.data) != crc then ChecksumError
    else Received(content + r.data)
  }

  /** The outcome of the whole transfer. */
  function Fetch(ask: Server, id: nat, known: Known): Result {
    var first := ask(0, 0);
    if !WellFormed(first) || !Fits(known, first.total) then ReplyError
    else Finish(ask, id, 0, [], first.total, first.crc)
  }

  /** The transfer loop of Client.SnapshotMaps.  It ends against any server. */
  method SnapshotMaps(ask: Server, id: nat, known: Known) returns (result: Result, requests: nat)
    ensures result == Fetch(ask, id, known)
    ensures 1 <= requests <= MAX_SNAPSHOT
  {
    hide Checksum;
    var content: seq<Byte> := [];
    var total: nat, crc: Word := 0, Zeros(32);
    requests := 0;
    while true
      invariant content == [] ==> requests == 0
      invariant content != [] ==> requests <= |content| < total <= MAX_SNAPSHOT
      invariant content != [] ==> Fetch(ask, id, known) == Finish(ask, id, requests, content, total, crc)
      decreases if content == [] then MAX_SNAPSHOT + 1 else total - |content|
    {
      var offset := |content|;
      var r := ask(requests, offset);
      requests := requests + 1;
      if !WellFormed(r) || r.snapshot != id || r.offset != offset {
        return ReplyError, requests;
      }
      if offset == 0 {
        total, crc := r.total, r.crc;
        if total == 0 || total > MAX_SNAPSHOT || !Fits(known, total) {
          return ReplyError, requests;
        }
        content := [];
      } else if r.total != total || r.crc != crc {
        return ReplyError, requests;
      }
      if offset + |r.data| > total {
        return ReplyError, requests;
      }
      content := content + r.data;
      var next := offset + |r.data|;
      if r.eof {
        if next != total {
          return ReplyError, requests;
        }
        break;
      }
      if next <= offset || next >= total {
        return ReplyError, requests;
      }
    }
    result := if Checksum(content) != crc then ChecksumError else Received(content);
  }

  /** What is received is as long as announced, no longer than allowed, and has the
      checksum announced: true against any server. */
  lemma ReceivedChecked(ask: Server, id: nat, known: Known)
    requires Fetch(ask, id, known).Received?
    ensures var content := Fetch(ask, id, known).content;
            && ask(0, 0).Piece?
            && |content| == ask(0, 0).total
            && 0 < |content| <= MAX_SNAPSHOT
            && Fits(known, |content|)
            && Checksum(content) == ask(0, 0).crc
  {
    FinishChecked(ask, id, 0, [], ask(0, 0).total, ask(0, 0).crc);
  }

  lemma {:induction false} FinishChecked(
      ask: Server, id: nat, k: nat, content: seq<Byte>, total: nat, crc: Word)
    requires |content| < total && Finish(ask, id, k, content, total, crc).Received?
    ensures var whole := Finish(ask, id, k, content, total, crc).content;
            |whole| == total && Checksum(whole) == crc && content <= whole
    decreases total - |content|
  {
    hide Checksum;
    var r := ask(k, |content|);
    if !r.eof {
      FinishChecked(ask, id, k + 1, content + r.data, total, crc);
    }
  }

  // ---------------------------------------------------------------------------
  // Against an honest server
  // ---------------------------------------------------------------------------

  /** A piece of the snapshot `bytes`, labelled with its number. */
  predicate PieceOf(r: Reply, id: nat, bytes: seq<Byte>) {
    && r.Piece? && r.snapshot == id
    && r.total == |bytes| && r.crc == Checksum(bytes)
    && r.offset + |r.data| <= |bytes|
    && r.data == bytes[r.offset..r.offset + |r.data|]
  }

  /** The server may refuse, answer about other snapshots or other offsets, or cut pieces as
      it likes, but a piece labelled `id` is a piece of `bytes`. */
  ghost predicate Honest(ask: Server, id: nat, bytes: seq<Byte>) {
    forall k, offset :: ask(k, offset).Piece? && ask(k, offset).snapshot == id ==>
      PieceOf(ask(k, offset), id, bytes)
  }

  lemma {:induction false} FinishHonest(
      ask: Server, id: nat, k: nat, n: nat, total: nat, crc: Word, bytes: seq<Byte>)
    requires Honest(ask, id, bytes) && n < total <= |bytes|
    ensures Finish(ask, id, k, bytes[..n], total, crc) in {Received(bytes), ReplyError}
    decreases total - n
  {
    hide Checksum;
    var r := ask(k, n);
    if Acceptable(r, id, n, total, crc) {
      assert PieceOf(r, id, bytes);
      var next := n + |r.data|;
      assert bytes[..n] + r.data == bytes[..next];
      if r.eof {
        assert bytes[..next] == bytes;
      } else {
        FinishHonest(ask, id, k + 1, next, total, crc, bytes);
      }
    }
  }

  /** No splice of two snapshots and no shortened one: what arrives is exactly the
      snapshot, or an error. */
  lemma ExactOrError(ask: Server, id: nat, known: Known, bytes: seq<Byte>)
    requires Honest(ask, id, bytes)
    ensures Fetch(ask, id, known) in {Received(bytes), ReplyError}
  {
    hide Checksum;
    var first := ask(0, 0);
    if WellFormed(first) && Fits(known, first.total) && Acceptable(first, id, 0, first.total, first.crc) {
      assert PieceOf(first, id, bytes);
      assert bytes[..0] == [];
      FinishHonest(ask, id, 0, 0, first.total, first.crc, bytes);
    }
  }

  /** Damage on the way: if the length and the checksum arrive but the bytes do not, and all
      the damage lies within four neighbouring bytes, nothing is received. */
  lemma DamageDetected(ask: Server, id: nat, known: Known, bytes: seq<Byte>, start: nat)
    requires Fetch(ask, id, known).Received?
    requires ask(0, 0).total == |bytes| && ask(0, 0).crc == Checksum(bytes)
    requires forall i :: 0 <= i < |bytes| && i < |Fetch(ask, id, known).content| && !(start <= i < start + 4) ==>
               Fetch(ask, id, known).content[i] == bytes[i]
    ensures Fetch(ask, id, known).content == bytes
  {
    hide Checksum, Fetch;
    ReceivedChecked(ask, id, known);
    BurstDetected(Fetch(ask, id, known).content, bytes, start);
  }

  // ---------------------------------------------------------------------------
  // The module as the server
  // ---------------------------------------------------------------------------

  /** The reply built from what read_begin handed out, for a buffer holding `bytes`. */
  function ReplyFor(chunk: MapsSnapshot.Chunk, bytes: seq<Byte>): Reply
    requires chunk.offset + chunk.length <= |bytes|
  {
    Piece(chunk.snapshot, chunk.offset, chunk.total, chunk.crc, chunk.eof,
          bytes[chunk.offset..chunk.offset + chunk.length])
  }

  /** The reply of a reader that finds the snapshot `id` with these bytes. */
  function ServedFrom(id: nat, offset: nat, bytes: seq<Byte>, limits: MapsSnapshot.Limits): Reply {
    var m := MapsSnapshot.Maps(Some(0), 1, Some(0), |bytes|, Checksum(bytes), id,
                               MapsSnapshot.ReadyToRead);
    var th := MapsSnapshot.Serve(id, offset, m, limits);
    if th.Reading? then ReplyFor(th.chunk, bytes) else Refused
  }

  /** Where the client asks in its request number `k`, when every answer is as long as allowed. */
  function Asked(k: nat, limits: MapsSnapshot.Limits): nat {
    k * limits.chunk
  }

  /** The client's own questions are answered from this snapshot. */
  ghost predicate Serves(ask: Server, id: nat, bytes: seq<Byte>, limits: MapsSnapshot.Limits) {
    forall k: nat :: Asked(k, limits) < |bytes| ==>
      ask(k, Asked(k, limits)) == ServedFrom(id, Asked(k, limits), bytes, limits)
  }

  lemma ServedShape(id: nat, offset: nat, bytes: seq<Byte>, limits: MapsSnapshot.Limits)
    requires 0 < limits.chunk <= MAX_CHUNK && id != 0 && offset < |bytes| <= MAX_SNAPSHOT
    ensures var r := ServedFrom(id, offset, bytes, limits);
            && r.Piece? && Acceptable(r, id, offset, |bytes|, Checksum(bytes))
            && bytes[..offset] + r.data == bytes[..offset + |r.data|]
            && (r.eof ==> offset + |r.data| == |bytes|)
            && (!r.eof ==> |r.data| == limits.chunk)
  {
    hide Checksum;
  }

  lemma {:induction false} FinishServed(ask: Server, id: nat, k: nat, bytes: seq<Byte>, limits: MapsSnapshot.Limits)
    requires 0 < limits.chunk <= MAX_CHUNK && id != 0 && Asked(k, limits) < |bytes| <= MAX_SNAPSHOT
    requires Serves(ask, id, bytes, limits)
    ensures Finish(ask, id, k, bytes[..Asked(k, limits)], |bytes|, Checksum(bytes)) == Received(bytes)
    decreases |bytes| - Asked(k, limits)
  {
    hide Checksum, ServedFrom, Acceptable;
    var n := Asked(k, limits);
    var r := ask(k, n);
    ServedShape(id, n, bytes, limits);
    assert r == ServedFrom(id, n, bytes, limits);
    if r.eof {
      assert bytes[..n + |r.data|] == bytes;
    } else {
      assert Asked(k + 1, limits) == n + limits.chunk;
      assert n + |r.data| < |bytes| by {
        NotLast(r, id, n, |bytes|, Checksum(bytes));
      }
      hide Asked;
      FinishServed(ask, id, k + 1, bytes, limits);
    }
  }

  lemma NotLast(r: Reply, id: nat, offset: nat, total: nat, crc: Word)
    requires Acceptable(r, id, offset, total, crc) && !r.eof
    ensures offset + |r.data| < total
  {
  }

  /** If the client's questions are answered from one snapshot, the transfer succeeds. */
  lemma AllServedSucceeds(ask: Server, id: nat, known: Known, bytes: seq<Byte>, limits: MapsSnapshot.Limits)
    requires 0 < limits.chunk <= MAX_CHUNK && id != 0 && 0 < |bytes| <= MAX_SNAPSHOT
    requires Fits(known, |bytes|) && Serves(ask, id, bytes, limits)
    ensures Fetch(ask, id, known) == Received(bytes)
  {
    hide Checksum, ServedFrom;
    assert Asked(0, limits) == 0;
    assert ask(0, Asked(0, limits)) == ServedFrom(id, 0, bytes, limits);
    ServedShape(id, 0, bytes, limits);
    assert bytes[..0] == [];
    FinishServed(ask, id, 0, bytes, limits);
  }

  /** In the given state of a run, thread `t` is serving this reply. */
  ghost predicate ServedAt(r: Reply, s: MapsSnapshot.State, t: nat) {
    && t < |s.threads| && s.threads[t].Reading?
    && var chunk := s.threads[t].chunk;
    && chunk.buffer < |s.buffers|
    && chunk.offset + chunk.length <= |s.buffers[chunk.buffer].bytes|
    && r == ReplyFor(chunk, s.buffers[chunk.buffer].bytes)
  }

  /** Every reply is a refusal, or is served by some reader at some point of the run. */
  ghost predicate ServedIn(ask: Server, states: seq<MapsSnapshot.State>) {
    forall k, offset :: ask(k, offset).Piece? ==>
      exists i, t :: 0 <= i < |states| && ServedAt(ask(k, offset), states[i], t)
  }

  lemma ServedIsPiece(states: seq<MapsSnapshot.State>, actions: seq<MapsSnapshot.Action>, limits: MapsSnapshot.Limits,
                      r: Reply, i: nat, t: nat, b: nat)
    requires MapsSnapshot.Run(states, actions, limits)
    requires i < |states| && ServedAt(r, states[i], t)
    requires var last := states[|actions|].buffers;
             && b < |last| && last[b].id == r.snapshot
             && (forall c :: 0 <= c < |last| && last[c].id == r.snapshot ==> c == b)
    ensures PieceOf(r, r.snapshot, states[|actions|].buffers[b].bytes)
  {
    hide Checksum, MapsSnapshot.Advance;
    var before := states[..i + 1];
    assert before[i] == states[i];
    assert MapsSnapshot.Run(before, actions[..i], limits);
    MapsSnapshot.ReadersProtected(before, actions[..i], limits, t);
    MapsSnapshot.SnapshotsStay(states, actions, limits, i, |actions|);
    assert states[i].buffers[states[i].threads[t].chunk.buffer].id == r.snapshot;
  }

  /** End to end: whatever captures, snapshots, clears and reads of other clients run at the
      same time, as long as no two snapshot calls share the number `id`, the client receives
      exactly the bytes that call rendered, or an error. */
  lemma TransferFaithful(states: seq<MapsSnapshot.State>, actions: seq<MapsSnapshot.Action>,
                         limits: MapsSnapshot.Limits, ask: Server, id: nat, known: Known, b: nat)
    requires MapsSnapshot.Run(states, actions, limits) && ServedIn(ask, states)
    requires var last := states[|actions|].buffers;
             && b < |last| && last[b].id == id
             && (forall c :: 0 <= c < |last| && last[c].id == id ==> c == b)
    ensures Fetch(ask, id, known) in {Received(states[|actions|].buffers[b].bytes), ReplyError}
  {
    hide Checksum, Fetch, PieceOf;
    var bytes := states[|actions|].buffers[b].bytes;
    forall k, offset | ask(k, offset).Piece? && ask(k, offset).snapshot == id
      ensures PieceOf(ask(k, offset), id, bytes)
    {
      var i, t :| 0 <= i < |states| && ServedAt(ask(k, offset), states[i], t);
      ServedIsPiece(states, actions, limits, ask(k, offset), i, t, b);
    }
    ExactOrError(ask, id, known, bytes);
  }

  /** Each of the client's own questions is answered by some reader from state `lo` on. */
  ghost predicate AnsweredFrom(
      ask: Server, states: seq<MapsSnapshot.State>, limits: MapsSnapshot.Limits, lo: nat, total: nat)
  {
    forall k: nat :: Asked(k, limits) < total ==>
      exists i, t ::
        lo <= i < |states| && ServedAt(ask(k, Asked(k, limits)), states[i], t)
        && ask(k, Asked(k, limits)).offset == Asked(k, limits)
  }

  lemma DescribedIsServed(chunk: MapsSnapshot.Chunk, m: MapsSnapshot.Maps, bytes: seq<Byte>,
                          limits: MapsSnapshot.Limits)
    requires MapsSnapshot.Describes(chunk, m, limits)
    requires m.length == |bytes| && m.crc == Checksum(bytes)
    ensures ReplyFor(chunk, bytes) == ServedFrom(m.snapshot, chunk.offset, bytes, limits)
  {
    hide Checksum;
  }

  /** A transfer during which no capture, snapshot or clear gets its section: the client receives
      the whole snapshot, whatever else other threads do. */
  lemma UndisturbedSucceeds(states: seq<MapsSnapshot.State>, actions: seq<MapsSnapshot.Action>,
                            limits: MapsSnapshot.Limits, ask: Server, known: Known, lo: nat, b: nat)
    requires MapsSnapshot.Run(states, actions, limits) && lo <= |actions|
    requires forall k :: lo <= k < |actions| ==> !states[k].threads[actions[k].thread].Alone?
    requires var m := MapsSnapshot.Settled(states[lo]);
             && b < |states[lo].buffers| && m.data == Some(b) && m.snapshot != 0
             && AnsweredFrom(ask, states, limits, lo, |states[lo].buffers[b].bytes|)
             && Fits(known, |states[lo].buffers[b].bytes|)
    requires 0 < limits.chunk <= MAX_CHUNK && limits.snapshot <= MAX_SNAPSHOT
    ensures Fetch(ask, MapsSnapshot.Settled(states[lo]).snapshot, known) == Received(states[lo].buffers[b].bytes)
  {
    hide Checksum, Fetch, MapsSnapshot.Advance, MapsSnapshot.Settled, MapsSnapshot.Describes;
    var m, bytes := MapsSnapshot.Settled(states[lo]), states[lo].buffers[b].bytes;
    MapsSnapshot.RunInv(states[..lo + 1], actions[..lo], limits);
    assert 0 < |bytes| <= MAX_SNAPSHOT && m.length == |bytes| && m.crc == Checksum(bytes) by {
      assert MapsSnapshot.Inv(states[lo], limits);
    }
    hide Asked;
    forall k: nat | Asked(k, limits) < |bytes|
      ensures ask(k, Asked(k, limits)) == ServedFrom(m.snapshot, Asked(k, limits), bytes, limits)
    {
      var i, t :| lo <= i < |states| && ServedAt(ask(k, Asked(k, limits)), states[i], t)
                  && ask(k, Asked(k, limits)).offset == Asked(k, limits);
      ServedLater(states, actions, limits, lo, i, t, b, ask(k, Asked(k, limits)));
    }
    AllServedSucceeds(ask, m.snapshot, known, bytes, limits);
  }

  lemma ServedLater(states: seq<MapsSnapshot.State>, actions: seq<MapsSnapshot.Action>,
                    limits: MapsSnapshot.Limits, lo: nat, i: nat, t: nat, b: nat, r: Reply)
    requires MapsSnapshot.Run(states, actions, limits) && lo <= i <= |actions|
    requires forall k :: lo <= k < |actions| ==> !states[k].threads[actions[k].thread].Alone?
    requires b < |states[lo].buffers| && MapsSnapshot.Settled(states[lo]).data == Some(b)
    requires ServedAt(r, states[i], t)
    ensures r == ServedFrom(MapsSnapshot.Settled(states[lo]).snapshot, r.offset, states[lo].buffers[b].bytes, limits)
  {
    hide Checksum, MapsSnapshot.Advance, MapsSnapshot.Settled;
    var before := states[..i + 1];
    assert before[i] == states[i];
    assert MapsSnapshot.Run(before, actions[..i], limits);
    MapsSnapshot.ReaderDescribes(before, actions[..i], limits, t);
    MapsSnapshot.SettledStays(states, actions, limits, lo, i);
    MapsSnapshot.SnapshotsStay(states, actions, limits, lo, i);
    hide MapsSnapshot.Run;
    var m, chunk := MapsSnapshot.Settled(states[lo]), states[i].threads[t].chunk;
    assert states[i].buffers[b] == states[lo].buffers[b];
    DescribedIsServed(chunk, m, states[lo].buffers[b].bytes, limits);
  }
}
