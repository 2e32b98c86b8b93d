/** From the text of a read expression to op keys: the token loops of
    user/config/config_file.go and the op manager of user/argtype/op_helper.go. */
module ReadText {
  import opened Common
  import opened ArgVm
  import opened ArgLoop
  import opened ReadExpr
  import Numerals

  // ---------------------------------------------------------------------------
  // The text
  // ---------------------------------------------------------------------------

  /** A dereference, or a token with the sign in front of it. */
  datatype Piece = Dot | Signed(minus: bool, text: string)

  predicate Operator(c: char) {
    c == '+' || c == '-'
  }

  predicate Plain(s: string) {
    forall i :: 0 <= i < |s| ==> !Operator(s[i]) && s[i] != '.'
  }

  function Flush(pending: string, minus: bool): seq<Piece> {
    if pending == "" then [] else [Signed(minus, pending)]
  }

  /** Reading character by character: a dot dereferences what stands before it, and of
      several operators in a row the last one counts. */
  function Pieces(text: string, pending: string, minus: bool): seq<Piece>
    decreases |text|
  {
    if text == "" then Flush(pending, minus)
    else if text[0] == '.' then Flush(pending, minus) + [Dot] + Pieces(text[1..], "", false)
    else if Operator(text[0]) then Flush(pending, minus) + Pieces(text[1..], "", text[0] == '-')
    else Pieces(text[1..], pending + [text[0]], minus)
  }

  lemma {:induction false} PlainRun(token: string, rest: string, pending: string, minus: bool)
    requires Plain(token)
    ensures Pieces(token + rest, pending, minus) == Pieces(rest, pending + token, minus)
    decreases |token|
  {
    if token == "" {
      assert token + rest == rest && pending + token == pending;
    } else {
      assert (token + rest)[1..] == token[1..] + rest;
      PlainRun(token[1..], rest, pending + [token[0]], minus);
      assert pending + [token[0]] + token[1..] == pending + token;
    }
  }

  /** A token, up to the operator after it or the end. */
  lemma TokenPieces(v: string, i: nat, minus: bool)
    requires i <= |v| && Plain(v[..i])
    ensures i == |v| ==> Pieces(v, "", minus) == Flush(v, minus)
    ensures i < |v| && Operator(v[i]) ==>
              Pieces(v, "", minus) == Flush(v[..i], minus) + Pieces(v[i + 1..], "", v[i] == '-')
  {
    var token, rest := v[..i], v[i..];
    assert v == token + rest;
    PlainRun(token, rest, "", minus);
    assert "" + token == token;
    if i < |v| {
      assert rest[0] == v[i] && rest[1..] == v[i + 1..];
    } else {
      assert token == v && rest == "";
    }
  }

  /** The segments between dots. */
  function Segments(text: string): (segs: seq<string>)
    ensures segs != []
    ensures forall i :: 0 <= i < |segs| ==> '.' !in segs[i]
    decreases |text|
  {
    if text == "" then [""]
    else
      var rest := Segments(text[1..]);
      if text[0] == '.' then [""] + rest else [[text[0]] + rest[0]] + rest[1..]
  }

  function SegmentPieces(segs: seq<string>): seq<Piece> {
    if segs == [] then []
    else if |segs| == 1 then Pieces(segs[0], "", false)
    else Pieces(segs[0], "", false) + [Dot] + SegmentPieces(segs[1..])
  }

  /** What the first segment contributes when something is pending, then the others. */
  function PendingPieces(segs: seq<string>, pending: string, minus: bool): seq<Piece>
    requires segs != []
  {
    Pieces(segs[0], pending, minus) + if |segs| == 1 then [] else [Dot] + SegmentPieces(segs[1..])
  }

  lemma {:induction false} SplitKeeps(text: string, pending: string, minus: bool)
    ensures Pieces(text, pending, minus) == PendingPieces(Segments(text), pending, minus)
    decreases |text|
  {
    if text != "" {
      var c, rest := text[0], Segments(text[1..]);
      var segs := Segments(text);
      if c == '.' {
        SplitKeeps(text[1..], "", false);
        assert segs[1..] == rest;
        assert SegmentPieces(rest) == PendingPieces(rest, "", false);
      } else {
        assert segs[0][0] == c && segs[0][1..] == rest[0];
        assert |segs| > 1 ==> segs[1..] == rest[1..];
        hide Segments, SegmentPieces;
        if Operator(c) {
          SplitKeeps(text[1..], "", c == '-');
        } else {
          SplitKeeps(text[1..], pending + [c], minus);
        }
      }
    }
  }

  // ---------------------------------------------------------------------------
  // Writing an expression and reading it back
  // ---------------------------------------------------------------------------

  function Show(pieces: seq<Piece>): string {
    if pieces == [] then ""
    else (match pieces[0] case Dot => "." case Signed(minus, text) => (if minus then "-" else "+") + text)
         + Show(pieces[1..])
  }

  predicate Writable(pieces: seq<Piece>) {
    forall i :: 0 <= i < |pieces| ==> pieces[i].Signed? ==> pieces[i].text != "" && Plain(pieces[i].text)
  }

  lemma {:induction false} ShowPieces(pieces: seq<Piece>, pending: string, minus: bool)
    requires Writable(pieces)
    ensures Pieces(Show(pieces), pending, minus) == Flush(pending, minus) + pieces
    decreases |pieces|
  {
    if pieces != [] {
      var shown, rest := Show(pieces), Show(pieces[1..]);
      assert pieces == [pieces[0]] + pieces[1..];
      match pieces[0] {
        case Dot =>
          assert shown[1..] == rest;
          ShowPieces(pieces[1..], "", false);
        case Signed(m, text) =>
          assert shown[1..] == text + rest;
          PlainRun(text, rest, "", m);
          assert "" + text == text;
          ShowPieces(pieces[1..], text, m);
      }
    }
  }

  /** A register name followed by signed tokens and dots reads back as just those. */
  lemma WrittenReadsBack(name: string, pieces: seq<Piece>)
    requires name != "" && Plain(name) && Writable(pieces)
    ensures Pieces(name + Show(pieces), "", false) == [Signed(false, name)] + pieces
  {
    PlainRun(name, Show(pieces), "", false);
    assert "" + name == name;
    ShowPieces(pieces, name, false);
  }

  // ---------------------------------------------------------------------------
  // The op manager
  // ---------------------------------------------------------------------------

  datatype OpConfig = OpConfig(name: string, index: nat, op: Op)

  /** Everything but the index counts. */
  predicate SameAs(a: OpConfig, b: OpConfig) {
    a.name == b.name && a.op.code == b.op.code && a.op.pre == b.op.pre && a.op.post == b.op.post
    && a.op.value == b.op.value
  }

  class OpManager {
    var list: seq<OpConfig>

    /** Every op is registered once, under its place in the list. */
    ghost predicate Valid()
      reads this
    {
      && (forall i :: 0 <= i < |list| ==> list[i].index == i)
      && (forall i, j :: 0 <= i < j < |list| ==> !SameAs(list[i], list[j]))
    }

    constructor ()
      ensures Valid() && list == []
    {
      list := [];
    }

    /** OpManager.AddOp: indices handed out before stay good. */
    method AddOp(name: string, op: Op) returns (index: nat)
      requires Valid()
      modifies this
      ensures Valid() && old(list) <= list
      ensures index < |list| && list[index] == OpConfig(name, index, op)
      ensures index < |old(list)| <==> exists i :: 0 <= i < |old(list)| && SameAs(old(list)[i], OpConfig(name, 0, op))
      ensures |list| == if index < |old(list)| then |old(list)| else |old(list)| + 1
    {
      var added := OpConfig(name, 0, op);
      for i := 0 to |list|
        invariant list == old(list)
        invariant forall j :: 0 <= j < i ==> !SameAs(list[j], added)
      {
        if SameAs(list[i], added) {
          return i;
        }
      }
      index := |list|;
      list := list + [added.(index := index)];
    }

    /** OpManager.GetOpList: what is loaded for the interpreter. */
    method GetOpList() returns (ops: map<nat, Op>)
      requires Valid()
      ensures forall i: nat :: i in ops <==> i < |list|
      ensures forall i :: 0 <= i < |list| ==> ops[i] == list[i].op
    {
      ops := map[];
      for i := 0 to |list|
        invariant forall j: nat :: j in ops <==> j < i
        invariant forall j :: 0 <= j < i ==> ops[j] == list[j].op
      {
        ops := ops[list[i].index := list[i].op];
      }
    }
  }

  // ---------------------------------------------------------------------------
  // Compiling
  // ---------------------------------------------------------------------------

  type Classifier = string -> Token

  function Item(p: Piece, classify: Classifier): ReadExpr.Item {
    match p
    case Dot => Deref
    case Signed(minus, text) => Term(minus, classify(text))
  }

  function Items(pieces: seq<Piece>, classify: Classifier): (items: seq<ReadExpr.Item>)
    ensures |items| == |pieces|
  {
    if pieces == [] then [] else [Item(pieces[0], classify)] + Items(pieces[1..], classify)
  }

  /** No number stands before the first register, and every token is known. */
  predicate Accepted(items: seq<ReadExpr.Item>, first: bool)
    decreases |items|
  {
    items == []
    || (&& (items[0].Term? ==> !items[0].token.NoToken? && !(first && items[0].token.Const?))
        && Accepted(items[1..], StillFirst(items[0], first)))
  }

  /** Whether the first register is still to come after these items. */
  function FirstAfter(items: seq<ReadExpr.Item>, first: bool): bool
    decreases |items|
  {
    if items == [] then first else FirstAfter(items[1..], StillFirst(items[0], first))
  }

  lemma {:induction false} ItemsAppend(a: seq<Piece>, b: seq<Piece>, classify: Classifier)
    ensures Items(a + b, classify) == Items(a, classify) + Items(b, classify)
    decreases |a|
  {
    if a == [] {
      assert a + b == b;
    } else {
      assert (a + b)[1..] == a[1..] + b;
      ItemsAppend(a[1..], b, classify);
    }
  }

  lemma {:induction false} EmitAppend(a: seq<ReadExpr.Item>, b: seq<ReadExpr.Item>, first: bool)
    ensures EmitAll(a + b, first) == EmitAll(a, first) + EmitAll(b, FirstAfter(a, first))
    decreases |a|
  {
    hide Emit, StillFirst;
    if a == [] {
      assert a + b == b;
    } else {
      assert (a + b)[1..] == a[1..] + b;
      EmitAppend(a[1..], b, StillFirst(a[0], first));
    }
  }

  lemma {:induction false} AcceptAppend(a: seq<ReadExpr.Item>, b: seq<ReadExpr.Item>, first: bool)
    ensures Accepted(a + b, first) <==> Accepted(a, first) && Accepted(b, FirstAfter(a, first))
    ensures FirstAfter(a + b, first) == FirstAfter(b, FirstAfter(a, first))
    decreases |a|
  {
    hide StillFirst;
    if a == [] {
      assert a + b == b;
    } else {
      assert (a + b)[1..] == a[1..] + b;
      AcceptAppend(a[1..], b, StillFirst(a[0], first));
    }
  }

  /** The keys name these ops in the list. */
  predicate Names(list: seq<OpConfig>, keys: seq<nat>, ops: seq<Op>) {
    && |keys| == |ops|
    && forall i :: 0 <= i < |keys| ==> keys[i] < |list| && list[keys[i]].op == ops[i]
  }

  lemma NamesMore(list: seq<OpConfig>, more: seq<OpConfig>, keys: seq<nat>, ops: seq<Op>, key: nat, op: Op)
    requires Names(list, keys, ops) && list <= more && key < |more| && more[key].op == op
    ensures Names(more, keys + [key], ops + [op])
  {
    forall i | 0 <= i < |keys| ensures keys[i] < |more| && more[keys[i]].op == ops[i] {
      assert list[keys[i]] == more[keys[i]];
    }
  }

  /** After the pieces in `done`: they are accepted, `met` says whether a register was among
      them, and the keys name the ops they become. */
  predicate Emitted(list: seq<OpConfig>, keys: seq<nat>, done: seq<Piece>, met: bool, classify: Classifier) {
    var items := Items(done, classify);
    Accepted(items, true) && met == !FirstAfter(items, true) && Names(list, keys, EmitAll(items, true))
  }

  lemma OneMore(done: seq<Piece>, p: Piece, classify: Classifier)
    ensures var items, item := Items(done, classify), Item(p, classify);
            var met := !FirstAfter(items, true);
            && Items(done + [p], classify) == items + [item]
            && EmitAll(items + [item], true) == EmitAll(items, true) + Emit(item, !met)
            && (Accepted(items + [item], true) <==> Accepted(items, true) && Accepted([item], !met))
            && FirstAfter(items + [item], true) == StillFirst(item, !met)
  {
    hide Emit;
    ItemsAppend(done, [p], classify);
    assert Items([p], classify) == [Item(p, classify)];
    EmitAppend(Items(done, classify), [Item(p, classify)], true);
    AcceptAppend(Items(done, classify), [Item(p, classify)], true);
    var first := FirstAfter(Items(done, classify), true);
    assert [Item(p, classify)][1..] == [];
    assert EmitAll([Item(p, classify)], first) == Emit(Item(p, classify), first);
  }

  lemma OneAccepted(item: ReadExpr.Item, first: bool)
    ensures Accepted([item], first) <==>
            (item.Term? ==> !item.token.NoToken? && !(first && item.token.Const?))
  {
    assert [item][1..] == [];
  }

  /** An op with the name it is registered under. */
  datatype Named = Named(name: string, op: Op)

  /** The ops one item becomes, with their names. */
  function Registrations(item: ReadExpr.Item, first: bool): (r: seq<Named>)
    ensures |r| == |Emit(item, first)|
    ensures forall i :: 0 <= i < |r| ==> r[i].op == Emit(item, first)[i]
  {
    match item
    case Deref =>
      [Named("READ_POINTER", Op(ReadPointer, Skip, Skip, 0)),
       Named("MOVE_POINTER_VALUE", Op(MovePointerValue, Skip, Skip, 0))]
    case Term(minus, Const(v)) =>
      [if minus then Named("SUB_OFFSET", Op(SubOffset, Skip, Skip, v))
       else Named("ADD_OFFSET", Op(AddOffset, Skip, Skip, v))]
    case Term(minus, Reg(r)) =>
      [Named("READ_MOVE_REG_" + Numerals.PrintDecimal(r), ReadMoveReg(r))]
      + (if first then []
         else if minus then [Named("SUB_REG", Op(SubReg, Skip, Skip, 0))]
         else [Named("ADD_REG", Op(AddReg, Skip, Skip, 0))])
    case Term(_, NoToken) => []
  }

  /** Registers ops and appends their keys. */
  method AddExtraOps(opm: OpManager, keys: seq<nat>, entries: seq<Named>, ghost ops: seq<Op>, ghost more: seq<Op>)
      returns (keys': seq<nat>)
    requires opm.Valid() && Names(opm.list, keys, ops)
    requires |entries| == |more| && forall i :: 0 <= i < |entries| ==> entries[i].op == more[i]
    modifies opm
    ensures opm.Valid() && old(opm.list) <= opm.list
    ensures Names(opm.list, keys', ops + more)
  {
    hide Names;
    keys' := keys;
    assert ops + more[..0] == ops;
    for i := 0 to |entries|
      invariant opm.Valid() && old(opm.list) <= opm.list
      invariant Names(opm.list, keys', ops + more[..i])
    {
      ghost var list := opm.list;
      var key := opm.AddOp(entries[i].name, entries[i].op);
      NamesMore(list, opm.list, keys', ops + more[..i], key, more[i]);
      assert ops + more[..i] + [more[i]] == ops + more[..i + 1];
      keys' := keys' + [key];
    }
    assert more[..|entries|] == more;
  }

  /** What becomes of one piece: a number before any register, or an unknown token, is refused. */
  method EmitPiece(p: Piece, opm: OpManager, keys: seq<nat>, met: bool, classify: Classifier, ghost done: seq<Piece>)
      returns (ok: bool, keys': seq<nat>, met': bool)
    requires opm.Valid() && Emitted(opm.list, keys, done, met, classify)
    modifies opm
    ensures opm.Valid() && old(opm.list) <= opm.list
    ensures ok ==> Emitted(opm.list, keys', done + [p], met', classify)
    ensures !ok ==> !Accepted(Items(done + [p], classify), true)
  {
    hide Names, EmitAll, Accepted, FirstAfter, Items, Emit, Registrations;
    OneMore(done, p, classify);
    OneAccepted(Item(p, classify), !met);
    var item := Item(p, classify);
    if item.Term? && (item.token.NoToken? || (!met && item.token.Const?)) {
      return false, keys, met;
    }
    keys' := AddExtraOps(opm, keys, Registrations(item, !met), EmitAll(Items(done, classify), true), Emit(item, !met));
    ok, met' := true, met || (item.Term? && item.token.Reg?);
  }

  /** The pieces from segment `s` on, with the dot in front of it. */
  function After(segs: seq<string>, s: nat): seq<Piece> {
    if s >= |segs| then [] else (if s == 0 then [] else [Dot]) + SegmentPieces(segs[s..])
  }

  lemma AfterStep(segs: seq<string>, s: nat)
    requires s < |segs|
    ensures After(segs, s) == (if s == 0 then [] else [Dot]) + Pieces(segs[s], "", false) + After(segs, s + 1)
  {
    hide Pieces;
    assert segs[s..][0] == segs[s];
    if s + 1 < |segs| {
      assert segs[s..][1..] == segs[s + 1..];
    }
  }

  /** What is left of a segment, with the operator added at its end. */
  function Left(v: string, last: char): seq<Piece> {
    if v == "" then [] else Pieces(v[..|v| - 1], "", last == '-')
  }

  lemma LeftEnds(seg: string)
    ensures Left(seg + "+", '+') == Pieces(seg, "", false)
    ensures forall last :: Left("", last) == []
  {
    assert (seg + "+")[..|seg|] == seg;
  }

  lemma FlushIs(token: string, minus: bool)
    ensures Flush(token, minus) == if token == "" then [] else [Signed(minus, token)]
  {
  }

  lemma LeftStep(v: string, i: nat, last: char)
    requires i < |v| && Plain(v[..i]) && Operator(v[i])
    ensures Left(v, last) == Flush(v[..i], last == '-') + Left(v[i + 1..], v[i])
  {
    var u := v[..|v| - 1];
    assert u[..i] == v[..i];
    TokenPieces(u, i, last == '-');
    if i < |u| {
      assert u[i + 1..] == v[i + 1..][..|v| - i - 2];
    } else {
      assert u == v[..i];
    }
  }

  /** Where the next operator is. */
  method IndexAny(v: string) returns (i: nat)
    requires '.' !in v && v != "" && Operator(v[|v| - 1])
    ensures i < |v| && Operator(v[i]) && Plain(v[..i])
  {
    i := 0;
    while !Operator(v[i])
      invariant i < |v| && Plain(v[..i])
      decreases |v| - i
    {
      assert v[i] in v;
      i := i + 1;
    }
  }

  lemma Refused(done: seq<Piece>, rest: seq<Piece>, classify: Classifier)
    requires !Accepted(Items(done, classify), true)
    ensures !Accepted(Items(done + rest, classify), true)
  {
    ItemsAppend(done, rest, classify);
    AcceptAppend(Items(done, classify), Items(rest, classify), true);
  }

  /** The loop over the tokens of one segment. */
  method CompileSegment(seg: string, opm: OpManager, keys: seq<nat>, met: bool, classify: Classifier,
                        ghost done: seq<Piece>)
      returns (ok: bool, keys': seq<nat>, met': bool)
    requires '.' !in seg && opm.Valid() && Emitted(opm.list, keys, done, met, classify)
    modifies opm
    ensures opm.Valid() && old(opm.list) <= opm.list
    ensures ok ==> Emitted(opm.list, keys', done + Pieces(seg, "", false), met', classify)
    ensures !ok ==> !Accepted(Items(done + Pieces(seg, "", false), classify), true)
  {
    hide Emitted, Accepted, Items, Pieces, Left, Flush;
    ok, keys', met' := true, keys, met;
    var v, last := seg + "+", '+';
    ghost var whole := done + Pieces(seg, "", false);
    ghost var so := done;
    LeftEnds(seg);
    while v != ""
      invariant opm.Valid() && old(opm.list) <= opm.list
      invariant '.' !in v && (v != "" ==> Operator(v[|v| - 1]))
      invariant Emitted(opm.list, keys', so, met', classify)
      invariant whole == so + Left(v, last)
      decreases |v|
    {
      var i := IndexAny(v);
      LeftStep(v, i, last);
      var op, token := v[i], v[..i];
      v := v[i + 1..];
      if token != "" {
        var p := Signed(last == '-', token);
        FlushIs(token, last == '-');
        ok, keys', met' := EmitPiece(p, opm, keys', met', classify, so);
        assert whole == (so + [p]) + Left(v, op);
        if !ok {
          Refused(so + [p], Left(v, op), classify);
          return;
        }
        so := so + [p];
      } else {
        FlushIs(token, last == '-');
        assert whole == so + Left(v, op);
      }
      last := op;
    }
    LeftEnds(seg);
    assert whole == so;
  }

  /** The loops that turn the text of a read expression into op keys. */
  method CompileReadOp(text: string, opm: OpManager, classify: Classifier) returns (r: Option<seq<nat>>)
    requires text != "" && opm.Valid()
    modifies opm
    ensures opm.Valid() && old(opm.list) <= opm.list
    ensures var items := Items(Pieces(text, "", false), classify);
            && (r.Some? <==> Accepted(items, true))
            && (r.Some? ==> Names(opm.list, r.value, Compiled(items)))
  {
    hide Accepted, Items, Pieces, Names, EmitAll;
    var segs := Segments(text);
    ghost var whole := Pieces(text, "", false);
    ghost var done: seq<Piece> := [];
    var keys: seq<nat>, met, ok := [], false, true;
    assert whole == done + After(segs, 0) by {
      SplitKeeps(text, "", false);
      assert segs[0..] == segs;
    }
    assert Emitted(opm.list, keys, done, met, classify) by {
      NothingEmitted(opm.list, classify);
    }
    for s := 0 to |segs|
      invariant opm.Valid() && old(opm.list) <= opm.list
      invariant Emitted(opm.list, keys, done, met, classify)
      invariant whole == done + After(segs, s)
    {
      hide Emitted, After, Segments;
      AfterStep(segs, s);
      ghost var dot := if s == 0 then [] else [Dot];
      ghost var rest := After(segs, s + 1);
      ghost var here := Pieces(segs[s], "", false);
      assert whole == (done + dot) + (here + rest);
      if s > 0 {
        ok, keys, met := EmitPiece(Dot, opm, keys, met, classify, done);
        if !ok {
          Refused(done + dot, here + rest, classify);
          return None;
        }
      } else {
        assert done + dot == done;
      }
      ok, keys, met := CompileSegment(segs[s], opm, keys, met, classify, done + dot);
      assert whole == (done + dot + here) + rest;
      if !ok {
        Refused(done + dot + here, rest, classify);
        return None;
      }
      done := done + dot + here;
    }
    assert whole == done;
    ghost var ops := EmitAll(Items(done, classify), true);
    keys := AddExtraOps(opm, keys, [Named("SAVE_ADDR", SAVE_ADDR_OP)], ops, [SAVE_ADDR_OP]);
    r := Some(keys);
  }

  lemma NothingEmitted(list: seq<OpConfig>, classify: Classifier)
    ensures Emitted(list, [], [], false, classify)
  {
  }

  // ---------------------------------------------------------------------------
  // Loading the keys
  // ---------------------------------------------------------------------------

  /** Keys loaded at position `at`, with the manager's ops, are the ops they name. */
  lemma {:induction false} LoadedOps(list: seq<OpConfig>, keys: seq<nat>, ops: seq<Op>, prog: Program, at: nat)
    requires Names(list, keys, ops)
    requires at + |keys| <= |prog.keys| && prog.keys[at..at + |keys|] == keys
    requires forall i :: 0 <= i < |list| ==> i in prog.ops && prog.ops[i] == list[i].op
    ensures HasOps(prog, at, ops)
    decreases |ops|
  {
    if ops != [] {
      assert prog.keys[at] == prog.keys[at..at + |keys|][0] == keys[0];
      assert prog.keys[at + 1..at + |keys|] == keys[1..];
      assert IsOp(prog, at, ops[0]);
      LoadedOps(list, keys[1..], ops[1..], prog, at + 1);
    }
  }

  predicate Numbers(pieces: seq<Piece>, classify: Classifier) {
    forall i :: 0 <= i < |pieces| ==> pieces[i].Signed? ==> classify(pieces[i].text).Const?
  }

  lemma {:induction false} NumbersAccepted(pieces: seq<Piece>, classify: Classifier)
    requires Numbers(pieces, classify)
    ensures Arithmetic(Items(pieces, classify)) && Accepted(Items(pieces, classify), false)
    decreases |pieces|
  {
    if pieces != [] {
      NumbersAccepted(pieces[1..], classify);
      assert Items(pieces, classify)[1..] == Items(pieces[1..], classify);
    }
  }

  /** A register name, then signed numbers and dots, as text. */
  predicate WellWritten(name: string, pieces: seq<Piece>, classify: Classifier) {
    && name != "" && Plain(name) && Writable(pieces) && Numbers(pieces, classify)
    && classify(name).Reg? && classify(name).number < REG_MAX
  }

  lemma WrittenItems(name: string, pieces: seq<Piece>, classify: Classifier)
    requires WellWritten(name, pieces, classify)
    ensures var items := Items(Pieces(name + Show(pieces), "", false), classify);
            && SingleRegister(items) && Accepted(items, true)
            && items[0].token == classify(name) && items[1..] == Items(pieces, classify)
  {
    hide Pieces;
    WrittenReadsBack(name, pieces);
    NumbersAccepted(pieces, classify);
    var all := [Signed(false, name)] + pieces;
    assert all[1..] == pieces;
    assert Items(all, classify) == [Item(all[0], classify)] + Items(pieces, classify);
  }

  /** From text to record: an expression written as a register followed by signed numbers and
      dots is accepted, and with its keys loaded at `at` the interpreter saves exactly the
      address the numbers and dots denote, starting from the register. */
  lemma WrittenExpressionSaves(
      name: string, pieces: seq<Piece>, classify: Classifier, list: seq<OpConfig>, keys: seq<nat>,
      vm: Vm, k: nat, at: nat, prog: Program, env: Env)
    requires WellWritten(name, pieces, classify)
    requires Names(list, keys, Compiled(Items(Pieces(name + Show(pieces), "", false), classify)))
    requires at + |keys| <= |prog.keys| && prog.keys[at..at + |keys|] == keys
    requires forall i :: 0 <= i < |list| ==> i in prog.ops && prog.ops[i] == list[i].op
    requires Going(vm, at)
    ensures Arithmetic(Items(pieces, classify))
    ensures var start := RegisterValue(vm, classify(name).number, env);
            var g := Run(vm, k, |keys| + 1, prog, env);
            && Going(g, at + |keys|)
            && SavedAddress(vm, g, Wrap(Denotes(start, Items(pieces, classify), k + 2, env)), env.copied(k + |keys|, 0))
  {
    hide Pieces, Run, HasOps, SavedAddress, Denotes, Wrap, Items, Accepted, WellWritten;
    WrittenItems(name, pieces, classify);
    var items := Items(Pieces(name + Show(pieces), "", false), classify);
    LoadedOps(list, keys, Compiled(items), prog, at);
    hide Compiled;
    ReadExpressionSaves(vm, k, at, items, prog, env);
  }

  lemma TwoRegisterText(classify: Classifier)
    requires classify("x0") == Reg(0) && classify("x1") == Reg(1)
    ensures Items(Pieces("x0+x1", "", false), classify) == [Term(false, Reg(0)), Term(false, Reg(1))]
  {
    hide Pieces;
    var pieces := [Signed(false, "x1")];
    assert pieces[1..] == [];
    assert Show(pieces) == "+" + "x1" + Show(pieces[1..]);
    WrittenReadsBack("x0", pieces);
    assert "x0" + Show(pieces) == "x0+x1";
    var all := [Signed(false, "x0")] + pieces;
    assert all[1..] == pieces;
  }

  /** The text `x0+x1` with 8 in x0 and 16 in x1 saves the address 32, not 24. */
  lemma SecondRegisterFails(
      classify: Classifier, list: seq<OpConfig>, keys: seq<nat>,
      vm: Vm, k: nat, at: nat, prog: Program, env: Env)
    requires classify("x0") == Reg(0) && classify("x1") == Reg(1)
    requires Names(list, keys, Compiled(Items(Pieces("x0+x1", "", false), classify)))
    requires at + |keys| <= |prog.keys| && prog.keys[at..at + |keys|] == keys
    requires forall i :: 0 <= i < |list| ==> i in prog.ops && prog.ops[i] == list[i].op
    requires Going(vm, at) && vm.ctx.reg0 == 8 && env.register(1) == 16
    ensures var g := Run(vm, k, |keys| + 2, prog, env);
            Going(g, at + |keys|) && SavedAddress(vm, g, 32, env.copied(k + |keys| + 1, 0))
  {
    hide Run, HasOps, SavedAddress, Going, Pieces, Items;
    var items := [Term(false, Reg(0)), Term(false, Reg(1))];
    TwoRegisterText(classify);
    LoadedOps(list, keys, Compiled(items), prog, at);
    TwoRegistersOps(0, false, 1);
    hide Compiled;
    TwoRegistersSave(vm, k, at, 0, false, 1, prog, env);
  }
}
