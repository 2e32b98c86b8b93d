/** The control language: the parser of the kernel module (kpm/core/command.c) and the
    printers of the client (user/kpm/command.go). */
module Commands {
  import opened Common
  import opened Numerals
  import opened Tokens
  import Breakpoints

  const MAX_COMMAND := 512
  const COMM_LEN := 16

  datatype Outcome<T> = Ok(value: T) | Err(code: Code)

  datatype BindMode = BindPid | BindTgid | BindEither

  datatype BindRequest = BindRequest(
    pid: nat, mode: BindMode, uid: Option<nat>, comm: Option<string>, start: Option<nat>)

  datatype Command =
    | Status | Profile | Clear | Audit | Maps
    | Bind(request: BindRequest)
    | Break(breakpoint: Breakpoints.Request)
    | Enable(id: nat) | Disable(id: nat)
    | Poll(after: Option<nat>)
    | MapsRead(snapshot: nat, offset: nat)

  // ---------------------------------------------------------------------------
  // Verbs, keys and values
  // ---------------------------------------------------------------------------

  datatype Verb =
    | StatusVerb | ProfileVerb | BindVerb | BreakVerb | EnableVerb | DisableVerb
    | ClearVerb | PollVerb | AuditVerb | MapsVerb | MapsReadVerb

  datatype Key =
    | PidKey | BindModeKey | UidKey | CommKey | StartKey
    | IdKey | KindKey | AddrKey | LenKey | BreakModeKey
    | AfterKey | SnapshotKey | OffsetKey

  datatype Scalar = Num(n: nat) | Text(s: string)

  /** The fields seen so far and their values. */
  type Draft = map<Key, Scalar>

  function VerbName(v: Verb): string {
    match v
    case StatusVerb => "status"
    case ProfileVerb => "profile"
    case BindVerb => "bind"
    case BreakVerb => "break"
    case EnableVerb => "enable"
    case DisableVerb => "disable"
    case ClearVerb => "clear"
    case PollVerb => "poll"
    case AuditVerb => "audit"
    case MapsVerb => "maps"
    case MapsReadVerb => "maps-read"
  }

  function VerbNamed(name: string): Option<Verb> {
    if name == "status" then Some(StatusVerb)
    else if name == "profile" then Some(ProfileVerb)
    else if name == "bind" then Some(BindVerb)
    else if name == "break" then Some(BreakVerb)
    else if name == "enable" then Some(EnableVerb)
    else if name == "disable" then Some(DisableVerb)
    else if name == "clear" then Some(ClearVerb)
    else if name == "poll" then Some(PollVerb)
    else if name == "audit" then Some(AuditVerb)
    else if name == "maps" then Some(MapsVerb)
    else if name == "maps-read" then Some(MapsReadVerb)
    else None
  }

  function FewestWords(v: Verb): nat {
    match v
    case BindVerb => 3
    case BreakVerb => 6
    case EnableVerb | DisableVerb => 2
    case MapsReadVerb => 3
    case _ => 1
  }

  function MostWords(v: Verb): nat {
    match v
    case BindVerb | BreakVerb => 6
    case EnableVerb | DisableVerb | PollVerb => 2
    case MapsReadVerb => 3
    case _ => 1
  }

  function KeyName(k: Key): string {
    match k
    case PidKey => "pid"
    case BindModeKey => "mode"
    case UidKey => "uid"
    case CommKey => "comm"
    case StartKey => "start"
    case IdKey => "id"
    case KindKey => "kind"
    case AddrKey => "addr"
    case LenKey => "len"
    case BreakModeKey => "mode"
    case AfterKey => "after"
    case SnapshotKey => "snapshot"
    case OffsetKey => "offset"
  }

  predicate Takes(v: Verb, k: Key) {
    match v
    case BindVerb => k.PidKey? || k.BindModeKey? || k.UidKey? || k.CommKey? || k.StartKey?
    case BreakVerb => k.IdKey? || k.KindKey? || k.AddrKey? || k.LenKey? || k.BreakModeKey?
    case EnableVerb | DisableVerb => k.IdKey?
    case PollVerb => k.AfterKey?
    case MapsReadVerb => k.SnapshotKey? || k.OffsetKey?
    case _ => false
  }

  /** The key a verb's parser takes this name for. */
  function KeyNamed(v: Verb, name: string): Option<Key> {
    match v
    case BindVerb =>
      if name == "pid" then Some(PidKey)
      else if name == "mode" then Some(BindModeKey)
      else if name == "uid" then Some(UidKey)
      else if name == "comm" then Some(CommKey)
      else if name == "start" then Some(StartKey)
      else None
    case BreakVerb =>
      if name == "id" then Some(IdKey)
      else if name == "kind" then Some(KindKey)
      else if name == "addr" then Some(AddrKey)
      else if name == "len" then Some(LenKey)
      else if name == "mode" then Some(BreakModeKey)
      else None
    case EnableVerb | DisableVerb => if name == "id" then Some(IdKey) else None
    case PollVerb => if name == "after" then Some(AfterKey) else None
    case MapsReadVerb =>
      if name == "snapshot" then Some(SnapshotKey)
      else if name == "offset" then Some(OffsetKey)
      else None
    case _ => None
  }

  predicate SafeChar(c: char) {
    'a' <= c <= 'z' || 'A' <= c <= 'Z' || '0' <= c <= '9' || c == '.' || c == '_' || c == ':' || c == '-'
  }

  /** spz_safe_comm and safeAtom. */
  predicate SafeAtom(s: string, limit: nat) {
    0 < |s| <= limit && forall i :: 0 <= i < |s| ==> SafeChar(s[i])
  }

  function AtLeast(p: Parsed, least: nat): Outcome<Scalar> {
    match p
    case Number(n) => if n < least then Err(Inval) else Ok(Num(n))
    case Malformed => Err(Inval)
    case TooLarge => Err(Range)
  }

  function OneOf(s: string, names: seq<string>): Outcome<Scalar> {
    if s in names then Ok(Text(s)) else Err(Inval)
  }

  /** Reading the value of a field. */
  function FieldValue(k: Key, s: string): Outcome<Scalar> {
    match k
    case PidKey | IdKey => AtLeast(ParseDecimalUpTo(s, UINT32_MAX), 1)
    case UidKey | OffsetKey => AtLeast(ParseDecimalUpTo(s, UINT32_MAX), 0)
    case StartKey | AfterKey => AtLeast(ParseDecimal(s), 0)
    case SnapshotKey => AtLeast(ParseDecimal(s), 1)
    case AddrKey => AtLeast(ParseHex(s), 0)
    case LenKey => AtLeast(ParseDecimalUpTo(s, 255), 0)
    case BindModeKey => OneOf(s, ["pid", "tgid", "either"])
    case KindKey => OneOf(s, ["x", "r", "w", "rw"])
    case BreakModeKey => OneOf(s, ["once", "repeat"])
    case CommKey => if SafeAtom(s, COMM_LEN - 1) then Ok(Text(s)) else Err(Inval)
  }

  /** The values a field can have. */
  predicate InRange(k: Key, v: Scalar) {
    match k
    case PidKey | IdKey => v.Num? && 1 <= v.n <= UINT32_MAX
    case UidKey | OffsetKey => v.Num? && v.n <= UINT32_MAX
    case StartKey | AfterKey | AddrKey => v.Num? && v.n <= UINT64_MAX
    case SnapshotKey => v.Num? && 1 <= v.n <= UINT64_MAX
    case LenKey => v.Num? && v.n <= 255
    case BindModeKey => v.Text? && v.s in ["pid", "tgid", "either"]
    case KindKey => v.Text? && v.s in ["x", "r", "w", "rw"]
    case BreakModeKey => v.Text? && v.s in ["once", "repeat"]
    case CommKey => v.Text? && SafeAtom(v.s, COMM_LEN - 1)
  }

  // ---------------------------------------------------------------------------
  // The parser
  // ---------------------------------------------------------------------------

  /** One round of a field loop. */
  function AddField(v: Verb, seen: Draft, word: string): Outcome<Draft> {
    match Split(word)
    case NoField => Err(Inval)
    case Field(name, text) =>
      var k := KeyNamed(v, name);
      if k.None? || k.value in seen then Err(Inval)
      else
        var scalar := FieldValue(k.value, text);
        if scalar.Err? then Err(scalar.code) else Ok(seen[k.value := scalar.value])
  }

  function AddFields(v: Verb, seen: Draft, words: seq<string>): Outcome<Draft>
    decreases |words|
  {
    if words == [] then Ok(seen)
    else
      var next := AddField(v, seen, words[0]);
      if next.Err? then next else AddFields(v, next.value, words[1..])
  }

  /** The field loops of spz_parse_bind, spz_parse_break and spz_parse_maps_read; the
      single field of spz_parse_id and spz_parse_poll is a round of the same loop. */
  method ParseFields(v: Verb, words: seq<string>) returns (r: Outcome<Draft>)
    ensures r == AddFields(v, map[], words)
  {
    var seen: Draft := map[];
    assert words[0..] == words;
    for index := 0 to |words|
      invariant AddFields(v, map[], words) == AddFields(v, seen, words[index..])
    {
      assert words[index..][0] == words[index] && words[index..][1..] == words[index + 1..];
      var field := SplitKeyValue(words[index]);
      if field.NoField? {
        return Err(Inval);
      }
      var k := KeyNamed(v, field.key);
      if k.None? {
        return Err(Inval);
      }
      var scalar := FieldValue(k.value, field.value);
      if k.value in seen {
        return Err(Inval);
      }
      if scalar.Err? {
        return Err(scalar.code);
      }
      seen := seen[k.value := scalar.value];
    }
    r := Ok(seen);
  }

  function NumberAt(d: Draft, k: Key): nat {
    if k in d && d[k].Num? then d[k].n else 0
  }

  function TextAt(d: Draft, k: Key): string {
    if k in d && d[k].Text? then d[k].s else ""
  }

  function OptionalNumber(d: Draft, k: Key): Option<nat> {
    if k in d then Some(NumberAt(d, k)) else None
  }

  function ModeNamed(s: string): BindMode {
    if s == "pid" then BindPid else if s == "tgid" then BindTgid else BindEither
  }

  function KindNamed(s: string): Breakpoints.BreakKind {
    if s == "x" then Breakpoints.Execute
    else if s == "r" then Breakpoints.Read
    else if s == "w" then Breakpoints.Write
    else Breakpoints.ReadWrite
  }

  function BreakModeNamed(s: string): Breakpoints.BreakMode {
    if s == "once" then Breakpoints.Once else Breakpoints.Repeat
  }

  function BuildBind(d: Draft): BindRequest {
    BindRequest(NumberAt(d, PidKey), ModeNamed(TextAt(d, BindModeKey)), OptionalNumber(d, UidKey),
                if CommKey in d then Some(TextAt(d, CommKey)) else None, OptionalNumber(d, StartKey))
  }

  function BuildBreak(d: Draft): Breakpoints.Request {
    Breakpoints.Request(NumberAt(d, IdKey), KindNamed(TextAt(d, KindKey)), NumberAt(d, AddrKey),
                        NumberAt(d, LenKey), BreakModeNamed(TextAt(d, BreakModeKey)))
  }

  /** The checks after the field loop. */
  function Build(v: Verb, d: Draft): Outcome<Command> {
    match v
    case StatusVerb => Ok(Status)
    case ProfileVerb => Ok(Profile)
    case ClearVerb => Ok(Clear)
    case AuditVerb => Ok(Audit)
    case MapsVerb => Ok(Maps)
    case BindVerb =>
      if PidKey in d && BindModeKey in d then Ok(Bind(BuildBind(d))) else Err(Inval)
    case BreakVerb =>
      if IdKey !in d || KindKey !in d || AddrKey !in d || LenKey !in d || BreakModeKey !in d then Err(Inval)
      else if Breakpoints.ParserAccepts(BuildBreak(d)) then Ok(Break(BuildBreak(d))) else Err(Inval)
    case EnableVerb => Ok(Enable(NumberAt(d, IdKey)))
    case DisableVerb => Ok(Disable(NumberAt(d, IdKey)))
    case PollVerb => Ok(Poll(OptionalNumber(d, AfterKey)))
    case MapsReadVerb =>
      if SnapshotKey in d && OffsetKey in d
      then Ok(MapsRead(NumberAt(d, SnapshotKey), NumberAt(d, OffsetKey))) else Err(Inval)
  }

  function ParseWords(words: seq<string>): Outcome<Command>
    requires words != []
  {
    var verb := VerbNamed(words[0]);
    if verb.None? then Err(Inval)
    else if !(FewestWords(verb.value) <= |words| <= MostWords(verb.value)) then Err(Inval)
    else
      var d := AddFields(verb.value, map[], words[1..]);
      if d.Err? then Err(d.code) else Build(verb.value, d.value)
  }

  /** What a control line means. */
  function ParseLine(line: string): Outcome<Command> {
    if line == [] then Err(Inval)
    else if |line| > MAX_COMMAND then Err(TooBig)
    else
      var lexed := Tokenized(line);
      if lexed.Failed? then Err(lexed.code)
      else if lexed.words == [] then Err(Inval)
      else ParseWords(lexed.words)
  }

  /** spz_parse_command: it takes the line apart in place. */
  method ParseCommand(input: array<char>) returns (r: Outcome<Command>)
    modifies input
    ensures r == ParseLine(old(input[..]))
  {
    hide Lex, AddFields, Build;
    ghost var line := input[..];
    if input.Length == 0 {
      return Err(Inval);
    }
    if input.Length > MAX_COMMAND {
      return Err(TooBig);
    }
    var code, tokens := Tokenize(input);
    if code != Fine {
      return Err(code);
    }
    ghost var words := Tokenized(line).words;
    TokenizedIff(line, words);
    var texts: seq<string> := [];
    for i := 0 to |tokens|
      invariant texts == words[..i]
    {
      assert Reads(tokens[i], words[i], input[..]);
      texts := texts + [input[tokens[i].start..tokens[i].start + tokens[i].length]];
    }
    assert texts == words;
    var verb := VerbNamed(texts[0]);
    if verb.None? || !(FewestWords(verb.value) <= |texts| <= MostWords(verb.value)) {
      return Err(Inval);
    }
    var fields := ParseFields(verb.value, texts[1..]);
    r := if fields.Err? then Err(fields.code) else Build(verb.value, fields.value);
  }

  // ---------------------------------------------------------------------------
  // What a list of fields means, whatever its order
  // ---------------------------------------------------------------------------

  /** The key a word sets, if it is a field of this verb with a value it accepts. */
  function WordKey(v: Verb, word: string): Option<Key> {
    var f := Split(word);
    if f.Field? && KeyNamed(v, f.key).Some? && FieldValue(KeyNamed(v, f.key).value, f.value).Ok?
    then KeyNamed(v, f.key) else None
  }

  function WordValue(v: Verb, word: string): Scalar
    requires WordKey(v, word).Some?
  {
    FieldValue(WordKey(v, word).value, Split(word).value).value
  }

  /** The words set exactly the fields that `d` has more than `seen`, each once. */
  ghost predicate Sets(v: Verb, seen: Draft, words: seq<string>, d: Draft) {
    && (forall k :: k in seen ==> k in d && d[k] == seen[k])
    && (forall i :: 0 <= i < |words| ==>
          && WordKey(v, words[i]).Some?
          && WordKey(v, words[i]).value !in seen
          && WordKey(v, words[i]).value in d
          && d[WordKey(v, words[i]).value] == WordValue(v, words[i]))
    && (forall i, j :: 0 <= i < j < |words| ==> WordKey(v, words[i]) != WordKey(v, words[j]))
    && (forall k :: k in d && k !in seen ==> exists i :: 0 <= i < |words| && WordKey(v, words[i]) == Some(k))
  }

  lemma AddFieldSets(v: Verb, seen: Draft, word: string)
    ensures AddField(v, seen, word).Ok? <==> WordKey(v, word).Some? && WordKey(v, word).value !in seen
    ensures AddField(v, seen, word).Ok? ==>
              AddField(v, seen, word).value == seen[WordKey(v, word).value := WordValue(v, word)]
  {
    hide Split, KeyNamed, FieldValue;
  }

  lemma SetsFirst(v: Verb, seen: Draft, word: string, words: seq<string>, d: Draft)
    requires |words| > 0 && words[0] == word
    requires WordKey(v, word).Some? && WordKey(v, word).value !in seen
    requires Sets(v, seen[WordKey(v, word).value := WordValue(v, word)], words[1..], d)
    ensures Sets(v, seen, words, d)
  {
    hide WordKey, WordValue;
    var rest, key := words[1..], WordKey(v, word).value;
    var next := seen[key := WordValue(v, word)];
    assert key in next && key in d && d[key] == WordValue(v, word);
    assert words == [word] + rest;
    forall k | k in seen ensures k in d && d[k] == seen[k] {
      assert k in next && next[k] == seen[k];
    }
    forall k | k in d && k !in seen ensures exists i :: 0 <= i < |words| && WordKey(v, words[i]) == Some(k) {
      if k == key {
        assert WordKey(v, words[0]) == Some(k);
      } else {
        var i :| 0 <= i < |rest| && WordKey(v, rest[i]) == Some(k);
        assert WordKey(v, words[i + 1]) == Some(k);
      }
    }
  }

  lemma SetsRest(v: Verb, seen: Draft, word: string, words: seq<string>, d: Draft)
    requires |words| > 0 && words[0] == word && Sets(v, seen, words, d)
    ensures WordKey(v, word).Some? && WordKey(v, word).value !in seen
    ensures Sets(v, seen[WordKey(v, word).value := WordValue(v, word)], words[1..], d)
  {
    hide WordKey, WordValue;
    var rest, key := words[1..], WordKey(v, words[0]).value;
    var next := seen[key := WordValue(v, word)];
    forall i | 0 <= i < |rest| ensures WordKey(v, rest[i]) != WordKey(v, word) {
      assert rest[i] == words[i + 1];
    }
    forall k | k in d && k !in next ensures exists i :: 0 <= i < |rest| && WordKey(v, rest[i]) == Some(k) {
      var i :| 0 <= i < |words| && WordKey(v, words[i]) == Some(k);
      assert i > 0 && words[i] == rest[i - 1];
    }
  }

  lemma {:induction false} FieldsSet(v: Verb, seen: Draft, words: seq<string>)
    requires AddFields(v, seen, words).Ok?
    ensures Sets(v, seen, words, AddFields(v, seen, words).value)
    decreases |words|
  {
    hide AddField, WordKey, WordValue;
    if words != [] {
      hide Sets;
      AddFieldSets(v, seen, words[0]);
      FieldsSet(v, AddField(v, seen, words[0]).value, words[1..]);
      SetsFirst(v, seen, words[0], words, AddFields(v, seen, words).value);
    }
  }

  lemma {:induction false} SetFields(v: Verb, seen: Draft, words: seq<string>, d: Draft)
    requires Sets(v, seen, words, d)
    ensures AddFields(v, seen, words) == Ok(d)
    decreases |words|
  {
    hide AddField, WordKey, WordValue;
    if words == [] {
      assert seen == d;
    } else {
      hide Sets;
      SetsRest(v, seen, words[0], words, d);
      AddFieldSets(v, seen, words[0]);
      SetFields(v, AddField(v, seen, words[0]).value, words[1..], d);
    }
  }

  /** The field loop succeeds with `d` exactly when every word sets a field the verb takes to
      a value it accepts, no field is set twice, and `d` holds those fields and no others. */
  lemma FieldsIff(v: Verb, words: seq<string>, d: Draft)
    ensures AddFields(v, map[], words) == Ok(d) <==> Sets(v, map[], words, d)
  {
    hide Sets, AddFields;
    if AddFields(v, map[], words) == Ok(d) {
      FieldsSet(v, map[], words);
    }
    if Sets(v, map[], words, d) {
      SetFields(v, map[], words, d);
    }
  }

  lemma TwiceInMultiset(words: seq<string>, i: nat, j: nat)
    requires i < j < |words| && words[i] == words[j]
    ensures multiset(words)[words[i]] >= 2
  {
    assert words == words[..j] + [words[j]] + words[j + 1..];
    assert words[..j][i] == words[i];
  }

  lemma OtherOccurrence(words: seq<string>, p: nat) returns (q: nat)
    requires p < |words| && multiset(words)[words[p]] >= 2
    ensures q < |words| && q != p && words[q] == words[p]
  {
    var others := words[..p] + words[p + 1..];
    assert words == words[..p] + [words[p]] + words[p + 1..];
    assert multiset(others)[words[p]] >= 1;
    assert words[p] in others;
    var i :| 0 <= i < |others| && others[i] == words[p];
    q := if i < p then i else i + 1;
  }

  lemma SameWord(v: Verb, words: seq<string>, d: Draft, a: string, b: string)
    requires Sets(v, map[], words, d) && a in words && b in words && WordKey(v, a) == WordKey(v, b)
    ensures a == b && multiset(words)[a] == 1
  {
    hide WordKey, WordValue;
    var p :| 0 <= p < |words| && words[p] == a;
    var r :| 0 <= r < |words| && words[r] == b;
    if multiset(words)[a] >= 2 {
      var q := OtherOccurrence(words, p);
      assert false;
    }
  }

  /** The order of the fields does not matter. */
  lemma OrderIrrelevant(v: Verb, words: seq<string>, shuffled: seq<string>)
    requires multiset(words) == multiset(shuffled) && AddFields(v, map[], words).Ok?
    ensures AddFields(v, map[], shuffled) == AddFields(v, map[], words)
  {
    hide WordKey, WordValue, AddFields;
    var d := AddFields(v, map[], words).value;
    FieldsIff(v, words, d);
    forall w ensures w in words <==> w in shuffled {
      assert w in words <==> w in multiset(words);
      assert w in shuffled <==> w in multiset(shuffled);
    }
    forall i | 0 <= i < |shuffled|
      ensures WordKey(v, shuffled[i]).Some? && WordKey(v, shuffled[i]).value in d
      ensures d[WordKey(v, shuffled[i]).value] == WordValue(v, shuffled[i])
    {
      assert shuffled[i] in words;
    }
    forall i, j | 0 <= i < j < |shuffled| ensures WordKey(v, shuffled[i]) != WordKey(v, shuffled[j]) {
      assert shuffled[i] in words && shuffled[j] in words;
      if WordKey(v, shuffled[i]) == WordKey(v, shuffled[j]) {
        SameWord(v, words, d, shuffled[i], shuffled[j]);
        TwiceInMultiset(shuffled, i, j);
        assert false;
      }
    }
    forall k | k in d ensures exists i :: 0 <= i < |shuffled| && WordKey(v, shuffled[i]) == Some(k) {
      var p :| 0 <= p < |words| && WordKey(v, words[p]) == Some(k);
      assert words[p] in shuffled;
    }
    FieldsIff(v, shuffled, d);
  }

  // ---------------------------------------------------------------------------
  // The commands there are
  // ---------------------------------------------------------------------------

  predicate OptionalUpTo(o: Option<nat>, limit: nat) {
    o.Some? ==> o.value <= limit
  }

  predicate ValidBind(b: BindRequest) {
    && 1 <= b.pid <= UINT32_MAX
    && OptionalUpTo(b.uid, UINT32_MAX)
    && (b.comm.Some? ==> SafeAtom(b.comm.value, COMM_LEN - 1))
    && OptionalUpTo(b.start, UINT64_MAX)
  }

  predicate Valid(c: Command) {
    match c
    case Bind(b) => ValidBind(b)
    case Break(r) => r.Typed() && Breakpoints.Sensible(r)
    case Enable(id) => 1 <= id <= UINT32_MAX
    case Disable(id) => 1 <= id <= UINT32_MAX
    case Poll(after) => OptionalUpTo(after, UINT64_MAX)
    case MapsRead(snapshot, offset) => 1 <= snapshot <= UINT64_MAX && offset <= UINT32_MAX
    case _ => true
  }

  predicate DraftOk(v: Verb, d: Draft) {
    forall k :: k in d ==> Takes(v, k) && InRange(k, d[k])
  }

  lemma AcceptedInRange(v: Verb, name: string, text: string)
    requires KeyNamed(v, name).Some? && FieldValue(KeyNamed(v, name).value, text).Ok?
    ensures Takes(v, KeyNamed(v, name).value)
    ensures InRange(KeyNamed(v, name).value, FieldValue(KeyNamed(v, name).value, text).value)
  {
    hide AllDigits, Value, OverflowsFirst;
  }

  lemma WordInRange(v: Verb, word: string)
    requires WordKey(v, word).Some?
    ensures Takes(v, WordKey(v, word).value) && InRange(WordKey(v, word).value, WordValue(v, word))
  {
    hide FieldValue, KeyNamed, Takes, InRange, Split;
    AcceptedInRange(v, Split(word).key, Split(word).value);
  }

  lemma FieldsInRange(v: Verb, words: seq<string>)
    requires AddFields(v, map[], words).Ok?
    ensures var d := AddFields(v, map[], words).value;
            && DraftOk(v, d)
            && (words != [] ==> exists k :: k in d)
  {
    hide AddFields, WordKey, WordValue, Takes, InRange;
    var d := AddFields(v, map[], words).value;
    FieldsSet(v, map[], words);
    forall k | k in d ensures Takes(v, k) && InRange(k, d[k]) {
      var i :| 0 <= i < |words| && WordKey(v, words[i]) == Some(k);
      WordInRange(v, words[i]);
    }
    if words != [] {
      assert WordKey(v, words[0]).value in d;
    }
  }

  lemma BuiltValid(v: Verb, d: Draft)
    requires DraftOk(v, d) && Build(v, d).Ok?
    requires v.EnableVerb? || v.DisableVerb? ==> exists k :: k in d
    ensures Valid(Build(v, d).value)
  {
    hide SafeAtom;
    if v.BreakVerb? {
      BuiltBreakValid(d);
    } else if v.EnableVerb? || v.DisableVerb? {
      var k :| k in d;
      assert k == IdKey;
    }
    hide Breakpoints.ParserAccepts, Breakpoints.Sensible, BuildBreak;
  }

  lemma BuiltBreakValid(d: Draft)
    requires DraftOk(BreakVerb, d) && Build(BreakVerb, d).Ok?
    ensures BuildBreak(d).Typed() && Breakpoints.Sensible(BuildBreak(d))
  {
    hide SafeAtom, Breakpoints.ParserAccepts, Breakpoints.Sensible;
    assert IdKey in d && InRange(IdKey, d[IdKey]);
    assert AddrKey in d && InRange(AddrKey, d[AddrKey]);
    assert LenKey in d && InRange(LenKey, d[LenKey]);
    Breakpoints.ChecksAgree(BuildBreak(d));
  }

  /** Whatever is parsed is a valid command. */
  lemma ParsedValid(line: string)
    requires ParseLine(line).Ok?
    ensures Valid(ParseLine(line).value)
  {
    hide Tokenized, AddFields, Build, Valid, VerbNamed, DraftOk;
    var words := Tokenized(line).words;
    var v := VerbNamed(words[0]).value;
    FieldsInRange(v, words[1..]);
    assert v.EnableVerb? || v.DisableVerb? ==> words[1..] != [];
    BuiltValid(v, AddFields(v, map[], words[1..]).value);
  }

  // ---------------------------------------------------------------------------
  // The printers
  // ---------------------------------------------------------------------------

  function ModeName(m: BindMode): string {
    match m
    case BindPid => "pid"
    case BindTgid => "tgid"
    case BindEither => "either"
  }

  function KindName(k: Breakpoints.BreakKind): string {
    match k
    case Execute => "x"
    case Read => "r"
    case Write => "w"
    case ReadWrite => "rw"
    case KindInvalid => ""
  }

  function BreakModeName(m: Breakpoints.BreakMode): string {
    match m
    case Once => "once"
    case Repeat => "repeat"
    case ModeInvalid => ""
  }

  function VerbOf(c: Command): Verb {
    match c
    case Status => StatusVerb
    case Profile => ProfileVerb
    case Clear => ClearVerb
    case Audit => AuditVerb
    case Maps => MapsVerb
    case Bind(_) => BindVerb
    case Break(_) => BreakVerb
    case Enable(_) => EnableVerb
    case Disable(_) => DisableVerb
    case Poll(_) => PollVerb
    case MapsRead(_, _) => MapsReadVerb
  }

  function BindDraft(b: BindRequest): Draft {
    var d := map[PidKey := Num(b.pid), BindModeKey := Text(ModeName(b.mode))];
    var d := if b.uid.Some? then d[UidKey := Num(b.uid.value)] else d;
    var d := if b.comm.Some? then d[CommKey := Text(b.comm.value)] else d;
    if b.start.Some? then d[StartKey := Num(b.start.value)] else d
  }

  function DraftOf(c: Command): Draft {
    match c
    case Bind(b) => BindDraft(b)
    case Break(r) =>
      map[IdKey := Num(r.id), KindKey := Text(KindName(r.kind)), AddrKey := Num(r.address),
          LenKey := Num(r.length), BreakModeKey := Text(BreakModeName(r.mode))]
    case Enable(id) => map[IdKey := Num(id)]
    case Disable(id) => map[IdKey := Num(id)]
    case Poll(after) => if after.Some? then map[AfterKey := Num(after.value)] else map[]
    case MapsRead(snapshot, offset) => map[SnapshotKey := Num(snapshot), OffsetKey := Num(offset)]
    case _ => map[]
  }

  /** The order in which the client prints the fields. */
  function PrintOrder(v: Verb): seq<Key> {
    match v
    case BindVerb => [PidKey, BindModeKey, UidKey, CommKey, StartKey]
    case BreakVerb => [IdKey, KindKey, AddrKey, LenKey, BreakModeKey]
    case EnableVerb | DisableVerb => [IdKey]
    case PollVerb => [AfterKey]
    case MapsReadVerb => [SnapshotKey, OffsetKey]
    case _ => []
  }

  function PrintScalar(k: Key, v: Scalar): string {
    match v
    case Text(s) => s
    case Num(n) => if k == AddrKey then PrintHex(n) else PrintDecimal(n)
  }

  function FieldWord(k: Key, v: Scalar): string {
    KeyName(k) + "=" + PrintScalar(k, v)
  }

  function FieldWords(order: seq<Key>, d: Draft): seq<string> {
    if order == [] then []
    else (if order[0] in d then [FieldWord(order[0], d[order[0]])] else []) + FieldWords(order[1..], d)
  }

  function PrintWords(c: Command): seq<string> {
    [VerbName(VerbOf(c))] + FieldWords(PrintOrder(VerbOf(c)), DraftOf(c))
  }

  function Print(c: Command): string {
    Join(PrintWords(c))
  }

  // ---------------------------------------------------------------------------
  // Printing and parsing back
  // ---------------------------------------------------------------------------

  predicate ValueWord(s: string) {
    IsWord(s) && '=' !in s && |s| <= 66
  }

  lemma DigitsAreWord(s: string, radix: Radix)
    requires s != [] && AllDigits(s, radix)
    ensures IsWord(s) && '=' !in s
  {
  }

  lemma DecimalWord(n: nat)
    requires n <= UINT64_MAX
    ensures ValueWord(PrintDecimal(n)) && ParseDecimal(PrintDecimal(n)) == Number(n)
  {
    hide PrintDigits, Value, AllDigits, Digits;
    DecimalRoundTrip(n);
    PrintedShort(n, Decimal);
    PrintedValue(n, Decimal);
    DigitsAreWord(PrintDigits(n, Decimal), Decimal);
  }

  lemma HexWord(n: nat)
    requires n <= UINT64_MAX
    ensures ValueWord(PrintHex(n)) && ParseHex(PrintHex(n)) == Number(n)
  {
    hide Value, AllDigits, Digits, PrintDigits, ParseHex;
    HexRoundTrip(n);
    PrintedShort(n, Hex);
    PrintedValue(n, Hex);
    DigitsAreWord(PrintDigits(n, Hex), Hex);
  }

  lemma NumberRoundTrip(k: Key, n: nat)
    requires InRange(k, Num(n))
    ensures ValueWord(PrintScalar(k, Num(n))) && FieldValue(k, PrintScalar(k, Num(n))) == Ok(Num(n))
  {
    hide PrintDecimal, PrintHex, ParseDecimal, ParseHex, ValueWord;
    if k == AddrKey {
      HexWord(n);
    } else {
      DecimalWord(n);
    }
  }

  lemma CommIsWord(s: string)
    requires SafeAtom(s, COMM_LEN - 1)
    ensures ValueWord(s)
  {
    forall i | 0 <= i < |s| ensures ' ' < s[i] <= '~' && s[i] != '=' {
      assert SafeChar(s[i]);
    }
  }

  lemma TextRoundTrip(k: Key, s: string)
    requires InRange(k, Text(s))
    ensures ValueWord(PrintScalar(k, Text(s))) && FieldValue(k, PrintScalar(k, Text(s))) == Ok(Text(s))
  {
    hide SafeAtom;
    if k == CommKey {
      hide ValueWord;
      CommIsWord(s);
    }
  }

  lemma KeyRoundTrip(v: Verb, k: Key)
    requires Takes(v, k)
    ensures KeyNamed(v, KeyName(k)) == Some(k)
  {
  }

  /** The printed field reads back as the field. */
  lemma FieldRoundTrip(v: Verb, k: Key, x: Scalar)
    requires Takes(v, k) && InRange(k, x)
    ensures IsWord(FieldWord(k, x)) && |FieldWord(k, x)| <= 75
    ensures Split(FieldWord(k, x)) == Field(KeyName(k), PrintScalar(k, x))
    ensures KeyNamed(v, KeyName(k)) == Some(k)
    ensures FieldValue(k, PrintScalar(k, x)) == Ok(x)
  {
    hide FieldValue, InRange, PrintScalar, KeyNamed, KeyName, Takes;
    match x {
      case Num(n) => NumberRoundTrip(k, n);
      case Text(s) => TextRoundTrip(k, s);
    }
    KeyRoundTrip(v, k);
    NameIsWord(k);
    SplitIff(FieldWord(k, x), KeyName(k), PrintScalar(k, x));
  }

  lemma NameIsWord(k: Key)
    ensures IsWord(KeyName(k)) && '=' !in KeyName(k) && |KeyName(k)| <= 8
  {
  }

  function Restrict(d: Draft, keys: seq<Key>): Draft {
    map k | k in d && k in keys :: d[k]
  }

  lemma RestrictFirst(d: Draft, order: seq<Key>, seen: Draft)
    requires order != []
    ensures order[0] in d ==> seen[order[0] := d[order[0]]] + Restrict(d, order[1..]) == seen + Restrict(d, order)
    ensures order[0] !in d ==> Restrict(d, order[1..]) == Restrict(d, order)
  {
    assert forall k :: k in order <==> k == order[0] || k in order[1..];
  }

  /** Printing the fields of `order` and parsing them adds exactly those fields. */
  lemma {:induction false} FieldsRoundTrip(v: Verb, order: seq<Key>, d: Draft, seen: Draft)
    requires DraftOk(v, d)
    requires forall i, j :: 0 <= i < j < |order| ==> order[i] != order[j]
    requires forall i :: 0 <= i < |order| ==> order[i] !in seen
    ensures AddFields(v, seen, FieldWords(order, d)) == Ok(seen + Restrict(d, order))
    decreases |order|
  {
    hide Takes, InRange;
    if order == [] {
      assert seen + Restrict(d, order) == seen;
    } else {
      hide AddFields, FieldWord, Restrict;
      var key, rest := order[0], order[1..];
      var words := FieldWords(rest, d);
      RestrictFirst(d, order, seen);
      if key in d {
        FieldsRoundTrip(v, rest, d, seen[key := d[key]]);
        FirstField(v, seen, key, d[key], words);
      } else {
        FieldsRoundTrip(v, rest, d, seen);
        assert FieldWords(order, d) == words;
      }
    }
  }

  lemma FirstField(v: Verb, seen: Draft, k: Key, x: Scalar, words: seq<string>)
    requires Takes(v, k) && InRange(k, x) && k !in seen
    ensures AddFields(v, seen, [FieldWord(k, x)] + words) == AddFields(v, seen[k := x], words)
  {
    hide FieldWord, Split, KeyNamed, FieldValue, Takes, InRange;
    FieldRoundTrip(v, k, x);
    var all := [FieldWord(k, x)] + words;
    assert all[0] == FieldWord(k, x) && all[1..] == words;
  }

  predicate ShortWord(w: string) {
    IsWord(w) && |w| <= 75
  }

  lemma {:induction false} FieldWordsShort(v: Verb, order: seq<Key>, d: Draft)
    requires DraftOk(v, d)
    ensures |FieldWords(order, d)| <= |order|
    ensures forall i :: 0 <= i < |FieldWords(order, d)| ==> ShortWord(FieldWords(order, d)[i])
    ensures (forall i :: 0 <= i < |order| ==> order[i] in d) ==> |FieldWords(order, d)| == |order|
    decreases |order|
  {
    hide Takes, InRange, FieldWord, IsWord;
    if order != [] {
      if order[0] in d {
        FieldRoundTrip(v, order[0], d[order[0]]);
      }
      FieldWordsShort(v, order[1..], d);
    }
  }

  lemma {:induction false} JoinShort(words: seq<string>)
    requires forall i :: 0 <= i < |words| ==> |words[i]| <= 75
    ensures |Join(words)| <= 76 * |words|
    decreases |words|
  {
    if |words| > 1 {
      JoinShort(words[1..]);
    }
  }

  lemma VerbRoundTrip(v: Verb)
    ensures VerbNamed(VerbName(v)) == Some(v) && ShortWord(VerbName(v))
  {
  }

  predicate Covers(c: Command) {
    && DraftOk(VerbOf(c), DraftOf(c))
    && forall k :: k in DraftOf(c) ==> k in PrintOrder(VerbOf(c))
  }

  lemma BindBuildsBack(b: BindRequest)
    requires ValidBind(b)
    ensures Covers(Bind(b)) && Build(BindVerb, BindDraft(b)) == Ok(Bind(b))
  {
    hide SafeAtom;
    var d := BindDraft(b);
    assert PidKey in d && BindModeKey in d;
    assert d.Keys <= {PidKey, BindModeKey, UidKey, CommKey, StartKey};
  }

  lemma KindRoundTrip(k: Breakpoints.BreakKind)
    requires !k.KindInvalid?
    ensures InRange(KindKey, Text(KindName(k))) && KindNamed(KindName(k)) == k
  {
  }

  lemma BreakModeRoundTrip(m: Breakpoints.BreakMode)
    requires !m.ModeInvalid?
    ensures InRange(BreakModeKey, Text(BreakModeName(m))) && BreakModeNamed(BreakModeName(m)) == m
  {
  }

  lemma BreakBuildsBack(r: Breakpoints.Request)
    requires r.Typed() && Breakpoints.Sensible(r)
    ensures Covers(Break(r)) && Build(BreakVerb, DraftOf(Break(r))) == Ok(Break(r))
  {
    Breakpoints.ChecksAgree(r);
    KindRoundTrip(r.kind);
    BreakModeRoundTrip(r.mode);
    assert InRange(IdKey, Num(r.id)) && InRange(AddrKey, Num(r.address)) && InRange(LenKey, Num(r.length));
    hide Breakpoints.ParserAccepts, Breakpoints.Sensible, InRange, KindName, KindNamed, BreakModeName, BreakModeNamed;
    assert DraftOf(Break(r)).Keys == {IdKey, KindKey, AddrKey, LenKey, BreakModeKey};
  }

  lemma BuildsBack(c: Command)
    requires Valid(c)
    ensures Covers(c) && Build(VerbOf(c), DraftOf(c)) == Ok(c)
  {
    if c.Bind? {
      hide Covers, Build, BindDraft;
      BindBuildsBack(c.request);
    } else if c.Break? {
      hide Covers, Build;
      BreakBuildsBack(c.breakpoint);
    }
  }

  lemma OrderDistinct(v: Verb)
    ensures forall i, j :: 0 <= i < j < |PrintOrder(v)| ==> PrintOrder(v)[i] != PrintOrder(v)[j]
    ensures |PrintOrder(v)| <= 5
  {
  }

  lemma BindWordCount(b: BindRequest)
    requires DraftOk(BindVerb, BindDraft(b))
    ensures 3 <= |PrintWords(Bind(b))| <= 6
  {
    hide DraftOk, FieldWord, VerbName;
    var order, d := PrintOrder(BindVerb), BindDraft(b);
    FieldWordsShort(BindVerb, order, d);
    assert PidKey in d && BindModeKey in d;
    hide BindDraft;
    assert |FieldWords(order, d)| == 1 + |FieldWords(order[1..], d)|;
    assert order[1..][0] == BindModeKey;
  }

  lemma WordCountFits(c: Command)
    requires Covers(c)
    ensures FewestWords(VerbOf(c)) <= |PrintWords(c)| <= MostWords(VerbOf(c))
  {
    hide DraftOk, FieldWords, VerbName;
    if c.Bind? {
      BindWordCount(c.request);
    } else {
      FieldWordsShort(VerbOf(c), PrintOrder(VerbOf(c)), DraftOf(c));
    }
  }

  lemma PrintedSentence(c: Command)
    requires Valid(c)
    ensures Sentence(PrintWords(c), MAX_TOKENS) && 0 < |Print(c)| <= MAX_COMMAND
    ensures Tokenized(Print(c)) == Words(PrintWords(c))
  {
    hide Valid, DraftOk, IsWord, Lex, VerbName, PrintOrder, DraftOf, FieldWords, Build;
    var words := PrintWords(c);
    BuildsBack(c);
    VerbRoundTrip(VerbOf(c));
    OrderDistinct(VerbOf(c));
    FieldWordsShort(VerbOf(c), PrintOrder(VerbOf(c)), DraftOf(c));
    assert forall i :: 0 <= i < |words| ==> ShortWord(words[i]);
    JoinShort(words);
    LexComplete(words, MAX_TOKENS);
    hide Join;
    TokenizedIff(Print(c), words);
  }

  /** Every valid command survives printing and parsing. */
  lemma RoundTrip(c: Command)
    requires Valid(c)
    ensures ParseLine(Print(c)) == Ok(c)
  {
    hide Valid, DraftOk, Tokenized, Print, VerbName, VerbNamed, PrintOrder, DraftOf, FieldWords, AddFields, Build;
    var v, d, words := VerbOf(c), DraftOf(c), PrintWords(c);
    PrintedSentence(c);
    BuildsBack(c);
    WordCountFits(c);
    VerbRoundTrip(v);
    OrderDistinct(v);
    FieldsRoundTrip(v, PrintOrder(v), d, map[]);
    assert map[] + Restrict(d, PrintOrder(v)) == d;
    assert words[1..] == FieldWords(PrintOrder(v), d);
  }

  /** The parser produces exactly the valid commands. */
  lemma ParsedIffValid(c: Command)
    ensures (exists line :: ParseLine(line) == Ok(c)) <==> Valid(c)
  {
    hide ParseLine, Valid, Print;
    if Valid(c) {
      RoundTrip(c);
    }
    if exists line :: ParseLine(line) == Ok(c) {
      var line :| ParseLine(line) == Ok(c);
      ParsedValid(line);
    }
  }

  /** Printing what was parsed gives a line with the same meaning. */
  lemma Canonical(line: string)
    requires ParseLine(line).Ok?
    ensures ParseLine(Print(ParseLine(line).value)) == ParseLine(line)
  {
    hide ParseLine, Valid, Print;
    ParsedValid(line);
    RoundTrip(ParseLine(line).value);
  }

  // ---------------------------------------------------------------------------
  // The client's printing functions
  // ---------------------------------------------------------------------------

  /** The client's binding request: the mode is a string, an empty comm means none. */
  datatype GoBinding = GoBinding(pid: nat, mode: string, uid: Option<nat>, comm: string, start: Option<nat>)
  {
    predicate Typed() {
      pid <= UINT32_MAX && OptionalUpTo(uid, UINT32_MAX) && OptionalUpTo(start, UINT64_MAX)
    }
  }

  predicate SafeCommand(line: string) {
    line != [] && |line| <= MAX_COMMAND && Printable(line)
  }

  function Binding(g: GoBinding): BindRequest {
    BindRequest(g.pid, ModeNamed(g.mode), g.uid, if g.comm == "" then None else Some(g.comm), g.start)
  }

  function BindCommand(g: GoBinding): Option<string> {
    if g.pid == 0 then None
    else if g.mode != "pid" && g.mode != "tgid" && g.mode != "either" then None
    else if g.comm != "" && !SafeAtom(g.comm, COMM_LEN - 1) then None
    else
      var line := Print(Bind(Binding(g)));
      if SafeCommand(line) then Some(line) else None
  }

  function BreakCommand(r: Breakpoints.Request): Option<string> {
    if Breakpoints.GoBreakCheck(r) == Breakpoints.GoOk then Some(Print(Break(r))) else None
  }

  function MapsReadCommand(snapshot: nat, offset: nat): Option<string> {
    if snapshot == 0 then None else Some(Print(MapsRead(snapshot, offset)))
  }

  lemma {:induction false} JoinPrintable(words: seq<string>)
    requires forall i :: 0 <= i < |words| ==> IsWord(words[i])
    ensures Printable(Join(words))
    decreases |words|
  {
    if |words| > 1 {
      JoinPrintable(words[1..]);
    }
  }

  /** The binding the client prints is the one the module parses, and nothing it should print
      is turned down by its last check of the whole line. */
  lemma BindReachesModule(g: GoBinding)
    requires g.Typed()
    ensures BindCommand(g).Some? <==>
              && g.pid != 0 && (g.mode == "pid" || g.mode == "tgid" || g.mode == "either")
              && (g.comm == "" || SafeAtom(g.comm, COMM_LEN - 1))
    ensures BindCommand(g).Some? ==> ParseLine(BindCommand(g).value) == Ok(Bind(Binding(g)))
  {
    hide ParseLine, PrintWords, Join, SafeAtom, IsWord;
    var c := Bind(Binding(g));
    if Valid(c) {
      RoundTrip(c);
      PrintedSentence(c);
      JoinPrintable(PrintWords(c));
    }
  }

  /** The breakpoint the client prints is the one the module parses, and every breakpoint the
      module parses is one the client would print. */
  lemma BreakReachesModule(r: Breakpoints.Request)
    requires r.Typed()
    ensures BreakCommand(r).Some? ==> ParseLine(BreakCommand(r).value) == Ok(Break(r))
    ensures (exists line :: ParseLine(line) == Ok(Break(r))) <==> BreakCommand(r).Some?
  {
    hide ParseLine, Print, Breakpoints.Sensible, Breakpoints.GoBreakCheck;
    Breakpoints.ChecksAgree(r);
    ParsedIffValid(Break(r));
    if Valid(Break(r)) {
      RoundTrip(Break(r));
    }
  }

  lemma MapsReadReachesModule(snapshot: nat, offset: nat)
    requires snapshot <= UINT64_MAX && offset <= UINT32_MAX && snapshot != 0
    ensures MapsReadCommand(snapshot, offset).Some?
    ensures ParseLine(MapsReadCommand(snapshot, offset).value) == Ok(MapsRead(snapshot, offset))
  {
    hide ParseLine, Print;
    RoundTrip(MapsRead(snapshot, offset));
  }

  // ---------------------------------------------------------------------------
  // The lines, word by word
  // ---------------------------------------------------------------------------

  /** A key with the sign after it. */
  lemma KeySpelled(k: Key)
    ensures KeyName(k) + "=" ==
            match k
            case PidKey => "pid="
            case UidKey => "uid="
            case CommKey => "comm="
            case StartKey => "start="
            case IdKey => "id="
            case KindKey => "kind="
            case AddrKey => "addr="
            case LenKey => "len="
            case AfterKey => "after="
            case SnapshotKey => "snapshot="
            case OffsetKey => "offset="
            case _ => "mode="
  {
  }

  function OptionalField(k: Key, d: Draft): seq<string> {
    if k in d then [FieldWord(k, d[k])] else []
  }

  lemma FieldsFirst(order: seq<Key>, rest: seq<Key>, d: Draft)
    requires order != [] && order[1..] == rest
    ensures FieldWords(order, d) == OptionalField(order[0], d) + FieldWords(rest, d)
    ensures FieldWords([], d) == []
  {
  }

  function Optionally(name: string, value: Option<string>): seq<string> {
    if value.Some? then [name + value.value] else []
  }

  function Decimals(n: Option<nat>): Option<string> {
    if n.Some? then Some(PrintDecimal(n.value)) else None
  }

  lemma BreakFields(r: Breakpoints.Request)
    ensures FieldWords(PrintOrder(BreakVerb), DraftOf(Break(r))) ==
            [FieldWord(IdKey, Num(r.id)), FieldWord(KindKey, Text(KindName(r.kind))),
             FieldWord(AddrKey, Num(r.address)), FieldWord(LenKey, Num(r.length)),
             FieldWord(BreakModeKey, Text(BreakModeName(r.mode)))]
  {
    hide FieldWords, FieldWord, KindName, BreakModeName;
    var d := DraftOf(Break(r));
    FieldsFirst([IdKey, KindKey, AddrKey, LenKey, BreakModeKey], [KindKey, AddrKey, LenKey, BreakModeKey], d);
    FieldsFirst([KindKey, AddrKey, LenKey, BreakModeKey], [AddrKey, LenKey, BreakModeKey], d);
    FieldsFirst([AddrKey, LenKey, BreakModeKey], [LenKey, BreakModeKey], d);
    FieldsFirst([LenKey, BreakModeKey], [BreakModeKey], d);
    FieldsFirst([BreakModeKey], [], d);
  }

  /** The words of a breakpoint's line. */
  lemma BreakSpelled(r: Breakpoints.Request)
    requires r.kind != Breakpoints.KindInvalid && r.mode != Breakpoints.ModeInvalid
    ensures var kind := match r.kind { case Execute => "x" case Read => "r" case Write => "w" case _ => "rw" };
            var mode := if r.mode == Breakpoints.Once then "once" else "repeat";
            PrintWords(Break(r)) ==
            ["break", "id=" + PrintDecimal(r.id), "kind=" + kind, "addr=" + PrintHex(r.address),
             "len=" + PrintDecimal(r.length), "mode=" + mode]
  {
    hide FieldWords, PrintDecimal, PrintHex, KeyName, DraftOf, PrintOrder;
    BreakFields(r);
    KeySpelled(IdKey);
    KeySpelled(KindKey);
    KeySpelled(AddrKey);
    KeySpelled(LenKey);
    KeySpelled(BreakModeKey);
  }

  lemma BindFields(d: Draft)
    ensures FieldWords(PrintOrder(BindVerb), d) ==
            OptionalField(PidKey, d) + OptionalField(BindModeKey, d)
            + OptionalField(UidKey, d) + OptionalField(CommKey, d) + OptionalField(StartKey, d)
  {
    hide FieldWords, OptionalField;
    FieldsFirst([PidKey, BindModeKey, UidKey, CommKey, StartKey], [BindModeKey, UidKey, CommKey, StartKey], d);
    FieldsFirst([BindModeKey, UidKey, CommKey, StartKey], [UidKey, CommKey, StartKey], d);
    FieldsFirst([UidKey, CommKey, StartKey], [CommKey, StartKey], d);
    FieldsFirst([CommKey, StartKey], [StartKey], d);
    FieldsFirst([StartKey], [], d);
  }

  lemma BindNeeds(b: BindRequest)
    ensures var d := BindDraft(b);
            && OptionalField(PidKey, d) == [FieldWord(PidKey, Num(b.pid))]
            && OptionalField(BindModeKey, d) == [FieldWord(BindModeKey, Text(ModeName(b.mode)))]
  {
    hide FieldWord, ModeName;
  }

  lemma BindOptions(b: BindRequest)
    ensures var d := BindDraft(b);
            && OptionalField(UidKey, d) == Optionally("uid=", Decimals(b.uid))
            && OptionalField(CommKey, d) == Optionally("comm=", b.comm)
            && OptionalField(StartKey, d) == Optionally("start=", Decimals(b.start))
  {
    hide PrintDecimal, PrintHex, KeyName, ModeName;
    KeySpelled(UidKey);
    KeySpelled(CommKey);
    KeySpelled(StartKey);
  }

  /** The words of a binding's line. */
  lemma BindSpelled(b: BindRequest)
    ensures var mode := match b.mode { case BindPid => "pid" case BindTgid => "tgid" case BindEither => "either" };
            PrintWords(Bind(b)) ==
            ["bind", "pid=" + PrintDecimal(b.pid), "mode=" + mode] + Optionally("uid=", Decimals(b.uid))
            + Optionally("comm=", b.comm) + Optionally("start=", Decimals(b.start))
  {
    hide FieldWords, PrintDecimal, PrintHex, KeyName, BindDraft, PrintOrder, OptionalField, Optionally, Decimals;
    BindFields(BindDraft(b));
    BindNeeds(b);
    BindOptions(b);
    KeySpelled(PidKey);
    KeySpelled(BindModeKey);
  }

  /** The words of a snapshot read's line. */
  lemma MapsReadSpelled(snapshot: nat, offset: nat)
    ensures PrintWords(MapsRead(snapshot, offset)) ==
            ["maps-read", "snapshot=" + PrintDecimal(snapshot), "offset=" + PrintDecimal(offset)]
  {
    hide FieldWords, PrintDecimal, PrintHex, KeyName;
    var d := DraftOf(MapsRead(snapshot, offset));
    FieldsFirst([SnapshotKey, OffsetKey], [OffsetKey], d);
    FieldsFirst([OffsetKey], [], d);
    KeySpelled(SnapshotKey);
    KeySpelled(OffsetKey);
  }
}
