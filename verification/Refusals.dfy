/** Which error a control line is refused with (kpm/core/command.c). */
module Refusals {
  import opened Common
  import opened Numerals
  import opened Tokens
  import opened Commands

  // ---------------------------------------------------------------------------
  // Too many words
  // ---------------------------------------------------------------------------

  /** The line is `start`, or `start` with a space after it and then anything. */
  predicate Begins(line: string, start: string) {
    start <= line && (|start| == |line| || line[|start|] == ' ')
  }

  /** The line begins with `n` words, one space between neighbours. */
  ghost predicate BeginsWithWords(line: string, n: nat) {
    exists words :: |words| == n && Sentence(words, n) && Begins(line, Join(words))
  }

  lemma JoinFirst(words: seq<string>)
    requires |words| > 1
    ensures Join(words) == words[0] + " " + Join(words[1..])
  {
  }

  lemma TooBigFirst(line: string, room: nat)
    requires line != [] && Lex(line, room) == Failed(TooBig)
    ensures var i := IndexOf(line, ' ');
            && IsWord(line[..i])
            && (room > 0 ==> i < |line| && Lex(line[i + 1..], room - 1) == Failed(TooBig))
  {
    hide IndexOf;
    var i := IndexOf(line, ' ');
    if i == |line| {
      assert line[..i] == line;
    }
  }

  lemma {:induction false} TooBigBegins(line: string, room: nat) returns (words: seq<string>)
    requires line != [] && Lex(line, room) == Failed(TooBig)
    requires line[|line| - 1] != ' '
    ensures |words| == room + 1 && Sentence(words, room + 1) && Begins(line, Join(words))
    decreases room
  {
    hide IndexOf, Lex, IsWord;
    var i := IndexOf(line, ' ');
    var first := line[..i];
    TooBigFirst(line, room);
    if room == 0 {
      words := [first];
    } else {
      var rest := line[i + 1..];
      assert line == first + " " + rest;
      var others := TooBigBegins(rest, room - 1);
      words := [first] + others;
      assert words[1..] == others;
      JoinFirst(words);
      hide Join;
    }
  }

  lemma {:induction false} BeginsTooBig(line: string, room: nat, words: seq<string>)
    requires |words| == room + 1 && Sentence(words, room + 1) && Begins(line, Join(words))
    ensures Lex(line, room) == Failed(TooBig)
    decreases room
  {
    hide IndexOf, Lex;
    var first := words[0];
    assert IsWord(first);
    if room == 0 {
      assert line[..|first|] == first;
      if |line| == |first| {
        LexAtEnd(line, 0);
      } else {
        LexAtSpace(line, |first|, 0);
      }
    } else {
      var rest := Join(words[1..]);
      JoinFirst(words);
      hide Join;
      assert line[..|first|] == first && line[|first|] == ' ';
      BeginsTooBig(line[|first| + 1..], room - 1, words[1..]);
      LexAtSpace(line, |first|, room);
    }
  }

  /** A line without a space at its ends is refused as too big exactly when it begins with nine
      words, whatever comes after them. */
  lemma TooManyWords(line: string)
    requires line != [] && line[0] != ' ' && line[|line| - 1] != ' '
    ensures Tokenized(line) == Failed(TooBig) <==> BeginsWithWords(line, 9)
  {
    hide Lex;
    if Tokenized(line) == Failed(TooBig) {
      var words := TooBigBegins(line, 8);
    }
    if BeginsWithWords(line, 9) {
      var words :| |words| == 9 && Sentence(words, 9) && Begins(line, Join(words));
      BeginsTooBig(line, 8, words);
    }
  }

  lemma {:induction false} LexCodes(line: string, room: nat)
    ensures Lex(line, room).Failed? ==> Lex(line, room).code == Inval || Lex(line, room).code == TooBig
    decreases |line|
  {
    hide IndexOf;
    var i := IndexOf(line, ' ');
    if i < |line| && room > 0 {
      LexCodes(line[i + 1..], room - 1);
    }
  }

  // ---------------------------------------------------------------------------
  // Numbers out of range
  // ---------------------------------------------------------------------------

  /** The largest number a field may hold, none for a field that holds no number. */
  function Largest(k: Key): Option<nat> {
    match k
    case PidKey | IdKey | UidKey | OffsetKey => Some(0xffff_ffff)
    case StartKey | AfterKey | SnapshotKey | AddrKey => Some(0xffff_ffff_ffff_ffff)
    case LenKey => Some(255)
    case _ => None
  }

  /** The digits of a number field: all of it, or what follows 0x for an address. */
  function DigitsOf(k: Key, s: string): Option<string> {
    if k != AddrKey then if s == [] then None else Some(s)
    else if |s| > 2 && s[..2] == "0x" then Some(s[2..]) else None
  }

  function RadixOf(k: Key): Radix {
    if k == AddrKey then Hex else Decimal
  }

  /** A value is out of range exactly when it is a number too large for its field, or when its
      digits overflow 64 bits before anything else is wrong with them. */
  lemma OutOfRange(k: Key, s: string)
    ensures FieldValue(k, s) == Err(Range) <==>
            && Largest(k).Some? && DigitsOf(k, s).Some?
            && var digits, radix := DigitsOf(k, s).value, RadixOf(k);
            || OverflowsFirst(digits, radix)
            || (AllDigits(digits, radix) && Value(digits, radix) > Largest(k).value)
  {
    hide Value, AllDigits, OverflowsFirst;
    if DigitsOf(k, s).Some? {
      var digits, radix := DigitsOf(k, s).value, RadixOf(k);
      if AllDigits(digits, radix) && Value(digits, radix) > UINT64_MAX {
        WholeOverflows(digits, radix);
      }
      if OverflowsFirst(digits, radix) {
        OverflowIsNoNumber(digits, radix);
      }
    }
  }

  lemma WholeOverflows(s: string, radix: Radix)
    requires AllDigits(s, radix) && Value(s, radix) > UINT64_MAX
    ensures OverflowsFirst(s, radix)
  {
    assert s[..|s|] == s;
  }

  lemma OverflowIsNoNumber(s: string, radix: Radix)
    requires OverflowsFirst(s, radix)
    ensures AllDigits(s, radix) ==> Value(s, radix) > UINT64_MAX
  {
    var n :| 0 <= n <= |s| && AllDigits(s[..n], radix) && Value(s[..n], radix) > UINT64_MAX;
    Overflow(s, n, radix);
  }

  /** The first field that is not accepted decides how the list is refused. */
  lemma {:induction false} FirstFieldDecides(v: Verb, seen: Draft, words: seq<string>, code: Code)
    ensures AddFields(v, seen, words) == Err(code) <==>
            exists n :: 0 <= n < |words| && RefusedAt(v, seen, words, n, code)
    decreases |words|
  {
    hide AddField;
    if words != [] {
      var next := AddField(v, seen, words[0]);
      assert words[..0] == [];
      if next.Err? {
        assert RefusedAt(v, seen, words, 0, next.code);
        forall n | 0 < n < |words| ensures !AddFields(v, seen, words[..n]).Ok? {
          assert words[..n][0] == words[0];
        }
      } else {
        FirstFieldDecides(v, next.value, words[1..], code);
        forall n | 0 < n < |words|
          ensures RefusedAt(v, seen, words, n, code) <==> RefusedAt(v, next.value, words[1..], n - 1, code)
        {
          assert words[..n][0] == words[0] && words[..n][1..] == words[1..][..n - 1];
        }
        if n: nat :| n < |words[1..]| && RefusedAt(v, next.value, words[1..], n, code) {
          assert RefusedAt(v, seen, words, n + 1, code);
        }
      }
    }
  }

  /** The fields before word `n` are accepted, and word `n` is refused with this code. */
  predicate RefusedAt(v: Verb, seen: Draft, words: seq<string>, n: nat, code: Code)
    requires n < |words|
  {
    var d := AddFields(v, seen, words[..n]);
    d.Ok? && AddField(v, d.value, words[n]) == Err(code)
  }

  /** A word is refused as out of range exactly when it sets a key of its verb, not set before,
      to a number that is out of range; every other refusal of a word is as invalid. */
  lemma WordRefused(v: Verb, seen: Draft, word: string)
    ensures var r := AddField(v, seen, word);
            && (r.Err? ==> r.code == Range || r.code == Inval)
            && (r == Err(Range) <==>
                  && Split(word).Field? && KeyNamed(v, Split(word).key).Some?
                  && KeyNamed(v, Split(word).key).value !in seen
                  && FieldValue(KeyNamed(v, Split(word).key).value, Split(word).value) == Err(Range))
  {
    hide ParseDecimal, ParseHex, Split, KeyNamed;
  }

  /** Why a line is refused.  Too big: it is longer than 512 characters or begins with nine words.
      Out of range: its words, within their number, are a verb and fields the first bad one of
      which holds a number out of range.  Invalid: everything else that does not parse. */
  lemma RefusalCodes(line: string)
    ensures ParseLine(line) == Err(TooBig) <==>
            || |line| > 512
            || (line != [] && line[0] != ' ' && line[|line| - 1] != ' ' && BeginsWithWords(line, 9))
    ensures ParseLine(line) == Err(Range) <==>
            && 0 < |line| <= 512 && Tokenized(line).Words?
            && var words := Tokenized(line).words;
            && words != [] && VerbNamed(words[0]).Some?
            && var v := VerbNamed(words[0]).value;
            && FewestWords(v) <= |words| <= MostWords(v)
            && exists n :: 0 <= n < |words| - 1 && RefusedAt(v, map[], words[1..], n, Range)
    ensures ParseLine(line).Err? ==> ParseLine(line).code in {Inval, TooBig, Range}
  {
    hide BeginsWithWords, Lex, AddFields, RefusedAt, FewestWords, MostWords, VerbNamed, Build;
    if 0 < |line| <= 512 {
      LexCodes(line, 8);
      if line[0] != ' ' && line[|line| - 1] != ' ' {
        TooManyWords(line);
      }
      if Tokenized(line).Words? && Tokenized(line).words != [] {
        var words := Tokenized(line).words;
        if VerbNamed(words[0]).Some? {
          var v := VerbNamed(words[0]).value;
          FirstFieldDecides(v, map[], words[1..], Range);
          FirstFieldDecides(v, map[], words[1..], TooBig);
          FieldsNeverTooBig(v, words[1..]);
          var d := AddFields(v, map[], words[1..]);
          if d.Ok? {
            BuildCodes(v, d.value);
          }
        }
      }
    }
  }

  lemma BuildCodes(v: Verb, d: Draft)
    ensures Build(v, d).Err? ==> Build(v, d).code == Inval
  {
    hide BuildBind, BuildBreak, Breakpoints.ParserAccepts;
  }

  lemma {:induction false} FieldsNeverTooBig(v: Verb, words: seq<string>)
    ensures var r := AddFields(v, map[], words);
            r.Err? ==> r.code == Inval || r.code == Range
  {
    var r := AddFields(v, map[], words);
    hide AddFields, AddField;
    if r.Err? {
      FirstFieldDecides(v, map[], words, r.code);
      var n: nat :| n < |words| && RefusedAt(v, map[], words, n, r.code);
      WordRefused(v, AddFields(v, map[], words[..n]).value, words[n]);
    }
  }
}
