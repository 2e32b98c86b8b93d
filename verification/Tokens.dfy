/** Cutting a control line into words and a word into key and value
    (kpm/core/command.c). */
module Tokens {

  const MAX_TOKENS := 8

  datatype Code = Fine | Inval | TooBig | Range

  /** A token as the tokenizer records it: a stretch of the input buffer. */
  datatype Token = Token(start: nat, length: nat)

  datatype Lexed = Words(words: seq<string>) | Failed(code: Code)

  datatype Field = NoField | Field(key: string, value: string)

  predicate Printable(s: string) {
    forall i :: 0 <= i < |s| ==> ' ' <= s[i] <= '~'
  }

  predicate IsWord(w: string) {
    w != [] && Printable(w) && ' ' !in w
  }

  /** The words with one space between neighbours. */
  function Join(words: seq<string>): string {
    if words == [] then ""
    else if |words| == 1 then words[0]
    else words[0] + " " + Join(words[1..])
  }

  /** Where `c` first occurs, or the length. */
  function IndexOf(s: string, c: char): (i: nat)
    ensures i <= |s| && c !in s[..i]
    ensures i < |s| ==> s[i] == c
  {
    if s == [] || s[0] == c then 0
    else
      var i := 1 + IndexOf(s[1..], c);
      assert s[..i] == [s[0]] + s[1..][..i - 1];
      i
  }

  lemma {:induction false} IndexIs(s: string, c: char, i: nat)
    requires i <= |s| && c !in s[..i] && (i < |s| ==> s[i] == c)
    ensures IndexOf(s, c) == i
    decreases |s|
  {
    if i > 0 {
      assert s[0] == s[..i][0];
      assert s[1..][..i - 1] == s[..i][1..];
      IndexIs(s[1..], c, i - 1);
    }
  }

  lemma {:induction false} IndexPast(s: string, c: char, i: nat)
    requires i <= |s| && c !in s[..i]
    ensures IndexOf(s, c) >= i
    decreases |s|
  {
    if i > 0 {
      assert s[0] == s[..i][0];
      assert s[1..][..i - 1] == s[..i][1..];
      IndexPast(s[1..], c, i - 1);
    }
  }

  // ---------------------------------------------------------------------------
  // Words
  // ---------------------------------------------------------------------------

  /** The words of a line that has no space at its end, with room for `room` of them. */
  function Lex(line: string, room: nat): Lexed
    decreases |line|
  {
    var i := IndexOf(line, ' ');
    if !Printable(line[..i]) then Failed(Inval)
    else if i < |line| && i == 0 then Failed(Inval)
    else if room == 0 then Failed(TooBig)
    else if i == |line| then Words([line])
    else Prepend([line[..i]], Lex(line[i + 1..], room - 1))
  }

  function Prepend(words: seq<string>, rest: Lexed): Lexed {
    if rest.Words? then Words(words + rest.words) else rest
  }

  /** The words of any line that is not empty. */
  function Tokenized(line: string): Lexed
    requires line != []
  {
    if line[0] == ' ' || line[|line| - 1] == ' ' then Failed(Inval) else Lex(line, MAX_TOKENS)
  }

  predicate Sentence(words: seq<string>, room: nat) {
    0 < |words| <= room && forall i :: 0 <= i < |words| ==> IsWord(words[i])
  }

  /** A line that is cut into words is its first word, or its first word, a space and the rest. */
  lemma LexFirst(line: string, room: nat)
    requires Lex(line, room).Words?
    ensures var i := IndexOf(line, ' ');
            && room > 0 && Printable(line[..i])
            && (i == |line| ==> Lex(line, room).words == [line])
            && (i < |line| ==>
                  && i > 0 && Lex(line[i + 1..], room - 1).Words?
                  && Lex(line, room).words == [line[..i]] + Lex(line[i + 1..], room - 1).words)
  {
    hide IndexOf;
  }

  lemma {:induction false} LexSound(line: string, room: nat)
    requires line != [] && line[|line| - 1] != ' ' && Lex(line, room).Words?
    ensures Sentence(Lex(line, room).words, room) && Join(Lex(line, room).words) == line
    decreases |line|
  {
    hide IndexOf, Lex;
    var i := IndexOf(line, ' ');
    LexFirst(line, room);
    if i == |line| {
      assert line[..i] == line;
    } else {
      var rest := line[i + 1..];
      LexSound(rest, room - 1);
      var words := Lex(rest, room - 1).words;
      assert ([line[..i]] + words)[1..] == words;
      assert line == line[..i] + " " + rest;
    }
  }

  lemma {:induction false} LexComplete(words: seq<string>, room: nat)
    requires Sentence(words, room)
    ensures Lex(Join(words), room) == Words(words)
    ensures Join(words) != [] && Join(words)[0] != ' ' && Join(words)[|Join(words)| - 1] != ' '
    decreases |words|
  {
    hide Lex, IndexOf;
    var line, first := Join(words), words[0];
    assert IsWord(first);
    if |words| == 1 {
      LexAtEnd(first, room);
    } else {
      var rest := Join(words[1..]);
      LexComplete(words[1..], room - 1);
      hide Join;
      assert line[..|first|] == first && line[|first|] == ' ' && line[|first| + 1..] == rest;
      LexAtSpace(line, |first|, room);
      assert [first] + words[1..] == words;
    }
  }

  /** A line is accepted exactly when it is one to eight words with single spaces between
      them, and then it is cut into those words. */
  lemma TokenizedIff(line: string, words: seq<string>)
    requires line != []
    ensures Tokenized(line) == Words(words) <==> Sentence(words, MAX_TOKENS) && Join(words) == line
  {
    if Tokenized(line) == Words(words) {
      LexSound(line, MAX_TOKENS);
    }
    if Sentence(words, MAX_TOKENS) && Join(words) == line {
      LexComplete(words, MAX_TOKENS);
    }
  }

  /** The recorded token is this word of the line, and a space ends it. */
  predicate Marks(token: Token, word: string, line: string, end: nat) {
    && token.start + token.length < end <= |line|
    && line[token.start..token.start + token.length] == word
    && line[token.start + token.length] == ' '
    && ' ' !in word
  }

  /** After tokenizing, the token reads as the word, and a zero byte ends it inside the line. */
  predicate Reads(token: Token, word: string, buffer: string) {
    && token.start + token.length <= |buffer|
    && buffer[token.start..token.start + token.length] == word
    && (token.start + token.length < |buffer| ==> buffer[token.start + token.length] == '\0')
  }

  /** The line with the separators before `end` overwritten. */
  predicate Overwritten(buffer: string, line: string, end: nat) {
    && |buffer| == |line|
    && forall i :: 0 <= i < |line| ==> buffer[i] == if i < end && line[i] == ' ' then '\0' else line[i]
  }

  lemma MarksReads(token: Token, word: string, line: string, buffer: string, end: nat)
    requires Marks(token, word, line, end) && Overwritten(buffer, line, end)
    ensures Reads(token, word, buffer)
  {
    forall i | 0 <= i < token.length ensures buffer[token.start + i] == word[i] {
      assert word[i] == line[token.start + i];
    }
  }

  /** Recorded tokens stay marked as the scan goes on, and the word it has just passed is. */
  lemma MarkNext(tokens: seq<Token>, words: seq<string>, line: string, start: nat, index: nat)
    requires |tokens| == |words| + 1 && start <= index < |line| && line[index] == ' ' && ' ' !in line[start..index]
    requires tokens[|words|] == Token(start, index - start)
    requires forall k :: 0 <= k < |words| ==> Marks(tokens[k], words[k], line, start)
    ensures forall k :: 0 <= k <= |words| ==> Marks(tokens[k], (words + [line[start..index]])[k], line, index + 1)
  {
  }

  lemma LexBadByte(s: string, i: nat, room: nat)
    requires i < |s| && ' ' !in s[..i] && s[i] != ' ' && !(' ' <= s[i] <= '~')
    ensures Lex(s, room) == Failed(Inval)
  {
    assert s[..i + 1] == s[..i] + [s[i]];
    IndexPast(s, ' ', i + 1);
    assert s[..IndexOf(s, ' ')][i] == s[i];
  }

  lemma LexAtSpace(s: string, i: nat, room: nat)
    requires i < |s| && ' ' !in s[..i] && Printable(s[..i]) && s[i] == ' '
    ensures i == 0 ==> Lex(s, room) == Failed(Inval)
    ensures i > 0 && room == 0 ==> Lex(s, room) == Failed(TooBig)
    ensures i > 0 && room > 0 ==> Lex(s, room) == Prepend([s[..i]], Lex(s[i + 1..], room - 1))
  {
    IndexIs(s, ' ', i);
  }

  lemma LexAtEnd(s: string, room: nat)
    requires ' ' !in s && Printable(s)
    ensures Lex(s, room) == if room == 0 then Failed(TooBig) else Words([s])
  {
    assert s[..|s|] == s;
    IndexIs(s, ' ', |s|);
  }

  lemma PrependTwice(a: seq<string>, b: seq<string>, rest: Lexed)
    ensures Prepend(a, Prepend(b, rest)) == Prepend(a + b, rest)
  {
    if rest.Words? {
      assert a + (b + rest.words) == (a + b) + rest.words;
    }
  }

  /** spz_tokenize: records the words and overwrites the spaces after them in place. */
  method Tokenize(input: array<char>) returns (code: Code, tokens: seq<Token>)
    requires input.Length > 0
    modifies input
    ensures code != Fine ==> Tokenized(old(input[..])) == Failed(code)
    ensures code == Fine ==>
              && Tokenized(old(input[..])).Words?
              && var words := Tokenized(old(input[..])).words;
              && |tokens| == |words|
              && forall k :: 0 <= k < |words| ==> Reads(tokens[k], words[k], input[..])
  {
    hide Lex, IndexOf, Join, Sentence, IsWord, Marks;
    ghost var line := input[..];
    tokens := [];
    if input[0] == ' ' || input[input.Length - 1] == ' ' {
      return Inval, tokens;
    }
    var start := 0;
    ghost var words: seq<string> := [];
    assert line[0..] == line;
    for index := 0 to input.Length
      invariant start <= index && |tokens| == |words| <= MAX_TOKENS
      invariant Overwritten(input[..], line, start)
      invariant ' ' !in line[start..index] && Printable(line[start..index])
      invariant Tokenized(line) == Prepend(words, Lex(line[start..], MAX_TOKENS - |words|))
      invariant forall k :: 0 <= k < |words| ==> Marks(tokens[k], words[k], line, start)
    {
      ghost var rest, i := line[start..], index - start;
      assert rest[..i] == line[start..index];
      assert input[..][index] == line[index];
      var byte := input[index];
      if byte < ' ' || byte > '~' {
        LexBadByte(rest, i, MAX_TOKENS - |words|);
        return Inval, tokens;
      }
      if byte != ' ' {
        assert line[start..index + 1] == line[start..index] + [line[index]];
        continue;
      }
      LexAtSpace(rest, i, MAX_TOKENS - |words|);
      if index == start {
        return Inval, tokens;
      }
      if |tokens| >= MAX_TOKENS {
        return TooBig, tokens;
      }
      tokens := tokens + [Token(start, index - start)];
      input[index] := '\0';
      start := index + 1;
      assert rest[i + 1..] == line[start..];
      PrependTwice(words, [rest[..i]], Lex(line[start..], MAX_TOKENS - |words| - 1));
      MarkNext(tokens, words, line, index - i, index);
      words := words + [rest[..i]];
    }
    assert line[start..] == line[start..input.Length];
    LexAtEnd(line[start..], MAX_TOKENS - |words|);
    if |tokens| >= MAX_TOKENS {
      return TooBig, tokens;
    }
    forall k | 0 <= k < |words| ensures Reads(tokens[k], words[k], input[..]) {
      MarksReads(tokens[k], words[k], line, input[..], start);
    }
    assert input[start..] == line[start..];
    tokens := tokens + [Token(start, input.Length - start)];
    code := Fine;
  }

  // ---------------------------------------------------------------------------
  // Keys and values
  // ---------------------------------------------------------------------------

  predicate IsField(token: string, key: string, value: string) {
    token == key + "=" + value && key != [] && value != [] && '=' !in key && '=' !in value
  }

  function Split(token: string): Field {
    var i := IndexOf(token, '=');
    if i == 0 || i + 1 >= |token| || '=' in token[i + 1..] then NoField
    else Field(token[..i], token[i + 1..])
  }

  /** A word is split exactly when it has one equals sign with something on both sides. */
  lemma SplitIff(token: string, key: string, value: string)
    ensures Split(token) == Field(key, value) <==> IsField(token, key, value)
  {
    if IsField(token, key, value) {
      assert token[..|key|] == key;
      IndexIs(token, '=', |key|);
      assert token[|key| + 1..] == value;
    }
    if Split(token) == Field(key, value) {
      assert token == key + "=" + value;
    }
  }

  /** spz_split_key_value. */
  method SplitKeyValue(token: string) returns (field: Field)
    ensures field == Split(token)
  {
    var separator: nat := |token|;
    for index := 0 to |token|
      invariant separator == |token| ==> '=' !in token[..index]
      invariant separator < |token| ==> separator < index && token[separator] == '='
      invariant separator < |token| ==> '=' !in token[..separator] && '=' !in token[separator + 1..index]
      invariant separator <= |token|
    {
      if token[index] != '=' {
        continue;
      }
      if separator != |token| {
        IndexIs(token, '=', separator);
        assert token[separator + 1..][index - separator - 1] == '=';
        return NoField;
      }
      separator := index;
    }
    assert token[..|token|] == token;
    IndexIs(token, '=', separator);
    if separator == 0 || separator + 1 >= |token| {
      return NoField;
    }
    assert token[separator + 1..] == token[separator + 1..|token|];
    field := Field(token[..separator], token[separator + 1..]);
  }
}
