/** The bounded tokenizer for stored SQLite DDL. */
module SqlTokens {
  import opened Wrappers
  import opened SqlText

  datatype Token = Token(text: string, start: nat, end: nat, depth: int, quoted: bool)

  // ---------------------------------------------------------------------------
  // What a token list says about the text
  // ---------------------------------------------------------------------------

  /** The span, its text and its depth. */
  ghost predicate Faithful(lex: Lexicon, sql: string, t: Token)
  {
    && t.start < t.end <= |sql|
    && ModeAt(sql, t.start) == Code && (ModeAt(sql, t.end) == Code)
    && t.depth == (if !t.quoted && t.text == ")" then Depth(sql, t.start) - 1 else Depth(sql, t.start))
    && 0 <= t.depth <= 64
    && (if t.quoted then IsQuotation(sql, t) else IsPlain(lex, sql, t))
    && forall i: nat :: t.start <= i < t.end ==> Visible(lex, sql, i)
  }

  /** The text between the quotes is the content with its closing quote doubled. */
  ghost predicate IsQuotation(sql: string, t: Token)
    requires t.start < t.end <= |sql|
  {
    && t.end - t.start >= 2 && sql[t.start] in "'\"`[" && sql[t.end - 1] == Closing(sql[t.start])
    && sql[t.start + 1..t.end - 1] == Escaped(t.text, Closing(sql[t.start]))
    && NoCodeWithin(sql, t.start, t.end)
  }

  ghost predicate NoCodeWithin(sql: string, start: nat, end: nat)
    requires end <= |sql|
  {
    forall i: nat :: start < i < end ==> !ModeAt(sql, i).Code?
  }

  function Escaped(s: string, q: char): string
  {
    if q == ']' then s else Doubled(s, q)
  }

  /** A whole word, or one character that is not part of a word. */
  ghost predicate IsPlain(lex: Lexicon, sql: string, t: Token)
    requires t.start < t.end <= |sql|
  {
    && t.text == sql[t.start..t.end]
    && if WordLike(lex, sql[t.start])
       then (forall i :: t.start <= i < t.end ==> WordLike(lex, sql[i])) && (t.end < |sql| ==> !WordLike(lex, sql[t.end]))
       else t.end == t.start + 1
  }

  ghost predicate WordLike(lex: Lexicon, c: char)
  {
    c in "_$" || lex.isAlnum(c)
  }

  ghost predicate InOrder(tokens: seq<Token>)
  {
    forall i, j :: 0 <= i < j < |tokens| ==> tokens[i].end <= tokens[j].start
  }

  ghost predicate Inside(tokens: seq<Token>, i: nat)
  {
    exists k :: 0 <= k < |tokens| && tokens[k].start <= i < tokens[k].end
  }

  /** All that is visible before `n` is inside a token, and all tokens end there. */
  ghost predicate Covers(lex: Lexicon, sql: string, tokens: seq<Token>, n: nat)
    requires n <= |sql|
  {
    && (forall i: nat :: i < n && Visible(lex, sql, i) ==> Inside(tokens, i))
    && (forall k :: 0 <= k < |tokens| ==> tokens[k].end <= n)
  }

  ghost predicate TokensOf(lex: Lexicon, sql: string, tokens: seq<Token>, n: nat)
    requires n <= |sql|
  {
    && (forall k :: 0 <= k < |tokens| ==> Faithful(lex, sql, tokens[k]))
    && InOrder(tokens) && Covers(lex, sql, tokens, n)
  }

  // ---------------------------------------------------------------------------
  // The tokenizer
  // ---------------------------------------------------------------------------

  /** `str.find` of a newline and of the end of a block comment. */
  method FindNewline(sql: string, from: nat) returns (end: Option<nat>)
    requires from <= |sql|
    ensures end.Some? ==> from <= end.value < |sql| && sql[end.value] == '\n' && forall i :: from <= i < end.value ==> sql[i] != '\n'
    ensures end.None? ==> forall i :: from <= i < |sql| ==> sql[i] != '\n'
  {
    for i := from to |sql|
      invariant forall k :: from <= k < i ==> sql[k] != '\n'
    {
      if sql[i] == '\n' {
        return Some(i);
      }
    }
    end := None;
  }

  method FindBlockEnd(sql: string, from: nat) returns (end: Option<nat>)
    requires from <= |sql|
    ensures end.Some? ==> from <= end.value && PairAt(sql, end.value, '*', '/') && forall i :: from <= i < end.value ==> !PairAt(sql, i, '*', '/')
    ensures end.None? ==> forall i :: from <= i < |sql| ==> !PairAt(sql, i, '*', '/')
  {
    for i := from to |sql|
      invariant forall k :: from <= k < i ==> !PairAt(sql, k, '*', '/')
    {
      if PairAt(sql, i, '*', '/') {
        return Some(i);
      }
    }
    end := None;
  }

  /** After a comment the text goes on in code, or ends inside the line. */
  method SkipLine(lex: Lexicon, sql: string, offset: nat) returns (next: nat)
    requires offset < |sql| && ModeAt(sql, offset) == Code && PairAt(sql, offset, '-', '-')
    ensures offset < next <= |sql| && Depth(sql, next) == Depth(sql, offset)
    ensures ModeAt(sql, next) == Code || (next == |sql| && ModeAt(sql, next) == Line)
    ensures forall i: nat :: offset <= i < next ==> !Visible(lex, sql, i)
    ensures forall i: nat :: offset <= i < next ==> Depth(sql, i) == Depth(sql, offset)
  {
    StepAt(sql, offset);
    StepAt(sql, offset + 1);
    var end := FindNewline(sql, offset + 2);
    next := if end.None? then |sql| else end.value + 1;
    ghost var stop := if end.None? then |sql| else end.value;
    forall i | offset + 2 <= i <= stop
      ensures ModeAt(sql, i) == Line && Depth(sql, i) == Depth(sql, offset)
    {
      LineStretch(sql, offset + 2, i);
    }
    if end.Some? {
      StepAt(sql, stop);
    }
  }

  method SkipBlock(lex: Lexicon, sql: string, offset: nat) returns (next: Option<nat>)
    requires offset < |sql| && ModeAt(sql, offset) == Code && PairAt(sql, offset, '/', '*')
    ensures next.None? ==> ModeAt(sql, |sql|) == Block
    ensures next.Some? ==> offset < next.value <= |sql| && Depth(sql, next.value) == Depth(sql, offset) && ModeAt(sql, next.value) == Code
    ensures next.Some? ==> forall i: nat :: offset <= i < next.value ==> !Visible(lex, sql, i) && Depth(sql, i) == Depth(sql, offset)
  {
    StepAt(sql, offset);
    StepAt(sql, offset + 1);
    var end := FindBlockEnd(sql, offset + 2);
    if end.None? {
      BlockStretch(sql, offset + 2, |sql|);
      return None;
    }
    forall i | offset + 2 <= i <= end.value
      ensures ModeAt(sql, i) == Block && Depth(sql, i) == Depth(sql, offset)
    {
      BlockStretch(sql, offset + 2, i);
    }
    StepAt(sql, end.value);
    StepAt(sql, end.value + 1);
    next := Some(end.value + 2);
  }

  /** Inside a quotation that began at `start`, with `content` read so far. */
  ghost predicate Reading(lex: Lexicon, sql: string, start: nat, offset: nat, content: string)
    requires start < offset <= |sql|
  {
    && ModeAt(sql, offset) == Quoted(Closing(sql[start]))
    && sql[start + 1..offset] == Escaped(content, Closing(sql[start]))
    && (forall i: nat :: start <= i <= offset ==> Depth(sql, i) == Depth(sql, start))
    && (forall i: nat :: start <= i < offset ==> Visible(lex, sql, i))
    && NoCodeWithin(sql, start, offset)
  }

  lemma {:induction false} EscapedNext(s: string, q: char, c: char)
    requires c != q || q != ']'
    ensures Escaped(s + [c], q) == Escaped(s, q) + if c == q then [q, q] else [c]
  {
    assert (s + [c])[..|s|] == s;
  }

  lemma {:induction false} QuoteOpens(lex: Lexicon, sql: string, start: nat)
    requires Sound(lex) && start < |sql| && ModeAt(sql, start) == Code && OpensQuote(sql[start])
    ensures Reading(lex, sql, start, start + 1, "")
  {
    StepAt(sql, start);
  }

  lemma {:induction false} CharacterRead(lex: Lexicon, sql: string, start: nat, offset: nat, content: string)
    requires start < offset < |sql| && Reading(lex, sql, start, offset, content) && sql[offset] != Closing(sql[start])
    ensures Reading(lex, sql, start, offset + 1, content + [sql[offset]])
  {
    StepAt(sql, offset);
    EscapedNext(content, Closing(sql[start]), sql[offset]);
    assert sql[start + 1..offset + 1] == sql[start + 1..offset] + [sql[offset]];
  }

  lemma {:induction false} DoubledQuoteRead(lex: Lexicon, sql: string, start: nat, offset: nat, content: string)
    requires start < offset < |sql| && Reading(lex, sql, start, offset, content) && Closing(sql[start]) != ']'
    requires PairAt(sql, offset, Closing(sql[start]), Closing(sql[start]))
    ensures Reading(lex, sql, start, offset + 2, content + [Closing(sql[start])])
  {
    var q := Closing(sql[start]);
    StepAt(sql, offset);
    StepAt(sql, offset + 1);
    EscapedNext(content, q, q);
    assert sql[start + 1..offset + 2] == sql[start + 1..offset] + [q, q];
  }

  lemma {:induction false} QuoteCloses(lex: Lexicon, sql: string, start: nat, offset: nat, content: string)
    requires start < offset < |sql| && Reading(lex, sql, start, offset, content) && sql[offset] == Closing(sql[start])
    requires Closing(sql[start]) == ']' || !PairAt(sql, offset, Closing(sql[start]), Closing(sql[start]))
    ensures ModeAt(sql, offset + 1) == Code && Depth(sql, offset + 1) == Depth(sql, start) && Visible(lex, sql, offset)
  {
    StepAt(sql, offset);
  }

  /** Reads a quotation; the content is collected with doubled quotes halved. */
  method ReadQuoted(lex: Lexicon, sql: string, start: nat) returns (r: Option<(string, nat)>)
    requires Sound(lex) && start < |sql| && ModeAt(sql, start) == Code && OpensQuote(sql[start])
    ensures r.None? ==> ModeAt(sql, |sql|).Quoted?
    ensures r.Some? ==> start + 2 <= r.value.1 <= |sql| && ModeAt(sql, r.value.1) == Code
    ensures r.Some? ==> sql[r.value.1 - 1] == Closing(sql[start]) && sql[start + 1..r.value.1 - 1] == Escaped(r.value.0, Closing(sql[start]))
    ensures r.Some? ==> forall i: nat :: start <= i <= r.value.1 ==> Depth(sql, i) == Depth(sql, start)
    ensures r.Some? ==> forall i: nat :: start <= i < r.value.1 ==> Visible(lex, sql, i)
    ensures r.Some? ==> NoCodeWithin(sql, start, r.value.1)
  {
    var closing := Closing(sql[start]);
    var content: string := "";
    var offset := start + 1;
    QuoteOpens(lex, sql, start);
    while offset < |sql|
      invariant start < offset <= |sql| && Reading(lex, sql, start, offset, content)
    {
      if sql[offset] == closing {
        if closing != ']' && PairAt(sql, offset, closing, closing) {
          DoubledQuoteRead(lex, sql, start, offset, content);
          content := content + [closing];
          offset := offset + 2;
          continue;
        }
        QuoteCloses(lex, sql, start, offset, content);
        return Some((content, offset + 1));
      }
      CharacterRead(lex, sql, start, offset, content);
      content := content + [sql[offset]];
      offset := offset + 1;
    }
    r := None;
  }

  method ReadWord(lex: Lexicon, sql: string, start: nat) returns (end: nat)
    requires Sound(lex) && start < |sql| && ModeAt(sql, start) == Code && Word(lex, sql[start])
    ensures start < end <= |sql| && ModeAt(sql, end) == Code
    ensures forall i :: start <= i < end ==> Word(lex, sql[i])
    ensures end < |sql| ==> !Word(lex, sql[end])
    ensures forall i: nat :: start <= i <= end ==> Depth(sql, i) == Depth(sql, start)
    ensures forall i: nat :: start <= i < end ==> Visible(lex, sql, i)
  {
    end := start + 1;
    WordStep(lex, sql, start);
    while end < |sql| && Word(lex, sql[end])
      invariant start < end <= |sql| && ModeAt(sql, end) == Code
      invariant forall i :: start <= i < end ==> Word(lex, sql[i])
      invariant forall i: nat :: start <= i <= end ==> Depth(sql, i) == Depth(sql, start)
      invariant forall i: nat :: start <= i < end ==> Visible(lex, sql, i)
    {
      WordStep(lex, sql, end);
      end := end + 1;
    }
  }

  lemma {:induction false} WordStep(lex: Lexicon, sql: string, i: nat)
    requires Sound(lex) && i < |sql| && ModeAt(sql, i) == Code && Word(lex, sql[i])
    ensures ModeAt(sql, i + 1) == Code && Depth(sql, i + 1) == Depth(sql, i) && Visible(lex, sql, i)
  {
    StepAt(sql, i);
    assert sql[i] == '_' || sql[i] == '$' || lex.isAlnum(sql[i]);
    assert !OpensQuote(sql[i]) && sql[i] != '-' && sql[i] != '/' && sql[i] != '(' && sql[i] != ')' && !lex.isSpace(sql[i]);
  }

  lemma {:induction false} SpaceStep(lex: Lexicon, sql: string, i: nat)
    requires Sound(lex) && i < |sql| && ModeAt(sql, i) == Code && lex.isSpace(sql[i])
    ensures ModeAt(sql, i + 1) == Code && Depth(sql, i + 1) == Depth(sql, i) && !Visible(lex, sql, i)
  {
    StepAt(sql, i);
    assert !Special(sql[i]);
  }

  lemma {:induction false} MarkStep(lex: Lexicon, sql: string, i: nat)
    requires i < |sql| && ModeAt(sql, i) == Code && !lex.isSpace(sql[i]) && !StartsComment(sql, i) && !OpensQuote(sql[i])
    ensures ModeAt(sql, i + 1) == Code && Visible(lex, sql, i)
    ensures Depth(sql, i + 1) == Depth(sql, i) + if sql[i] == '(' then 1 else if sql[i] == ')' then -1 else 0
  {
    StepAt(sql, i);
  }

  lemma {:induction false} NothingAdded(lex: Lexicon, sql: string, tokens: seq<Token>, n: nat, next: nat)
    requires n <= next <= |sql| && TokensOf(lex, sql, tokens, n)
    requires forall i: nat :: n <= i < next ==> !Visible(lex, sql, i)
    ensures TokensOf(lex, sql, tokens, next)
  {
  }

  lemma {:induction false} TokenAdded(lex: Lexicon, sql: string, tokens: seq<Token>, t: Token)
    requires t.start <= |sql| && TokensOf(lex, sql, tokens, t.start) && Faithful(lex, sql, t)
    ensures TokensOf(lex, sql, tokens + [t], t.end)
  {
    var more := tokens + [t];
    forall i: nat | i < t.end && Visible(lex, sql, i)
      ensures Inside(more, i)
    {
      if i < t.start {
        assert Inside(tokens, i);
        var k :| 0 <= k < |tokens| && tokens[k].start <= i < tokens[k].end;
        assert more[k].start <= i < more[k].end;
      } else {
        assert more[|tokens|].start <= i < more[|tokens|].end;
      }
    }
  }

  /** What is known at the head of the scanning loop. */
  ghost predicate Scanned(lex: Lexicon, sql: string, tokens: seq<Token>, offset: nat, depth: int)
    requires offset <= |sql|
  {
    && TokensOf(lex, sql, tokens, offset)
    && (ModeAt(sql, offset).Code? || (offset == |sql| && ModeAt(sql, offset).Line?))
    && depth == Depth(sql, offset)
    && (forall i: nat :: i <= offset ==> DepthInRange(sql, i))
  }

  lemma {:induction false} SameDepthInRange(sql: string, n: nat, next: nat)
    requires n <= next <= |sql| && (forall i: nat :: i <= n ==> DepthInRange(sql, i))
    requires forall i: nat :: n <= i <= next ==> Depth(sql, i) == Depth(sql, n)
    ensures forall i: nat :: i <= next ==> DepthInRange(sql, i)
  {
    assert DepthInRange(sql, n);
    forall i: nat | i <= next
      ensures DepthInRange(sql, i)
    {
      if i > n {
        assert Depth(sql, i) == Depth(sql, n);
      }
    }
  }

  /** One token at a visible character; `None` when the text cannot be supported. */
  method ReadToken(lex: Lexicon, sql: string, tokens0: seq<Token>, start: nat, depth0: int)
    returns (r: Option<(seq<Token>, nat, int)>)
    requires Sound(lex) && start < |sql| && Scanned(lex, sql, tokens0, start, depth0)
    requires !lex.isSpace(sql[start]) && !StartsComment(sql, start)
    ensures r.Some? ==> start < r.value.1 <= |sql| && Scanned(lex, sql, r.value.0, r.value.1, r.value.2)
    ensures r.None? ==> !Lexable(sql)
  {
    var character := sql[start];
    if OpensQuote(character) {
      var quoted := ReadQuoted(lex, sql, start);
      if quoted.None? {
        return None;
      }
      var t := Token(quoted.value.0, start, quoted.value.1, depth0, true);
      assert DepthInRange(sql, start);
      TokenAdded(lex, sql, tokens0, t);
      SameDepthInRange(sql, start, t.end);
      return Some((tokens0 + [t], t.end, depth0));
    }
    if Word(lex, character) {
      var end := ReadWord(lex, sql, start);
      var t := Token(sql[start..end], start, end, depth0, false);
      assert DepthInRange(sql, start);
      NotAParenthesis(lex, sql, start, end);
      TokenAdded(lex, sql, tokens0, t);
      SameDepthInRange(sql, start, end);
      return Some((tokens0 + [t], end, depth0));
    }
    MarkStep(lex, sql, start);
    r := ReadMark(lex, sql, tokens0, start, depth0);
  }

  lemma {:induction false} NotAParenthesis(lex: Lexicon, sql: string, start: nat, end: nat)
    requires Sound(lex) && start < end <= |sql| && Word(lex, sql[start])
    ensures sql[start..end] != ")"
  {
    assert sql[start..end][0] == sql[start];
    assert sql[start] == '_' || sql[start] == '$' || lex.isAlnum(sql[start]);
  }

  method ReadMark(lex: Lexicon, sql: string, tokens0: seq<Token>, start: nat, depth0: int)
    returns (r: Option<(seq<Token>, nat, int)>)
    requires start < |sql| && Scanned(lex, sql, tokens0, start, depth0)
    requires !Word(lex, sql[start]) && Visible(lex, sql, start) && ModeAt(sql, start) == Code && ModeAt(sql, start + 1) == Code
    requires Depth(sql, start + 1) == Depth(sql, start) + if sql[start] == '(' then 1 else if sql[start] == ')' then -1 else 0
    ensures r.Some? ==> r.value.1 == start + 1 && Scanned(lex, sql, r.value.0, start + 1, r.value.2)
    ensures r.None? ==> !Lexable(sql)
  {
    var depth := depth0;
    if sql[start] == ')' {
      depth := depth - 1;
      if depth < 0 {
        assert !DepthInRange(sql, start + 1);
        return None;
      }
    }
    var t := Token([sql[start]], start, start + 1, depth, false);
    if sql[start] == '(' {
      depth := depth + 1;
      if depth > MAX_DEPTH {
        assert !DepthInRange(sql, start + 1);
        return None;
      }
    }
    assert sql[start..start + 1] == [sql[start]];
    assert DepthInRange(sql, start);
    TokenAdded(lex, sql, tokens0, t);
    r := Some((tokens0 + [t], start + 1, depth));
  }

  method Tokenize(lex: Lexicon, sql: string) returns (r: Option<seq<Token>>)
    requires Sound(lex)
    ensures r.Some? <==> Lexable(sql)
    ensures r.Some? ==> TokensOf(lex, sql, r.value, |sql|)
  {
    var tokens: seq<Token> := [];
    var offset, depth := 0, 0;
    while offset < |sql|
      invariant offset <= |sql| && Scanned(lex, sql, tokens, offset, depth)
      decreases |sql| - offset
    {
      if lex.isSpace(sql[offset]) {
        SpaceStep(lex, sql, offset);
        NothingAdded(lex, sql, tokens, offset, offset + 1);
        SameDepthInRange(sql, offset, offset + 1);
        offset := offset + 1;
      } else if PairAt(sql, offset, '-', '-') {
        var next := SkipLine(lex, sql, offset);
        NothingAdded(lex, sql, tokens, offset, next);
        SameDepthInRange(sql, offset, next);
        offset := next;
      } else if PairAt(sql, offset, '/', '*') {
        var next := SkipBlock(lex, sql, offset);
        if next.None? {
          return None;
        }
        NothingAdded(lex, sql, tokens, offset, next.value);
        SameDepthInRange(sql, offset, next.value);
        offset := next.value;
      } else {
        var read := ReadToken(lex, sql, tokens, offset, depth);
        if read.None? {
          return None;
        }
        tokens, offset, depth := read.value.0, read.value.1, read.value.2;
      }
    }
    r := if depth == 0 then Some(tokens) else None;
  }
}
