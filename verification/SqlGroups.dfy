/** Bracket groups and index definitions over the tokens of a text. */
module SqlGroups {
  import opened Wrappers
  import opened SqlText
  import opened SqlTokens

  // ---------------------------------------------------------------------------
  // Tokens and the characters they stand for
  // ---------------------------------------------------------------------------

  /** A character of code that is a token of its own. */
  ghost predicate Mark(sql: string, p: nat, c: char)
  {
    p < |sql| && ModeAt(sql, p) == Code && sql[p] == c
  }

  predicate IsMark(t: Token, c: char)
  {
    !t.quoted && t.text == [c]
  }

  predicate Bracket(c: char)
  {
    c == '(' || c == ')' || c == ','
  }

  lemma {:induction false} MarkTokenIsMark(lex: Lexicon, sql: string, t: Token, c: char)
    requires Sound(lex) && Faithful(lex, sql, t) && IsMark(t, c) && Bracket(c)
    ensures Mark(sql, t.start, c) && t.end == t.start + 1
  {
    assert t.text[0] == sql[t.start];
    assert !Word(lex, c);
  }

  /** Every bracket or comma of the code is a token. */
  lemma {:induction false} MarkHasToken(lex: Lexicon, sql: string, tokens: seq<Token>, p: nat, c: char) returns (k: nat)
    requires Sound(lex) && TokensOf(lex, sql, tokens, |sql|) && Mark(sql, p, c) && Bracket(c)
    ensures k < |tokens| && tokens[k].start == p && IsMark(tokens[k], c)
  {
    assert Special(c) && Visible(lex, sql, p);
    assert Inside(tokens, p);
    k :| 0 <= k < |tokens| && tokens[k].start <= p < tokens[k].end;
    MarkIsToken(lex, sql, tokens[k], p, c);
  }

  /** A token that covers a mark consists of it. */
  lemma {:induction false} MarkIsToken(lex: Lexicon, sql: string, t: Token, p: nat, c: char)
    requires Sound(lex) && Faithful(lex, sql, t) && t.start <= p < t.end && Mark(sql, p, c) && Bracket(c)
    ensures t.start == p && IsMark(t, c)
  {
    assert !Word(lex, c);
    assert !t.quoted;
    assert sql[p..p + 1] == [c];
  }

  lemma {:induction false} TokenOrder(lex: Lexicon, sql: string, tokens: seq<Token>, i: nat, j: nat)
    requires TokensOf(lex, sql, tokens, |sql|) && i < |tokens| && j < |tokens|
    ensures tokens[i].start < tokens[j].start <==> i < j
  {
    assert Faithful(lex, sql, tokens[i]) && Faithful(lex, sql, tokens[j]);
  }

  // ---------------------------------------------------------------------------
  // The matching parenthesis
  // ---------------------------------------------------------------------------

  /** `close` is where the group opened at `open` ends: the depth stays above that of the
      opening parenthesis until there. */
  ghost predicate Matching(sql: string, open: nat, close: nat)
  {
    && Mark(sql, open, '(') && Mark(sql, close, ')') && open < close
    && Depth(sql, close + 1) == Depth(sql, open)
    && forall j: nat :: open < j <= close ==> Depth(sql, j) > Depth(sql, open)
  }

  lemma {:induction false} MatchingIsFirst(sql: string, open: nat, a: nat, b: nat)
    requires Matching(sql, open, a) && b < |sql| && forall j: nat :: open < j <= b ==> Depth(sql, j) > Depth(sql, open)
    ensures b <= a
  {
  }

  lemma {:induction false} MatchingIsUnique(sql: string, open: nat, a: nat, b: nat)
    requires Matching(sql, open, a) && Matching(sql, open, b)
    ensures a == b
  {
    MatchingIsFirst(sql, open, a, b);
    MatchingIsFirst(sql, open, b, a);
  }

  lemma {:induction false} FirstReturn(sql: string, open: nat, from: nat) returns (close: nat)
    requires open < from <= |sql| && Depth(sql, open) >= 0 && Depth(sql, |sql|) == 0
    requires forall j: nat :: open < j <= from ==> Depth(sql, j) > Depth(sql, open)
    ensures from <= close < |sql| && Depth(sql, close + 1) <= Depth(sql, open)
    ensures forall j: nat :: open < j <= close ==> Depth(sql, j) > Depth(sql, open)
    decreases |sql| - from
  {
    if Depth(sql, from + 1) <= Depth(sql, open) {
      close := from;
    } else {
      close := FirstReturn(sql, open, from + 1);
    }
  }

  /** In a balanced text every opening parenthesis of the code has its partner. */
  lemma {:induction false} MatchingExists(sql: string, open: nat) returns (close: nat)
    requires Lexable(sql) && Mark(sql, open, '(')
    ensures Matching(sql, open, close)
  {
    assert DepthInRange(sql, open);
    StepAt(sql, open);
    close := FirstReturn(sql, open, open + 1);
    StepAt(sql, close);
  }

  /** The first closing parenthesis of the same depth. */
  method GroupEnd(tokens: seq<Token>, start: nat) returns (end: Option<nat>)
    ensures end.Some? ==> start < end.value < |tokens| && IsMark(tokens[start], '(')
    ensures end.Some? ==> IsMark(tokens[end.value], ')') && tokens[end.value].depth == tokens[start].depth
    ensures end.Some? ==> forall k :: start < k < end.value ==> !(IsMark(tokens[k], ')') && tokens[k].depth == tokens[start].depth)
    ensures end.None? ==> start >= |tokens| || !IsMark(tokens[start], '(') ||
                          forall k :: start < k < |tokens| ==> !(IsMark(tokens[k], ')') && tokens[k].depth == tokens[start].depth)
  {
    if start >= |tokens| || tokens[start].text != "(" || tokens[start].quoted {
      return None;
    }
    for index := start + 1 to |tokens|
      invariant forall k :: start < k < index ==> !(IsMark(tokens[k], ')') && tokens[k].depth == tokens[start].depth)
    {
      if tokens[index].text == ")" && !tokens[index].quoted && tokens[index].depth == tokens[start].depth {
        return Some(index);
      }
    }
    end := None;
  }

  /** The token found by comparing depths. */
  ghost predicate FirstAtDepth(tokens: seq<Token>, start: nat, end: nat)
  {
    && start < end < |tokens| && IsMark(tokens[start], '(') && IsMark(tokens[end], ')') && tokens[end].depth == tokens[start].depth
    && forall k :: start < k < end ==> !(IsMark(tokens[k], ')') && tokens[k].depth == tokens[start].depth)
  }

  /** In the tokens of a text, an opening parenthesis always has such a token, and it is
      the one that closes the group. */
  lemma {:induction false} GroupEndMatches(lex: Lexicon, sql: string, tokens: seq<Token>, start: nat) returns (end: nat)
    requires Sound(lex) && Lexable(sql) && TokensOf(lex, sql, tokens, |sql|)
    requires start < |tokens| && IsMark(tokens[start], '(')
    ensures FirstAtDepth(tokens, start, end) && Matching(sql, tokens[start].start, tokens[end].start)
  {
    assert Faithful(lex, sql, tokens[start]);
    MarkTokenIsMark(lex, sql, tokens[start], '(');
    var open := tokens[start].start;
    var close := MatchingExists(sql, open);
    end := MarkHasToken(lex, sql, tokens, close, ')');
    assert Faithful(lex, sql, tokens[end]);
    StepAt(sql, close);
    TokenOrder(lex, sql, tokens, start, end);
    forall k | start < k < end
      ensures !(IsMark(tokens[k], ')') && tokens[k].depth == tokens[start].depth)
    {
      TokenOrder(lex, sql, tokens, start, k);
      TokenOrder(lex, sql, tokens, k, end);
      assert Faithful(lex, sql, tokens[k]);
      if IsMark(tokens[k], ')') {
        MarkTokenIsMark(lex, sql, tokens[k], ')');
        StepAt(sql, tokens[k].start);
        assert Depth(sql, tokens[k].start + 1) > Depth(sql, open);
      }
    }
  }

  lemma {:induction false} FirstAtDepthIsUnique(tokens: seq<Token>, start: nat, a: nat, b: nat)
    requires FirstAtDepth(tokens, start, a) && FirstAtDepth(tokens, start, b)
    ensures a == b
  {
  }

  // ---------------------------------------------------------------------------
  // Quoted identifiers
  // ---------------------------------------------------------------------------

  lemma {:induction false} DoubledInjective(a: string, b: string, q: char)
    requires Doubled(a, q) == Doubled(b, q)
    ensures a == b
    decreases |a|
  {
    if |a| == 0 || |b| == 0 {
      assert |a| == 0 && |b| == 0;
    } else {
      var s := Doubled(a, q);
      var la, lb := a[|a| - 1], b[|b| - 1];
      assert s[|s| - 1] == la == lb;
      var cut := if la == q then 2 else 1;
      assert Doubled(a[..|a| - 1], q) == s[..|s| - cut] == Doubled(b[..|b| - 1], q);
      DoubledInjective(a[..|a| - 1], b[..|b| - 1], q);
      assert a == a[..|a| - 1] + [la] && b == b[..|b| - 1] + [lb];
    }
  }

  /** While the doubled content is read, the text is inside the quotation. */
  lemma {:induction false} InsideQuotation(sql: string, start: nat, id: string, q: char)
    requires start < |sql| && ModeAt(sql, start) == Code && sql[start] == q && OpensQuote(q) && q != '['
    requires Doubled(id, q) <= sql[start + 1..]
    ensures ModeAt(sql, start + 1 + |Doubled(id, q)|) == Quoted(q)
    ensures NoCodeWithin(sql, start, start + 1 + |Doubled(id, q)|)
    decreases |id|
  {
    StepAt(sql, start);
    if |id| > 0 {
      var front, last := id[..|id| - 1], id[|id| - 1];
      var all := Doubled(id, q);
      assert Doubled(front, q) <= all;
      InsideQuotation(sql, start, front, q);
      var at := start + 1 + |Doubled(front, q)|;
      assert forall k :: 0 <= k < |all| ==> sql[start + 1 + k] == all[k];
      assert sql[at] == all[|Doubled(front, q)|];
      StepAt(sql, at);
      if last == q {
        assert sql[at + 1] == q;
        StepAt(sql, at + 1);
      }
    }
  }

  /** An identifier that was quoted by doubling its quotes comes back as it was, and the
      token ends with the closing quote. */
  lemma {:induction false} QuotedIdentifierComesBack(lex: Lexicon, sql: string, t: Token, id: string, q: char)
    requires Sound(lex) && Faithful(lex, sql, t) && OpensQuote(q) && q != '[' && sql[t.start] == q
    requires Doubled(id, q) + [q] <= sql[t.start + 1..]
    requires var e := t.start + 1 + |Doubled(id, q)|; e + 1 < |sql| ==> sql[e + 1] != q
    ensures t.quoted && t.text == id && t.end == t.start + |Doubled(id, q)| + 2
  {
    var d := Doubled(id, q);
    var e := t.start + 1 + |d|;
    assert d <= sql[t.start + 1..];
    InsideQuotation(sql, t.start, id, q);
    assert sql[e] == sql[t.start + 1..][|d|] == q;
    StepAt(sql, e);
    assert !Word(lex, q);
    StepAt(sql, t.start);
    assert t.quoted;
    assert t.end == e + 1;
    assert sql[t.start + 1..e] == d;
    DoubledInjective(t.text, id, q);
  }

  // ---------------------------------------------------------------------------
  // Index definitions
  // ---------------------------------------------------------------------------

  function Lstrip(lex: Lexicon, s: string): string
  {
    if |s| > 0 && lex.isSpace(s[0]) then Lstrip(lex, s[1..]) else s
  }

  function Rstrip(lex: Lexicon, s: string): string
  {
    if |s| > 0 && lex.isSpace(s[|s| - 1]) then Rstrip(lex, s[..|s| - 1]) else s
  }

  function Strip(lex: Lexicon, s: string): string
  {
    Rstrip(lex, Lstrip(lex, s))
  }

  /** A comma of the group itself, not of anything nested, quoted or commented. */
  ghost predicate TopComma(sql: string, open: nat, p: nat)
    requires open <= |sql|
  {
    Mark(sql, p, ',') && Depth(sql, p) == Depth(sql, open) + 1
  }

  /** The positions of the top-level commas between `from` and `end`, in order. */
  ghost predicate Cuts(sql: string, open: nat, from: nat, end: nat, cuts: seq<nat>)
    requires open <= |sql|
  {
    && from <= end <= |sql|
    && (forall i, j :: 0 <= i < j < |cuts| ==> cuts[i] < cuts[j])
    && (forall p: nat :: p in cuts <==> from <= p < end && TopComma(sql, open, p))
  }

  /** Those positions, computed. */
  ghost function TopCommas(sql: string, open: nat, from: nat, end: nat): seq<nat>
    requires open <= |sql| && from <= end <= |sql|
    decreases end - from
  {
    if from == end then []
    else TopCommas(sql, open, from, end - 1) + if TopComma(sql, open, end - 1) then [end - 1] else []
  }

  lemma {:induction false} NoCutAtEnd(sql: string, open: nat, from: nat, end: nat, cuts: seq<nat>)
    requires open <= |sql| && Cuts(sql, open, from, end, cuts) && from < end && !TopComma(sql, open, end - 1)
    ensures Cuts(sql, open, from, end - 1, cuts)
  {
    assert end - 1 !in cuts;
  }

  lemma {:induction false} CutsAreTopCommas(sql: string, open: nat, from: nat, end: nat, cuts: seq<nat>)
    requires open <= |sql| && Cuts(sql, open, from, end, cuts)
    ensures cuts == TopCommas(sql, open, from, end)
    decreases end - from
  {
    if from == end {
      assert forall i :: 0 <= i < |cuts| ==> cuts[i] in cuts;
    } else if TopComma(sql, open, end - 1) {
      LastCutIsGreatest(sql, open, from, end, cuts);
      CutsAreTopCommas(sql, open, from, end - 1, cuts[..|cuts| - 1]);
      assert cuts == cuts[..|cuts| - 1] + [end - 1];
    } else {
      NoCutAtEnd(sql, open, from, end, cuts);
      CutsAreTopCommas(sql, open, from, end - 1, cuts);
    }
  }

  lemma {:induction false} LastCutIsGreatest(sql: string, open: nat, from: nat, end: nat, cuts: seq<nat>)
    requires open <= |sql| && Cuts(sql, open, from, end, cuts) && from < end && TopComma(sql, open, end - 1)
    ensures |cuts| > 0 && cuts[|cuts| - 1] == end - 1
    ensures Cuts(sql, open, from, end - 1, cuts[..|cuts| - 1])
  {
    assert end - 1 in cuts;
    var i :| 0 <= i < |cuts| && cuts[i] == end - 1;
    assert cuts[|cuts| - 1] in cuts;
    assert i == |cuts| - 1;
    var front := cuts[..i];
    assert cuts == front + [end - 1];
    forall p: nat
      ensures p in front <==> from <= p < end - 1 && TopComma(sql, open, p)
    {
      assert p in cuts <==> p in front || p == end - 1;
      if p in front {
        var k :| 0 <= k < i && front[k] == p;
        assert cuts[k] < cuts[i];
      }
    }
  }

  /** Where the i-th slice starts and ends. */
  function SliceStart(from: nat, cuts: seq<nat>, i: nat): nat
    requires i <= |cuts|
  {
    if i == 0 then from else cuts[i - 1] + 1
  }

  function SliceEnd(cuts: seq<nat>, end: nat, i: nat): nat
    requires i <= |cuts|
  {
    if i < |cuts| then cuts[i] else end
  }

  ghost predicate Ascends(from: nat, cuts: seq<nat>, end: nat)
  {
    forall i :: 0 <= i <= |cuts| ==> SliceStart(from, cuts, i) <= SliceEnd(cuts, end, i) <= end
  }

  function Slices(sql: string, from: nat, cuts: seq<nat>, end: nat): seq<string>
    requires end <= |sql| && Ascends(from, cuts, end)
  {
    seq(|cuts| + 1, i requires 0 <= i <= |cuts| => sql[SliceStart(from, cuts, i)..SliceEnd(cuts, end, i)])
  }

  function Joined(slices: seq<string>, n: nat): string
    requires n <= |slices|
  {
    if n == 0 then "" else if n == 1 then slices[0] else Joined(slices, n - 1) + "," + slices[n - 1]
  }

  /** Put together with commas, the slices are the text they were cut from. */
  lemma {:induction false} SlicesRejoin(sql: string, from: nat, cuts: seq<nat>, end: nat, n: nat)
    requires end <= |sql| && Ascends(from, cuts, end) && n <= |cuts|
    requires forall i :: 0 <= i < |cuts| ==> cuts[i] < |sql| && sql[cuts[i]] == ','
    ensures from <= SliceEnd(cuts, end, n)
    ensures Joined(Slices(sql, from, cuts, end), n + 1) == sql[from..SliceEnd(cuts, end, n)]
  {
    assert SliceStart(from, cuts, n) <= SliceEnd(cuts, end, n) <= end;
    if n > 0 {
      SlicesRejoin(sql, from, cuts, end, n - 1);
      assert SliceEnd(cuts, end, n - 1) == cuts[n - 1];
      ThreeParts(sql, from, cuts[n - 1], SliceEnd(cuts, end, n));
    }
  }

  lemma {:induction false} ThreeParts(sql: string, from: nat, at: nat, end: nat)
    requires from <= at < end <= |sql| && sql[at] == ','
    ensures sql[from..end] == sql[from..at] + "," + sql[at + 1..end]
  {
  }

  lemma {:induction false} CutsAscend(sql: string, open: nat, from: nat, end: nat, cuts: seq<nat>)
    requires open <= |sql| && Cuts(sql, open, from, end, cuts)
    ensures Ascends(from, cuts, end)
  {
    forall i | 0 <= i <= |cuts|
      ensures SliceStart(from, cuts, i) <= SliceEnd(cuts, end, i) <= end
    {
      if i < |cuts| {
        assert cuts[i] in cuts;
      }
      if i > 0 {
        assert cuts[i - 1] in cuts;
      }
    }
  }

  lemma {:induction false} CutsNext(sql: string, open: nat, from: nat, end: nat, cuts: seq<nat>, comma: nat)
    requires open <= |sql| && Cuts(sql, open, from, end, cuts) && end <= comma && TopComma(sql, open, comma)
    requires forall p: nat :: end <= p < comma ==> !TopComma(sql, open, p)
    ensures Cuts(sql, open, from, comma + 1, cuts + [comma])
  {
    var more := cuts + [comma];
    forall i, j | 0 <= i < j < |more|
      ensures more[i] < more[j]
    {
      if j == |cuts| {
        assert cuts[i] in cuts;
      }
    }
    forall p: nat
      ensures p in more <==> from <= p < comma + 1 && TopComma(sql, open, p)
    {
      assert p in more <==> p in cuts || p == comma;
    }
  }

  function StripAll(lex: Lexicon, slices: seq<string>): seq<string>
  {
    seq(|slices|, i requires 0 <= i < |slices| => Strip(lex, slices[i]))
  }

  predicate CommaToken(t: Token)
  {
    t.depth == 1 && t.text == "," && !t.quoted
  }

  /** A comma token of depth one is a top-level comma of a group at depth zero, and every
      such comma has one. */
  lemma {:induction false} CommaTokens(lex: Lexicon, sql: string, tokens: seq<Token>, open: nat, k: nat)
    requires Sound(lex) && TokensOf(lex, sql, tokens, |sql|) && k < |tokens| && open <= |sql| && Depth(sql, open) == 0
    ensures CommaToken(tokens[k]) ==> TopComma(sql, open, tokens[k].start) && tokens[k].end == tokens[k].start + 1
  {
    assert Faithful(lex, sql, tokens[k]);
    if CommaToken(tokens[k]) {
      MarkTokenIsMark(lex, sql, tokens[k], ',');
    }
  }

  lemma {:induction false} NoCommaBetween(lex: Lexicon, sql: string, tokens: seq<Token>, open: nat, last: nat, k: nat,
                                          p: nat)
    requires Sound(lex) && TokensOf(lex, sql, tokens, |sql|) && last < k < |tokens| && open <= |sql| && Depth(sql, open) == 0
    requires NoCommaTokens(tokens, last, k) && tokens[last].end <= p < tokens[k].start && p < |sql|
    ensures !TopComma(sql, open, p)
  {
    if TopComma(sql, open, p) {
      var m := MarkHasToken(lex, sql, tokens, p, ',');
      assert Faithful(lex, sql, tokens[m]) && Faithful(lex, sql, tokens[last]);
      TokenOrder(lex, sql, tokens, m, k);
      TokenOrder(lex, sql, tokens, last, m);
      assert CommaToken(tokens[m]);
    }
  }

  ghost predicate NoCommaTokens(tokens: seq<Token>, last: nat, k: nat)
    requires k <= |tokens|
  {
    forall m :: last < m < k ==> !CommaToken(tokens[m])
  }

  ghost predicate FirstOpen(sql: string, open: nat)
  {
    Mark(sql, open, '(') && forall p: nat :: p < open ==> !Mark(sql, p, '(')
  }

  ghost predicate NoOpen(sql: string)
  {
    forall p: nat :: !Mark(sql, p, '(')
  }

  lemma {:induction false} NotDeepBeforeFirstOpen(sql: string, n: nat)
    requires n <= |sql| && forall p: nat :: p < n ==> !Mark(sql, p, '(')
    ensures Depth(sql, n) <= 0
  {
    if n > 0 {
      NotDeepBeforeFirstOpen(sql, n - 1);
      StepAt(sql, n - 1);
      assert !Mark(sql, n - 1, '(');
    }
  }

  method FindOpen(lex: Lexicon, sql: string, tokens: seq<Token>) returns (start: Option<nat>)
    requires Sound(lex) && Lexable(sql) && TokensOf(lex, sql, tokens, |sql|)
    ensures start.None? ==> NoOpen(sql)
    ensures start.Some? ==> start.value < |tokens| && IsMark(tokens[start.value], '(') && tokens[start.value].end <= |sql|
    ensures start.Some? ==> FirstOpen(sql, tokens[start.value].start) && tokens[start.value].end == tokens[start.value].start + 1
    ensures start.Some? ==> Depth(sql, tokens[start.value].start) == 0
  {
    for i := 0 to |tokens|
      invariant forall k :: 0 <= k < i ==> !IsMark(tokens[k], '(')
    {
      if tokens[i].text == "(" && !tokens[i].quoted {
        assert Faithful(lex, sql, tokens[i]);
        MarkTokenIsMark(lex, sql, tokens[i], '(');
        forall p: nat | p < tokens[i].start
          ensures !Mark(sql, p, '(')
        {
          if Mark(sql, p, '(') {
            var k := MarkHasToken(lex, sql, tokens, p, '(');
            TokenOrder(lex, sql, tokens, k, i);
          }
        }
        NotDeepBeforeFirstOpen(sql, tokens[i].start);
        assert DepthInRange(sql, tokens[i].start);
        return Some(i);
      }
    }
    forall p: nat
      ensures !Mark(sql, p, '(')
    {
      if Mark(sql, p, '(') {
        var k := MarkHasToken(lex, sql, tokens, p, '(');
      }
    }
    start := None;
  }

  /** The pieces cut so far; the rest of the group starts at `offset`. */
  ghost predicate Cutting(lex: Lexicon, sql: string, open: nat, offset: nat, cuts: seq<nat>, pieces: seq<string>)
    requires open < |sql|
  {
    && offset == SliceStart(open + 1, cuts, |cuts|) && Cuts(sql, open, open + 1, offset, cuts)
    && |pieces| == |cuts|
    && forall i :: 0 <= i < |cuts| ==> PieceAt(lex, sql, open + 1, cuts, i, pieces[i])
  }

  ghost predicate PieceAt(lex: Lexicon, sql: string, from: nat, cuts: seq<nat>, i: nat, piece: string)
    requires i < |cuts|
  {
    SliceStart(from, cuts, i) <= cuts[i] <= |sql| && piece == Strip(lex, sql[SliceStart(from, cuts, i)..cuts[i]])
  }

  lemma {:induction false} CutHere(lex: Lexicon, sql: string, open: nat, offset: nat, cuts: seq<nat>,
                                   pieces: seq<string>, comma: nat)
    requires open < |sql| && Cutting(lex, sql, open, offset, cuts, pieces)
    requires offset <= comma && TopComma(sql, open, comma) && forall p: nat :: offset <= p < comma ==> !TopComma(sql, open, p)
    ensures Cutting(lex, sql, open, comma + 1, cuts + [comma], pieces + [Strip(lex, sql[offset..comma])])
  {
    CutsNext(sql, open, open + 1, offset, cuts, comma);
    var more := cuts + [comma];
    forall i | 0 <= i < |more|
      ensures PieceAt(lex, sql, open + 1, more, i, (pieces + [Strip(lex, sql[offset..comma])])[i])
    {
      if i < |cuts| {
        assert PieceAt(lex, sql, open + 1, cuts, i, pieces[i]);
      }
    }
  }

  lemma {:induction false} CutEnds(lex: Lexicon, sql: string, open: nat, offset: nat, cuts: seq<nat>,
                                   pieces: seq<string>, close: nat)
    requires open < |sql| && Cutting(lex, sql, open, offset, cuts, pieces)
    requires offset <= close <= |sql| && forall p: nat :: offset <= p < close ==> !TopComma(sql, open, p)
    ensures Cuts(sql, open, open + 1, close, cuts) && Ascends(open + 1, cuts, close)
    ensures pieces + [Strip(lex, sql[offset..close])] == StripAll(lex, Slices(sql, open + 1, cuts, close))
  {
    CutsUpTo(sql, open, open + 1, offset, close, cuts);
    CutsAscend(sql, open, open + 1, close, cuts);
    var all, slices := pieces + [Strip(lex, sql[offset..close])], Slices(sql, open + 1, cuts, close);
    forall i | 0 <= i < |slices|
      ensures all[i] == Strip(lex, slices[i])
    {
      if i < |cuts| {
        assert PieceAt(lex, sql, open + 1, cuts, i, pieces[i]);
      }
    }
  }

  lemma {:induction false} SpansInText(lex: Lexicon, sql: string, tokens: seq<Token>, i: nat, j: nat)
    requires TokensOf(lex, sql, tokens, |sql|) && i < j < |tokens|
    ensures tokens[i].start < tokens[i].end <= tokens[j].start < tokens[j].end <= |sql|
  {
    assert Faithful(lex, sql, tokens[i]) && Faithful(lex, sql, tokens[j]);
  }

  /** The loop over the tokens of a group, between two of them: no comma since `last`. */
  ghost predicate CuttingTokens(lex: Lexicon, sql: string, tokens: seq<Token>, open: nat, last: nat, k: nat,
                                offset: nat, cuts: seq<nat>, pieces: seq<string>)
    requires open < |sql|
  {
    && last < k <= |tokens| && offset == tokens[last].end
    && NoCommaTokens(tokens, last, k)
    && Cutting(lex, sql, open, offset, cuts, pieces)
  }

  lemma {:induction false} CommaReached(lex: Lexicon, sql: string, tokens: seq<Token>, open: nat, last: nat, k: nat,
                                        offset: nat, cuts: seq<nat>, pieces: seq<string>)
    requires Sound(lex) && TokensOf(lex, sql, tokens, |sql|) && open < |sql| && Depth(sql, open) == 0
    requires k < |tokens| && CuttingTokens(lex, sql, tokens, open, last, k, offset, cuts, pieces) && CommaToken(tokens[k])
    ensures offset <= tokens[k].start < |sql|
    ensures CuttingTokens(lex, sql, tokens, open, k, k + 1, tokens[k].end, cuts + [tokens[k].start],
                          pieces + [Strip(lex, sql[offset..tokens[k].start])])
  {
    SpansInText(lex, sql, tokens, last, k);
    CommaTokens(lex, sql, tokens, open, k);
    NoCommasUpTo(lex, sql, tokens, open, last, k);
    CutHere(lex, sql, open, offset, cuts, pieces, tokens[k].start);
  }

  lemma {:induction false} GroupDone(lex: Lexicon, sql: string, tokens: seq<Token>, open: nat, last: nat, end: nat,
                                     offset: nat, cuts: seq<nat>, pieces: seq<string>)
    requires Sound(lex) && TokensOf(lex, sql, tokens, |sql|) && open < |sql| && Depth(sql, open) == 0
    requires end < |tokens| && CuttingTokens(lex, sql, tokens, open, last, end, offset, cuts, pieces)
    ensures offset <= tokens[end].start < |sql|
    ensures Cuts(sql, open, open + 1, tokens[end].start, cuts) && Ascends(open + 1, cuts, tokens[end].start)
    ensures pieces + [Strip(lex, sql[offset..tokens[end].start])] == StripAll(lex, Slices(sql, open + 1, cuts, tokens[end].start))
  {
    SpansInText(lex, sql, tokens, last, end);
    NoCommasUpTo(lex, sql, tokens, open, last, end);
    CutEnds(lex, sql, open, offset, cuts, pieces, tokens[end].start);
  }

  lemma {:induction false} GroupBegins(lex: Lexicon, sql: string, tokens: seq<Token>, start: nat)
    requires start < |tokens| && tokens[start].start < tokens[start].end == tokens[start].start + 1 <= |sql|
    ensures CuttingTokens(lex, sql, tokens, tokens[start].start, start, start + 1, tokens[start].end, [], [])
  {
    EmptyCuts(sql, tokens[start].start, tokens[start].end);
  }

  lemma {:induction false} PlainReached(lex: Lexicon, sql: string, tokens: seq<Token>, open: nat, last: nat, k: nat,
                                        offset: nat, cuts: seq<nat>, pieces: seq<string>)
    requires open < |sql| && k < |tokens| && CuttingTokens(lex, sql, tokens, open, last, k, offset, cuts, pieces) && !CommaToken(tokens[k])
    ensures CuttingTokens(lex, sql, tokens, open, last, k + 1, offset, cuts, pieces)
  {
  }

  /** The tokens of a group from the one after the opening parenthesis on. */
  method CutAtCommas(lex: Lexicon, sql: string, tokens: seq<Token>, start: nat, end: nat)
    returns (pieces: seq<string>, offset: nat, ghost cuts: seq<nat>, ghost last: nat)
    requires Sound(lex) && TokensOf(lex, sql, tokens, |sql|) && start < end < |tokens|
    requires tokens[start].start < |sql| && tokens[start].end == tokens[start].start + 1 && Depth(sql, tokens[start].start) == 0
    ensures CuttingTokens(lex, sql, tokens, tokens[start].start, last, end, offset, cuts, pieces)
  {
    ghost var open := tokens[start].start;
    pieces, offset, cuts, last := [], tokens[start].end, [], start;
    GroupBegins(lex, sql, tokens, start);
    for k := start + 1 to end
      invariant CuttingTokens(lex, sql, tokens, open, last, k, offset, cuts, pieces)
    {
      if CommaToken(tokens[k]) {
        CommaReached(lex, sql, tokens, open, last, k, offset, cuts, pieces);
        pieces := pieces + [Strip(lex, sql[offset..tokens[k].start])];
        cuts := cuts + [tokens[k].start];
        offset := tokens[k].end;
        last := k;
      } else {
        PlainReached(lex, sql, tokens, open, last, k, offset, cuts, pieces);
      }
    }
  }

  lemma {:induction false} GroupSliced(lex: Lexicon, sql: string, tokens: seq<Token>, open: nat, last: nat, end: nat,
                                       offset: nat, cuts: seq<nat>, pieces: seq<string>)
    requires Sound(lex) && TokensOf(lex, sql, tokens, |sql|) && open < |sql| && Depth(sql, open) == 0
    requires end < |tokens| && open < tokens[end].start && CuttingTokens(lex, sql, tokens, open, last, end, offset, cuts, pieces)
    ensures offset <= tokens[end].start < |sql|
    ensures pieces + [Strip(lex, sql[offset..tokens[end].start])] == StripAll(lex, SlicesOf(sql, open, tokens[end].start))
  {
    GroupDone(lex, sql, tokens, open, last, end, offset, cuts, pieces);
    CutsGiveSlices(sql, open, tokens[end].start, cuts);
  }

  method CutPieces(lex: Lexicon, sql: string, tokens: seq<Token>, start: nat, end: nat) returns (pieces: seq<string>)
    requires Sound(lex) && TokensOf(lex, sql, tokens, |sql|) && start < end < |tokens|
    requires tokens[start].start < |sql| && tokens[start].end == tokens[start].start + 1 && Depth(sql, tokens[start].start) == 0
    ensures tokens[start].start < tokens[end].start <= |sql|
    ensures pieces == StripAll(lex, SlicesOf(sql, tokens[start].start, tokens[end].start))
  {
    var offset;
    ghost var cuts, last;
    pieces, offset, cuts, last := CutAtCommas(lex, sql, tokens, start, end);
    SpansInText(lex, sql, tokens, start, end);
    GroupSliced(lex, sql, tokens, tokens[start].start, last, end, offset, cuts, pieces);
    pieces := pieces + [Strip(lex, sql[offset..tokens[end].start])];
  }

  lemma {:induction false} EmptyCuts(sql: string, open: nat, from: nat)
    requires open <= |sql| && from <= |sql|
    ensures Cuts(sql, open, from, from, [])
  {
  }

  lemma {:induction false} CutsUpTo(sql: string, open: nat, from: nat, end: nat, later: nat, cuts: seq<nat>)
    requires open <= |sql| && Cuts(sql, open, from, end, cuts) && end <= later <= |sql|
    requires forall p: nat :: end <= p < later ==> !TopComma(sql, open, p)
    ensures Cuts(sql, open, from, later, cuts)
  {
  }

  lemma {:induction false} NoCommasUpTo(lex: Lexicon, sql: string, tokens: seq<Token>, open: nat, last: nat, k: nat)
    requires Sound(lex) && TokensOf(lex, sql, tokens, |sql|) && last < k < |tokens| && open <= |sql| && Depth(sql, open) == 0
    requires NoCommaTokens(tokens, last, k)
    ensures forall p: nat :: tokens[last].end <= p < tokens[k].start ==> !TopComma(sql, open, p)
  {
    assert Faithful(lex, sql, tokens[k]);
    forall p: nat | tokens[last].end <= p < tokens[k].start
      ensures !TopComma(sql, open, p)
    {
      NoCommaBetween(lex, sql, tokens, open, last, k, p);
    }
  }

  function WithoutSuffix(s: string): string
  {
    if |s| > 0 && s[|s| - 1] == ';' then s[..|s| - 1] else s
  }

  predicate Keyword(upper: string -> string, t: Token, word: string)
  {
    !t.quoted && upper(t.text) == word
  }

  /** The text behind the first WHERE after the group. */
  ghost predicate IsCondition(lex: Lexicon, upper: string -> string, sql: string, tokens: seq<Token>, end: nat,
                              condition: Option<string>)
    requires forall t :: t in tokens ==> t.end <= |sql|
  {
    if condition.None? then forall k :: end < k < |tokens| ==> !IsWhere(upper, tokens[k])
    else exists k :: end < k < |tokens| && IsWhere(upper, tokens[k]) &&
                     condition.value == Rstrip(lex, UpToSemicolon(Strip(lex, sql[tokens[k].end..]))) &&
                     forall m :: end < m < k ==> !IsWhere(upper, tokens[m])
  }

  ghost predicate IsWhere(upper: string -> string, t: Token)
  {
    !t.quoted && upper(t.text) == "WHERE"
  }

  /** One semicolon at the end does not count. */
  ghost function UpToSemicolon(s: string): (t: string)
    ensures s == t || s == t + ";"
    ensures s != "" && s[|s| - 1] == ';' ==> s == t + ";"
  {
    if s != "" && s[|s| - 1] == ';' then s[..|s| - 1] else s
  }

  method FindCondition(lex: Lexicon, upper: string -> string, sql: string, tokens: seq<Token>,
                       end: nat) returns (condition: Option<string>)
    requires end < |tokens| && forall t :: t in tokens ==> t.end <= |sql|
    ensures IsCondition(lex, upper, sql, tokens, end, condition)
  {
    for k := end + 1 to |tokens|
      invariant forall m :: end < m < k ==> !IsWhere(upper, tokens[m])
    {
      if Keyword(upper, tokens[k], "WHERE") {
        return Some(Rstrip(lex, WithoutSuffix(Strip(lex, sql[tokens[k].end..]))));
      }
    }
    condition := None;
  }

  /** The first group of the text. */
  ghost predicate FirstGroup(sql: string, open: nat, close: nat)
  {
    FirstOpen(sql, open) && Matching(sql, open, close)
  }

  lemma {:induction false} FirstGroupIsUnique(sql: string, open: nat, close: nat, open2: nat, close2: nat)
    requires FirstGroup(sql, open, close) && FirstGroup(sql, open2, close2)
    ensures open == open2 && close == close2
  {
    assert Mark(sql, open, '(') && Mark(sql, open2, '(');
    MatchingIsUnique(sql, open, close, close2);
  }

  lemma {:induction false} TopCommasAreCuts(sql: string, open: nat, from: nat, end: nat)
    requires open <= |sql| && from <= end <= |sql|
    ensures Cuts(sql, open, from, end, TopCommas(sql, open, from, end))
    decreases end - from
  {
    if from == end {
      EmptyCuts(sql, open, from);
    } else {
      TopCommasAreCuts(sql, open, from, end - 1);
      var before := TopCommas(sql, open, from, end - 1);
      if TopComma(sql, open, end - 1) {
        CutsNext(sql, open, from, end - 1, before, end - 1);
      } else {
        CutsUpTo(sql, open, from, end - 1, end, before);
      }
    }
  }

  lemma {:induction false} TopCommasAscend(sql: string, open: nat, from: nat, end: nat)
    requires open <= |sql| && from <= end <= |sql|
    ensures Cuts(sql, open, from, end, TopCommas(sql, open, from, end)) && Ascends(from, TopCommas(sql, open, from, end), end)
  {
    TopCommasAreCuts(sql, open, from, end);
    CutsAscend(sql, open, from, end, TopCommas(sql, open, from, end));
  }

  /** The text of a group, cut at its top-level commas. */
  ghost function SlicesOf(sql: string, open: nat, close: nat): seq<string>
    requires open < close <= |sql|
  {
    TopCommasAscend(sql, open, open + 1, close);
    Slices(sql, open + 1, TopCommas(sql, open, open + 1, close), close)
  }

  /** Put together with commas, the slices of a group are its text. */
  lemma {:induction false} CutsGiveSlices(sql: string, open: nat, close: nat, cuts: seq<nat>)
    requires open < close <= |sql| && Cuts(sql, open, open + 1, close, cuts) && Ascends(open + 1, cuts, close)
    ensures SlicesOf(sql, open, close) == Slices(sql, open + 1, cuts, close)
  {
    CutsAreTopCommas(sql, open, open + 1, close, cuts);
  }

  lemma {:induction false} SlicesOfRejoin(sql: string, open: nat, close: nat)
    requires open < close <= |sql|
    ensures Joined(SlicesOf(sql, open, close), |SlicesOf(sql, open, close)|) == sql[open + 1..close]
  {
    var cuts := TopCommas(sql, open, open + 1, close);
    TopCommasAscend(sql, open, open + 1, close);
    forall i | 0 <= i < |cuts|
      ensures cuts[i] < |sql| && sql[cuts[i]] == ','
    {
      assert cuts[i] in cuts && TopComma(sql, open, cuts[i]);
    }
    SlicesRejoin(sql, open + 1, cuts, close, |cuts|);
  }

  ghost predicate HasEmptyPiece(lex: Lexicon, sql: string, open: nat, close: nat)
    requires open < close <= |sql|
  {
    "" in StripAll(lex, SlicesOf(sql, open, close))
  }

  /** The condition behind the group that ends at `close`. */
  ghost predicate ConditionBehind(lex: Lexicon, upper: string -> string, sql: string, close: nat,
                                  condition: Option<string>)
  {
    exists tokens: seq<Token>, k :: TokensOf(lex, sql, tokens, |sql|) && 0 <= k < |tokens| && tokens[k].start == close &&
                        ConditionAfter(lex, upper, sql, tokens, k, condition)
  }

  method IndexDefinition(lex: Lexicon, upper: string -> string, sql: string) returns (r: Option<(seq<string>,
                         Option<string>)>)
    requires Sound(lex)
    ensures r.Some? ==> Lexable(sql) && !NoOpen(sql)
    ensures Lexable(sql) && !NoOpen(sql) ==> exists open, close :: FirstGroup(sql, open, close)
    ensures Lexable(sql) ==> forall open, close :: FirstGroup(sql, open, close) ==> (r.None? <==> HasEmptyPiece(lex, sql, open, close))
    ensures forall open, close :: r.Some? && FirstGroup(sql, open, close) ==>
              && r.value.0 == StripAll(lex, SlicesOf(sql, open, close))
              && ConditionBehind(lex, upper, sql, close, r.value.1)
  {
    var lexed := Tokenize(lex, sql);
    if lexed.None? {
      return None;
    }
    var tokens := lexed.value;
    var start := FindOpen(lex, sql, tokens);
    if start.None? {
      return None;
    }
    ghost var matched := GroupEndMatches(lex, sql, tokens, start.value);
    var end := GroupEnd(tokens, start.value);
    if end.None? {
      return None;
    }
    FirstAtDepthIsUnique(tokens, start.value, matched, end.value);
    ghost var open, close := tokens[start.value].start, tokens[end.value].start;
    assert FirstGroup(sql, open, close) && Mark(sql, open, '(');
    var pieces := CutPieces(lex, sql, tokens, start.value, end.value);
    TokensEndInside(lex, sql, tokens);
    var condition := FindCondition(lex, upper, sql, tokens, end.value);
    assert ConditionAfter(lex, upper, sql, tokens, end.value, condition);
    forall open2, close2 | FirstGroup(sql, open2, close2)
      ensures open2 == open && close2 == close
    {
      FirstGroupIsUnique(sql, open, close, open2, close2);
    }
    r := if "" in pieces then None else Some((pieces, condition));
  }

  ghost predicate ConditionAfter(lex: Lexicon, upper: string -> string, sql: string, tokens: seq<Token>, end: nat,
                                 condition: Option<string>)
  {
    (forall t :: t in tokens ==> t.end <= |sql|) && IsCondition(lex, upper, sql, tokens, end, condition)
  }

  lemma {:induction false} TokensEndInside(lex: Lexicon, sql: string, tokens: seq<Token>)
    requires TokensOf(lex, sql, tokens, |sql|)
    ensures forall t :: t in tokens ==> t.end <= |sql|
  {
    forall t | t in tokens
      ensures t.end <= |sql|
    {
      var k :| 0 <= k < |tokens| && tokens[k] == t;
    }
  }
}
