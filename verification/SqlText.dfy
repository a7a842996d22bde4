/** SQL text read character by character: quotes, comments and parenthesis depth. This is
    the reference that the tokenizer is measured against. */
module SqlText {

  /** Unicode classes of characters, as far as the tokenizer needs them. */
  datatype Lexicon = Lexicon(isSpace: char -> bool, isAlnum: char -> bool)

  predicate Word(lex: Lexicon, c: char)
  {
    lex.isAlnum(c) || c == '_' || c == '$'
  }

  predicate OpensQuote(c: char)
  {
    c == '\'' || c == '"' || c == '`' || c == '['
  }

  function Closing(c: char): char
  {
    if c == '[' then ']' else c
  }

  predicate Special(c: char)
  {
    OpensQuote(c) || c == ']' || c == '-' || c == '/' || c == '*' || c == '(' || c == ')' || c == ',' || c == '_' || c == '$'
  }

  /** Punctuation is neither space nor alphanumeric, and nothing is both. */
  ghost predicate Sound(lex: Lexicon)
  {
    forall c :: !(lex.isSpace(c) && lex.isAlnum(c)) && (Special(c) ==> !lex.isSpace(c) && !lex.isAlnum(c))
  }

  /** `Skip` is the second character of a two-character mark. */
  datatype Mode = Code | Line | Block | Quoted(closing: char) | SkipTo(next: Mode)

  predicate PairAt(sql: string, i: nat, a: char, b: char)
  {
    i + 1 < |sql| && sql[i] == a && sql[i + 1] == b
  }

  ghost function Step(sql: string, i: nat, mode: Mode): Mode
    requires i < |sql|
  {
    var more := i + 1 < |sql|;
    match mode
    case Code =>
      if more && sql[i] == '-' && sql[i + 1] == '-' then SkipTo(Line)
      else if more && sql[i] == '/' && sql[i + 1] == '*' then SkipTo(Block)
      else if sql[i] == '[' then Quoted(']')
      else if sql[i] == '\'' || sql[i] == '"' || sql[i] == '`' then Quoted(sql[i])
      else Code
    case Line => if sql[i] == '\n' then Code else Line
    case Block => if more && sql[i] == '*' && sql[i + 1] == '/' then SkipTo(Code) else Block
    case Quoted(q) =>
      if sql[i] != q then mode
      else if q != ']' && more && sql[i + 1] == q then SkipTo(mode)
      else Code
    case SkipTo(next) => next
  }

  /** The mode in which the character at `i` is read. */
  ghost function ModeAt(sql: string, i: nat): Mode
    requires i <= |sql|
  {
    if i == 0 then Code else Step(sql, i - 1, ModeAt(sql, i - 1))
  }

  ghost function Change(sql: string, i: nat, mode: Mode): int
    requires i < |sql|
  {
    if !mode.Code? then 0 else if sql[i] == '(' then 1 else if sql[i] == ')' then -1 else 0
  }

  /** Open parentheses outside quotes and comments before the character at `i`. */
  ghost function Depth(sql: string, i: nat): int
    requires i <= |sql|
  {
    if i == 0 then 0 else Depth(sql, i - 1) + Change(sql, i - 1, ModeAt(sql, i - 1))
  }

  predicate StartsComment(sql: string, i: nat)
  {
    PairAt(sql, i, '-', '-') || PairAt(sql, i, '/', '*')
  }

  /** Neither space outside quotes nor part of a comment. */
  ghost predicate Visible(lex: Lexicon, sql: string, i: nat)
    requires i < |sql|
  {
    match ModeAt(sql, i)
    case Code => !lex.isSpace(sql[i]) && Step(sql, i, Code) != SkipTo(Line) && Step(sql, i, Code) != SkipTo(Block)
    case Quoted(_) => true
    case SkipTo(next) => next.Quoted?
    case _ => false
  }

  const MAX_DEPTH := 64

  ghost predicate DepthInRange(sql: string, i: nat)
    requires i <= |sql|
  {
    0 <= Depth(sql, i) <= 64
  }

  /** Parentheses balanced and at most 64 deep, every quote and block comment closed. */
  ghost predicate Lexable(sql: string)
  {
    && (forall i: nat :: i <= |sql| ==> DepthInRange(sql, i))
    && Depth(sql, |sql|) == 0
    && (ModeAt(sql, |sql|).Code? || ModeAt(sql, |sql|).Line?)
  }

  /** Doubling of the closing quote; brackets know none. */
  function Doubled(s: string, q: char): string
  {
    if |s| == 0 then ""
    else Doubled(s[..|s| - 1], q) + if s[|s| - 1] == q then [q, q] else [s[|s| - 1]]
  }

  // ---------------------------------------------------------------------------
  // Stretches of one mode
  // ---------------------------------------------------------------------------

  lemma {:induction false} StepAt(sql: string, i: nat)
    requires i < |sql|
    ensures ModeAt(sql, i + 1) == Step(sql, i, ModeAt(sql, i))
    ensures Depth(sql, i + 1) == Depth(sql, i) + Change(sql, i, ModeAt(sql, i))
  {
  }

  /** A stretch of text that is read in one mode and leaves the depth alone. */
  ghost predicate Stretch(sql: string, from: nat, to_: nat, mode: Mode)
    requires from <= to_ <= |sql|
  {
    forall i :: from <= i < to_ ==> ModeAt(sql, i) == mode
  }

  lemma {:induction false} LineStretch(sql: string, start: nat, end: nat)
    requires start <= end <= |sql| && ModeAt(sql, start) == Line
    requires forall i :: start <= i < end ==> sql[i] != '\n'
    ensures ModeAt(sql, end) == Line && Depth(sql, end) == Depth(sql, start) && Stretch(sql, start, end, Line)
    decreases end - start
  {
    if start < end {
      StepAt(sql, start);
      LineStretch(sql, start + 1, end);
    }
  }

  lemma {:induction false} BlockStretch(sql: string, start: nat, end: nat)
    requires start <= end <= |sql| && ModeAt(sql, start) == Block
    requires forall i :: start <= i < end ==> !PairAt(sql, i, '*', '/')
    ensures ModeAt(sql, end) == Block && Depth(sql, end) == Depth(sql, start) && Stretch(sql, start, end, Block)
    decreases end - start
  {
    if start < end {
      StepAt(sql, start);
      assert !PairAt(sql, start, '*', '/');
      BlockStretch(sql, start + 1, end);
    }
  }
}
