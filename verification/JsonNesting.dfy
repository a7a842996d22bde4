/** The nesting check on the text of a JSON document, and the JSON values whose printed
    form it is applied to. */
module JsonNesting {
  const MAX_NESTING := 64

  // ---------------------------------------------------------------------------
  // Strings and levels of a text
  // ---------------------------------------------------------------------------

  /** Backslashes directly in front of a position. */
  function Backslashes(text: string, i: nat): nat
    requires i <= |text|
  {
    if i > 0 && text[i - 1] == '\\' then 1 + Backslashes(text, i - 1) else 0
  }

  /** The quote at `a` opens a string that is still open in front of `i`: it stands outside
      strings, and an odd number of backslashes precedes every quote since. */
  ghost predicate OpenSince(text: string, a: nat, i: nat)
    requires i <= |text|
    decreases i, 0
  {
    && a < i && text[a] == '"' && !InString(text, a)
    && forall k :: a < k < i && text[k] == '"' ==> Backslashes(text, k) % 2 == 1
  }

  ghost predicate InString(text: string, i: nat)
    requires i <= |text|
    decreases i, 1
  {
    exists a :: OpenSince(text, a, i)
  }

  /** Opening minus closing brackets outside strings in the first `i` characters. */
  ghost function Level(text: string, i: nat): int
    requires i <= |text|
  {
    if i == 0 then 0
    else
      var c := text[i - 1];
      Level(text, i - 1) +
      if InString(text, i - 1) then 0
      else if c == '[' || c == '{' then 1
      else if c == ']' || c == '}' then -1
      else 0
  }

  ghost predicate LevelsInRange(text: string, n: nat)
    requires n <= |text|
  {
    forall i: nat :: i <= n ==> 0 <= Level(text, i) <= MAX_NESTING
  }

  /** The first place where the level is out of range. */
  ghost predicate FirstOff(text: string, n: nat)
    requires n <= |text|
  {
    n > 0 && LevelsInRange(text, n - 1) && !(0 <= Level(text, n) <= MAX_NESTING)
  }

  // ---------------------------------------------------------------------------
  // The scan
  // ---------------------------------------------------------------------------

  datatype Scan = Reading(depth: nat, inString: bool, escaped: bool) | TooDeep | InvalidNesting

  function Next(s: Scan, c: char): Scan
  {
    if !s.Reading? then s
    else if s.inString then
      if s.escaped then s.(escaped := false)
      else if c == '\\' then s.(escaped := true)
      else if c == '"' then s.(inString := false)
      else s
    else if c == '"' then s.(inString := true)
    else if c == '[' || c == '{' then
      if s.depth + 1 > MAX_NESTING then TooDeep else s.(depth := s.depth + 1)
    else if c == ']' || c == '}' then
      if s.depth == 0 then InvalidNesting else s.(depth := s.depth - 1)
    else s
  }

  function After(s: Scan, text: string): Scan
  {
    if |text| == 0 then s else Next(After(s, text[..|text| - 1]), text[|text| - 1])
  }

  const START := Reading(0, false, false)

  datatype Verdict = Accepted | LimitExceeded | NestingInvalid

  /** Whatever the text: it is accepted exactly when every level is between zero and the
      limit, and otherwise the first level out of range decides. Of the texts that print a
      value exactly those are accepted that nest at most 64 deep. */
  method ValidateJsonNesting(value: string) returns (v: Verdict)
    ensures v.Accepted? <==> LevelsInRange(value, |value|)
    ensures v.LimitExceeded? <==> exists n: nat :: n <= |value| && FirstOff(value, n) && Level(value, n) > 64
    ensures v.NestingInvalid? <==> exists n: nat :: n <= |value| && FirstOff(value, n) && Level(value, n) < 0
    ensures forall w :: WellFormed(w) && Print(w) == value ==> v == if Depth(w) <= 64 then Accepted else LimitExceeded
    ensures v == VerdictOf(After(START, value))
  {
    var depth, inString, escaped := 0, false, false;
    VerdictIsByLevels(value);
    VerdictOfPrinted(value);
    for i := 0 to |value|
      invariant depth >= 0 && After(START, value[..i]) == Reading(depth, inString, escaped)
    {
      var character := value[i];
      AfterNext(START, value, i);
      if inString {
        if escaped {
          escaped := false;
        } else if character == '\\' {
          escaped := true;
        } else if character == '"' {
          inString := false;
        }
      } else if character == '"' {
        inString := true;
      } else if character == '[' || character == '{' {
        depth := depth + 1;
        if depth > MAX_NESTING {
          Stopped(START, value, i + 1);
          return LimitExceeded;
        }
      } else if character == ']' || character == '}' {
        depth := depth - 1;
        if depth < 0 {
          Stopped(START, value, i + 1);
          return NestingInvalid;
        }
      }
    }
    assert value[..|value|] == value;
    v := Accepted;
  }

  function VerdictOf(s: Scan): Verdict
  {
    match s
    case Reading(_, _, _) => Accepted
    case TooDeep => LimitExceeded
    case InvalidNesting => NestingInvalid
  }

  // ---------------------------------------------------------------------------
  // What the scan knows of the text
  // ---------------------------------------------------------------------------

  /** The state after the first `i` characters while no level was out of range. */
  ghost predicate ReadingRight(text: string, i: nat, s: Scan)
    requires i <= |text| && s.Reading?
  {
    && LevelsInRange(text, i) && s.depth == Level(text, i)
    && (s.inString <==> InString(text, i))
    && (s.escaped <==> InString(text, i) && Backslashes(text, i) % 2 == 1)
  }

  lemma {:induction false} OpeningsBefore(text: string, i: nat)
    requires i < |text|
    ensures forall a: nat :: OpenSince(text, a, i + 1) <==>
              (a == i && text[i] == '"' && !InString(text, i)) ||
              (OpenSince(text, a, i) && (text[i] == '"' ==> Backslashes(text, i) % 2 == 1))
  {
  }

  lemma {:induction false} Opening(text: string, i: nat) returns (a: nat)
    requires i <= |text| && InString(text, i)
    ensures OpenSince(text, a, i)
  {
    a :| OpenSince(text, a, i);
  }

  /** A quote outside strings opens one, and only an unescaped quote closes it. */
  lemma {:induction false} StringNext(text: string, i: nat)
    requires i < |text|
    ensures InString(text, i + 1) <==>
              if InString(text, i) then text[i] == '"' ==> Backslashes(text, i) % 2 == 1 else text[i] == '"'
  {
    OpeningsBefore(text, i);
    if InString(text, i + 1) {
      var a := Opening(text, i + 1);
      assert a == i || OpenSince(text, a, i);
    }
    if InString(text, i) {
      var a := Opening(text, i);
      assert (text[i] == '"' ==> Backslashes(text, i) % 2 == 1) ==> OpenSince(text, a, i + 1);
    } else {
      assert text[i] == '"' ==> OpenSince(text, i, i + 1);
    }
  }

  lemma {:induction false} ReadingNext(text: string, i: nat, s: Scan)
    requires i < |text| && s.Reading? && ReadingRight(text, i, s)
    ensures var next := Next(s, text[i]);
            if next.Reading? then ReadingRight(text, i + 1, next)
            else FirstOff(text, i + 1) && (if next.TooDeep? then Level(text, i + 1) > MAX_NESTING else Level(text, i + 1) < 0)
  {
    StringNext(text, i);
    assert Backslashes(text, i + 1) == if text[i] == '\\' then 1 + Backslashes(text, i) else 0;
  }

  lemma {:induction false} ScanByLevels(text: string, i: nat)
    requires i <= |text|
    ensures var s := After(START, text[..i]);
            if s.Reading? then ReadingRight(text, i, s)
            else exists n: nat :: n <= i && FirstOff(text, n) && (if s.TooDeep? then Level(text, n) > MAX_NESTING else Level(text, n) < 0)
  {
    if i == 0 {
      assert !InString(text, 0);
    } else {
      ScanByLevels(text, i - 1);
      AfterNext(START, text, i - 1);
      var before := After(START, text[..i - 1]);
      if before.Reading? {
        ReadingNext(text, i - 1, before);
      }
    }
  }

  lemma {:induction false} FirstIsOne(text: string, m: nat, n: nat)
    requires m <= |text| && n <= |text| && FirstOff(text, m) && FirstOff(text, n)
    ensures m == n
  {
  }

  lemma {:induction false} VerdictIsByLevels(text: string)
    ensures var v := VerdictOf(After(START, text));
            && (v.Accepted? <==> LevelsInRange(text, |text|))
            && (v.LimitExceeded? <==> exists n: nat :: n <= |text| && FirstOff(text, n) && Level(text, n) > MAX_NESTING)
            && (v.NestingInvalid? <==> exists n: nat :: n <= |text| && FirstOff(text, n) && Level(text, n) < 0)
  {
    assert text[..|text|] == text;
    ScanByLevels(text, |text|);
    forall m: nat, n: nat | m <= |text| && n <= |text| && FirstOff(text, m) && FirstOff(text, n)
      ensures m == n
    {
      FirstIsOne(text, m, n);
    }
  }

  lemma {:induction false} AfterNext(s: Scan, text: string, i: nat)
    requires i < |text|
    ensures After(s, text[..i + 1]) == Next(After(s, text[..i]), text[i])
  {
    assert text[..i + 1][..i] == text[..i];
  }

  lemma {:induction false} Stopped(s: Scan, text: string, n: nat)
    requires n <= |text| && !After(s, text[..n]).Reading?
    ensures After(s, text) == After(s, text[..n])
    decreases |text| - n
  {
    if n == |text| {
      assert text[..n] == text;
    } else {
      AfterNext(s, text, n);
      Stopped(s, text, n + 1);
    }
  }

  lemma {:induction false} AfterAppend(s: Scan, a: string, b: string)
    ensures After(s, a + b) == After(After(s, a), b)
    decreases |b|
  {
    if |b| == 0 {
      assert a + b == a;
    } else {
      assert (a + b)[..|a + b| - 1] == a + b[..|b| - 1];
      AfterAppend(s, a, b[..|b| - 1]);
    }
  }

  // ---------------------------------------------------------------------------
  // JSON values in compact form
  // ---------------------------------------------------------------------------

  /** `Number` holds the digits, sign, point and exponent as they are written. */
  datatype Value =
    | Null
    | Boolean(b: bool)
    | Number(text: string)
    | Text(s: string)
    | Array(items: seq<Value>)
    | Object(keys: seq<string>, values: seq<Value>)

  predicate NumberCharacter(c: char)
  {
    '0' <= c <= '9' || c == '-' || c == '+' || c == '.' || c == 'e' || c == 'E'
  }

  ghost predicate WellFormed(v: Value)
  {
    match v
    case Number(text) => forall i :: 0 <= i < |text| ==> NumberCharacter(text[i])
    case Array(items) => forall i :: 0 <= i < |items| ==> WellFormed(items[i])
    case Object(keys, values) => |keys| == |values| && forall i :: 0 <= i < |values| ==> WellFormed(values[i])
    case _ => true
  }

  function Hex(n: nat): char
    requires n < 16
  {
    if n < 10 then ('0' as int + n) as char else ('a' as int + n - 10) as char
  }

  /** Section 7 of RFC 8259: the quote, the backslash and the control characters. */
  function Escaped(c: char): string
  {
    if c == '"' then ['\\', '"']
    else if c == '\\' then ['\\', '\\']
    else if c == '\n' then "\\n"
    else if c == '\r' then "\\r"
    else if c == '\t' then "\\t"
    else if c == 8 as char then "\\b"
    else if c == 12 as char then "\\f"
    else if c < ' ' then ['\\', 'u', '0', '0', Hex(c as int / 16), Hex(c as int % 16)]
    else [c]
  }

  function Inside(s: string): string
  {
    if |s| == 0 then "" else Inside(s[..|s| - 1]) + Escaped(s[|s| - 1])
  }

  function Quoted(s: string): string
  {
    ['"'] + Inside(s) + ['"']
  }

  function Print(v: Value): string
  {
    match v
    case Null => "null"
    case Boolean(b) => if b then "true" else "false"
    case Number(text) => text
    case Text(s) => Quoted(s)
    case Array(items) => "[" + PrintItems(items, |items|) + "]"
    case Object(keys, values) => "{" + PrintMembers(keys, values, |values|) + "}"
  }

  function PrintItems(items: seq<Value>, n: nat): string
    requires n <= |items|
    decreases items, n
  {
    if n == 0 then "" else PrintItems(items, n - 1) + (if n > 1 then "," else "") + Print(items[n - 1])
  }

  /** What stands before the n-th value of an object. */
  function MemberHead(keys: seq<string>, n: nat): string
    requires n > 0
  {
    (if n > 1 then "," else "") + if n <= |keys| then Quoted(keys[n - 1]) + ":" else ""
  }

  function PrintMembers(keys: seq<string>, values: seq<Value>, n: nat): string
    requires n <= |values|
    decreases values, n
  {
    if n == 0 then "" else PrintMembers(keys, values, n - 1) + MemberHead(keys, n) + Print(values[n - 1])
  }

  /** Containers inside one another, the outermost included. */
  function Depth(v: Value): nat
  {
    match v
    case Array(items) => 1 + DepthUpTo(items, |items|)
    case Object(_, values) => 1 + DepthUpTo(values, |values|)
    case _ => 0
  }

  function DepthUpTo(values: seq<Value>, n: nat): nat
    requires n <= |values|
    decreases values, n
  {
    if n == 0 then 0
    else
      var before, last := DepthUpTo(values, n - 1), Depth(values[n - 1]);
      if before >= last then before else last
  }

  // ---------------------------------------------------------------------------
  // The scan of a printed value
  // ---------------------------------------------------------------------------

  predicate Outside(s: Scan)
  {
    s.Reading? && !s.inString && !s.escaped && s.depth <= MAX_NESTING
  }

  /** What the scan makes of a text that nests `d` deep: back where it was, or too deep. */
  function Nested(s: Scan, d: nat): Scan
    requires Outside(s)
  {
    if s.depth + d <= MAX_NESTING then s else TooDeep
  }

  predicate Neutral(c: char)
  {
    c != '"' && c != '[' && c != ']' && c != '{' && c != '}'
  }

  lemma {:induction false} NeutralText(s: Scan, text: string)
    requires Outside(s) && forall i :: 0 <= i < |text| ==> Neutral(text[i])
    ensures After(s, text) == s
    decreases |text|
  {
    if |text| > 0 {
      NeutralText(s, text[..|text| - 1]);
    }
  }

  lemma {:induction false} One(s: Scan, c: char)
    ensures After(s, [c]) == Next(s, c)
  {
    assert [c][..0] == "";
    assert After(s, "") == s;
  }

  lemma {:induction false} Two(s: Scan, a: char, b: char)
    ensures After(s, [a, b]) == Next(Next(s, a), b)
  {
    One(s, a);
    assert [a, b][..1] == [a];
  }

  /** Inside a string no printed character changes the state. */
  lemma {:induction false} EscapedStaysInside(depth: nat, c: char)
    ensures var s := Reading(depth, true, false); After(s, Escaped(c)) == s
  {
    var s := Reading(depth, true, false);
    var e := Escaped(c);
    if |e| == 1 {
      One(s, c);
    } else {
      Two(s, e[0], e[1]);
      if |e| == 2 {
        assert e == [e[0], e[1]];
      } else {
        assert e == [e[0], e[1]] + e[2..];
        AfterAppend(s, [e[0], e[1]], e[2..]);
        QuietInside(s, e[2..]);
      }
    }
  }

  lemma {:induction false} QuietInside(s: Scan, text: string)
    requires s.Reading? && s.inString && !s.escaped
    requires forall i :: 0 <= i < |text| ==> text[i] != '"' && text[i] != '\\'
    ensures After(s, text) == s
    decreases |text|
  {
    if |text| > 0 {
      QuietInside(s, text[..|text| - 1]);
    }
  }

  lemma {:induction false} InsideStaysInside(depth: nat, text: string)
    ensures var s := Reading(depth, true, false); After(s, Inside(text)) == s
    decreases |text|
  {
    if |text| > 0 {
      var s := Reading(depth, true, false);
      InsideStaysInside(depth, text[..|text| - 1]);
      AfterAppend(s, Inside(text[..|text| - 1]), Escaped(text[|text| - 1]));
      EscapedStaysInside(depth, text[|text| - 1]);
    }
  }

  lemma {:induction false} QuotedIsNeutral(s: Scan, text: string)
    requires Outside(s)
    ensures After(s, Quoted(text)) == s
  {
    var inside := s.(inString := true);
    One(s, '"');
    One(inside, '"');
    AfterAppend(s, ['"'], Inside(text));
    InsideStaysInside(s.depth, text);
    AfterAppend(s, ['"'] + Inside(text), ['"']);
  }

  /** The scan of a printed value depends only on how deep the value is nested. */
  lemma {:induction false} ScanOfPrinted(s: Scan, v: Value)
    requires Outside(s) && WellFormed(v)
    ensures After(s, Print(v)) == Nested(s, Depth(v))
    decreases v, 0
  {
    match v {
      case Null => NeutralText(s, Print(v));
      case Boolean(b) => NeutralText(s, if b then "true" else "false");
      case Number(text) =>
        assert forall i :: 0 <= i < |text| ==> NumberCharacter(text[i]);
        NeutralText(s, Print(v));
      case Text(t) => QuotedIsNeutral(s, t);
      case Array(items) =>
        if s.depth < MAX_NESTING {
          ScanOfItems(s.(depth := s.depth + 1), items, |items|);
        }
        Bracketed(s, '[', PrintItems(items, |items|), ']', DepthUpTo(items, |items|));
      case Object(keys, values) =>
        if s.depth < MAX_NESTING {
          ScanOfMembers(s.(depth := s.depth + 1), keys, values, |values|);
        }
        Bracketed(s, '{', PrintMembers(keys, values, |values|), '}', DepthUpTo(values, |values|));
    }
  }

  lemma {:induction false} Bracketed(s: Scan, open: char, body: string, close: char, d: nat)
    requires Outside(s) && (open == '[' || open == '{') && (close == ']' || close == '}')
    requires s.depth < MAX_NESTING ==> After(s.(depth := s.depth + 1), body) == Nested(s.(depth := s.depth + 1), d)
    ensures After(s, [open] + body + [close]) == Nested(s, d + 1)
  {
    One(s, open);
    AfterAppend(s, [open], body);
    AfterAppend(s, [open] + body, [close]);
    var inner := Next(s, open);
    if s.depth < MAX_NESTING {
      One(After(inner, body), close);
    } else {
      StaysTooDeep(body);
      StaysTooDeep([close]);
    }
  }

  lemma {:induction false} StaysTooDeep(text: string)
    ensures After(TooDeep, text) == TooDeep
    decreases |text|
  {
    if |text| > 0 {
      StaysTooDeep(text[..|text| - 1]);
    }
  }

  /** Adding a piece that nests `d` deep to a text that nests `before` deep. */
  lemma {:induction false} PieceAdded(s: Scan, text: string, before: nat, separator: string, piece: string, d: nat)
    requires Outside(s) && After(s, text) == Nested(s, before)
    requires After(s, separator) == s && After(s, piece) == Nested(s, d)
    ensures After(s, text + separator + piece) == Nested(s, if before >= d then before else d)
  {
    AfterAppend(s, text, separator);
    AfterAppend(s, text + separator, piece);
    if s.depth + before > MAX_NESTING {
      StaysTooDeep(separator);
      StaysTooDeep(piece);
    }
  }

  lemma {:induction false} ScanOfItems(s: Scan, items: seq<Value>, n: nat)
    requires Outside(s) && n <= |items| && forall i :: 0 <= i < |items| ==> WellFormed(items[i])
    ensures After(s, PrintItems(items, n)) == Nested(s, DepthUpTo(items, n))
    decreases items, n
  {
    if n > 0 {
      var separator := if n > 1 then "," else "";
      ScanOfItems(s, items, n - 1);
      ScanOfPrinted(s, items[n - 1]);
      NeutralText(s, separator);
      PieceAdded(s, PrintItems(items, n - 1), DepthUpTo(items, n - 1), separator, Print(items[n - 1]), Depth(items[n - 1]));
    }
  }

  lemma {:induction false} ScanOfMembers(s: Scan, keys: seq<string>, values: seq<Value>, n: nat)
    requires Outside(s) && n <= |values| == |keys| && forall i :: 0 <= i < |values| ==> WellFormed(values[i])
    ensures After(s, PrintMembers(keys, values, n)) == Nested(s, DepthUpTo(values, n))
    decreases values, n
  {
    if n > 0 {
      ScanOfMembers(s, keys, values, n - 1);
      ScanOfPrinted(s, values[n - 1]);
      HeadIsNeutral(s, keys, n);
      PieceAdded(s, PrintMembers(keys, values, n - 1), DepthUpTo(values, n - 1), MemberHead(keys, n), Print(values[n - 1]), Depth(values[n - 1]));
    }
  }

  lemma {:induction false} HeadIsNeutral(s: Scan, keys: seq<string>, n: nat)
    requires Outside(s) && 0 < n <= |keys|
    ensures After(s, MemberHead(keys, n)) == s
  {
    var separator := if n > 1 then "," else "";
    NeutralText(s, separator);
    QuotedIsNeutral(s, keys[n - 1]);
    AfterAppend(s, Quoted(keys[n - 1]), ":");
    NeutralText(s, ":");
    AfterAppend(s, separator, Quoted(keys[n - 1]) + ":");
  }

  /** A printed value is rejected exactly when it is nested more than 64 deep; it is never
      called invalid, and the scan of an accepted one ends outside strings at depth zero,
      whatever brackets, quotes and backslashes its strings contain. */
  lemma {:induction false} PrintedValuesScanByDepth(v: Value)
    requires WellFormed(v)
    ensures After(START, Print(v)) == if Depth(v) <= MAX_NESTING then START else TooDeep
  {
    ScanOfPrinted(START, v);
  }

  lemma {:induction false} VerdictOfPrinted(text: string)
    ensures forall w :: WellFormed(w) && Print(w) == text ==>
              VerdictOf(After(START, text)) == if Depth(w) <= MAX_NESTING then Accepted else LimitExceeded
  {
    forall w | WellFormed(w) && Print(w) == text
      ensures VerdictOf(After(START, text)) == if Depth(w) <= MAX_NESTING then Accepted else LimitExceeded
    {
      PrintedValuesScanByDepth(w);
    }
  }
}
