/** JSON Pointers (RFC 6901): printing a path, accepting a pointer, and reading it back. */
module JsonPointer {
  import opened Wrappers
  import opened Decimals

  const MAX_LENGTH := 4096
  const MAX_OCCURRENCES := 4096

  datatype Part = Name(s: string) | Index(n: nat)

  function Text(p: Part): string
  {
    match p
    case Name(s) => s
    case Index(n) => Decimal(n)
  }

  /** `str.replace` of one character. */
  function Replaced(s: string, c: char, put: string): string
  {
    if |s| == 0 then "" else (if s[0] == c then put else [s[0]]) + Replaced(s[1..], c, put)
  }

  function Escape(s: string): string
  {
    Replaced(Replaced(s, '~', "~0"), '/', "~1")
  }

  function PointerUpTo(parts: seq<Part>, n: nat): string
    requires n <= |parts|
  {
    if n == 0 then "" else PointerUpTo(parts, n - 1) + "/" + Escape(Text(parts[n - 1]))
  }

  function Pointer(parts: seq<Part>): string
  {
    PointerUpTo(parts, |parts|)
  }

  // ---------------------------------------------------------------------------
  // The acceptor
  // ---------------------------------------------------------------------------

  function Slashes(s: string): nat
  {
    if |s| == 0 then 0 else (if s[0] == '/' then 1 else 0) + Slashes(s[1..])
  }

  /** Section 3 of RFC 6901: a tilde only in front of 0 or 1. */
  ghost predicate TildesEscape(s: string)
  {
    forall i :: 0 <= i < |s| && s[i] == '~' ==> i + 1 < |s| && (s[i + 1] == '0' || s[i + 1] == '1')
  }

  ghost predicate Acceptable(pointer: string, occurrences: Option<seq<Option<nat>>>)
  {
    && |pointer| <= MAX_LENGTH
    && (pointer != "" ==> pointer[0] == '/')
    && TildesEscape(pointer)
    && (occurrences.Some? ==> |occurrences.value| <= MAX_OCCURRENCES && |occurrences.value| == Slashes(pointer))
  }

  method CountSlashes(s: string) returns (n: nat)
    ensures n == Slashes(s)
  {
    n := 0;
    for i := 0 to |s|
      invariant n + Slashes(s[i..]) == Slashes(s)
    {
      assert s[i..][1..] == s[i + 1..];
      if s[i] == '/' {
        n := n + 1;
      }
    }
  }

  /** The declared bounds of `JsonPointerLocation`, then its `_validate_pointer`. */
  method ValidatePointer(pointer: string, occurrences: Option<seq<Option<nat>>>) returns (ok: bool)
    ensures ok <==> Acceptable(pointer, occurrences)
  {
    if |pointer| > MAX_LENGTH || (occurrences.Some? && |occurrences.value| > MAX_OCCURRENCES) {
      return false;
    }
    if pointer != "" && pointer[0] != '/' {
      return false;
    }
    var position := 0;
    while position < |pointer|
      invariant 0 <= position <= |pointer|
      invariant forall i :: 0 <= i < position && pointer[i] == '~' ==> i + 1 < |pointer| && (pointer[i + 1] == '0' || pointer[i + 1] == '1')
    {
      if pointer[position] != '~' {
        position := position + 1;
        continue;
      }
      if position + 1 >= |pointer| || (pointer[position + 1] != '0' && pointer[position + 1] != '1') {
        return false;
      }
      position := position + 2;
    }
    if occurrences.Some? {
      var segments := CountSlashes(pointer);
      return |occurrences.value| == segments;
    }
    return true;
  }

  // ---------------------------------------------------------------------------
  // Reading a pointer
  // ---------------------------------------------------------------------------

  /** Section 4 of RFC 6901: first every ~1 becomes a slash, then every ~0 a tilde. */
  function PairReplaced(s: string, b: char, put: char): string
  {
    if |s| == 0 then ""
    else if |s| >= 2 && s[0] == '~' && s[1] == b then [put] + PairReplaced(s[2..], b, put)
    else [s[0]] + PairReplaced(s[1..], b, put)
  }

  function Unescape(token: string): string
  {
    PairReplaced(PairReplaced(token, '1', '/'), '0', '~')
  }

  /** The tokens between slashes; a text without slash is one token. */
  function Split(s: string): seq<string>
  {
    if |s| == 0 then [""]
    else
      var rest := Split(s[1..]);
      if s[0] == '/' then [""] + rest else [[s[0]] + rest[0]] + rest[1..]
  }

  function UnescapeAll(tokens: seq<string>): seq<string>
  {
    seq(|tokens|, i requires 0 <= i < |tokens| => Unescape(tokens[i]))
  }

  function Decode(pointer: string): Option<seq<string>>
  {
    if pointer == "" then Some([])
    else if pointer[0] != '/' then None
    else Some(UnescapeAll(Split(pointer[1..])))
  }

  // ---------------------------------------------------------------------------
  // Escapes
  // ---------------------------------------------------------------------------

  /** Both replacements at once, character by character. */
  function EscapedEach(s: string): string
  {
    if |s| == 0 then ""
    else (if s[0] == '~' then "~0" else if s[0] == '/' then "~1" else [s[0]]) + EscapedEach(s[1..])
  }

  function TildesDoubled(s: string): string
  {
    Replaced(s, '~', "~0")
  }

  lemma {:induction false} ReplacedAppend(a: string, b: string, c: char, put: string)
    ensures Replaced(a + b, c, put) == Replaced(a, c, put) + Replaced(b, c, put)
    decreases |a|
  {
    if |a| == 0 {
      assert a + b == b;
    } else {
      assert (a + b)[1..] == a[1..] + b;
      ReplacedAppend(a[1..], b, c, put);
    }
  }

  lemma {:induction false} EscapeIsEach(s: string)
    ensures Escape(s) == EscapedEach(s)
    decreases |s|
  {
    if |s| > 0 {
      EscapeIsEach(s[1..]);
      var head := if s[0] == '~' then "~0" else [s[0]];
      ReplacedAppend(head, Replaced(s[1..], '~', "~0"), '/', "~1");
      assert Replaced(head, '/', "~1") == if s[0] == '~' then "~0" else if s[0] == '/' then "~1" else [s[0]] by {
        if s[0] == '~' {
          assert head[1..] == "0" && "0"[1..] == "";
        } else {
          assert head[1..] == "";
        }
      }
    }
  }

  lemma {:induction false} SlashesComeBack(s: string)
    ensures PairReplaced(EscapedEach(s), '1', '/') == TildesDoubled(s)
    decreases |s|
  {
    if |s| > 0 {
      var e, rest := EscapedEach(s), EscapedEach(s[1..]);
      SlashesComeBack(s[1..]);
      if s[0] == '~' {
        assert e == "~0" + rest;
        TildeStays(rest);
      } else if s[0] == '/' {
        assert e[2..] == rest;
      } else {
        assert e[1..] == rest;
      }
    }
  }

  lemma {:induction false} TildeStays(rest: string)
    ensures PairReplaced("~0" + rest, '1', '/') == "~0" + PairReplaced(rest, '1', '/')
  {
    var e := "~0" + rest;
    assert e[1..][0] == '0' && e[1..][1..] == rest;
    assert PairReplaced(e[1..], '1', '/') == "0" + PairReplaced(rest, '1', '/');
  }

  lemma {:induction false} TildesComeBack(s: string)
    ensures PairReplaced(TildesDoubled(s), '0', '~') == s
    decreases |s|
  {
    if |s| > 0 {
      var t, rest := TildesDoubled(s), TildesDoubled(s[1..]);
      TildesComeBack(s[1..]);
      if s[0] == '~' {
        assert t[2..] == rest;
      } else {
        assert t[1..] == rest;
      }
      assert s == [s[0]] + s[1..];
    }
  }

  lemma {:induction false} UnescapeEscape(s: string)
    ensures Unescape(Escape(s)) == s
  {
    EscapeIsEach(s);
    SlashesComeBack(s);
    TildesComeBack(s);
  }

  lemma {:induction false} EscapedHasNoSlash(s: string)
    ensures forall i :: 0 <= i < |Escape(s)| ==> Escape(s)[i] != '/'
    ensures TildesEscape(Escape(s))
    decreases |s|
  {
    EscapeIsEach(s);
    if |s| > 0 {
      EscapedHasNoSlash(s[1..]);
      EscapeIsEach(s[1..]);
      var head := if s[0] == '~' then "~0" else if s[0] == '/' then "~1" else [s[0]];
      assert Escape(s) == head + Escape(s[1..]);
      TildesAppend(head, Escape(s[1..]));
    }
  }

  lemma {:induction false} TildesAppend(a: string, b: string)
    requires TildesEscape(a) && TildesEscape(b)
    ensures TildesEscape(a + b)
  {
    forall i | 0 <= i < |a + b| && (a + b)[i] == '~'
      ensures i + 1 < |a + b| && ((a + b)[i + 1] == '0' || (a + b)[i + 1] == '1')
    {
      if i >= |a| {
        assert b[i - |a|] == '~';
      }
    }
  }

  // ---------------------------------------------------------------------------
  // Printed pointers
  // ---------------------------------------------------------------------------

  lemma {:induction false} SlashesAppend(a: string, b: string)
    ensures Slashes(a + b) == Slashes(a) + Slashes(b)
    decreases |a|
  {
    if |a| == 0 {
      assert a + b == b;
    } else {
      assert (a + b)[1..] == a[1..] + b;
      SlashesAppend(a[1..], b);
    }
  }

  lemma {:induction false} NoSlashes(s: string)
    requires forall i :: 0 <= i < |s| ==> s[i] != '/'
    ensures Slashes(s) == 0
    decreases |s|
  {
    if |s| > 0 {
      NoSlashes(s[1..]);
    }
  }

  lemma {:induction false} PrintedShape(parts: seq<Part>, n: nat)
    requires n <= |parts|
    ensures var p := PointerUpTo(parts, n);
            Slashes(p) == n && TildesEscape(p) && (if n == 0 then p == "" else p != "" && p[0] == '/')
  {
    if n > 0 {
      var front, token := PointerUpTo(parts, n - 1), Escape(Text(parts[n - 1]));
      PrintedShape(parts, n - 1);
      EscapedHasNoSlash(Text(parts[n - 1]));
      SlashesAppend(front, "/");
      SlashesAppend(front + "/", token);
      NoSlashes(token);
      assert Slashes("/") == 1 + Slashes("/"[1..]);
      TildesAppend(front, "/");
      TildesAppend(front + "/", token);
    }
  }

  /** The characters of a text that are escaped. */
  function Specials(s: string): nat
  {
    if |s| == 0 then 0 else (if s[0] == '~' || s[0] == '/' then 1 else 0) + Specials(s[1..])
  }

  /** What the first parts take in print: each a slash, its text, and one more character for
      every tilde or slash in it. */
  function Width(parts: seq<Part>, n: nat): nat
    requires n <= |parts|
  {
    if n == 0 then 0 else Width(parts, n - 1) + 1 + |Text(parts[n - 1])| + Specials(Text(parts[n - 1]))
  }

  lemma {:induction false} EscapedLength(s: string)
    ensures |EscapedEach(s)| == |s| + Specials(s)
    decreases |s|
  {
    if |s| > 0 {
      EscapedLength(s[1..]);
    }
  }

  lemma {:induction false} PrintedLength(parts: seq<Part>, n: nat)
    requires n <= |parts|
    ensures |PointerUpTo(parts, n)| == Width(parts, n)
  {
    if n > 0 {
      PrintedLength(parts, n - 1);
      EscapeIsEach(Text(parts[n - 1]));
      EscapedLength(Text(parts[n - 1]));
    }
  }

  /** Every printed pointer has one slash per part, so an occurrence path of that length
      fits it, and it is accepted exactly when its parts are not too wide together. */
  lemma {:induction false} PrintedIsAccepted(parts: seq<Part>, occurrences: Option<seq<Option<nat>>>)
    ensures Slashes(Pointer(parts)) == |parts|
    ensures |Pointer(parts)| == Width(parts, |parts|)
    ensures Acceptable(Pointer(parts), occurrences) <==>
              Width(parts, |parts|) <= 4096 && (occurrences.Some? ==> |occurrences.value| == |parts| <= 4096)
  {
    PrintedShape(parts, |parts|);
    PrintedLength(parts, |parts|);
  }

  /** A path of one long name is printed, but its pointer is refused. */
  lemma {:induction false} LongNameIsRefused()
    ensures var name := seq(4096, (i: nat) => 'a');
            !Acceptable(Pointer([Name(name)]), None)
  {
    var parts := [Name(seq(MAX_LENGTH, (i: nat) => 'a'))];
    assert Width(parts, 0) == 0;
    assert Width(parts, 1) > MAX_LENGTH;
    PrintedIsAccepted(parts, None);
  }

  // ---------------------------------------------------------------------------
  // Round trip
  // ---------------------------------------------------------------------------

  lemma {:induction false} SplitOne(s: string)
    requires forall i :: 0 <= i < |s| ==> s[i] != '/'
    ensures Split(s) == [s]
    decreases |s|
  {
    if |s| > 0 {
      SplitOne(s[1..]);
      assert s == [s[0]] + s[1..];
    }
  }

  lemma {:induction false} SplitAtSlash(a: string, b: string)
    requires forall i :: 0 <= i < |b| ==> b[i] != '/'
    ensures Split(a + "/" + b) == Split(a) + [b]
    decreases |a|
  {
    var all := a + "/" + b;
    if |a| == 0 {
      assert all[1..] == b;
      SplitOne(b);
    } else {
      assert all[1..] == a[1..] + "/" + b;
      SplitAtSlash(a[1..], b);
      var rest := Split(a[1..]);
      assert (rest + [b])[0] == rest[0] && (rest + [b])[1..] == rest[1..] + [b];
    }
  }

  function Texts(parts: seq<Part>, n: nat): seq<string>
    requires n <= |parts|
  {
    if n == 0 then [] else Texts(parts, n - 1) + [Text(parts[n - 1])]
  }

  lemma {:induction false} DecodeOne(token: string, text: string)
    requires (forall i :: 0 <= i < |token| ==> token[i] != '/') && Unescape(token) == text
    ensures Decode("/" + token) == Some([text])
  {
    var p := "/" + token;
    assert p[0] == '/' && p[1..] == token;
    SplitOne(token);
    assert UnescapeAll([token]) == [text];
  }

  lemma {:induction false} DecodeNext(front: string, texts: seq<string>, token: string, text: string)
    requires front != "" && Decode(front) == Some(texts)
    requires (forall i :: 0 <= i < |token| ==> token[i] != '/') && Unescape(token) == text
    ensures Decode(front + "/" + token) == Some(texts + [text])
  {
    var p := front + "/" + token;
    assert p[0] == front[0] && p[1..] == front[1..] + "/" + token;
    SplitAtSlash(front[1..], token);
    assert UnescapeAll(Split(front[1..]) + [token]) == UnescapeAll(Split(front[1..])) + [text];
  }

  lemma {:induction false} DecodeUpTo(parts: seq<Part>, n: nat)
    requires n <= |parts|
    ensures Decode(PointerUpTo(parts, n)) == Some(Texts(parts, n))
  {
    if n > 0 {
      var front, token := PointerUpTo(parts, n - 1), Escape(Text(parts[n - 1]));
      DecodeUpTo(parts, n - 1);
      PrintedShape(parts, n - 1);
      EscapedHasNoSlash(Text(parts[n - 1]));
      UnescapeEscape(Text(parts[n - 1]));
      if n == 1 {
        assert front + "/" + token == "/" + token && Texts(parts, 0) == [];
        assert [] + [Text(parts[0])] == [Text(parts[0])];
        DecodeOne(token, Text(parts[0]));
      } else {
        DecodeNext(front, Texts(parts, n - 1), token, Text(parts[n - 1]));
      }
    }
  }

  /** Reading a printed pointer gives back the texts of its parts. */
  lemma {:induction false} PointerRoundTrip(parts: seq<Part>)
    ensures Decode(Pointer(parts)) == Some(Texts(parts, |parts|))
  {
    DecodeUpTo(parts, |parts|);
  }
}
