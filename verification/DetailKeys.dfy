/** Keys of sanitized error details: bounded length and renaming of collisions. */
module DetailKeys {
  import opened Collections
  import opened Decimals

  const MAX_TEXT := 4096
  const TRUNCATED := "[TRUNCATED]"
  const MAX_KEY := MAX_TEXT + 11

  function Suffix(n: nat): string
  {
    "#" + Decimal(n)
  }

  predicate EndsTruncated(key: string)
  {
    |key| >= |TRUNCATED| && key[|key| - |TRUNCATED|..] == TRUNCATED
  }

  /** Python's `key[:length]`, where a negative length counts from the end. */
  function Take(key: string, length: int): string
  {
    if length >= |key| then key
    else if length >= 0 then key[..length]
    else if |key| + length > 0 then key[..|key| + length] else ""
  }

  function Prefix(key: string, n: nat): string
  {
    Take(key, MAX_KEY - (if EndsTruncated(key) then |TRUNCATED| else 0) - |Suffix(n)|)
  }

  /** The n-th name tried for a key that is already taken. */
  function Candidate(key: string, n: nat): string
  {
    Prefix(key, n) + Suffix(n) + if EndsTruncated(key) then TRUNCATED else ""
  }

  lemma {:induction false} SuffixShape(a: string, n: nat, s: string)
    requires s == a + Suffix(n)
    ensures |s| > |Decimal(n)| && s[|s| - |Decimal(n)|..] == Decimal(n)
    ensures s[|s| - |Decimal(n)| - 1] == '#'
    ensures forall i :: |s| - |Decimal(n)| <= i < |s| ==> s[i] != '#'
  {
    DecimalIsDigits(n);
    assert forall i :: |s| - |Decimal(n)| <= i < |s| ==> s[i] == Decimal(n)[i - |s| + |Decimal(n)|];
  }

  /** What follows the last number sign tells the numbers apart. */
  lemma {:induction false} SuffixesDiffer(a: string, m: nat, b: string, n: nat)
    requires a + Suffix(m) == b + Suffix(n)
    ensures m == n
  {
    SuffixShape(a, m, a + Suffix(m));
    SuffixShape(b, n, a + Suffix(m));
    assert |Decimal(m)| == |Decimal(n)|;
    DecimalInjective(m, n);
  }

  lemma {:induction false} CandidatesDiffer(key: string, m: nat, n: nat)
    requires m != n
    ensures Candidate(key, m) != Candidate(key, n)
  {
    if Candidate(key, m) == Candidate(key, n) {
      var tail := if EndsTruncated(key) then TRUNCATED else "";
      var a, b := Prefix(key, m) + Suffix(m), Prefix(key, n) + Suffix(n);
      assert a == (a + tail)[..|a + tail| - |tail|] && b == (b + tail)[..|b + tail| - |tail|];
      SuffixesDiffer(Prefix(key, m), m, Prefix(key, n), n);
    }
  }

  /** A renaming keeps as much of the key as fits before its number. */
  lemma {:induction false} CandidateKeepsKey(key: string, n: nat) returns (kept: string)
    requires n < 1000
    ensures kept <= key
    ensures Candidate(key, n) ==
            kept + "#" + Decimal(n) + if |key| >= 11 && key[|key| - 11..] == "[TRUNCATED]" then "[TRUNCATED]" else ""
    ensures kept == key || |Candidate(key, n)| == 4107
  {
    DecimalLength(n);
    kept := Prefix(key, n);
  }

  lemma {:induction false} CandidateIsShort(key: string, n: nat)
    requires n < 1000
    ensures |Candidate(key, n)| <= MAX_KEY
  {
    DecimalLength(n);
  }

  /** The key itself, or the first free one of its renamings. */
  ghost predicate IsFree(key: string, existing: set<string>, name: string)
  {
    && name !in existing
    && (name == key || (key in existing && exists n: nat :: FirstFreeNumber(key, existing, name, n)))
  }

  ghost predicate FirstFreeNumber(key: string, existing: set<string>, name: string, n: nat)
  {
    n >= 2 && name == Candidate(key, n) && forall m: nat :: 2 <= m < n ==> Candidate(key, m) in existing
  }

  /** The names with numbers below `n`. */
  ghost function Tried(key: string, n: nat): set<string>
    requires n >= 2
  {
    if n == 2 then {} else Tried(key, n - 1) + {Candidate(key, n - 1)}
  }

  lemma {:induction false} TriedAreDistinct(key: string, n: nat, later: nat)
    requires 2 <= n <= later
    ensures Candidate(key, later) !in Tried(key, n) && |Tried(key, n)| == n - 2
    decreases n
  {
    if n > 2 {
      TriedAreDistinct(key, n - 1, later);
      TriedAreDistinct(key, n - 1, n - 1);
      CandidatesDiffer(key, n - 1, later);
    }
  }

  lemma {:induction false} TriedFit(key: string, n: nat, existing: set<string>)
    requires n >= 2 && Tried(key, n) <= existing
    ensures n - 2 <= |existing|
  {
    TriedAreDistinct(key, n, n);
    SubsetSize(Tried(key, n), existing);
  }

  /** The rename loop ends: after |existing| names at the latest a name is free. */
  method Deduplicate(key: string, existing: set<string>) returns (name: string)
    ensures IsFree(key, existing, name)
    ensures |key| <= MAX_KEY && |existing| < 900 ==> |name| <= MAX_KEY
    ensures key in existing ==> exists n: nat :: n <= |existing| + 2 && FirstFreeNumber(key, existing, name, n)
  {
    if key !in existing {
      return key;
    }
    var number: nat := 2;
    name := Candidate(key, number);
    while name in existing
      invariant number >= 2 && name == Candidate(key, number)
      invariant Tried(key, number) <= existing && number - 2 <= |existing|
      invariant forall m: nat :: 2 <= m < number ==> Candidate(key, m) in existing
      decreases |existing| + 2 - number
    {
      TriedFit(key, number + 1, existing);
      number := number + 1;
      name := Candidate(key, number);
    }
    if number < 1000 {
      CandidateIsShort(key, number);
    }
    assert FirstFreeNumber(key, existing, name, number);
  }
}
