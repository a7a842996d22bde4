/** Facts about sequences, their element sets and their duplicates. */
module Collections {

  function Elements<T(==)>(s: seq<T>): set<T>
  {
    set x | x in s
  }

  ghost predicate Distinct<T>(s: seq<T>)
  {
    forall i, j :: 0 <= i < j < |s| ==> s[i] != s[j]
  }

  lemma {:induction false} DistinctFitsInSet<T>(s: seq<T>, all: set<T>)
    requires Distinct(s) && forall x :: x in s ==> x in all
    ensures |s| <= |all|
    decreases |s|
  {
    if |s| > 0 {
      var last := s[|s| - 1];
      var front := s[..|s| - 1];
      assert forall x :: x in front ==> x in s;
      assert last !in front;
      DistinctFitsInSet(front, all - {last});
    }
  }

  lemma {:induction false} RepeatedElement<T>(front: seq<T>, last: T)
    requires last in front
    ensures Elements(front + [last]) == Elements(front) && !Distinct(front + [last])
  {
    var i :| 0 <= i < |front| && front[i] == last;
    assert (front + [last])[i] == (front + [last])[|front|];
  }

  lemma {:induction false} NewElement<T>(front: seq<T>, last: T)
    requires last !in front
    ensures Elements(front + [last]) == Elements(front) + {last}
    ensures Distinct(front + [last]) <==> Distinct(front)
  {
    var s := front + [last];
    assert forall i :: 0 <= i < |front| ==> s[i] == front[i] && front[i] in front;
    if !Distinct(front) {
      var i, j :| 0 <= i < j < |front| && front[i] == front[j];
      assert s[i] == s[j];
    }
  }

  /** Comparing the number of elements with the length detects duplicates. */
  lemma {:induction false} CountDetectsDuplicates<T>(s: seq<T>)
    ensures |Elements(s)| <= |s|
    ensures |Elements(s)| == |s| <==> Distinct(s)
    decreases |s|
  {
    if |s| > 0 {
      var last := s[|s| - 1];
      var front := s[..|s| - 1];
      CountDetectsDuplicates(front);
      assert s == front + [last];
      if last in front {
        RepeatedElement(front, last);
      } else {
        NewElement(front, last);
      }
    }
  }

  lemma {:induction false} PrefixNext<T>(s: seq<T>, i: nat)
    requires i < |s|
    ensures s[..i + 1] == s[..i] + [s[i]]
  {
  }

  lemma {:induction false} MultisetOfPop<T>(s: seq<T>)
    requires |s| > 0
    ensures multiset(s) == multiset(s[..|s| - 1]) + multiset{s[|s| - 1]}
  {
    assert s == s[..|s| - 1] + [s[|s| - 1]];
  }

  lemma {:induction false} MultisetOfAppend<T>(s: seq<T>, x: T)
    ensures multiset(s + [x]) == multiset(s) + multiset{x}
  {
  }

  lemma {:induction false} ElementsOfAppend<T>(s: seq<T>, x: T)
    ensures Elements(s + [x]) == Elements(s) + {x}
  {
  }

  lemma {:induction false} ElementsOfPop<T>(s: seq<T>)
    requires |s| > 0
    ensures Elements(s) == Elements(s[..|s| - 1]) + {s[|s| - 1]}
  {
    assert s == s[..|s| - 1] + [s[|s| - 1]];
  }

  lemma {:induction false} DistinctAppend<T>(s: seq<T>, x: T)
    requires Distinct(s) && x !in s
    ensures Distinct(s + [x])
  {
  }

  lemma {:induction false} DistinctPop<T>(s: seq<T>)
    requires Distinct(s) && |s| > 0
    ensures Distinct(s[..|s| - 1]) && s[|s| - 1] !in s[..|s| - 1]
    ensures Elements(s[..|s| - 1]) == Elements(s) - {s[|s| - 1]}
  {
    ElementsOfPop(s);
  }

  lemma {:induction false} SubsetSize<T>(a: set<T>, b: set<T>)
    requires a <= b
    ensures |a| <= |b|
  {
    assert b == a + (b - a);
  }

  lemma {:induction false} OneMoreOf<T>(all: set<T>, done: set<T>, x: T)
    requires done <= all && x in all && x !in done
    ensures done + {x} <= all
    ensures |done + {x}| == |done| + 1
    ensures |all - (done + {x})| == |all - done| - 1
  {
    assert all - (done + {x}) == (all - done) - {x};
  }

  lemma {:induction false} DisjointBySeparation<T>(a: set<T>, b: set<T>, around: set<T>)
    requires a <= around && b * around == {}
    ensures a !! b
  {
    forall x | x in a
      ensures x !in b
    {
      assert x in around && x !in b * around;
    }
  }
}
