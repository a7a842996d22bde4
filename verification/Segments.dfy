/** Pieces of tables and trees that arrive in a stream, and the cursor per key that checks
    them one at a time. */
module Segments {
  /** A piece covers the positions `start` up to, but not including, `next`. */
  datatype Piece<M> = Piece(key: string, index: nat, start: nat, next: nat, last: bool, kind: string, content: seq<M>)

  /** The pieces of one key, in stream order. */
  function Of<M>(pieces: seq<Piece<M>>, key: string): seq<Piece<M>>
  {
    if |pieces| == 0 then []
    else
      var front, p := Of(pieces[..|pieces| - 1], key), pieces[|pieces| - 1];
      if p.key == key then front + [p] else front
  }

  /** Consecutive indices from zero, adjacent positions, one kind, and nothing after the
      terminal piece. */
  ghost predicate Joined<M>(ps: seq<Piece<M>>, fromZero: bool)
  {
    && (forall i :: 0 <= i < |ps| ==> ps[i].index == i && ps[i].kind == ps[0].kind)
    && (forall i :: 0 <= i < |ps| - 1 ==> !ps[i].last)
    && (forall i, j :: 0 <= i && j == i + 1 && j < |ps| ==> ps[j].start == ps[i].next)
    && (fromZero && |ps| > 0 ==> ps[0].start == 0)
  }

  /** The collected form: joined, and the last piece is the terminal one. */
  ghost predicate Complete<M>(ps: seq<Piece<M>>, fromZero: bool)
  {
    Joined(ps, fromZero) && (|ps| > 0 ==> ps[|ps| - 1].last)
  }

  ghost predicate AllJoined<M>(pieces: seq<Piece<M>>, fromZero: bool)
  {
    forall key :: Joined(Of(pieces, key), fromZero)
  }

  ghost predicate AllComplete<M>(pieces: seq<Piece<M>>, fromZero: bool)
  {
    forall key :: Complete(Of(pieces, key), fromZero)
  }

  /** What is remembered of a key. */
  datatype Cursor = Cursor(index: nat, next: nat, closed: bool, kind: string)

  function CursorAfter<M>(p: Piece<M>): Cursor
  {
    Cursor(p.index + 1, p.next, p.last, p.kind)
  }

  predicate Accepts<M>(state: map<string, Cursor>, p: Piece<M>, fromZero: bool)
  {
    if p.key !in state then p.index == 0 && (fromZero ==> p.start == 0)
    else
      var previous := state[p.key];
      !previous.closed && previous.kind == p.kind && p.index == previous.index && p.start == previous.next
  }

  ghost predicate Tracks<M>(state: map<string, Cursor>, pieces: seq<Piece<M>>, fromZero: bool)
  {
    AllJoined(pieces, fromZero) && forall key :: Points(state, key, Of(pieces, key))
  }

  /** The cursor of a key stands behind the last of its pieces. */
  ghost predicate Points<M>(state: map<string, Cursor>, key: string, ps: seq<Piece<M>>)
  {
    if |ps| == 0 then key !in state else key in state && state[key] == CursorAfter(ps[|ps| - 1])
  }

  ghost predicate Continues<M>(ps: seq<Piece<M>>, p: Piece<M>, fromZero: bool)
  {
    if |ps| == 0 then p.index == 0 && (fromZero ==> p.start == 0)
    else
      var last := ps[|ps| - 1];
      !last.last && last.kind == p.kind && p.index == last.index + 1 && p.start == last.next
  }

  lemma {:induction false} JoinedThenContinues<M>(ps: seq<Piece<M>>, p: Piece<M>, fromZero: bool)
    requires Joined(ps + [p], fromZero)
    ensures Continues(ps, p, fromZero)
  {
    var more := ps + [p];
    assert more[|ps|] == p;
    if |ps| > 0 {
      var n := |ps| - 1;
      assert more[n] == ps[n] && !more[n].last && more[n + 1].start == more[n].next;
    }
  }

  lemma {:induction false} ContinuesThenJoined<M>(ps: seq<Piece<M>>, p: Piece<M>, fromZero: bool)
    requires Joined(ps, fromZero) && Continues(ps, p, fromZero)
    ensures Joined(ps + [p], fromZero)
  {
    var more := ps + [p];
    assert forall i :: 0 <= i < |ps| ==> more[i] == ps[i];
    assert more[|ps|] == p;
    if |ps| > 0 {
      var n := |ps| - 1;
      assert ps[n].index == n && ps[n].kind == ps[0].kind;
      forall i, j | 0 <= i && j == i + 1 && j < |more|
        ensures more[j].start == more[i].next
      {
        if j <= n {
          assert ps[j].start == ps[i].next;
        }
      }
    }
  }

  lemma {:induction false} OfNext<M>(pieces: seq<Piece<M>>, p: Piece<M>, key: string)
    ensures Of(pieces + [p], key) == if key == p.key then Of(pieces, key) + [p] else Of(pieces, key)
  {
    assert (pieces + [p])[..|pieces|] == pieces;
  }

  lemma {:induction false} AcceptedContinues<M>(state: map<string, Cursor>, pieces: seq<Piece<M>>, p: Piece<M>, fromZero: bool)
    requires Tracks(state, pieces, fromZero)
    ensures Accepts(state, p, fromZero) <==> Continues(Of(pieces, p.key), p, fromZero)
  {
    assert Joined(Of(pieces, p.key), fromZero) && Points(state, p.key, Of(pieces, p.key));
  }

  lemma {:induction false} ContinuesIsJoined<M>(ps: seq<Piece<M>>, p: Piece<M>, fromZero: bool)
    requires Joined(ps, fromZero)
    ensures Continues(ps, p, fromZero) <==> Joined(ps + [p], fromZero)
  {
    if Joined(ps + [p], fromZero) {
      JoinedThenContinues(ps, p, fromZero);
    }
    if Continues(ps, p, fromZero) {
      ContinuesThenJoined(ps, p, fromZero);
    }
  }

  /** A piece is accepted exactly when the pieces of its key stay joined. */
  lemma {:induction false} AcceptedStaysJoined<M>(state: map<string, Cursor>, pieces: seq<Piece<M>>, p: Piece<M>,
                                                  fromZero: bool)
    requires Tracks(state, pieces, fromZero)
    ensures Accepts(state, p, fromZero) <==> AllJoined(pieces + [p], fromZero)
    ensures Accepts(state, p, fromZero) ==> Tracks(state[p.key := CursorAfter(p)], pieces + [p], fromZero)
  {
    AcceptedContinues(state, pieces, p, fromZero);
    ContinuesIsJoined(Of(pieces, p.key), p, fromZero);
    forall key
      ensures Of(pieces + [p], key) == if key == p.key then Of(pieces, key) + [p] else Of(pieces, key)
    {
      OfNext(pieces, p, key);
    }
    FollowedStaysJoined(state, pieces, pieces + [p], p, fromZero);
  }

  lemma {:induction false} FollowedStaysJoined<M>(state: map<string, Cursor>, pieces: seq<Piece<M>>, more: seq<Piece<M>>,
                                                  p: Piece<M>, fromZero: bool)
    requires Tracks(state, pieces, fromZero)
    requires forall key :: Of(more, key) == if key == p.key then Of(pieces, key) + [p] else Of(pieces, key)
    requires Accepts(state, p, fromZero) <==> Joined(Of(more, p.key), fromZero)
    ensures Accepts(state, p, fromZero) <==> AllJoined(more, fromZero)
    ensures Accepts(state, p, fromZero) ==> Tracks(state[p.key := CursorAfter(p)], more, fromZero)
  {
    JoinedByKey(pieces, more, p.key, fromZero);
    forall key
      ensures Points(state[p.key := CursorAfter(p)], key, Of(more, key))
    {
      if key != p.key {
        assert Points(state, key, Of(pieces, key));
      }
    }
  }

  /** Only the pieces of one key have changed. */
  lemma {:induction false} JoinedByKey<M>(pieces: seq<Piece<M>>, more: seq<Piece<M>>, changed: string, fromZero: bool)
    requires AllJoined(pieces, fromZero) && forall key :: key != changed ==> Of(more, key) == Of(pieces, key)
    ensures AllJoined(more, fromZero) <==> Joined(Of(more, changed), fromZero)
  {
    forall key | key != changed
      ensures Joined(Of(more, key), fromZero)
    {
      assert Joined(Of(pieces, key), fromZero);
    }
  }

  lemma {:induction false} OfPrefix<M>(pieces: seq<Piece<M>>, more: seq<Piece<M>>, key: string)
    ensures Of(pieces, key) <= Of(pieces + more, key)
    decreases |more|
  {
    if |more| == 0 {
      assert pieces + more == pieces;
    } else {
      var front := more[..|more| - 1];
      assert (pieces + more)[..|pieces + more| - 1] == pieces + front;
      OfPrefix(pieces, front, key);
    }
  }

  lemma {:induction false} JoinedPrefix<M>(ps: seq<Piece<M>>, more: seq<Piece<M>>, fromZero: bool)
    requires ps <= more && Joined(more, fromZero)
    ensures Joined(ps, fromZero)
  {
    assert forall i :: 0 <= i < |ps| ==> ps[i] == more[i];
  }

  /** A stream that is broken once stays broken. */
  lemma {:induction false} BrokenStaysBroken<M>(pieces: seq<Piece<M>>, more: seq<Piece<M>>, fromZero: bool)
    requires !AllJoined(pieces, fromZero)
    ensures !AllComplete(pieces + more, fromZero)
  {
    var key :| !Joined(Of(pieces, key), fromZero);
    OfPrefix(pieces, more, key);
    if Joined(Of(pieces + more, key), fromZero) {
      JoinedPrefix(Of(pieces, key), Of(pieces + more, key), fromZero);
    }
  }

  /** At the end the stream is complete exactly when every cursor is closed. */
  lemma {:induction false} ClosedIsComplete<M>(state: map<string, Cursor>, pieces: seq<Piece<M>>, fromZero: bool)
    requires Tracks(state, pieces, fromZero)
    ensures (forall key :: key in state ==> state[key].closed) <==> AllComplete(pieces, fromZero)
  {
    forall key
      ensures Complete(Of(pieces, key), fromZero) <==> (key in state ==> state[key].closed)
    {
      assert Joined(Of(pieces, key), fromZero) && Points(state, key, Of(pieces, key));
    }
  }

  // ---------------------------------------------------------------------------
  // What completeness means for the positions
  // ---------------------------------------------------------------------------

  /** Pieces in order of position: a later piece starts where or after an earlier one ends. */
  lemma {:induction false} LaterStartsBehind<M>(ps: seq<Piece<M>>, fromZero: bool, i: nat, j: nat)
    requires Joined(ps, fromZero) && i < j < |ps|
    requires forall k :: 0 <= k < |ps| ==> ps[k].start <= ps[k].next
    ensures ps[i].next <= ps[j].start
    decreases j
  {
    if j > i + 1 {
      LaterStartsBehind(ps, fromZero, i, j - 1);
    }
    assert ps[j].start == ps[j - 1].next;
  }

  function Contents<M>(ps: seq<Piece<M>>): seq<M>
  {
    if |ps| == 0 then [] else Contents(ps[..|ps| - 1]) + ps[|ps| - 1].content
  }

  function Range(lo: int, hi: int): multiset<int>
    requires lo <= hi
    decreases hi - lo
  {
    if lo == hi then multiset{} else Range(lo, hi - 1) + multiset{hi - 1}
  }

  lemma {:induction false} RangesJoin(a: int, b: int, c: int)
    requires a <= b <= c
    ensures Range(a, b) + Range(b, c) == Range(a, c)
    decreases c - b
  {
    if b < c {
      RangesJoin(a, b, c - 1);
    }
  }

  lemma {:induction false} RangeCounts(lo: int, hi: int, k: int)
    requires lo <= hi
    ensures Range(lo, hi)[k] == if lo <= k < hi then 1 else 0
    decreases hi - lo
  {
    if lo != hi {
      RangeCounts(lo, hi - 1, k);
    }
  }

  /** Pieces whose contents enumerate their own positions enumerate all of them, once each. */
  lemma {:induction false} ContentsEnumerate(ps: seq<Piece<int>>)
    requires Joined(ps, true)
    requires forall k :: 0 <= k < |ps| ==> ps[k].start <= ps[k].next && multiset(ps[k].content) == Range(ps[k].start, ps[k].next)
    ensures multiset(Contents(ps)) == Range(0, if |ps| == 0 then 0 else ps[|ps| - 1].next)
    decreases |ps|
  {
    if |ps| > 0 {
      var front, p := ps[..|ps| - 1], ps[|ps| - 1];
      JoinedPrefix(front, ps, true);
      ContentsEnumerate(front);
      if |ps| > 1 {
        assert ps[|ps| - 1].start == ps[|ps| - 2].next;
      }
      RangesJoin(0, p.start, p.next);
    }
  }
}
