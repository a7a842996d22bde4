/** What the write loop does to the rows of its transaction, and the rows that are in effect
    afterwards. */
module WriteHistory {
  import opened Collections

  /** A statement that wrote the rows of some units, or a ROLLBACK TO SAVEPOINT that keeps
      only the oldest rows. */
  datatype Effect = Put(units: seq<string>) | Undone(keep: nat)

  function RowsAfter(history: seq<Effect>): seq<string>
  {
    if |history| == 0 then []
    else Applied(RowsAfter(history[..|history| - 1]), history[|history| - 1])
  }

  function Applied(rows: seq<string>, effect: Effect): seq<string>
  {
    match effect
    case Put(units) => rows + units
    case Undone(keep) => if keep <= |rows| then rows[..keep] else rows
  }

  /** A statement writes no unit that is in effect or that it writes twice, and a rollback
      goes back to a state there was. */
  ghost predicate MayFollow(rows: seq<string>, effect: Effect)
  {
    match effect
    case Put(units) => Distinct(rows + units)
    case Undone(keep) => keep <= |rows|
  }

  ghost predicate Sound(history: seq<Effect>)
  {
    |history| > 0 ==>
      Sound(history[..|history| - 1]) && MayFollow(RowsAfter(history[..|history| - 1]), history[|history| - 1])
  }

  lemma {:induction false} OneMore(history: seq<Effect>, effect: Effect)
    ensures RowsAfter(history + [effect]) == Applied(RowsAfter(history), effect)
    ensures Sound(history + [effect]) <==> Sound(history) && MayFollow(RowsAfter(history), effect)
  {
    assert (history + [effect])[..|history|] == history;
  }
}
