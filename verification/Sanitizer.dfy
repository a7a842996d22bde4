/** Sanitizing of error details: a walk over a possibly cyclic heap of containers within a
    budget of items and a limit of depth. */
module Sanitizer {
  import opened Collections
  import opened DetailKeys

  const MAX_DEPTH := 16
  const MAX_ITEMS := 256

  /** A caller's value; containers are known by identity. */
  datatype Value = None_ | Bool(b: bool) | Int(i: int) | Float(finite: bool, number: int) | Str(s: string) | Ref(id: nat)

  datatype Container = Dict(keys: seq<string>, values: seq<Value>) | List(values: seq<Value>)

  type Heap = map<nat, Container>

  datatype Detail =
    | NoneDetail | BoolDetail(b: bool) | IntDetail(i: int) | FloatDetail(number: int) | TextDetail(s: string)
    | Mapping(keys: seq<string>, values: seq<Detail>)
    | Items(values: seq<Detail>)

  const REDACTED := TextDetail("[REDACTED]")
  const NON_FINITE := TextDetail("[NON_FINITE_NUMBER]")
  const LIMIT := TextDetail("[DETAIL_LIMIT_EXCEEDED]")

  /** Which keys name secrets, and what the text patterns make of a text. */
  datatype Rules = Rules(namesSecret: string -> bool, redact: string -> string)

  predicate Known(heap: Heap, v: Value)
  {
    v.Ref? ==> v.id in heap
  }

  ghost predicate HeapOk(heap: Heap)
  {
    forall id :: id in heap ==>
      && (heap[id].Dict? ==> |heap[id].keys| == |heap[id].values|)
      && forall v :: v in heap[id].values ==> Known(heap, v)
  }

  predicate Sensitive(rules: Rules, key: string)
  {
    |key| > MAX_TEXT || rules.namesSecret(key)
  }

  function SanitizedKey(rules: Rules, key: string): (k: string)
    ensures |k| <= MAX_KEY
    ensures k == rules.redact(key) || (|rules.redact(key)| > MAX_KEY == |k| && k[..MAX_TEXT] == rules.redact(key)[..MAX_TEXT])
  {
    var text := rules.redact(key);
    if |text| <= MAX_KEY then text else text[..MAX_TEXT] + TRUNCATED
  }

  function Scalar(rules: Rules, v: Value): Detail
    requires !v.Ref?
  {
    match v
    case None_ => NoneDetail
    case Bool(b) => BoolDetail(b)
    case Int(i) => IntDetail(i)
    case Float(finite, number) => if finite then FloatDetail(number) else NON_FINITE
    case Str(s) => TextDetail(rules.redact(s))
  }

  function KeyAt(c: Container, j: nat): string
    requires j < |c.values| && (c.Dict? ==> |c.keys| == |c.values|)
  {
    if c.Dict? then c.keys[j] else ""
  }

  // ---------------------------------------------------------------------------
  // What the walk should return
  // ---------------------------------------------------------------------------

  /** A container that is opened: not too deep, and not one of its own ancestors. */
  predicate Opens(rules: Rules, key: string, v: Value, depth: nat, active: set<nat>)
  {
    !Sensitive(rules, key) && v.Ref? && depth < MAX_DEPTH && v.id !in active
  }

  /** The value as it is shown whole. */
  ghost predicate Renders(rules: Rules, heap: Heap, key: string, v: Value, depth: nat, active: set<nat>, d: Detail)
    requires HeapOk(heap) && Known(heap, v) && depth <= MAX_DEPTH
    decreases MAX_DEPTH - depth, 1
  {
    if Sensitive(rules, key) then d == REDACTED
    else if !v.Ref? then d == Scalar(rules, v)
    else if !Opens(rules, key, v, depth, active) then d == LIMIT
    else ContainerRendered(rules, heap, v.id, depth, active + {v.id}, d)
  }

  /** Every item in its place, under its own key or a free renaming of it. */
  ghost predicate ContainerRendered(rules: Rules, heap: Heap, id: nat, depth: nat, active: set<nat>, d: Detail)
    requires HeapOk(heap) && id in heap && depth < MAX_DEPTH
    decreases MAX_DEPTH - depth, 0
  {
    var c := heap[id];
    && SameKind(c, d) && (c.Dict? ==> KeysRendered(rules, c.keys, d.keys, |d.keys|))
    && |d.values| == |c.values| && AllRendered(rules, heap, id, depth + 1, active, d.values, |d.values|)
  }

  ghost predicate AllRendered(rules: Rules, heap: Heap, id: nat, depth: nat, active: set<nat>, values: seq<Detail>, n: nat)
    requires HeapOk(heap) && id in heap && depth <= MAX_DEPTH && n <= |values| && n <= |heap[id].values|
    decreases MAX_DEPTH - depth, 2, n
  {
    n > 0 ==>
      && AllRendered(rules, heap, id, depth, active, values, n - 1)
      && Renders(rules, heap, KeyAt(heap[id], n - 1), heap[id].values[n - 1], depth, active, values[n - 1])
  }

  /** The first `n` names are the sanitized keys, or free renamings of them where an earlier
      name took the key. */
  ghost predicate KeysRendered(rules: Rules, from: seq<string>, names: seq<string>, n: nat)
    requires n <= |names|
  {
    n <= |from| &&
    (n > 0 ==> KeysRendered(rules, from, names, n - 1) && IsFree(SanitizedKey(rules, from[n - 1]), Elements(names[..n - 1]), names[n - 1]))
  }

  /** The number of items the walk meets when nothing stops it but depth and cycles. */
  ghost function Weight(rules: Rules, heap: Heap, key: string, v: Value, depth: nat, active: set<nat>): (w: nat)
    requires HeapOk(heap) && Known(heap, v) && depth <= MAX_DEPTH
    ensures w >= 1
    decreases MAX_DEPTH - depth, 1, 0
  {
    if !Opens(rules, key, v, depth, active) then 1
    else 1 + WeightUpTo(rules, heap, v.id, depth + 1, active + {v.id}, |heap[v.id].values|)
  }

  ghost function WeightUpTo(rules: Rules, heap: Heap, id: nat, depth: nat, active: set<nat>, n: nat): (w: nat)
    requires HeapOk(heap) && id in heap && depth <= MAX_DEPTH && n <= |heap[id].values|
    ensures w >= n
    decreases MAX_DEPTH - depth, 2, n
  {
    if n == 0 then 0
    else WeightUpTo(rules, heap, id, depth, active, n - 1)
         + Weight(rules, heap, KeyAt(heap[id], n - 1), heap[id].values[n - 1], depth, active)
  }

  lemma {:induction false} WeightRises(rules: Rules, heap: Heap, id: nat, depth: nat, active: set<nat>, n: nat, m: nat)
    requires HeapOk(heap) && id in heap && depth <= MAX_DEPTH && n <= m <= |heap[id].values|
    ensures WeightUpTo(rules, heap, id, depth, active, n) + (m - n) <= WeightUpTo(rules, heap, id, depth, active, m)
    decreases m - n
  {
    if n < m {
      WeightRises(rules, heap, id, depth, active, n, m - 1);
    }
  }

  // ---------------------------------------------------------------------------
  // What the walk returns within a budget
  // ---------------------------------------------------------------------------

  /** The budget ends before the last item is begun. */
  ghost predicate IsCut(rules: Rules, heap: Heap, id: nat, depth: nat, active: set<nat>, budget: nat)
    requires HeapOk(heap) && id in heap && depth <= MAX_DEPTH
  {
    var n := |heap[id].values|;
    n > 0 && WeightUpTo(rules, heap, id, depth, active, n - 1) >= budget
  }

  /** The value as a budget of at least one item shows it. */
  ghost predicate Shows(rules: Rules, heap: Heap, key: string, v: Value, depth: nat, active: set<nat>, budget: nat, d: Detail)
    requires HeapOk(heap) && Known(heap, v) && depth <= MAX_DEPTH && budget > 0
    decreases MAX_DEPTH - depth, 1
  {
    if Sensitive(rules, key) then d == REDACTED
    else if !v.Ref? then d == Scalar(rules, v)
    else if !Opens(rules, key, v, depth, active) then d == LIMIT
    else ContainerShown(rules, heap, v.id, depth, active + {v.id}, budget - 1, d)
  }

  /** The kind of the container is kept. */
  predicate SameKind(c: Container, d: Detail)
  {
    if c.Dict? then d.Mapping? && |d.keys| == |d.values| else d.Items?
  }

  ghost predicate ContainerShown(rules: Rules, heap: Heap, id: nat, depth: nat, active: set<nat>, budget: nat, d: Detail)
    requires HeapOk(heap) && id in heap && depth < MAX_DEPTH
    decreases MAX_DEPTH - depth, 0
  {
    && SameKind(heap[id], d) && ValuesShown(rules, heap, id, depth + 1, active, budget, d.values)
    && (d.Mapping? ==> NamesShown(rules, heap[id].keys, d.keys, IsCut(rules, heap, id, depth + 1, active, budget)))
  }

  /** The first items, each with what the earlier ones left of the budget; if not all of them
      can be begun, a marker follows. */
  ghost predicate ValuesShown(rules: Rules, heap: Heap, id: nat, depth: nat, active: set<nat>, budget: nat, values: seq<Detail>)
    requires HeapOk(heap) && id in heap && depth <= MAX_DEPTH
    decreases MAX_DEPTH - depth, 3
  {
    if IsCut(rules, heap, id, depth, active, budget) then
      var n: int := |values| - 1;
      && 0 <= n < |heap[id].values| && values[n] == LIMIT && WeightUpTo(rules, heap, id, depth, active, n) >= budget
      && AllShown(rules, heap, id, depth, active, budget, values, n)
    else |values| == |heap[id].values| && AllShown(rules, heap, id, depth, active, budget, values, |values|)
  }

  /** The items go under their keys, and the marker under its own name, renamed if need be. */
  ghost predicate NamesShown(rules: Rules, from: seq<string>, names: seq<string>, marked: bool)
  {
    if marked then
      var n: int := |names| - 1;
      n >= 0 && KeysRendered(rules, from, names, n) && IsFree("_truncated", Elements(names[..n]), names[n])
    else KeysRendered(rules, from, names, |names|)
  }

  ghost predicate AllShown(rules: Rules, heap: Heap, id: nat, depth: nat, active: set<nat>, budget: nat, values: seq<Detail>,
                           n: nat)
    requires HeapOk(heap) && id in heap && depth <= MAX_DEPTH && n <= |values| && n <= |heap[id].values|
    decreases MAX_DEPTH - depth, 2, n
  {
    n > 0 ==>
      var spent := WeightUpTo(rules, heap, id, depth, active, n - 1);
      && AllShown(rules, heap, id, depth, active, budget, values, n - 1) && spent < budget
      && Shows(rules, heap, KeyAt(heap[id], n - 1), heap[id].values[n - 1], depth, active, budget - spent, values[n - 1])
  }

  // ---------------------------------------------------------------------------
  // Size and keys of a result
  // ---------------------------------------------------------------------------

  function Nodes(d: Detail): nat
  {
    if d.Mapping? || d.Items? then 1 + NodesUpTo(d.values, |d.values|) else 1
  }

  function NodesUpTo(ds: seq<Detail>, n: nat): nat
    requires n <= |ds|
    decreases ds, n
  {
    if n == 0 then 0 else NodesUpTo(ds, n - 1) + Nodes(ds[n - 1])
  }

  lemma {:induction false} NodesOfPrefix(ds: seq<Detail>, more: seq<Detail>, n: nat)
    requires n <= |ds|
    ensures NodesUpTo(ds + more, n) == NodesUpTo(ds, n)
  {
    if n > 0 {
      NodesOfPrefix(ds, more, n - 1);
    }
  }

  lemma {:induction false} NodesNext(ds: seq<Detail>, d: Detail)
    ensures NodesUpTo(ds + [d], |ds| + 1) == NodesUpTo(ds, |ds|) + Nodes(d)
  {
    NodesOfPrefix(ds, [d], |ds|);
  }

  /** In every mapping of the result the keys are distinct and short. */
  ghost predicate KeysOk(d: Detail)
  {
    && (d.Mapping? ==> |d.keys| == |d.values| && Distinct(d.keys) && forall k :: k in d.keys ==> |k| <= 4107)
    && (d.Mapping? || d.Items? ==> forall i :: 0 <= i < |d.values| ==> KeysOk(d.values[i]))
  }

  // ---------------------------------------------------------------------------
  // The walk
  // ---------------------------------------------------------------------------

  class State {
    var active: set<nat>
    var remaining: nat

    constructor ()
      ensures active == {} && remaining == MAX_ITEMS
    {
      active, remaining := {}, MAX_ITEMS;
    }

    method Consume() returns (ok: bool)
      modifies this`remaining
      ensures ok <==> old(remaining) > 0
      ensures remaining == if ok then old(remaining) - 1 else 0
    {
      if remaining == 0 {
        return false;
      }
      remaining := remaining - 1;
      return true;
    }
  }

  /** The markers that the containers open from this depth on may add once the budget is
      used up. */
  function Markers(remaining: nat, depth: nat): nat
    requires depth <= MAX_DEPTH
  {
    if remaining == 0 then MAX_DEPTH - depth else 0
  }

  /** What is left of a budget after a weight, or nothing. */
  function Left(budget: nat, weight: nat): nat
  {
    if weight <= budget then budget - weight else 0
  }

  /** What a call did: it paid for its nodes, as far as the budget went, and showed the value. */
  ghost predicate Walked(rules: Rules, heap: Heap, key: string, v: Value, depth: nat, active: set<nat>, before: nat,
                         after: nat, d: Detail)
    requires HeapOk(heap) && Known(heap, v) && depth <= MAX_DEPTH && before > 0
  {
    && KeysOk(d) && after < before && (d.Items? ==> v.Ref? && heap[v.id].List?)
    && Nodes(d) <= before - after + Markers(after, depth)
    && after == Left(before, Weight(rules, heap, key, v, depth, active))
    && Shows(rules, heap, key, v, depth, active, before, d)
  }

  method Sanitize(rules: Rules, heap: Heap, key: string, v: Value, state: State, depth: nat) returns (d: Detail)
    requires HeapOk(heap) && Known(heap, v) && depth <= MAX_DEPTH && state.remaining <= MAX_ITEMS
    modifies state
    ensures state.active == old(state.active)
    ensures old(state.remaining) == 0 ==> d == LIMIT && state.remaining == 0
    ensures old(state.remaining) > 0 ==>
            Walked(rules, heap, key, v, depth, old(state.active), old(state.remaining), state.remaining, d)
    decreases MAX_DEPTH - depth, 1
  {
    var paid := state.Consume();
    if !paid {
      return LIMIT;
    }
    if Sensitive(rules, key) {
      return REDACTED;
    }
    match v {
      case None_ => return NoneDetail;
      case Bool(b) => return BoolDetail(b);
      case Int(i) => return IntDetail(i);
      case Float(finite, number) =>
        if finite {
          return FloatDetail(number);
        }
        return NON_FINITE;
      case Str(s) => return TextDetail(rules.redact(s));
      case Ref(_) =>
    }
    if depth >= MAX_DEPTH || v.id in state.active {
      return LIMIT;
    }
    ghost var active := state.active;
    state.active := state.active + {v.id};
    if heap[v.id].Dict? {
      d := SanitizeDict(rules, heap, v.id, state, depth);
    } else {
      d := SanitizeList(rules, heap, v.id, state, depth);
    }
    state.active := state.active - {v.id};
    assert state.active == active;
  }

  /** The state of the loop over the items of an open container. */
  ghost predicate Walking(rules: Rules, heap: Heap, id: nat, depth: nat, active: set<nat>, before: nat, now: nat,
                          values: seq<Detail>)
    requires HeapOk(heap) && id in heap && depth < MAX_DEPTH && |values| <= |heap[id].values|
  {
    && now <= before && |values| <= before - now
    && (forall i :: 0 <= i < |values| ==> KeysOk(values[i]))
    && NodesUpTo(values, |values|) <= before - now + Markers(now, depth + 1)
    && now == Left(before, WeightUpTo(rules, heap, id, depth + 1, active, |values|))
    && AllShown(rules, heap, id, depth + 1, active, before, values, |values|)
  }

  lemma {:induction false} WalkingNext(rules: Rules, heap: Heap, id: nat, depth: nat, active: set<nat>, before: nat,
                                       now: nat, after: nat,
                                       values: seq<Detail>, d: Detail)
    requires HeapOk(heap) && id in heap && depth < MAX_DEPTH && |values| < |heap[id].values|
    requires Walking(rules, heap, id, depth, active, before, now, values) && now > 0
    requires Walked(rules, heap, KeyAt(heap[id], |values|), heap[id].values[|values|], depth + 1, active, now, after, d)
    ensures Walking(rules, heap, id, depth, active, before, after, values + [d])
  {
    NodesNext(values, d);
    AllShownNext(rules, heap, id, depth + 1, active, before, values, d);
  }

  lemma {:induction false} AllShownNext(rules: Rules, heap: Heap, id: nat, depth: nat, active: set<nat>, budget: nat,
                                        values: seq<Detail>, d: Detail)
    requires HeapOk(heap) && id in heap && depth <= MAX_DEPTH && |values| < |heap[id].values|
    requires AllShown(rules, heap, id, depth, active, budget, values, |values|)
    requires WeightUpTo(rules, heap, id, depth, active, |values|) < budget
    requires Shows(rules, heap, KeyAt(heap[id], |values|), heap[id].values[|values|], depth, active,
                   budget - WeightUpTo(rules, heap, id, depth, active, |values|), d)
    ensures AllShown(rules, heap, id, depth, active, budget, values + [d], |values| + 1)
  {
    ShownOfPrefix(rules, heap, id, depth, active, budget, values, d, |values|);
  }

  lemma {:induction false} ShownOfPrefix(rules: Rules, heap: Heap, id: nat, depth: nat, active: set<nat>, budget: nat,
                                         values: seq<Detail>, d: Detail, n: nat)
    requires HeapOk(heap) && id in heap && depth <= MAX_DEPTH && n <= |values| && n <= |heap[id].values|
    requires AllShown(rules, heap, id, depth, active, budget, values, n)
    ensures AllShown(rules, heap, id, depth, active, budget, values + [d], n)
  {
    if n > 0 {
      ShownOfPrefix(rules, heap, id, depth, active, budget, values, d, n - 1);
    }
  }

  /** What opening a container and walking its items comes to. */
  ghost predicate Contained(rules: Rules, heap: Heap, id: nat, depth: nat, active: set<nat>, before: nat, after: nat,
                            d: Detail)
    requires HeapOk(heap) && id in heap && depth < MAX_DEPTH
  {
    && KeysOk(d) && after <= before && (if heap[id].Dict? then d.Mapping? else d.Items?)
    && Nodes(d) <= 1 + before - after + Markers(after, depth)
    && after == Left(before, WeightUpTo(rules, heap, id, depth + 1, active, |heap[id].values|))
    && ContainerShown(rules, heap, id, depth, active, before, d)
  }

  /** The budget ran out before the last item, so it was not enough for all of them. */
  lemma {:induction false} RanOut(rules: Rules, heap: Heap, id: nat, depth: nat, active: set<nat>, before: nat, n: nat)
    requires HeapOk(heap) && id in heap && depth <= MAX_DEPTH && n < |heap[id].values|
    requires Left(before, WeightUpTo(rules, heap, id, depth, active, n)) == 0
    ensures IsCut(rules, heap, id, depth, active, before) && WeightUpTo(rules, heap, id, depth, active, n) >= before
    ensures Left(before, WeightUpTo(rules, heap, id, depth, active, |heap[id].values|)) == 0
  {
    WeightRises(rules, heap, id, depth, active, n, |heap[id].values|);
    WeightRises(rules, heap, id, depth, active, n, |heap[id].values| - 1);
  }

  lemma {:induction false} MarkerAdded(depth: nat, before: nat, values: seq<Detail>)
    requires depth < MAX_DEPTH && NodesUpTo(values, |values|) <= before + Markers(0, depth + 1)
    requires forall i :: 0 <= i < |values| ==> KeysOk(values[i])
    ensures NodesUpTo(values + [LIMIT], |values| + 1) <= before + Markers(0, depth)
    ensures forall i :: 0 <= i <= |values| ==> KeysOk((values + [LIMIT])[i])
  {
    NodesNext(values, LIMIT);
  }

  method SanitizeList(rules: Rules, heap: Heap, id: nat, state: State, depth: nat) returns (d: Detail)
    requires HeapOk(heap) && id in heap && heap[id].List? && depth < MAX_DEPTH && state.remaining <= MAX_ITEMS
    modifies state
    ensures state.active == old(state.active) && state.remaining <= old(state.remaining)
    ensures Contained(rules, heap, id, depth, state.active, old(state.remaining), state.remaining, d)
    decreases MAX_DEPTH - depth, 0
  {
    var items := heap[id].values;
    var values: seq<Detail> := [];
    for i := 0 to |items|
      invariant |values| == i && state.active == old(state.active)
      invariant Walking(rules, heap, id, depth, state.active, old(state.remaining), state.remaining, values)
    {
      if state.remaining == 0 {
        ListCut(rules, heap, id, depth, state.active, old(state.remaining), values);
        return Items(values + [LIMIT]);
      }
      ghost var now := state.remaining;
      var item := Sanitize(rules, heap, "", items[i], state, depth + 1);
      WalkingNext(rules, heap, id, depth, state.active, old(state.remaining), now, state.remaining, values, item);
      values := values + [item];
    }
    ListDone(rules, heap, id, depth, state.active, old(state.remaining), state.remaining, values);
    d := Items(values);
  }

  lemma {:induction false} ListDone(rules: Rules, heap: Heap, id: nat, depth: nat, active: set<nat>, before: nat,
                                    now: nat, values: seq<Detail>)
    requires HeapOk(heap) && id in heap && heap[id].List? && depth < MAX_DEPTH && |values| == |heap[id].values|
    requires Walking(rules, heap, id, depth, active, before, now, values)
    ensures Contained(rules, heap, id, depth, active, before, now, Items(values))
  {
  }

  lemma {:induction false} ListCut(rules: Rules, heap: Heap, id: nat, depth: nat, active: set<nat>, before: nat,
                                   values: seq<Detail>)
    requires HeapOk(heap) && id in heap && heap[id].List? && depth < MAX_DEPTH && |values| < |heap[id].values|
    requires Walking(rules, heap, id, depth, active, before, 0, values)
    ensures Contained(rules, heap, id, depth, active, before, 0, Items(values + [LIMIT]))
  {
    MarkerAdded(depth, before, values);
    RanOut(rules, heap, id, depth + 1, active, before, |values|);
    ValuesCut(rules, heap, id, depth + 1, active, before, values);
  }

  /** The items that were begun and the marker behind them. */
  lemma {:induction false} ValuesCut(rules: Rules, heap: Heap, id: nat, depth: nat, active: set<nat>, budget: nat,
                                     values: seq<Detail>)
    requires HeapOk(heap) && id in heap && depth <= MAX_DEPTH && |values| < |heap[id].values|
    requires IsCut(rules, heap, id, depth, active, budget) && WeightUpTo(rules, heap, id, depth, active, |values|) >= budget
    requires AllShown(rules, heap, id, depth, active, budget, values, |values|)
    ensures ValuesShown(rules, heap, id, depth, active, budget, values + [LIMIT])
  {
    ShownOfPrefix(rules, heap, id, depth, active, budget, values, LIMIT, |values|);
  }

  lemma {:induction false} KeyAdded(rules: Rules, from: seq<string>, names: seq<string>, name: string)
    requires |names| < |from| && KeysRendered(rules, from, names, |names|)
    requires IsFree(SanitizedKey(rules, from[|names|]), Elements(names), name)
    ensures KeysRendered(rules, from, names + [name], |names| + 1)
  {
    KeysOfPrefix(rules, from, names, name, |names|);
    assert (names + [name])[..|names|] == names;
  }

  lemma {:induction false} KeysOfPrefix(rules: Rules, from: seq<string>, names: seq<string>, more: string, n: nat)
    requires n <= |names| && KeysRendered(rules, from, names, n)
    ensures KeysRendered(rules, from, names + [more], n)
  {
    if n > 0 {
      KeysOfPrefix(rules, from, names, more, n - 1);
      assert (names + [more])[..n - 1] == names[..n - 1];
    }
  }

  ghost predicate NamesOk(names: seq<string>)
  {
    Distinct(names) && forall k :: k in names ==> |k| <= MAX_KEY
  }

  lemma {:induction false} NameAdded(names: seq<string>, name: string)
    requires NamesOk(names) && name !in Elements(names) && |name| <= MAX_KEY
    ensures NamesOk(names + [name])
  {
    DistinctAppend(names, name);
  }

  method FreeName(rules: Rules, key: string, names: seq<string>) returns (name: string)
    requires NamesOk(names) && |names| <= MAX_ITEMS && |key| <= MAX_KEY
    ensures IsFree(key, Elements(names), name) && NamesOk(names + [name])
  {
    CountDetectsDuplicates(names);
    name := Deduplicate(key, Elements(names));
    NameAdded(names, name);
  }

  method SanitizeDict(rules: Rules, heap: Heap, id: nat, state: State, depth: nat) returns (d: Detail)
    requires HeapOk(heap) && id in heap && heap[id].Dict? && depth < MAX_DEPTH && state.remaining <= MAX_ITEMS
    modifies state
    ensures state.active == old(state.active) && state.remaining <= old(state.remaining)
    ensures Contained(rules, heap, id, depth, state.active, old(state.remaining), state.remaining, d)
    decreases MAX_DEPTH - depth, 0
  {
    var c := heap[id];
    ghost var active, start := state.active, state.remaining;
    var names: seq<string>, values: seq<Detail> := [], [];
    for i := 0 to |c.values|
      invariant |values| == |names| == i && state.active == active
      invariant Walking(rules, heap, id, depth, active, start, state.remaining, values)
      invariant NamesOk(names) && KeysRendered(rules, c.keys, names, i)
    {
      if state.remaining == 0 {
        var truncated := FreeName(rules, "_truncated", names);
        NamesCut(rules, c.keys, names, truncated);
        DictCut(rules, heap, id, depth, active, start, names, values, truncated);
        return Mapping(names + [truncated], values + [LIMIT]);
      }
      ghost var now := state.remaining;
      var name := FreeName(rules, SanitizedKey(rules, c.keys[i]), names);
      KeyAdded(rules, c.keys, names, name);
      var value := Sanitize(rules, heap, c.keys[i], c.values[i], state, depth + 1);
      WalkingNext(rules, heap, id, depth, active, start, now, state.remaining, values, value);
      names := names + [name];
      values := values + [value];
    }
    DictDone(rules, heap, id, depth, active, start, state.remaining, names, values);
    d := Mapping(names, values);
  }

  lemma {:induction false} DictDone(rules: Rules, heap: Heap, id: nat, depth: nat, active: set<nat>, before: nat,
                                    now: nat, names: seq<string>,
                                    values: seq<Detail>)
    requires HeapOk(heap) && id in heap && heap[id].Dict? && depth < MAX_DEPTH && |names| == |values| == |heap[id].values|
    requires Walking(rules, heap, id, depth, active, before, now, values)
    requires NamesOk(names) && KeysRendered(rules, heap[id].keys, names, |names|)
    ensures Contained(rules, heap, id, depth, active, before, now, Mapping(names, values))
  {
  }

  lemma {:induction false} NamesCut(rules: Rules, from: seq<string>, names: seq<string>, truncated: string)
    requires KeysRendered(rules, from, names, |names|) && IsFree("_truncated", Elements(names), truncated)
    ensures NamesShown(rules, from, names + [truncated], true)
  {
    KeysOfPrefix(rules, from, names, truncated, |names|);
    assert (names + [truncated])[..|names|] == names;
  }

  lemma {:induction false} DictCut(rules: Rules, heap: Heap, id: nat, depth: nat, active: set<nat>, before: nat,
                                   names: seq<string>, values: seq<Detail>, truncated: string)
    requires HeapOk(heap) && id in heap && heap[id].Dict? && depth < MAX_DEPTH && |names| == |values| < |heap[id].values|
    requires Walking(rules, heap, id, depth, active, before, 0, values) && NamesOk(names + [truncated])
    requires NamesShown(rules, heap[id].keys, names + [truncated], true)
    ensures Contained(rules, heap, id, depth, active, before, 0, Mapping(names + [truncated], values + [LIMIT]))
  {
    MarkerAdded(depth, before, values);
    RanOut(rules, heap, id, depth + 1, active, before, |values|);
    ValuesCut(rules, heap, id, depth + 1, active, before, values);
    MappingOk(names + [truncated], values + [LIMIT]);
  }

  lemma {:induction false} MappingOk(names: seq<string>, values: seq<Detail>)
    requires NamesOk(names) && |names| == |values| && forall i :: 0 <= i < |values| ==> KeysOk(values[i])
    ensures KeysOk(Mapping(names, values)) && Nodes(Mapping(names, values)) == 1 + NodesUpTo(values, |values|)
  {
  }

  // ---------------------------------------------------------------------------
  // What a result shows
  // ---------------------------------------------------------------------------

  /** A value whose whole weight is within the budget is rendered whole. */
  lemma {:induction false} EnoughRenders(rules: Rules, heap: Heap, key: string, v: Value, depth: nat, active: set<nat>,
                                         budget: nat, d: Detail)
    requires HeapOk(heap) && Known(heap, v) && depth <= MAX_DEPTH && budget > 0
    requires Shows(rules, heap, key, v, depth, active, budget, d)
    requires Weight(rules, heap, key, v, depth, active) <= budget
    ensures Renders(rules, heap, key, v, depth, active, d)
    decreases MAX_DEPTH - depth, 1
  {
    if Opens(rules, key, v, depth, active) {
      OpenedShows(rules, heap, key, v, depth, active, budget, d);
      OpenedWeighs(rules, heap, key, v, depth, active);
      EnoughRendersContainer(rules, heap, v.id, depth, active + {v.id}, budget - 1, d);
    }
  }

  lemma {:induction false} EnoughRendersContainer(rules: Rules, heap: Heap, id: nat, depth: nat, active: set<nat>, budget: nat,
                                                  d: Detail)
    requires HeapOk(heap) && id in heap && depth < MAX_DEPTH && ContainerShown(rules, heap, id, depth, active, budget, d)
    requires WeightUpTo(rules, heap, id, depth + 1, active, |heap[id].values|) <= budget
    ensures ContainerRendered(rules, heap, id, depth, active, d)
    decreases MAX_DEPTH - depth, 0
  {
    WholeContainer(rules, heap, id, depth, active, budget, d);
    EnoughRendersAll(rules, heap, id, depth + 1, active, budget, d.values, |d.values|);
  }

  lemma {:induction false} EnoughRendersAll(rules: Rules, heap: Heap, id: nat, depth: nat, active: set<nat>, budget: nat,
                                            values: seq<Detail>, n: nat)
    requires HeapOk(heap) && id in heap && depth <= MAX_DEPTH && n <= |values| && n <= |heap[id].values|
    requires AllShown(rules, heap, id, depth, active, budget, values, n)
    requires WeightUpTo(rules, heap, id, depth, active, n) <= budget
    ensures AllRendered(rules, heap, id, depth, active, values, n)
    decreases MAX_DEPTH - depth, 2, n
  {
    if n > 0 {
      EnoughRendersAll(rules, heap, id, depth, active, budget, values, n - 1);
      EnoughRenders(rules, heap, KeyAt(heap[id], n - 1), heap[id].values[n - 1], depth, active,
                    budget - WeightUpTo(rules, heap, id, depth, active, n - 1), values[n - 1]);
    }
  }

  lemma {:induction false} OpenedShows(rules: Rules, heap: Heap, key: string, v: Value, depth: nat, active: set<nat>,
                                       budget: nat, d: Detail)
    requires HeapOk(heap) && Known(heap, v) && depth <= MAX_DEPTH && budget > 0 && Opens(rules, key, v, depth, active)
    requires Shows(rules, heap, key, v, depth, active, budget, d)
    ensures ContainerShown(rules, heap, v.id, depth, active + {v.id}, budget - 1, d)
  {
  }

  lemma {:induction false} OpenedWeighs(rules: Rules, heap: Heap, key: string, v: Value, depth: nat, active: set<nat>)
    requires HeapOk(heap) && Known(heap, v) && depth <= MAX_DEPTH && Opens(rules, key, v, depth, active)
    ensures Weight(rules, heap, key, v, depth, active) ==
            1 + WeightUpTo(rules, heap, v.id, depth + 1, active + {v.id}, |heap[v.id].values|)
  {
  }

  lemma {:induction false} WholeContainer(rules: Rules, heap: Heap, id: nat, depth: nat, active: set<nat>, budget: nat, d: Detail)
    requires HeapOk(heap) && id in heap && depth < MAX_DEPTH && ContainerShown(rules, heap, id, depth, active, budget, d)
    requires WeightUpTo(rules, heap, id, depth + 1, active, |heap[id].values|) <= budget
    ensures SameKind(heap[id], d) && (heap[id].Dict? ==> KeysRendered(rules, heap[id].keys, d.keys, |d.keys|))
    ensures |d.values| == |heap[id].values| && AllShown(rules, heap, id, depth + 1, active, budget, d.values, |d.values|)
  {
    EnoughForAll(rules, heap, id, depth + 1, active, budget);
  }

  lemma {:induction false} EnoughForAll(rules: Rules, heap: Heap, id: nat, depth: nat, active: set<nat>, budget: nat)
    requires HeapOk(heap) && id in heap && depth <= MAX_DEPTH
    requires WeightUpTo(rules, heap, id, depth, active, |heap[id].values|) <= budget
    ensures !IsCut(rules, heap, id, depth, active, budget)
  {
    if |heap[id].values| > 0 {
      WeightRises(rules, heap, id, depth, active, |heap[id].values| - 1, |heap[id].values|);
    }
  }

  /** A text that the patterns have gone over. */
  ghost predicate Redacted(rules: Rules, heap: Heap, s: string)
  {
    exists id, i :: id in heap && 0 <= i < |heap[id].values| && RedactedFrom(rules, heap[id].values[i], s)
  }

  predicate RedactedFrom(rules: Rules, v: Value, s: string)
  {
    v.Str? && s == rules.redact(v.s)
  }

  /** Every text of the result is a marker, or was redacted. */
  ghost predicate Clean(rules: Rules, heap: Heap, d: Detail)
  {
    && (d.TextDetail? ==> d == REDACTED || d == NON_FINITE || d == LIMIT || Redacted(rules, heap, d.s))
    && (d.Mapping? || d.Items? ==> forall i :: 0 <= i < |d.values| ==> Clean(rules, heap, d.values[i]))
  }

  predicate Secret(rules: Rules, key: string)
  {
    rules.namesSecret(key) || |key| > 4096
  }

  /** Nothing is shown of a value under a key that names a secret or is too long to tell, at any
      depth, and a scalar under any other key is shown. */
  ghost predicate Hides(rules: Rules, heap: Heap, v: Value, d: Detail)
    requires HeapOk(heap)
    decreases d
  {
    (d.Mapping? || d.Items?) && v.Ref? && v.id in heap ==>
      forall j :: 0 <= j < |d.values| && j < |heap[v.id].values| ==>
        && HidesOne(rules, KeyAt(heap[v.id], j), heap[v.id].values[j], d.values[j])
        && Hides(rules, heap, heap[v.id].values[j], d.values[j])
  }

  predicate HidesOne(rules: Rules, key: string, v: Value, d: Detail)
  {
    d != LIMIT ==> if Secret(rules, key) then d == REDACTED else !v.Ref? ==> d == Scalar(rules, v)
  }

  /** The number of items in front of the marker. */
  ghost function Begun(rules: Rules, heap: Heap, id: nat, depth: nat, active: set<nat>, budget: nat, values: seq<Detail>): nat
    requires HeapOk(heap) && id in heap && depth <= MAX_DEPTH && ValuesShown(rules, heap, id, depth, active, budget, values)
  {
    if IsCut(rules, heap, id, depth, active, budget) then |values| - 1 else |values|
  }

  /** Within any budget no text comes through that was not redacted. */
  lemma {:induction false} ShownIsClean(rules: Rules, heap: Heap, key: string, v: Value, depth: nat, active: set<nat>,
                                        budget: nat, d: Detail)
    requires HeapOk(heap) && Known(heap, v) && depth <= MAX_DEPTH && budget > 0
    requires Shows(rules, heap, key, v, depth, active, budget, d)
    requires v.Str? ==> Redacted(rules, heap, rules.redact(v.s))
    ensures Clean(rules, heap, d)
    decreases MAX_DEPTH - depth, 1
  {
    if Opens(rules, key, v, depth, active) {
      OpenedShows(rules, heap, key, v, depth, active, budget, d);
      var n := Begun(rules, heap, v.id, depth + 1, active + {v.id}, budget - 1, d.values);
      ItemsAreClean(rules, heap, v.id, depth + 1, active + {v.id}, budget - 1, d.values, n);
    }
  }

  lemma {:induction false} ItemsAreClean(rules: Rules, heap: Heap, id: nat, depth: nat, active: set<nat>, budget: nat,
                                         values: seq<Detail>, n: nat)
    requires HeapOk(heap) && id in heap && depth <= MAX_DEPTH && n <= |values| && n <= |heap[id].values|
    requires AllShown(rules, heap, id, depth, active, budget, values, n)
    ensures forall i :: 0 <= i < n ==> Clean(rules, heap, values[i])
    decreases MAX_DEPTH - depth, 2, n
  {
    if n > 0 {
      ItemsAreClean(rules, heap, id, depth, active, budget, values, n - 1);
      var v := heap[id].values[n - 1];
      if v.Str? {
        assert RedactedFrom(rules, heap[id].values[n - 1], rules.redact(v.s));
      }
      ShownIsClean(rules, heap, KeyAt(heap[id], n - 1), v, depth, active,
                   budget - WeightUpTo(rules, heap, id, depth, active, n - 1), values[n - 1]);
    }
  }

  /** Within any budget nothing is shown of a value under a secret key. */
  lemma {:induction false} ShownHides(rules: Rules, heap: Heap, key: string, v: Value, depth: nat, active: set<nat>, budget: nat,
                                      d: Detail)
    requires HeapOk(heap) && Known(heap, v) && depth <= MAX_DEPTH && budget > 0
    requires Shows(rules, heap, key, v, depth, active, budget, d)
    ensures HidesOne(rules, key, v, d)
    ensures Hides(rules, heap, v, d)
    decreases MAX_DEPTH - depth, 1
  {
    if Opens(rules, key, v, depth, active) {
      OpenedShows(rules, heap, key, v, depth, active, budget, d);
      var n := Begun(rules, heap, v.id, depth + 1, active + {v.id}, budget - 1, d.values);
      ItemsHide(rules, heap, v.id, depth + 1, active + {v.id}, budget - 1, d.values, n);
    }
  }

  lemma {:induction false} ItemsHide(rules: Rules, heap: Heap, id: nat, depth: nat, active: set<nat>, budget: nat,
                                     values: seq<Detail>, n: nat)
    requires HeapOk(heap) && id in heap && depth <= MAX_DEPTH && n <= |values| && n <= |heap[id].values|
    requires AllShown(rules, heap, id, depth, active, budget, values, n)
    ensures forall j :: 0 <= j < n ==>
              && HidesOne(rules, KeyAt(heap[id], j), heap[id].values[j], values[j])
              && Hides(rules, heap, heap[id].values[j], values[j])
    decreases MAX_DEPTH - depth, 2, n
  {
    if n > 0 {
      ItemsHide(rules, heap, id, depth, active, budget, values, n - 1);
      ShownHides(rules, heap, KeyAt(heap[id], n - 1), heap[id].values[n - 1], depth, active,
                 budget - WeightUpTo(rules, heap, id, depth, active, n - 1), values[n - 1]);
    }
  }

  /** `_sanitize_details`: the whole detail of an error. */
  method SanitizeDetails(rules: Rules, heap: Heap, root: nat) returns (d: Detail)
    requires HeapOk(heap) && root in heap && heap[root].Dict?
    ensures d.Mapping? && KeysOk(d) && Nodes(d) <= 272
    ensures if Sensitive(rules, "") then d == Mapping(["_details"], [REDACTED])
            else Shows(rules, heap, "", Ref(root), 0, {}, MAX_ITEMS, d)
    ensures Clean(rules, heap, d) && (!rules.namesSecret("") ==> Hides(rules, heap, Ref(root), d))
    ensures Weight(rules, heap, "", Ref(root), 0, {}) <= MAX_ITEMS && !Sensitive(rules, "") ==>
            Renders(rules, heap, "", Ref(root), 0, {}, d)
  {
    var state := new State();
    var sanitized := Sanitize(rules, heap, "", Ref(root), state, 0);
    ShownIsClean(rules, heap, "", Ref(root), 0, {}, MAX_ITEMS, sanitized);
    if sanitized.Mapping? {
      ShownHides(rules, heap, "", Ref(root), 0, {}, MAX_ITEMS, sanitized);
      if Weight(rules, heap, "", Ref(root), 0, {}) <= MAX_ITEMS {
        EnoughRenders(rules, heap, "", Ref(root), 0, {}, MAX_ITEMS, sanitized);
      }
      return sanitized;
    }
    NodesNext([], sanitized);
    assert [] + [sanitized] == [sanitized];
    d := Mapping(["_details"], [sanitized]);
  }
}
