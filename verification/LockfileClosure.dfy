/** The closure of a package over the dependencies recorded in a lockfile. */
module LockfileClosure {
  import opened Wrappers
  import opened Collections
  import opened Graphs

  /** `None` as a list item is an entry that is no table or has no usable name. */
  datatype Dependencies = NotAList | Listed(names: seq<Option<string>>)

  /** A package table of the lockfile; `version` is `None` unless it is a text. */
  datatype Package = Package(name: string, registry: bool, version: Option<string>, dependencies: Dependencies)

  // ---------------------------------------------------------------------------
  // Names
  // ---------------------------------------------------------------------------

  predicate Separator(c: char)
  {
    c == '-' || c == '_' || c == '.'
  }

  /** Every run of separators becomes one hyphen. */
  function Collapsed(name: string): string
  {
    if |name| == 0 then ""
    else
      var front, last := Collapsed(name[..|name| - 1]), name[|name| - 1];
      if !Separator(last) then front + [last]
      else if |name| > 1 && Separator(name[|name| - 2]) then front
      else front + "-"
  }

  /** In a collapsed name hyphens are the only separators and never meet. */
  ghost predicate IsCollapsed(s: string)
  {
    && (forall i :: 0 <= i < |s| ==> s[i] != '_' && s[i] != '.')
    && (forall i, j :: 0 <= i && j == i + 1 && j < |s| ==> s[i] != '-' || s[j] != '-')
  }

  lemma {:induction false} CollapsedIsCollapsed(name: string)
    ensures IsCollapsed(Collapsed(name))
    ensures |name| > 0 ==> |Collapsed(name)| > 0
    ensures |name| > 0 ==> (Separator(Collapsed(name)[|Collapsed(name)| - 1]) <==> Separator(name[|name| - 1]))
    decreases |name|
  {
    if |name| > 0 {
      CollapsedIsCollapsed(name[..|name| - 1]);
    }
  }

  /** A collapsed name is its own normal form. */
  lemma {:induction false} CollapsedStays(s: string)
    requires IsCollapsed(s)
    ensures Collapsed(s) == s
    decreases |s|
  {
    if |s| > 0 {
      var front := s[..|s| - 1];
      assert forall i, j :: 0 <= i && j == i + 1 && j < |front| ==> front[i] == s[i] && front[j] == s[j];
      CollapsedStays(front);
      assert s == front + [s[|s| - 1]];
      if |s| > 1 {
        var i, j := |s| - 2, |s| - 1;
        assert !(Separator(s[i]) && Separator(s[j]));
      }
    }
  }

  /** `lower` stands for the case mapping of texts. */
  function Normalized(lower: string -> string, name: string): string
  {
    lower(Collapsed(name))
  }

  /** The case mapping leaves a collapsed name collapsed and does nothing a second time. */
  ghost predicate KeepsNames(lower: string -> string)
  {
    && (forall s :: IsCollapsed(s) ==> IsCollapsed(lower(s)))
    && (forall s :: lower(lower(s)) == lower(s))
  }

  /** A normalized name has hyphens as its only separators, never two in a row, and is its
      own normal form. */
  lemma {:induction false} NormalizedIsStable(lower: string -> string, name: string)
    requires KeepsNames(lower)
    ensures IsCollapsed(Normalized(lower, name))
    ensures Normalized(lower, Normalized(lower, name)) == Normalized(lower, name)
  {
    CollapsedIsCollapsed(name);
    CollapsedStays(Normalized(lower, name));
  }

  // ---------------------------------------------------------------------------
  // The dependency graph
  // ---------------------------------------------------------------------------

  type Index = map<string, seq<Package>>

  function Grouped(lower: string -> string, packages: seq<Package>, n: nat): Index
    requires n <= |packages|
  {
    if n == 0 then map[]
    else
      var before, name := Grouped(lower, packages, n - 1), Normalized(lower, packages[n - 1].name);
      before[name := (if name in before then before[name] else []) + [packages[n - 1]]]
  }

  /** One entry from a registry, with a version and readable dependencies. */
  predicate Sound(index: Index, name: string)
  {
    && name in index && |index[name]| == 1
    && var p := index[name][0];
    p.registry && p.version.Some? && p.version.value != "" && p.dependencies.Listed? &&
    forall d :: d in p.dependencies.names ==> d.Some? && d.value != ""
  }

  function NamesUpTo(lower: string -> string, names: seq<Option<string>>, n: nat): set<string>
    requires n <= |names|
  {
    if n == 0 then {}
    else NamesUpTo(lower, names, n - 1) + if names[n - 1].Some? then {Normalized(lower, names[n - 1].value)} else {}
  }

  /** The packages a package needs, as far as its entry can be read. */
  function Needs(lower: string -> string, index: Index, name: string): set<string>
  {
    if Sound(index, name) then
      NamesUpTo(lower, index[name][0].dependencies.names, |index[name][0].dependencies.names|)
    else {}
  }

  function NeedsGraph(lower: string -> string, index: Index): map<string, set<string>>
  {
    map n | n in index :: Needs(lower, index, n)
  }

  ghost predicate AllReachableSound(lower: string -> string, index: Index, root: string)
  {
    forall n :: Reaches(NeedsGraph(lower, index), root, n) ==> Sound(index, n)
  }

  /** Exactly the packages reachable from the root, each with its one version. */
  ghost predicate IsClosure(lower: string -> string, index: Index, root: string, closure: map<string, string>)
  {
    && (forall n :: n in closure <==> Reaches(NeedsGraph(lower, index), root, n))
    && (forall n :: n in closure ==> Sound(index, n) && closure[n] == index[n][0].version.value)
  }

  // ---------------------------------------------------------------------------
  // The worklist
  // ---------------------------------------------------------------------------

  /** Pushes the dependencies of a package that is sound but for them. */
  method PushDependencies(lower: string -> string, names: seq<Option<string>>,
                          pending0: seq<string>) returns (ok: bool, pending: seq<string>)
    ensures ok <==> forall d :: d in names ==> d.Some? && d.value != ""
    ensures ok ==> Elements(pending) == Elements(pending0) + NamesUpTo(lower, names, |names|)
  {
    pending := pending0;
    for i := 0 to |names|
      invariant forall j :: 0 <= j < i ==> names[j].Some? && names[j].value != ""
      invariant Elements(pending) == Elements(pending0) + NamesUpTo(lower, names, i)
    {
      if names[i].None? || names[i].value == "" {
        return false, pending;
      }
      ElementsOfAppend(pending, Normalized(lower, names[i].value));
      pending := pending + [Normalized(lower, names[i].value)];
    }
    ok := true;
  }

  /** Every package in the closure is sound, and what it needs is in the closure or pending. */
  ghost predicate Collecting(lower: string -> string, index: Index, root: string, pending: seq<string>,
                             closure: map<string, string>)
  {
    && (root in closure || root in pending)
    && (forall n :: n in closure || n in pending ==> Reaches(NeedsGraph(lower, index), root, n))
    && (forall n :: n in closure ==> Sound(index, n) && closure[n] == index[n][0].version.value)
    && (forall n :: n in closure ==> Needs(lower, index, n) <= closure.Keys + Elements(pending))
  }

  lemma {:induction false} PackageCollected(lower: string -> string, index: Index, root: string, pending: seq<string>,
                                            closure: map<string, string>,
                                            after: seq<string>)
    requires |pending| > 0 && Collecting(lower, index, root, pending, closure)
    requires var n := pending[|pending| - 1]; n !in closure && Sound(index, n)
    requires Elements(after) == Elements(pending[..|pending| - 1]) + Needs(lower, index, pending[|pending| - 1])
    ensures var n := pending[|pending| - 1];
            Collecting(lower, index, root, after, closure[n := index[n][0].version.value])
  {
    var n, graph := pending[|pending| - 1], NeedsGraph(lower, index);
    var later := closure[n := index[n][0].version.value];
    ElementsOfPop(pending);
    assert forall m :: m in pending ==> m in Elements(pending);
    assert root in later || root in Elements(after);
    forall m | m in later || m in after
      ensures Reaches(graph, root, m)
    {
      if m !in closure && m !in pending {
        assert m in Elements(after) && m in Needs(lower, index, n);
        ReachesByStep(graph, n, m);
        ReachesTransitive(graph, root, n, m);
      }
    }
    forall m | m in later
      ensures Needs(lower, index, m) <= later.Keys + Elements(after)
    {
    }
  }

  lemma {:induction false} SeenAgain(lower: string -> string, index: Index, root: string, pending: seq<string>,
                                     closure: map<string, string>)
    requires |pending| > 0 && Collecting(lower, index, root, pending, closure) && pending[|pending| - 1] in closure
    ensures Collecting(lower, index, root, pending[..|pending| - 1], closure)
  {
    ElementsOfPop(pending);
    assert forall m :: m in pending <==> m in Elements(pending);
  }

  lemma {:induction false} AllCollected(lower: string -> string, index: Index, root: string, closure: map<string,
                                        string>)
    requires Collecting(lower, index, root, [], closure)
    ensures IsClosure(lower, index, root, closure) && AllReachableSound(lower, index, root)
  {
    var graph := NeedsGraph(lower, index);
    forall n | Reaches(graph, root, n)
      ensures n in closure
    {
      ReachesStaysInside(graph, closure.Keys, root, n);
    }
  }

  method IndexPackages(lower: string -> string, packages: seq<Option<Package>>) returns (index: Option<Index>)
    ensures index.Some? <==> forall p :: p in packages ==> p.Some?
    ensures index.Some? ==> index.value == Grouped(lower, Tables(packages), |packages|)
  {
    var found: Index := map[];
    for i := 0 to |packages|
      invariant forall j :: 0 <= j < i ==> packages[j].Some?
      invariant found == Grouped(lower, Tables(packages), i)
    {
      if packages[i].None? {
        return None;
      }
      var p := packages[i].value;
      var name := Normalized(lower, p.name);
      assert Tables(packages)[i] == p;
      found := found[name := (if name in found then found[name] else []) + [p]];
    }
    index := Some(found);
  }

  /** The entries as tables; a stand-in for those that are none. */
  function Tables(packages: seq<Option<Package>>): (tables: seq<Package>)
    ensures |tables| == |packages|
  {
    seq(|packages|, i requires 0 <= i < |packages| =>
      if packages[i].Some? then packages[i].value else Package("", false, None, NotAList))
  }

  /** All packages of the lockfile by normalized name. */
  function IndexOf(lower: string -> string, packages: seq<Option<Package>>): Index
  {
    Grouped(lower, Tables(packages), |packages|)
  }

  method LockedRegistryClosure(lower: string -> string, packages: seq<Option<Package>>,
                               rootName: string) returns (r: Option<map<string, string>>)
    ensures r.Some? <==> (forall p :: p in packages ==> p.Some?) &&
                         AllReachableSound(lower, IndexOf(lower, packages), Normalized(lower, rootName))
    ensures r.Some? ==> IsClosure(lower, IndexOf(lower, packages), Normalized(lower, rootName), r.value)
  {
    var indexed := IndexPackages(lower, packages);
    if indexed.None? {
      return None;
    }
    r := Collect(lower, indexed.value, Normalized(lower, rootName));
  }

  /** Takes the last package off the worklist. */
  method CollectNext(lower: string -> string, index: Index, root: string, pending0: seq<string>, closure0: map<string,
                     string>)
    returns (ok: bool, pending: seq<string>, closure: map<string, string>)
    requires |pending0| > 0 && Collecting(lower, index, root, pending0, closure0)
    ensures ok ==> Collecting(lower, index, root, pending, closure)
    ensures ok ==> if pending0[|pending0| - 1] in closure0 then closure == closure0 && |pending| == |pending0| - 1
                   else pending0[|pending0| - 1] in index && closure.Keys == closure0.Keys + {pending0[|pending0| - 1]}
    ensures !ok ==> exists n :: n in pending0 && !Sound(index, n)
  {
    var name := pending0[|pending0| - 1];
    ok, pending, closure := false, pending0[..|pending0| - 1], closure0;
    if name in closure0 {
      SeenAgain(lower, index, root, pending0, closure0);
      ok := true;
      return;
    }
    assert name in pending0;
    if !SoundButDependencies(index, name) {
      return;
    }
    ok, pending := PushDependencies(lower, index[name][0].dependencies.names, pending);
    if ok {
      PackageCollected(lower, index, root, pending0, closure0, pending);
      closure := closure0[name := index[name][0].version.value];
    }
  }

  method Collect(lower: string -> string, index: Index, root: string) returns (r: Option<map<string, string>>)
    ensures r.Some? <==> AllReachableSound(lower, index, root)
    ensures r.Some? ==> IsClosure(lower, index, root, r.value)
  {
    var pending := [root];
    var closure: map<string, string> := map[];
    ReachesSelf(NeedsGraph(lower, index), root);
    while |pending| > 0
      invariant closure.Keys <= index.Keys
      invariant Collecting(lower, index, root, pending, closure)
      decreases |index.Keys - closure.Keys|, |pending|
    {
      ghost var name, before := pending[|pending| - 1], closure.Keys;
      if name !in before && name in index {
        OneMoreOf(index.Keys, before, name);
      }
      var ok;
      ok, pending, closure := CollectNext(lower, index, root, pending, closure);
      if !ok {
        return None;
      }
    }
    assert pending == [];
    AllCollected(lower, index, root, closure);
    r := Some(closure);
  }

  predicate SoundButDependencies(index: Index, name: string)
  {
    && name in index && |index[name]| == 1
    && var p := index[name][0]; p.registry && p.version.Some? && p.version.value != "" && p.dependencies.Listed?
  }
}
