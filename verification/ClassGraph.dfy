/** The exception-lattice gate: alias chasing and the subtree below a class. */
module ClassGraph {

  type Name = string

  /** Module-level aliases, `X = Y`. */
  type Aliases = map<Name, Name>

  /** Canonical base names of each class that has any. */
  type Parents = map<Name, set<Name>>

  // ---------------------------------------------------------------- aliases

  /** `path` follows the aliases from `name`, one step at a time. */
  ghost predicate Follows(aliases: Aliases, name: Name, path: seq<Name>) {
    && path != [] && path[0] == name
    && forall i :: 0 <= i < |path| - 1 ==> path[i] in aliases && aliases[path[i]] == path[i + 1]
  }

  ghost predicate NoRepeats(path: seq<Name>) {
    forall i, j :: 0 <= i < j < |path| ==> path[i] != path[j]
  }

  /** Chasing `name` stops at `end`: the first name that is no alias, or that was met before. */
  ghost predicate ChasesTo(aliases: Aliases, name: Name, end: Name) {
    exists trail :: StopsAfter(aliases, name, trail, end)
  }

  ghost predicate StopsAfter(aliases: Aliases, name: Name, trail: seq<Name>, end: Name) {
    Follows(aliases, name, trail + [end]) && NoRepeats(trail) && (end !in aliases || end in trail)
  }

  method CanonicalBase(aliases: Aliases, name: Name) returns (current: Name)
    ensures ChasesTo(aliases, name, current)
  {
    var seen: set<Name> := {};
    current := name;
    ghost var trail: seq<Name> := [];
    while current in aliases && current !in seen
      invariant Follows(aliases, name, trail + [current]) && NoRepeats(trail)
      invariant forall n :: n in seen <==> n in trail
      invariant seen <= aliases.Keys
      decreases aliases.Keys - seen
    {
      seen := seen + {current};
      OneMoreStep(aliases, name, trail, current);
      trail := trail + [current];
      current := aliases[current];
    }
    assert StopsAfter(aliases, name, trail, current);
  }

  lemma OneMoreStep(aliases: Aliases, name: Name, trail: seq<Name>, current: Name)
    requires Follows(aliases, name, trail + [current]) && current in aliases
    ensures Follows(aliases, name, trail + [current] + [aliases[current]])
  {
    var path, next := trail + [current], trail + [current] + [aliases[current]];
    forall i | 0 <= i < |next| - 1 ensures next[i] in aliases && aliases[next[i]] == next[i + 1] {
      assert next[i] == path[i];
    }
  }

  /** Where the chain of aliases ends, the chase ends there; it can stop at an alias only on a cycle. */
  lemma ChaseIsCanonical(aliases: Aliases, name: Name, current: Name, other: seq<Name>)
    requires ChasesTo(aliases, name, current)
    requires Follows(aliases, name, other) && other[|other| - 1] !in aliases
    ensures current == other[|other| - 1]
  {
    var trail :| StopsAfter(aliases, name, trail, current);
    var path := trail + [current];
    SameSteps(aliases, name, path, other, if |path| <= |other| then |path| - 1 else |other| - 1);
    if |path| < |other| {
      var last := path[|path| - 1];
      assert last in aliases by {
        assert other[|path| - 1] in aliases;
      }
      var i :| 0 <= i < |trail| && trail[i] == last;
      assert path[i] == last;
      CycleNeverEnds(aliases, name, path, i, other);
    }
  }

  lemma {:induction false} SameSteps(aliases: Aliases, name: Name, path: seq<Name>, other: seq<Name>, k: nat)
    requires Follows(aliases, name, path) && Follows(aliases, name, other) && k < |path| && k < |other|
    ensures path[k] == other[k]
  {
    if k > 0 {
      SameSteps(aliases, name, path, other, k - 1);
    }
  }

  /** Once the aliases loop, every further step is back on the loop. */
  lemma {:induction false} CycleNeverEnds(aliases: Aliases, name: Name, path: seq<Name>, i: nat, other: seq<Name>)
    requires Follows(aliases, name, path) && i < |path| - 1 && path[i] == path[|path| - 1]
    requires Follows(aliases, name, other) && |other| >= |path|
    ensures other[|other| - 1] in aliases
  {
    StaysOnPath(aliases, name, path, i, other, |other| - 1);
  }

  lemma {:induction false} StaysOnPath(aliases: Aliases, name: Name, path: seq<Name>, i: nat, other: seq<Name>, k: nat)
    requires Follows(aliases, name, path) && i < |path| - 1 && path[i] == path[|path| - 1]
    requires Follows(aliases, name, other) && k < |other|
    ensures exists j :: 0 <= j < |path| - 1 && path[j] == other[k]
  {
    if k == 0 {
      assert path[0] == other[0];
    } else {
      StaysOnPath(aliases, name, path, i, other, k - 1);
      var j :| 0 <= j < |path| - 1 && path[j] == other[k - 1];
      if j + 1 == |path| - 1 {
        assert path[i] == other[k];
      } else {
        assert path[j + 1] == other[k];
      }
    }
  }

  // ---------------------------------------------------------------- descendants

  predicate IsChild(parents: Parents, base: Name, child: Name) { child in parents && base in parents[child] }

  /** A chain of one or more child edges from `root` to `name`. */
  ghost predicate Descends(parents: Parents, root: Name, name: Name, chain: seq<Name>) {
    && |chain| >= 2 && chain[0] == root && chain[|chain| - 1] == name
    && forall i :: 0 <= i < |chain| - 1 ==> IsChild(parents, chain[i], chain[i + 1])
  }

  ghost predicate IsDescendant(parents: Parents, root: Name, name: Name) {
    exists chain :: Descends(parents, root, name, chain)
  }

  lemma DescendFurther(parents: Parents, root: Name, name: Name, child: Name)
    requires (name == root || IsDescendant(parents, root, name)) && IsChild(parents, name, child)
    ensures IsDescendant(parents, root, child)
  {
    if name == root {
      assert Descends(parents, root, child, [root, child]);
    } else {
      var chain :| Descends(parents, root, name, chain);
      assert Descends(parents, root, child, chain + [child]);
    }
  }

  /** A set holding the children of the root and of all its members holds every descendant. */
  lemma {:induction false} ClosedHoldsDescendants(parents: Parents, root: Name, closed: set<Name>, name: Name,
                                                  chain: seq<Name>)
    requires forall child :: IsChild(parents, root, child) ==> child in closed
    requires forall base, child :: base in closed && IsChild(parents, base, child) ==> child in closed
    requires Descends(parents, root, name, chain)
    ensures name in closed
    decreases |chain|
  {
    var n := |chain| - 1;
    if n == 1 {
      assert IsChild(parents, chain[0], chain[1]);
    } else {
      ClosedHoldsDescendants(parents, root, closed, chain[n - 1], chain[..n]);
      assert IsChild(parents, chain[n - 1], chain[n]);
    }
  }

  function Children(edges: map<Name, set<Name>>, base: Name): set<Name> { if base in edges then edges[base] else {} }

  method ReverseEdges(parents: Parents) returns (edges: map<Name, set<Name>>)
    ensures forall base, child :: child in Children(edges, base) <==> IsChild(parents, base, child)
  {
    edges := map[];
    var left := parents.Keys;
    while left != {}
      invariant left <= parents.Keys
      invariant forall base, child :: child in Children(edges, base) <==> child !in left && IsChild(parents, base, child)
      decreases |left|
    {
      var child :| child in left;
      left := left - {child};
      edges := AddEdges(edges, parents[child], child);
    }
  }

  method AddEdges(edges: map<Name, set<Name>>, bases: set<Name>, child: Name) returns (next: map<Name, set<Name>>)
    ensures forall base, c :: c in Children(next, base) <==> c in Children(edges, base) || (c == child && base in bases)
  {
    next := edges;
    var left := bases;
    while left != {}
      invariant left <= bases
      invariant forall base, c ::
        c in Children(next, base) <==> c in Children(edges, base) || (c == child && base in bases && base !in left)
      decreases |left|
    {
      var base :| base in left;
      left := left - {base};
      next := next[base := Children(next, base) + {child}];
    }
  }

  /** The elements of a set, in some order. */
  method Listed(names: set<Name>) returns (list: seq<Name>)
    ensures forall n :: n in list <==> n in names
  {
    list := [];
    var left := names;
    while left != {}
      invariant left <= names && forall n :: n in list <==> n in names && n !in left
      decreases |left|
    {
      var n :| n in left;
      left := left - {n};
      list := list + [n];
    }
  }

  /** The stack-driven closure: exactly the names below `root`, cycles or not. */
  method Descendants(parents: Parents, root: Name) returns (descendants: set<Name>)
    ensures forall name :: name in descendants <==> IsDescendant(parents, root, name)
  {
    var edges := ReverseEdges(parents);
    descendants := {};
    var stack := Listed(Children(edges, root));
    forall name | name in stack ensures IsDescendant(parents, root, name) {
      DescendFurther(parents, root, root, name);
    }
    while stack != []
      invariant descendants <= parents.Keys
      invariant forall name :: name in stack || name in descendants ==> name in parents && IsDescendant(parents, root, name)
      invariant forall child :: IsChild(parents, root, child) ==> child in stack || child in descendants
      invariant forall base, child ::
        base in descendants && IsChild(parents, base, child) ==> child in stack || child in descendants
      decreases parents.Keys - descendants, |stack|
    {
      var top := |stack| - 1;
      var item := stack[top];
      assert forall name :: name in stack <==> name in stack[..top] || name == item by {
        assert stack == stack[..top] + [item];
      }
      stack := stack[..top];
      if item in descendants {
        continue;
      }
      descendants := descendants + {item};
      var more := Listed(Children(edges, item));
      forall name | name in more ensures IsDescendant(parents, root, name) {
        DescendFurther(parents, root, item, name);
      }
      stack := stack + more;
    }
    forall name | IsDescendant(parents, root, name) ensures name in descendants {
      var chain :| Descends(parents, root, name, chain);
      ClosedHoldsDescendants(parents, root, descendants, name, chain);
    }
  }
}
