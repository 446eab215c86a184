/** The dependency graph the stack planner walks: spec ids, `depends_on` edges,
    and what "reaches" means over them. */
module Graph {

  type SpecId = string

  // A spec id mapped to its whole `depends_on` list. An id with no entry has
  // no successors, whether it is retired, dangling or simply without deps.
  type Edges = map<SpecId, seq<SpecId>>

  function Succ(edges: Edges, a: SpecId): seq<SpecId> {
    if a in edges then edges[a] else []
  }

  // A walk with at least one edge.
  ghost predicate Walk(edges: Edges, p: seq<SpecId>) {
    |p| >= 2 && forall i :: 0 <= i < |p| - 1 ==> p[i + 1] in Succ(edges, p[i])
  }

  // The strict transitive closure of the edges.
  ghost predicate Reaches(edges: Edges, a: SpecId, b: SpecId) {
    exists p :: Walk(edges, p) && p[0] == a && p[|p| - 1] == b
  }

  lemma EdgeReaches(edges: Edges, a: SpecId, b: SpecId)
    requires b in Succ(edges, a)
    ensures Reaches(edges, a, b)
  {
    assert Walk(edges, [a, b]);
  }

  lemma ReachesPrepend(edges: Edges, a: SpecId, b: SpecId, c: SpecId)
    requires b in Succ(edges, a) && Reaches(edges, b, c)
    ensures Reaches(edges, a, c)
  {
    var p :| Walk(edges, p) && p[0] == b && p[|p| - 1] == c;
    var q := [a] + p;
    assert forall i :: 0 < i < |q| ==> q[i] == p[i - 1];
    assert Walk(edges, q);
  }

  lemma ReachesAppend(edges: Edges, a: SpecId, b: SpecId, c: SpecId)
    requires Reaches(edges, a, b) && c in Succ(edges, b)
    ensures Reaches(edges, a, c)
  {
    var p :| Walk(edges, p) && p[0] == a && p[|p| - 1] == b;
    assert Walk(edges, p + [c]);
  }

  // Either one edge, or one edge and then a walk.
  lemma ReachesFirst(edges: Edges, a: SpecId, c: SpecId) returns (b: SpecId)
    requires Reaches(edges, a, c)
    ensures b in Succ(edges, a) && (b == c || Reaches(edges, b, c))
  {
    var p :| Walk(edges, p) && p[0] == a && p[|p| - 1] == c;
    b := p[1];
    if |p| > 2 {
      var q := p[1..];
      assert forall i :: 0 <= i < |q| ==> q[i] == p[i + 1];
      assert Walk(edges, q);
    }
  }

  // A set closed under the edges of itself and of `a` holds everything `a` reaches.
  lemma {:induction false} ClosedHoldsReached(edges: Edges, a: SpecId, closed: set<SpecId>, p: seq<SpecId>)
    requires forall v, w :: v in closed + {a} && w in Succ(edges, v) ==> w in closed
    requires Walk(edges, p) && p[0] == a
    ensures p[|p| - 1] in closed
  {
    var i := 1;
    while i < |p| - 1
      invariant 1 <= i <= |p| - 1
      invariant p[i] in closed
    {
      assert p[i + 1] in Succ(edges, p[i]);
      i := i + 1;
    }
  }

  // Every id an edge list names: the finite universe a walk can visit.
  function Named(edges: Edges): set<SpecId> {
    set k, i | k in edges && 0 <= i < |edges[k]| :: edges[k][i]
  }

  // A depth-first walk midway: `popped` is what left the stack so far, and
  // every successor of a visited id has been popped or is still to be.
  ghost predicate Walking(edges: Edges, start: SpecId, visited: set<SpecId>, popped: set<SpecId>, stack: seq<SpecId>) {
    && visited == popped + {start} && popped <= Named(edges)
    && (forall x :: x in stack ==> x in Named(edges) && Reaches(edges, start, x))
    && (forall x :: x in popped ==> Reaches(edges, start, x))
    && (forall v, w :: v in visited && w in Succ(edges, v) ==> w in popped || w in stack)
  }

  lemma WalkStarts(edges: Edges, start: SpecId)
    ensures Walking(edges, start, {start}, {}, Succ(edges, start))
  {
    forall x | x in Succ(edges, start) ensures Reaches(edges, start, x) { EdgeReaches(edges, start, x); }
  }

  lemma WalkSteps(edges: Edges, start: SpecId, visited: set<SpecId>, popped: set<SpecId>, stack: seq<SpecId>)
    requires Walking(edges, start, visited, popped, stack) && stack != []
    ensures var current, rest := stack[|stack| - 1], stack[..|stack| - 1];
      Walking(edges, start, visited + {current}, popped + {current},
              if current in visited then rest else rest + Succ(edges, current))
  {
    var current, rest := stack[|stack| - 1], stack[..|stack| - 1];
    assert stack == rest + [current];
    forall x | x in Succ(edges, current) ensures x in Named(edges) && Reaches(edges, start, x) {
      ReachesAppend(edges, start, current, x);
    }
  }

  lemma WalkEnds(edges: Edges, start: SpecId, visited: set<SpecId>, popped: set<SpecId>, x: SpecId)
    requires Walking(edges, start, visited, popped, [])
    ensures Reaches(edges, start, x) <==> x in popped
  {
    if Reaches(edges, start, x) {
      var p :| Walk(edges, p) && p[0] == start && p[|p| - 1] == x;
      ClosedHoldsReached(edges, start, popped, p);
    }
  }

  // What is left to visit shrinks when a new id is visited.
  function Unvisited(edges: Edges, start: SpecId, visited: set<SpecId>): nat {
    |Named(edges) + {start} - visited|
  }

  lemma UnvisitedShrinks(edges: Edges, start: SpecId, visited: set<SpecId>, current: SpecId)
    requires current in Named(edges) && current !in visited
    ensures Unvisited(edges, start, visited + {current}) < Unvisited(edges, start, visited)
  {
    var all := Named(edges) + {start};
    assert all - (visited + {current}) == (all - visited) - {current};
  }

  /** Every spec id a `depends_on` walk reaches from `start`, `start` itself
      left out, over any graph: cycles and dangling ids included. */
  method Reachable(start: SpecId, edges: Edges) returns (reached: set<SpecId>)
    ensures forall x :: x in reached <==> x != start && Reaches(edges, start, x)
  {
    reached := {};
    var visited := {start};
    var stack := Succ(edges, start);
    ghost var popped := {};
    WalkStarts(edges, start);
    while stack != []
      invariant Walking(edges, start, visited, popped, stack)
      invariant reached == popped - {start}
      decreases Unvisited(edges, start, visited), |stack|
    {
      WalkSteps(edges, start, visited, popped, stack);
      var current := stack[|stack| - 1];
      stack := stack[..|stack| - 1];
      popped := popped + {current};
      if current in visited {
        assert visited + {current} == visited;
        continue;
      }
      UnvisitedShrinks(edges, start, visited, current);
      visited := visited + {current};
      reached := reached + {current};
      stack := stack + Succ(edges, current);
    }
    forall x ensures Reaches(edges, start, x) <==> x in popped { WalkEnds(edges, start, visited, popped, x); }
  }

  /** Whether a forward walk from `start` reaches `target`. For equal ends this
      asks whether `start` sits on a cycle, since the target is compared before
      the visited set is. */
  method DependsOnPath(start: SpecId, target: SpecId, edges: Edges) returns (found: bool)
    ensures found <==> Reaches(edges, start, target)
  {
    var visited := {start};
    var stack := Succ(edges, start);
    ghost var popped := {};
    WalkStarts(edges, start);
    while stack != []
      invariant Walking(edges, start, visited, popped, stack)
      invariant target !in popped
      decreases Unvisited(edges, start, visited), |stack|
    {
      WalkSteps(edges, start, visited, popped, stack);
      var current := stack[|stack| - 1];
      stack := stack[..|stack| - 1];
      if current == target {
        return true;
      }
      popped := popped + {current};
      if current in visited {
        assert visited + {current} == visited;
        continue;
      }
      UnvisitedShrinks(edges, start, visited, current);
      visited := visited + {current};
      stack := stack + Succ(edges, current);
    }
    WalkEnds(edges, start, visited, popped, target);
    return false;
  }

  // Spec ids compare as strings, by code point.
  predicate IdLe(a: SpecId, b: SpecId) {
    a == [] || (b != [] && (a[0] < b[0] || (a[0] == b[0] && IdLe(a[1..], b[1..]))))
  }

  lemma {:induction false} IdLeTotal(a: SpecId, b: SpecId)
    ensures IdLe(a, b) || IdLe(b, a)
    ensures IdLe(a, b) && IdLe(b, a) ==> a == b
  {
    if a != [] && b != [] {
      IdLeTotal(a[1..], b[1..]);
      if a[0] == b[0] && a[1..] == b[1..] {
        assert a == [a[0]] + a[1..] && b == [b[0]] + b[1..];
      }
    }
  }

  lemma {:induction false} IdLeTransitive(a: SpecId, b: SpecId, c: SpecId)
    requires IdLe(a, b) && IdLe(b, c)
    ensures IdLe(a, c)
  {
    if a != [] && a[0] == b[0] && b[0] == c[0] {
      IdLeTransitive(a[1..], b[1..], c[1..]);
    }
  }

  lemma LeastExists(ids: set<SpecId>)
    requires ids != {}
    ensures exists x :: x in ids && forall y :: y in ids ==> IdLe(x, y)
    decreases |ids|
  {
    var x :| x in ids;
    var rest := ids - {x};
    if rest == {} {
      IdLeTotal(x, x);
      assert ids == {x};
    } else {
      assert |rest| < |ids|;
      LeastExists(rest);
      var m :| m in rest && forall y :: y in rest ==> IdLe(m, y);
      IdLeTotal(m, x);
      IdLeTotal(x, x);
      var least := if IdLe(m, x) then m else x;
      forall y | y in ids ensures IdLe(least, y) {
        if y != x && least == x { IdLeTransitive(x, m, y); }
      }
    }
  }
}
