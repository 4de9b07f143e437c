/**
 The planner of a schema transition: which revisions lead from the current migration
 head to the target's, on a graph that may be cyclic, incomplete or divergent.
 */
module MigrationPlanner {
  import opened Faults
  import opened Dag

  /** Revisions by their place in the order of their names. */
  type Revision = Node

  datatype Graph = Graph(heads: seq<Revision>, parents: Parents)

  // ----- The planner -----

  /** A revision with everything it depends on, or None on a cycle or an unknown revision. */
  function Ancestors(parents: Parents, r: Revision, visiting: set<Revision>): Option<set<Revision>>
    decreases |parents.Keys - visiting|, 0, 0
  {
    if r in visiting || r !in parents then None
    else
      Shrinks(parents.Keys, visiting, r);
      match AncestorsOfAll(parents, parents[r], visiting + {r})
      case None => None
      case Some(rest) => Some({r} + rest)
  }

  function AncestorsOfAll(parents: Parents, rs: seq<Revision>, visiting: set<Revision>): Option<set<Revision>>
    decreases |parents.Keys - visiting|, 1, |rs|
  {
    if rs == [] then Some({})
    else
      match Ancestors(parents, rs[0], visiting)
      case None => None
      case Some(first) =>
        match AncestorsOfAll(parents, rs[1..], visiting)
        case None => None
        case Some(rest) => Some(first + rest)
  }

  lemma Shrinks(known: set<Revision>, visiting: set<Revision>, r: Revision)
    requires r in known && r !in visiting
    ensures |known - (visiting + {r})| < |known - visiting|
  {
    assert known - visiting == known - (visiting + {r}) + {r};
  }

  function Minimum(s: set<Revision>): (least: Revision)
    requires s != {}
    ensures least in s && forall r :: r in s ==> least <= r
  {
    assert exists least :: least in s && forall r :: r in s ==> least <= r by { var least := Least(s); }
    var least :| least in s && forall r :: r in s ==> least <= r;
    least
  }

  function Sorted(s: set<Revision>): seq<Revision>
    decreases |s|
  {
    if s == {} then [] else [Minimum(s)] + Sorted(s - {Minimum(s)})
  }

  lemma {:induction false} SortedIsSorted(s: set<Revision>)
    ensures forall r :: r in Sorted(s) <==> r in s
    ensures forall i, j :: 0 <= i < j < |Sorted(s)| ==> Sorted(s)[i] < Sorted(s)[j]
    decreases |s|
  {
    if s != {} {
      var least, rest := Minimum(s), Sorted(s - {Minimum(s)});
      SortedIsSorted(s - {least});
      forall i | 0 <= i < |rest|
        ensures least < rest[i]
      {
        assert rest[i] in rest;
      }
    }
  }

  lemma {:induction false} Least(s: set<Revision>) returns (least: Revision)
    requires s != {}
    ensures least in s && forall r :: r in s ==> least <= r
    decreases |s|
  {
    least :| least in s;
    if s != {least} {
      var other := Least(s - {least});
      forall r | r in s
        ensures (if other < least then other else least) <= r
      {
        assert r == least || r in s - {least};
      }
      least := if other < least then other else least;
    }
  }

  /** The revisions to apply, sorted by name, or None when the transition is refused. */
  function UpgradePath(graph: Graph, current: Revision, target: Revision): Option<seq<Revision>> {
    var parents := graph.parents;
    if graph.heads != [target] || current == target || current !in parents || target !in parents then None
    else
      match Ancestors(parents, target, {})
      case None => None
      case Some(ofTarget) =>
        match Ancestors(parents, current, {})
        case None => None
        case Some(ofCurrent) =>
          if current !in ofTarget || parents.Keys != ofTarget then None
          else Some(Sorted(ofTarget - ofCurrent))
  }

  // ----- What can be accepted -----

  /** Everything `r` depends on is known, and nothing depends on itself. */
  ghost predicate Sound(parents: Parents, r: Revision) {
    forall x :: Reaches(parents, r, x) ==> x in parents && !OnCycle(parents, x)
  }

  // ----- What the recursion computes -----

  lemma {:induction false} AncestorsAreReachable(parents: Parents, r: Revision, visiting: set<Revision>)
    requires Ancestors(parents, r, visiting).Some?
    ensures forall x :: x in Ancestors(parents, r, visiting).value <==> Reaches(parents, r, x)
    ensures Ancestors(parents, r, visiting).value !! visiting
    ensures Ancestors(parents, r, visiting).value <= parents.Keys
    ensures Sound(parents, r)
    decreases |parents.Keys - visiting|, 0, 0
  {
    Shrinks(parents.Keys, visiting, r);
    AllAncestorsAreReachable(parents, parents[r], visiting + {r});
    var rest := AncestorsOfAll(parents, parents[r], visiting + {r}).value;
    forall x
      ensures x in {r} + rest <==> Reaches(parents, r, x)
    {
      if x == r {
        ReachesItself(parents, r);
      } else if x in rest {
        var q :| q in parents[r] && Reaches(parents, q, x);
        StepReaches(parents, r, q);
        Through(parents, r, q, x);
      } else if Reaches(parents, r, x) {
        FirstStep(parents, r, x);
      }
    }
    if OnCycle(parents, r) {
      CycleStep(parents, r);
      assert false;
    }
    forall x | Reaches(parents, r, x)
      ensures x in parents && !OnCycle(parents, x)
    {
      if x != r {
        FirstStep(parents, r, x);
      }
    }
  }

  lemma {:induction false} AllAncestorsAreReachable(parents: Parents, rs: seq<Revision>, visiting: set<Revision>)
    requires AncestorsOfAll(parents, rs, visiting).Some?
    ensures forall x :: x in AncestorsOfAll(parents, rs, visiting).value
                  <==> exists q :: q in rs && Reaches(parents, q, x)
    ensures AncestorsOfAll(parents, rs, visiting).value !! visiting
    ensures AncestorsOfAll(parents, rs, visiting).value <= parents.Keys
    ensures forall q :: q in rs ==> Sound(parents, q)
    decreases |parents.Keys - visiting|, 1, |rs|
  {
    if rs != [] {
      AncestorsAreReachable(parents, rs[0], visiting);
      AllAncestorsAreReachable(parents, rs[1..], visiting);
      assert forall q :: q in rs <==> q == rs[0] || q in rs[1..];
    }
  }

  /** A refusal has a reason: something unknown, something on a cycle, or a way back to the walk. */
  lemma {:induction false} RefusedForAReason(parents: Parents, r: Revision, visiting: set<Revision>)
    requires Ancestors(parents, r, visiting).None?
    ensures !Sound(parents, r) || exists x :: x in visiting && Reaches(parents, r, x)
    decreases |parents.Keys - visiting|, 0, 0
  {
    ReachesItself(parents, r);
    if r !in visiting && r in parents {
      Shrinks(parents.Keys, visiting, r);
      var q := AllRefusedForAReason(parents, parents[r], visiting + {r});
      StepReaches(parents, r, q);
      if !Sound(parents, q) {
        var x :| Reaches(parents, q, x) && (x !in parents || OnCycle(parents, x));
        Through(parents, r, q, x);
      } else {
        var x :| x in visiting + {r} && Reaches(parents, q, x);
        if x == r {
          BackEdge(parents, r, q);
        } else {
          Through(parents, r, q, x);
        }
      }
    }
  }

  lemma {:induction false} AllRefusedForAReason(parents: Parents, rs: seq<Revision>, visiting: set<Revision>)
    returns (q: Revision)
    requires AncestorsOfAll(parents, rs, visiting).None?
    ensures q in rs && (!Sound(parents, q) || exists x :: x in visiting && Reaches(parents, q, x))
    decreases |parents.Keys - visiting|, 1, |rs|
  {
    if Ancestors(parents, rs[0], visiting).None? {
      q := rs[0];
      RefusedForAReason(parents, q, visiting);
    } else {
      q := AllRefusedForAReason(parents, rs[1..], visiting);
    }
  }

  // ----- The planner's verdict -----

  ghost predicate Acceptable(graph: Graph, current: Revision, target: Revision) {
    && graph.heads == [target] && current != target
    && Sound(graph.parents, target)
    && Reaches(graph.parents, target, current)
    && forall r :: r in graph.parents ==> Reaches(graph.parents, target, r)
  }

  /** Exactly the cyclic, incomplete, divergent and non-ancestor cases are refused. */
  lemma PlannerVerdict(graph: Graph, current: Revision, target: Revision)
    ensures UpgradePath(graph, current, target).Some? <==> Acceptable(graph, current, target)
    ensures UpgradePath(graph, current, target).Some? ==>
              forall r :: r in UpgradePath(graph, current, target).value
                <==> Reaches(graph.parents, target, r) && !Reaches(graph.parents, current, r)
  {
    var parents := graph.parents;
    ReachesItself(parents, target);
    if Ancestors(parents, target, {}).Some? {
      AncestorsAreReachable(parents, target, {});
    } else {
      RefusedForAReason(parents, target, {});
    }
    if Ancestors(parents, current, {}).Some? {
      AncestorsAreReachable(parents, current, {});
      if Ancestors(parents, target, {}).Some? {
        SortedIsSorted(Ancestors(parents, target, {}).value - Ancestors(parents, current, {}).value);
      }
    } else {
      RefusedForAReason(parents, current, {});
      if Reaches(parents, target, current) && !Sound(parents, current) {
        var x :| Reaches(parents, current, x) && (x !in parents || OnCycle(parents, x));
        Through(parents, target, current, x);
        assert !Sound(parents, target);
      }
    }
  }

  // ----- Applying the path -----

  /** Each revision comes once, after its parents; what `done` holds is applied already. */
  ghost predicate Applicable(parents: Parents, done: set<Revision>, order: seq<Revision>) {
    && (forall i, j :: 0 <= i < j < |order| ==> order[i] != order[j])
    && (forall i :: 0 <= i < |order| ==> order[i] in parents && order[i] !in done)
    && forall i, q :: 0 <= i < |order| && q in parents[order[i]] ==> q in done || q in order[..i]
  }

  ghost predicate Pending(parents: Parents, done: set<Revision>, left: set<Revision>) {
    && left <= parents.Keys && left !! done
    && (forall r :: r in left ==> !OnCycle(parents, r))
    && forall r, q :: r in left && q in parents[r] ==> q in done || q in left
  }

  /** Walking from parent to parent inside `left` ends at a revision that can be applied. */
  lemma {:induction false} SomeReady(parents: Parents, done: set<Revision>, left: set<Revision>, x: Revision,
                                     trail: set<Revision>)
    returns (ready: Revision)
    requires Pending(parents, done, left) && x in left
    requires trail <= left && x !in trail && forall t :: t in trail ==> Reaches(parents, t, x)
    ensures ready in left && forall q :: q in parents[ready] ==> q in done
    decreases |left - trail|
  {
    if forall q :: q in parents[x] ==> q in done {
      ready := x;
    } else {
      var q :| q in parents[x] && q !in done;
      StepReaches(parents, x, q);
      forall t | t in trail + {x}
        ensures Reaches(parents, t, q)
      {
        if t == x {
        } else {
          Through(parents, t, x, q);
        }
      }
      if q in trail + {x} {
        if q == x { ReachesItself(parents, x); }
        BackEdge(parents, x, q);
      }
      Shrinks(left, trail, x);
      ready := SomeReady(parents, done, left, q, trail + {x});
    }
  }

  lemma {:induction false} OrderExists(parents: Parents, done: set<Revision>, left: set<Revision>)
    returns (order: seq<Revision>)
    requires Pending(parents, done, left)
    ensures Applicable(parents, done, order)
    ensures forall r :: r in order <==> r in left
    decreases |left|
  {
    if left == {} {
      order := [];
    } else {
      var x :| x in left;
      var ready := SomeReady(parents, done, left, x, {});
      var rest := OrderExists(parents, done + {ready}, left - {ready});
      order := [ready] + rest;
      forall i, q | 0 <= i < |order| && q in parents[order[i]]
        ensures q in done || q in order[..i]
      {
        if i > 0 && q !in done {
          assert order[i] == rest[i - 1];
          assert q in done + {ready} || q in rest[..i - 1];
          assert order[..i] == [ready] + rest[..i - 1];
        }
      }
    }
  }

  /** From a database at `current`, the planned revisions can be applied one after the other. */
  lemma PathCanBeApplied(graph: Graph, current: Revision, target: Revision) returns (order: seq<Revision>)
    requires UpgradePath(graph, current, target).Some?
    ensures multiset(order) == multiset(UpgradePath(graph, current, target).value)
    ensures Applicable(graph.parents, Ancestors(graph.parents, current, {}).value, order)
    ensures forall x :: x in Ancestors(graph.parents, current, {}).value <==> Reaches(graph.parents, current, x)
    ensures order != [] && order[|order| - 1] == target
  {
    var parents := graph.parents;
    AncestorsAreReachable(parents, target, {});
    AncestorsAreReachable(parents, current, {});
    var ofTarget, ofCurrent := Ancestors(parents, target, {}).value, Ancestors(parents, current, {}).value;
    var left := ofTarget - ofCurrent;
    forall r, q | r in left && q in parents[r]
      ensures q in ofCurrent || q in left
    {
      StepReaches(parents, r, q);
      Through(parents, target, r, q);
    }
    order := OrderExists(parents, ofCurrent, left);
    SortedIsSorted(left);
    SameElements(order, Sorted(left));
    if target in ofCurrent {
      MutualReachIsCycle(parents, target, current);
    }
    forall r, q | r in ofCurrent && r in parents && q in parents[r]
      ensures q in ofCurrent
    {
      StepReaches(parents, r, q);
      Through(parents, current, r, q);
    }
    TargetIsLast(parents, order, ofCurrent, target);
  }

  lemma Once(s: seq<Revision>, x: Revision)
    requires forall i, j :: 0 <= i < j < |s| ==> s[i] != s[j]
    ensures multiset(s)[x] == if x in s then 1 else 0
  {
    if s != [] {
      assert s == [s[0]] + s[1..];
      Once(s[1..], x);
    }
  }

  lemma SameElements(a: seq<Revision>, b: seq<Revision>)
    requires forall i, j :: 0 <= i < j < |a| ==> a[i] != a[j]
    requires forall i, j :: 0 <= i < j < |b| ==> b[i] != b[j]
    requires forall x :: x in a <==> x in b
    ensures multiset(a) == multiset(b)
  {
    forall x: Revision
      ensures multiset(a)[x] == multiset(b)[x]
    {
      Once(a, x);
      Once(b, x);
    }
  }

  /** The target depends on everything else, so nothing can follow it. */
  lemma TargetIsLast(parents: Parents, order: seq<Revision>, done: set<Revision>, target: Revision)
    requires Applicable(parents, done, order) && target in order
    requires forall r :: r in order ==> Reaches(parents, target, r)
    requires forall r, q :: r in done && r in parents && q in parents[r] ==> q in done
    ensures order[|order| - 1] == target
  {
    var i :| 0 <= i < |order| && order[i] == target;
    if i < |order| - 1 {
      assert order[|order| - 1] in order;
      var p :| Connects(parents, p, target, order[|order| - 1]);
      EarlierOnly(parents, order, done, i, p, |p| - 1);
      assert false;
    }
  }

  lemma {:induction false} EarlierOnly(parents: Parents, order: seq<Revision>, done: set<Revision>, i: nat,
                                       p: seq<Revision>, k: nat)
    requires Applicable(parents, done, order) && i < |order|
    requires forall r, q :: r in done && r in parents && q in parents[r] ==> q in done
    requires IsPath(parents, p) && p[0] == order[i] && k < |p|
    ensures p[k] in done || p[k] in order[..i + 1]
    decreases k
  {
    if k > 0 {
      EarlierOnly(parents, order, done, i, p, k - 1);
      if p[k - 1] !in done {
        var j :| 0 <= j < i + 1 && order[j] == p[k - 1];
        assert p[k] in done || p[k] in order[..j];
      }
    }
  }

  /** In a sorted list the earlier revisions are the smaller ones. */
  lemma SortedPrefix(s: set<Revision>, i: nat, q: Revision)
    requires i < |Sorted(s)|
    ensures q in Sorted(s)[..i] <==> q in s && q < Sorted(s)[i]
  {
    SortedIsSorted(s);
    if q in s && q < Sorted(s)[i] {
      assert q in Sorted(s);
      var k :| 0 <= k < |Sorted(s)| && Sorted(s)[k] == q;
      assert k < i;
    }
  }

  lemma SortedApplies(parents: Parents, done: set<Revision>, left: set<Revision>)
    requires left <= parents.Keys && left !! done
    requires forall r, q :: r in left && q in parents[r] ==> q in done || q in left
    ensures Applicable(parents, done, Sorted(left)) <==>
              forall r, q :: r in left && q in parents[r] ==> q in done || q < r
  {
    var path := Sorted(left);
    SortedIsSorted(left);
    assert forall i :: 0 <= i < |path| ==> path[i] in left;
    forall i, q | 0 <= i < |path| && q in parents[path[i]]
      ensures (q in done || q in path[..i]) <==> (q in done || q < path[i])
    {
      SortedPrefix(left, i, q);
    }
    forall r, q | Applicable(parents, done, path) && r in left && q in parents[r]
      ensures q in done || q < r
    {
      assert r in path;
      var i :| 0 <= i < |path| && path[i] == r;
      assert q in done || q in path[..i];
    }
  }

  /** The result, sorted by name, is an order of application exactly when no pending parent has a larger name. */
  lemma SortedIsAnOrderIff(graph: Graph, current: Revision, target: Revision)
    requires UpgradePath(graph, current, target).Some?
    ensures
      var path, done := UpgradePath(graph, current, target).value, Ancestors(graph.parents, current, {}).value;
      Applicable(graph.parents, done, path) <==>
        forall r, q :: r in path && r in graph.parents && q in graph.parents[r] ==> q in done || q < r
  {
    var parents := graph.parents;
    AncestorsAreReachable(parents, target, {});
    var ofTarget, done := Ancestors(parents, target, {}).value, Ancestors(parents, current, {}).value;
    var left := ofTarget - done;
    hide Ancestors, Applicable;
    forall r, q | r in left && q in parents[r]
      ensures q in done || q in left
    {
      StepReaches(parents, r, q);
      Through(parents, target, r, q);
    }
    SortedIsSorted(left);
    SortedApplies(parents, done, left);
  }

  /** The result need not be one: here the target has the smaller name. */
  lemma SortedIsNotAnOrder()
    ensures var graph := Graph([1], map[1 := [2], 2 := [3], 3 := []]);
            UpgradePath(graph, 3, 1) == Some([1, 2]) && !Applicable(graph.parents, {3}, [1, 2])
  {
    var parents: Parents := map[1 := [2], 2 := [3], 3 := []];
    assert [3][1..] == [] && [2][1..] == [];
    assert {2, 3} + {} == {2, 3} && {} + {3} == {3} && {3} + {} == {3};
    assert {2} + {3} == {2, 3} && {1} + {2, 3} == {1, 2, 3};
    assert {} + {1} == {1} && {1} + {2} == {1, 2} && {1, 2} + {3} == {1, 2, 3};
    assert AncestorsOfAll(parents, [], {3}) == AncestorsOfAll(parents, [], {1, 2, 3})
        == AncestorsOfAll(parents, [], {1, 2}) == AncestorsOfAll(parents, [], {1}) == Some({});
    assert Ancestors(parents, 3, {}) == Ancestors(parents, 3, {1, 2}) == Some({3});
    assert AncestorsOfAll(parents, [3], {1, 2}) == Some({3} + {});
    assert Ancestors(parents, 2, {1}) == Some({2, 3});
    assert AncestorsOfAll(parents, [2], {1}) == Some({2, 3} + {});
    assert AncestorsOfAll(parents, parents[1], {} + {1}) == Some({2, 3});
    assert Ancestors(parents, 1, {}) == Some({1} + {2, 3});
    assert {1, 2, 3} - {3} == {1, 2} && {1, 2} - {1} == {2} && {2} - {2} == {};
    assert Sorted({1, 2}) == [1] + ([2] + []) == [1, 2];
    assert parents.Keys == {1, 2, 3};
    assert UpgradePath(Graph([1], parents), 3, 1) == Some([1, 2]);
    var order: seq<Revision> := [1, 2];
    assert 2 in parents[order[0]] && 2 !in order[..0];
  }
}
