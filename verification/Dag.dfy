/** Walks in a finite directed graph, given by the parents of each of its nodes. */
module Dag {

  type Node = nat

  type Parents = map<Node, seq<Node>>

  /** A walk from a node to the ones it depends on. */
  ghost predicate IsPath(parents: Parents, p: seq<Node>) {
    p != [] && forall i :: 0 <= i < |p| - 1 ==> p[i] in parents && p[i + 1] in parents[p[i]]
  }

  ghost predicate Connects(parents: Parents, p: seq<Node>, a: Node, b: Node) {
    IsPath(parents, p) && p[0] == a && p[|p| - 1] == b
  }

  /** `a` is `b` or depends on it. */
  ghost predicate Reaches(parents: Parents, a: Node, b: Node) {
    exists p :: Connects(parents, p, a, b)
  }

  ghost predicate OnCycle(parents: Parents, a: Node) {
    exists p :: Connects(parents, p, a, a) && |p| > 1
  }

  lemma ReachesItself(parents: Parents, a: Node)
    ensures Reaches(parents, a, a)
  {
    assert Connects(parents, [a], a, a);
  }

  lemma Join(parents: Parents, p: seq<Node>, q: seq<Node>, a: Node, b: Node, c: Node)
    requires Connects(parents, p, a, b) && Connects(parents, q, b, c)
    ensures Connects(parents, p + q[1..], a, c)
  {
    var path := p + q[1..];
    forall i | 0 <= i < |path| - 1
      ensures path[i] in parents && path[i + 1] in parents[path[i]]
    {
      if i >= |p| - 1 {
        assert path[i] == q[i - (|p| - 1)] && path[i + 1] == q[i + 1 - (|p| - 1)];
      }
    }
  }

  lemma Through(parents: Parents, a: Node, b: Node, c: Node)
    requires Reaches(parents, a, b) && Reaches(parents, b, c)
    ensures Reaches(parents, a, c)
  {
    var p :| Connects(parents, p, a, b);
    var q :| Connects(parents, q, b, c);
    Join(parents, p, q, a, b, c);
  }

  lemma StepReaches(parents: Parents, a: Node, b: Node)
    requires a in parents && b in parents[a]
    ensures Reaches(parents, a, b)
  {
    assert Connects(parents, [a, b], a, b);
  }

  /** A parent that leads back closes a cycle. */
  lemma BackEdge(parents: Parents, a: Node, b: Node)
    requires a in parents && b in parents[a] && Reaches(parents, b, a)
    ensures OnCycle(parents, a)
  {
    var q :| Connects(parents, q, b, a);
    assert Connects(parents, [a, b], a, b);
    Join(parents, [a, b], q, a, b, a);
    assert |[a, b] + q[1..]| > 1;
  }

  lemma FirstStep(parents: Parents, a: Node, b: Node)
    requires Reaches(parents, a, b) && a != b
    ensures a in parents && exists q :: q in parents[a] && Reaches(parents, q, b)
  {
    var p :| Connects(parents, p, a, b);
    assert Connects(parents, p[1..], p[1], b);
  }

  lemma CycleStep(parents: Parents, a: Node)
    requires OnCycle(parents, a)
    ensures a in parents && exists q :: q in parents[a] && Reaches(parents, q, a)
  {
    var p :| Connects(parents, p, a, a) && |p| > 1;
    assert Connects(parents, p[1..], p[1], a);
  }

  /** Two nodes that reach each other lie on a cycle. */
  lemma MutualReachIsCycle(parents: Parents, a: Node, b: Node)
    requires Reaches(parents, a, b) && Reaches(parents, b, a) && a != b
    ensures OnCycle(parents, a)
  {
    FirstStep(parents, a, b);
    var q :| q in parents[a] && Reaches(parents, q, b);
    Through(parents, q, b, a);
    BackEdge(parents, a, q);
  }
}
