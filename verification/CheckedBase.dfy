/**
 Recovering the base a merged pull request was checked on, from nothing but the commit
 graph: true merges, linear rebases proved replay by replay, squashes proved by path
 independence, and their forms with a synchronized target.
 */
module CheckedBase {
  import opened Faults
  import opened Dag
  import opened Trees

  type Commit = Node

  /** A line of `git rev-list --parents`: a commit and its parents. */
  type Row = seq<Commit>

  /** The answers of the git commands that are asked. */
  datatype Git = Git(
    parents: Parents,
    trees: map<Commit, Tree>,
    revList: (Commit, nat) -> seq<Row>,                // rev-list --parents --max-count=n sha
    rangeRows: (Commit, Commit, nat) -> seq<Row>,      // rev-list --parents --max-count=n a..b
    rangeMerges: (Commit, Commit) -> seq<Row>,         // rev-list --merges --parents a..b
    rangeCount: (Commit, Commit) -> nat,               // rev-list --count a..b
    isAncestor: (Commit, Commit) -> bool,              // merge-base --is-ancestor a b
    mergeBase: (Commit, Commit) -> Option<Commit>,     // merge-base a b
    mergeTree: (Tree, Tree, Tree) -> Option<Tree>,     // merge-tree --merge-base=base ours theirs
    mergeRecursive: (Commit, Commit) -> Option<Tree>,  // merge-tree a b
    diff: (Tree, Tree) -> set<Path>)                   // diff --name-only --no-renames

  ghost function Reachable(parents: Parents, c: Commit): set<Commit> {
    set x | x in parents && Reaches(parents, c, x)
  }

  /** The commits of `a..b`. */
  ghost function Range(parents: Parents, a: Commit, b: Commit): set<Commit> {
    Reachable(parents, b) - Reachable(parents, a)
  }

  /** A finite commit graph without cycles, every commit with a valid tree. */
  ghost predicate Repository(g: Git) {
    && g.trees.Keys == g.parents.Keys
    && (forall c, p :: c in g.parents && p in g.parents[c] ==> p in g.parents)
    && (forall c :: c in g.parents ==> !OnCycle(g.parents, c))
    && forall c :: c in g.trees ==> ValidTree(g.trees[c])
  }

  ghost predicate TrueRow(g: Git, row: Row) {
    row != [] && row[0] in g.parents && g.parents[row[0]] == row[1..]
  }

  ghost predicate TrueRows(g: Git, rows: seq<Row>) {
    forall i :: 0 <= i < |rows| ==> TrueRow(g, rows[i])
  }

  ghost function Names(rows: seq<Row>): set<Commit> {
    set row | row in rows && row != [] :: row[0]
  }

  /** The merge commits of `a..b`. */
  ghost function MergesOf(parents: Parents, a: Commit, b: Commit): set<Commit> {
    set c | c in Range(parents, a, b) && c in parents && |parents[c]| > 1
  }

  /** What git promises about the answers; nothing is promised about their order. */
  ghost predicate Truthful(g: Git) {
    && Repository(g)
    && (forall c, n :: TrueRows(g, g.revList(c, n)))
    && (forall c :: g.revList(c, 1) != [] ==> g.revList(c, 1)[0][0] == c)
    && (forall a, b, n :: TrueRows(g, g.rangeRows(a, b, n)) && Names(g.rangeRows(a, b, n)) <= Range(g.parents, a, b))
    && (forall a, b, n :: |g.rangeRows(a, b, n)| < n ==> |g.rangeRows(a, b, n)| == |Range(g.parents, a, b)|)
    && (forall a, b :: TrueRows(g, g.rangeMerges(a, b)) && Names(g.rangeMerges(a, b)) == MergesOf(g.parents, a, b))
    && (forall a, b :: g.rangeCount(a, b) == |Range(g.parents, a, b)|)
    && (forall a, b :: g.isAncestor(a, b) ==> Reaches(g.parents, b, a))
    && (forall a, b :: g.mergeBase(a, b).Some? ==> Reaches(g.parents, b, g.mergeBase(a, b).value))
    && (forall base, ours, theirs :: g.mergeTree(base, ours, theirs).Some? ==>
          CleanMerge(base, ours, theirs, g.mergeTree(base, ours, theirs).value))
    && forall s, t, p :: p in g.diff(s, t) <==> Touches(s, t, p)
  }

  /** Git merges changes that do not meet. */
  ghost predicate MergesApart(g: Git) {
    forall base, ours, theirs ::
      ValidTree(base) && ValidTree(ours) && ValidTree(theirs) && Apart(base, ours, theirs) ==>
        g.mergeTree(base, ours, theirs).Some?
  }

  /** A merged or open pull request, as far as its base depends on it. */
  datatype PullRequest = PullRequest(head: Commit, base: Commit, merged: bool, merge: Commit, commits: nat)

  // ----- Chains -----

  /** Single-parent commits, each the parent of the one before, from `tip` down. */
  ghost predicate IsChain(parents: Parents, tip: Commit, rows: seq<Row>) {
    && rows != [] && |rows[0]| == 2 && rows[0][0] == tip
    && (forall i :: 0 <= i < |rows| ==>
          |rows[i]| == 2 && rows[i][0] in parents && parents[rows[i][0]] == [rows[i][1]])
    && forall i :: 0 <= i < |rows| - 1 ==> Linked(rows, i)
  }

  predicate Linked(rows: seq<Row>, i: nat) {
    i + 1 < |rows| && |rows[i]| == 2 && rows[i + 1] != [] && rows[i][1] == rows[i + 1][0]
  }

  function Bottom(rows: seq<Row>): Commit
    requires rows != [] && |rows[|rows| - 1]| == 2
  {
    rows[|rows| - 1][1]
  }

  /** The chain is determined by its tip and its length, whatever order it was printed in. */
  lemma {:induction false} ChainIsUnique(parents: Parents, tip: Commit, a: seq<Row>, b: seq<Row>)
    requires IsChain(parents, tip, a) && IsChain(parents, tip, b) && |a| == |b|
    ensures a == b
    decreases |a|
  {
    assert a[0] == [tip, a[0][1]] && b[0] == [tip, b[0][1]];
    assert parents[tip] == [a[0][1]] == [b[0][1]];
    assert a[0][1] == [a[0][1]][0];
    if |a| > 1 {
      ChainTail(parents, tip, a);
      ChainTail(parents, tip, b);
      ChainIsUnique(parents, a[0][1], a[1..], b[1..]);
      assert a == [a[0]] + a[1..] && b == [b[0]] + b[1..];
    }
  }

  lemma ChainTail(parents: Parents, tip: Commit, rows: seq<Row>)
    requires IsChain(parents, tip, rows) && |rows| > 1
    ensures IsChain(parents, rows[0][1], rows[1..]) && Bottom(rows[1..]) == Bottom(rows)
  {
    var tail := rows[1..];
    forall i | 0 <= i < |tail|
      ensures |tail[i]| == 2 && tail[i][0] in parents && parents[tail[i][0]] == [tail[i][1]]
      ensures i < |tail| - 1 ==> Linked(tail, i)
    {
      assert tail[i] == rows[i + 1];
      assert i < |tail| - 1 ==> Linked(rows, i + 1);
    }
    assert Linked(rows, 0);
  }

  /** One step down: the history of a single-parent commit is the commit and its parent's history. */
  lemma ParentHistory(parents: Parents, c: Commit, p: Commit)
    requires c in parents && parents[c] == [p] && p in parents && !OnCycle(parents, c)
    ensures Reachable(parents, c) == {c} + Reachable(parents, p)
    ensures c !in Reachable(parents, p)
  {
    ReachesItself(parents, c);
    StepReaches(parents, c, p);
    forall x | x in parents
      ensures Reaches(parents, c, x) <==> x == c || Reaches(parents, p, x)
    {
      if Reaches(parents, p, x) {
        Through(parents, c, p, x);
      } else if Reaches(parents, c, x) && x != c {
        FirstStep(parents, c, x);
      }
    }
    if Reaches(parents, p, c) {
      BackEdge(parents, c, p);
    }
  }

  /** Adding a commit on top of a range adds one to it. */
  lemma RangeGrows(parents: Parents, tip: Commit, p: Commit, bottom: Commit)
    requires Reachable(parents, tip) == {tip} + Reachable(parents, p) && tip !in Reachable(parents, p)
    requires Reaches(parents, p, bottom)
    ensures |Range(parents, bottom, tip)| == |Range(parents, bottom, p)| + 1
  {
    var rest := Range(parents, bottom, p);
    if tip in Reachable(parents, bottom) {
      Through(parents, p, bottom, tip);
    }
    assert Range(parents, bottom, tip) == {tip} + rest && tip !in rest;
  }

  /** A chain of n rows separates its bottom from its tip by exactly n commits. */
  lemma {:induction false} ChainRange(g: Git, tip: Commit, rows: seq<Row>)
    requires Repository(g) && IsChain(g.parents, tip, rows)
    ensures Reaches(g.parents, tip, Bottom(rows)) && Bottom(rows) in g.parents
    ensures |Range(g.parents, Bottom(rows), tip)| == |rows|
    decreases |rows|
  {
    hide Range, Reachable, Reaches;
    var p := rows[0][1];
    assert p in g.parents[tip];
    ParentHistory(g.parents, tip, p);
    StepReaches(g.parents, tip, p);
    ReachesItself(g.parents, p);
    if |rows| > 1 {
      ChainTail(g.parents, tip, rows);
      ChainRange(g, p, rows[1..]);
      Through(g.parents, tip, p, Bottom(rows));
    } else {
      EmptyRange(g.parents, p);
    }
    RangeGrows(g.parents, tip, p, Bottom(rows));
  }

  lemma EmptyRange(parents: Parents, c: Commit)
    ensures |Range(parents, c, c)| == 0
  {
  }

  lemma RevListIsTrue(g: Git, sha: Commit, n: nat)
    requires Truthful(g)
    ensures TrueRows(g, g.revList(sha, n))
  {
  }

  /** The printed history is a chain of the asked size. */
  ghost predicate PrintsChain(g: Git, sha: Commit, size: nat) {
    IsChain(g.parents, sha, g.revList(sha, size)) && |g.revList(sha, size)| == size
  }

  /**
   What the history of a squash must look like: distinct commits from the asked one on, and every
   single-parent commit followed by its parent. Interleaved branches below a merge are refused.
   */
  ghost predicate Readable(rows: seq<Row>, sha: Commit, size: nat) {
    && rows != [] && |rows| <= size && rows[0] != [] && rows[0][0] == sha
    && (forall i, j :: 0 <= i < j < |rows| ==> rows[i] != [] && rows[j] != [] && rows[i][0] != rows[j][0])
    && forall i :: 0 <= i < |rows| - 1 && |rows[i]| == 2 ==> Linked(rows, i)
  }

  /** No commit comes twice in a chain. */
  lemma {:induction false} ChainIsDistinct(g: Git, tip: Commit, rows: seq<Row>)
    requires Truthful(g) && IsChain(g.parents, tip, rows)
    ensures forall i, j :: 0 <= i < j < |rows| ==> rows[i][0] != rows[j][0]
    decreases |rows|
  {
    if |rows| > 1 {
      ChainTail(g.parents, tip, rows);
      ChainIsDistinct(g, rows[0][1], rows[1..]);
      forall j | 0 < j < |rows|
        ensures rows[j][0] != tip
      {
        assert rows[j] == rows[1..][j - 1];
        BelowIsOther(g, tip, rows, j);
      }
      assert forall j :: 0 < j < |rows| ==> rows[j] == rows[1..][j - 1];
    }
  }

  lemma BelowIsOther(g: Git, tip: Commit, rows: seq<Row>, j: nat)
    requires Truthful(g) && IsChain(g.parents, tip, rows) && 0 < j < |rows|
    ensures rows[j][0] != tip
  {
    hide Truthful;
    var top := rows[..j];
    assert Linked(rows, j - 1);
    assert IsChain(g.parents, tip, top) by {
      forall i | 0 <= i < |top| - 1
        ensures Linked(top, i)
      {
        assert Linked(rows, i);
      }
    }
    BottomIsBelow(g, tip, top);
    assert Bottom(top) == rows[j][0];
  }

  /** `linear_rows`: the single-parent chain of that length, or None when it is refused. */
  method LinearRows(g: Git, sha: Commit, size: nat, allowSquash: bool) returns (answer: Option<seq<Row>>)
    requires Truthful(g)
    ensures answer.Some? ==> answer.value == [] || (IsChain(g.parents, sha, answer.value) && |answer.value| == size)
    ensures answer.Some? && answer.value == [] ==> allowSquash
    ensures PrintsChain(g, sha, size) ==> answer == Some(g.revList(sha, size))
    ensures answer.Some? && answer.value != [] ==> PrintsChain(g, sha, size)
    ensures allowSquash ==> (answer.Some? <==> Readable(g.revList(sha, size), sha, size))
  {
    hide Truthful;
    var rows := g.revList(sha, size);
    RevListIsTrue(g, sha, size);
    if PrintsChain(g, sha, size) {
      ChainIsDistinct(g, sha, rows);
    }
    if rows == [] || |rows| > size || rows[0][0] != sha {
      return None;
    }
    for i := 0 to |rows|
      invariant forall j, k :: 0 <= j < k < i ==> rows[j][0] != rows[k][0]
    {
      for j := 0 to i
        invariant forall k :: 0 <= k < j ==> rows[k][0] != rows[i][0]
      {
        if rows[j][0] == rows[i][0] {
          return None;
        }
      }
    }
    for i := 0 to |rows| - 1
      invariant forall j :: 0 <= j < i && |rows[j]| == 2 ==> Linked(rows, j)
    {
      assert PrintsChain(g, sha, size) ==> Linked(rows, i);
      assert Readable(rows, sha, size) && |rows[i]| == 2 ==> Linked(rows, i);
      if |rows[i]| == 2 && rows[i][1] != rows[i + 1][0] {
        return None;
      }
    }
    var single := |rows| == size;
    for i := 0 to |rows|
      invariant single ==> |rows| == size && forall j :: 0 <= j < i ==> |rows[j]| == 2
      invariant PrintsChain(g, sha, size) ==> single
    {
      single := single && |rows[i]| == 2;
    }
    if !single {
      return if allowSquash then Some([]) else None;
    }
    forall i | 0 <= i < |rows|
      ensures |rows[i]| == 2 && rows[i][0] in g.parents && g.parents[rows[i][0]] == [rows[i][1]]
    {
      assert TrueRow(g, rows[i]);
      assert rows[i][1..] == [rows[i][1]];
    }
    return Some(rows);
  }

  /** `predecessor`: the commit below a chain. */
  method Predecessor(g: Git, sha: Commit, size: nat) returns (below: Option<Commit>)
    requires Truthful(g)
    ensures below.Some? ==>
              exists rows :: IsChain(g.parents, sha, rows) && |rows| == size && Bottom(rows) == below.value
    ensures below.Some? <==> PrintsChain(g, sha, size)
    ensures below.Some? ==> below.value == Bottom(g.revList(sha, size))
  {
    var rows := LinearRows(g, sha, size, false);
    return if rows.None? then None else Some(Bottom(rows.value));
  }

  // ----- Rebases -----

  /** A replayed commit is the clean merge of its source onto the replayed parent. */
  ghost predicate ReplayOf(g: Git, source: Row, target: Row) {
    && |source| == 2 && |target| == 2
    && source[0] in g.trees && source[1] in g.trees && target[0] in g.trees && target[1] in g.trees
    && CleanMerge(g.trees[source[1]], g.trees[target[1]], g.trees[source[0]], g.trees[target[0]])
  }

  ghost predicate Replayed(g: Git, source: seq<Row>, target: seq<Row>) {
    |source| == |target| && forall i :: 0 <= i < |source| ==> ReplayOf(g, source[i], target[i])
  }

  lemma MergeTreeIsClean(g: Git, base: Tree, ours: Tree, theirs: Tree, result: Tree)
    requires Truthful(g) && g.mergeTree(base, ours, theirs) == Some(result)
    ensures CleanMerge(base, ours, theirs, result)
  {
  }

  /** Git reproduces the tree of every replayed commit. */
  ghost predicate Reproduced(g: Git, source: seq<Row>, target: seq<Row>) {
    |source| == |target| && forall i :: 0 <= i < |source| ==> ReproducedAt(g, source[i], target[i])
  }

  ghost predicate ReproducedAt(g: Git, source: Row, target: Row) {
    && |source| == 2 && |target| == 2
    && source[0] in g.trees && source[1] in g.trees && target[0] in g.trees && target[1] in g.trees
    && g.mergeTree(g.trees[source[1]], g.trees[target[1]], g.trees[source[0]]) == Some(g.trees[target[0]])
  }

  ghost predicate MergesAt(g: Git, source: Row, target: Row) {
    && |source| == 2 && |target| == 2
    && source[0] in g.trees && source[1] in g.trees && target[1] in g.trees
    && g.mergeTree(g.trees[source[1]], g.trees[target[1]], g.trees[source[0]]).Some?
  }

  /** The replay that git could not merge, every older one being reproduced. */
  ghost predicate ConflictsAt(g: Git, source: seq<Row>, target: seq<Row>, i: nat) {
    && i < |source| == |target|
    && Reproduced(g, source[i + 1..], target[i + 1..]) && !MergesAt(g, source[i], target[i])
  }

  /** Replays from the oldest commit on; None when a replay conflicts or is not one. */
  method ReplayMatches(g: Git, source: seq<Row>, target: seq<Row>) returns (matches: Option<bool>)
    requires Truthful(g) && TrueRows(g, source) && TrueRows(g, target) && |source| == |target|
    ensures matches == Some(true) ==> Replayed(g, source, target)
    ensures matches == Some(true) <==> Reproduced(g, source, target)
    ensures matches.None? <==> exists i :: ConflictsAt(g, source, target, i)
  {
    hide Truthful, CleanMerge, MergesAt, ReproducedAt;
    var i := |source|;
    while i > 0
      invariant 0 <= i <= |source|
      invariant forall j :: i <= j < |source| ==> ReproducedAt(g, source[j], target[j])
      invariant forall j :: i <= j < |source| ==> ReplayOf(g, source[j], target[j])
    {
      i := i - 1;
      var s, t := source[i], target[i];
      assert Reproduced(g, source, target) ==> ReproducedAt(g, s, t);
      assert Reproduced(g, source[i + 1..], target[i + 1..]);
      ReplayDecides(g, source, target, i);
      if |s| != 2 || |t| != 2 {
        NoReplay(g, s, t);
        return None;
      }
      RowTreesExist(g, s);
      RowTreesExist(g, t);
      var expected := g.mergeTree(g.trees[s[1]], g.trees[t[1]], g.trees[s[0]]);
      ReplayIsAsked(g, s, t);
      if expected.None? {
        return None;
      }
      if expected.value != g.trees[t[0]] {
        return Some(false);
      }
      MergeTreeIsClean(g, g.trees[s[1]], g.trees[t[1]], g.trees[s[0]], g.trees[t[0]]);
    }
    forall j: nat | j < |source|
      ensures !ConflictsAt(g, source, target, j)
    {
      ReproducedMerges(g, source[j], target[j]);
    }
    return Some(true);
  }

  lemma ReplayIsAsked(g: Git, s: Row, t: Row)
    requires |s| == 2 && |t| == 2 && s[0] in g.trees && s[1] in g.trees && t[0] in g.trees && t[1] in g.trees
    ensures MergesAt(g, s, t) <==> g.mergeTree(g.trees[s[1]], g.trees[t[1]], g.trees[s[0]]).Some?
    ensures ReproducedAt(g, s, t) <==> g.mergeTree(g.trees[s[1]], g.trees[t[1]], g.trees[s[0]]) == Some(g.trees[t[0]])
  {
  }

  lemma NoReplay(g: Git, s: Row, t: Row)
    requires |s| != 2 || |t| != 2
    ensures !MergesAt(g, s, t) && !ReproducedAt(g, s, t)
  {
  }

  lemma ReproducedMerges(g: Git, s: Row, t: Row)
    requires ReproducedAt(g, s, t)
    ensures MergesAt(g, s, t)
  {
  }

  /** A replay that is tried, merges and differs ends the attempt without a conflict. */
  lemma ReplayDecides(g: Git, source: seq<Row>, target: seq<Row>, i: nat)
    requires i < |source| == |target| && Reproduced(g, source[i + 1..], target[i + 1..])
    ensures !MergesAt(g, source[i], target[i]) ==> ConflictsAt(g, source, target, i)
    ensures MergesAt(g, source[i], target[i]) && !ReproducedAt(g, source[i], target[i]) ==>
              forall k :: !ConflictsAt(g, source, target, k)
  {
    hide MergesAt, ReproducedAt;
    forall k: nat | ConflictsAt(g, source, target, k) && MergesAt(g, source[i], target[i])
      ensures ReproducedAt(g, source[i], target[i])
    {
      if k < i {
        ReproducedBelow(g, source, target, k, i);
      } else if i < k {
        ReproducedBelow(g, source, target, i, k);
        assert false;
      }
    }
  }

  lemma ReproducedBelow(g: Git, source: seq<Row>, target: seq<Row>, i: nat, k: nat)
    requires i < k < |source| == |target| && Reproduced(g, source[i + 1..], target[i + 1..])
    ensures ReproducedAt(g, source[k], target[k]) && MergesAt(g, source[k], target[k])
  {
    assert source[i + 1..][k - i - 1] == source[k] && target[i + 1..][k - i - 1] == target[k];
  }

  lemma RowTreesExist(g: Git, row: Row)
    requires Truthful(g) && TrueRow(g, row) && |row| == 2
    ensures row[0] in g.trees && row[1] in g.trees
  {
    assert row[1] == row[1..][0];
  }

  /** A path the target left alone carries the source through every replayed commit. */
  lemma {:induction false} ReplayCarriesSource(g: Git, head: Commit, merge: Commit, source: seq<Row>, target: seq<Row>,
                                               p: Path)
    requires IsChain(g.parents, head, source) && IsChain(g.parents, merge, target) && Replayed(g, source, target)
    requires Lookup(g.trees[source[|source| - 1][1]], p) == Lookup(g.trees[target[|target| - 1][1]], p)
    ensures forall i :: 0 <= i < |source| ==> Lookup(g.trees[source[i][0]], p) == Lookup(g.trees[target[i][0]], p)
  {
    var i := |source|;
    while i > 0
      invariant 0 <= i <= |source|
      invariant forall j :: i <= j < |source| ==> Lookup(g.trees[source[j][0]], p) == Lookup(g.trees[target[j][0]], p)
    {
      i := i - 1;
      assert ReplayOf(g, source[i], target[i]);
      if i < |source| - 1 {
        assert Linked(source, i) && Linked(target, i);
      }
      assert !Touches(g.trees[source[i][1]], g.trees[target[i][1]], p);
    }
  }

  /** A path no source commit touches keeps its state through every replayed commit. */
  lemma {:induction false} ReplayKeepsTarget(g: Git, head: Commit, merge: Commit, source: seq<Row>, target: seq<Row>,
                                             p: Path)
    requires IsChain(g.parents, head, source) && IsChain(g.parents, merge, target) && Replayed(g, source, target)
    requires forall i :: 0 <= i < |source| ==> !Touches(g.trees[source[i][1]], g.trees[source[i][0]], p)
    ensures forall i :: 0 <= i < |source| ==>
              Lookup(g.trees[target[i][0]], p) == Lookup(g.trees[target[|target| - 1][1]], p)
  {
    var i := |source|;
    while i > 0
      invariant 0 <= i <= |source|
      invariant forall j :: i <= j < |source| ==>
                  Lookup(g.trees[target[j][0]], p) == Lookup(g.trees[target[|target| - 1][1]], p)
    {
      i := i - 1;
      assert ReplayOf(g, source[i], target[i]);
      if i < |source| - 1 {
        assert Linked(target, i);
      }
      assert !Touches(g.trees[source[i][1]], g.trees[source[i][0]], p);
    }
  }

  // ----- Squashes -----

  /** The paths some commit of the chain touches. */
  ghost predicate TouchedBy(g: Git, rows: seq<Row>, p: Path) {
    exists i :: 0 <= i < |rows| && |rows[i]| == 2 && rows[i][0] in g.trees && rows[i][1] in g.trees
             && Touches(g.trees[rows[i][1]], g.trees[rows[i][0]], p)
  }

  method ChangedPaths(g: Git, rows: seq<Row>) returns (paths: set<Path>)
    requires Truthful(g) && TrueRows(g, rows) && forall i :: 0 <= i < |rows| ==> |rows[i]| == 2
    ensures forall p :: p in paths <==> TouchedBy(g, rows, p)
  {
    hide Truthful;
    paths := {};
    for i := 0 to |rows|
      invariant forall p :: p in paths <==> TouchedBy(g, rows[..i], p)
    {
      RowTreesExist(g, rows[i]);
      var changed := g.diff(g.trees[rows[i][1]], g.trees[rows[i][0]]);
      DiffIsExact(g, g.trees[rows[i][1]], g.trees[rows[i][0]]);
      TouchedByOneMore(g, rows, i);
      paths := paths + changed;
    }
    assert rows[..|rows|] == rows;
  }

  lemma DiffIsExact(g: Git, s: Tree, t: Tree)
    requires Truthful(g)
    ensures forall p :: p in g.diff(s, t) <==> Touches(s, t, p)
  {
  }

  lemma TouchedByOneMore(g: Git, rows: seq<Row>, i: nat)
    requires i < |rows| && |rows[i]| == 2 && rows[i][0] in g.trees && rows[i][1] in g.trees
    ensures forall p :: TouchedBy(g, rows[..i + 1], p)
                  <==> TouchedBy(g, rows[..i], p) || Touches(g.trees[rows[i][1]], g.trees[rows[i][0]], p)
  {
    forall p
      ensures TouchedBy(g, rows[..i + 1], p)
         <==> TouchedBy(g, rows[..i], p) || Touches(g.trees[rows[i][1]], g.trees[rows[i][0]], p)
    {
      assert rows[..i + 1][i] == rows[i];
      assert forall k :: 0 <= k < i ==> rows[..i + 1][k] == rows[..i][k];
    }
  }

  /** Per-commit changes cover the change from one end of the chain to the other. */
  lemma {:induction false} ChainChangesCover(g: Git, tip: Commit, rows: seq<Row>, p: Path)
    requires Repository(g) && IsChain(g.parents, tip, rows) && !TouchedBy(g, rows, p)
    ensures tip in g.trees && Bottom(rows) in g.trees
    ensures !Touches(g.trees[Bottom(rows)], g.trees[tip], p)
    decreases |rows|
  {
    assert rows[0][1] in g.parents[tip];
    assert !Touches(g.trees[rows[0][1]], g.trees[rows[0][0]], p);
    if |rows| > 1 {
      ChainTail(g.parents, tip, rows);
      ChainChangesCover(g, rows[0][1], rows[1..], p);
    }
  }

  /** No path of `paths` equals a path of `other` or lies below one. */
  method NoneBelow(paths: set<Path>, other: set<Path>) returns (clear: bool)
    ensures clear <==> forall p, q :: p in paths && q in other && q != [] ==> !AtOrAbove(q, p)
  {
    var todo := paths;
    while todo != {}
      invariant todo <= paths
      invariant forall p, q :: p in paths - todo && q in other && q != [] ==> !AtOrAbove(q, p)
    {
      var p :| p in todo;
      var path := p;
      while path != []
        invariant path == p[..|path|] && |path| <= |p|
        invariant forall q :: q in other && AtOrAbove(q, p) ==> |q| <= |path|
        decreases |path|
      {
        if path in other {
          assert AtOrAbove(path, p);
          return false;
        }
        forall q | q in other && AtOrAbove(q, p)
          ensures |q| < |path|
        {
          assert q == p[..|q|];
        }
        path := path[..|path| - 1];
      }
      todo := todo - {p};
    }
    return true;
  }

  // ----- The verdict -----

  ghost predicate RebaseProof(g: Git, pr: PullRequest, base: Commit, source: seq<Row>, target: seq<Row>) {
    && IsChain(g.parents, pr.head, source) && IsChain(g.parents, pr.merge, target)
    && |source| == |target| == pr.commits && Bottom(source) == base
    && Replayed(g, source, target)
  }

  ghost predicate SquashProof(g: Git, pr: PullRequest, base: Commit, source: seq<Row>, prefix: seq<Row>, parent: Commit,
                              mine: set<Path>, yours: set<Path>) {
    && pr.merge in g.parents && g.parents[pr.merge] == [parent]
    && pr.merge in g.trees && pr.head in g.trees && base in g.trees && parent in g.trees
    && IsChain(g.parents, pr.head, source) && Bottom(source) == base
    && (forall p :: p in mine <==> TouchedBy(g, source, p))
    && (forall p :: p in yours <==> TouchedBy(g, prefix, p))
    && (prefix == [] || (IsChain(g.parents, parent, prefix) && Bottom(prefix) == base))
    && Covers(mine, g.trees[base], g.trees[pr.head]) && Covers(yours, g.trees[base], g.trees[parent])
    && Independent(mine, yours)
    && CleanMerge(g.trees[base], g.trees[parent], g.trees[pr.head], g.trees[pr.merge])
  }

  ghost predicate SameTrees(g: Git, pr: PullRequest) {
    pr.merge in g.trees && pr.head in g.trees && g.trees[pr.merge] == g.trees[pr.head]
  }

  /** The base is an ancestor of the head, the range has the announced size, and the trees are proved. */
  ghost predicate Accepted(g: Git, pr: PullRequest, base: Commit) {
    && Separates(g, pr, base)
    && (|| SameTrees(g, pr)
        || (exists source, target :: RebaseProof(g, pr, base, source, target))
        || exists source, prefix, parent, mine, yours :: SquashProof(g, pr, base, source, prefix, parent, mine, yours))
  }

  ghost predicate Separates(g: Git, pr: PullRequest, base: Commit) {
    Reaches(g.parents, pr.head, base) && |Range(g.parents, base, pr.head)| == pr.commits
  }

  /** A rebase whose every commit git reproduces, onto a target that descends from the base. */
  ghost predicate GenuineRebase(g: Git, pr: PullRequest, source: seq<Row>, target: seq<Row>) {
    && IsChain(g.parents, pr.head, source) && IsChain(g.parents, pr.merge, target)
    && |source| == |target| == pr.commits
    && g.isAncestor(Bottom(source), Bottom(target))
    && Reproduced(g, source, target)
  }

  lemma ConflictIsThere(g: Git, source: seq<Row>, target: seq<Row>, i: nat)
    requires ConflictsAt(g, source, target, i)
    ensures i < |source| == |target| && Reproduced(g, source[i + 1..], target[i + 1..])
    ensures !MergesAt(g, source[i], target[i])
  {
  }

  ghost predicate ReadableMerge(g: Git, pr: PullRequest) {
    Readable(g.revList(pr.merge, pr.commits), pr.merge, pr.commits)
  }

  /** What is answered to a genuine squash. */
  ghost function SquashAnswer(g: Git, pr: PullRequest, base: Commit): Option<Commit> {
    if ReadableMerge(g, pr) then Some(base) else None
  }

  /** A linear source: rebased commit by commit, or squashed onto an independent target. */
  method LinearSource(g: Git, pr: PullRequest, parent: Commit) returns (base: Option<Commit>)
    requires Truthful(g) && pr.head in g.trees && pr.merge in g.trees
    requires pr.merge in g.parents && g.parents[pr.merge] == [parent]
    ensures base.Some? ==> Accepted(g, pr, base.value)
    ensures
      var source, target := g.revList(pr.head, pr.commits), g.revList(pr.merge, pr.commits);
      GenuineRebase(g, pr, source, target) ==> base == Some(Bottom(source))
    ensures !ReadableMerge(g, pr) ==> base.None?
    ensures
      var source := g.revList(pr.head, pr.commits);
      MergesApart(g) && PrintsChain(g, pr.head, pr.commits) && GenuineSquash(g, pr, source, parent) ==>
        base == SquashAnswer(g, pr, Bottom(source))
  {
    hide GenuineSquash, Truthful, Replayed, Reproduced, ConflictsAt, MergesApart, Readable, IsChain;
    hide Covers, Independent, CleanMerge, Range, Reaches, SameTrees;
    var rows := LinearRows(g, pr.head, pr.commits, false);
    if rows.None? {
      return None;
    }
    var source := rows.value;
    ChainFacts(g, pr.head, source);
    var sourceBase := Bottom(source);
    assert Separates(g, pr, sourceBase);
    var targets := LinearRows(g, pr.merge, pr.commits, true);
    if targets.None? {
      return None;
    }
    var target := targets.value;
    if target != [] {
      ChainFacts(g, pr.merge, target);
      if g.isAncestor(sourceBase, Bottom(target)) {
        var matches := ReplayMatches(g, source, target);
        if matches.None? {
          ghost var i: nat :| ConflictsAt(g, source, target, i);
          if MergesApart(g) && GenuineSquash(g, pr, source, parent) {
            ConflictIsThere(g, source, target, i);
            SquashAttemptMerges(g, pr, source, target, parent, i);
          }
          return None;
        }
        if matches.value {
          assert RebaseProof(g, pr, sourceBase, source, target);
          return Some(sourceBase);
        }
      }
    }
    var independent := IndependentSquash(g, pr, source, parent);
    return if independent then Some(sourceBase) else None;
  }

  lemma ChainFacts(g: Git, tip: Commit, rows: seq<Row>)
    requires Truthful(g) && IsChain(g.parents, tip, rows)
    ensures TrueRows(g, rows) && rows != [] && |rows[|rows| - 1]| == 2
    ensures forall i :: 0 <= i < |rows| ==> |rows[i]| == 2
    ensures Reaches(g.parents, tip, Bottom(rows)) && Bottom(rows) in g.trees && tip in g.trees
    ensures |Range(g.parents, Bottom(rows), tip)| == |rows|
  {
    ChainRange(g, tip, rows);
    forall i | 0 <= i < |rows|
      ensures TrueRow(g, rows[i])
    {
    }
  }

  /** An ancestor with nothing in between is the commit itself. */
  lemma NothingBetween(g: Git, base: Commit, tip: Commit)
    requires Truthful(g) && tip in g.trees && base in g.trees
    requires g.isAncestor(base, tip) && g.rangeCount(base, tip) == 0
    ensures base == tip
  {
    ReachesItself(g.parents, tip);
    assert tip in g.trees.Keys && tip in g.parents;
    assert Range(g.parents, base, tip) == {};
    assert tip !in Range(g.parents, base, tip);
    if base != tip {
      MutualReachIsCycle(g.parents, tip, base);
    }
  }

  lemma ParentKnown(g: Git, c: Commit, parent: Commit)
    requires Truthful(g) && c in g.parents && g.parents[c] == [parent]
    ensures parent in g.parents && parent in g.trees
  {
    assert parent in g.parents[c];
  }

  lemma TouchedPathsAreNamed(g: Git, rows: seq<Row>, p: Path)
    requires Truthful(g) && TouchedBy(g, rows, p)
    ensures p != []
  {
    var i :| 0 <= i < |rows| && |rows[i]| == 2 && rows[i][0] in g.trees && rows[i][1] in g.trees
          && Touches(g.trees[rows[i][1]], g.trees[rows[i][0]], p);
    assert ValidTree(g.trees[rows[i][1]]) && ValidTree(g.trees[rows[i][0]]);
  }

  lemma ChangesAreIndependent(g: Git, source: seq<Row>, prefix: seq<Row>, mine: set<Path>, yours: set<Path>)
    requires Truthful(g)
    requires forall p :: p in mine <==> TouchedBy(g, source, p)
    requires forall p :: p in yours <==> TouchedBy(g, prefix, p)
    requires forall p, q :: p in mine && q in yours && q != [] ==> !AtOrAbove(q, p)
    requires forall p, q :: p in yours && q in mine && q != [] ==> !AtOrAbove(q, p)
    ensures Independent(mine, yours)
  {
    forall p, q | p in mine && q in yours
      ensures !AtOrAbove(p, q) && !AtOrAbove(q, p)
    {
      TouchedPathsAreNamed(g, source, p);
      TouchedPathsAreNamed(g, prefix, q);
    }
  }

  lemma ChangesCover(g: Git, tip: Commit, rows: seq<Row>, paths: set<Path>)
    requires Truthful(g) && IsChain(g.parents, tip, rows) && Bottom(rows) in g.trees && tip in g.trees
    requires forall p :: p in paths <==> TouchedBy(g, rows, p)
    ensures Covers(paths, g.trees[Bottom(rows)], g.trees[tip])
  {
    forall p | Touches(g.trees[Bottom(rows)], g.trees[tip], p)
      ensures p in paths
    {
      if !TouchedBy(g, rows, p) {
        ChainChangesCover(g, tip, rows, p);
      }
    }
  }

  /** The commits the target added since the base, as they are printed. */
  ghost function PrefixRows(g: Git, base: Commit, parent: Commit): seq<Row> {
    if g.rangeCount(base, parent) == 0 then [] else g.revList(parent, g.rangeCount(base, parent))
  }

  /** A squash git reproduces, onto a linear target that touched nothing the source touched. */
  ghost predicate GenuineSquash(g: Git, pr: PullRequest, source: seq<Row>, parent: Commit) {
    && IsChain(g.parents, pr.head, source)
    && var base, prefix := Bottom(source), PrefixRows(g, Bottom(source), parent);
    && base in g.trees && parent in g.trees && pr.head in g.trees && pr.merge in g.trees
    && g.isAncestor(base, parent)
    && (prefix == [] || (IsChain(g.parents, parent, prefix) && Bottom(prefix) == base))
    && |prefix| == g.rangeCount(base, parent)
    && (forall p, q :: TouchedBy(g, source, p) && TouchedBy(g, prefix, q) ==> !AtOrAbove(p, q) && !AtOrAbove(q, p))
    && g.mergeTree(g.trees[base], g.trees[parent], g.trees[pr.head]) == Some(g.trees[pr.merge])
  }

  lemma {:induction false} ChainFrom(parents: Parents, tip: Commit, rows: seq<Row>, k: nat)
    requires IsChain(parents, tip, rows) && k < |rows|
    ensures IsChain(parents, rows[k][0], rows[k..]) && Bottom(rows[k..]) == Bottom(rows)
    decreases k
  {
    if k > 0 {
      ChainTail(parents, tip, rows);
      ChainFrom(parents, rows[0][1], rows[1..], k - 1);
      assert rows[1..][k - 1..] == rows[k..];
    } else {
      assert rows[0..] == rows;
    }
  }

  /** Above reproduced replays the two histories agree on every path on which they began alike. */
  lemma AgreeAbove(g: Git, head: Commit, merge: Commit, source: seq<Row>, target: seq<Row>, i: nat, p: Path)
    requires Truthful(g) && IsChain(g.parents, head, source) && IsChain(g.parents, merge, target)
    requires i < |source| == |target| && Reproduced(g, source[i + 1..], target[i + 1..])
    requires source[i][1] in g.trees && target[i][1] in g.trees
    requires Bottom(source) in g.trees && Bottom(target) in g.trees
    requires !Touches(g.trees[Bottom(source)], g.trees[Bottom(target)], p)
    ensures !Touches(g.trees[source[i][1]], g.trees[target[i][1]], p)
  {
    hide Truthful, Reproduced, Replayed;
    if i + 1 < |source| {
      var s, t := source[i + 1..], target[i + 1..];
      assert Linked(source, i) && Linked(target, i);
      ChainFrom(g.parents, head, source, i + 1);
      ChainFrom(g.parents, merge, target, i + 1);
      ReproducedIsReplayed(g, s, t);
      ReplayCarriesSource(g, s[0][0], t[0][0], s, t, p);
    }
  }

  lemma ReproducedIsReplayed(g: Git, source: seq<Row>, target: seq<Row>)
    requires Truthful(g) && Reproduced(g, source, target)
    ensures Replayed(g, source, target)
  {
    hide Truthful, CleanMerge;
    forall k | 0 <= k < |source|
      ensures ReplayOf(g, source[k], target[k])
    {
      var s, t := source[k], target[k];
      assert ReproducedAt(g, s, t);
      MergeTreeIsClean(g, g.trees[s[1]], g.trees[t[1]], g.trees[s[0]], g.trees[t[0]]);
    }
  }

  /** The commit a chain from `tip` ends on. */
  function End(tip: Commit, rows: seq<Row>): Commit
    requires rows != [] ==> |rows[|rows| - 1]| == 2
  {
    if rows == [] then tip else Bottom(rows)
  }

  ghost predicate Descends(g: Git, tip: Commit, rows: seq<Row>) {
    rows == [] || IsChain(g.parents, tip, rows)
  }

  /**
   A second way down from `tip` that does not pass the base lies on the first: on a path no commit
   of the first touches its end still is the base.
   */
  lemma {:induction false} SamePathDown(g: Git, tip: Commit, prefix: seq<Row>, rest: seq<Row>, base: Commit, p: Path)
    requires Truthful(g) && tip in g.trees && base in g.trees
    requires Descends(g, tip, prefix) && Descends(g, tip, rest) && End(tip, prefix) == base
    requires Reaches(g.parents, End(tip, rest), base) && !TouchedBy(g, prefix, p)
    ensures End(tip, rest) in g.trees && !Touches(g.trees[base], g.trees[End(tip, rest)], p)
    decreases |rest|
  {
    hide Truthful, Reaches, Range;
    TruthfulRepository(g);
    if rest == [] {
      if prefix != [] {
        ChainChangesCover(g, tip, prefix, p);
      }
    } else if prefix == [] {
      ChainFacts(g, tip, rest);
      BottomIsBelow(g, tip, rest);
      MutualReachIsCycle(g.parents, tip, Bottom(rest));
      assert false;
    } else {
      OneStepDown(g, tip, prefix);
      OneStepDown(g, tip, rest);
      assert [rest[0][1]][0] == [prefix[0][1]][0];
      assert !TouchedBy(g, prefix[1..], p) by {
        assert forall k :: 0 <= k < |prefix| - 1 ==> prefix[1..][k] == prefix[k + 1];
      }
      SamePathDown(g, rest[0][1], prefix[1..], rest[1..], base, p);
    }
  }

  lemma OneStepDown(g: Git, tip: Commit, rows: seq<Row>)
    requires Truthful(g) && IsChain(g.parents, tip, rows)
    ensures g.parents[tip] == [rows[0][1]] && rows[0][1] in g.trees
    ensures Descends(g, rows[0][1], rows[1..]) && End(rows[0][1], rows[1..]) == Bottom(rows)
  {
    assert rows[0][1] in g.parents[tip];
    if |rows| > 1 {
      ChainTail(g.parents, tip, rows);
    }
  }

  /** The replays tried on a squash onto an independent target never conflict. */
  lemma SquashAttemptMerges(g: Git, pr: PullRequest, source: seq<Row>, target: seq<Row>, parent: Commit, i: nat)
    requires Truthful(g) && MergesApart(g) && GenuineSquash(g, pr, source, parent)
    requires pr.merge in g.parents && g.parents[pr.merge] == [parent]
    requires IsChain(g.parents, pr.merge, target) && |source| == |target|
    requires g.isAncestor(Bottom(source), Bottom(target)) && i < |source|
    requires Reproduced(g, source[i + 1..], target[i + 1..])
    ensures MergesAt(g, source[i], target[i])
  {
    hide Truthful, Reproduced, MergesApart, Reaches, CleanMerge;
    var base, prefix := Bottom(source), PrefixRows(g, Bottom(source), parent);
    RowsAreKnown(g, pr.head, source, i);
    RowsAreKnown(g, pr.merge, target, i);
    AncestorIsReached(g, base, Bottom(target));
    OneStepDown(g, pr.merge, target);
    assert [target[0][1]][0] == parent;
    if prefix == [] {
      NothingBetween(g, base, parent);
    }
    var before, ours, theirs := g.trees[source[i][1]], g.trees[target[i][1]], g.trees[source[i][0]];
    forall p, q | Touches(before, ours, p) && Touches(before, theirs, q)
      ensures !AtOrAbove(p, q) && !AtOrAbove(q, p)
    {
      assert TouchedBy(g, source, q);
      if !TouchedBy(g, prefix, p) {
        SamePathDown(g, parent, prefix, target[1..], base, p);
        AgreeAbove(g, pr.head, pr.merge, source, target, i, p);
      }
    }
    ApartMerges(g, before, ours, theirs, source[i][1], target[i][1], source[i][0]);
  }

  lemma RowsAreKnown(g: Git, tip: Commit, rows: seq<Row>, i: nat)
    requires Truthful(g) && IsChain(g.parents, tip, rows) && i < |rows|
    ensures |rows[i]| == 2 && rows[i][0] in g.trees && rows[i][1] in g.trees
  {
    assert rows[i][1] in g.parents[rows[i][0]];
  }

  lemma ApartMerges(g: Git, base: Tree, ours: Tree, theirs: Tree, b: Commit, o: Commit, t: Commit)
    requires Truthful(g) && MergesApart(g) && Apart(base, ours, theirs)
    requires b in g.trees && o in g.trees && t in g.trees
    requires base == g.trees[b] && ours == g.trees[o] && theirs == g.trees[t]
    ensures g.mergeTree(base, ours, theirs).Some?
  {
    assert ValidTree(g.trees[b]) && ValidTree(g.trees[o]) && ValidTree(g.trees[t]);
  }

  /** The aggregate proof of a squash: its target prefix changed nothing the source depends on. */
  method IndependentSquash(g: Git, pr: PullRequest, source: seq<Row>, parent: Commit) returns (proved: bool)
    requires Truthful(g) && IsChain(g.parents, pr.head, source) && pr.merge in g.trees
    requires pr.merge in g.parents && g.parents[pr.merge] == [parent]
    ensures proved ==> exists prefix, mine, yours ::
              SquashProof(g, pr, Bottom(source), source, prefix, parent, mine, yours)
    ensures GenuineSquash(g, pr, source, parent) ==> proved
  {
    hide Truthful, IsChain, Range, Reaches, CleanMerge;
    ChainFacts(g, pr.head, source);
    var base := Bottom(source);
    if !g.isAncestor(base, parent) {
      return false;
    }
    var size := g.rangeCount(base, parent);
    var prefix: seq<Row> := [];
    if size != 0 {
      var rows := LinearRows(g, parent, size, false);
      if rows.None? {
        return false;
      }
      prefix := rows.value;
      ChainFacts(g, parent, prefix);
      if Bottom(prefix) != base {
        return false;
      }
    } else {
      ParentKnown(g, pr.merge, parent);
      NothingBetween(g, base, parent);
    }
    var mine := ChangedPaths(g, source);
    var yours := ChangedPaths(g, prefix);
    var clear := NoneBelow(mine, yours);
    if clear {
      clear := NoneBelow(yours, mine);
    }
    if !clear {
      return false;
    }
    ParentKnown(g, pr.merge, parent);
    var expected := g.mergeTree(g.trees[base], g.trees[parent], g.trees[pr.head]);
    if expected != Some(g.trees[pr.merge]) {
      return false;
    }
    MergeTreeIsClean(g, g.trees[base], g.trees[parent], g.trees[pr.head], g.trees[pr.merge]);
    ChangesAreIndependent(g, source, prefix, mine, yours);
    ChangesCover(g, pr.head, source, mine);
    if prefix != [] {
      ChangesCover(g, parent, prefix, yours);
    } else {
      assert Covers(yours, g.trees[base], g.trees[parent]);
    }
    assert SquashProof(g, pr, base, source, prefix, parent, mine, yours);
    return true;
  }

  /** The tokens of `rev-list --parents --max-count=1`: the commit and its parents. */
  method HeadRow(g: Git, c: Commit) returns (row: Option<Row>)
    requires Truthful(g)
    ensures row.Some? ==> c in g.parents && row.value == [c] + g.parents[c]
    ensures |g.revList(c, 1)| == 1 ==> row.Some?
  {
    hide Truthful;
    var rows := g.revList(c, 1);
    RevListIsTrue(g, c, 1);
    if |rows| != 1 {
      return None;
    }
    FirstRowIsAsked(g, c);
    assert TrueRow(g, rows[0]);
    return Some(rows[0]);
  }

  lemma FirstRowIsAsked(g: Git, c: Commit)
    requires Truthful(g) && g.revList(c, 1) != [] && g.revList(c, 1)[0] != []
    ensures g.revList(c, 1)[0][0] == c
  {
  }

  /** The target parent of a merge commit is the base, or was merged into the head before. */
  ghost predicate Synced(g: Git, pr: PullRequest, parent: Commit) {
    parent == pr.base || exists row :: row in g.rangeMerges(parent, pr.head) && |row| > 2 && parent in row[2..]
  }

  ghost predicate GenuineMerge(g: Git, pr: PullRequest, parent: Commit) {
    && SameTrees(g, pr) && g.isAncestor(parent, pr.head) && g.rangeCount(parent, pr.head) == pr.commits
    && Synced(g, pr, parent)
  }

  /** A merge commit whose second parent is the checked head. */
  method TrueMerge(g: Git, pr: PullRequest, row: Row) returns (base: Option<Commit>)
    requires Truthful(g) && |row| == 3 && pr.merge in g.trees && pr.head in g.trees
    ensures base.Some? ==> Accepted(g, pr, base.value)
    ensures base == if row[2] == pr.head && GenuineMerge(g, pr, row[1]) then Some(row[1]) else None
  {
    hide Range, Reaches, Truthful;
    var parent, mergedHead := row[1], row[2];
    var merges := g.rangeMerges(parent, pr.head);
    var synced := parent == pr.base;
    for i := 0 to |merges|
      invariant synced <==> parent == pr.base || exists row :: row in merges[..i] && |row| > 2 && parent in row[2..]
    {
      assert merges[..i + 1] == merges[..i] + [merges[i]];
      synced := synced || (|merges[i]| > 2 && parent in merges[i][2..]);
    }
    assert merges[..|merges|] == merges;
    if g.trees[pr.merge] == g.trees[pr.head] && mergedHead == pr.head && g.isAncestor(parent, pr.head)
       && synced && g.rangeCount(parent, pr.head) == pr.commits {
      AnsweredRange(g, pr, parent);
      assert SameTrees(g, pr);
      return Some(parent);
    }
    return None;
  }

  lemma AnsweredRange(g: Git, pr: PullRequest, base: Commit)
    requires Truthful(g) && g.isAncestor(base, pr.head) && g.rangeCount(base, pr.head) == pr.commits
    ensures Separates(g, pr, base)
  {
  }

  /** Below the terminal merge, every commit of the source was replayed onto the checked target. */
  ghost predicate SyncedProof(g: Git, pr: PullRequest, sourceTip: Commit, checked: Commit, source: seq<Row>,
                              target: seq<Row>) {
    && IsChain(g.parents, sourceTip, source) && IsChain(g.parents, pr.merge, target)
    && |source| == |target| && |source| + 1 == pr.commits && Bottom(target) == checked
    && Reaches(g.parents, checked, Bottom(source))
    && Replayed(g, source, target)
    && pr.head in g.trees && g.mergeRecursive(sourceTip, checked) == Some(g.trees[pr.head])
  }

  /** A rebase that dropped one terminal synchronization merge, replayed commit by commit. */
  method SyncedRebase(g: Git, pr: PullRequest, headRow: Row) returns (base: Option<Commit>)
    requires Truthful(g) && SameTrees(g, pr) && pr.head in g.parents && pr.head in g.trees
    requires |headRow| == 3 && headRow == [pr.head] + g.parents[pr.head]
    ensures base.Some? ==> Accepted(g, pr, base.value) && base.value == headRow[2]
    ensures base.Some? ==> exists source, target :: SyncedProof(g, pr, headRow[1], headRow[2], source, target)
    ensures Orderly(g) && IsSyncedRebaseOf(g, pr, headRow[2]) ==> base == Some(headRow[2])
  {
    hide Range, Reaches, SameTrees, Truthful, Orderly, IsSyncedRebaseOf, Reproduced, Replayed;
    if Orderly(g) && IsSyncedRebaseOf(g, pr, headRow[2]) {
      SyncedIsPrinted(g, pr, headRow);
    }
    var sourceTip, checked := headRow[1], headRow[2];
    if pr.commits < 3 {
      return None;
    }
    var replays := pr.commits - 1;
    var start := Predecessor(g, sourceTip, replays);
    if start.None? || !g.isAncestor(start.value, checked) {
      return None;
    }
    var sourceRows := g.rangeRows(checked, pr.head, pr.commits + 1);
    var sourceChain := g.revList(sourceTip, replays);
    if |sourceRows| != pr.commits || sourceRows != [headRow] + sourceChain {
      return None;
    }
    var below := Predecessor(g, pr.merge, replays);
    if below != Some(checked) {
      return None;
    }
    var targetChain := g.revList(pr.merge, replays);
    if g.mergeRecursive(sourceTip, checked) != Some(g.trees[pr.head]) || |sourceChain| != |targetChain| {
      return None;
    }
    RevListIsTrue(g, sourceTip, replays);
    RevListIsTrue(g, pr.merge, replays);
    var matches := ReplayMatches(g, sourceChain, targetChain);
    if matches != Some(true) {
      return None;
    }
    SyncedRange(g, pr, headRow, checked);
    AncestorIsReached(g, start.value, checked);
    assert SyncedProof(g, pr, sourceTip, checked, sourceChain, targetChain);
    return Some(checked);
  }

  /** A synchronized rebase as it is printed. */
  lemma SyncedIsPrinted(g: Git, pr: PullRequest, headRow: Row)
    requires Truthful(g) && Orderly(g) && pr.head in g.parents && |headRow| == 3
    requires headRow == [pr.head] + g.parents[pr.head] && IsSyncedRebaseOf(g, pr, headRow[2])
    ensures pr.commits >= 3 && headRow == [pr.head, headRow[1], headRow[2]]
    ensures ReplaysBelowSync(g, pr, headRow[1], headRow[2],
                             g.revList(headRow[1], pr.commits - 1), g.revList(pr.merge, pr.commits - 1))
  {
    hide Truthful, Reproduced, SameTrees, IsChain;
    var sourceTip, source, target :| ReplaysBelowSync(g, pr, sourceTip, headRow[2], source, target);
    assert headRow[1] == g.parents[pr.head][0] == sourceTip;
  }

  lemma AncestorIsReached(g: Git, a: Commit, b: Commit)
    requires Truthful(g) && g.isAncestor(a, b)
    ensures Reaches(g.parents, b, a)
  {
  }

  lemma SyncedRange(g: Git, pr: PullRequest, headRow: Row, checked: Commit)
    requires Truthful(g) && pr.head in g.parents && headRow == [pr.head] + g.parents[pr.head]
    requires |headRow| == 3 && headRow[2] == checked
    requires |g.rangeRows(checked, pr.head, pr.commits + 1)| == pr.commits
    ensures Separates(g, pr, checked)
  {
    assert checked == g.parents[pr.head][1];
    StepReaches(g.parents, pr.head, checked);
  }

  /** A linear history is printed from its tip down. */
  ghost predicate Orderly(g: Git) {
    && (forall c :: c in g.parents ==> g.revList(c, 1) == [[c] + g.parents[c]])
    && forall tip, rows :: IsChain(g.parents, tip, rows) ==> g.revList(tip, |rows|) == rows
  }

  /** The merge has one parent, and the head ends a linear history of its own. */
  ghost predicate LinearMerge(g: Git, pr: PullRequest, parent: Commit) {
    && pr.merge in g.parents && g.parents[pr.merge] == [parent]
    && pr.head in g.parents && |g.parents[pr.head]| == 1
    && g.rangeMerges(parent, pr.head) == []
  }

  ghost predicate IsMergeOf(g: Git, pr: PullRequest, base: Commit) {
    pr.merge in g.parents && g.parents[pr.merge] == [base, pr.head] && GenuineMerge(g, pr, base)
  }

  ghost predicate IsRebaseOf(g: Git, pr: PullRequest, base: Commit) {
    exists parent, source, target ::
      LinearMerge(g, pr, parent) && GenuineRebase(g, pr, source, target) && EndsAt(source, base)
  }

  predicate EndsAt(rows: seq<Row>, base: Commit) {
    rows != [] && |rows[|rows| - 1]| == 2 && Bottom(rows) == base
  }

  ghost predicate IsSquashOf(g: Git, pr: PullRequest, base: Commit) {
    exists parent, source ::
      && LinearMerge(g, pr, parent) && |source| == pr.commits && GenuineSquash(g, pr, source, parent)
      && EndsAt(source, base)
  }

  /** A squash, or a rebase without drift, of a head that incorporated its target. */
  ghost predicate IsSyncedSquashOf(g: Git, pr: PullRequest, base: Commit) {
    && pr.merge in g.parents && g.parents[pr.merge] == [base] && pr.head in g.parents && !LinearMerge(g, pr, base)
    && SameTrees(g, pr) && g.mergeBase(base, pr.head) == Some(base) && g.rangeCount(base, pr.head) == pr.commits
  }

  /** A rebase of a head whose last commit merged its target: that merge is dropped, the others are replayed. */
  ghost predicate IsSyncedRebaseOf(g: Git, pr: PullRequest, base: Commit) {
    exists sourceTip, source, target :: ReplaysBelowSync(g, pr, sourceTip, base, source, target)
  }

  ghost predicate ReplaysBelowSync(g: Git, pr: PullRequest, sourceTip: Commit, base: Commit, source: seq<Row>,
                                   target: seq<Row>) {
    && SameTrees(g, pr) && pr.head in g.parents && g.parents[pr.head] == [sourceTip, base] && pr.commits >= 3
    && IsChain(g.parents, sourceTip, source) && IsChain(g.parents, pr.merge, target)
    && |source| == |target| == pr.commits - 1 && Bottom(target) == base
    && g.isAncestor(Bottom(source), base)
    && g.rangeRows(base, pr.head, pr.commits + 1) == [[pr.head, sourceTip, base]] + source
    && g.mergeRecursive(sourceTip, base) == Some(g.trees[pr.head])
    && Reproduced(g, source, target)
  }

  /** A merge whose base is recovered for certain. */
  ghost predicate Genuine(g: Git, pr: PullRequest, base: Commit) {
    || IsMergeOf(g, pr, base) || IsRebaseOf(g, pr, base) || (IsSquashOf(g, pr, base) && ReadableMerge(g, pr))
    || IsSyncedSquashOf(g, pr, base) || IsSyncedRebaseOf(g, pr, base)
  }

  /** How git prints linear histories and merges changes that do not meet. */
  ghost predicate Lawful(g: Git) {
    Orderly(g) && MergesApart(g)
  }

  lemma GenuineIsKnown(g: Git, pr: PullRequest, base: Commit)
    requires Genuine(g, pr, base) && Repository(g)
    ensures pr.merge in g.parents && pr.head in g.parents && pr.merge in g.trees && pr.head in g.trees
    ensures |g.parents[pr.merge]| == 1 || (|g.parents[pr.merge]| == 2 && IsMergeOf(g, pr, base))
  {
    hide GenuineRebase, GenuineMerge, GenuineSquash, ReadableMerge, Reproduced;
    if IsMergeOf(g, pr, base) {
      assert pr.head in g.parents[pr.merge];
    }
  }

  lemma ParentIsPrinted(g: Git, c: Commit)
    requires Orderly(g) && c in g.parents
    ensures |g.revList(c, 1)| == 1
    ensures |g.parents[c]| == 1 ==> PrintsChain(g, c, 1)
  {
    if |g.parents[c]| == 1 {
      assert g.parents[c] == [g.parents[c][0]];
    }
  }

  /** The source as it is printed proves a rebase or a squash. */
  ghost predicate ProvenLinear(g: Git, pr: PullRequest, parent: Commit, base: Commit) {
    var source, target := g.revList(pr.head, pr.commits), g.revList(pr.merge, pr.commits);
    && EndsAt(source, base)
    && (|| GenuineRebase(g, pr, source, target)
        || (PrintsChain(g, pr.head, pr.commits) && GenuineSquash(g, pr, source, parent) && ReadableMerge(g, pr)))
  }

  lemma LinearIsProven(g: Git, pr: PullRequest, parent: Commit, base: Commit)
    requires Orderly(g) && Genuine(g, pr, base) && LinearMerge(g, pr, parent)
    ensures ProvenLinear(g, pr, parent, base)
  {
    hide GenuineRebase, GenuineSquash, Orderly, ReadableMerge, Reproduced;
    if IsRebaseOf(g, pr, base) {
      var p, source, target :| LinearMerge(g, pr, p) && GenuineRebase(g, pr, source, target) && EndsAt(source, base);
      RebaseIsPrinted(g, pr, source, target);
    } else {
      assert g.parents[pr.merge][0] == parent;
      assert !IsSyncedRebaseOf(g, pr, base) && IsSquashOf(g, pr, base);
      var p, source :| LinearMerge(g, pr, p) && |source| == pr.commits && GenuineSquash(g, pr, source, p)
        && EndsAt(source, base);
      SquashIsPrinted(g, pr, source, p);
    }
  }

  lemma SquashIsPrinted(g: Git, pr: PullRequest, source: seq<Row>, parent: Commit)
    requires Orderly(g) && GenuineSquash(g, pr, source, parent) && |source| == pr.commits
    ensures source == g.revList(pr.head, pr.commits) && PrintsChain(g, pr.head, pr.commits)
  {
  }

  lemma RebaseIsPrinted(g: Git, pr: PullRequest, source: seq<Row>, target: seq<Row>)
    requires Orderly(g) && GenuineRebase(g, pr, source, target)
    ensures source == g.revList(pr.head, pr.commits) && target == g.revList(pr.merge, pr.commits)
  {
    hide Reproduced;
  }

  lemma OtherwiseSynced(g: Git, pr: PullRequest, parent: Commit, base: Commit)
    requires pr.merge in g.parents && g.parents[pr.merge] == [parent] && !LinearMerge(g, pr, parent)
    requires Genuine(g, pr, base)
    ensures (base == parent && IsSyncedSquashOf(g, pr, parent)) || IsSyncedRebaseOf(g, pr, base)
  {
    hide GenuineRebase, GenuineMerge, GenuineSquash, ReadableMerge, ReplaysBelowSync;
    assert g.parents[pr.merge][0] == parent;
    forall p | LinearMerge(g, pr, p)
      ensures p == parent
    {
    }
    assert !IsRebaseOf(g, pr, base) && !IsSquashOf(g, pr, base);
  }

  /** A squash is a linear merge, and a genuine one unless the history below it is unreadable. */
  lemma SquashCases(g: Git, pr: PullRequest)
    ensures forall b: Commit :: IsSquashOf(g, pr, b) ==>
              && (exists p :: LinearMerge(g, pr, p)) && pr.merge in g.parents && |g.parents[pr.merge]| == 1
              && (ReadableMerge(g, pr) ==> Genuine(g, pr, b))
              && SquashAnswer(g, pr, b) == if ReadableMerge(g, pr) then Some(b) else None
  {
    hide GenuineSquash, ReadableMerge;
  }

  /** `checked_base`: on every way out the returned base is proved, and no genuine merge is refused. */
  method CheckedBaseOf(g: Git, pr: PullRequest) returns (base: Option<Commit>)
    requires Truthful(g)
    ensures !pr.merged ==> base == Some(pr.base)
    ensures pr.merged && base.Some? ==> Accepted(g, pr, base.value)
    ensures pr.merged && Lawful(g) ==> forall b: Commit :: Genuine(g, pr, b) ==> base == Some(b)
    ensures pr.merged && Lawful(g) ==> forall b: Commit :: IsSquashOf(g, pr, b) ==> base == SquashAnswer(g, pr, b)
  {
    hide *;
    if !pr.merged {
      return Some(pr.base);
    }
    var mergeRow := HeadRow(g, pr.merge);
    forall b: Commit | Lawful(g) && Genuine(g, pr, b)
      ensures mergeRow.Some? && pr.merge in g.trees && pr.head in g.trees
      ensures |g.parents[pr.merge]| == 2 ==> mergeRow.value == [pr.merge, b, pr.head] && GenuineMerge(g, pr, b)
    {
      TruthfulRepository(g);
      GenuineIsKnown(g, pr, b);
      LawfulIsOrderly(g);
      ParentIsPrinted(g, pr.merge);
      if |g.parents[pr.merge]| == 2 {
        MergeRow(g, pr, b);
      }
    }
    SquashCases(g, pr);
    if mergeRow.None? || pr.merge !in g.trees || pr.head !in g.trees {
      return None;
    }
    if |mergeRow.value| == 3 {
      base := TrueMerge(g, pr, mergeRow.value);
      return;
    }
    base := OneParent(g, pr);
  }

  lemma MergeRow(g: Git, pr: PullRequest, base: Commit)
    requires IsMergeOf(g, pr, base)
    ensures pr.merge in g.parents && [pr.merge] + g.parents[pr.merge] == [pr.merge, base, pr.head]
    ensures GenuineMerge(g, pr, base)
  {
  }

  /** The ways out for a merge that is no merge commit. */
  method OneParent(g: Git, pr: PullRequest) returns (base: Option<Commit>)
    requires Truthful(g) && pr.merge in g.trees && pr.head in g.trees
    requires pr.merge in g.parents && |g.parents[pr.merge]| != 2
    ensures base.Some? ==> Accepted(g, pr, base.value)
    ensures Lawful(g) ==> forall b: Commit :: Genuine(g, pr, b) ==> base == Some(b)
    ensures Lawful(g) ==> forall b: Commit :: IsSquashOf(g, pr, b) ==> base == SquashAnswer(g, pr, b)
  {
    hide *;
    SquashCases(g, pr);
    var printed := Predecessor(g, pr.merge, 1);
    forall b: Commit | Lawful(g) && Genuine(g, pr, b)
      ensures printed.Some? && pr.head in g.parents && |g.revList(pr.head, 1)| == 1
    {
      TruthfulRepository(g);
      GenuineIsKnown(g, pr, b);
      LawfulIsOrderly(g);
      ParentIsPrinted(g, pr.merge);
      ParentIsPrinted(g, pr.head);
    }
    if printed.None? {
      return None;
    }
    var parent := printed.value;
    SingleParent(g, pr.merge, parent);
    var headRow := HeadRow(g, pr.head);
    if headRow.None? {
      return None;
    }
    IsLinear(g, pr, parent);
    forall p: Commit | LinearMerge(g, pr, p)
      ensures p == parent
    {
      OneParentOnly(g, pr, p, parent);
    }
    if |headRow.value| == 2 && g.rangeMerges(parent, pr.head) == [] {
      forall b: Commit | Lawful(g) && Genuine(g, pr, b)
        ensures ProvenLinear(g, pr, parent, b) && MergesApart(g)
      {
        LawfulIsOrderly(g);
        LinearIsProven(g, pr, parent, b);
      }
      base := LinearSource(g, pr, parent);
      ProvenIsFound(g, pr, parent);
      return;
    }
    forall b: Commit | Lawful(g) && Genuine(g, pr, b)
      ensures (b == parent && IsSyncedSquashOf(g, pr, parent)) || IsSyncedRebaseOf(g, pr, b)
      ensures Orderly(g)
    {
      LawfulIsOrderly(g);
      OtherwiseSynced(g, pr, parent, b);
    }
    base := SyncedSource(g, pr, parent, headRow.value);
  }

  lemma LawfulIsOrderly(g: Git)
    requires Lawful(g)
    ensures Orderly(g) && MergesApart(g)
  {
  }

  lemma OneParentOnly(g: Git, pr: PullRequest, p: Commit, parent: Commit)
    requires LinearMerge(g, pr, p) && pr.merge in g.parents && g.parents[pr.merge] == [parent]
    ensures p == parent
  {
    assert g.parents[pr.merge][0] == parent;
  }

  lemma ProvenIsFound(g: Git, pr: PullRequest, parent: Commit)
    ensures
      var source, target := g.revList(pr.head, pr.commits), g.revList(pr.merge, pr.commits);
      forall b: Commit :: ProvenLinear(g, pr, parent, b) ==>
        && source != [] && |source[|source| - 1]| == 2 && Bottom(source) == b
        && (|| GenuineRebase(g, pr, source, target)
            || (PrintsChain(g, pr.head, pr.commits) && GenuineSquash(g, pr, source, parent)
                && SquashAnswer(g, pr, b) == Some(b)))
  {
    hide GenuineRebase, GenuineSquash, ReadableMerge, PrintsChain;
  }

  lemma IsLinear(g: Git, pr: PullRequest, parent: Commit)
    ensures LinearMerge(g, pr, parent) <==>
      && pr.merge in g.parents && g.parents[pr.merge] == [parent]
      && pr.head in g.parents && |g.parents[pr.head]| == 1 && g.rangeMerges(parent, pr.head) == []
  {
  }

  /** Sources that incorporated their target, proved by their exact final tree. */
  method SyncedSource(g: Git, pr: PullRequest, parent: Commit, headRow: Row) returns (base: Option<Commit>)
    requires Truthful(g) && pr.merge in g.trees && pr.head in g.trees && pr.head in g.parents
    requires pr.merge in g.parents && g.parents[pr.merge] == [parent]
    requires headRow == [pr.head] + g.parents[pr.head]
    ensures base.Some? ==> Accepted(g, pr, base.value)
    ensures IsSyncedSquashOf(g, pr, parent) ==> base == Some(parent)
    ensures Orderly(g) ==> forall b: Commit :: IsSyncedRebaseOf(g, pr, b) ==> base == Some(b)
  {
    hide Range, Reaches, Truthful, Orderly, ReplaysBelowSync, SameTrees;
    forall b: Commit | IsSyncedRebaseOf(g, pr, b)
      ensures SameTrees(g, pr) && |g.parents[pr.head]| == 2 && g.parents[pr.head][1] == b
      ensures !(g.mergeBase(parent, pr.head) == Some(parent) && g.rangeCount(parent, pr.head) == pr.commits)
    {
      var sourceTip, source, target :| ReplaysBelowSync(g, pr, sourceTip, b, source, target);
      ReplaysAreOf(g, pr, sourceTip, b, source, target);
      SyncedFormsDiffer(g, pr, parent, sourceTip, b, source, target);
    }
    SameTreesAre(g, pr);
    if g.trees[pr.merge] != g.trees[pr.head] {
      return None;
    }
    if g.mergeBase(parent, pr.head) == Some(parent) && g.rangeCount(parent, pr.head) == pr.commits {
      SyncedSquash(g, pr, parent);
      return Some(parent);
    }
    if |headRow| == 3 {
      base := SyncedRebase(g, pr, headRow);
      return;
    }
    return None;
  }

  lemma SameTreesAre(g: Git, pr: PullRequest)
    requires pr.merge in g.trees && pr.head in g.trees
    ensures SameTrees(g, pr) <==> g.trees[pr.merge] == g.trees[pr.head]
  {
  }

  lemma ReplaysAreOf(g: Git, pr: PullRequest, sourceTip: Commit, base: Commit, source: seq<Row>, target: seq<Row>)
    requires ReplaysBelowSync(g, pr, sourceTip, base, source, target)
    ensures SameTrees(g, pr) && pr.head in g.parents && g.parents[pr.head] == [sourceTip, base]
  {
  }

  /**
   The two synchronized forms exclude each other: the parent of replayed commits lies above the
   checked base, so that fewer commits separate it from the head.
   */
  lemma SyncedFormsDiffer(g: Git, pr: PullRequest, parent: Commit, sourceTip: Commit, base: Commit, source: seq<Row>,
                          target: seq<Row>)
    requires Truthful(g) && ReplaysBelowSync(g, pr, sourceTip, base, source, target)
    requires pr.merge in g.parents && g.parents[pr.merge] == [parent]
    ensures !(g.mergeBase(parent, pr.head) == Some(parent) && g.rangeCount(parent, pr.head) == pr.commits)
  {
    hide Truthful, Reproduced, Reaches;
    if g.mergeBase(parent, pr.head) == Some(parent) {
      OneStepDown(g, pr.merge, target);
      assert [target[0][1]][0] == parent;
      ChainFacts(g, parent, target[1..]);
      BottomIsBelow(g, parent, target[1..]);
      CountsAreTrue(g, pr, parent, base);
      RangeShrinks(g, pr.head, parent, base);
    }
  }

  lemma CountsAreTrue(g: Git, pr: PullRequest, parent: Commit, base: Commit)
    requires Truthful(g) && g.mergeBase(parent, pr.head) == Some(parent)
    requires |g.rangeRows(base, pr.head, pr.commits + 1)| == pr.commits
    ensures Reaches(g.parents, pr.head, parent)
    ensures g.rangeCount(parent, pr.head) == |Range(g.parents, parent, pr.head)|
    ensures |Range(g.parents, base, pr.head)| == pr.commits
  {
  }

  /** A commit strictly above another is separated from the head by fewer commits. */
  lemma RangeShrinks(g: Git, head: Commit, upper: Commit, lower: Commit)
    requires Truthful(g) && upper in g.parents && upper != lower
    requires Reaches(g.parents, head, upper) && Reaches(g.parents, upper, lower)
    ensures |Range(g.parents, upper, head)| < |Range(g.parents, lower, head)|
  {
    hide Reaches;
    var near, far := Range(g.parents, upper, head), Range(g.parents, lower, head);
    ReachesItself(g.parents, upper);
    if Reaches(g.parents, lower, upper) {
      MutualReachIsCycle(g.parents, upper, lower);
    }
    forall x | x in near
      ensures x in far
    {
      if Reaches(g.parents, lower, x) {
        Through(g.parents, upper, lower, x);
      }
    }
    assert upper in far - near;
    SmallerSubset(near, far, upper);
  }

  lemma SmallerSubset(s: set<Commit>, t: set<Commit>, extra: Commit)
    requires s <= t && extra in t - s
    ensures |s| < |t|
  {
    assert |t| == |s| + |t - s| by {
      assert t == s + (t - s);
    }
  }

  lemma SingleParent(g: Git, c: Commit, parent: Commit)
    requires exists rows :: IsChain(g.parents, c, rows) && |rows| == 1 && Bottom(rows) == parent
    ensures c in g.parents && g.parents[c] == [parent]
  {
  }

  lemma SyncedSquash(g: Git, pr: PullRequest, parent: Commit)
    requires Truthful(g) && g.mergeBase(parent, pr.head) == Some(parent) && g.rangeCount(parent, pr.head) == pr.commits
    ensures Separates(g, pr, parent)
  {
  }

  // ----- What acceptance means for the merged tree -----

  /** An accepted squash is the head on the source's paths, the target elsewhere, and again a tree. */
  lemma SquashKeepsBothSides(g: Git, pr: PullRequest, base: Commit, source: seq<Row>, prefix: seq<Row>, parent: Commit,
                             mine: set<Path>, yours: set<Path>)
    requires SquashProof(g, pr, base, source, prefix, parent, mine, yours)
    ensures forall p :: TouchedBy(g, source, p) ==> Lookup(g.trees[pr.merge], p) == Lookup(g.trees[pr.head], p)
    ensures forall p :: !TouchedBy(g, source, p) ==> Lookup(g.trees[pr.merge], p) == Lookup(g.trees[parent], p)
    ensures ValidTree(g.trees[parent]) && ValidTree(g.trees[pr.head]) ==> ValidTree(g.trees[pr.merge])
  {
    hide ValidTree;
    IndependentMerge(g.trees[base], g.trees[parent], g.trees[pr.head], g.trees[pr.merge], mine, yours);
    if ValidTree(g.trees[parent]) && ValidTree(g.trees[pr.head]) {
      IndependentMergeIsValid(g.trees[base], g.trees[parent], g.trees[pr.head], g.trees[pr.merge], mine, yours);
    }
  }

  /** The merge carries the checked head on every path on which `drifted` still is the base. */
  ghost predicate CarriesHead(g: Git, pr: PullRequest, base: Commit, drifted: Commit) {
    && pr.merge in g.trees && pr.head in g.trees && base in g.trees && drifted in g.trees
    && forall p :: !Touches(g.trees[base], g.trees[drifted], p) ==>
         Lookup(g.trees[pr.merge], p) == Lookup(g.trees[pr.head], p)
  }

  /** The commit the merge was put on: its parent after a squash, the one below all replayed commits after a rebase. */
  ghost predicate IsTargetBelow(g: Git, pr: PullRequest, c: Commit) {
    exists rows :: IsChain(g.parents, pr.merge, rows) && |rows| in {1, pr.commits} && Bottom(rows) == c
  }

  lemma RebaseCarriesHead(g: Git, pr: PullRequest, base: Commit, source: seq<Row>, target: seq<Row>)
    requires Truthful(g) && RebaseProof(g, pr, base, source, target)
    ensures CarriesHead(g, pr, base, Bottom(target))
    ensures Reaches(g.parents, pr.merge, Bottom(target)) && Bottom(target) != pr.merge
    ensures IsTargetBelow(g, pr, Bottom(target))
  {
    hide Truthful, Replayed;
    ChainFacts(g, pr.head, source);
    ChainFacts(g, pr.merge, target);
    BottomIsBelow(g, pr.merge, target);
    forall p | !Touches(g.trees[base], g.trees[Bottom(target)], p)
      ensures Lookup(g.trees[pr.merge], p) == Lookup(g.trees[pr.head], p)
    {
      ReplayCarriesSource(g, pr.head, pr.merge, source, target, p);
      assert source[0][0] == pr.head && target[0][0] == pr.merge;
    }
  }

  lemma SquashCarriesHead(g: Git, pr: PullRequest, base: Commit, source: seq<Row>, prefix: seq<Row>, parent: Commit,
                          mine: set<Path>, yours: set<Path>)
    requires Repository(g) && SquashProof(g, pr, base, source, prefix, parent, mine, yours)
    ensures CarriesHead(g, pr, base, parent)
    ensures Reaches(g.parents, pr.merge, parent) && parent != pr.merge && IsTargetBelow(g, pr, parent)
  {
    hide Independent, CleanMerge;
    StepReaches(g.parents, pr.merge, parent);
    ReachesItself(g.parents, parent);
    assert IsChain(g.parents, pr.merge, [[pr.merge, parent]]) && Bottom([[pr.merge, parent]]) == parent;
    if parent == pr.merge {
      BackEdge(g.parents, parent, parent);
    }
    IndependentMerge(g.trees[base], g.trees[parent], g.trees[pr.head], g.trees[pr.merge], mine, yours);
    forall p | !Touches(g.trees[base], g.trees[parent], p)
      ensures Lookup(g.trees[pr.merge], p) == Lookup(g.trees[pr.head], p)
    {
      assert p !in mine ==> !Touches(g.trees[base], g.trees[pr.head], p);
    }
  }

  /** Wherever the target did not drift from the checked base, the merge carries the checked head. */
  lemma AcceptedMergeCarriesHead(g: Git, pr: PullRequest, base: Commit) returns (drifted: Commit)
    requires Truthful(g) && Accepted(g, pr, base) && base in g.trees
    ensures CarriesHead(g, pr, base, drifted)
    ensures !SameTrees(g, pr) ==>
              drifted != pr.merge && Reaches(g.parents, pr.merge, drifted) && IsTargetBelow(g, pr, drifted)
  {
    hide RebaseProof, SquashProof, Truthful, Repository, Reaches, IsTargetBelow;
    if SameTrees(g, pr) {
      drifted := base;
    } else if exists source, target :: RebaseProof(g, pr, base, source, target) {
      var source, target :| RebaseProof(g, pr, base, source, target);
      RebaseIsNotEmpty(g, pr, base, source, target);
      drifted := Bottom(target);
      RebaseCarriesHead(g, pr, base, source, target);
    } else {
      var source, prefix, parent, mine, yours :| SquashProof(g, pr, base, source, prefix, parent, mine, yours);
      drifted := parent;
      TruthfulRepository(g);
      SquashCarriesHead(g, pr, base, source, prefix, parent, mine, yours);
    }
  }

  lemma TruthfulRepository(g: Git)
    requires Truthful(g)
    ensures Repository(g)
  {
  }

  lemma RebaseIsNotEmpty(g: Git, pr: PullRequest, base: Commit, source: seq<Row>, target: seq<Row>)
    requires RebaseProof(g, pr, base, source, target)
    ensures target != [] && |target[|target| - 1]| == 2
  {
  }

  lemma BottomIsBelow(g: Git, tip: Commit, rows: seq<Row>)
    requires Truthful(g) && IsChain(g.parents, tip, rows)
    ensures Bottom(rows) != tip
  {
    var p := rows[0][1];
    assert p in g.parents[tip];
    if |rows| > 1 {
      ChainTail(g.parents, tip, rows);
      ChainRange(g, p, rows[1..]);
    } else {
      ReachesItself(g.parents, p);
    }
    if Bottom(rows) == tip {
      BackEdge(g.parents, tip, p);
    }
  }
}
