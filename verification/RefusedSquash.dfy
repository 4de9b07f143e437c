/**
 A genuine squash whose base is not recovered: its target ends with a merge commit, and the branches
 below the merge are printed side by side.
 */
module RefusedSquash {
  import opened CheckedBase
  import opened Dag
  import opened Faults
  import opened Trees

  // ----- A history -----

  const FILE: Path := ["file"]

  const BASE_TREE: Tree := map[FILE := 0]

  const HEAD_TREE: Tree := map[FILE := 1]

  /** 13 to 10 are the source on top of 8, 9 is its squash, and 8 merged the branches 7 and 6. */
  const HISTORY: Parents :=
    map[13 := [12], 12 := [11], 11 := [10], 10 := [8], 9 := [8], 8 := [7, 6], 7 := [5], 6 := [5], 5 := []]

  function TreeOf(c: Commit): Tree {
    if c == 8 || c <= 7 then BASE_TREE else HEAD_TREE
  }

  const SOURCE: seq<Row> := [[13, 12], [12, 11], [11, 10], [10, 8]]

  /** `rev-list --parents`: below the merge the rows of both branches come before their common parent. */
  function Printed(c: Commit, n: nat): (rows: seq<Row>)
    ensures |rows| <= n
    decreases n
  {
    if n == 0 || c !in HISTORY then []
    else if c == 8 then [[8, 7, 6], [7, 5], [6, 5], [5]][..if n < 4 then n else 4]
    else if |HISTORY[c]| == 1 then [[c] + HISTORY[c]] + Printed(HISTORY[c][0], n - 1)
    else [[c] + HISTORY[c]]
  }

  lemma {:induction false} PrintedIsTrue(g: Git, c: Commit, n: nat)
    requires g.parents == HISTORY
    ensures TrueRows(g, Printed(c, n))
    decreases n
  {
    if n > 0 && c in HISTORY && c != 8 && |HISTORY[c]| == 1 {
      PrintedIsTrue(g, HISTORY[c][0], n - 1);
    }
  }

  /** Linear histories are printed from their tip down. */
  lemma {:induction false} ChainIsPrinted(tip: Commit, rows: seq<Row>)
    requires IsChain(HISTORY, tip, rows)
    ensures Printed(tip, |rows|) == rows
    decreases |rows|
  {
    assert HISTORY[rows[0][0]] == [rows[0][1]];
    assert HISTORY[tip][0] == rows[0][1] && rows[0] == [tip] + HISTORY[tip];
    assert Printed(tip, |rows|) == [rows[0]] + Printed(rows[0][1], |rows| - 1);
    if |rows| > 1 {
      ChainTail(HISTORY, tip, rows);
      ChainIsPrinted(rows[0][1], rows[1..]);
    }
  }

  ghost predicate Descending(parents: Parents) {
    forall c, q :: c in parents && q in parents[c] ==> q in parents && q < c
  }

  /** A graph whose commits have larger numbers than their parents has no cycle. */
  lemma {:induction false} WalkDescends(parents: Parents, p: seq<Node>)
    requires Descending(parents) && IsPath(parents, p)
    ensures p[|p| - 1] <= p[0] && (|p| > 1 ==> p[|p| - 1] < p[0])
    decreases |p|
  {
    if |p| > 1 {
      WalkDescends(parents, p[1..]);
    }
  }

  // ----- Merging path by path -----

  ghost predicate OneSided(base: Tree, ours: Tree, theirs: Tree) {
    forall p :: p in base.Keys + ours.Keys + theirs.Keys ==> !Touches(base, ours, p) || !Touches(base, theirs, p)
  }

  ghost function PathMerge(base: Tree, ours: Tree, theirs: Tree): Option<Tree> {
    if OneSided(base, ours, theirs) then
      Some(map p | p in ours.Keys + theirs.Keys && Chosen(base, ours, theirs, p).Some? ::
        Chosen(base, ours, theirs, p).value)
    else
      None
  }

  function Chosen(base: Tree, ours: Tree, theirs: Tree, p: Path): Option<Blob> {
    if Lookup(base, p) == Lookup(ours, p) then Lookup(theirs, p) else Lookup(ours, p)
  }

  lemma PathMergeIsClean(base: Tree, ours: Tree, theirs: Tree)
    requires PathMerge(base, ours, theirs).Some?
    ensures CleanMerge(base, ours, theirs, PathMerge(base, ours, theirs).value)
  {
    var result := PathMerge(base, ours, theirs).value;
    forall p
      ensures !Touches(base, ours, p) ==> Lookup(result, p) == Lookup(theirs, p)
      ensures !Touches(base, theirs, p) ==> Lookup(result, p) == Lookup(ours, p)
    {
      assert Lookup(result, p) == Chosen(base, ours, theirs, p);
    }
  }

  lemma ApartIsOneSided(base: Tree, ours: Tree, theirs: Tree)
    requires Apart(base, ours, theirs)
    ensures PathMerge(base, ours, theirs).Some?
  {
    forall p | p in base.Keys + ours.Keys + theirs.Keys
      ensures !Touches(base, ours, p) || !Touches(base, theirs, p)
    {
      assert AtOrAbove(p, p);
    }
  }

  ghost function Difference(s: Tree, t: Tree): set<Path> {
    set p | p in s.Keys + t.Keys && Touches(s, t, p)
  }

  // ----- The refusal -----

  /** The rows of those of the commits below `n`, the latest first. */
  function RowsOf(s: set<Commit>, n: nat): seq<Row>
    requires s <= HISTORY.Keys
  {
    if n == 0 then []
    else if n - 1 in s then [[n - 1] + HISTORY[n - 1]] + RowsOf(s, n - 1)
    else RowsOf(s, n - 1)
  }

  ghost function UpTo(s: set<Commit>, n: nat): set<Commit> {
    set c | c in s && c < n
  }

  lemma {:induction false} RowsAreTrue(g: Git, s: set<Commit>, n: nat)
    requires s <= HISTORY.Keys && g.parents == HISTORY
    ensures TrueRows(g, RowsOf(s, n))
  {
    hide HISTORY;
    if n > 0 {
      RowsAreTrue(g, s, n - 1);
    }
  }

  lemma {:induction false} RowsAreOf(s: set<Commit>, n: nat)
    requires s <= HISTORY.Keys
    ensures Names(RowsOf(s, n)) == UpTo(s, n) && |RowsOf(s, n)| == |UpTo(s, n)|
  {
    hide HISTORY, Names;
    if n == 0 {
      NoNames();
      assert UpTo(s, 0) == {};
    } else {
      RowsAreOf(s, n - 1);
      if n - 1 in s {
        assert UpTo(s, n) == {n - 1} + UpTo(s, n - 1);
        NamesOfCons([n - 1] + HISTORY[n - 1], RowsOf(s, n - 1));
      } else {
        assert UpTo(s, n) == UpTo(s, n - 1);
      }
    }
  }

  lemma NoNames()
    ensures Names([]) == {}
  {
  }

  lemma NamesOfCons(row: Row, rows: seq<Row>)
    requires row != []
    ensures Names([row] + rows) == {row[0]} + Names(rows)
  {
    forall c
      ensures c in Names([row] + rows) <==> c in {row[0]} + Names(rows)
    {
      if c in Names(rows) {
        var r :| r in rows && r != [] && r[0] == c;
        assert r in [row] + rows;
      }
      assert row in [row] + rows;
    }
  }

  ghost function RangeOf(a: Commit, b: Commit): (s: set<Commit>)
    ensures s <= HISTORY.Keys
  {
    Range(HISTORY, a, b)
  }

  ghost function MergesIn(a: Commit, b: Commit): (s: set<Commit>)
    ensures s <= HISTORY.Keys
  {
    MergesOf(HISTORY, a, b)
  }

  function AtMost(rows: seq<Row>, n: nat): seq<Row> {
    if |rows| <= n then rows else rows[..n]
  }

  /** The answers of git over this history. */
  ghost function Repository13(): Git {
    Git(
      HISTORY,
      map c | c in HISTORY :: TreeOf(c),
      Printed,
      (a: Commit, b: Commit, n: nat) => AtMost(RowsOf(RangeOf(a, b), 14), n),
      (a: Commit, b: Commit) => RowsOf(MergesIn(a, b), 14),
      (a: Commit, b: Commit) => |Range(HISTORY, a, b)|,
      (a: Commit, b: Commit) => Reaches(HISTORY, b, a),
      (a: Commit, b: Commit) => if Reaches(HISTORY, b, a) then Some(a) else None,
      (base: Tree, ours: Tree, theirs: Tree) => PathMerge(base, ours, theirs),
      (a: Commit, b: Commit) => None,
      (s: Tree, t: Tree) => Difference(s, t))
  }

  lemma HistoryDescends()
    ensures Descending(HISTORY)
  {
  }

  lemma NoCycle(c: Commit)
    ensures !OnCycle(HISTORY, c)
  {
    hide HISTORY;
    if OnCycle(HISTORY, c) {
      var p :| Connects(HISTORY, p, c, c) && |p| > 1;
      HistoryDescends();
      WalkDescends(HISTORY, p);
    }
  }

  lemma TreesAreValid()
    ensures forall c :: ValidTree(TreeOf(c))
  {
  }

  lemma HistoryIsRepository()
    ensures CheckedBase.Repository(Repository13())
  {
    hide HISTORY, OnCycle, ValidTree, TreeOf;
    HistoryDescends();
    TreesAreValid();
    forall c | c in HISTORY
      ensures !OnCycle(HISTORY, c)
    {
      NoCycle(c);
    }
  }

  lemma FirstIsAsked(c: Commit)
    ensures Printed(c, 1) == if c in HISTORY then [[c] + HISTORY[c]] else []
  {
    if c == 8 {
      assert HISTORY[8] == [7, 6] && [8] + HISTORY[8] == [8, 7, 6];
      assert Printed(8, 1) == [[8, 7, 6]];
    } else if c in HISTORY && |HISTORY[c]| == 1 {
      assert Printed(HISTORY[c][0], 0) == [];
    }
  }

  lemma HistoryIsTruthful()
    ensures Truthful(Repository13()) && Lawful(Repository13())
  {
    hide HISTORY, CheckedBase.Repository, Printed, PathMerge, CleanMerge, Apart, Reaches, Range, IsChain, ValidTree;
    hide TrueRows, Difference, Touches, Names, MergesOf, RowsOf, AtMost;
    var g := Repository13();
    HistoryIsRepository();
    forall a: Commit, b: Commit, n: nat
      ensures TrueRows(g, g.rangeRows(a, b, n)) && Names(g.rangeRows(a, b, n)) <= Range(HISTORY, a, b)
      ensures |g.rangeRows(a, b, n)| < n ==> |g.rangeRows(a, b, n)| == |Range(HISTORY, a, b)|
    {
      RangeIsPrinted(g, a, b, n);
    }
    forall a: Commit, b: Commit
      ensures TrueRows(g, g.rangeMerges(a, b)) && Names(g.rangeMerges(a, b)) == MergesOf(HISTORY, a, b)
    {
      RangeIsPrinted(g, a, b, 0);
    }
    forall c: Commit, n: nat
      ensures TrueRows(g, g.revList(c, n))
    {
      PrintedIsTrue(g, c, n);
    }
    forall c: Commit
      ensures g.revList(c, 1) == if c in HISTORY then [[c] + HISTORY[c]] else []
    {
      FirstIsAsked(c);
    }
    forall base: Tree, ours: Tree, theirs: Tree
      ensures g.mergeTree(base, ours, theirs).Some? ==>
                CleanMerge(base, ours, theirs, g.mergeTree(base, ours, theirs).value)
      ensures Apart(base, ours, theirs) ==> g.mergeTree(base, ours, theirs).Some?
    {
      if PathMerge(base, ours, theirs).Some? {
        PathMergeIsClean(base, ours, theirs);
      }
      if Apart(base, ours, theirs) {
        ApartIsOneSided(base, ours, theirs);
      }
    }
    forall s: Tree, t: Tree, p: Path
      ensures p in g.diff(s, t) <==> Touches(s, t, p)
    {
      DifferenceIsExact(s, t, p);
    }
    forall tip: Commit, rows: seq<Row> | IsChain(HISTORY, tip, rows)
      ensures g.revList(tip, |rows|) == rows
    {
      ChainIsPrinted(tip, rows);
    }
  }

  lemma AllBelow(s: set<Commit>)
    requires s <= HISTORY.Keys
    ensures UpTo(s, 14) == s
  {
  }

  lemma RangeIsPrinted(g: Git, a: Commit, b: Commit, n: nat)
    requires g.parents == HISTORY
    ensures
      var rows, merges := RowsOf(RangeOf(a, b), 14), RowsOf(MergesIn(a, b), 14);
      && TrueRows(g, AtMost(rows, n)) && Names(AtMost(rows, n)) <= Range(HISTORY, a, b)
      && (|AtMost(rows, n)| < n ==> |AtMost(rows, n)| == |Range(HISTORY, a, b)|)
      && TrueRows(g, merges) && Names(merges) == MergesOf(HISTORY, a, b)
  {
    hide HISTORY, Range, RowsOf, TrueRow, UpTo;
    AllBelow(RangeOf(a, b));
    AllBelow(MergesIn(a, b));
    RowsAreOf(RangeOf(a, b), 14);
    RowsAreOf(MergesIn(a, b), 14);
    RowsAreTrue(g, RangeOf(a, b), 14);
    RowsAreTrue(g, MergesIn(a, b), 14);
  }

  lemma DifferenceIsExact(s: Tree, t: Tree, p: Path)
    ensures p in Difference(s, t) <==> Touches(s, t, p)
  {
  }

  lemma SourceIsChain()
    ensures IsChain(HISTORY, 13, SOURCE) && EndsAt(SOURCE, 8)
  {
    assert Linked(SOURCE, 0) && Linked(SOURCE, 1) && Linked(SOURCE, 2);
  }

  lemma SquashIsMerged()
    ensures PathMerge(BASE_TREE, BASE_TREE, HEAD_TREE) == Some(HEAD_TREE)
  {
    var merged := PathMerge(BASE_TREE, BASE_TREE, HEAD_TREE);
    assert merged.Some? && merged.value == HEAD_TREE;
  }

  lemma HistoryIsUnreadable()
    ensures !Readable(Printed(9, 4), 9, 4)
  {
    var rows := Printed(9, 4);
    assert Printed(8, 3) == [[8, 7, 6], [7, 5], [6, 5]];
    assert HISTORY[9] == [8] && rows == [[9] + HISTORY[9]] + Printed(8, 3);
    assert |rows[2]| == 2 && !Linked(rows, 2);
  }

  lemma SquashIsGenuine(g: Git, pr: PullRequest)
    requires g == Repository13() && pr == PullRequest(13, 5, true, 9, 4)
    ensures GenuineSquash(g, pr, SOURCE, 8)
  {
    hide IsChain, PathMerge, Range, Reaches, Printed;
    SourceIsChain();
    SquashIsMerged();
    ReachesItself(HISTORY, 8);
    EmptyRange(HISTORY, 8);
    assert PrefixRows(g, 8, 8) == [];
  }

  lemma NoMergeInSource()
    ensures RowsOf(MergesIn(8, 13), 14) == []
  {
    ReachesItself(HISTORY, 8);
    assert MergesIn(8, 13) == {};
    hide MergesIn, HISTORY;
    NoRows(14);
  }

  lemma {:induction false} NoRows(n: nat)
    ensures RowsOf({}, n) == []
  {
    if n > 0 {
      NoRows(n - 1);
    }
  }

  /** Git would answer every question a squash is proved by, and still its base is refused. */
  lemma InterleavedSquashIsRefused() returns (g: Git, pr: PullRequest)
    ensures Truthful(g) && Lawful(g) && pr.merged
    ensures IsSquashOf(g, pr, 8) && SquashAnswer(g, pr, 8) == None
  {
    hide Truthful, Lawful, GenuineSquash, Readable, Printed, PathMerge;
    g, pr := Repository13(), PullRequest(13, 5, true, 9, 4);
    HistoryIsTruthful();
    SquashIsGenuine(g, pr);
    SourceIsChain();
    HistoryIsUnreadable();
    NoMergeInSource();
    assert LinearMerge(g, pr, 8);
  }
}
