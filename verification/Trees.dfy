/** Git trees as maps from paths to blobs, path differences, and clean three-way merges. */
module Trees {
  import opened Faults

  /** A path is the sequence of its names. */
  type Path = seq<string>

  type Blob = nat

  type Tree = map<Path, Blob>

  function Lookup(t: Tree, p: Path): Option<Blob> {
    if p in t then Some(t[p]) else None
  }

  /** `p` is `q` or a directory above it. */
  predicate AtOrAbove(p: Path, q: Path) {
    p <= q
  }

  /** No path is empty, and none is both a file and a directory. */
  ghost predicate ValidTree(t: Tree) {
    && (forall p :: p in t ==> p != [])
    && forall p, q :: p in t && q in t && AtOrAbove(p, q) ==> p == q
  }

  ghost predicate Touches(before: Tree, after: Tree, p: Path) {
    Lookup(before, p) != Lookup(after, p)
  }

  /**
   What a conflict-free `git merge-tree` gives on every path: where one side equals the
   base, the other side.  Without rename detection paths do not influence each other.
   */
  ghost predicate CleanMerge(base: Tree, ours: Tree, theirs: Tree, result: Tree) {
    forall p ::
      && (!Touches(base, ours, p) ==> Lookup(result, p) == Lookup(theirs, p))
      && (!Touches(base, theirs, p) ==> Lookup(result, p) == Lookup(ours, p))
  }

  /** No path of one set equals a path of the other or lies above it, either way round. */
  ghost predicate Independent(s: set<Path>, t: set<Path>) {
    forall p, q :: p in s && q in t ==> !AtOrAbove(p, q) && !AtOrAbove(q, p)
  }

  /** The two sides change different paths, and none below a path the other changes. */
  ghost predicate Apart(base: Tree, ours: Tree, theirs: Tree) {
    forall p, q :: Touches(base, ours, p) && Touches(base, theirs, q) ==> !AtOrAbove(p, q) && !AtOrAbove(q, p)
  }

  /** `s` contains every path on which the two trees differ. */
  ghost predicate Covers(s: set<Path>, before: Tree, after: Tree) {
    forall p :: Touches(before, after, p) ==> p in s
  }

  /** The merge of independent changes is the head on its own paths and the target elsewhere. */
  lemma IndependentMerge(base: Tree, ours: Tree, theirs: Tree, result: Tree, mine: set<Path>, yours: set<Path>)
    requires CleanMerge(base, ours, theirs, result)
    requires Covers(yours, base, ours) && Covers(mine, base, theirs)
    requires Independent(mine, yours)
    ensures forall p :: p in mine ==> Lookup(result, p) == Lookup(theirs, p)
    ensures forall p :: p !in mine ==> Lookup(result, p) == Lookup(ours, p)
  {
    forall p
      ensures p in mine ==> Lookup(result, p) == Lookup(theirs, p)
      ensures p !in mine ==> Lookup(result, p) == Lookup(ours, p)
    {
      assert Touches(base, ours, p) ==> p in yours;
      assert Touches(base, theirs, p) ==> p in mine;
      assert AtOrAbove(p, p);
    }
  }

  /** ... and is again a tree: no path of it is both a file and a directory. */
  lemma IndependentMergeIsValid(base: Tree, ours: Tree, theirs: Tree, result: Tree, mine: set<Path>, yours: set<Path>)
    requires CleanMerge(base, ours, theirs, result)
    requires Covers(yours, base, ours) && Covers(mine, base, theirs)
    requires Independent(mine, yours)
    requires ValidTree(ours) && ValidTree(theirs)
    ensures ValidTree(result)
  {
    IndependentMerge(base, ours, theirs, result, mine, yours);
    forall p | p in result
      ensures p != []
    {
      assert Lookup(result, p).Some?;
      assert p in ours || p in theirs;
    }
    forall p, q | p in result && q in result && AtOrAbove(p, q)
      ensures p == q
    {
      assert Lookup(result, p).Some? && Lookup(result, q).Some?;
      BothOnOneSide(base, ours, theirs, result, mine, yours, p, q);
    }
  }

  /** Of two nested paths of the merge, one of the two sides has both. */
  lemma BothOnOneSide(base: Tree, ours: Tree, theirs: Tree, result: Tree, mine: set<Path>, yours: set<Path>, p: Path,
                      q: Path)
    requires Covers(yours, base, ours) && Covers(mine, base, theirs)
    requires Independent(mine, yours)
    requires forall x :: x in mine ==> Lookup(result, x) == Lookup(theirs, x)
    requires forall x :: x !in mine ==> Lookup(result, x) == Lookup(ours, x)
    requires p in result && q in result && AtOrAbove(p, q)
    ensures (p in ours && q in ours) || (p in theirs && q in theirs)
  {
    assert Lookup(result, p).Some? && Lookup(result, q).Some?;
    assert Touches(base, ours, p) ==> p in yours;
    assert Touches(base, ours, q) ==> q in yours;
    assert Touches(base, theirs, p) ==> p in mine;
    assert Touches(base, theirs, q) ==> q in mine;
  }
}
