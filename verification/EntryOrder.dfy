/**
 When the order of directory entries cannot decide whether storage is measured: a directory lists
 its entries in any order, and a symbolic link with several names is judged by the first one met.
 */
module EntryOrder {
  import opened AllocatedStorage
  import opened Faults

  /** The same storage with the entries of each directory in another order. */
  ghost predicate Relisted(fs: Fs, fs': Fs) {
    && fs'.nodes == fs.nodes && fs'.target == fs.target && fs'.listing.Keys == fs.listing.Keys
    && forall d :: d in fs.listing ==> multiset(fs'.listing[d]) == multiset(fs.listing[d])
  }

  lemma RelistedIsWellFormed(fs: Fs, fs': Fs)
    requires WellFormed(fs) && Relisted(fs, fs')
    ensures WellFormed(fs')
  {
    hide Nested, Linked, Listed, Relisted;
    NodesDecide(fs, fs');
    RelistedIsListed(fs, fs');
  }

  lemma NodesDecide(fs: Fs, fs': Fs)
    requires Nested(fs) && Linked(fs) && Relisted(fs, fs')
    ensures Nested(fs') && Linked(fs')
  {
    forall p, q, c | SameInode(fs', p, q) && c in fs'.nodes && IsChild(p, c)
      ensures HasEntry(fs', q, fs'.nodes[c].id)
    {
      assert SameInode(fs, p, q) && HasEntry(fs, q, fs.nodes[c].id);
    }
  }

  lemma RelistedIsListed(fs: Fs, fs': Fs)
    requires Listed(fs) && Relisted(fs, fs')
    ensures Listed(fs')
  {
    forall p, c | p in fs'.listing
      ensures c in fs'.listing[p] <==> c in fs'.nodes && IsChild(p, c)
    {
      assert c in multiset(fs'.listing[p]) <==> c in multiset(fs.listing[p]);
    }
  }

  // ----- No directory contains itself -----

  /** Below two paths to one directory the same relative depths exist. */
  lemma {:induction false} Counterpart(fs: Fs, a: Path, b: Path, s: Path) returns (s': Path)
    requires Nested(fs) && Linked(fs) && SameInode(fs, a, b) && a + s in fs.nodes
    ensures |s'| == |s| && b + s' in fs.nodes && SameInode(fs, a + s, b + s')
    decreases |s|
  {
    if s == [] {
      assert a + s == a && b + [] == b;
      s' := [];
    } else {
      var up := s[..|s| - 1];
      assert (a + s)[..|a + s| - 1] == a + up;
      assert a + up <= a + s;
      var up' := Counterpart(fs, a, b, up);
      assert IsChild(a + up, a + s);
      assert HasEntry(fs, b + up', fs.nodes[a + s].id);
      var c :| c in fs.nodes && IsChild(b + up', c) && fs.nodes[c].id == fs.nodes[a + s].id;
      s' := c[|b|..];
      assert c[..|b + up'|][..|b|] == b;
      assert c == b + s';
    }
  }

  lemma {:induction false} Longest(paths: set<Path>) returns (n: nat)
    ensures forall p :: p in paths ==> |p| <= n
    decreases |paths|
  {
    n := 0;
    if paths != {} {
      var p :| p in paths;
      var m := Longest(paths - {p});
      n := if |p| > m then |p| else m;
      assert forall q :: q in paths ==> q == p || q in paths - {p};
    }
  }

  /** A directory below itself would have entries at every depth. */
  lemma {:induction false} NoSelfBelow(fs: Fs, a: Path, b: Path, s: Path, n: nat)
    requires Nested(fs) && Linked(fs) && SameInode(fs, a, b) && a < b && a + s in fs.nodes
    requires forall p :: p in fs.nodes ==> |p| <= n
    ensures false
    decreases n - |s|
  {
    var s' := Counterpart(fs, a, b, s);
    var further := b[|a|..] + s';
    assert b + s' == a + further;
    assert |a + further| <= n;
    NoSelfBelow(fs, a, b, further, n);
  }

  lemma NotAbove(fs: Fs, a: Path, b: Path)
    requires Nested(fs) && Linked(fs) && a < b && b in fs.nodes && a in fs.nodes
    ensures fs.nodes[a].id != fs.nodes[b].id
  {
    if fs.nodes[a].id == fs.nodes[b].id {
      var n := Longest(fs.nodes.Keys);
      assert a + [] == a;
      NoSelfBelow(fs, a, b, [], n);
      assert false;
    }
  }

  // ----- The listing that meets one path first -----

  /** An entry moved to the end of its listing, where the walk takes entries from. */
  ghost function Last(entries: seq<Path>, x: Path): (r: seq<Path>)
    requires x in entries
    ensures multiset(r) == multiset(entries) && r != [] && r[|r| - 1] == x
  {
    var i :| 0 <= i < |entries| && entries[i] == x;
    assert entries == entries[..i] + [x] + entries[i + 1..];
    entries[..i] + entries[i + 1..] + [x]
  }

  /** The entry of `d` that leads towards `p`. */
  function Towards(d: Path, p: Path): Path
    requires d < p
  {
    p[..|d| + 1]
  }

  ghost predicate OnTheWay(fs: Fs, d: Path, p: Path) {
    d < p && d in fs.listing && Towards(d, p) in fs.listing[d]
  }

  ghost function FirstMet(fs: Fs, p: Path): (r: Fs)
    ensures Relisted(fs, r)
  {
    fs.(listing := map d | d in fs.listing ::
      if OnTheWay(fs, d, p) then Last(fs.listing[d], Towards(d, p)) else fs.listing[d])
  }

  lemma WayIsListed(fs: Fs, p: Path, d: Path)
    requires Nested(fs) && Listed(fs) && p in fs.nodes && d < p
    ensures fs.nodes[d].kind == Directory && OnTheWay(fs, d, p)
  {
    var next := Towards(d, p);
    assert next <= p && next[..|d|] == d;
    assert next in fs.nodes && d in fs.nodes && IsChild(d, next);
  }

  /** Nothing on the way to `p` from `start` is counted yet, but what was passed. */
  ghost predicate OnlyPassed(fs: Fs, start: Path, top: Path, p: Path, t: Tally) {
    forall q :: start <= q <= p && q in fs.nodes && fs.nodes[q].id in t.seen ==> |q| < |top|
  }

  /** The walk goes straight down to a link that does not fit, and fails there. */
  lemma {:induction false} StraightDown(fs: Fs, areas: seq<Area>, c: Class, device: nat, p: Path, start: Path,
                                        top: Path,
                                        rest: seq<Path>, t: Tally)
    requires Nested(fs) && Listed(fs) && Linked(fs) && c in t.amounts
    requires p in fs.nodes && fs.nodes[p].kind == Link && !LinkFits(fs, areas, p, c)
    requires start <= top <= p && OnlyPassed(fs, start, top, p, t)
    ensures Walk(FirstMet(fs, p), areas, c, device, rest + [top], t).None?
    decreases |p| - |top|
  {
    hide *;
    var fs', pending := FirstMet(fs, p), rest + [top];
    WalkVisits(fs', areas, c, device, pending, t);
    TopIsNew(fs, start, top, p, t);
    if Visit(fs', areas, c, device, pending, t).Some? {
      var above := OneStepDown(fs, areas, c, device, p, top, rest, t);
      StillOnlyPassed(fs, start, top, p, t, c);
      TowardsIsBelow(start, top, p);
      StraightDown(fs, areas, c, device, p, start, Towards(top, p), above, Count(t, fs.nodes[top], c));
    }
  }

  lemma TowardsIsBelow(start: Path, top: Path, p: Path)
    requires start <= top < p
    ensures start <= Towards(top, p) <= p && |Towards(top, p)| == |top| + 1
  {
  }

  /** A directory on the way is replaced by its entries, the one towards the link on top. */
  lemma OneStepDown(fs: Fs, areas: seq<Area>, c: Class, device: nat, p: Path, top: Path, rest: seq<Path>, t: Tally)
    returns (above: seq<Path>)
    requires Nested(fs) && Listed(fs) && c in t.amounts && top <= p
    requires p in fs.nodes && fs.nodes[p].kind == Link && !LinkFits(fs, areas, p, c)
    requires top in fs.nodes && fs.nodes[top].id !in t.seen
    requires Visit(FirstMet(fs, p), areas, c, device, rest + [top], t).Some?
    ensures top < p
    ensures Visit(FirstMet(fs, p), areas, c, device, rest + [top], t)
         == Some(Progress(above + [Towards(top, p)], Count(t, fs.nodes[top], c)))
  {
    hide Nested, Listed, LinkFits;
    var fs', pending := FirstMet(fs, p), rest + [top];
    assert pending[..|pending| - 1] == rest && pending[|pending| - 1] == top;
    FitsAlike(fs, fs', areas, p, c);
    assert |top| == |p| ==> top == p;
    WayIsListed(fs, p, top);
    var entries := fs'.listing[top];
    above := rest + entries[..|entries| - 1];
    assert rest + entries == above + [Towards(top, p)];
  }

  lemma FitsAlike(fs: Fs, fs': Fs, areas: seq<Area>, p: Path, c: Class)
    requires Relisted(fs, fs')
    ensures LinkFits(fs, areas, p, c) <==> LinkFits(fs', areas, p, c)
  {
  }

  lemma TopIsNew(fs: Fs, start: Path, top: Path, p: Path, t: Tally)
    requires Nested(fs) && OnlyPassed(fs, start, top, p, t) && start <= top <= p && p in fs.nodes
    ensures top in fs.nodes && fs.nodes[top].id !in t.seen
  {
  }

  lemma StillOnlyPassed(fs: Fs, start: Path, top: Path, p: Path, t: Tally, c: Class)
    requires Nested(fs) && Linked(fs) && OnlyPassed(fs, start, top, p, t) && start <= top < p && p in fs.nodes
    requires top in fs.nodes && c in t.amounts
    ensures OnlyPassed(fs, start, Towards(top, p), p, Count(t, fs.nodes[top], c))
  {
    forall q | start <= q <= p && q in fs.nodes && fs.nodes[q].id == fs.nodes[top].id
      ensures |q| <= |top|
    {
      if |q| > |top| {
        assert q[..|top|] == p[..|top|] == top;
        NotAbove(fs, top, q);
      }
    }
  }

  // ----- The first area with a name of an inode -----

  ghost predicate Classified(areas: seq<Area>) {
    forall i :: 0 <= i < |areas| ==> areas[i].category in CLASSES
  }

  /** No area before `i` has a path to the inode of `p`. */
  ghost predicate FirstArea(fs: Fs, areas: seq<Area>, i: nat, p: Path) {
    p in fs.nodes && forall j, q :: 0 <= j < i <= |areas| && areas[j].path <= q ==> !SameInode(fs, p, q)
  }

  /** Every link fits under every name in the first area that has one. */
  ghost predicate FirstNamesFit(fs: Fs, areas: seq<Area>) {
    forall i, p :: 0 <= i < |areas| && p in fs.nodes && areas[i].path <= p && FirstArea(fs, areas, i, p) ==>
      (fs.nodes[p].kind == Link ==> LinkFits(fs, areas, p, areas[i].category))
  }

  lemma AllocatedIsWalked(fs: Fs, roots: seq<Root>)
    ensures Areas(ByLength(roots)).None? ==> Allocated(fs, roots).None?
    ensures Areas(ByLength(roots)).Some? ==>
              && Classified(Areas(ByLength(roots)).value)
              && Allocated(fs, roots) == WalkAll(fs, Areas(ByLength(roots)).value, |Areas(ByLength(roots)).value|)
  {
    hide ByLength, Areas, WalkAll;
    if Areas(ByLength(roots)).Some? {
      AreasAreClassified(ByLength(roots));
    }
  }

  lemma OneWalkMore(fs: Fs, areas: seq<Area>, i: nat)
    requires i < |areas| && Classified(areas)
    ensures WalkAll(fs, areas, i).None? ==> WalkAll(fs, areas, i + 1).None?
    ensures WalkAll(fs, areas, i).Some? && WalkAll(fs, areas, i + 1).Some? ==>
              Walk(fs, areas, areas[i].category, DeviceOf(fs, areas[i].path), [areas[i].path],
                   WalkAll(fs, areas, i).value).Some?
  {
    hide Walk;
  }

  /** A path from one of the areas before `i` was followed by all that lies below it. */
  lemma NotYetSeen(fs: Fs, areas: seq<Area>, i: nat, t: Tally, p: Path, q: Path)
    requires WellFormed(fs) && i <= |areas| && Covered(fs, areas, i, t) && FirstArea(fs, areas, i, p)
    requires p in fs.nodes && q <= p && q in fs.nodes
    ensures fs.nodes[q].id !in t.seen
  {
    hide *;
    NestedToo(fs);
    if fs.nodes[q].id in t.seen {
      var j, x := FoundEarlier(fs, areas, i, t, fs.nodes[q].id);
      var y := OtherName(fs, q, x, p);
      NotFirst(fs, areas, i, p, j, y);
    }
  }

  lemma OtherName(fs: Fs, q: Path, x: Path, p: Path) returns (y: Path)
    requires Nested(fs) && Linked(fs) && p in fs.nodes && q <= p && q in fs.nodes
    requires x in fs.nodes && fs.nodes[x].id == fs.nodes[q].id
    ensures x <= y && SameInode(fs, p, y)
  {
    hide Nested, Linked;
    assert q + p[|q|..] == p;
    var s := Counterpart(fs, q, x, p[|q|..]);
    y := x + s;
  }

  lemma NotFirst(fs: Fs, areas: seq<Area>, i: nat, p: Path, j: nat, y: Path)
    requires j < i <= |areas| && areas[j].path <= y && SameInode(fs, p, y)
    ensures !FirstArea(fs, areas, i, p)
  {
  }

  lemma FoundEarlier(fs: Fs, areas: seq<Area>, i: nat, t: Tally, id: Identity) returns (j: nat, x: Path)
    requires i <= |areas| && Covered(fs, areas, i, t) && id in t.seen
    ensures j < i && areas[j].path <= x && x in fs.nodes && fs.nodes[x].id == id
  {
    assert FoundIn(fs, areas, i, t, id);
    hide Covered, SeenBelow, Examined;
    j :| 0 <= j < i && t.seen[id] == areas[j].category
      && SeenBelow(fs, areas, areas[j].category, DeviceOf(fs, areas[j].path), [areas[j].path], id);
    x := SeenAt(fs, areas, areas[j].category, DeviceOf(fs, areas[j].path), areas[j].path, id);
  }

  // ----- Some order fails -----

  lemma NothingPassed(fs: Fs, start: Path, p: Path, t: Tally)
    requires forall q :: start <= q <= p && q in fs.nodes ==> fs.nodes[q].id !in t.seen
    ensures OnlyPassed(fs, start, start, p, t)
  {
  }

  lemma SameFirstArea(fs: Fs, fs': Fs, areas: seq<Area>, i: nat, p: Path)
    requires Relisted(fs, fs')
    ensures FirstArea(fs, areas, i, p) ==> FirstArea(fs', areas, i, p)
    ensures FirstArea(fs', areas, i, p) ==> FirstArea(fs, areas, i, p)
  {
    assert forall q :: SameInode(fs, p, q) <==> SameInode(fs', p, q);
  }

  lemma WalkFails(fs: Fs, areas: seq<Area>, i: nat, p: Path, t: Tally)
    requires WellFormed(fs) && Classified(areas) && i < |areas| && areas[i].path <= p
    requires FirstArea(fs, areas, i, p) && p in fs.nodes && fs.nodes[p].kind == Link
    requires !LinkFits(fs, areas, p, areas[i].category)
    requires WalkAll(FirstMet(fs, p), areas, i) == Some(t)
    ensures areas[i].category in t.amounts
    ensures Walk(FirstMet(fs, p), areas, areas[i].category, DeviceOf(FirstMet(fs, p), areas[i].path),
                 [areas[i].path], t).None?
  {
    hide WellFormed, Relisted, FirstArea, LinkFits, Covered, WalkAll, Walk, OnlyPassed;
    var fs', start := FirstMet(fs, p), areas[i].path;
    RelistedIsWellFormed(fs, fs');
    SameFirstArea(fs, fs', areas, i, p);
    WalkAllSound(fs', areas, i);
    NestedToo(fs);
    assert fs'.nodes == fs.nodes;
    forall q | start <= q <= p && q in fs.nodes
      ensures fs.nodes[q].id !in t.seen
    {
      NotYetSeen(fs', areas, i, t, p, q);
    }
    NothingPassed(fs, start, p, t);
    StraightDown(fs, areas, areas[i].category, DeviceOf(fs', start), p, start, start, [], t);
    assert [] + [start] == [start];
  }

  /** A link with a name that does not fit, in the first area that has one, is met first in some listing. */
  lemma MetFirstItFails(fs: Fs, roots: seq<Root>, areas: seq<Area>, i: nat, p: Path)
    requires WellFormed(fs) && Areas(ByLength(roots)) == Some(areas) && i < |areas| && areas[i].path <= p
    requires FirstArea(fs, areas, i, p) && p in fs.nodes && fs.nodes[p].kind == Link
    requires !LinkFits(fs, areas, p, areas[i].category)
    ensures Allocated(FirstMet(fs, p), roots).None?
  {
    hide *;
    var fs' := FirstMet(fs, p);
    AllocatedIsWalked(fs', roots);
    ClassifiedAreas(areas);
    if WalkAll(fs', areas, i).Some? {
      WalkFails(fs, areas, i, p, WalkAll(fs', areas, i).value);
    }
    OneWalkMore(fs', areas, i);
    NoWalkBack(fs', areas, i + 1);
  }

  lemma ClassifiedAreas(areas: seq<Area>)
    requires Classified(areas)
    ensures forall i :: 0 <= i < |areas| ==> areas[i].category in CLASSES
  {
  }

  // ----- Every order succeeds -----

  /** What a walk below area `i` may rely on, in any order. */
  ghost predicate Orderless(fs: Fs, roots: seq<Root>, areas: seq<Area>) {
    && WellFormed(fs) && Represents(areas, roots) && Classified(areas) && Resolved(fs, roots)
    && ClassesApart(fs, roots) && OneFilesystem(fs, roots) && FirstNamesFit(fs, areas)
  }

  /** Every inode below an earlier area is seen. */
  ghost predicate EarlierSeen(fs: Fs, areas: seq<Area>, i: nat, t: Tally) {
    forall j, q :: 0 <= j < i <= |areas| && areas[j].path <= q && q in fs.nodes ==> fs.nodes[q].id in t.seen
  }

  lemma CoveredIsSeen(fs: Fs, areas: seq<Area>, i: nat, t: Tally)
    requires Nested(fs) && i <= |areas| && Covered(fs, areas, i, t)
    ensures EarlierSeen(fs, areas, i, t)
  {
    hide Covered, Nested;
    forall j, q | 0 <= j < i && areas[j].path <= q && q in fs.nodes
      ensures fs.nodes[q].id in t.seen
    {
      AllBelowIsVisited(fs, areas, i, t, j, q);
    }
  }

  lemma NewIsFirst(fs: Fs, areas: seq<Area>, i: nat, t: Tally, p: Path)
    requires EarlierSeen(fs, areas, i, t) && i <= |areas| && p in fs.nodes && fs.nodes[p].id !in t.seen
    ensures FirstArea(fs, areas, i, p)
  {
  }

  lemma InOneFilesystem(fs: Fs, roots: seq<Root>, areas: seq<Area>, i: nat, p: Path)
    requires Represents(areas, roots) && OneFilesystem(fs, roots) && i < |areas| && areas[i].path <= p && p in fs.nodes
    ensures fs.nodes[p].id.device == DeviceOf(fs, areas[i].path) && fs.nodes[p].kind != Special
  {
    assert IsRoot(roots, areas[i]);
    var root := TheRoot(roots, areas[i]);
    assert RootCovers(root, root.category, p);
  }

  /** One turn of the worklist: what was seen has the same class, and a new link fits. */
  lemma VisitGoesOn(fs: Fs, roots: seq<Root>, areas: seq<Area>, i: nat, pending: seq<Path>, t: Tally)
    requires Orderless(fs, roots, areas) && i < |areas| && areas[i].category in t.amounts && pending != []
    requires Witnessed(fs, roots, t) && EarlierSeen(fs, areas, i, t)
    requires forall q :: q in pending ==> q in fs.nodes && areas[i].path <= q
    ensures
      var step := Visit(fs, areas, areas[i].category, DeviceOf(fs, areas[i].path), pending, t);
      && step.Some? && Witnessed(fs, roots, step.value.tally) && EarlierSeen(fs, areas, i, step.value.tally)
      && (forall q :: q in step.value.pending ==> q in fs.nodes && areas[i].path <= q)
  {
    hide WellFormed, Represents, ClassesApart, OneFilesystem, Resolved, Witnessed, EarlierSeen, LinkFits;
    hide FirstArea, Below;
    var c, device, p := areas[i].category, DeviceOf(fs, areas[i].path), pending[|pending| - 1];
    assert p in pending;
    NestedToo(fs);
    hide Nested, Linked;
    InOneFilesystem(fs, roots, areas, i, p);
    BelowItsArea(fs, roots, areas, i, p);
    if fs.nodes[p].id in t.seen {
      SeenAlike(fs, roots, t, c, fs.nodes[p].id);
    } else {
      NewIsFirst(fs, areas, i, t, p);
      assert fs.nodes[p].kind == Link ==> LinkFits(fs, areas, p, c);
    }
    VisitIsThere(fs, areas, c, device, pending, t);
    var next := Visit(fs, areas, c, device, pending, t).value;
    hide FirstNamesFit, Visit, Listed;
    StillWitnessed(fs, roots, t, next.tally, c, fs.nodes[p].id);
    StillSeen(fs, areas, i, t, next.tally, c, fs.nodes[p].id);
    StillBelow(fs, areas, i, pending, next.pending, p);
  }

  lemma StillSeen(fs: Fs, areas: seq<Area>, i: nat, t: Tally, t': Tally, c: Class, id: Identity)
    requires EarlierSeen(fs, areas, i, t) && t'.seen == t.seen[id := c]
    ensures EarlierSeen(fs, areas, i, t')
  {
  }

  lemma VisitIsThere(fs: Fs, areas: seq<Area>, c: Class, device: nat, pending: seq<Path>, t: Tally)
    requires Listed(fs) && pending != [] && c in t.amounts
    requires
      var p := pending[|pending| - 1];
      && p in fs.nodes && fs.nodes[p].id.device == device && fs.nodes[p].kind != Special
      && (if fs.nodes[p].id in t.seen then t.seen[fs.nodes[p].id] == c
          else fs.nodes[p].kind == Link ==> LinkFits(fs, areas, p, c))
    ensures
      var step, p := Visit(fs, areas, c, device, pending, t), pending[|pending| - 1];
      && step.Some? && step.value.tally.seen == t.seen[fs.nodes[p].id := c]
      && (forall q :: q in step.value.pending ==> q in pending || (p in fs.listing && q in fs.listing[p]))
  {
    var p := pending[|pending| - 1];
    assert fs.nodes[p].kind == Directory ==> p in fs.listing;
    hide Listed, LinkFits;
    assert forall q :: q in pending[..|pending| - 1] ==> q in pending;
    if fs.nodes[p].id in t.seen {
      assert t.seen == t.seen[fs.nodes[p].id := c];
    }
  }

  lemma {:induction false} WalkGoesOn(fs: Fs, roots: seq<Root>, areas: seq<Area>, i: nat, pending: seq<Path>, t: Tally)
    requires Orderless(fs, roots, areas) && i < |areas| && areas[i].category in t.amounts
    requires Witnessed(fs, roots, t) && EarlierSeen(fs, areas, i, t)
    requires forall q :: q in pending ==> q in fs.nodes && areas[i].path <= q
    ensures
      var r := Walk(fs, areas, areas[i].category, DeviceOf(fs, areas[i].path), pending, t);
      r.Some? && Witnessed(fs, roots, r.value)
    decreases |Identities(fs) - t.seen.Keys|, |pending|
  {
    if pending != [] {
      hide Orderless, Witnessed, EarlierSeen, Identities;
      var c, device := areas[i].category, DeviceOf(fs, areas[i].path);
      WalkVisits(fs, areas, c, device, pending, t);
      VisitGoesOn(fs, roots, areas, i, pending, t);
      var next := Visit(fs, areas, c, device, pending, t).value;
      hide Visit;
      WalkGoesOn(fs, roots, areas, i, next.pending, next.tally);
    }
  }

  lemma OrderlessFacts(fs: Fs, roots: seq<Root>, areas: seq<Area>)
    requires Orderless(fs, roots, areas)
    ensures WellFormed(fs) && Nested(fs) && Classified(areas)
    ensures forall i :: 0 <= i < |areas| ==> areas[i].category in CLASSES && areas[i].path in fs.nodes
  {
    hide ClassesApart, OneFilesystem, FirstNamesFit, Represents, Resolved;
    NestedToo(fs);
    AreasExist(fs, roots, areas);
  }

  lemma {:induction false} AllWalksGoOn(fs: Fs, roots: seq<Root>, areas: seq<Area>, n: nat)
    requires Orderless(fs, roots, areas) && n <= |areas| && Classified(areas)
    ensures WalkAll(fs, areas, n).Some? && Witnessed(fs, roots, WalkAll(fs, areas, n).value)
  {
    hide *;
    ClassifiedAreas(areas);
    if n == 0 {
      NoWalkYet(fs, roots, areas);
    } else {
      AllWalksGoOn(fs, roots, areas, n - 1);
      OrderlessFacts(fs, roots, areas);
      var t, area := WalkAll(fs, areas, n - 1).value, areas[n - 1];
      WalkAllSound(fs, areas, n - 1);
      CoveredIsSeen(fs, areas, n - 1, t);
      WalkGoesOn(fs, roots, areas, n - 1, [area.path], t);
      NextWalk(fs, areas, n);
    }
  }

  lemma NoWalkYet(fs: Fs, roots: seq<Root>, areas: seq<Area>)
    requires forall i :: 0 <= i < |areas| ==> areas[i].category in CLASSES
    ensures WalkAll(fs, areas, 0).Some? && Witnessed(fs, roots, WalkAll(fs, areas, 0).value)
  {
  }

  lemma NextWalk(fs: Fs, areas: seq<Area>, n: nat)
    requires 0 < n <= |areas| && forall i :: 0 <= i < |areas| ==> areas[i].category in CLASSES
    requires WalkAll(fs, areas, n - 1).Some? && areas[n - 1].path in fs.nodes
    ensures
      var t, area := WalkAll(fs, areas, n - 1).value, areas[n - 1];
      WalkAll(fs, areas, n) == Walk(fs, areas, area.category, DeviceOf(fs, area.path), [area.path], t)
  {
    hide Walk;
  }

  // ----- The exact condition -----

  /** The roots can be used, and under every name a link is first met by it fits. */
  ghost predicate FitInEveryOrder(fs: Fs, roots: seq<Root>) {
    && Areas(ByLength(roots)).Some? && ClassesApart(fs, roots) && OneFilesystem(fs, roots)
    && FirstNamesFit(fs, Areas(ByLength(roots)).value)
  }

  lemma RelistedIsOrderless(fs: Fs, roots: seq<Root>, fs': Fs)
    requires WellFormed(fs) && Resolved(fs, roots) && FitInEveryOrder(fs, roots) && Relisted(fs, fs')
    ensures Orderless(fs', roots, Areas(ByLength(roots)).value)
  {
    var areas := Areas(ByLength(roots)).value;
    RelistedIsWellFormed(fs, fs');
    AreasRepresent(ByLength(roots));
    SortingKeepsRoots(areas, roots);
    AreasAreClassified(ByLength(roots));
    hide WellFormed, Represents, ByLength, Areas;
    forall c, p
      ensures UnderRoot(fs, roots, c, p) <==> UnderRoot(fs', roots, c, p)
    {
    }
    assert ClassesApart(fs', roots) by {
      hide UnderRoot, OneFilesystem, FirstNamesFit, Resolved;
      forall c, d, p, q | UnderRoot(fs', roots, c, p) && UnderRoot(fs', roots, d, q) && SameInode(fs', p, q)
        ensures c == d
      {
        assert SameInode(fs, p, q);
      }
    }
    FirstNamesStillFit(fs, fs', areas);
  }

  lemma FirstNamesStillFit(fs: Fs, fs': Fs, areas: seq<Area>)
    requires FirstNamesFit(fs, areas) && Relisted(fs, fs')
    ensures FirstNamesFit(fs', areas)
  {
    hide FirstArea, LinkFits;
    forall i, p | 0 <= i < |areas| && areas[i].path <= p && FirstArea(fs', areas, i, p) && p in fs'.nodes
               && fs'.nodes[p].kind == Link
      ensures LinkFits(fs', areas, p, areas[i].category)
    {
      SameFirstArea(fs, fs', areas, i, p);
      FitsAlike(fs, fs', areas, p, areas[i].category);
    }
  }

  lemma FitIsMeasured(fs: Fs, roots: seq<Root>, fs': Fs)
    requires WellFormed(fs) && Resolved(fs, roots) && FitInEveryOrder(fs, roots) && Relisted(fs, fs')
    ensures Allocated(fs', roots).Some?
  {
    RelistedIsOrderless(fs, roots, fs');
    hide *;
    AllocatedIsWalked(fs', roots);
    AreasAreThere(fs, roots);
    var areas := Areas(ByLength(roots)).value;
    AllWalksGoOn(fs', roots, areas, |areas|);
  }

  lemma AreasAreThere(fs: Fs, roots: seq<Root>)
    requires FitInEveryOrder(fs, roots)
    ensures Areas(ByLength(roots)).Some?
  {
  }

  /** Storage is measured in every order of its directory entries exactly when no first name can fail. */
  lemma EveryOrderIsMeasured(fs: Fs, roots: seq<Root>)
    requires WellFormed(fs) && Resolved(fs, roots)
    ensures (forall fs' :: Relisted(fs, fs') ==> Allocated(fs', roots).Some?) <==> FitInEveryOrder(fs, roots)
  {
    hide *;
    if FitInEveryOrder(fs, roots) {
      forall fs' | Relisted(fs, fs')
        ensures Allocated(fs', roots).Some?
      {
        FitIsMeasured(fs, roots, fs');
      }
    } else if forall fs' :: Relisted(fs, fs') ==> Allocated(fs', roots).Some? {
      SameListing(fs);
      MeasuredIsUnambiguous(fs, roots);
      AllocatedIsWalked(fs, roots);
      var i, p := Misfit(fs, roots);
      MetFirstItFails(fs, roots, Areas(ByLength(roots)).value, i, p);
      assert Relisted(fs, FirstMet(fs, p));
    }
  }

  lemma SameListing(fs: Fs)
    ensures Relisted(fs, fs)
  {
  }

  lemma Misfit(fs: Fs, roots: seq<Root>) returns (i: nat, p: Path)
    requires Areas(ByLength(roots)).Some? && ClassesApart(fs, roots) && OneFilesystem(fs, roots)
    requires !FitInEveryOrder(fs, roots)
    ensures
      var areas := Areas(ByLength(roots)).value;
      && i < |areas| && areas[i].path <= p && FirstArea(fs, areas, i, p)
      && p in fs.nodes && fs.nodes[p].kind == Link && !LinkFits(fs, areas, p, areas[i].category)
  {
    hide Areas, ByLength, ClassesApart, OneFilesystem, FirstArea, LinkFits;
    var areas := Areas(ByLength(roots)).value;
    i, p :| 0 <= i < |areas| && p in fs.nodes && areas[i].path <= p && FirstArea(fs, areas, i, p)
         && fs.nodes[p].kind == Link && !LinkFits(fs, areas, p, areas[i].category);
  }
}
