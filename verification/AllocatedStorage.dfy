/**
 Allocated-block accounting: every inode below the classified roots is counted once,
 whatever hard links, symbolic links and overlapping roots lead to it.
 */
module AllocatedStorage {
  import opened Faults

  type Path = seq<string>

  type Class = string

  const CLASSES: set<Class> := {
    "relational", "events", "object_storage", "queue_cache", "broker",
    "coordination", "runtime_auxiliary", "graf_analytics_tables", "backup_artifacts"
  }

  datatype Identity = Identity(device: nat, inode: nat)

  datatype Kind = File | Directory | Link | Special

  datatype Node = Node(id: Identity, kind: Kind, blocks: nat)

  /** A file system: its entries, the order of each listing, and where links lead. */
  datatype Fs = Fs(nodes: map<Path, Node>, listing: map<Path, seq<Path>>, target: map<Path, Path>)

  datatype Root = Root(category: Class, path: Path, isLink: bool, resolved: Option<Path>)

  predicate IsChild(p: Path, q: Path) {
    |q| == |p| + 1 && q[..|p|] == p
  }

  ghost predicate SameInode(fs: Fs, p: Path, q: Path) {
    p in fs.nodes && q in fs.nodes && fs.nodes[p].id == fs.nodes[q].id
  }

  ghost predicate HasEntry(fs: Fs, p: Path, id: Identity) {
    exists c :: c in fs.nodes && IsChild(p, c) && fs.nodes[c].id == id
  }

  ghost predicate Nested(fs: Fs) {
    && (forall p, q :: q in fs.nodes && p <= q ==> p in fs.nodes)
    && (forall p, c :: p in fs.nodes && c in fs.nodes && IsChild(p, c) ==> fs.nodes[p].kind == Directory)
  }

  ghost predicate Listed(fs: Fs) {
    && (forall p :: p in fs.nodes && fs.nodes[p].kind == Directory ==> p in fs.listing)
    && (forall p, c :: p in fs.listing ==> (c in fs.listing[p] <==> c in fs.nodes && IsChild(p, c)))
  }

  /** Two paths to one inode see the same inode, and entries with the same inodes in it. */
  ghost predicate Linked(fs: Fs) {
    && (forall p, q :: SameInode(fs, p, q) ==> fs.nodes[p] == fs.nodes[q])
    && (forall p, q, c :: SameInode(fs, p, q) && c in fs.nodes && IsChild(p, c) ==> HasEntry(fs, q, fs.nodes[c].id))
  }

  ghost predicate WellFormed(fs: Fs) {
    Nested(fs) && Listed(fs) && Linked(fs)
  }

  // ----- The program as functions -----

  datatype Area = Area(category: Class, path: Path)

  /** What was counted: the class of every inode seen, and the bytes per class. */
  datatype Tally = Tally(seen: map<Identity, Class>, amounts: map<Class, nat>)

  function Owners(areas: seq<Area>, t: Path): set<Class> {
    set i | 0 <= i < |areas| && areas[i].path <= t :: areas[i].category
  }

  predicate LinkFits(fs: Fs, areas: seq<Area>, p: Path, category: Class) {
    p in fs.target && Owners(areas, fs.target[p]) == {category}
  }

  function Count(t: Tally, n: Node, category: Class): Tally
    requires category in t.amounts
  {
    Tally(t.seen[n.id := category], t.amounts[category := t.amounts[category] + n.blocks * 512])
  }

  function Identities(fs: Fs): set<Identity> {
    set p | p in fs.nodes :: fs.nodes[p].id
  }

  datatype Progress = Progress(pending: seq<Path>, tally: Tally)

  /** One turn of the worklist; None is an incomplete measurement. */
  function Visit(fs: Fs, areas: seq<Area>, category: Class, device: nat, pending: seq<Path>,
                 t: Tally): (r: Option<Progress>)
    requires pending != [] && category in t.amounts
    ensures r.Some? ==> r.value.tally.amounts.Keys == t.amounts.Keys
  {
    var p, rest := pending[|pending| - 1], pending[..|pending| - 1];
    if p !in fs.nodes || fs.nodes[p].id.device != device || fs.nodes[p].kind == Special then None
    else
      var n := fs.nodes[p];
      if n.id in t.seen then
        if t.seen[n.id] == category then Some(Progress(rest, t)) else None
      else if n.kind == Link then
        if LinkFits(fs, areas, p, category) then Some(Progress(rest, Count(t, n, category))) else None
      else if n.kind == Directory then
        if p in fs.listing then Some(Progress(rest + fs.listing[p], Count(t, n, category))) else None
      else Some(Progress(rest, Count(t, n, category)))
  }

  /** The worklist walk below one root. */
  function Walk(fs: Fs, areas: seq<Area>, category: Class, device: nat, pending: seq<Path>,
                t: Tally): (r: Option<Tally>)
    requires category in t.amounts
    ensures r.Some? ==> r.value.amounts.Keys == t.amounts.Keys
    decreases |Identities(fs) - t.seen.Keys|, |pending|
  {
    if pending == [] then Some(t)
    else
      match Visit(fs, areas, category, device, pending, t)
      case None => None
      case Some(next) =>
        VisitShrinks(fs, areas, category, device, pending, t);
        Walk(fs, areas, category, device, next.pending, next.tally)
  }

  lemma VisitShrinks(fs: Fs, areas: seq<Area>, category: Class, device: nat, pending: seq<Path>, t: Tally)
    requires pending != [] && category in t.amounts
    requires Visit(fs, areas, category, device, pending, t).Some?
    ensures
      var next := Visit(fs, areas, category, device, pending, t).value;
      || (next.tally == t && |next.pending| < |pending|)
      || |Identities(fs) - next.tally.seen.Keys| < |Identities(fs) - t.seen.Keys|
  {
    hide LinkFits, Identities;
    if fs.nodes[pending[|pending| - 1]].id !in t.seen {
      OneMoreSeen(fs, t, pending[|pending| - 1], category);
    }
  }

  lemma OneMoreSeen(fs: Fs, t: Tally, p: Path, category: Class)
    requires p in fs.nodes && fs.nodes[p].id !in t.seen && category in t.amounts
    ensures |Identities(fs) - Count(t, fs.nodes[p], category).seen.Keys| < |Identities(fs) - t.seen.Keys|
  {
    var id := fs.nodes[p].id;
    assert id in Identities(fs);
    assert Identities(fs) - t.seen.Keys == (Identities(fs) - t.seen[id := category].Keys) + {id};
  }

  /** One root joins the areas, unless an area of its own class covers it already. */
  function AddRoot(areas: seq<Area>, root: Root): Option<seq<Area>> {
    if root.category !in CLASSES || root.isLink || root.resolved.None? then None
    else if exists i :: 0 <= i < |areas| && areas[i].path <= root.resolved.value && areas[i].category != root.category
      then None
    else if exists i :: 0 <= i < |areas| && areas[i].path <= root.resolved.value then Some(areas)
    else Some(areas + [Area(root.category, root.resolved.value)])
  }

  function Areas(roots: seq<Root>): Option<seq<Area>> {
    if roots == [] then Some([])
    else
      match Areas(roots[..|roots| - 1])
      case None => None
      case Some(areas) => AddRoot(areas, roots[|roots| - 1])
  }

  function Nothing(): Tally {
    Tally(map[], map c | c in CLASSES :: 0)
  }

  function WalkAll(fs: Fs, areas: seq<Area>, n: nat): (r: Option<Tally>)
    requires n <= |areas| && forall i :: 0 <= i < |areas| ==> areas[i].category in CLASSES
    ensures r.Some? ==> r.value.amounts.Keys == CLASSES
  {
    if n == 0 then Some(Nothing())
    else
      match WalkAll(fs, areas, n - 1)
      case None => None
      case Some(t) =>
        var area := areas[n - 1];
        if area.path !in fs.nodes then None
        else Walk(fs, areas, area.category, fs.nodes[area.path].id.device, [area.path], t)
  }

  /** Stable sort by the number of path components. */
  function Insert(root: Root, sorted: seq<Root>): (r: seq<Root>)
    ensures forall x :: x in r <==> x == root || x in sorted
  {
    if sorted == [] || |root.path| < |sorted[0].path| then [root] + sorted
    else [sorted[0]] + Insert(root, sorted[1..])
  }

  function ByLength(roots: seq<Root>): (r: seq<Root>)
    ensures forall x :: x in r <==> x in roots
  {
    if roots == [] then [] else Insert(roots[|roots| - 1], ByLength(roots[..|roots| - 1]))
  }

  function Allocated(fs: Fs, roots: seq<Root>): Option<Tally> {
    match Areas(ByLength(roots))
    case None => None
    case Some(areas) =>
      AreasAreClassified(ByLength(roots));
      WalkAll(fs, areas, |areas|)
  }

  lemma {:induction false} AreasAreClassified(roots: seq<Root>)
    requires Areas(roots).Some?
    ensures forall i :: 0 <= i < |Areas(roots).value| ==> Areas(roots).value[i].category in CLASSES
  {
    if roots != [] {
      AreasAreClassified(roots[..|roots| - 1]);
    }
  }

  // ----- The program as loops -----

  /** The worklist loop below one root. */
  method WalkRoot(fs: Fs, areas: seq<Area>, category: Class, device: nat, root: Path, t: Tally)
    returns (r: Option<Tally>)
    requires category in t.amounts
    ensures r == Walk(fs, areas, category, device, [root], t)
  {
    var pending := [root];
    var tally := t;
    while pending != []
      invariant category in tally.amounts
      invariant Walk(fs, areas, category, device, pending, tally) == Walk(fs, areas, category, device, [root], t)
      decreases |Identities(fs) - tally.seen.Keys|, |pending|
    {
      hide Identities, Walk, Visit;
      WalkVisits(fs, areas, category, device, pending, tally);
      var next := VisitNext(fs, areas, category, device, pending, tally);
      if next.None? {
        return None;
      }
      pending, tally := next.value.pending, next.value.tally;
    }
    return Some(tally);
  }

  /** The body of that loop. */
  method VisitNext(fs: Fs, areas: seq<Area>, category: Class, device: nat, had: seq<Path>, t: Tally)
    returns (r: Option<Progress>)
    requires had != [] && category in t.amounts
    ensures r == Visit(fs, areas, category, device, had, t)
  {
    hide LinkFits;
    var pending := had;
    var seen, amounts: map<Class, nat> := t.seen, t.amounts;
    var p := pending[|pending| - 1];
    pending := pending[..|pending| - 1];
    if p !in fs.nodes {
      return None;
    }
    var info := fs.nodes[p];
    if info.id.device != device || info.kind == Special {
      return None;
    }
    if info.id in seen {
      if seen[info.id] != category {
        return None;
      }
    } else {
      seen := seen[info.id := category];
      amounts := amounts[category := amounts[category] + info.blocks * 512];
      if info.kind == Link {
        if !LinkFits(fs, areas, p, category) {
          return None;
        }
      } else if info.kind == Directory {
        if p !in fs.listing {
          return None;
        }
        pending := pending + fs.listing[p];
      }
    }
    return Some(Progress(pending, Tally(seen, amounts)));
  }

  lemma WalkVisits(fs: Fs, areas: seq<Area>, category: Class, device: nat, pending: seq<Path>, t: Tally)
    requires pending != [] && category in t.amounts
    ensures
      var step, walk := Visit(fs, areas, category, device, pending, t), Walk(fs, areas, category, device, pending, t);
      && (step.None? ==> walk == None)
      && (step.Some? ==> walk == Walk(fs, areas, category, device, step.value.pending, step.value.tally))
      && (step.Some? ==>
            || (step.value.tally == t && |step.value.pending| < |pending|)
            || |Identities(fs) - step.value.tally.seen.Keys| < |Identities(fs) - t.seen.Keys|)
  {
    hide Visit, Identities;
    if Visit(fs, areas, category, device, pending, t).Some? {
      VisitShrinks(fs, areas, category, device, pending, t);
    }
  }

  /** `allocated`: normalized roots, then one walk per remaining area. */
  method Allocate(fs: Fs, roots: seq<Root>) returns (r: Option<Tally>)
    ensures r == Allocated(fs, roots)
  {
    hide Walk, ByLength, AddRoot, Areas;
    var areas := Normalize(ByLength(roots));
    if areas.None? {
      return None;
    }
    var normalized := areas.value;
    AreasAreClassified(ByLength(roots));
    var tally := Nothing();
    var i := 0;
    while i < |normalized|
      invariant i <= |normalized|
      invariant WalkAll(fs, normalized, i) == Some(tally)
    {
      var area := normalized[i];
      var walked := None;
      if area.path in fs.nodes {
        walked := WalkRoot(fs, normalized, area.category, fs.nodes[area.path].id.device, area.path, tally);
      }
      assert WalkAll(fs, normalized, i + 1) == walked;
      if walked.None? {
        NoWalkBack(fs, normalized, i + 1);
        return None;
      }
      tally := walked.value;
      i := i + 1;
    }
    return Some(tally);
  }

  /** The first loop of `allocated`, over the roots sorted by length. */
  method Normalize(sorted: seq<Root>) returns (r: Option<seq<Area>>)
    ensures r == Areas(sorted)
  {
    hide AddRoot;
    var normalized: seq<Area> := [];
    for i := 0 to |sorted|
      invariant Areas(sorted[..i]) == Some(normalized)
    {
      assert sorted[..i + 1][..i] == sorted[..i];
      var joined := AddRoot(normalized, sorted[i]);
      if joined.None? {
        NoWayBack(sorted, i + 1);
        return None;
      }
      normalized := joined.value;
    }
    assert sorted[..|sorted|] == sorted;
    return Some(normalized);
  }

  lemma {:induction false} NoWayBack(roots: seq<Root>, n: nat)
    requires n <= |roots| && Areas(roots[..n]).None?
    ensures Areas(roots).None?
    decreases |roots| - n
  {
    if n < |roots| {
      assert roots[..n + 1][..n] == roots[..n];
      NoWayBack(roots, n + 1);
    } else {
      assert roots[..n] == roots;
    }
  }

  lemma {:induction false} NoWalkBack(fs: Fs, areas: seq<Area>, n: nat)
    requires n <= |areas| && forall i :: 0 <= i < |areas| ==> areas[i].category in CLASSES
    requires WalkAll(fs, areas, n).None?
    ensures WalkAll(fs, areas, |areas|).None?
    decreases |areas| - n
  {
    if n < |areas| {
      NoWalkBack(fs, areas, n + 1);
    }
  }

  // ----- What one walk counts -----

  ghost function BlocksOf(fs: Fs, id: Identity): nat {
    if exists p :: p in fs.nodes && fs.nodes[p].id == id then
      var p :| p in fs.nodes && fs.nodes[p].id == id; fs.nodes[p].blocks
    else 0
  }

  ghost function Blocks(fs: Fs, ids: set<Identity>): nat
    decreases |ids|
  {
    if ids == {} then 0 else var id :| id in ids; BlocksOf(fs, id) + Blocks(fs, ids - {id})
  }

  lemma {:induction false} BlocksWithout(fs: Fs, ids: set<Identity>, x: Identity)
    requires x in ids
    ensures Blocks(fs, ids) == BlocksOf(fs, x) + Blocks(fs, ids - {x})
    decreases |ids|
  {
    var id :| id in ids && Blocks(fs, ids) == BlocksOf(fs, id) + Blocks(fs, ids - {id});
    if id != x {
      BlocksWithout(fs, ids - {id}, x);
      BlocksWithout(fs, ids - {x}, id);
      assert ids - {id} - {x} == ids - {x} - {id};
    }
  }

  ghost function OfClass(t: Tally, c: Class): set<Identity> {
    set id | id in t.seen && t.seen[id] == c
  }

  /** Every inode seen is counted once, in its class. */
  ghost predicate Accounted(fs: Fs, t: Tally) {
    forall c :: c in t.amounts ==> t.amounts[c] == 512 * Blocks(fs, OfClass(t, c))
  }

  lemma CountKeepsAccounts(fs: Fs, t: Tally, p: Path, category: Class)
    requires WellFormed(fs) && p in fs.nodes && category in t.amounts
    requires Accounted(fs, t) && fs.nodes[p].id !in t.seen
    ensures Accounted(fs, Count(t, fs.nodes[p], category))
  {
    var n, t' := fs.nodes[p], Count(t, fs.nodes[p], category);
    BlocksOfNode(fs, p);
    hide *;
    forall c | c in t'.amounts
      ensures t'.amounts[c] == 512 * Blocks(fs, OfClass(t', c))
    {
      if c == category {
        assert n.id in OfClass(t', c);
        BlocksWithout(fs, OfClass(t', c), n.id);
        assert OfClass(t', c) - {n.id} == OfClass(t, c);
      } else {
        assert OfClass(t', c) == OfClass(t, c);
      }
    }
  }

  lemma BlocksOfNode(fs: Fs, p: Path)
    requires Linked(fs) && p in fs.nodes
    ensures BlocksOf(fs, fs.nodes[p].id) == fs.nodes[p].blocks
  {
    var q :| q in fs.nodes && fs.nodes[q].id == fs.nodes[p].id && BlocksOf(fs, fs.nodes[p].id) == fs.nodes[q].blocks;
    assert SameInode(fs, p, q);
  }

  ghost predicate Queued(fs: Fs, pending: seq<Path>, id: Identity) {
    exists q :: q in pending && q in fs.nodes && fs.nodes[q].id == id
  }

  /** The entry `c` of a directory `p` already seen is seen alike, or still to be visited. */
  ghost predicate Followed(fs: Fs, t: Tally, category: Class, device: nat, pending: seq<Path>, p: Path, c: Path)
    requires p in fs.nodes && c in fs.nodes && fs.nodes[p].id in t.seen
  {
    var pid, cid := fs.nodes[p].id, fs.nodes[c].id;
    || (cid in t.seen && t.seen[cid] == t.seen[pid] && cid.device == pid.device)
    || (t.seen[pid] == category && pid.device == device && Queued(fs, pending, cid))
  }

  ghost predicate Closed(fs: Fs, t: Tally, category: Class, device: nat, pending: seq<Path>) {
    forall p, c :: p in fs.nodes && fs.nodes[p].id in t.seen && c in fs.nodes && IsChild(p, c) ==>
      Followed(fs, t, category, device, pending, p, c)
  }

  /** What the walk has checked of a path it counts. */
  ghost predicate Examined(fs: Fs, areas: seq<Area>, category: Class, device: nat, p: Path) {
    && p in fs.nodes && fs.nodes[p].id.device == device && fs.nodes[p].kind != Special
    && (fs.nodes[p].kind == Link ==> LinkFits(fs, areas, p, category))
  }

  /** An inode seen below one of the given paths, on a path that was examined. */
  ghost predicate SeenBelow(fs: Fs, areas: seq<Area>, category: Class, device: nat, starts: seq<Path>, id: Identity) {
    exists q, p :: q in starts && q <= p && Examined(fs, areas, category, device, p) && fs.nodes[p].id == id
  }

  ghost predicate Visited(fs: Fs, category: Class, device: nat, t: Tally, q: Path) {
    q in fs.nodes && fs.nodes[q].id in t.seen && t.seen[fs.nodes[q].id] == category && fs.nodes[q].id.device == device
  }

  ghost predicate Extends(r: Tally, t: Tally) {
    forall id :: id in t.seen ==> id in r.seen && r.seen[id] == t.seen[id]
  }

  ghost predicate AddedBelow(fs: Fs, areas: seq<Area>, category: Class, device: nat, pending: seq<Path>, t: Tally,
                             r: Tally) {
    forall id :: id in r.seen && id !in t.seen ==>
      r.seen[id] == category && SeenBelow(fs, areas, category, device, pending, id)
  }

  ghost predicate AllVisited(fs: Fs, category: Class, device: nat, pending: seq<Path>, r: Tally) {
    forall q :: q in pending ==> Visited(fs, category, device, r, q)
  }

  /** What a successful walk adds to the tally. */
  ghost predicate Walked(fs: Fs, areas: seq<Area>, category: Class, device: nat, pending: seq<Path>, t: Tally,
                         r: Tally) {
    && Extends(r, t)
    && AddedBelow(fs, areas, category, device, pending, t, r)
    && AllVisited(fs, category, device, pending, r)
    && Accounted(fs, r)
    && Closed(fs, r, category, device, [])
  }

  lemma {:induction false} WalkSound(fs: Fs, areas: seq<Area>, category: Class, device: nat, pending: seq<Path>,
                                     t: Tally)
    requires WellFormed(fs) && category in t.amounts
    requires Accounted(fs, t) && Closed(fs, t, category, device, pending)
    requires Walk(fs, areas, category, device, pending, t).Some?
    ensures Walked(fs, areas, category, device, pending, t, Walk(fs, areas, category, device, pending, t).value)
    decreases |Identities(fs) - t.seen.Keys|, |pending|
  {
    if pending != [] {
      hide WellFormed, Accounted, Closed, Identities, Visited, SeenBelow;
      WalkVisits(fs, areas, category, device, pending, t);
      VisitSound(fs, areas, category, device, pending, t);
      var next := Visit(fs, areas, category, device, pending, t).value;
      hide Visit;
      WalkSound(fs, areas, category, device, next.pending, next.tally);
      var r := Walk(fs, areas, category, device, pending, t).value;
      VisitThenWalk(fs, areas, category, device, pending, t, r);
    }
  }

  lemma VisitSound(fs: Fs, areas: seq<Area>, category: Class, device: nat, pending: seq<Path>, t: Tally)
    requires WellFormed(fs) && pending != [] && category in t.amounts
    requires Accounted(fs, t) && Closed(fs, t, category, device, pending)
    requires Visit(fs, areas, category, device, pending, t).Some?
    ensures
      var next := Visit(fs, areas, category, device, pending, t).value;
      Accounted(fs, next.tally) && Closed(fs, next.tally, category, device, next.pending)
  {
    hide WellFormed, Accounted, Closed, LinkFits;
    var p, next := pending[|pending| - 1], Visit(fs, areas, category, device, pending, t).value;
    if fs.nodes[p].id in t.seen {
      StaysClosed(fs, t, category, device, pending, next.pending);
    } else {
      CountKeepsAccounts(fs, t, p, category);
      CountKeepsClosed(fs, t, category, device, pending, next.pending);
    }
  }

  lemma StaysClosed(fs: Fs, t: Tally, category: Class, device: nat, pending: seq<Path>, rest: seq<Path>)
    requires pending != [] && rest == pending[..|pending| - 1]
    requires Closed(fs, t, category, device, pending)
    requires Visited(fs, category, device, t, pending[|pending| - 1])
    ensures Closed(fs, t, category, device, rest)
  {
    forall p, c | p in fs.nodes && fs.nodes[p].id in t.seen && c in fs.nodes && IsChild(p, c)
      ensures Followed(fs, t, category, device, rest, p, c)
    {
      assert Followed(fs, t, category, device, pending, p, c);
      assert forall q :: q in pending ==> q in rest || q == pending[|pending| - 1];
    }
  }

  lemma CountKeepsClosed(fs: Fs, t: Tally, category: Class, device: nat, pending: seq<Path>, next: seq<Path>)
    requires WellFormed(fs) && pending != [] && category in t.amounts
    requires pending[|pending| - 1] in fs.nodes
    requires Closed(fs, t, category, device, pending)
    requires fs.nodes[pending[|pending| - 1]].id !in t.seen
    requires fs.nodes[pending[|pending| - 1]].id.device == device
    requires
      var p, rest := pending[|pending| - 1], pending[..|pending| - 1];
      next == if fs.nodes[p].kind == Directory then rest + fs.listing[p] else rest
    ensures Closed(fs, Count(t, fs.nodes[pending[|pending| - 1]], category), category, device, next)
  {
    var p, rest := pending[|pending| - 1], pending[..|pending| - 1];
    var t' := Count(t, fs.nodes[p], category);
    hide WellFormed, Queued;
    forall q, c | q in fs.nodes && fs.nodes[q].id in t'.seen && c in fs.nodes && IsChild(q, c)
      ensures Followed(fs, t', category, device, next, q, c)
    {
      if fs.nodes[q].id in t.seen {
        assert Followed(fs, t, category, device, pending, q, c);
        assert forall x :: x in pending ==> x in rest || x == p;
        assert forall x :: x in rest ==> x in next;
      } else {
        EntriesAreListed(fs, p, q, c);
        assert Queued(fs, next, fs.nodes[c].id);
      }
    }
  }

  /** Every entry of a directory is listed under each path to that directory. */
  lemma EntriesAreListed(fs: Fs, p: Path, q: Path, c: Path)
    requires WellFormed(fs) && SameInode(fs, q, p) && c in fs.nodes && IsChild(q, c)
    ensures fs.nodes[p].kind == Directory && p in fs.listing && Queued(fs, fs.listing[p], fs.nodes[c].id)
  {
    assert HasEntry(fs, p, fs.nodes[c].id);
    var d :| d in fs.nodes && IsChild(p, d) && fs.nodes[d].id == fs.nodes[c].id;
    assert d in fs.listing[p];
  }

  lemma VisitThenWalk(fs: Fs, areas: seq<Area>, category: Class, device: nat, pending: seq<Path>, t: Tally, r: Tally)
    requires WellFormed(fs) && pending != [] && category in t.amounts
    requires Visit(fs, areas, category, device, pending, t).Some?
    requires
      var next := Visit(fs, areas, category, device, pending, t).value;
      Walked(fs, areas, category, device, next.pending, next.tally, r)
    ensures Walked(fs, areas, category, device, pending, t, r)
  {
    var p, rest := pending[|pending| - 1], pending[..|pending| - 1];
    var next := Visit(fs, areas, category, device, pending, t).value;
    VisitFacts(fs, areas, category, device, pending, t);
    hide Visit, WellFormed, Accounted, Closed, Examined, LinkFits;
    assert AllVisited(fs, category, device, pending, r) by {
      assert forall q :: q in pending ==> q in rest || q == p;
    }
    assert AddedBelow(fs, areas, category, device, pending, t, r) by {
      hide AllVisited, Visited, SeenBelow;
      forall id | id in r.seen && id !in t.seen
        ensures r.seen[id] == category && SeenBelow(fs, areas, category, device, pending, id)
      {
        if id in next.tally.seen {
          SeenHere(fs, areas, category, device, pending, p);
        } else {
          SeenFurther(fs, areas, category, device, pending, next.pending, p, id);
        }
      }
    }
  }

  /** What one turn leaves in the worklist and in the tally. */
  lemma VisitFacts(fs: Fs, areas: seq<Area>, category: Class, device: nat, pending: seq<Path>, t: Tally)
    requires Listed(fs) && pending != [] && category in t.amounts
    requires Visit(fs, areas, category, device, pending, t).Some?
    ensures
      var p, rest := pending[|pending| - 1], pending[..|pending| - 1];
      var next := Visit(fs, areas, category, device, pending, t).value;
      && Visited(fs, category, device, next.tally, p)
      && Extends(next.tally, t)
      && (forall id :: id in next.tally.seen && id !in t.seen ==>
            id == fs.nodes[p].id && Examined(fs, areas, category, device, p))
      && (forall q :: q in rest ==> q in next.pending)
      && (forall q :: q in next.pending ==> q in pending || p <= q)
  {
    var p, rest := pending[|pending| - 1], pending[..|pending| - 1];
    ListedBelow(fs, p);
    hide Listed, LinkFits;
  }

  lemma SeenHere(fs: Fs, areas: seq<Area>, category: Class, device: nat, pending: seq<Path>, p: Path)
    requires p in pending && Examined(fs, areas, category, device, p)
    ensures SeenBelow(fs, areas, category, device, pending, fs.nodes[p].id)
  {
    assert p <= p;
  }

  lemma SeenFurther(fs: Fs, areas: seq<Area>, category: Class, device: nat, pending: seq<Path>, next: seq<Path>,
                    p: Path, id: Identity)
    requires p in pending && forall q :: q in next ==> q in pending || p <= q
    requires SeenBelow(fs, areas, category, device, next, id)
    ensures SeenBelow(fs, areas, category, device, pending, id)
  {
    var q, x :| q in next && q <= x && Examined(fs, areas, category, device, x) && fs.nodes[x].id == id;
    if q !in pending {
      assert p <= q && p <= x;
    }
  }

  lemma ListedBelow(fs: Fs, p: Path)
    requires Listed(fs)
    ensures p in fs.listing ==> forall q :: q in fs.listing[p] ==> p <= q
  {
    forall q | p in fs.listing && q in fs.listing[p]
      ensures p <= q
    {
      assert IsChild(p, q);
    }
  }

  // ----- What all walks count -----

  function DeviceOf(fs: Fs, p: Path): nat {
    if p in fs.nodes then fs.nodes[p].id.device else 0
  }

  ghost predicate FoundIn(fs: Fs, areas: seq<Area>, n: nat, t: Tally, id: Identity)
    requires n <= |areas|
  {
    exists i :: 0 <= i < n && id in t.seen && t.seen[id] == areas[i].category
      && SeenBelow(fs, areas, areas[i].category, DeviceOf(fs, areas[i].path), [areas[i].path], id)
  }

  /** After `n` walks: those areas are counted, and only they. */
  ghost predicate Covered(fs: Fs, areas: seq<Area>, n: nat, t: Tally)
    requires n <= |areas|
  {
    && Accounted(fs, t)
    && Closed(fs, t, "", 0, [])
    && (forall i :: 0 <= i < n ==> Visited(fs, areas[i].category, DeviceOf(fs, areas[i].path), t, areas[i].path))
    && (forall id :: id in t.seen ==> FoundIn(fs, areas, n, t, id))
  }

  lemma ClosedForAll(fs: Fs, t: Tally, c: Class, d: nat, category: Class, device: nat, pending: seq<Path>)
    requires Closed(fs, t, c, d, [])
    ensures Closed(fs, t, category, device, pending)
  {
    forall p, q | p in fs.nodes && fs.nodes[p].id in t.seen && q in fs.nodes && IsChild(p, q)
      ensures Followed(fs, t, category, device, pending, p, q)
    {
      assert Followed(fs, t, c, d, [], p, q);
    }
  }

  lemma {:induction false} WalkAllSound(fs: Fs, areas: seq<Area>, n: nat)
    requires WellFormed(fs) && n <= |areas| && forall i :: 0 <= i < |areas| ==> areas[i].category in CLASSES
    requires WalkAll(fs, areas, n).Some?
    ensures Covered(fs, areas, n, WalkAll(fs, areas, n).value)
  {
    if n == 0 {
      assert forall c :: c in CLASSES ==> OfClass(Nothing(), c) == {};
    } else {
      hide WellFormed, Accounted, Closed, Walk, SeenBelow, Visited;
      WalkAllSound(fs, areas, n - 1);
      var t, area := WalkAll(fs, areas, n - 1).value, areas[n - 1];
      var device := fs.nodes[area.path].id.device;
      ClosedForAll(fs, t, "", 0, area.category, device, [area.path]);
      WalkSound(fs, areas, area.category, device, [area.path], t);
      var r := WalkAll(fs, areas, n).value;
      ClosedForAll(fs, r, area.category, device, "", 0, []);
      assert area.path in [area.path];
      CoveredNext(fs, areas, n, t, r);
    }
  }

  lemma CoveredNext(fs: Fs, areas: seq<Area>, n: nat, t: Tally, r: Tally)
    requires 0 < n <= |areas| && areas[n - 1].path in fs.nodes
    requires Covered(fs, areas, n - 1, t)
    requires Walked(fs, areas, areas[n - 1].category, DeviceOf(fs, areas[n - 1].path), [areas[n - 1].path], t, r)
    requires Closed(fs, r, "", 0, [])
    ensures Covered(fs, areas, n, r)
  {
    hide Accounted, Closed, SeenBelow;
    var area := areas[n - 1];
    forall i | 0 <= i < n
      ensures Visited(fs, areas[i].category, DeviceOf(fs, areas[i].path), r, areas[i].path)
    {
      if i < n - 1 {
        assert Visited(fs, areas[i].category, DeviceOf(fs, areas[i].path), t, areas[i].path);
      } else {
        assert area.path in [area.path];
      }
    }
    forall id | id in r.seen
      ensures FoundIn(fs, areas, n, r, id)
    {
      if id in t.seen {
        assert FoundIn(fs, areas, n - 1, t, id);
      } else {
        assert r.seen[id] == areas[n - 1].category;
      }
    }
  }

  /** Everything below a counted area is counted, in its class and on its device. */
  lemma {:induction false} AllBelowIsVisited(fs: Fs, areas: seq<Area>, n: nat, t: Tally, i: nat, p: Path)
    requires Nested(fs) && i < n <= |areas| && Covered(fs, areas, n, t)
    requires p in fs.nodes && areas[i].path <= p
    ensures Visited(fs, areas[i].category, DeviceOf(fs, areas[i].path), t, p)
    decreases |p|
  {
    hide Accounted, FoundIn;
    if p != areas[i].path {
      var parent := p[..|p| - 1];
      assert parent <= p && areas[i].path <= parent && IsChild(parent, p);
      AllBelowIsVisited(fs, areas, n, t, i, parent);
      assert Followed(fs, t, "", 0, [], parent, p);
    }
  }

  // ----- Areas and roots -----

  ghost predicate RootCovers(root: Root, c: Class, p: Path) {
    root.category == c && root.resolved.Some? && root.resolved.value <= p
  }

  ghost predicate UnderRoot(fs: Fs, roots: seq<Root>, c: Class, p: Path) {
    p in fs.nodes && RootsCover(roots, c, p)
  }

  ghost predicate AreaCovers(areas: seq<Area>, c: Class, p: Path) {
    exists i :: 0 <= i < |areas| && areas[i].category == c && areas[i].path <= p
  }

  /** The areas stand for the roots: each root lies in an area of its class, each area is a root. */
  ghost predicate Represents(areas: seq<Area>, roots: seq<Root>) {
    && RootsUsable(roots)
    && (forall root :: root in roots ==> AreaCovers(areas, root.category, root.resolved.value))
    && (forall i :: 0 <= i < |areas| ==> IsRoot(roots, areas[i]))
  }

  ghost predicate Usable(root: Root) {
    root.category in CLASSES && !root.isLink && root.resolved.Some?
  }

  ghost predicate RootsUsable(roots: seq<Root>) {
    forall root :: root in roots ==> Usable(root)
  }

  ghost predicate IsRoot(roots: seq<Root>, area: Area) {
    exists root :: root in roots && AreaOf(root, area)
  }

  ghost predicate AreaOf(root: Root, area: Area) {
    root.category == area.category && root.resolved == Some(area.path)
  }

  lemma {:induction false} AreasRepresent(roots: seq<Root>)
    requires Areas(roots).Some?
    ensures Represents(Areas(roots).value, roots)
  {
    if roots != [] {
      var rest, last := roots[..|roots| - 1], roots[|roots| - 1];
      AreasRepresent(rest);
      var before, areas := Areas(rest).value, Areas(roots).value;
      assert forall root :: root in roots ==> root in rest || root == last;
      assert forall i :: 0 <= i < |before| ==> areas[i] == before[i];
      forall root | root in roots
        ensures Usable(root) && AreaCovers(areas, root.category, root.resolved.value)
      {
        if root in rest {
          assert AreaCovers(before, root.category, root.resolved.value);
        } else if |areas| == |before| {
          assert AreaCovers(before, root.category, root.resolved.value);
        } else {
          assert areas[|before|].path <= root.resolved.value;
        }
      }
      forall i | 0 <= i < |areas|
        ensures IsRoot(roots, areas[i])
      {
        if i < |before| {
          assert IsRoot(rest, before[i]);
          var root :| root in rest && AreaOf(root, before[i]);
          assert root in roots;
        } else {
          assert last in roots && AreaOf(last, areas[i]);
        }
      }
    }
  }

  /** A root below an earlier area adds none. */
  lemma {:induction false} NoneBelowAnEarlier(roots: seq<Root>)
    requires Areas(roots).Some?
    ensures
      var areas := Areas(roots).value;
      forall i, j :: 0 <= i < j < |areas| ==> !(areas[i].path <= areas[j].path)
  {
    if roots != [] {
      var rest := roots[..|roots| - 1];
      NoneBelowAnEarlier(rest);
      var before, areas := Areas(rest).value, Areas(roots).value;
      assert forall i :: 0 <= i < |before| ==> areas[i] == before[i];
    }
  }

  ghost predicate RootsCover(roots: seq<Root>, c: Class, p: Path) {
    exists root :: root in roots && RootCovers(root, c, p)
  }

  lemma SameCover(areas: seq<Area>, roots: seq<Root>, c: Class, p: Path)
    requires Represents(areas, roots)
    ensures AreaCovers(areas, c, p) <==> RootsCover(roots, c, p)
  {
    hide RootsUsable, Usable, AreaCovers, IsRoot;
    if AreaCovers(areas, c, p) {
      var i := CoveringArea(areas, c, p);
      RootOfArea(roots, areas[i], p);
    }
    if RootsCover(roots, c, p) {
      var root :| root in roots && RootCovers(root, c, p);
      CoverBelow(areas, c, root.resolved.value, p);
    }
  }

  lemma CoveringArea(areas: seq<Area>, c: Class, p: Path) returns (i: nat)
    requires AreaCovers(areas, c, p)
    ensures i < |areas| && areas[i].category == c && areas[i].path <= p
  {
    i :| 0 <= i < |areas| && areas[i].category == c && areas[i].path <= p;
  }

  lemma RootOfArea(roots: seq<Root>, area: Area, p: Path)
    requires IsRoot(roots, area) && area.path <= p
    ensures RootsCover(roots, area.category, p)
  {
    var root :| root in roots && AreaOf(root, area);
    assert RootCovers(root, area.category, p);
  }

  lemma CoverBelow(areas: seq<Area>, c: Class, q: Path, p: Path)
    requires q <= p && AreaCovers(areas, c, q)
    ensures AreaCovers(areas, c, p)
  {
    var i :| 0 <= i < |areas| && areas[i].category == c && areas[i].path <= q;
    assert areas[i].path <= p;
  }

  lemma OwnersByRoot(areas: seq<Area>, roots: seq<Root>, t: Path)
    requires Represents(areas, roots)
    ensures Owners(areas, t) == RootOwners(roots, t)
  {
    forall c
      ensures c in Owners(areas, t) <==> c in RootOwners(roots, t)
    {
      OwnersCover(areas, c, t);
      SameCover(areas, roots, c, t);
      RootOwnersCover(roots, c, t);
    }
  }

  lemma OwnersCover(areas: seq<Area>, c: Class, t: Path)
    ensures c in Owners(areas, t) <==> AreaCovers(areas, c, t)
  {
  }

  lemma RootOwnersCover(roots: seq<Root>, c: Class, t: Path)
    ensures c in RootOwners(roots, t) <==> RootsCover(roots, c, t)
  {
  }

  ghost function RootOwners(roots: seq<Root>, t: Path): set<Class> {
    set root | root in roots && RootCovers(root, root.category, t) :: root.category
  }

  // ----- The measurement as a property of the roots and the file system -----

  /** A strictly resolved path exists. */
  ghost predicate Resolved(fs: Fs, roots: seq<Root>) {
    forall root :: root in roots && root.resolved.Some? ==> root.resolved.value in fs.nodes
  }

  /** No inode lies below roots of two classes. */
  ghost predicate ClassesApart(fs: Fs, roots: seq<Root>) {
    forall c, d, p, q :: UnderRoot(fs, roots, c, p) && UnderRoot(fs, roots, d, q) && SameInode(fs, p, q) ==> c == d
  }

  ghost predicate OneFilesystem(fs: Fs, roots: seq<Root>) {
    forall root, p :: root in roots && p in fs.nodes && RootCovers(root, root.category, p) ==>
      fs.nodes[p].id.device == DeviceOf(fs, root.resolved.value) && fs.nodes[p].kind != Special
  }

  ghost predicate LinkOwned(fs: Fs, roots: seq<Root>, c: Class, p: Path) {
    p in fs.target && RootOwners(roots, fs.target[p]) == {c}
  }

  /** Every link below a root leads into storage of its own class only. */
  ghost predicate LinksOwned(fs: Fs, roots: seq<Root>) {
    forall c, p :: UnderRoot(fs, roots, c, p) && fs.nodes[p].kind == Link ==> LinkOwned(fs, roots, c, p)
  }

  /** The same for at least one of the paths to each link. */
  ghost predicate LinksOwnedOnce(fs: Fs, roots: seq<Root>) {
    forall c, p :: UnderRoot(fs, roots, c, p) && fs.nodes[p].kind == Link ==>
      exists q :: UnderRoot(fs, roots, c, q) && SameInode(fs, p, q) && LinkOwned(fs, roots, c, q)
  }

  /** The inodes below the roots of one class. */
  ghost function Below(fs: Fs, roots: seq<Root>, c: Class): set<Identity> {
    set p | p in fs.nodes && UnderRoot(fs, roots, c, p) :: fs.nodes[p].id
  }

  /** The areas, the tally and what every walk together established. */
  lemma Measured(fs: Fs, roots: seq<Root>) returns (areas: seq<Area>, t: Tally)
    requires WellFormed(fs) && Allocated(fs, roots).Some?
    ensures Represents(areas, roots) && Covered(fs, areas, |areas|, t)
    ensures Allocated(fs, roots) == Some(t) && t.amounts.Keys == CLASSES
  {
    hide WellFormed, Covered, Represents, Areas, ByLength;
    areas := Areas(ByLength(roots)).value;
    AreasRepresent(ByLength(roots));
    SortingKeepsRoots(areas, roots);
    AreasAreClassified(ByLength(roots));
    WalkAllSound(fs, areas, |areas|);
    t := WalkAll(fs, areas, |areas|).value;
  }

  lemma SortingKeepsRoots(areas: seq<Area>, roots: seq<Root>)
    requires Represents(areas, ByLength(roots))
    ensures Represents(areas, roots)
  {
    var sorted := ByLength(roots);
    assert forall root :: root in roots <==> root in sorted;
    forall i | 0 <= i < |areas|
      ensures IsRoot(roots, areas[i])
    {
      assert IsRoot(sorted, areas[i]);
    }
  }

  lemma UnderRootIsVisited(fs: Fs, roots: seq<Root>, areas: seq<Area>, t: Tally, c: Class, p: Path) returns (i: nat)
    requires Nested(fs) && Represents(areas, roots) && Covered(fs, areas, |areas|, t) && UnderRoot(fs, roots, c, p)
    ensures i < |areas| && areas[i].category == c && areas[i].path <= p
    ensures Visited(fs, c, DeviceOf(fs, areas[i].path), t, p)
  {
    hide Covered, Represents;
    SameCover(areas, roots, c, p);
    i :| 0 <= i < |areas| && areas[i].category == c && areas[i].path <= p;
    AllBelowIsVisited(fs, areas, |areas|, t, i, p);
  }

  lemma FoundUnderRoot(fs: Fs, roots: seq<Root>, areas: seq<Area>, t: Tally, id: Identity) returns (p: Path)
    requires Represents(areas, roots) && Covered(fs, areas, |areas|, t) && id in t.seen
    ensures UnderRoot(fs, roots, t.seen[id], p) && fs.nodes[p].id == id && fs.nodes[p].kind != Special
    ensures fs.nodes[p].kind == Link ==> LinkOwned(fs, roots, t.seen[id], p)
  {
    hide Covered, Represents, Owners, RootOwners, AreaCovers, RootsCover;
    var i: nat;
    i, p := FoundAt(fs, areas, t, id);
    assert AreaCovers(areas, areas[i].category, p) by {
      CoveredByArea(areas, i, p);
    }
    SameCover(areas, roots, areas[i].category, p);
    if fs.nodes[p].kind == Link {
      OwnersByRoot(areas, roots, fs.target[p]);
    }
  }

  lemma CoveredByArea(areas: seq<Area>, i: nat, p: Path)
    requires i < |areas| && areas[i].path <= p
    ensures AreaCovers(areas, areas[i].category, p)
  {
  }

  lemma FoundAt(fs: Fs, areas: seq<Area>, t: Tally, id: Identity) returns (i: nat, x: Path)
    requires Covered(fs, areas, |areas|, t) && id in t.seen
    ensures i < |areas| && t.seen[id] == areas[i].category
    ensures areas[i].path <= x && x in fs.nodes && fs.nodes[x].id == id
    ensures Examined(fs, areas, areas[i].category, DeviceOf(fs, areas[i].path), x)
  {
    assert FoundIn(fs, areas, |areas|, t, id);
    hide Covered, Examined, SeenBelow;
    i :| 0 <= i < |areas| && t.seen[id] == areas[i].category
      && SeenBelow(fs, areas, areas[i].category, DeviceOf(fs, areas[i].path), [areas[i].path], id);
    x := SeenAt(fs, areas, areas[i].category, DeviceOf(fs, areas[i].path), areas[i].path, id);
  }

  lemma SeenAt(fs: Fs, areas: seq<Area>, category: Class, device: nat, start: Path, id: Identity) returns (x: Path)
    requires SeenBelow(fs, areas, category, device, [start], id)
    ensures start <= x && Examined(fs, areas, category, device, x) && x in fs.nodes && fs.nodes[x].id == id
  {
    hide LinkFits;
    var q, y :| q in [start] && q <= y && Examined(fs, areas, category, device, y) && fs.nodes[y].id == id;
    x := y;
  }

  /** Each class's amount is the blocks of the distinct inodes below its roots. */
  lemma EachInodeIsCountedOnce(fs: Fs, roots: seq<Root>)
    requires WellFormed(fs) && Allocated(fs, roots).Some?
    ensures
      var t := Allocated(fs, roots).value;
      && t.amounts.Keys == CLASSES
      && (forall c :: c in CLASSES ==> OfClass(t, c) == Below(fs, roots, c))
      && (forall c :: c in CLASSES ==> t.amounts[c] == 512 * Blocks(fs, Below(fs, roots, c)))
  {
    hide Covered, Represents;
    var areas, t := Measured(fs, roots);
    forall c | c in CLASSES
      ensures OfClass(t, c) == Below(fs, roots, c)
    {
      forall id | id in OfClass(t, c)
        ensures id in Below(fs, roots, c)
      {
        var p := FoundUnderRoot(fs, roots, areas, t, id);
      }
      forall id | id in Below(fs, roots, c)
        ensures id in OfClass(t, c)
      {
        var p :| p in fs.nodes && UnderRoot(fs, roots, c, p) && fs.nodes[p].id == id;
        var i := UnderRootIsVisited(fs, roots, areas, t, c, p);
      }
    }
    CoveredIsAccounted(fs, areas, t);
  }

  lemma CoveredIsAccounted(fs: Fs, areas: seq<Area>, t: Tally)
    requires Covered(fs, areas, |areas|, t)
    ensures Accounted(fs, t)
  {
  }

  lemma OneClassPerInode(fs: Fs, roots: seq<Root>, areas: seq<Area>, t: Tally)
    requires Nested(fs) && Represents(areas, roots) && Covered(fs, areas, |areas|, t)
    ensures ClassesApart(fs, roots)
  {
    hide Covered, Represents, Nested, UnderRoot;
    forall c, d, p, q | UnderRoot(fs, roots, c, p) && UnderRoot(fs, roots, d, q) && SameInode(fs, p, q)
      ensures c == d
    {
      var i := UnderRootIsVisited(fs, roots, areas, t, c, p);
      var j := UnderRootIsVisited(fs, roots, areas, t, d, q);
    }
  }

  /** Below one root everything is on its device and of a supported kind. */
  lemma OneDevicePerRoot(fs: Fs, roots: seq<Root>, areas: seq<Area>, t: Tally, root: Root, p: Path)
    requires WellFormed(fs) && Resolved(fs, roots) && Represents(areas, roots) && Covered(fs, areas, |areas|, t)
    requires root in roots && p in fs.nodes && RootCovers(root, root.category, p)
    ensures fs.nodes[p].id.device == DeviceOf(fs, root.resolved.value) && fs.nodes[p].kind != Special
  {
    hide Covered, Represents;
    assert RootCovers(root, root.category, root.resolved.value);
    SameCover(areas, roots, root.category, root.resolved.value);
    var i :| 0 <= i < |areas| && areas[i].category == root.category && areas[i].path <= root.resolved.value;
    AllBelowIsVisited(fs, areas, |areas|, t, i, root.resolved.value);
    AllBelowIsVisited(fs, areas, |areas|, t, i, p);
    var q := FoundUnderRoot(fs, roots, areas, t, fs.nodes[p].id);
    assert SameInode(fs, p, q);
  }

  lemma SomePathIsOwned(fs: Fs, roots: seq<Root>, areas: seq<Area>, t: Tally, c: Class, p: Path)
    requires WellFormed(fs) && Represents(areas, roots) && Covered(fs, areas, |areas|, t)
    requires UnderRoot(fs, roots, c, p) && fs.nodes[p].kind == Link
    ensures exists q :: UnderRoot(fs, roots, c, q) && SameInode(fs, p, q) && LinkOwned(fs, roots, c, q)
  {
    hide Covered, Represents;
    var i := UnderRootIsVisited(fs, roots, areas, t, c, p);
    var q := FoundUnderRoot(fs, roots, areas, t, fs.nodes[p].id);
    assert SameInode(fs, p, q);
  }

  /** A measurement that succeeds is unambiguous: one class per inode, one device per root, links that stay inside. */
  lemma MeasuredIsUnambiguous(fs: Fs, roots: seq<Root>)
    requires WellFormed(fs) && Resolved(fs, roots) && Allocated(fs, roots).Some?
    ensures RootsUsable(roots) && ClassesApart(fs, roots) && OneFilesystem(fs, roots) && LinksOwnedOnce(fs, roots)
  {
    var areas, t := Measured(fs, roots);
    assert RootsUsable(roots);
    hide Covered, Represents, WellFormed, UnderRoot, SameInode, LinkOwned, Resolved, RootsUsable;
    assert Nested(fs) by { NestedToo(fs); }
    OneClassPerInode(fs, roots, areas, t);
    forall root, p | root in roots && p in fs.nodes && RootCovers(root, root.category, p)
      ensures fs.nodes[p].id.device == DeviceOf(fs, root.resolved.value) && fs.nodes[p].kind != Special
    {
      OneDevicePerRoot(fs, roots, areas, t, root, p);
    }
    forall c, p | UnderRoot(fs, roots, c, p) && fs.nodes[p].kind == Link
      ensures exists q :: UnderRoot(fs, roots, c, q) && SameInode(fs, p, q) && LinkOwned(fs, roots, c, q)
    {
      SomePathIsOwned(fs, roots, areas, t, c, p);
    }
  }

  lemma NestedToo(fs: Fs)
    requires WellFormed(fs)
    ensures Nested(fs) && Listed(fs) && Linked(fs)
  {
  }

  // ----- When a measurement succeeds -----

  /** Storage a measurement must be able to account for. */
  ghost predicate Unambiguous(fs: Fs, roots: seq<Root>) {
    RootsUsable(roots) && ClassesApart(fs, roots) && OneFilesystem(fs, roots) && LinksOwned(fs, roots)
  }

  /** What the walk of area `i` meets is fit to count. */
  ghost predicate Countable(fs: Fs, areas: seq<Area>, i: nat, p: Path)
    requires i < |areas|
  {
    Examined(fs, areas, areas[i].category, DeviceOf(fs, areas[i].path), p)
  }

  ghost predicate AllCountable(fs: Fs, areas: seq<Area>) {
    forall i, p :: 0 <= i < |areas| && p in fs.nodes && areas[i].path <= p ==> Countable(fs, areas, i, p)
  }

  ghost predicate Witnessed(fs: Fs, roots: seq<Root>, t: Tally) {
    forall id :: id in t.seen ==> id in Below(fs, roots, t.seen[id])
  }

  lemma {:induction false} WalkSucceeds(fs: Fs, roots: seq<Root>, areas: seq<Area>, i: nat, pending: seq<Path>,
                                        t: Tally)
    requires Nested(fs) && Listed(fs) && Represents(areas, roots) && ClassesApart(fs, roots)
    requires AllCountable(fs, areas) && i < |areas| && areas[i].category in t.amounts
    requires Witnessed(fs, roots, t)
    requires forall q :: q in pending ==> q in fs.nodes && areas[i].path <= q
    ensures
      var r := Walk(fs, areas, areas[i].category, DeviceOf(fs, areas[i].path), pending, t);
      r.Some? && Witnessed(fs, roots, r.value)
    decreases |Identities(fs) - t.seen.Keys|, |pending|
  {
    if pending != [] {
      hide Nested, Listed, Represents, ClassesApart, AllCountable, Witnessed, Identities;
      var c, device := areas[i].category, DeviceOf(fs, areas[i].path);
      WalkVisits(fs, areas, c, device, pending, t);
      VisitSucceeds(fs, roots, areas, i, pending, t);
      var next := Visit(fs, areas, c, device, pending, t).value;
      hide Visit;
      WalkSucceeds(fs, roots, areas, i, next.pending, next.tally);
    }
  }

  lemma VisitSucceeds(fs: Fs, roots: seq<Root>, areas: seq<Area>, i: nat, pending: seq<Path>, t: Tally)
    requires Nested(fs) && Listed(fs) && Represents(areas, roots) && ClassesApart(fs, roots)
    requires AllCountable(fs, areas) && i < |areas| && areas[i].category in t.amounts && pending != []
    requires Witnessed(fs, roots, t)
    requires forall q :: q in pending ==> q in fs.nodes && areas[i].path <= q
    ensures
      var step := Visit(fs, areas, areas[i].category, DeviceOf(fs, areas[i].path), pending, t);
      && step.Some? && Witnessed(fs, roots, step.value.tally)
      && (forall q :: q in step.value.pending ==> q in fs.nodes && areas[i].path <= q)
  {
    var c, device, p := areas[i].category, DeviceOf(fs, areas[i].path), pending[|pending| - 1];
    assert p in pending;
    assert Countable(fs, areas, i, p);
    BelowItsArea(fs, roots, areas, i, p);
    if fs.nodes[p].id in t.seen {
      SeenAlike(fs, roots, t, c, fs.nodes[p].id);
    }
    assert Examined(fs, areas, c, device, p);
    hide *;
    VisitIsSome(fs, areas, c, device, pending, t);
    var next := Visit(fs, areas, c, device, pending, t).value;
    StillWitnessed(fs, roots, t, next.tally, c, fs.nodes[p].id);
    StillBelow(fs, areas, i, pending, next.pending, p);
  }

  lemma VisitIsSome(fs: Fs, areas: seq<Area>, c: Class, device: nat, pending: seq<Path>, t: Tally)
    requires Listed(fs) && pending != [] && c in t.amounts && Examined(fs, areas, c, device, pending[|pending| - 1])
    requires
      var id := fs.nodes[pending[|pending| - 1]].id;
      id in t.seen ==> t.seen[id] == c
    ensures
      var step, p := Visit(fs, areas, c, device, pending, t), pending[|pending| - 1];
      && step.Some? && step.value.tally.seen == t.seen[fs.nodes[p].id := c]
      && (forall q :: q in step.value.pending ==> q in pending || (p in fs.listing && q in fs.listing[p]))
  {
    var p := pending[|pending| - 1];
    assert fs.nodes[p].kind == Directory ==> p in fs.listing;
    hide Listed, LinkFits;
    assert forall q :: q in pending[..|pending| - 1] ==> q in pending;
    if fs.nodes[p].id in t.seen {
      assert t.seen == t.seen[fs.nodes[p].id := c];
    }
  }

  lemma StillWitnessed(fs: Fs, roots: seq<Root>, t: Tally, t': Tally, c: Class, id: Identity)
    requires Witnessed(fs, roots, t) && id in Below(fs, roots, c) && t'.seen == t.seen[id := c]
    ensures Witnessed(fs, roots, t')
  {
    hide Below;
  }

  lemma StillBelow(fs: Fs, areas: seq<Area>, i: nat, pending: seq<Path>, next: seq<Path>, p: Path)
    requires Listed(fs) && i < |areas| && p in pending
    requires forall q :: q in pending ==> q in fs.nodes && areas[i].path <= q
    requires forall q :: q in next ==> q in pending || (p in fs.listing && q in fs.listing[p])
    ensures forall q :: q in next ==> q in fs.nodes && areas[i].path <= q
  {
    ListedBelow(fs, p);
    forall q | q in next && q !in pending
      ensures q in fs.nodes && areas[i].path <= q
    {
      assert IsChild(p, q);
    }
  }

  lemma BelowItsArea(fs: Fs, roots: seq<Root>, areas: seq<Area>, i: nat, p: Path)
    requires Represents(areas, roots) && i < |areas| && areas[i].path <= p && p in fs.nodes
    ensures fs.nodes[p].id in Below(fs, roots, areas[i].category)
  {
    CoveredByArea(areas, i, p);
    SameCover(areas, roots, areas[i].category, p);
    assert UnderRoot(fs, roots, areas[i].category, p);
  }

  lemma SeenAlike(fs: Fs, roots: seq<Root>, t: Tally, c: Class, id: Identity)
    requires ClassesApart(fs, roots) && Witnessed(fs, roots, t) && id in t.seen && id in Below(fs, roots, c)
    ensures t.seen[id] == c
  {
    hide UnderRoot, ClassesApart;
    var p :| p in fs.nodes && UnderRoot(fs, roots, c, p) && fs.nodes[p].id == id;
    assert id in Below(fs, roots, t.seen[id]);
    var q :| q in fs.nodes && UnderRoot(fs, roots, t.seen[id], q) && fs.nodes[q].id == id;
    ApartAt(fs, roots, c, t.seen[id], p, q);
  }

  lemma ApartAt(fs: Fs, roots: seq<Root>, c: Class, d: Class, p: Path, q: Path)
    requires ClassesApart(fs, roots) && UnderRoot(fs, roots, c, p) && UnderRoot(fs, roots, d, q) && SameInode(fs, p, q)
    ensures c == d
  {
  }

  lemma {:induction false} WalkAllSucceeds(fs: Fs, roots: seq<Root>, areas: seq<Area>, n: nat)
    requires Nested(fs) && Listed(fs) && Represents(areas, roots) && ClassesApart(fs, roots) && AllCountable(fs, areas)
    requires n <= |areas| && forall i :: 0 <= i < |areas| ==> areas[i].category in CLASSES
    requires forall i :: 0 <= i < |areas| ==> areas[i].path in fs.nodes
    ensures WalkAll(fs, areas, n).Some? && Witnessed(fs, roots, WalkAll(fs, areas, n).value)
  {
    if n > 0 {
      hide Nested, Listed, Represents, ClassesApart, AllCountable, Witnessed, Walk, Nothing;
      WalkAllSucceeds(fs, roots, areas, n - 1);
      var t, area := WalkAll(fs, areas, n - 1).value, areas[n - 1];
      WalkSucceeds(fs, roots, areas, n - 1, [area.path], t);
      assert WalkAll(fs, areas, n) == Walk(fs, areas, area.category, DeviceOf(fs, area.path), [area.path], t);
    }
  }

  lemma {:induction false} AreasSucceed(fs: Fs, roots: seq<Root>, sorted: seq<Root>)
    requires RootsUsable(roots) && ClassesApart(fs, roots) && Resolved(fs, roots)
    requires forall root :: root in sorted ==> root in roots
    ensures Areas(sorted).Some?
  {
    if sorted != [] {
      hide ClassesApart, Resolved, AddRoot;
      var rest, root := sorted[..|sorted| - 1], sorted[|sorted| - 1];
      AreasSucceed(fs, roots, rest);
      AreasRepresent(rest);
      assert root in sorted;
      AddRootSucceeds(fs, roots, rest, Areas(rest).value, root);
    }
  }

  lemma AddRootSucceeds(fs: Fs, roots: seq<Root>, rest: seq<Root>, areas: seq<Area>, root: Root)
    requires RootsUsable(roots) && ClassesApart(fs, roots) && Resolved(fs, roots)
    requires root in roots && forall r :: r in rest ==> r in roots
    requires Represents(areas, rest)
    ensures AddRoot(areas, root).Some?
  {
    assert Usable(root);
    var p := root.resolved.value;
    assert p in fs.nodes;
    assert UnderRoot(fs, roots, root.category, p) by {
      assert RootCovers(root, root.category, p);
    }
    hide RootsUsable, ClassesApart, Resolved, UnderRoot;
    forall i | 0 <= i < |areas| && areas[i].path <= p
      ensures areas[i].category == root.category
    {
      assert IsRoot(rest, areas[i]);
      RootOfArea(rest, areas[i], p);
      hide Represents;
      var other :| other in rest && RootCovers(other, areas[i].category, p);
      UnderOneRoot(fs, roots, other, p);
      assert SameInode(fs, p, p);
      ApartAt(fs, roots, areas[i].category, root.category, p, p);
    }
  }

  lemma UnderOneRoot(fs: Fs, roots: seq<Root>, root: Root, p: Path)
    requires root in roots && RootCovers(root, root.category, p) && p in fs.nodes
    ensures UnderRoot(fs, roots, root.category, p)
  {
  }

  lemma AreasAreCountable(fs: Fs, roots: seq<Root>, areas: seq<Area>)
    requires Represents(areas, roots) && OneFilesystem(fs, roots) && LinksOwned(fs, roots)
    ensures AllCountable(fs, areas)
  {
    forall i, p | 0 <= i < |areas| && p in fs.nodes && areas[i].path <= p
      ensures Countable(fs, areas, i, p)
    {
      assert IsRoot(roots, areas[i]);
      var root := TheRoot(roots, areas[i]);
      hide Represents, Owners, RootOwners;
      assert RootCovers(root, root.category, p);
      UnderOneRoot(fs, roots, root, p);
      if fs.nodes[p].kind == Link {
        assert LinkOwned(fs, roots, root.category, p);
        OwnersByRoot(areas, roots, fs.target[p]);
      }
    }
  }

  lemma TheRoot(roots: seq<Root>, area: Area) returns (root: Root)
    requires IsRoot(roots, area)
    ensures root in roots && AreaOf(root, area)
  {
    root :| root in roots && AreaOf(root, area);
  }

  /** Unambiguous storage is measured, in whatever order roots and entries come. */
  lemma UnambiguousIsMeasured(fs: Fs, roots: seq<Root>)
    requires WellFormed(fs) && Resolved(fs, roots) && Unambiguous(fs, roots)
    ensures Allocated(fs, roots).Some?
  {
    var sorted := ByLength(roots);
    assert forall root :: root in sorted ==> root in roots;
    NestedToo(fs);
    hide WellFormed, Nested, Listed, Linked, ByLength, ClassesApart, OneFilesystem, LinksOwned, Resolved;
    hide RootsUsable, Areas;
    AreasSucceed(fs, roots, sorted);
    AreasRepresent(sorted);
    var areas := Areas(sorted).value;
    SortingKeepsRoots(areas, roots);
    AreasAreClassified(sorted);
    AreasAreCountable(fs, roots, areas);
    AreasExist(fs, roots, areas);
    WalkAllSucceeds(fs, roots, areas, |areas|);
  }

  lemma AreasExist(fs: Fs, roots: seq<Root>, areas: seq<Area>)
    requires Represents(areas, roots) && Resolved(fs, roots)
    ensures forall i :: 0 <= i < |areas| ==> areas[i].path in fs.nodes
  {
    forall i | 0 <= i < |areas|
      ensures areas[i].path in fs.nodes
    {
      assert IsRoot(roots, areas[i]);
      var root := TheRoot(roots, areas[i]);
    }
  }

  /** All paths to one symbolic link resolve alike: the guard the walk leaves out, as it resolves one path per inode. */
  ghost predicate LinksAgree(fs: Fs) {
    forall p, q :: SameInode(fs, p, q) && fs.nodes[p].kind == Link ==>
      (p in fs.target <==> q in fs.target) && (p in fs.target ==> fs.target[p] == fs.target[q])
  }

  /** A measurement succeeds exactly on unambiguous storage, when hard-linked symbolic links resolve alike. */
  lemma MeasuredIffUnambiguous(fs: Fs, roots: seq<Root>)
    requires WellFormed(fs) && Resolved(fs, roots) && LinksAgree(fs)
    ensures Allocated(fs, roots).Some? <==> Unambiguous(fs, roots)
  {
    hide WellFormed, Resolved, RootsUsable, ClassesApart, OneFilesystem, UnderRoot;
    if Unambiguous(fs, roots) {
      UnambiguousIsMeasured(fs, roots);
    }
    if Allocated(fs, roots).Some? {
      MeasuredIsUnambiguous(fs, roots);
      forall c, p | p in fs.nodes && UnderRoot(fs, roots, c, p) && fs.nodes[p].kind == Link
        ensures LinkOwned(fs, roots, c, p)
      {
        var q :| UnderRoot(fs, roots, c, q) && SameInode(fs, p, q) && LinkOwned(fs, roots, c, q);
      }
    }
  }

  /** The same entries and roots, listed in another order. */
  ghost predicate Reordered(fs: Fs, roots: seq<Root>, fs': Fs, roots': seq<Root>) {
    && fs.nodes == fs'.nodes && fs.target == fs'.target
    && (forall root :: root in roots <==> root in roots')
  }

  lemma SameBelow(fs: Fs, roots: seq<Root>, fs': Fs, roots': seq<Root>, c: Class)
    requires Reordered(fs, roots, fs', roots')
    ensures Below(fs, roots, c) == Below(fs', roots', c)
  {
    forall p
      ensures UnderRoot(fs, roots, c, p) <==> UnderRoot(fs', roots', c, p)
    {
    }
  }

  lemma {:induction false} SameBlocks(fs: Fs, fs': Fs, ids: set<Identity>)
    requires fs.nodes == fs'.nodes && Linked(fs) && Linked(fs')
    requires forall id :: id in ids ==> id in Identities(fs)
    ensures Blocks(fs, ids) == Blocks(fs', ids)
    decreases |ids|
  {
    if ids != {} {
      var id :| id in ids;
      var p :| p in fs.nodes && fs.nodes[p].id == id;
      BlocksOfNode(fs, p);
      BlocksOfNode(fs', p);
      hide Linked, Identities, BlocksOf;
      BlocksWithout(fs, ids, id);
      BlocksWithout(fs', ids, id);
      SameBlocks(fs, fs', ids - {id});
    }
  }

  /** Two measurements of the same storage agree, whatever the order of roots and of directory entries. */
  lemma OrderDoesNotMatter(fs: Fs, roots: seq<Root>, fs': Fs, roots': seq<Root>)
    requires WellFormed(fs) && WellFormed(fs') && Reordered(fs, roots, fs', roots')
    requires Allocated(fs, roots).Some? && Allocated(fs', roots').Some?
    ensures Allocated(fs, roots).value.amounts == Allocated(fs', roots').value.amounts
  {
    EachInodeIsCountedOnce(fs, roots);
    EachInodeIsCountedOnce(fs', roots');
    NestedToo(fs);
    NestedToo(fs');
    hide WellFormed, Nested, Listed, Linked, Blocks, Reordered, Identities, OfClass;
    forall c | c in CLASSES
      ensures Blocks(fs, Below(fs, roots, c)) == Blocks(fs', Below(fs', roots', c))
    {
      SameBelow(fs, roots, fs', roots', c);
      BelowIsThere(fs, roots, c);
      ReorderedNodes(fs, roots, fs', roots');
      SameBlocks(fs, fs', Below(fs, roots, c));
    }
  }

  /** Unambiguous storage is unambiguous in every order. */
  lemma SameAmbiguity(fs: Fs, roots: seq<Root>, fs': Fs, roots': seq<Root>)
    requires Reordered(fs, roots, fs', roots')
    ensures Unambiguous(fs, roots) ==> Unambiguous(fs', roots')
    ensures Resolved(fs, roots) ==> Resolved(fs', roots')
    ensures LinksAgree(fs) ==> LinksAgree(fs')
  {
    forall c, p
      ensures UnderRoot(fs, roots, c, p) <==> UnderRoot(fs', roots', c, p)
    {
    }
    forall t
      ensures RootOwners(roots, t) == RootOwners(roots', t)
    {
    }
    hide UnderRoot, RootOwners;
  }

  /** Nor does the order decide whether there is a measurement, when hard-linked symbolic links resolve alike. */
  lemma OrderDoesNotDecide(fs: Fs, roots: seq<Root>, fs': Fs, roots': seq<Root>)
    requires WellFormed(fs) && WellFormed(fs') && Reordered(fs, roots, fs', roots')
    requires Resolved(fs, roots) && LinksAgree(fs)
    ensures Allocated(fs, roots).Some? <==> Allocated(fs', roots').Some?
  {
    ReorderedBack(fs, roots, fs', roots');
    SameAmbiguity(fs, roots, fs', roots');
    SameAmbiguity(fs', roots', fs, roots);
    hide *;
    MeasuredIffUnambiguous(fs, roots);
    MeasuredIffUnambiguous(fs', roots');
  }

  lemma ReorderedBack(fs: Fs, roots: seq<Root>, fs': Fs, roots': seq<Root>)
    requires Reordered(fs, roots, fs', roots')
    ensures Reordered(fs', roots', fs, roots)
  {
  }

  lemma ReorderedNodes(fs: Fs, roots: seq<Root>, fs': Fs, roots': seq<Root>)
    requires Reordered(fs, roots, fs', roots')
    ensures fs.nodes == fs'.nodes
  {
  }

  lemma BelowIsThere(fs: Fs, roots: seq<Root>, c: Class)
    ensures forall id :: id in Below(fs, roots, c) ==> id in Identities(fs)
  {
    hide UnderRoot;
  }

  // ----- The case left out: one symbolic link under two paths -----

  const TOP: Path := []
  const ROOT: Path := ["r"]
  const DIR: Path := ["r", "b"]
  const OUTER: Path := ["r", "l"]
  const INNER: Path := ["r", "b", "l"]

  /** The link `../b` under the names `r/l`, where it dangles, and `r/b/l`, where it leads to `r/b`. */
  function TwoNames(entries: seq<Path>): Fs {
    Fs(
      map[
        TOP := Node(Identity(1, 1), Directory, 0),
        ROOT := Node(Identity(1, 2), Directory, 1),
        DIR := Node(Identity(1, 3), Directory, 1),
        OUTER := Node(Identity(1, 4), Link, 1),
        INNER := Node(Identity(1, 4), Link, 1)
      ],
      map[TOP := [ROOT], ROOT := entries, DIR := [INNER]],
      map[INNER := DIR])
  }

  lemma TwoNamesNest(entries: seq<Path>)
    ensures Nested(TwoNames(entries))
  {
    var fs := TwoNames(entries);
    forall p, q | q in fs.nodes && p <= q
      ensures p in fs.nodes
    {
      assert p == q || p == q[..0] || p == q[..1] || p == q[..2];
      assert DIR[..1] == OUTER[..1] == INNER[..1] == ROOT && INNER[..2] == DIR;
    }
    forall p, c | p in fs.nodes && c in fs.nodes && IsChild(p, c)
      ensures fs.nodes[p].kind == Directory
    {
      OuterIsNoParent(c);
    }
  }

  lemma OuterIsNoParent(c: Path)
    ensures c in TwoNames([]).nodes ==> !IsChild(OUTER, c) && !IsChild(INNER, c)
  {
    assert INNER[..2] == DIR && DIR[1] != OUTER[1];
  }

  lemma TwoNamesAreLinked(entries: seq<Path>)
    ensures Linked(TwoNames(entries))
  {
    var fs := TwoNames(entries);
    forall p, q, c | SameInode(fs, p, q) && c in fs.nodes && IsChild(p, c)
      ensures HasEntry(fs, q, fs.nodes[c].id)
    {
      OuterIsNoParent(c);
    }
  }

  lemma TwoNamesIsWellFormed(entries: seq<Path>)
    requires entries == [DIR, OUTER] || entries == [OUTER, DIR]
    ensures WellFormed(TwoNames(entries))
  {
    TwoNamesNest(entries);
    TwoNamesAreLinked(entries);
    hide Nested, Linked;
    var fs := TwoNames(entries);
    forall p, c | p in fs.listing && c in fs.nodes && IsChild(p, c)
      ensures c in fs.listing[p]
    {
      assert INNER[..2] == DIR;
    }
  }

  const CLASSIFIED := [Root("events", ROOT, false, Some(ROOT))]

  /** There the order of one directory's entries decides between a measurement and none. */
  lemma EntryOrderDecidesForSharedLinks()
    ensures Reordered(TwoNames([OUTER, DIR]), CLASSIFIED, TwoNames([DIR, OUTER]), CLASSIFIED)
    ensures WellFormed(TwoNames([OUTER, DIR])) && WellFormed(TwoNames([DIR, OUTER]))
    ensures Resolved(TwoNames([OUTER, DIR]), CLASSIFIED) && !LinksAgree(TwoNames([OUTER, DIR]))
    ensures Allocated(TwoNames([OUTER, DIR]), CLASSIFIED).Some?
    ensures Allocated(TwoNames([DIR, OUTER]), CLASSIFIED).None?
  {
    TwoNamesIsWellFormed([OUTER, DIR]);
    TwoNamesIsWellFormed([DIR, OUTER]);
    OneArea();
    InnerFirst();
    OuterFirst();
    assert SameInode(TwoNames([OUTER, DIR]), OUTER, INNER);
  }

  lemma OneArea()
    ensures Areas(ByLength(CLASSIFIED)) == Some([Area("events", ROOT)])
  {
    assert CLASSIFIED[..0] == [];
    assert ByLength([]) == [];
    assert ByLength(CLASSIFIED) == Insert(CLASSIFIED[0], []) == CLASSIFIED;
    assert Areas([]) == Some([]);
    assert AddRoot([], CLASSIFIED[0]) == Some([Area("events", ROOT)]) by {
      assert CLASSIFIED[0].category in CLASSES;
      assert [] + [Area("events", ROOT)] == [Area("events", ROOT)];
    }
  }

  lemma WalkOnce(fs: Fs, pending: seq<Path>, t: Tally, pending': seq<Path>, t': Tally)
    requires pending != [] && "events" in t.amounts && "events" in t'.amounts
    requires Visit(fs, [Area("events", ROOT)], "events", 1, pending, t) == Some(Progress(pending', t'))
    ensures Walk(fs, [Area("events", ROOT)], "events", 1, pending, t)
         == Walk(fs, [Area("events", ROOT)], "events", 1, pending', t')
  {
    WalkVisits(fs, [Area("events", ROOT)], "events", 1, pending, t);
  }

  lemma InnerFirst()
    ensures Allocated(TwoNames([OUTER, DIR]), CLASSIFIED).Some?
  {
    var fs, areas := TwoNames([OUTER, DIR]), [Area("events", ROOT)];
    OneArea();
    assert LinkFits(fs, areas, INNER, "events") by {
      assert areas[0].path <= DIR;
      assert Owners(areas, DIR) == {"events"};
    }
    hide Owners, LinkFits, ByLength, Areas, Walk;
    var t0 := Nothing();
    var t1 := Count(t0, fs.nodes[ROOT], "events");
    var t2 := Count(t1, fs.nodes[DIR], "events");
    var t3 := Count(t2, fs.nodes[INNER], "events");
    assert [] + [OUTER, DIR] == [OUTER, DIR];
    assert [OUTER, DIR][..1] + [INNER] == [OUTER, INNER];
    assert [OUTER, INNER][..1] == [OUTER];
    WalkOnce(fs, [ROOT], t0, [OUTER, DIR], t1);
    WalkOnce(fs, [OUTER, DIR], t1, [OUTER, INNER], t2);
    WalkOnce(fs, [OUTER, INNER], t2, [OUTER], t3);
    WalkOnce(fs, [OUTER], t3, [], t3);
    assert Walk(fs, areas, "events", 1, [], t3) == Some(t3) by {
      WalkNothing(fs, areas, t3);
    }
    assert WalkAll(fs, areas, 0) == Some(t0);
  }

  lemma WalkNothing(fs: Fs, areas: seq<Area>, t: Tally)
    requires "events" in t.amounts
    ensures Walk(fs, areas, "events", 1, [], t) == Some(t)
  {
  }

  lemma OuterFirst()
    ensures Allocated(TwoNames([DIR, OUTER]), CLASSIFIED).None?
  {
    var fs, areas := TwoNames([DIR, OUTER]), [Area("events", ROOT)];
    OneArea();
    hide Owners, ByLength, Areas, Walk;
    var t0 := Nothing();
    var t1 := Count(t0, fs.nodes[ROOT], "events");
    assert [] + [DIR, OUTER] == [DIR, OUTER];
    WalkOnce(fs, [ROOT], t0, [DIR, OUTER], t1);
    assert !LinkFits(fs, areas, OUTER, "events");
    WalkVisits(fs, areas, "events", 1, [DIR, OUTER], t1);
    assert WalkAll(fs, areas, 0) == Some(t0);
  }
}
