/**
 The cold volume snapshot: an archive of a directory tree that passes its own validation,
 and whose restoration brings back the inventory, whatever became of the volume meanwhile.
 */
module VolumeTool {
  import opened Faults
  import opened PathOrder

  datatype Meta = Meta(uid: nat, gid: nat, mode: nat)

  datatype Entry = Dir(meta: Meta) | File(meta: Meta, content: seq<int>) | Special

  /** A directory tree; the root has the empty path. */
  type Volume = map<Path, Entry>

  /** An archive member; `unsafe` stands for a name that is absolute, climbs, or is not in normal form. */
  datatype Member = Member(path: Path, unsafe: bool, entry: Entry)

  datatype Row = Row(path: Path, entry: Entry)

  /** The digests are taken as the digested values: rows, and the archive itself. */
  datatype Inventory = Inventory(rows: seq<Row>, bytes: nat)

  datatype Expected = Expected(inventory: Inventory, archive: seq<Member>)

  // ----- Trees and their listings -----

  ghost predicate IsTree(v: Volume) {
    && [] in v && v[[]].Dir?
    && (forall p :: p in v && p != [] ==> HasParent(v, p))
  }

  ghost predicate HasParent(v: Volume, p: Path)
    requires p != []
  {
    var parent := p[..|p| - 1];
    parent in v && v[parent].Dir?
  }

  function Self(p: Path): Path {
    p
  }

  /** The root and then everything below it, sorted. */
  ghost predicate IsListing(v: Volume, listing: seq<Path>) {
    Sorted(listing, Self) && forall p :: p in listing <==> p in v
  }

  predicate Regular(v: Volume) {
    forall p :: p in v ==> !v[p].Special?
  }

  function RowsOf(v: Volume, listing: seq<Path>): (rows: seq<Row>)
    requires forall p :: p in listing ==> p in v
    ensures |rows| == |listing| && forall i :: 0 <= i < |rows| ==> rows[i] == Row(listing[i], v[listing[i]])
  {
    if listing == [] then []
    else RowsOf(v, listing[..|listing| - 1]) + [Row(listing[|listing| - 1], v[listing[|listing| - 1]])]
  }

  function Bytes(rows: seq<Row>): nat {
    if rows == [] then 0
    else
      var e := rows[|rows| - 1].entry;
      Bytes(rows[..|rows| - 1]) + if e.File? then |e.content| else 0
  }

  /** The sizes of the files add up, and nothing else counts. */
  lemma {:induction false} BytesAddUp(a: seq<Row>, b: seq<Row>)
    ensures Bytes(a + b) == Bytes(a) + Bytes(b)
    ensures |b| == 1 ==> Bytes(b) == match b[0].entry case File(_, content) => |content| case _ => 0
  {
    if b == [] {
      assert a + b == a;
    } else {
      BytesAddUp(a, b[..|b| - 1]);
      assert (a + b)[..|a + b| - 1] == a + b[..|b| - 1];
    }
  }

  function InventoryOf(v: Volume, listing: seq<Path>): Inventory
    requires forall p :: p in listing ==> p in v
  {
    Inventory(RowsOf(v, listing), Bytes(RowsOf(v, listing)))
  }

  // ----- Archives -----

  function MemberRows(members: seq<Member>): (rows: seq<Row>)
    ensures |rows| == |members| && forall i :: 0 <= i < |rows| ==> rows[i] == Row(members[i].path, members[i].entry)
  {
    if members == [] then []
    else
      var m := members[|members| - 1];
      MemberRows(members[..|members| - 1]) + [Row(m.path, m.entry)]
  }

  /** Each member is safe, named once, and comes after the directory it lies in; the root comes first. */
  ghost predicate Sound(members: seq<Member>) {
    && members != [] && members[0].path == [] && members[0].entry.Dir?
    && forall i :: 0 <= i < |members| ==> SoundAt(members, i)
  }

  ghost predicate SoundAt(members: seq<Member>, i: nat)
    requires i < |members|
  {
    var m := members[i];
    && !m.unsafe && !m.entry.Special?
    && (forall j :: 0 <= j < i ==> members[j].path != m.path)
    && (m.path != [] ==> exists j :: 0 <= j < i && members[j].entry.Dir? && members[j].path == m.path[..|m.path| - 1])
  }

  /** The tree the members describe. */
  function TreeOf(members: seq<Member>): Volume {
    if members == [] then map[]
    else
      var m := members[|members| - 1];
      TreeOf(members[..|members| - 1])[m.path := m.entry]
  }

  lemma {:induction false} TreeHolds(members: seq<Member>)
    requires forall i, j :: 0 <= i < j < |members| ==> members[i].path != members[j].path
    ensures forall p :: p in TreeOf(members) <==> exists i :: 0 <= i < |members| && members[i].path == p
    ensures forall i :: 0 <= i < |members| ==> TreeOf(members)[members[i].path] == members[i].entry
  {
    if members != [] {
      var front := members[..|members| - 1];
      TreeHolds(front);
      assert forall i :: 0 <= i < |front| ==> front[i] == members[i];
      forall p
        ensures p in TreeOf(members) <==> exists i :: 0 <= i < |members| && members[i].path == p
      {
        if p in TreeOf(front) {
          var i :| 0 <= i < |front| && front[i].path == p;
          assert members[i].path == p;
        }
      }
    }
  }

  function MembersOf(rows: seq<Row>): (members: seq<Member>)
    ensures |members| == |rows|
    ensures forall i :: 0 <= i < |rows| ==> members[i] == Member(rows[i].path, false, rows[i].entry)
  {
    if rows == [] then []
    else
      var row := rows[|rows| - 1];
      MembersOf(rows[..|rows| - 1]) + [Member(row.path, false, row.entry)]
  }

  /** One member per listed path, holding what the volume holds there. */
  ghost predicate Mirrors(members: seq<Member>, v: Volume, listing: seq<Path>) {
    && |members| == |listing|
    && forall i :: 0 <= i < |listing| ==> listing[i] in v && members[i] == Member(listing[i], false, v[listing[i]])
  }

  lemma ArchiveMirrors(v: Volume, listing: seq<Path>)
    requires IsListing(v, listing)
    ensures forall p :: p in listing ==> p in v
    ensures Mirrors(MembersOf(RowsOf(v, listing)), v, listing)
  {
    assert forall i :: 0 <= i < |listing| ==> listing[i] in listing;
  }

  lemma InOrder(listing: seq<Path>, i: nat, j: nat)
    requires Sorted(listing, Self) && i < j < |listing|
    ensures Before(listing[i], listing[j]) && listing[i] != listing[j]
  {
    assert Before(Self(listing[i]), Self(listing[j]));
    LessIsAsymmetric(Key(listing[i]), Key(listing[j]));
  }

  lemma RootIsFirst(v: Volume, listing: seq<Path>)
    requires IsTree(v) && IsListing(v, listing)
    ensures listing != [] && listing[0] == []
  {
    assert [] in listing;
    forall j | 0 < j < |listing|
      ensures listing[j] != []
    {
      InOrder(listing, 0, j);
    }
  }

  lemma ParentComesFirst(v: Volume, listing: seq<Path>, i: nat) returns (j: nat)
    requires IsTree(v) && IsListing(v, listing) && i < |listing| && listing[i] != []
    ensures j < i && listing[j] == listing[i][..|listing[i]| - 1] && listing[j] in v && v[listing[j]].Dir?
  {
    var p := listing[i];
    assert p in listing;
    var parent := p[..|p| - 1];
    assert HasParent(v, p) && parent in listing && |parent| != |p|;
    hide IsTree;
    j :| 0 <= j < |listing| && listing[j] == parent;
    ParentIsBefore(p);
    if i < j {
      InOrder(listing, i, j);
      LessIsAsymmetric(Key(p), Key(parent));
    }
  }

  /** The archive of any tree of regular files and directories passes validation. */
  lemma ArchiveIsSound(v: Volume, listing: seq<Path>)
    requires IsTree(v) && Regular(v) && IsListing(v, listing)
    ensures forall p :: p in listing ==> p in v
    ensures Sound(MembersOf(RowsOf(v, listing)))
  {
    ArchiveMirrors(v, listing);
    hide RowsOf, MembersOf;
    var members := MembersOf(RowsOf(v, listing));
    RootIsFirst(v, listing);
    assert members[0].path == [] && members[0].entry.Dir?;
    hide IsTree, IsListing, Regular, SoundAt, Mirrors;
    forall i | 0 <= i < |members|
      ensures SoundAt(members, i)
    {
      MemberIsSound(v, listing, members, i);
    }
  }

  lemma MemberIsSound(v: Volume, listing: seq<Path>, members: seq<Member>, i: nat)
    requires IsTree(v) && Regular(v) && IsListing(v, listing) && Mirrors(members, v, listing) && i < |members|
    ensures SoundAt(members, i)
  {
    var p := listing[i];
    assert p in v && !v[p].Special?;
    forall j | 0 <= j < i
      ensures members[j].path != p
    {
      InOrder(listing, j, i);
    }
    if p != [] {
      var j := ParentComesFirst(v, listing, i);
      hide IsTree, IsListing, Regular;
      assert members[j].path == p[..|p| - 1] && members[j].entry.Dir?;
    }
  }

  /** The archive describes the tree it was made of. */
  lemma ArchiveIsTheTree(v: Volume, listing: seq<Path>)
    requires IsListing(v, listing)
    ensures forall p :: p in listing ==> p in v
    ensures TreeOf(MembersOf(RowsOf(v, listing))) == v
  {
    ArchiveMirrors(v, listing);
    hide RowsOf, MembersOf;
    MirrorIsTheTree(v, listing, MembersOf(RowsOf(v, listing)));
  }

  lemma MirrorIsTheTree(v: Volume, listing: seq<Path>, members: seq<Member>)
    requires IsListing(v, listing) && Mirrors(members, v, listing)
    ensures TreeOf(members) == v
  {
    forall i, j | 0 <= i < j < |members|
      ensures members[i].path != members[j].path
    {
      InOrder(listing, i, j);
    }
    TreeHolds(members);
    hide TreeOf, Sorted;
    var t := TreeOf(members);
    forall p
      ensures p in t <==> p in v
      ensures p in t && p in v ==> t[p] == v[p]
    {
      if p in v {
        assert p in listing;
        var i :| 0 <= i < |listing| && listing[i] == p;
        assert members[i].path == p;
      }
      if p in t {
        var i :| 0 <= i < |members| && members[i].path == p;
        assert listing[i] in listing;
      }
    }
  }

  /** The rows of a sorted listing determine the tree. */
  lemma EqualRows(v: Volume, a: seq<Path>, w: Volume, b: seq<Path>)
    requires IsListing(v, a) && IsListing(w, b)
    ensures RowsOf(v, a) == RowsOf(w, b) <==> v == w
  {
    if v == w {
      ListingOfEqualTrees(v, a, b);
    } else if RowsOf(v, a) == RowsOf(w, b) {
      ArchiveIsTheTree(v, a);
      ArchiveIsTheTree(w, b);
    }
  }

  lemma RowsOfMembers(rows: seq<Row>)
    ensures MemberRows(MembersOf(rows)) == rows
  {
  }

  lemma ListingOfEqualTrees(v: Volume, a: seq<Path>, b: seq<Path>)
    requires IsListing(v, a) && IsListing(v, b)
    ensures a == b
  {
    SortedListingIsUnique(a, b, Self);
  }

  // ----- The tool -----

  lemma RootMember(members: seq<Member>)
    requires Sound(members)
    ensures members != [] && members[0].path == []
  {
  }

  datatype Failure = Unsupported | NoSpace | Exists | Changed | Integrity | Unsafe | Differs | Killed

  /** `validate`: the members in order, then their rows. */
  method Validate(members: seq<Member>, expected: Inventory) returns (failure: Option<Failure>)
    ensures failure.None? <==>
              Sound(members) && MemberRows(members) == expected.rows && Bytes(expected.rows) == expected.bytes
  {
    var seen: map<Path, bool> := map[];
    for i := 0 to |members|
      invariant forall j :: 0 <= j < i ==> SoundAt(members, j)
      invariant forall j :: 0 <= j < i ==> members[j].path in seen && seen[members[j].path] == members[j].entry.Dir?
      invariant forall p :: p in seen ==> exists j :: 0 <= j < i && members[j].path == p
    {
      var m := members[i];
      if m.path in seen || m.unsafe || m.entry.Special? {
        assert !SoundAt(members, i);
        return Some(Unsafe);
      }
      if m.path != [] && !(m.path[..|m.path| - 1] in seen && seen[m.path[..|m.path| - 1]]) {
        assert !SoundAt(members, i);
        return Some(Unsafe);
      }
      seen := seen[m.path := m.entry.Dir?];
    }
    if members == [] || members[0].path != [] || !members[0].entry.Dir? {
      return Some(Unsafe);
    }
    var rows := MemberRows(members);
    if rows != expected.rows || Bytes(rows) != expected.bytes {
      return Some(Differs);
    }
    return None;
  }

  /** What a snapshot that succeeded promises of its archive. */
  ghost predicate Fits(expected: Expected, listing: seq<Path>) {
    && Sound(expected.archive) && IsListing(TreeOf(expected.archive), listing)
    && expected.inventory == InventoryOf(TreeOf(expected.archive), listing)
    && MemberRows(expected.archive) == expected.inventory.rows
  }

  class Tool {
    var volume: Volume
    var archive: Option<seq<Member>>

    constructor (volume: Volume)
      ensures this.volume == volume && archive.None?
    {
      this.volume, archive := volume, None;
    }

    /**
     `snapshot`: the volume as the first inventory, the archive and the second inventory read it.
     Only the first is the tool's own; the others differ when somebody wrote meanwhile.
     */
    method Snapshot(listing: seq<Path>, archived: Volume, archivedListing: seq<Path>, after: Volume,
                    afterListing: seq<Path>, space: bool)
      returns (expected: Option<Expected>, failure: Option<Failure>)
      requires IsTree(volume) && IsListing(volume, listing)
      requires IsListing(archived, archivedListing) && IsListing(after, afterListing)
      modifies `archive
      ensures expected.Some? <==> failure.None?
      ensures expected.Some? ==> Regular(volume) && archive == Some(expected.value.archive)
      ensures expected.Some? ==>
                expected.value == Expected(InventoryOf(volume, listing), MembersOf(RowsOf(volume, listing)))
      ensures expected.None? && old(archive).Some? ==> archive == old(archive)
      // it succeeds exactly when nobody wrote between the two inventories
      ensures expected.Some? <==> Regular(volume) && space && old(archive).None? && archived == volume == after
    {
      expected, failure := None, None;
      if !Regular(volume) {
        return None, Some(Unsupported);
      }
      var before := InventoryOf(volume, listing);
      if !space {
        return None, Some(NoSpace);
      }
      if archive.Some? {
        return None, Some(Exists);
      }
      var members := MembersOf(RowsOf(archived, archivedListing));
      archive := Some(members);
      EqualRows(volume, listing, after, afterListing);
      EqualRows(volume, listing, archived, archivedListing);
      if !Regular(after) || InventoryOf(after, afterListing) != before {
        return None, Some(Changed);
      }
      RowsOfMembers(RowsOf(archived, archivedListing));
      failure := Validate(members, before);
      if archived == volume == after {
        ArchiveIsSound(volume, listing);
      }
      if failure.Some? {
        return None, failure;
      }
      expected := Some(Expected(before, members));
    }

    /** Empties the volume but for its root. */
    method Empty()
      modifies `volume
      ensures volume == map p | p in old(volume) && p == [] :: old(volume)[p]
    {
      volume := map p | p in volume && p == [] :: volume[p];
    }

    /** `restore`; the process may be killed after any number of extracted members. */
    method Restore(expected: Expected, listing: seq<Path>, killedAfter: Option<nat>) returns (failure: Option<Failure>)
      requires [] in volume
      requires IsListing(TreeOf(expected.archive), listing)
      modifies `volume
      ensures failure.None? ==> volume == TreeOf(expected.archive) && InventoryOf(volume, listing) == expected.inventory
      ensures failure == Some(Integrity) || failure == Some(Unsafe) ==> volume == old(volume)
      ensures archive != Some(expected.archive) ==> failure == Some(Integrity)
      ensures killedAfter.None? && archive == Some(expected.archive) && Fits(expected, listing) ==> failure.None?
      ensures [] in volume
    {
      hide Sound, RowsOf, MemberRows, TreeOf, Bytes, Sorted;
      if archive != Some(expected.archive) {
        return Some(Integrity);
      }
      var members := archive.value;
      failure := Validate(members, expected.inventory);
      if failure.Some? {
        return;
      }
      RootMember(members);
      Empty();
      var killed := Extract(members, killedAfter);
      if killed {
        return Some(Killed);
      }
      if InventoryOf(volume, listing) != expected.inventory {
        return Some(Differs);
      }
    }

    /** `extractall` into a volume that holds nothing but its root. */
    method Extract(members: seq<Member>, killedAfter: Option<nat>) returns (killed: bool)
      requires members != [] && members[0].path == []
      requires [] in volume && forall p :: p in volume ==> p == []
      modifies `volume
      ensures [] in volume
      ensures !killed ==> volume == TreeOf(members)
      ensures killedAfter.None? ==> !killed
    {
      for i := 0 to |members|
        invariant [] in volume
        invariant i == 0 ==> forall p :: p in volume ==> p == []
        invariant i > 0 ==> volume == TreeOf(members[..i])
      {
        if killedAfter == Some(i) {
          return true;
        }
        assert members[..i + 1][..i] == members[..i];
        assert i == 0 ==> TreeOf(members[..1]) == volume[[] := members[0].entry];
        volume := volume[members[i].path := members[i].entry];
      }
      assert members[..|members|] == members;
      return false;
    }

    /** A snapshot, any changes at all, a restoration killed anywhere, and one that is not: the tree is back. */
    method RoundTrip(listing: seq<Path>, changed: Volume, killedAfter: Option<nat>) returns (expected: Expected)
      requires IsTree(volume) && Regular(volume) && IsListing(volume, listing) && archive.None? && [] in changed
      modifies this
      ensures volume == old(volume)
      ensures expected.inventory == InventoryOf(old(volume), listing)
    {
      ghost var original := volume;
      var snapshot, failure := Snapshot(listing, volume, listing, volume, listing, true);
      expected := snapshot.value;
      ArchiveIsSound(original, listing);
      ArchiveIsTheTree(original, listing);
      RowsOfMembers(RowsOf(original, listing));
      hide Sound, RowsOf, MembersOf, MemberRows, TreeOf, Bytes, IsListing, IsTree, Regular;
      assert Fits(expected, listing);
      volume := changed;
      failure := Restore(expected, listing, killedAfter);
      failure := Restore(expected, listing, None);
    }
  }
}
