/**
 Artifact retention: which built artifacts a build or a prune removes, and that the
 material a rollback needs is never among them.
 */
module Retention {
  import opened Faults

  type Id = string

  datatype Kind = ArchiveKind | BundleKind

  type Keep = map<Id, set<Kind>>

  /** What lies in one artifact directory. */
  datatype Files = Files(build: bool, temps: seq<string>, archive: bool, bundle: bool)

  datatype Item =
    | ArtifactSet(id: Id)
    | BuildDir(id: Id)
    | Temp(id: Id, name: string)
    | Archive(id: Id)
    | AppBackup(name: string)
    | Snapshot(operation: string)

  datatype Tag = Tag(manifest: Id, component: string)

  const COMPONENTS: set<string> := {
    "backend", "processing-worker", "maintenance", "media-worker", "migration", "temporal", "database",
    "storage", "storage-init"
  }

  datatype Manifest = Manifest(id: Id, ready: bool, valid: bool)

  datatype Active = Active(id: Id, parent: Option<Id>)

  // ----- The policy -----

  function Keeping(keep: Keep, id: Id, kinds: set<Kind>): Keep {
    keep[id := kinds + if id in keep then keep[id] else {}]
  }

  function KeepAll(keep: Keep, extra: seq<Id>): Keep {
    if extra == [] then keep else Keeping(KeepAll(keep, extra[..|extra| - 1]), extra[|extra| - 1], {BundleKind})
  }

  /** `_retention_keep`. */
  function RetentionKeep(active: Option<Id>, target: Option<Id>, extra: seq<Id>): Keep {
    var k0: Keep := map[];
    var k1 := if active.Some? then Keeping(k0, active.value, {BundleKind}) else k0;
    var k2 := if target.Some? then Keeping(k1, target.value, {ArchiveKind, BundleKind}) else k1;
    KeepAll(k2, extra)
  }

  ghost predicate Wider(a: Keep, b: Keep) {
    forall id :: id in a ==> id in b && a[id] <= b[id]
  }

  lemma {:induction false} KeepAllIsWider(keep: Keep, extra: seq<Id>)
    ensures Wider(keep, KeepAll(keep, extra))
    ensures forall id :: id in extra ==> id in KeepAll(keep, extra) && BundleKind in KeepAll(keep, extra)[id]
  {
    if extra != [] {
      KeepAllIsWider(keep, extra[..|extra| - 1]);
      assert forall id :: id in extra ==> id in extra[..|extra| - 1] || id == extra[|extra| - 1];
    }
  }

  /** The policy keeps the app of the active manifest, everything of the target, and every extra candidate. */
  lemma KeepsWhatIsNeeded(active: Option<Id>, target: Option<Id>, extra: seq<Id>)
    ensures
      var keep := RetentionKeep(active, target, extra);
      && (active.Some? ==> active.value in keep && BundleKind in keep[active.value])
      && (target.Some? ==> target.value in keep && {ArchiveKind, BundleKind} <= keep[target.value])
      && (forall id :: id in extra ==> id in keep && BundleKind in keep[id])
  {
    var k0: Keep := map[];
    var k1 := if active.Some? then Keeping(k0, active.value, {BundleKind}) else k0;
    var k2 := if target.Some? then Keeping(k1, target.value, {ArchiveKind, BundleKind}) else k1;
    KeepAllIsWider(k2, extra);
  }

  lemma {:induction false} KeepAllKeys(keep: Keep, extra: seq<Id>)
    ensures forall id :: id in KeepAll(keep, extra) <==> id in keep || id in extra
    ensures forall id :: id in KeepAll(keep, extra) && ArchiveKind in KeepAll(keep, extra)[id] ==>
              id in keep && ArchiveKind in keep[id]
  {
    if extra != [] {
      KeepAllKeys(keep, extra[..|extra| - 1]);
      assert forall id :: id in extra <==> id in extra[..|extra| - 1] || id == extra[|extra| - 1];
    }
  }

  /**
   Nothing else is kept: no other directory, and no archive but the target's. So a build, whose only
   extra candidate is its own, drops every other candidate still waiting for promotion.
   */
  lemma KeepsNothingElse(active: Option<Id>, target: Option<Id>, extra: seq<Id>, id: Id)
    ensures
      var keep := RetentionKeep(active, target, extra);
      && (id in keep <==> active == Some(id) || target == Some(id) || id in extra)
      && (id in keep && ArchiveKind in keep[id] <==> target == Some(id))
  {
    var k0: Keep := map[];
    var k1 := if active.Some? then Keeping(k0, active.value, {BundleKind}) else k0;
    var k2 := if target.Some? then Keeping(k1, target.value, {ArchiveKind, BundleKind}) else k1;
    KeepAllKeys(k2, extra);
    KeepAllIsWider(k2, extra);
  }

  // ----- One artifact directory -----

  function TempItems(id: Id, temps: seq<string>): (items: seq<Item>)
    ensures items == [] <==> temps == []
  {
    if temps == [] then [] else TempItems(id, temps[..|temps| - 1]) + [Temp(id, temps[|temps| - 1])]
  }

  function Stale(keep: Keep, id: Id, files: Files): seq<Item> {
    if id !in keep then [ArtifactSet(id)]
    else
      (if files.build then [BuildDir(id)] else [])
      + TempItems(id, files.temps)
      + (if files.archive && ArchiveKind !in keep[id] then [Archive(id)] else [])
  }

  function Trimmed(keep: Keep, id: Id, files: Files): Option<Files> {
    if id !in keep then None else Some(Files(false, [], files.archive && ArchiveKind in keep[id], files.bundle))
  }

  function StaleIn(keep: Keep, artifacts: map<Id, Files>, children: seq<Id>): seq<Item>
    requires forall id :: id in children ==> id in artifacts
  {
    if children == [] then []
    else
      var id := children[|children| - 1];
      StaleIn(keep, artifacts, children[..|children| - 1]) + Stale(keep, id, artifacts[id])
  }

  lemma NothingStale(keep: Keep, artifacts: map<Id, Files>)
    ensures StaleIn(keep, artifacts, []) == []
  {
  }

  lemma StaleNext(keep: Keep, artifacts: map<Id, Files>, children: seq<Id>, i: nat)
    requires i < |children| && forall id :: id in children ==> id in artifacts
    ensures StaleIn(keep, artifacts, children[..i + 1])
         == StaleIn(keep, artifacts, children[..i]) + Stale(keep, children[i], artifacts[children[i]])
  {
    hide Stale;
    assert children[..i + 1][..i] == children[..i];
  }

  function Backups(names: seq<string>): (items: seq<Item>)
    ensures items == [] <==> names == []
  {
    if names == [] then [] else Backups(names[..|names| - 1]) + [AppBackup(names[|names| - 1])]
  }

  function Snapshots(operations: seq<string>, keep: Option<string>): seq<Item> {
    if operations == [] then []
    else
      var last := operations[|operations| - 1];
      Snapshots(operations[..|operations| - 1], keep) + if Some(last) == keep then [] else [Snapshot(last)]
  }

  function Staying(operations: seq<string>, keep: Option<string>): seq<string> {
    if operations == [] then []
    else
      var last := operations[|operations| - 1];
      Staying(operations[..|operations| - 1], keep) + if Some(last) == keep then [last] else []
  }

  function AfterTrim(keep: Keep, artifacts: map<Id, Files>): map<Id, Files> {
    map id | id in artifacts && id in keep :: Trimmed(keep, id, artifacts[id]).value
  }

  /** The artifact directories when those in `done` have been visited. */
  ghost function SoFar(keep: Keep, artifacts: map<Id, Files>, done: set<Id>): map<Id, Files> {
    map id | id in artifacts && (id in keep || id !in done) ::
      if id in done then Trimmed(keep, id, artifacts[id]).value else artifacts[id]
  }

  lemma SoFarNext(keep: Keep, artifacts: map<Id, Files>, done: set<Id>, id: Id)
    requires id in artifacts && id !in done
    ensures id in SoFar(keep, artifacts, done) && SoFar(keep, artifacts, done)[id] == artifacts[id]
    ensures
      var before, left := SoFar(keep, artifacts, done), Trimmed(keep, id, artifacts[id]);
      SoFar(keep, artifacts, done + {id}) == if left.Some? then before[id := left.value] else before - {id}
  {
  }

  lemma SoFarFacts(keep: Keep, artifacts: map<Id, Files>, done: set<Id>)
    ensures done == {} ==> SoFar(keep, artifacts, done) == artifacts
    ensures done == artifacts.Keys ==> SoFar(keep, artifacts, done) == AfterTrim(keep, artifacts)
    ensures
      var after := SoFar(keep, artifacts, done);
      forall id :: id in artifacts && id in keep ==>
        id in after && (after[id] == artifacts[id] || Some(after[id]) == Trimmed(keep, id, artifacts[id]))
  {
  }

  function OwnedTags(removed: set<Id>): set<Tag> {
    set id, c | id in removed && c in COMPONENTS :: Tag(id, c)
  }

  // ----- What is listed is what goes -----

  /** Everything retention looks after, at one moment. */
  datatype Contents = Contents(artifacts: map<Id, Files>, backups: seq<string>, snapshots: seq<string>)

  /** The item is there before and not after. */
  ghost predicate Goes(item: Item, before: Contents, after: Contents) {
    match item
    case ArtifactSet(id) => id in before.artifacts && id !in after.artifacts
    case BuildDir(id) =>
      && id in before.artifacts && id in after.artifacts
      && before.artifacts[id].build && !after.artifacts[id].build
    case Temp(id, name) =>
      && id in before.artifacts && id in after.artifacts
      && name in before.artifacts[id].temps && name !in after.artifacts[id].temps
    case Archive(id) =>
      && id in before.artifacts && id in after.artifacts
      && before.artifacts[id].archive && !after.artifacts[id].archive
    case AppBackup(name) => name in before.backups && name !in after.backups
    case Snapshot(operation) => operation in before.snapshots && operation !in after.snapshots
  }

  /** The list names exactly what goes: a directory as a whole, or what goes inside one that stays. */
  ghost predicate Lists(removed: seq<Item>, before: Contents, after: Contents) {
    forall item :: item in removed <==> Goes(item, before, after)
  }

  lemma {:induction false} TempsListed(id: Id, temps: seq<string>, item: Item)
    ensures item in TempItems(id, temps) <==> item.Temp? && item.id == id && item.name in temps
  {
    if temps != [] {
      TempsListed(id, temps[..|temps| - 1], item);
      assert forall name :: name in temps <==> name in temps[..|temps| - 1] || name == temps[|temps| - 1];
    }
  }

  lemma {:induction false} BackupsListed(names: seq<string>, item: Item)
    ensures item in Backups(names) <==> item.AppBackup? && item.name in names
  {
    if names != [] {
      BackupsListed(names[..|names| - 1], item);
      assert forall name :: name in names <==> name in names[..|names| - 1] || name == names[|names| - 1];
    }
  }

  lemma {:induction false} SnapshotsListed(operations: seq<string>, keep: Option<string>, item: Item)
    ensures item in Snapshots(operations, keep)
       <==> item.Snapshot? && item.operation in operations && Some(item.operation) != keep
  {
    if operations != [] {
      SnapshotsListed(operations[..|operations| - 1], keep, item);
      assert forall o :: o in operations <==> o in operations[..|operations| - 1] || o == operations[|operations| - 1];
    }
  }

  ghost predicate IsFile(item: Item) {
    item.ArtifactSet? || item.BuildDir? || item.Temp? || item.Archive?
  }

  lemma {:induction false} StaleInOneOf(keep: Keep, artifacts: map<Id, Files>, children: seq<Id>, item: Item)
    requires forall id :: id in children ==> id in artifacts
    ensures item in StaleIn(keep, artifacts, children) ==> IsFile(item) && item.id in children
    ensures IsFile(item) && item.id in children ==>
              (item in StaleIn(keep, artifacts, children) <==> item in Stale(keep, item.id, artifacts[item.id]))
  {
    if children != [] {
      hide Stale;
      var front, last := children[..|children| - 1], children[|children| - 1];
      StaleInOneOf(keep, artifacts, front, item);
      assert forall id :: id in children <==> id in front || id == last;
      StaleNamesOne(keep, last, artifacts[last], item);
    }
  }

  lemma StaleNamesOne(keep: Keep, id: Id, files: Files, item: Item)
    ensures item in Stale(keep, id, files) ==> IsFile(item) && item.id == id
  {
    TempsListed(id, files.temps, item);
  }

  lemma StaleGoes(keep: Keep, before: Contents, after: Contents, item: Item)
    requires after.artifacts == AfterTrim(keep, before.artifacts)
    requires IsFile(item) && item.id in before.artifacts
    ensures item in Stale(keep, item.id, before.artifacts[item.id]) <==> Goes(item, before, after)
  {
    TempsListed(item.id, before.artifacts[item.id].temps, item);
  }

  /** What retention lists is exactly what it leaves out. */
  lemma ListsWhatGoes(keep: Keep, before: Contents, children: seq<Id>, operation: Option<string>, removed: seq<Item>)
    requires forall id :: id in children <==> id in before.artifacts
    requires removed == StaleIn(keep, before.artifacts, children) + Backups(before.backups)
                        + Snapshots(before.snapshots, operation)
    ensures Lists(removed, before,
                  Contents(AfterTrim(keep, before.artifacts), [], Staying(before.snapshots, operation)))
  {
    var after := Contents(AfterTrim(keep, before.artifacts), [], Staying(before.snapshots, operation));
    hide StaleIn, Stale, AfterTrim, Backups, Snapshots, Staying;
    forall item
      ensures item in removed <==> Goes(item, before, after)
    {
      StaleInOneOf(keep, before.artifacts, children, item);
      BackupsListed(before.backups, item);
      SnapshotsListed(before.snapshots, operation, item);
      StayingIsKept(before.snapshots, operation);
      if IsFile(item) && item.id in before.artifacts {
        StaleGoes(keep, before, after, item);
      }
    }
  }

  // ----- A second run has nothing to do -----

  lemma {:induction false} TrimmedIsClean(keep: Keep, artifacts: map<Id, Files>, children: seq<Id>)
    requires forall id :: id in children ==> id in AfterTrim(keep, artifacts)
    ensures StaleIn(keep, AfterTrim(keep, artifacts), children) == []
  {
    if children != [] {
      TrimmedIsClean(keep, artifacts, children[..|children| - 1]);
      var id := children[|children| - 1];
      assert id in AfterTrim(keep, artifacts);
      assert Stale(keep, id, AfterTrim(keep, artifacts)[id]) == [];
    }
  }

  lemma {:induction false} StayingIsKept(operations: seq<string>, keep: Option<string>)
    ensures Snapshots(Staying(operations, keep), keep) == []
    ensures forall o :: o in Staying(operations, keep) <==> o in operations && Some(o) == keep
  {
    if operations != [] {
      var front, last := operations[..|operations| - 1], operations[|operations| - 1];
      StayingIsKept(front, keep);
      if Some(last) == keep {
        var all := Staying(front, keep) + [last];
        assert all[..|all| - 1] == Staying(front, keep);
        assert Snapshots(all, keep) == Snapshots(Staying(front, keep), keep) + [];
      } else {
        assert Staying(front, keep) + [] == Staying(front, keep);
      }
      assert forall o :: o in operations <==> o in front || o == last;
    }
  }

  // ----- The store -----

  datatype Outcome = Blocked | Refused | Stopped | Done(tagsLeft: set<Tag>)

  class Store {
    var artifacts: map<Id, Files>
    var backups: seq<string>
    var snapshots: seq<string>
    /** Tags named by the last prune receipt as not removed. */
    var backlog: set<Tag>
    var manifests: map<Id, Manifest>
    var active: Option<Active>
    /** A pending ordinary receipt. */
    var ordinary: bool
    /** The operation of an unfinished schema transition. */
    var schema: Option<string>
    var rollbackRequired: bool
    /** Whether image tags belong to the repository-global state. */
    const global: bool

    constructor (global: bool)
      ensures this.global == global && artifacts == map[] && active.None?
    {
      this.global := global;
      artifacts, backups, snapshots, backlog, manifests := map[], [], [], {}, map[];
      active, ordinary, schema, rollbackRequired := None, false, None, false;
    }

    /** The parent of the active manifest, if it is there and intact. */
    function Target(): Option<Id>
      reads `manifests, `active
    {
      if active.None? || active.value.parent.None? then None
      else
        var id := active.value.parent.value;
        if id in manifests && manifests[id].valid && manifests[id].id == id then Some(id) else None
    }

    /** The manifest the active one was built upon, intact and filed under its own identifier. */
    ghost predicate IsParent(id: Id)
      reads `manifests, `active
    {
      && active.Some? && active.value.parent == Some(id)
      && id in manifests && manifests[id].valid && manifests[id].id == id
    }

    lemma TargetIsTheParent(id: Id)
      ensures Target() == Some(id) <==> IsParent(id)
      ensures TargetBlocked() <==> active.Some? && active.value.parent.Some? && !IsParent(active.value.parent.value)
    {
    }

    /** There is a parent, but it cannot be used. */
    predicate TargetBlocked()
      reads `manifests, `active
    {
      active.Some? && active.value.parent.Some? && Target().None?
    }

    predicate IsPending(id: Id)
      reads `manifests, `active
    {
      id in manifests && manifests[id].ready && (active.Some? ==> id != active.value.id)
    }

    function ActiveId(): Option<Id>
      reads `active
    {
      if active.Some? then Some(active.value.id) else None
    }

    /** The app of the active manifest is there. */
    ghost predicate AppReady()
      reads `artifacts, `active
    {
      active.Some? && active.value.id in artifacts && artifacts[active.value.id].bundle
    }

    /** Everything a rollback to `id` needs is there. */
    ghost predicate RollbackReady(id: Id)
      reads `artifacts
    {
      id in artifacts && artifacts[id].bundle && artifacts[id].archive
    }

    /** The loop over artifact directories; it may fail before the directory at position `stop`. */
    method Trim(keep: Keep, children: seq<Id>, dryRun: bool, stop: Option<nat>)
      returns (removed: seq<Item>, gone: set<Id>, stopped: bool)
      requires forall id :: id in children <==> id in artifacts
      requires forall i, j :: 0 <= i < j < |children| ==> children[i] != children[j]
      modifies `artifacts
      ensures dryRun ==> artifacts == old(artifacts)
      ensures forall id :: id in old(artifacts) && id in keep ==>
        id in artifacts
        && (artifacts[id] == old(artifacts)[id] || Some(artifacts[id]) == Trimmed(keep, id, old(artifacts)[id]))
      ensures !stopped && !dryRun ==> artifacts == AfterTrim(keep, old(artifacts))
      ensures !stopped ==> removed == StaleIn(keep, old(artifacts), children) && gone == old(artifacts).Keys - keep.Keys
      ensures stop.None? ==> !stopped
    {
      hide Stale, StaleIn, Trimmed, SoFar, AfterTrim;
      NothingStale(keep, artifacts);
      ghost var before, done := artifacts, {};
      removed, gone := [], {};
      SoFarFacts(keep, before, {});
      for i := 0 to |children|
        invariant forall id :: id in done <==> id in children[..i]
        invariant removed == StaleIn(keep, before, children[..i])
        invariant artifacts == if dryRun then before else SoFar(keep, before, done)
        invariant gone == done - keep.Keys
      {
        var id := children[i];
        assert children[..i + 1] == children[..i] + [id];
        assert id !in children[..i] && id in children;
        if stop == Some(i) {
          SoFarFacts(keep, before, done);
          return removed, gone, true;
        }
        SoFarNext(keep, before, done, id);
        StaleNext(keep, before, children, i);
        removed := removed + Stale(keep, id, artifacts[id]);
        if id !in keep {
          gone := gone + {id};
        }
        if !dryRun {
          var left := Trimmed(keep, id, artifacts[id]);
          artifacts := if left.Some? then artifacts[id := left.value] else artifacts - {id};
        }
        done := done + {id};
      }
      assert children[..|children|] == children;
      assert done == before.Keys;
      SoFarFacts(keep, before, done);
      return removed, gone, false;
    }

    /**
     `_apply_retention`, over the sorted directory listing `children`. Removing a directory may fail before
     the one at position `stop`; removing a tag fails for the tags in `failing`.
     */
    method ApplyRetention(extra: seq<Id>, children: seq<Id>, dryRun: bool, stop: Option<nat>, failing: set<Tag>)
      returns (removed: seq<Item>, tags: set<Tag>, outcome: Outcome)
      requires forall id :: id in children <==> id in artifacts
      requires forall i, j :: 0 <= i < j < |children| ==> children[i] != children[j]
      modifies `artifacts, `backups
      ensures outcome == Refused <==> ordinary
      ensures outcome == Refused ==> removed == [] && tags == {}
      ensures outcome == Refused || dryRun ==> artifacts == old(artifacts) && backups == old(backups)
      ensures
        var keep := RetentionKeep(ActiveId(), Target(), extra);
        forall id :: id in old(artifacts) && id in keep ==>
          id in artifacts
          && (artifacts[id] == old(artifacts)[id] || Some(artifacts[id]) == Trimmed(keep, id, old(artifacts)[id]))
      ensures outcome.Done? ==>
        removed == StaleIn(RetentionKeep(ActiveId(), Target(), extra), old(artifacts), children) + Backups(old(backups))
      ensures outcome.Done? && !dryRun ==>
        artifacts == AfterTrim(RetentionKeep(ActiveId(), Target(), extra), old(artifacts)) && backups == []
      ensures outcome.Done? && (active.None? || global) ==> tags == {} && outcome.tagsLeft == {}
      ensures outcome.Done? && active.Some? && !global ==>
        TagsHandled(old(artifacts).Keys - RetentionKeep(ActiveId(), Target(), extra).Keys,
                    dryRun, failing, tags, outcome.tagsLeft)
      ensures !ordinary && stop.None? ==> outcome.Done?
      ensures outcome != Blocked
    {
      hide RetentionKeep, OwnedTags, StaleIn, AfterTrim, Trimmed, Target, Backups;
      if ordinary {
        return [], {}, Refused;
      }
      var gone, stopped;
      removed, gone, stopped := Trim(RetentionKeep(ActiveId(), Target(), extra), children, dryRun, stop);
      if stopped {
        return removed, {}, Stopped;
      }
      removed := removed + Backups(backups);
      if !dryRun {
        backups := [];
      }
      var owned := OwnedTags(gone) + backlog;
      if active.None? || global {
        return removed, {}, Done({});
      }
      if dryRun {
        return removed, owned, Done({});
      }
      return removed, owned - failing, Done(owned * failing);
    }

    /** Every tag of a removed manifest, and every tag left over, is removed or reported as left. */
    ghost predicate TagsHandled(gone: set<Id>, dryRun: bool, failing: set<Tag>, tags: set<Tag>, left: set<Tag>)
      reads `backlog
    {
      var owned := OwnedTags(gone) + backlog;
      if dryRun then tags == owned && left == {} else tags == owned - failing && left == owned * failing
    }

    /** Everything a prune would remove now, but for image tags. */
    ghost function Plan(extra: seq<Id>, children: seq<Id>): seq<Item>
      requires forall id :: id in children ==> id in artifacts
      reads this
    {
      StaleIn(RetentionKeep(ActiveId(), Target(), extra), artifacts, children)
      + Backups(backups) + Snapshots(snapshots, schema)
    }

    function Contains(): Contents
      reads `artifacts, `backups, `snapshots
    {
      Contents(artifacts, backups, snapshots)
    }

    /** What a prune leaves that is not a dry run and does not stop. */
    ghost function Pruned(pending: seq<Id>): Contents
      reads `artifacts, `snapshots, `manifests, `active, `schema
    {
      Contents(AfterTrim(RetentionKeep(ActiveId(), Target(), pending), artifacts), [], Staying(snapshots, schema))
    }

    /** The candidates built and not yet promoted, as the manifest directory lists them. */
    ghost predicate ArePending(pending: seq<Id>)
      reads `manifests, `active
    {
      forall id :: id in pending <==> IsPending(id)
    }

    /** The image tags of what goes, and those left over before. */
    ghost predicate IsOwned(tag: Tag, pending: seq<Id>)
      reads this
    {
      || tag in backlog
      || (tag.manifest in artifacts && tag.manifest !in Pruned(pending).artifacts && tag.component in COMPONENTS)
    }

    lemma TagsAreOwned(pending: seq<Id>, dryRun: bool, failing: set<Tag>)
      ensures forall tags, left |
                TagsHandled(
                  artifacts.Keys - RetentionKeep(ActiveId(), Target(), pending).Keys, dryRun, failing, tags, left) ::
                && (forall tag :: tag in tags || tag in left <==> IsOwned(tag, pending))
                && (!dryRun ==> forall tag :: tag in left ==> tag in failing)
    {
      hide RetentionKeep, Target;
    }

    /** That is the directories of the policy, each with its app, and with its archive if it is the target's. */
    lemma PrunedIsThePolicy(pending: seq<Id>, id: Id)
      requires ArePending(pending)
      ensures id in Pruned(pending).artifacts
         <==> id in artifacts
              && (ActiveId() == Some(id) || IsParent(id) || (id in manifests && manifests[id].ready))
      ensures id in Pruned(pending).artifacts ==>
                Pruned(pending).artifacts[id]
                == Files(false, [], artifacts[id].archive && IsParent(id), artifacts[id].bundle)
      ensures forall o :: o in Pruned(pending).snapshots <==> o in snapshots && Some(o) == schema
      ensures Pruned(pending).backups == []
    {
      hide RetentionKeep, Target;
      TargetIsTheParent(id);
      KeepsNothingElse(ActiveId(), Target(), pending, id);
      StayingIsKept(snapshots, schema);
    }

    /** `estimate_or_apply_prune`. */
    method EstimateOrApply(pending: seq<Id>, children: seq<Id>, dryRun: bool, stop: Option<nat>, failing: set<Tag>)
      returns (removed: seq<Item>, tags: set<Tag>, outcome: Outcome)
      requires !ordinary
      requires forall id :: id in children <==> id in artifacts
      requires forall i, j :: 0 <= i < j < |children| ==> children[i] != children[j]
      modifies `artifacts, `backups, `snapshots
      ensures outcome == Blocked <==> TargetBlocked()
      ensures outcome == Blocked ==> removed == [] && tags == {}
      ensures outcome == Blocked || dryRun ==>
                artifacts == old(artifacts) && backups == old(backups) && snapshots == old(snapshots)
      ensures outcome.Done? ==> removed == old(Plan(pending, children))
      // a dry run lists, and a real run leaves out, the same things
      ensures outcome.Done? ==> Lists(removed, old(Contains()), old(Pruned(pending)))
      ensures outcome.Done? && !dryRun ==> Contains() == old(Pruned(pending))
      ensures outcome.Done? && (active.None? || global) ==> tags == {} && outcome.tagsLeft == {}
      ensures outcome.Done? && active.Some? && !global ==>
        TagsHandled(old(artifacts).Keys - RetentionKeep(ActiveId(), Target(), pending).Keys,
                    dryRun, failing, tags, outcome.tagsLeft)
      ensures outcome.Done? && !dryRun ==>
                artifacts == AfterTrim(RetentionKeep(ActiveId(), Target(), pending), old(artifacts))
      ensures outcome.Done? && !dryRun ==> backups == [] && snapshots == Staying(old(snapshots), schema)
      ensures stop.None? ==> !outcome.Stopped?
      ensures outcome != Refused
      ensures old(AppReady()) ==> AppReady()
      ensures forall id :: Target() == Some(id) && old(RollbackReady(id)) ==> RollbackReady(id)
      ensures forall id :: id in pending && id in old(artifacts) ==>
                id in artifacts && artifacts[id].bundle == old(artifacts)[id].bundle
    {
      if TargetBlocked() {
        return [], {}, Blocked;
      }
      hide RetentionKeep, OwnedTags, StaleIn, AfterTrim, TagsHandled, Snapshots, Staying, Backups, Target;
      KeepsWhatIsNeeded(ActiveId(), Target(), pending);
      removed, tags, outcome := ApplyRetention(pending, children, dryRun, stop, failing);
      if outcome.Done? {
        removed := removed + Snapshots(snapshots, schema);
        ListsWhatGoes(RetentionKeep(ActiveId(), Target(), pending), old(Contains()), children, schema, removed);
        if !dryRun {
          snapshots := Staying(snapshots, schema);
        }
      }
    }

    /** `prune`: nothing at all while something is unfinished or the rollback target is unusable. */
    method Prune(pending: seq<Id>, children: seq<Id>, dryRun: bool, stop: Option<nat>, failing: set<Tag>)
      returns (removed: seq<Item>, tags: set<Tag>, outcome: Outcome)
      requires ArePending(pending)
      requires forall id :: id in children <==> id in artifacts
      requires forall i, j :: 0 <= i < j < |children| ==> children[i] != children[j]
      modifies `artifacts, `backups, `snapshots, `backlog
      ensures outcome == Refused <==> ordinary || rollbackRequired || schema.Some?
      ensures outcome == Blocked <==> !(ordinary || rollbackRequired || schema.Some?) && TargetBlocked()
      ensures outcome.Blocked? || outcome.Refused? ==> removed == [] && tags == {}
      ensures outcome.Blocked? || outcome.Refused? || dryRun ==>
                artifacts == old(artifacts) && backups == old(backups) && snapshots == old(snapshots)
      ensures outcome.Refused? || outcome.Stopped? || dryRun ==> backlog == old(backlog)
      ensures outcome.Blocked? && !dryRun ==> backlog == {}
      ensures outcome.Done? ==> removed == old(Plan(pending, children))
      // a dry run lists, and a real run leaves out, the same things
      ensures outcome.Done? ==> Lists(removed, old(Contains()), old(Pruned(pending)))
      ensures outcome.Done? && !dryRun ==> Contains() == old(Pruned(pending))
      ensures outcome.Done? && (active.None? || global) ==> tags == {}
      ensures outcome.Done? && active.Some? && !global ==>
        old(TagsHandled(artifacts.Keys - RetentionKeep(ActiveId(), Target(), pending).Keys,
                    dryRun, failing, tags, outcome.tagsLeft))
      // every tag of what goes, and every one left over, is removed, or is left when its removal failed
      ensures outcome.Done? && active.Some? && !global ==>
                forall tag :: tag in tags || tag in outcome.tagsLeft <==> old(IsOwned(tag, pending))
      ensures outcome.Done? && !dryRun && !global ==> forall tag :: tag in outcome.tagsLeft ==> tag in failing
      ensures outcome.Done? && !dryRun ==>
                artifacts == AfterTrim(RetentionKeep(ActiveId(), Target(), pending), old(artifacts))
      ensures outcome.Done? && !dryRun ==>
                backups == [] && snapshots == Staying(old(snapshots), schema) && backlog == outcome.tagsLeft
      ensures stop.None? ==> !outcome.Stopped?
      ensures old(AppReady()) ==> AppReady()
      ensures forall id :: Target() == Some(id) && old(RollbackReady(id)) ==> RollbackReady(id)
      ensures forall id :: IsPending(id) && id in old(artifacts) ==>
                id in artifacts && artifacts[id].bundle == old(artifacts)[id].bundle
    {
      TagsAreOwned(pending, dryRun, failing);
      hide RetentionKeep, OwnedTags, StaleIn, AfterTrim, Snapshots, Staying, Backups, Target, TargetBlocked, IsPending;
      hide TagsHandled, IsOwned, Lists;
      if ordinary || schema.Some? || rollbackRequired {
        return [], {}, Refused;
      }
      removed, tags, outcome := EstimateOrApply(pending, children, dryRun, stop, failing);
      if !dryRun && !outcome.Stopped? {
        backlog := if outcome.Done? then outcome.tagsLeft else {};
      }
    }

    /** `build` of a new candidate, then retention that keeps it. */
    method Build(id: Id, children: seq<Id>, stop: Option<nat>, failing: set<Tag>) returns (outcome: Outcome)
      requires id !in artifacts && id !in manifests
      requires forall x :: x in children <==> x in artifacts || x == id
      requires forall i, j :: 0 <= i < j < |children| ==> children[i] != children[j]
      modifies `artifacts, `backups, `manifests
      ensures ordinary ==> outcome == Refused && artifacts == old(artifacts) && manifests == old(manifests)
      ensures !ordinary ==> id in artifacts && artifacts[id].bundle
      ensures manifests == if outcome in {Refused, Stopped} then old(manifests)
                           else old(manifests)[id := Manifest(id, true, true)]
      ensures outcome == Blocked <==> old(!ordinary && TargetBlocked())
      ensures stop.None? ==> !outcome.Stopped?
      ensures outcome.Refused? <==> ordinary
      ensures outcome == Blocked ==> artifacts == old(artifacts)[id := Files(false, [], false, true)]
      ensures outcome.Done? ==>
        artifacts == AfterTrim(RetentionKeep(ActiveId(), old(Target()), [id]),
                               old(artifacts)[id := Files(false, [], false, true)])
      ensures old(AppReady()) ==> AppReady()
      ensures forall x :: old(Target() == Some(x) && RollbackReady(x)) ==> RollbackReady(x)
    {
      if ordinary {
        return Refused;
      }
      artifacts := artifacts[id := Files(false, [], false, true)];
      if TargetBlocked() {
        outcome := Blocked;
      } else {
        ghost var removed: seq<Item>, tags: set<Tag>;
        KeepsWhatIsNeeded(ActiveId(), Target(), [id]);
        assert id in [id];
        removed, tags, outcome := ApplyRetention([id], children, false, stop, failing);
        if outcome.Stopped? {
          return;
        }
      }
      manifests := manifests[id := Manifest(id, true, true)];
    }
  }

  datatype Event =
    | BuildNew(id: Id, stop: Option<nat>, failing: set<Tag>)
    | PruneNow(dryRun: bool, stop: Option<nat>, failing: set<Tag>)

  /** Any sequence of builds and prunes leaves the running app and the material for its rollback in place. */
  method Run(store: Store, events: seq<Event>)
    modifies store
    ensures store.active == old(store.active)
    ensures old(store.AppReady()) ==> store.AppReady()
    ensures forall id :: old(store.Target() == Some(id) && store.RollbackReady(id)) ==>
              store.Target() == Some(id) && store.RollbackReady(id)
  {
    for i := 0 to |events|
      invariant store.active == old(store.active)
      invariant old(store.AppReady()) ==> store.AppReady()
      invariant forall id :: old(store.Target() == Some(id) && store.RollbackReady(id)) ==>
                  store.Target() == Some(id) && store.RollbackReady(id)
    {
      match events[i] {
        case BuildNew(id, stop, failing) =>
          if id !in store.artifacts && id !in store.manifests {
            var children := Ordered(store.artifacts.Keys + {id});
            var outcome := store.Build(id, children, stop, failing);
          }
        case PruneNow(dryRun, stop, failing) =>
          var children := Ordered(store.artifacts.Keys);
          var pending := Ordered(set id | id in store.manifests && store.IsPending(id));
          var removed, tags, outcome := store.Prune(pending, children, dryRun, stop, failing);
      }
    }
  }

  /** Some listing of a set. */
  method Ordered(ids: set<Id>) returns (listing: seq<Id>)
    ensures forall id :: id in listing <==> id in ids
    ensures forall i, j :: 0 <= i < j < |listing| ==> listing[i] != listing[j]
  {
    listing := [];
    var left := ids;
    while left != {}
      invariant left <= ids
      invariant forall id :: id in listing <==> id in ids && id !in left
      invariant forall i, j :: 0 <= i < j < |listing| ==> listing[i] != listing[j]
      decreases left
    {
      var id :| id in left;
      listing, left := listing + [id], left - {id};
    }
  }

  /** A prune that went through leaves nothing for the next one, which then removes nothing. */
  method PruneTwice(store: Store, pending: seq<Id>, children: seq<Id>, dryRun: bool)
    returns (removed: seq<Item>, tags: set<Tag>)
    requires store.ArePending(pending) && !store.ordinary && !store.rollbackRequired
    requires store.schema.None? && !store.TargetBlocked()
    requires forall id :: id in children <==> id in store.artifacts
    requires forall i, j :: 0 <= i < j < |children| ==> children[i] != children[j]
    modifies store
    ensures removed == [] && tags == {}
  {
    var first, firstTags, done := store.Prune(pending, children, false, None, {});
    var keep := RetentionKeep(store.ActiveId(), store.Target(), pending);
    ghost var after := store.artifacts;
    StayingIsKept(old(store.snapshots), store.schema);
    var left := Ordered(store.artifacts.Keys);
    TrimmedTwice(keep, old(store.artifacts), left);
    var outcome: Outcome;
    removed, tags, outcome := store.Prune(pending, left, dryRun, None, {});
  }

  lemma TrimmedTwice(keep: Keep, artifacts: map<Id, Files>, children: seq<Id>)
    requires forall id :: id in children <==> id in AfterTrim(keep, artifacts)
    ensures StaleIn(keep, AfterTrim(keep, artifacts), children) == []
    ensures OwnedTags(AfterTrim(keep, artifacts).Keys - keep.Keys) == {}
  {
    TrimmedIsClean(keep, artifacts, children);
  }
}
