/**
 The schema transition of the Dev stack: a durable journal, cold snapshots of two
 volumes, a migration, and a recovery that goes back to the snapshots or forward to
 the target.

 `World` is the machine: the state directory as it is seen and as a power loss would
 reveal it, the two volumes, the archives, and whatever is running.  Each fallible step
 takes the next entry of a fault script, so a statement about every script is a
 statement about every failure and every crash.
 */
module SchemaTransition {
  import opened Faults

  datatype Side = Previous | Target

  /** One value per volume of the transition. */
  datatype Pair<T> = Pair(postgres: T, minio: T)

  datatype Volume = Postgres | Minio

  function Get<T>(p: Pair<T>, v: Volume): T {
    if v == Postgres then p.postgres else p.minio
  }

  function Put<T>(p: Pair<T>, v: Volume, x: T): Pair<T> {
    if v == Postgres then p.(postgres := x) else p.(minio := x)
  }

  // ----- What a volume holds -----

  datatype Write = Write(author: Side, value: int)

  datatype Schema = Head(side: Side) | Between

  /**
   The application writes in order, the observed database revision, and what the
   database server wrote for itself; `Torn` is a volume in the middle of a restore.
   */
  datatype Content = Content(writes: seq<Write>, schema: Schema, server: nat) | Torn

  predicate Holds(c: Content, writes: seq<Write>) {
    c.Content? && c.writes == writes
  }

  predicate Unmigrated(c: Content) {
    c.Content? && c.schema == Head(Previous)
  }

  predicate OnlyPrevious(writes: seq<Write>) {
    forall i :: 0 <= i < |writes| ==> writes[i].author == Previous
  }

  /** The same application data; the database server may have written for itself. */
  predicate OnlyServer(before: Pair<Content>, after: Pair<Content>) {
    && after.minio == before.minio
    && (|| after.postgres == before.postgres
        || (after.postgres.Content? && before.postgres.Content?
            && after.postgres == before.postgres.(server := after.postgres.server)))
  }

  // ----- The state directory -----

  datatype Phase =
    | Prepared | SnapshotsComplete | Migrating | Migrated | Restoring | Restored
    | PreviousWritersMayHaveStarted | WritersMayHaveStarted | Verified | Complete | Recovered

  /** `snapshots` are the recorded digests; a digest stands for the content it identifies. */
  datatype Journal = Journal(phase: Phase, snapshots: Pair<Option<Content>>, appWasRunning: bool)

  datatype Root = Root(journal: Option<Journal>, active: Side, rollbackRequired: bool)

  predicate Terminal(p: Phase) {
    p == Complete || p == Recovered
  }

  predicate Unfinished(journal: Option<Journal>) {
    journal.Some? && !Terminal(journal.value.phase)
  }

  predicate Forward(p: Phase) {
    p == WritersMayHaveStarted || p == Verified
  }

  /** Phases from which a promotion that fails goes back at once. */
  predicate Backward(p: Phase) {
    p == Prepared || p == SnapshotsComplete || NeedsRestore(p)
  }

  predicate NeedsRestore(p: Phase) {
    p == Migrating || p == Migrated || p == Restoring || p == Restored
  }

  predicate NeedsSnapshots(journal: Option<Journal>) {
    journal.Some? && (journal.value.phase == SnapshotsComplete || NeedsRestore(journal.value.phase))
  }

  /** Phases in which the volumes hold nothing of the migration. */
  predicate BeforeMigration(p: Phase) {
    || p == Prepared || p == SnapshotsComplete || p == Restored
    || p == PreviousWritersMayHaveStarted || p == Recovered
  }

  function WritersPhase(side: Side): Phase {
    if side == Target then WritersMayHaveStarted else PreviousWritersMayHaveStarted
  }

  function FinalPhase(side: Side): Phase {
    if side == Target then Complete else Recovered
  }

  /** The active pointer under a journal: it moves to the target only on the way forward. */
  predicate PointerFits(journal: Option<Journal>, active: Side) {
    if journal.None? then active == Previous
    else if Forward(journal.value.phase) then true
    else active == if journal.value.phase == Complete then Target else Previous
  }

  // ----- Failures -----

  function Mix(disk: Root, seen: Root, s: Synced): Root {
    Root(if s.first then seen.journal else disk.journal,
         if s.second then seen.active else disk.active,
         if s.third then seen.rollbackRequired else disk.rollbackRequired)
  }

  datatype Tool = Idle | MigrationRunning | RestoreRunning(volume: Volume)

  class World {
    var seen: Root                        // what every process reads
    var disk: Root                        // what a power loss would reveal
    var data: Pair<Content>
    var archives: Pair<Option<Content>>   // in the directory of the operation, synced with it
    var present: bool                     // that directory is there
    var linked: bool                      // and its own entry, which nothing syncs, is on disk
    var app: Option<Side>                 // the installed app; None while it is incomplete
    var diskApp: Option<Side>             // and its unsynced counterpart on disk
    var previousLive: bool
    var targetLive: bool
    var database: bool
    var tool: Tool                        // a container that may outlive its client
    var faults: seq<Fault>
    var kernel: seq<Progress>             // what reaches the disk while a command goes on
    ghost var reverted: bool              // a power loss changed the app since it was last installed
    ghost var cold: Pair<Content>         // the volumes when the snapshots were complete
    ghost var written: Pair<seq<Write>>   // every application write there ever was

    // ----- The invariant -----

    ghost predicate Intact()
      reads `data, `written
    {
      Holds(data.postgres, written.postgres) && Holds(data.minio, written.minio)
    }

    /** Nothing of the migration is left in the volumes, and no target ever wrote to them. */
    ghost predicate Clean()
      reads `data, `written
    {
      && Intact() && Unmigrated(data.postgres) && Unmigrated(data.minio)
      && OnlyPrevious(written.postgres) && OnlyPrevious(written.minio)
    }

    ghost predicate SnapshotsUsable(j: Journal)
      reads `archives, `present, `linked, `cold, `written, `previousLive, `targetLive
    {
      && j.snapshots == Pair(Some(cold.postgres), Some(cold.minio))
      && archives == (if present then j.snapshots else Pair(None, None)) && (linked ==> present)
      && Holds(cold.postgres, written.postgres) && Holds(cold.minio, written.minio)
      && Unmigrated(cold.postgres) && Unmigrated(cold.minio)
      && OnlyPrevious(written.postgres) && OnlyPrevious(written.minio)
      && !previousLive && !targetLive
    }

    /** The target's schema on top of everything ever written. */
    ghost predicate OnTarget()
      reads `data, `written, `previousLive, `tool
    {
      Intact() && data.postgres.schema == Head(Target) && !previousLive && tool == Idle
    }

    ghost predicate OnPrevious()
      reads `data, `written, `targetLive, `tool
    {
      Clean() && !targetLive && tool == Idle
    }

    /** What a journal means for the volumes and for whatever is running. */
    ghost predicate Good(journal: Option<Journal>)
      reads `data, `archives, `present, `linked, `app, `diskApp, `reverted, `previousLive, `targetLive, `tool,
            `cold, `written
    {
      if journal.None? then OnPrevious()
      else
        var j, p := journal.value, journal.value.phase;
        && (BeforeMigration(p) ==> OnPrevious())
        && (p == SnapshotsComplete || NeedsRestore(p) ==> SnapshotsUsable(j))
        && (p == Migrating ==> Intact() && !tool.RestoreRunning?)
        && (p == Restoring ==> tool != MigrationRunning)
        && (p == Migrated || Forward(p) || p == Complete ==> OnTarget())
        && (p == Restored ==> present && linked)
        && (p == Complete ==> Keeps(Target))
        && (p == Recovered ==> Keeps(Previous))
    }

    /** The app of a finished transition is installed, unless a power loss took it back. */
    ghost predicate Keeps(side: Side)
      reads `app, `diskApp, `reverted
    {
      (app == Some(side) <==> !reverted) && (reverted ==> diskApp != Some(side))
    }

    ghost predicate Inv()
      reads `seen, `disk, `data, `archives, `present, `linked, `app, `diskApp, `reverted, `previousLive,
            `targetLive, `tool, `cold, `written
    {
      // entries of the directory may reach the disk separately
      && Good(seen.journal) && Good(disk.journal)
      && PointerFits(seen.journal, seen.active) && PointerFits(disk.journal, seen.active)
      && PointerFits(seen.journal, disk.active) && PointerFits(disk.journal, disk.active)
      // a transition that looks finished cannot come back and ask for its snapshots
      && (Unfinished(seen.journal) || !NeedsSnapshots(disk.journal))
    }

    constructor (data: Pair<Content>, ghost written: Pair<seq<Write>>)
      requires Holds(data.postgres, written.postgres) && Holds(data.minio, written.minio)
      requires Unmigrated(data.postgres) && Unmigrated(data.minio)
      requires OnlyPrevious(written.postgres) && OnlyPrevious(written.minio)
      ensures Inv() && seen == disk == Root(None, Previous, false) && this.written == written
      ensures previousLive && app == diskApp == Some(Previous) && !reverted && faults == [] && kernel == []
    {
      seen, disk := Root(None, Previous, false), Root(None, Previous, false);
      this.data, this.written, this.cold := data, written, data;
      archives, present, linked := Pair(None, None), false, false;
      app, previousLive, targetLive, database, tool := Some(Previous), true, false, true, Idle;
      diskApp, reverted := Some(Previous), false;
      faults, kernel := [], [];
    }

    // ----- Steps -----

    method Take() returns (f: Fault)
      modifies `faults
      ensures f == First(old(faults)) && faults == Rest(old(faults))
      ensures Single(old(faults)) ==> Met(old(faults), faults, 1, Outcome(f)) && (|old(faults)| > 1 ==> f == Fine)
    {
      if Single(faults) {
        SingleStep(faults);
      }
      f, faults := First(faults), Rest(faults);
    }

    /** A step that only observes, or changes nothing that is modelled. */
    method Check() returns (r: Result)
      modifies `faults
      ensures Single(old(faults)) ==> Met(old(faults), faults, 1, r)
      ensures r == Outcome(First(old(faults))) && faults == Rest(old(faults))
    {
      var f := Take();
      return Outcome(f);
    }

    /**
     Atomic replacement in the state directory, then a sync of the directory.  A failed
     write may be visible all the same, and visible entries need not survive a power loss.
     */
    method Replace(next: Root) returns (r: Result)
      modifies `faults, `seen, `disk
      ensures Single(old(faults)) ==> Met(old(faults), faults, 1, r)
      ensures old(faults) == [] ==> r == Ok && faults == []
      ensures r == Ok ==> seen == disk == next
      ensures seen == next || (seen == old(seen) && r != Ok)
      ensures old(faults) != [] && old(faults)[0].Fault? ==> r == Outcome(old(faults)[0])
      ensures old(faults) != [] && old(faults)[0].Fault? && old(faults)[0].applied ==>
                seen == next && disk == Mix(old(disk), next, old(faults)[0].synced)
      ensures disk.journal == old(disk).journal || disk.journal == seen.journal
      ensures disk.active == old(disk).active || disk.active == seen.active
    {
      var f := Take();
      r := Outcome(f);
      if f == Fine {
        seen, disk := next, next;
      } else if f.applied {
        seen, disk := next, Mix(disk, next, f.synced);
      }
    }

    predicate SnapshotsGone()
      reads `archives, `present
    {
      archives == Pair(None, None) && !present
    }

    /** `_schema_phase`: the journal first, and only then may finished snapshots go. */
    method WritePhase(j: Journal, phase: Phase) returns (next: Journal, r: Result)
      modifies `faults, `seen, `disk, `archives, `present
      ensures Single(old(faults)) && r != Ok ==> r == Failed && faults == []
      ensures Single(old(faults)) && !Terminal(phase) ==> Met(old(faults), faults, 1, r)
      ensures old(faults) == [] ==> r == Ok && faults == []
      ensures next == j.(phase := phase)
      ensures r == Ok ==> seen == disk == old(seen).(journal := Some(next))
      ensures seen == old(seen).(journal := Some(next)) || (seen == old(seen) && r != Ok)
      ensures disk.journal == old(disk).journal || disk.journal == seen.journal
      ensures disk.active == old(disk).active || disk.active == seen.active
      ensures (archives == old(archives) && present == old(present)) || (r == Ok && Terminal(phase))
      // the snapshots of a finished transition are removed
      ensures old(faults) == [] && Terminal(phase) ==> SnapshotsGone()
    {
      next := j.(phase := phase);
      r := Replace(seen.(journal := Some(next)));
      if r == Ok && Terminal(phase) {
        var removed := Check();
        if removed == Ok {
          archives, present := Pair(None, None), false;
        } else if removed == Died {
          r := Died;
        }
      }
    }

    method MarkRollbackRequired() returns (r: Result)
      modifies `faults, `seen, `disk
      ensures Single(old(faults)) ==> Met(old(faults), faults, 1, r)
      ensures seen == old(seen) || seen == old(seen).(rollbackRequired := true)
      ensures r == Ok ==> seen.rollbackRequired && disk == seen
      ensures old(faults) == [] ==> r == Ok && faults == []
      ensures disk.journal == old(disk).journal || disk.journal == seen.journal
      ensures disk.active == old(disk).active || disk.active == seen.active
    {
      r := Replace(seen.(rollbackRequired := true));
    }

    /** `_publish_active`: the pointer, and then the marker of an unfinished transition. */
    method Publish(side: Side) returns (r: Result)
      modifies `faults, `seen, `disk
      ensures Single(old(faults)) ==> Struck(faults, r)
      ensures old(faults) == [] ==> r == Ok && faults == []
      ensures seen.journal == old(seen).journal
      ensures seen.active == side || seen.active == old(seen).active
      ensures disk.journal == old(disk).journal || disk.journal == seen.journal
      ensures disk.active == old(disk).active || disk.active == seen.active
      ensures r == Ok ==> seen.active == disk.active == side && disk.journal == seen.journal
      ensures r == Ok && Unfinished(seen.journal) ==> !seen.rollbackRequired
    {
      r := Replace(seen.(active := side));
      if r == Ok && seen.rollbackRequired && Unfinished(seen.journal) {
        var f := Take();
        r := Outcome(f);
        if f == Fine || f.applied {
          seen := seen.(rollbackRequired := false);
        }
        if f != Fine && f.synced.third {
          disk := disk.(rollbackRequired := seen.rollbackRequired);
        }
      }
      if r == Failed {
        var marked := MarkRollbackRequired();
        r := if marked == Died then Died else Failed;
      }
    }

    method Stop() returns (r: Result)
      modifies `faults, `previousLive, `targetLive, `database, `tool
      ensures Single(old(faults)) ==> Met(old(faults), faults, 4, r)
      ensures old(faults) == [] ==> r == Ok && faults == []
      ensures r == Ok ==> !previousLive && !targetLive && !database && tool == Idle
      ensures (previousLive ==> old(previousLive)) && (targetLive ==> old(targetLive))
      ensures tool == old(tool) || tool == Idle
    {
      var writers := Take();
      if writers == Fine || writers.applied {
        previousLive, targetLive := false, false;
      }
      r := Outcome(writers);
      if r == Ok {
        var stack := Take();
        if stack == Fine || stack.applied {
          database := false;
        }
        r := Outcome(stack);
      }
      if r == Ok {
        var containers := Take();
        if containers == Fine || containers.applied {
          tool := Idle;
        }
        r := Outcome(containers);
      }
      if r == Ok {
        r := Check();
      }
    }

    /** The volumes are the ones prepared, and nothing that could change them is running. */
    method CheckVolumes() returns (r: Result)
      modifies `faults
      ensures Single(old(faults)) && !previousLive && !targetLive && !database && tool == Idle ==>
                Met(old(faults), faults, 1, r)
      ensures old(faults) == [] && !previousLive && !targetLive && !database && tool == Idle ==> r == Ok && faults == []
      ensures r == Ok ==> !previousLive && !targetLive && !database && tool == Idle
    {
      r := Check();
      if r == Ok && (previousLive || targetLive || database || tool != Idle) {
        r := Failed;
      }
    }

    method Snapshot(j: Journal, v: Volume) returns (next: Journal, r: Result)
      modifies `faults, `archives
      ensures Single(old(faults)) && present && Get(old(archives), v).None? ==> Met(old(faults), faults, 1, r)
      ensures old(faults) == [] && present && Get(old(archives), v).None? ==> r == Ok && faults == []
      ensures r == Ok ==> present && archives == Put(old(archives), v, Some(Get(data, v)))
      ensures next.phase == j.phase && next.appWasRunning == j.appWasRunning
      ensures r != Ok ==> next == j && (Get(old(archives), v).Some? ==> archives == old(archives))
      ensures r == Ok ==> next == j.(snapshots := Put(j.snapshots, v, Some(Get(data, v))))
    {
      next := j;
      if !present || Get(archives, v).Some? {
        return next, Failed;  // archives are created exclusively
      }
      var f := Take();
      r := Outcome(f);
      if f == Fine {
        archives := Put(archives, v, Some(Get(data, v)));
        next := j.(snapshots := Put(j.snapshots, v, Some(Get(data, v))));
      } else if f.applied {
        archives := Put(archives, v, Some(Torn));
      }
    }

    method VerifySnapshot(j: Journal, v: Volume) returns (r: Result)
      modifies `faults
      ensures Single(old(faults)) && Get(archives, v) == Get(j.snapshots, v) ==> Met(old(faults), faults, 1, r)
      ensures old(faults) == [] && Get(archives, v) == Get(j.snapshots, v) ==> r == Ok && faults == []
      ensures r == Ok ==> Get(archives, v) == Get(j.snapshots, v)
    {
      r := Check();
      if r == Ok && Get(archives, v) != Get(j.snapshots, v) {
        r := Failed;
      }
    }

    predicate Archived(j: Journal, v: Volume)
      reads `archives
    {
      Get(j.snapshots, v).Some? && Get(archives, v) == Get(j.snapshots, v)
    }

    /** Empties the volume, unpacks the archive and syncs all; a client may die before its container. */
    method RestoreVolume(j: Journal, v: Volume) returns (r: Result)
      modifies `faults, `data, `tool, `linked
      ensures Single(old(faults)) && old(Archived(j, v)) ==> Met(old(faults), faults, 1, r)
      ensures linked == old(linked) || linked == present
      ensures r == Ok ==> linked == present
      ensures old(faults) == [] && Get(j.snapshots, v).Some? && Get(archives, v) == Get(j.snapshots, v) ==>
                r == Ok && faults == []
      ensures r == Ok ==> tool == old(tool) && Get(j.snapshots, v).Some? && Get(archives, v) == Get(j.snapshots, v)
      ensures r == Ok ==> data == Put(old(data), v, Get(j.snapshots, v).value)
      ensures tool == old(tool) || tool == RestoreRunning(v)
      // one that began and did not end leaves the volume torn, and nothing synced
      ensures old(Archived(j, v)) && First(old(faults)) == Fault(true, true, Synced(false, false, false)) ==>
                data == Put(old(data), v, Torn) && tool == old(tool) && linked == old(linked)
    {
      if Get(j.snapshots, v).None? || Get(archives, v) != Get(j.snapshots, v) {
        return Failed;
      }
      var content := Get(j.snapshots, v).value;
      var f := Take();
      r := Outcome(f);
      if f == Fine {
        data, linked := Put(data, v, content), present;
      } else {
        if f.orphan {
          tool := RestoreRunning(v);
        }
        if f.applied {
          data := Put(data, v, if f.synced.first then content else Torn);
        }
      }
    }

    method StartDatabase() returns (r: Result)
      modifies `faults, `data, `database
      ensures OnlyServer(old(data), data)
      ensures Single(old(faults)) ==> Met(old(faults), faults, 1, r)
      ensures old(faults) == [] ==> r == Ok && faults == []
      ensures r == Ok ==> database
      ensures data.minio == old(data).minio
      ensures data.postgres == old(data).postgres
           || (old(data).postgres.Content?
               && data.postgres == old(data).postgres.(server := old(data).postgres.server + 1))
    {
      var f := Take();
      if f == Fine || f.applied {
        database := true;
        if data.postgres.Content? {
          data := data.(postgres := data.postgres.(server := data.postgres.server + 1));
        }
      }
      r := Outcome(f);
    }

    method CheckRevision(side: Side) returns (r: Result)
      modifies `faults
      ensures Single(old(faults)) && data.postgres.Content? && data.postgres.schema == Head(side) ==>
                Met(old(faults), faults, 1, r)
      ensures old(faults) == [] && data.postgres.Content? && data.postgres.schema == Head(side) ==>
                r == Ok && faults == []
      ensures r == Ok ==> data.postgres.Content? && data.postgres.schema == Head(side)
    {
      r := Check();
      if r == Ok && (data.postgres.Torn? || data.postgres.schema != Head(side)) {
        r := Failed;
      }
    }

    /** The migration container, which can also outlive its client. */
    method Migrate() returns (r: Result)
      modifies `faults, `data, `tool
      ensures Single(old(faults)) && old(data).postgres.Content? ==> Met(old(faults), faults, 1, r)
      ensures old(faults) == [] && data.postgres.Content? ==> r == Ok && faults == []
      ensures data.minio == old(data).minio
      ensures old(data).postgres.Content? ==>
                exists schema :: data.postgres == old(data).postgres.(schema := schema)
      ensures r == Ok ==> tool == old(tool) && data.postgres.Content? && data.postgres.schema == Head(Target)
      ensures tool == old(tool) || tool == MigrationRunning
    {
      if data.postgres.Torn? {
        return Failed;
      }
      var f := Take();
      r := Outcome(f);
      var schema := data.postgres.schema;
      if f == Fine {
        schema := Head(Target);
      } else {
        if f.orphan {
          tool := MigrationRunning;
        }
        if f.applied {
          schema := if f.synced.first then Head(Target) else Between;
        }
      }
      data := data.(postgres := data.postgres.(schema := schema));
      assert data.postgres == old(data).postgres.(schema := schema);
    }

    /** The installed bundle may reach the disk at any time, in whole or in part. */
    method AppMayReach()
      modifies `kernel, `diskApp
      ensures old(kernel) == [] ==> diskApp == old(diskApp) && kernel == []
      ensures old(kernel) != [] ==>
                diskApp == Effect(old(kernel)[0], app, None, old(diskApp)) && kernel == old(kernel)[1..]
    {
      if kernel != [] {
        diskApp := Effect(kernel[0], app, None, diskApp);
        kernel := kernel[1..];
      }
    }

    method InstallApp(side: Side) returns (r: Result)
      modifies `faults, `app, `diskApp, `kernel, `reverted
      ensures Single(old(faults)) ==> Met(old(faults), faults, 1, r)
      ensures old(faults) == [] ==> r == Ok && faults == []
      ensures r == Ok ==> app == Some(side)
      ensures app == old(app) || app == Some(side) || app == None
      ensures reverted == (old(reverted) && r != Ok)
      ensures old(kernel) == [] ==> diskApp == old(diskApp) && kernel == []
      ensures old(kernel) != [] ==> diskApp == Effect(old(kernel)[0], old(app), None, old(diskApp))
    {
      AppMayReach();
      var f := Take();
      if f == Fine {
        app, reverted := Some(side), false;
      } else if f.applied {
        app := if f.synced.first then Some(side) else None;
      }
      r := Outcome(f);
    }

    /** The backend starts only under the phase that authorizes its side. */
    method StartBackend(side: Side, controller: bool) returns (r: Result)
      modifies `faults, `previousLive, `targetLive
      ensures Single(old(faults)) && controller
              && seen.journal.Some? && seen.journal.value.phase == WritersPhase(side) ==>
                Met(old(faults), faults, 1, r)
      ensures Unfinished(seen.journal) && (previousLive != old(previousLive) || targetLive != old(targetLive)) ==>
                controller && seen.journal.value.phase == WritersPhase(side)
      ensures previousLive == old(previousLive) || (previousLive && side == Previous)
      ensures targetLive == old(targetLive) || (targetLive && side == Target)
      ensures controller && seen.journal.Some? && seen.journal.value.phase == WritersPhase(side) ==>
                old(faults) == [] ==> r == Ok && faults == []
      ensures r == Ok ==> if side == Target then targetLive else previousLive
    {
      if Unfinished(seen.journal) {
        if !controller || seen.journal.value.phase != WritersPhase(side) {
          return Failed;
        }
      }
      var f := Take();
      if f == Fine || f.applied {
        if side == Target { targetLive := true; } else { previousLive := true; }
      }
      r := Outcome(f);
    }

    // ----- Recovery -----

    /** `_schema_phase` keeps the invariant when the new entry fits. */
    method Enter(j: Journal, phase: Phase) returns (next: Journal, r: Result)
      requires Inv() && Good(Some(j.(phase := phase)))
      requires PointerFits(Some(j.(phase := phase)), seen.active) && PointerFits(Some(j.(phase := phase)), disk.active)
      requires Terminal(phase) ==> !NeedsSnapshots(disk.journal)
      modifies `faults, `seen, `disk, `archives, `present
      ensures Single(old(faults)) && r != Ok ==> r == Failed && faults == []
      ensures Single(old(faults)) && !Terminal(phase) ==> Met(old(faults), faults, 1, r)
      ensures present == old(present) || !Unfinished(seen.journal)
      ensures Inv()
      ensures old(faults) == [] ==> r == Ok && faults == []
      ensures old(faults) == [] && Terminal(phase) ==> SnapshotsGone()
      ensures next == j.(phase := phase)
      ensures r == Ok ==> seen == disk == old(seen).(journal := Some(next))
      ensures seen == old(seen).(journal := Some(next)) || (seen == old(seen) && r != Ok)
      ensures disk.journal == old(disk).journal || disk.journal == seen.journal
      ensures disk.active == old(disk).active || disk.active == seen.active
      ensures (archives == old(archives) && present == old(present)) || (r == Ok && Terminal(phase))
    {
      hide SnapshotsUsable, Intact, Clean, OnTarget, OnPrevious;
      next, r := WritePhase(j, phase);
    }

    /** `_schema_stop` under the invariant. */
    method StopSafely() returns (r: Result)
      requires Inv()
      modifies `faults, `previousLive, `targetLive, `database, `tool
      ensures Single(old(faults)) ==> Met(old(faults), faults, 4, r)
      ensures Inv()
      ensures old(faults) == [] ==> r == Ok && faults == []
      ensures r == Ok ==> !previousLive && !targetLive && !database && tool == Idle
    {
      r := Stop();
    }

    /** `_schema_stop`, then the volumes are cold. */
    method StopAll() returns (r: Result)
      requires Inv()
      modifies `faults, `previousLive, `targetLive, `database, `tool
      ensures Single(old(faults)) ==> Met(old(faults), faults, 5, r)
      ensures Inv()
      ensures old(faults) == [] ==> r == Ok && faults == []
      ensures r == Ok ==> !previousLive && !targetLive && !database && tool == Idle
    {
      hide Good, Inv;
      r := StopSafely();
      if r == Ok {
        r := CheckVolumes();
      }
    }

    /** Both archives into both volumes; `restoring` is durable before the first byte changes. */
    method RestoreVolumes(j: Journal) returns (r: Result)
      requires Inv() && seen.journal == disk.journal == Some(j) && j.phase == Restoring
      requires !database && tool == Idle && present
      modifies `faults, `data, `tool, `linked
      ensures Single(old(faults)) ==> Met(old(faults), faults, 3, r)
      ensures Inv()
      ensures old(faults) == [] ==> r == Ok && faults == []
      ensures r == Ok ==> data == cold && tool == Idle && linked
    {
      MayRestore(j);
      hide Inv, Good;
      r := RestoreOne(j, Postgres);
      if r == Ok {
        r := CheckVolumes();
      }
      if r == Ok {
        r := RestoreOne(j, Minio);
      }
    }

    /** One of the two. */
    method RestoreOne(j: Journal, v: Volume) returns (r: Result)
      requires Inv() && seen.journal == disk.journal == Some(j) && j.phase == Restoring
      requires tool == Idle && present
      modifies `faults, `data, `tool, `linked
      ensures Single(old(faults)) ==> Met(old(faults), faults, 1, r)
      ensures Inv()
      ensures old(faults) == [] ==> r == Ok && faults == []
      ensures r == Ok ==> data == Put(old(data), v, Get(cold, v)) && tool == Idle && linked
      ensures First(old(faults)) == Fault(true, true, Synced(false, false, false)) ==>
                data == Put(old(data), v, Torn) && linked == old(linked)
    {
      hide PointerFits;
      r := RestoreVolume(j, v);
    }

    lemma MayRestore(j: Journal)
      requires Inv() && seen.journal == Some(j) && NeedsRestore(j.phase) && tool == Idle
      ensures j.snapshots.postgres.Some? && j.snapshots.minio.Some?
      ensures archives == if present then j.snapshots else Pair(None, None)
      ensures !previousLive && !targetLive && Good(Some(j.(phase := Restoring)))
    {
    }

    lemma MayBeRestored(j: Journal)
      requires Inv() && seen.journal == Some(j) && j.phase == Restoring && data == cold && tool == Idle
      requires present && linked
      ensures Good(Some(j.(phase := Restored)))
    {
    }

    /** A complete pair, and archives that still have their recorded digests. */
    method VerifyPair(j: Journal) returns (r: Result)
      modifies `faults
      ensures Single(old(faults)) && j.snapshots == archives
              && j.snapshots.postgres.Some? && j.snapshots.minio.Some? ==>
                Met(old(faults), faults, 2, r)
      ensures old(faults) == [] && j.snapshots == archives && j.snapshots.postgres.Some? && j.snapshots.minio.Some? ==>
                r == Ok && faults == []
      ensures r == Ok ==> archives == j.snapshots && j.snapshots.postgres.Some?
    {
      if j.snapshots.postgres.None? || j.snapshots.minio.None? {
        return Failed;
      }
      r := VerifySnapshot(j, Postgres);
      if r == Ok {
        r := VerifySnapshot(j, Minio);
      }
    }

    /** `_schema_restore_pair`. */
    method RestorePair(j: Journal) returns (next: Journal, r: Result)
      requires Inv() && seen.journal == Some(j) && NeedsRestore(j.phase) && Unfinished(disk.journal)
      requires seen.active == disk.active == Previous && tool == Idle && !database
      modifies `faults, `seen, `disk, `archives, `present, `linked, `data, `tool
      ensures Single(old(faults)) && old(present) ==> Struck(faults, r)
      ensures present == old(present) || !Unfinished(seen.journal)
      ensures Inv() && Unfinished(seen.journal) && Unfinished(disk.journal)
      ensures seen.active == disk.active == Previous
      ensures old(faults) == [] && old(present) ==> r == Ok && faults == []
      // without the archives nothing is changed
      ensures !old(present) ==> r != Ok && seen == old(seen) && !present
      ensures r == Ok ==> seen.journal == disk.journal == Some(next) && next.phase == Restored
      ensures next.appWasRunning == j.appWasRunning
      // both volumes are again what they were before the first migration write
      ensures r == Ok ==> data == cold && tool == Idle
    {
      hide Good, Inv, SnapshotsUsable, PointerFits;
      next := j;
      MayRestore(j);
      r := CheckVolumes();
      if r == Ok {
        r := VerifyPair(j);
      }
      if r == Ok {
        PointersStayPrevious();
        next, r := Enter(next, Restoring);
      }
      if r == Ok {
        next, r := RestoreBoth(next);
      }
    }

    lemma PointersStayPrevious()
      requires seen.active == disk.active == Previous
      ensures forall j: Journal, p :: p == Restoring || p == Restored ==>
                PointerFits(Some(j.(phase := p)), seen.active) && PointerFits(Some(j.(phase := p)), disk.active)
    {
    }

    /** Under a durable `restoring`. */
    method RestoreBoth(j: Journal) returns (next: Journal, r: Result)
      requires Inv() && seen.journal == disk.journal == Some(j) && j.phase == Restoring
      requires seen.active == disk.active == Previous && tool == Idle && !database && present
      modifies `faults, `seen, `disk, `archives, `present, `linked, `data, `tool
      ensures Single(old(faults)) ==> Struck(faults, r)
      ensures Inv() && Unfinished(seen.journal) && Unfinished(disk.journal)
      ensures seen.active == disk.active == Previous && present == old(present)
      ensures old(faults) == [] ==> r == Ok && faults == []
      ensures r == Ok ==> seen.journal == disk.journal == Some(next) && next.phase == Restored
      ensures next.appWasRunning == j.appWasRunning
      ensures r == Ok ==> data == cold && tool == Idle
    {
      MayRestore(j);
      hide Good, Inv, PointerFits;
      next := j;
      r := CheckVolumes();
      if r == Ok {
        r := RestoreVolumes(next);
      }
      if r == Ok {
        MayBeRestored(next);
        PointersStayPrevious();
        next, r := Enter(next, Restored);
      }
    }

    /** Nothing runs, the volumes suit `side`, and the journal allows going on with it. */
    ghost predicate Ready(side: Side)
      reads `seen, `disk, `data, `archives, `present, `linked, `app, `diskApp, `reverted, `previousLive,
            `targetLive, `tool, `cold, `written
    {
      && Inv() && Unfinished(seen.journal) && Unfinished(disk.journal)
      && !previousLive && !targetLive
      && if side == Target then
           OnTarget() && seen.journal == disk.journal && Forward(seen.journal.value.phase)
         else
           OnPrevious() && seen.active == disk.active == Previous
    }

    lemma BecomesReady(side: Side)
      requires Inv() && Unfinished(seen.journal) && Unfinished(disk.journal)
      requires !previousLive && !targetLive && tool == Idle
      requires if side == Target then seen.journal == disk.journal && Forward(seen.journal.value.phase)
               else seen.active == disk.active == Previous && BeforeMigration(seen.journal.value.phase)
      ensures Ready(side)
    {
    }

    lemma ReadyFacts(side: Side)
      requires Ready(side)
      ensures Inv() && Unfinished(seen.journal) && Unfinished(disk.journal)
    {
    }

    /** The database, its revision, and the app of the chosen side. */
    method PrepareSide(side: Side) returns (r: Result)
      requires Ready(side)
      modifies `faults, `data, `database, `app, `diskApp, `kernel, `reverted
      ensures OnlyServer(old(data), data)
      ensures Single(old(faults)) ==> Met(old(faults), faults, 4, r)
      ensures (reverted ==> old(reverted)) && (old(kernel) == [] ==> diskApp == old(diskApp) && kernel == [])
      ensures Ready(side)
      ensures old(faults) == [] ==> r == Ok && faults == []
      ensures r == Ok ==> app == Some(side) && !reverted
    {
      hide Ready;
      r := PrepareDatabase(side);
      if r == Ok {
        r := InstallSide(side);
      }
    }

    method PrepareDatabase(side: Side) returns (r: Result)
      requires Ready(side)
      modifies `faults, `data, `database
      ensures OnlyServer(old(data), data)
      ensures Single(old(faults)) ==> Met(old(faults), faults, 3, r)
      ensures Ready(side)
      ensures old(faults) == [] ==> r == Ok && faults == []
    {
      r := StartDatabase();
      if r != Ok { return; }
      r := CheckRevision(side);
      if r != Ok { return; }
      r := Check();  // the database inventory
    }

    method InstallSide(side: Side) returns (r: Result)
      requires Ready(side)
      modifies `faults, `app, `diskApp, `kernel, `reverted
      ensures Single(old(faults)) ==> Met(old(faults), faults, 1, r)
      ensures (reverted ==> old(reverted)) && (old(kernel) == [] ==> diskApp == old(diskApp) && kernel == [])
      ensures Ready(side)
      ensures old(faults) == [] ==> r == Ok && faults == []
      ensures r == Ok ==> app == Some(side) && !reverted
    {
      hide OnTarget, OnPrevious, SnapshotsUsable;
      r := InstallApp(side);
    }

    lemma MayAuthorize(side: Side, j: Journal)
      requires Ready(side)
      ensures Inv() && Good(Some(j.(phase := WritersPhase(side))))
      ensures PointerFits(Some(j.(phase := WritersPhase(side))), seen.active)
      ensures PointerFits(Some(j.(phase := WritersPhase(side))), disk.active)
    {
    }

    /** Authorized start, launch and smoke; the phase stays as it is. */
    method StartSide(side: Side, launch: bool) returns (r: Result)
      requires Inv() && seen.journal.Some? && seen.journal == disk.journal
      requires seen.journal.value.phase == WritersPhase(side)
      modifies `faults, `previousLive, `targetLive
      ensures r == Ok ==> if side == Target then targetLive else previousLive
      ensures Single(old(faults)) ==> Met(old(faults), faults, if launch then 3 else 2, r)
      ensures Inv()
      ensures old(faults) == [] ==> r == Ok && faults == []
    {
      r := StartBackend(side, true);
      if r == Ok && launch {
        r := Check();
      }
      if r == Ok {
        r := Check();
      }
    }

    method PublishSide(side: Side) returns (r: Result)
      requires Inv() && Unfinished(seen.journal) && seen.journal == disk.journal
      requires side == Target ==> Forward(seen.journal.value.phase)
      requires side == Previous ==> BeforeMigration(seen.journal.value.phase)
      modifies `faults, `seen, `disk
      ensures Single(old(faults)) ==> Struck(faults, r)
      ensures Inv() && seen.journal == old(seen).journal && disk.journal == old(disk).journal
      ensures old(faults) == [] ==> r == Ok && faults == []
      ensures r == Ok ==> seen.active == disk.active == side && !seen.rollbackRequired
    {
      r := Publish(side);
    }

    lemma MayFinish(side: Side, j: Journal)
      requires Inv() && seen.journal == Some(j) && j.phase in {WritersPhase(side), Verified}
      requires j.phase == Verified ==> side == Target
      requires seen.active == disk.active == side && app == Some(side) && !reverted
      ensures Good(Some(j.(phase := FinalPhase(side))))
      ensures PointerFits(Some(j.(phase := FinalPhase(side))), side)
    {
    }

    /** From stopped and suitable volumes to a published, finished transition. */
    method Finish(side: Side, j: Journal, launch: bool) returns (r: Result)
      requires Ready(side)
      modifies `faults, `seen, `disk, `data, `archives, `present, `app, `diskApp, `kernel, `reverted, `previousLive,
               `targetLive, `database
      ensures r == Ok ==> if side == Target then targetLive else previousLive
      ensures OnlyServer(old(data), data)
      ensures Single(old(faults)) && r != Ok ==> r == Failed && faults == []
      ensures seen.journal == old(seen).journal || (seen.journal.Some? && !NeedsRestore(seen.journal.value.phase))
      ensures present == old(present) || !Unfinished(seen.journal)
      ensures (reverted ==> old(reverted)) && (old(kernel) == [] ==> diskApp == old(diskApp) && kernel == [])
      ensures Inv()
      ensures old(faults) == [] ==> r == Ok && faults == []
      ensures old(faults) == [] ==> SnapshotsGone()
      ensures r == Ok ==> seen.journal.Some? && disk.journal == seen.journal && !seen.rollbackRequired
      ensures r == Ok ==> seen.journal.value.phase == FinalPhase(side) && !reverted
      ensures seen.journal.Some? && (Unfinished(seen.journal) || seen.journal.value.phase == FinalPhase(side))
    {
      hide Good, Inv, Ready, PointerFits, OnTarget, OnPrevious, SnapshotsUsable;
      r := PrepareSide(side);
      ReadyFacts(side);
      var next := j;
      if r == Ok {
        MayAuthorize(side, next);
        next, r := Enter(next, WritersPhase(side));
      }
      if r == Ok {
        r := EndOn(side, next, launch);
      }
    }

    /** The authorized start, its publication and the last phase. */
    method EndOn(side: Side, j: Journal, launch: bool) returns (r: Result)
      requires Inv() && seen.journal == disk.journal == Some(j) && j.phase == WritersPhase(side)
      requires app == Some(side) && !reverted
      modifies `faults, `seen, `disk, `archives, `present, `previousLive, `targetLive
      ensures r == Ok ==> if side == Target then targetLive else previousLive
      ensures Single(old(faults)) && r != Ok ==> r == Failed && faults == []
      ensures seen.journal == old(seen).journal || (seen.journal.Some? && !NeedsRestore(seen.journal.value.phase))
      ensures present == old(present) || !Unfinished(seen.journal)
      ensures Inv()
      ensures old(faults) == [] ==> r == Ok && faults == []
      ensures old(faults) == [] ==> SnapshotsGone()
      ensures r == Ok ==> seen.journal.Some? && disk.journal == seen.journal && !seen.rollbackRequired
      ensures r == Ok ==> seen.journal.value.phase == FinalPhase(side)
      ensures seen.journal.Some? && (Unfinished(seen.journal) || seen.journal.value.phase == FinalPhase(side))
    {
      hide Good, Inv, PointerFits;
      r := StartSide(side, launch);
      if r == Ok {
        r := PublishSide(side);
      }
      if r == Ok {
        MayFinish(side, j);
        var ended;
        ended, r := Enter(j, FinalPhase(side));
      }
    }

    /** Back to the previous stack, or forward to the target once its writers may have run. */
    method Resume(j: Journal) returns (r: Result)
      requires Inv() && seen.journal == Some(j) && Unfinished(seen.journal) && Unfinished(disk.journal)
      requires Forward(j.phase) ==> disk.journal == seen.journal
      requires !Forward(j.phase) ==> seen.active == disk.active == Previous
      modifies `faults, `seen, `disk, `data, `archives, `present, `linked, `app, `diskApp, `kernel, `reverted,
               `previousLive, `targetLive, `database, `tool
      // back on the volumes as they were, and the chosen side runs
      ensures r == Ok ==> if Forward(j.phase) then targetLive else previousLive
      ensures r == Ok ==> OnlyServer(if NeedsRestore(j.phase) then cold else old(data), data)
      ensures Single(old(faults)) && r != Ok && (NeedsRestore(j.phase) ==> old(present)) ==> r == Failed && faults == []
      ensures Blocked() ==> old(Blocked())
      ensures present == old(present) || !Unfinished(seen.journal)
      ensures (reverted ==> old(reverted)) && (old(kernel) == [] ==> diskApp == old(diskApp) && kernel == [])
      ensures Inv()
      ensures r == Ok ==> seen.journal.Some? && disk.journal == seen.journal && !seen.rollbackRequired
      ensures r == Ok ==> !Unfinished(seen.journal) && !reverted
      ensures seen.journal.Some?
      ensures !Unfinished(seen.journal) ==> seen.journal.value.phase == if Forward(j.phase) then Complete else Recovered
      ensures old(faults) == [] && (NeedsRestore(j.phase) ==> old(present)) ==>
                r == Ok && faults == [] && SnapshotsGone()
      ensures NeedsRestore(j.phase) && !old(present) ==> r != Ok && seen.journal == old(seen).journal && !present
    {
      hide Good, Inv, Ready, PointerFits, OnTarget, OnPrevious, SnapshotsUsable;
      var side := if Forward(j.phase) then Target else Previous;
      var next := j;
      r := StopAll();
      if r == Ok && NeedsRestore(j.phase) {
        next, r := RestorePair(next);
      }
      if r == Ok {
        BecomesReady(side);
        r := Finish(side, next, side == Target || j.appWasRunning);
      }
    }

    // ----- The transition -----

    /** Both archives, of volumes that nothing can change meanwhile. */
    method TakeSnapshots(j: Journal) returns (next: Journal, r: Result)
      requires Inv() && seen.journal == disk.journal == Some(j) && j.phase == Prepared
      requires !previousLive && !targetLive && !database && tool == Idle
      modifies `faults, `archives, `cold
      ensures Single(old(faults)) && old(present) && old(archives) == Pair(None, None) ==>
                Met(old(faults), faults, 4, r)
      ensures Inv()
      ensures old(faults) == [] && old(present) && old(archives) == Pair(None, None) ==> r == Ok && faults == []
      ensures next.phase == Prepared && next.appWasRunning == j.appWasRunning
      ensures r == Ok ==> cold == data && Good(Some(next.(phase := SnapshotsComplete)))
    {
      next, r := ArchiveBoth(j);
      cold := data;
    }

    /** Each volume after a check that nothing could change it. */
    method ArchiveBoth(j: Journal) returns (next: Journal, r: Result)
      requires !previousLive && !targetLive && !database && tool == Idle
      modifies `faults, `archives
      ensures Single(old(faults)) && old(present) && old(archives) == Pair(None, None) ==>
                Met(old(faults), faults, 4, r)
      ensures old(faults) == [] && old(present) && old(archives) == Pair(None, None) ==> r == Ok && faults == []
      ensures next.phase == j.phase && next.appWasRunning == j.appWasRunning
      ensures r == Ok ==> present && archives == next.snapshots == Pair(Some(data.postgres), Some(data.minio))
    {
      next := j;
      r := CheckVolumes();
      if r != Ok { return; }
      next, r := Snapshot(next, Postgres);
      if r != Ok { return; }
      r := CheckVolumes();
      if r != Ok { return; }
      next, r := Snapshot(next, Minio);
    }

    /** The migration itself; whatever it does to the database, the snapshots stay usable. */
    method RunMigration(j: Journal) returns (r: Result)
      requires Inv() && seen.journal == disk.journal == Some(j) && j.phase == Migrating && tool == Idle
      modifies `faults, `data, `database, `tool
      ensures Single(old(faults)) ==> Met(old(faults), faults, 3, r)
      ensures Inv()
      ensures old(faults) == [] ==> r == Ok && faults == []
      ensures r == Ok ==> Good(Some(j.(phase := Migrated)))
    {
      hide Inv, Good;
      r := StartTargetDatabase(j);
      if r == Ok {
        r := RunContainer(j);
      }
    }

    method StartTargetDatabase(j: Journal) returns (r: Result)
      requires Inv() && seen.journal == disk.journal == Some(j) && j.phase == Migrating
      modifies `faults, `data, `database
      ensures Inv()
      ensures old(faults) == [] ==> r == Ok && faults == []
      ensures Single(old(faults)) ==> Met(old(faults), faults, 1, r)
    {
      hide PointerFits, Keeps, Met;
      r := StartDatabase();
    }

    method RunContainer(j: Journal) returns (r: Result)
      requires Inv() && seen.journal == disk.journal == Some(j) && j.phase == Migrating && tool == Idle
      modifies `faults, `data, `tool
      ensures Inv()
      ensures old(faults) == [] ==> r == Ok && faults == []
      ensures Single(old(faults)) ==> Met(old(faults), faults, 2, r)
      ensures r == Ok ==> Good(Some(j.(phase := Migrated)))
    {
      hide PointerFits, Keeps;
      r := Migrate();
      if r == Ok {
        r := CheckRevision(Target);
      }
    }

    lemma MayMigrate(j: Journal)
      requires Inv() && seen.journal == Some(j) && j.phase == SnapshotsComplete
      ensures Good(Some(j.(phase := Migrating)))
    {
    }

    lemma MayGoForward(j: Journal)
      requires Inv() && seen.journal == Some(j) && (j.phase == Migrated || Forward(j.phase))
      ensures Good(Some(j.(phase := WritersMayHaveStarted))) && Good(Some(j.(phase := Verified)))
    {
    }

    lemma PointersFit(p: Phase)
      requires Inv() && Unfinished(seen.journal) && !Terminal(p)
      requires Forward(p) || !Forward(seen.journal.value.phase)
      ensures forall j: Journal ::
                PointerFits(Some(j.(phase := p)), seen.active) && PointerFits(Some(j.(phase := p)), disk.active)
    {
    }

    /** From a prepared journal to a migrated database. */
    method MigrateLeg(j: Journal) returns (next: Journal, r: Result)
      requires Inv() && seen.journal == disk.journal == Some(j) && j.phase == Prepared
      modifies `faults, `seen, `disk, `data, `archives, `present, `previousLive, `targetLive, `database, `tool, `cold
      ensures seen.journal.Some? && Backward(seen.journal.value.phase)
      ensures OnlyServer(old(data), if NeedsRestore(seen.journal.value.phase) then cold else data)
      ensures Single(old(faults)) && old(present) && old(archives) == Pair(None, None) ==>
                Met(old(faults), faults, 15, r)
      ensures present == old(present) || !Unfinished(seen.journal)
      ensures Inv() && Unfinished(seen.journal) && Unfinished(disk.journal)
      ensures old(faults) == [] && old(present) && old(archives) == Pair(None, None) ==> r == Ok && faults == []
      ensures r == Ok ==> seen.journal == disk.journal == Some(next) && next.phase == Migrated
    {
      hide Good, Inv, PointerFits;
      next, r := SnapshotLeg(j);
      if r == Ok {
        next, r := MigrateSaved(next);
      }
    }

    /** The migration, between its two phases. */
    method MigrateSaved(j: Journal) returns (next: Journal, r: Result)
      requires Inv() && seen.journal == disk.journal == Some(j) && j.phase == SnapshotsComplete
      requires tool == Idle && cold == data
      modifies `faults, `seen, `disk, `data, `archives, `present, `database, `tool
      ensures seen.journal.Some? && Backward(seen.journal.value.phase)
      ensures NeedsRestore(seen.journal.value.phase) || data == cold
      ensures Single(old(faults)) ==> Met(old(faults), faults, 5, r)
      ensures present == old(present) || !Unfinished(seen.journal)
      ensures Inv() && Unfinished(seen.journal) && Unfinished(disk.journal)
      ensures old(faults) == [] ==> r == Ok && faults == []
      ensures r == Ok ==> seen.journal == disk.journal == Some(next) && next.phase == Migrated
    {
      hide Good, Inv, PointerFits;
      MayMigrate(j);
      PointersFit(Migrating);
      next, r := Enter(j, Migrating);
      if r == Ok {
        r := RunMigration(next);
      }
      if r == Ok {
        PointersFit(Migrated);
        next, r := Enter(next, Migrated);
      }
    }

    method SnapshotLeg(j: Journal) returns (next: Journal, r: Result)
      requires Inv() && seen.journal == disk.journal == Some(j) && j.phase == Prepared
      modifies `faults, `seen, `disk, `archives, `present, `previousLive, `targetLive, `database, `tool, `cold
      ensures r == Ok ==> cold == data
      ensures seen.journal.Some? && seen.journal.value.phase in {Prepared, SnapshotsComplete}
      ensures Single(old(faults)) && old(present) && old(archives) == Pair(None, None) ==>
                Met(old(faults), faults, 10, r)
      ensures present == old(present) || !Unfinished(seen.journal)
      ensures Inv() && Unfinished(seen.journal) && Unfinished(disk.journal)
      ensures old(faults) == [] && old(present) && old(archives) == Pair(None, None) ==> r == Ok && faults == []
      ensures r == Ok ==> seen.journal == disk.journal == Some(next) && next.phase == SnapshotsComplete && tool == Idle
    {
      hide Good, Inv, PointerFits;
      next := j;
      r := StopAll();
      if r == Ok {
        next, r := TakeSnapshots(j);
      }
      if r == Ok {
        PointersFit(SnapshotsComplete);
        next, r := Enter(next, SnapshotsComplete);
      }
    }

    /** From a migrated database to verified writers of the target. */
    method ForwardLeg(j: Journal) returns (r: Result)
      requires Inv() && seen.journal == disk.journal == Some(j) && j.phase == Migrated
      modifies `faults, `seen, `disk, `archives, `present, `app, `diskApp, `kernel, `reverted, `previousLive,
               `targetLive
      ensures seen.journal.Some? && (Forward(seen.journal.value.phase) || seen.journal == old(seen).journal)
      ensures Single(old(faults)) && |old(faults)| == 1 ==> seen.journal == old(seen).journal
      ensures Single(old(faults)) ==> Met(old(faults), faults, 6, r)
      ensures present == old(present) || !Unfinished(seen.journal)
      ensures (reverted ==> old(reverted)) && (old(kernel) == [] ==> diskApp == old(diskApp) && kernel == [])
      ensures Inv() && Unfinished(seen.journal) && Unfinished(disk.journal)
      ensures old(faults) == [] ==> r == Ok && faults == []
      ensures r == Ok ==> seen == disk && seen.journal.value.phase == Verified && app == Some(Target) && !reverted
    {
      hide Good, Inv, PointerFits;
      r := InstallTarget();
      if r == Ok {
        r := StartTarget(j);
      }
    }

    method StartTarget(j: Journal) returns (r: Result)
      requires Inv() && seen.journal == disk.journal == Some(j) && j.phase == Migrated && app == Some(Target)
      modifies `faults, `seen, `disk, `archives, `present, `previousLive, `targetLive
      ensures seen.journal.Some? && (Forward(seen.journal.value.phase) || seen.journal == old(seen).journal)
      ensures Single(old(faults)) ==> Met(old(faults), faults, 5, r)
      ensures present == old(present) || !Unfinished(seen.journal)
      ensures Inv() && Unfinished(seen.journal) && Unfinished(disk.journal)
      ensures old(faults) == [] ==> r == Ok && faults == []
      ensures r == Ok ==> seen == disk && seen.journal.value.phase == Verified
    {
      hide Good, Inv, PointerFits;
      var next := j;
      MayGoForward(next);
      PointersFit(WritersMayHaveStarted);
      next, r := Enter(next, WritersMayHaveStarted);
      if r == Ok {
        r := StartSide(Target, true);
      }
      if r == Ok {
        MayGoForward(next);
        PointersFit(Verified);
        next, r := Enter(next, Verified);
      }
    }

    method InstallTarget() returns (r: Result)
      requires Inv() && Unfinished(seen.journal) && Unfinished(disk.journal)
      modifies `faults, `app, `diskApp, `kernel, `reverted
      ensures Single(old(faults)) ==> Met(old(faults), faults, 1, r)
      ensures (reverted ==> old(reverted)) && (old(kernel) == [] ==> diskApp == old(diskApp) && kernel == [])
      ensures Inv()
      ensures old(faults) == [] ==> r == Ok && faults == []
      ensures r == Ok ==> app == Some(Target) && !reverted
    {
      r := InstallApp(Target);
    }

    predicate StoppedAndMarked()
      reads `seen, `disk, `previousLive, `targetLive, `database, `tool
    {
      !previousLive && !targetLive && !database && tool == Idle && seen.rollbackRequired && disk == seen
    }

    /** The transition went back: the previous stack runs on its own data. */
    ghost predicate WentBack(before: Pair<Content>)
      reads `seen, `data, `previousLive, `archives, `present
    {
      && seen.journal.Some? && seen.journal.value.phase == Recovered && previousLive
      && OnlyServer(before, data) && SnapshotsGone()
    }

    /** Whatever failed, the stack is stopped and the state marked, as far as that works. */
    method StopAndMark() returns (r: Result)
      requires Inv()
      modifies `faults, `seen, `disk, `previousLive, `targetLive, `database, `tool
      ensures Inv() && seen.journal == old(seen.journal)
      ensures disk.journal == old(disk.journal) || disk.journal == seen.journal
      ensures r != Ok
      ensures old(faults) == [] ==> r == Failed && !previousLive && !targetLive && !database && tool == Idle
      ensures old(faults) == [] ==> seen.rollbackRequired && disk == seen
    {
      hide Good, Inv;
      var stopped := StopSafely();
      if stopped == Died {
        return Died;
      }
      r := MarkSafely();
      r := if r == Died then Died else Failed;
    }

    method MarkSafely() returns (r: Result)
      requires Inv()
      modifies `faults, `seen, `disk
      ensures Inv() && seen.journal == old(seen.journal)
      ensures disk.journal == old(disk.journal) || disk.journal == seen.journal
      ensures old(faults) == [] ==> r == Ok && faults == []
      ensures r == Ok ==> seen.rollbackRequired && disk == seen
    {
      hide Good, PointerFits;
      r := MarkRollbackRequired();
    }

    /** `_promote_schema`: on failure the durable phase decides which way recovery goes. */
    method PromoteSchema(appWasRunning: bool) returns (r: Result)
      requires Inv()
      modifies `faults, `seen, `disk, `data, `archives, `present, `linked, `app, `diskApp, `kernel, `reverted,
               `previousLive, `targetLive, `database, `tool, `cold
      // one failure after the journal is there and before the target may write: the promotion is taken back
      ensures Single(old(faults)) && old(MayPromote()) && 2 < |old(faults)| <= 18 ==>
                r == Failed && faults == [] && WentBack(old(data))
      // one failure later on: it is taken back, or left stopped and marked for a recovery that goes forward
      ensures Single(old(faults)) && old(MayPromote()) && 18 < |old(faults)| && r == Failed ==>
                WentBack(old(data))
                || (StoppedAndMarked() && Unfinished(seen.journal) && Forward(seen.journal.value.phase))
      ensures Blocked() ==> old(Blocked())
      ensures (reverted ==> old(reverted)) && (old(kernel) == [] ==> diskApp == old(diskApp) && kernel == [])
      ensures Inv()
      ensures r == Ok ==> seen == disk && seen.journal.Some? && seen.journal.value.phase == Verified
      ensures r == Ok ==> app == Some(Target) && !reverted
      ensures old(faults) == [] && old(MayPromote()) ==> r == Ok && faults == []
      // a promotion that failed while its controller lived is recovered, or left unfinished
      ensures r == Failed && old(MayPromote()) && !Unfinished(seen.journal) ==>
                seen.journal == old(seen.journal) || (seen.journal.Some? && seen.journal.value.phase == Recovered)
    {
      hide Good, Inv, PointerFits, Single;
      if !MayPromote() {
        return Failed;
      }
      r := Check();  // images, bundles, migration path, volume identities
      if r != Ok { return; }
      NewDirectory();
      var j := Journal(Prepared, Pair(None, None), appWasRunning);
      MayPrepare(j);
      j, r := Enter(j, Prepared);
      if r == Ok {
        r := MigrateOrGoBack(j);
      }
    }

    /** The part of a promotion that is recovered when it fails. */
    method MigrateOrGoBack(j: Journal) returns (r: Result)
      requires Inv() && seen.journal == disk.journal == Some(j) && j.phase == Prepared
      requires present && archives == Pair(None, None)
      modifies `faults, `seen, `disk, `data, `archives, `present, `linked, `app, `diskApp, `kernel, `reverted,
               `previousLive, `targetLive, `database, `tool, `cold
      ensures (reverted ==> old(reverted)) && (old(kernel) == [] ==> diskApp == old(diskApp) && kernel == [])
      ensures Inv() && !Blocked()
      ensures r == Ok ==> seen == disk && seen.journal.Some? && seen.journal.value.phase == Verified
      ensures r == Ok ==> app == Some(Target) && !reverted
      ensures old(faults) == [] ==> r == Ok && faults == []
      ensures Single(old(faults)) && |old(faults)| <= 16 ==> r == Failed && faults == [] && WentBack(old(data))
      ensures Single(old(faults)) && r == Failed ==>
                WentBack(old(data))
                || (StoppedAndMarked() && Unfinished(seen.journal) && Forward(seen.journal.value.phase))
      ensures r == Failed && !Unfinished(seen.journal) ==> seen.journal.Some? && seen.journal.value.phase == Recovered
    {
      hide Good, Inv, PointerFits;
      var next;
      next, r := MigrateLeg(j);
      if r == Ok {
        r := ForwardLeg(next);
      }
      if r == Failed {
        r := AfterFailure();
      }
    }

    /** The durable phase decides: back at once, or stopped until a recovery goes forward. */
    method AfterFailure() returns (r: Result)
      requires Inv() && Unfinished(seen.journal) && Unfinished(disk.journal)
      modifies `faults, `seen, `disk, `data, `archives, `present, `linked, `app, `diskApp, `kernel, `reverted,
               `previousLive, `targetLive, `database, `tool
      // undisturbed, it goes back at once, or leaves everything stopped and marked for a recovery that goes forward
      ensures old(faults) == [] && old(Backward(seen.journal.value.phase) && !Blocked()) ==>
                r == Failed && faults == []
                && WentBack(if NeedsRestore(old(seen).journal.value.phase) then cold else old(data))
      // and one more failure on the way back leaves everything stopped and marked, unless it is back already
      ensures Single(old(faults)) && old(Backward(seen.journal.value.phase) && !Blocked()) ==>
                r == Failed
                && (StoppedAndMarked() || (seen.journal.Some? && seen.journal.value.phase == Recovered && previousLive))
      ensures old(faults) == [] && old(!Backward(seen.journal.value.phase)) ==>
                r == Failed && StoppedAndMarked() && seen.journal == old(seen).journal
      ensures present == old(present) || !Unfinished(seen.journal)
      ensures (reverted ==> old(reverted)) && (old(kernel) == [] ==> diskApp == old(diskApp) && kernel == [])
      ensures Inv() && r != Ok && seen.journal.Some?
      ensures Unfinished(seen.journal) || seen.journal.value.phase == Recovered
    {
      hide Good, Inv, PointerFits;
      var phase := seen.journal.value.phase;
      if Backward(phase) {
        PointersArePrevious();
        r := Resume(seen.journal.value);
        if r == Failed {
          r := StopAndMark();
        } else if r == Ok {
          r := Failed;  // recovered, and the promotion still failed
        }
      } else {
        r := StopAndMark();
      }
    }

    /** Every operation has its own snapshot directory. */
    method NewDirectory()
      requires Inv() && !Unfinished(seen.journal)
      modifies `archives, `present, `linked
      ensures Inv() && archives == Pair(None, None) && present && !linked
    {
      hide PointerFits, Keeps;
      archives, present, linked := Pair(None, None), true, false;
    }

    lemma MayPrepare(j: Journal)
      requires Inv() && MayPromote() && j.phase == Prepared
      ensures Good(Some(j)) && PointerFits(Some(j), seen.active) && PointerFits(Some(j), disk.active)
    {
    }

    lemma PointersArePrevious()
      requires Inv() && Unfinished(seen.journal) && !Forward(seen.journal.value.phase)
      ensures seen.active == disk.active == Previous
    {
    }

    predicate MayPromote()
      reads `seen, `previousLive
    {
      !Unfinished(seen.journal) && !seen.rollbackRequired && seen.active == Previous && previousLive
    }

    /** `operation_promote`: publication of the verified target, then the last phase. */
    method Promote(appWasRunning: bool) returns (r: Result)
      requires Inv()
      modifies `faults, `seen, `disk, `data, `archives, `present, `linked, `app, `diskApp, `kernel, `reverted,
               `previousLive, `targetLive, `database, `tool, `cold
      // one failure after the journal is there and before the target may write: the promotion is taken back
      ensures Single(old(faults)) && old(MayPromote()) && 2 < |old(faults)| <= 18 ==>
                r == Failed && faults == [] && WentBack(old(data))
      ensures Blocked() ==> old(Blocked())
      ensures (reverted ==> old(reverted)) && (old(kernel) == [] ==> diskApp == old(diskApp) && kernel == [])
      ensures Inv()
      ensures old(faults) == [] && old(MayPromote()) ==> r == Ok && faults == [] && SnapshotsGone()
      ensures r == Ok ==> seen.journal.Some? && seen.journal.value.phase == Complete && seen == disk && !reverted
    {
      hide Good, Inv, PointerFits;
      r := PromoteSchema(appWasRunning);
      if r == Ok {
        r := PublishSide(Target);
      }
      if r == Ok {
        MayFinish(Target, seen.journal.value);
        SnapshotsNotNeeded();
        var j;
        j, r := Enter(seen.journal.value, Complete);
      }
    }

    lemma SnapshotsNotNeeded()
      requires Inv() && seen.journal == disk.journal && seen.journal.Some? && Forward(seen.journal.value.phase)
      ensures !NeedsSnapshots(disk.journal)
    {
    }

    /** The snapshots are needed, and they are gone. */
    predicate Blocked()
      reads `seen, `present
    {
      seen.journal.Some? && NeedsRestore(seen.journal.value.phase) && !present
    }

    /** `operation_recover_schema`: it ends the transition unless something fails again. */
    method Recover() returns (r: Result)
      requires Inv()
      modifies `faults, `seen, `disk, `data, `archives, `present, `linked, `app, `diskApp, `kernel, `reverted,
               `previousLive, `targetLive, `database, `tool
      // a recovery that fails once leaves everything stopped and marked
      ensures Single(old(faults)) && 2 < |old(faults)| && r != Ok
              && old(Unfinished(seen.journal)) && !old(Blocked()) ==>
                r == Failed && StoppedAndMarked()
      ensures r == Ok ==>
                && old(seen).journal.Some?
                && (if Forward(old(seen).journal.value.phase) then targetLive else previousLive)
                && OnlyServer(if NeedsRestore(old(seen).journal.value.phase) then cold else old(data), data)
      ensures Blocked() ==> old(Blocked())
      ensures (reverted ==> old(reverted)) && (old(kernel) == [] ==> diskApp == old(diskApp) && kernel == [])
      ensures Inv()
      ensures old(faults) == [] && old(Unfinished(seen.journal) && !Blocked()) ==>
                r == Ok && faults == [] && SnapshotsGone()
      ensures old(Blocked()) ==> r != Ok && Blocked() && seen.journal == old(seen).journal
      ensures r == Ok ==> disk.journal == seen.journal && !seen.rollbackRequired && !reverted
      ensures r == Ok || (old(Unfinished(seen.journal)) && !Unfinished(seen.journal)) ==>
                old(seen).journal.Some? && seen.journal.Some? &&
                seen.journal.value.phase == if Forward(old(seen).journal.value.phase) then Complete else Recovered
    {
      hide Good, Inv, PointerFits, Single, OnlyServer, SnapshotsGone;
      if !Unfinished(seen.journal) {
        return Failed;
      }
      r := Check();  // checkouts, images
      if r != Ok { return; }
      var j := seen.journal.value;
      MayRepeat();
      j, r := Enter(j, j.phase);  // the new controller
      if r != Ok { return; }
      PointersArePreviousUnlessForward();
      r := Resume(j);
      if r == Failed {
        r := StopAndMark();
      }
    }

    lemma MayRepeat()
      requires Inv() && seen.journal.Some?
      ensures Good(seen.journal) && PointerFits(seen.journal, seen.active) && PointerFits(seen.journal, disk.active)
      ensures forall j: Journal, p :: p == j.phase ==> j.(phase := p) == j
    {
    }

    lemma PointersArePreviousUnlessForward()
      requires Inv() && Unfinished(seen.journal)
      ensures !Forward(seen.journal.value.phase) ==> seen.active == disk.active == Previous
    {
    }

    // ----- The rest of the world -----

    /** A running writer writes to a volume. */
    method AppWrites(side: Side, v: Volume, value: int)
      requires Inv()
      modifies `data, `written
      ensures Inv()
      ensures written == if (if side == Target then old(targetLive) else old(previousLive))
                         then Put(old(written), v, Get(old(written), v) + [Write(side, value)]) else old(written)
      ensures if if side == Target then old(targetLive) else old(previousLive) then
                var before := Get(old(data), v);
                before.Content? && data == Put(old(data), v, before.(writes := before.writes + [Write(side, value)]))
              else data == old(data)
    {
      if if side == Target then targetLive else previousLive {
        assert Intact();
        var c := Get(data, v);
        data := Put(data, v, c.(writes := c.writes + [Write(side, value)]));
        written := Put(written, v, Get(written, v) + [Write(side, value)]);
      }
    }

    /** A container whose client is gone goes on with what it was told to do. */
    method ToolRuns(changed: bool, finished: bool)
      requires Inv()
      modifies `data, `tool, `linked
      ensures Inv()
      ensures tool == if finished then Idle else old(tool)
      ensures old(tool) == Idle || (!changed && !finished) ==> data == old(data)
      ensures old(tool) == MigrationRunning && finished && old(data).postgres.Content? ==>
                data == old(data).(postgres := old(data).postgres.(schema := Head(Target)))
      ensures old(tool).RestoreRunning? && finished && Get(archives, old(tool).volume).Some? ==>
                data == Put(old(data), old(tool).volume, Get(archives, old(tool).volume).value)
    {
      hide Inv;
      match tool {
        case Idle =>
        case MigrationRunning => MigrationRuns(changed, finished);
        case RestoreRunning(v) => RestoreRuns(v, changed, finished);
      }
      if finished {
        ToolEnds();
      }
    }

    method MigrationRuns(changed: bool, finished: bool)
      requires Inv() && tool == MigrationRunning
      modifies `data
      ensures Inv()
      ensures !changed && !finished ==> data == old(data)
      ensures finished && old(data).postgres.Content? ==>
                data == old(data).(postgres := old(data).postgres.(schema := Head(Target)))
    {
      if data.postgres.Content? && (changed || finished) {
        data := data.(postgres := data.postgres.(schema := if finished then Head(Target) else Between));
      }
    }

    method RestoreRuns(v: Volume, changed: bool, finished: bool)
      requires Inv() && tool == RestoreRunning(v)
      modifies `data, `linked
      ensures Inv()
      ensures !changed && !finished ==> data == old(data)
      ensures finished && Get(archives, v).Some? ==> data == Put(old(data), v, Get(archives, v).value)
    {
      if finished && Get(archives, v).Some? {
        data, linked := Put(data, v, Get(archives, v).value), present;
      } else if changed {
        data := Put(data, v, Torn);
      }
    }

    method ToolEnds()
      requires Inv()
      modifies `tool
      ensures Inv() && tool == Idle
    {
      hide PointerFits, Keeps, SnapshotsUsable;
      tool := Idle;
    }

    /** Power is lost: processes are gone, unless restarted, and only what reached the disk remains. */
    method PowerLoss(restarted: bool)
      requires Inv()
      modifies `seen, `archives, `present, `app, `reverted, `previousLive, `targetLive, `database, `tool
      ensures Inv() && seen == disk && app == diskApp
      ensures reverted <==> old(reverted) || old(app) != diskApp
      // the snapshots stay exactly when the entry of their directory had reached the disk
      ensures present == linked && archives == if linked then old(archives) else Pair(None, None)
      // containers are gone, and with the machine the backends
      ensures !database && tool == Idle
      ensures previousLive == (old(previousLive) && restarted) && targetLive == (old(targetLive) && restarted)
    {
      hide PointerFits;
      AppIsTakenBack();
      SnapshotsAreTakenBack();
      ShowDisk();
      ProcessesAreGone(restarted);
    }

    method SnapshotsAreTakenBack()
      requires Inv()
      modifies `archives, `present
      ensures Inv() && present == linked && archives == if linked then old(archives) else Pair(None, None)
    {
      hide PointerFits;
      present := linked;
      if !linked {
        archives := Pair(None, None);
      }
    }

    method ShowDisk()
      requires Inv()
      modifies `seen
      ensures Inv() && seen == disk
    {
      hide Good, PointerFits;
      seen := disk;
    }

    method AppIsTakenBack()
      requires Inv()
      modifies `app, `reverted
      ensures Inv() && app == diskApp && (reverted <==> old(reverted) || old(app) != diskApp)
    {
      hide PointerFits;
      reverted := reverted || app != diskApp;
      app := diskApp;
    }

    /** The kernel writes back the app, which nobody synced. */
    method WritesBack(progress: Progress)
      requires Inv()
      modifies `diskApp
      ensures Inv() && diskApp == Effect(progress, app, None, old(diskApp))
    {
      hide PointerFits;
      diskApp := Effect(progress, app, None, diskApp);
    }

    /** ... or the entry of the snapshot directory. */
    method DirectoryReaches()
      requires Inv()
      modifies `linked
      ensures Inv() && linked == present
    {
      hide PointerFits;
      linked := present;
    }

    method ProcessesAreGone(restarted: bool)
      requires Inv()
      modifies `previousLive, `targetLive, `database, `tool
      ensures Inv()
      ensures !database && tool == Idle
      ensures previousLive == (old(previousLive) && restarted) && targetLive == (old(targetLive) && restarted)
    {
      hide Inv;
      ContainersAreGone();
      if !restarted {
        WritersAreGone();
      }
    }

    method ContainersAreGone()
      requires Inv()
      modifies `database, `tool
      ensures Inv()
      ensures !database && tool == Idle
    {
      hide PointerFits, Keeps, SnapshotsUsable;
      database, tool := false, Idle;
    }

    method WritersAreGone()
      requires Inv()
      modifies `previousLive, `targetLive
      ensures Inv()
      ensures !previousLive && !targetLive
    {
      hide PointerFits, Keeps, Clean;
      previousLive, targetLive := false, false;
    }

    /** Another process tries to start a backend: the active side, or either of them. */
    method OtherStart(side: Side) returns (r: Result)
      requires Inv()
      modifies `faults, `previousLive, `targetLive
      ensures Inv()
      ensures Unfinished(seen.journal) ==> previousLive == old(previousLive) && targetLive == old(targetLive)
      ensures side != seen.active ==> previousLive == old(previousLive) && targetLive == old(targetLive)
    {
      if !Unfinished(seen.journal) && side != seen.active {
        return Failed;
      }
      r := StartBackend(side, false);
    }

    // ----- Every run -----

    /** Anything that can happen: a command under a fault script, or an outside event. */
    method Happens(e: Event)
      requires Inv()
      modifies this
      ensures Inv() && (reverted && !old(reverted) ==> e.PowerIsLost? && old(app) != old(diskApp))
      ensures diskApp != old(diskApp) ==> WritesApp(e)
      // nothing but a power loss takes snapshots that are needed
      ensures Blocked() && !old(Blocked()) ==> e.PowerIsLost? && !old(linked)
    {
      hide Good, Inv;
      match e
      case Promotes(script, appWasRunning, writebacks) =>
        faults, kernel := script, writebacks;
        var _ := Promote(appWasRunning);
      case Recovers(script, writebacks) =>
        faults, kernel := script, writebacks;
        var _ := Recover();
      case KernelWrites(progress) => WritesBack(progress);
      case DirectoryIsWritten => DirectoryReaches();
      case Writes(side, v, value) => AppWrites(side, v, value);
      case ContainerRuns(changed, finished) => ToolRuns(changed, finished);
      case PowerIsLost(restarted) => PowerLoss(restarted);
      case SomebodyStarts(side, script) =>
        faults := script;
        var _ := OtherStart(side);
    }

    /** The invariant holds after every sequence of events, whatever fails on the way. */
    method Run(events: seq<Event>)
      requires Inv()
      modifies this
      ensures Inv()
      ensures NoPowerLoss(events) && reverted ==> old(reverted)
      ensures NoPowerLoss(events) && Blocked() ==> old(Blocked())
      ensures diskApp != old(diskApp) ==> exists i :: 0 <= i < |events| && WritesApp(events[i])
    {
      hide Good, Inv, Blocked;
      for i := 0 to |events|
        invariant Inv()
        invariant NoPowerLoss(events) && reverted ==> old(reverted)
        invariant NoPowerLoss(events) && Blocked() ==> old(Blocked())
        invariant diskApp != old(diskApp) ==> exists k :: 0 <= k < |events| && WritesApp(events[k])
      {
        Happens(events[i]);
      }
    }

    /** After any run, one undisturbed recovery ends an unfinished transition, unless its snapshots are gone. */
    method RunAndRecover(events: seq<Event>)
      requires Inv()
      modifies this
      ensures Inv() && (Unfinished(seen.journal) <==> Blocked())
    {
      hide Good, Inv;
      Run(events);
      if Unfinished(seen.journal) {
        faults, kernel := [], [];
        var _ := Recover();
      }
    }

    /** After a power loss it does so exactly when no snapshot is needed, or their directory had reached the disk. */
    method RebootAndRecover(restarted: bool)
      requires Inv()
      modifies this
      ensures Inv()
      ensures !Unfinished(seen.journal) <==>
                old(!Unfinished(disk.journal) || !NeedsRestore(disk.journal.value.phase) || linked)
    {
      hide Good, Inv;
      PowerLoss(restarted);
      if Unfinished(seen.journal) {
        faults, kernel := [], [];
        var _ := Recover();
      }
    }

    /** A finished transition is on one side, with its pointer, its data, and its app unless that was taken back. */
    lemma FinishedOnOneSide()
      requires Inv() && seen.journal.Some? && !Unfinished(seen.journal)
      ensures Intact()
      ensures seen.journal.value.phase == Complete ==>
                seen.active == disk.active == Target && (app == Some(Target) <==> !reverted)
                && data.postgres.schema == Head(Target) && !previousLive
      ensures seen.journal.value.phase == Recovered ==>
                seen.active == disk.active == Previous && (app == Some(Previous) <==> !reverted)
                && data.postgres.schema == Head(Previous) && !targetLive
    {
    }

    /** Every write ever made is in the volumes, or in both archives. */
    ghost predicate Preserved()
      reads `data, `archives, `written
    {
      || Intact()
      || (archives.postgres.Some? && archives.minio.Some?
          && Holds(archives.postgres.value, written.postgres) && Holds(archives.minio.value, written.minio))
    }

    /** Every write ever made is kept, unless a volume is torn by a restore whose snapshots are gone. */
    lemma NoWriteIsLost()
      requires Inv()
      ensures Preserved() <==> Intact() || present
      ensures !Intact() ==>
                seen.journal.Some? && NeedsRestore(seen.journal.value.phase)
                && disk.journal.Some? && NeedsRestore(disk.journal.value.phase)
    {
    }
  }

  ghost predicate NoPowerLoss(events: seq<Event>) {
    forall i :: 0 <= i < |events| ==> !events[i].PowerIsLost?
  }

  predicate WritesApp(e: Event) {
    e.KernelWrites? || (e.Promotes? && e.writebacks != []) || (e.Recovers? && e.writebacks != [])
  }

  datatype Event =
    | Promotes(script: seq<Fault>, appWasRunning: bool, writebacks: seq<Progress>)
    | Recovers(script: seq<Fault>, writebacks: seq<Progress>)
    | KernelWrites(progress: Progress)
    | DirectoryIsWritten
    | Writes(side: Side, volume: Volume, value: int)
    | ContainerRuns(changed: bool, finished: bool)
    | PowerIsLost(restarted: bool)
    | SomebodyStarts(side: Side, script: seq<Fault>)

  /** A promotion whose new app never reached the disk: the transition is complete and the previous app is back. */
  method CompletedAppIsTakenBack() returns (w: World)
    ensures w.Inv() && w.reverted && w.seen.journal.Some? && w.seen.journal.value.phase == Complete
    ensures w.seen.active == Target && w.app == Some(Previous) && fresh(w)
  {
    var cold := Content([], Head(Previous), 0);
    w := new World(Pair(cold, cold), Pair([], []));
    hide World.Inv, World.Good;
    var r := w.Promote(true);
    w.PowerLoss(false);
    w.FinishedOnOneSide();
  }

  /** After an undisturbed promotion, a power loss leaves the new app exactly when it was written back whole. */
  method PromotionSurvives(w: World, appWasRunning: bool, writes: seq<Progress>)
    requires w.Inv() && w.MayPromote() && w.diskApp != Some(Target)
    modifies w
    ensures w.Inv() && w.seen.journal.Some? && w.seen.journal.value.phase == Complete && w.seen.active == Target
    ensures w.app == Some(Target) <==> EndsWhole(writes)
    ensures w.reverted <==> !EndsWhole(writes)
  {
    hide World.Inv, World.Good;
    w.faults, w.kernel := [], [];
    var r := w.Promote(appWasRunning);
    w.FinishedOnOneSide();
    for i := 0 to |writes|
      invariant w.Inv() && w.seen == w.disk && w.seen.journal.Some? && w.seen.journal.value.phase == Complete
      invariant w.app == Some(Target) && !w.reverted
      invariant w.diskApp == w.app <==> EndsWhole(writes[..i])
    {
      assert writes[..i + 1][..i] == writes[..i];
      w.WritesBack(writes[i]);
    }
    assert writes[..|writes|] == writes;
    w.PowerLoss(false);
    w.FinishedOnOneSide();
  }

  /** A stack that runs, with one write in its database. */
  method Runs() returns (w: World)
    ensures w.Inv() && w.seen == w.disk == Root(None, Previous, false) && w.previousLive && w.faults == [] && fresh(w)
    ensures w.written.postgres == [Write(Previous, 7)]
  {
    hide World.Inv;
    var writes := [Write(Previous, 7)];
    w := new World(Pair(Content(writes, Head(Previous), 0), Content([], Head(Previous), 0)), Pair(writes, []));
  }

  /** A promotion of it that has prepared the directory of its snapshots. */
  method Prepares() returns (w: World, j: Journal)
    ensures w.Inv() && w.seen.journal == w.disk.journal == Some(j) && j.phase == Prepared && w.faults == []
    ensures w.present && !w.linked && w.archives == Pair(None, None) && fresh(w)
    ensures w.written.postgres == [Write(Previous, 7)]
  {
    w := Runs();
    hide World.Inv, World.Good, PointerFits;
    w.NewDirectory();
    j := Journal(Prepared, Pair(None, None), true);
    w.MayPrepare(j);
    var r;
    j, r := w.Enter(j, Prepared);
  }

  /** ... and is about to migrate: both archives are synced, the entry of their directory is not. */
  method Migrates() returns (w: World, j: Journal)
    ensures w.Inv() && w.seen.journal == w.disk.journal == Some(j) && j.phase == Migrating && w.tool == Idle
    ensures w.present && !w.linked && w.faults == [] && fresh(w) && w.written.postgres == [Write(Previous, 7)]
  {
    w, j := Prepares();
    hide World.Inv, World.Good, PointerFits;
    var r;
    j, r := w.SnapshotLeg(j);
    w.MayMigrate(j);
    w.PointersFit(Migrating);
    j, r := w.Enter(j, Migrating);
  }

  /** The power goes: the journal asks for snapshots whose directory never reached the disk. */
  method SnapshotsVanish() returns (w: World)
    ensures w.Inv() && w.Blocked() && fresh(w)
  {
    var j;
    w, j := Migrates();
    hide World.Inv, World.Good;
    w.PowerLoss(false);
  }

  /** It goes while a recovery has torn a volume: its writes are neither there nor in an archive. */
  method WritesVanish() returns (w: World)
    ensures w.Inv() && w.Blocked() && !w.Preserved() && w.written.postgres != [] && fresh(w)
  {
    var j;
    w, j := Migrates();
    hide World.Inv, World.Good;
    var r;
    w.MayRestore(j);
    w.PointersFit(Restoring);
    j, r := w.Enter(j, Restoring);
    w.faults := [Fault(true, true, Synced(false, false, false))];
    r := w.RestoreOne(j, Postgres);
    w.PowerLoss(false);
    w.NoWriteIsLost();
  }
}
