/**
 The ordinary promote and rollback of the Dev stack: one pinned operation whose receipt
 and app backup stay until its result, or the state before it, is published and read back.
 */
module OrdinaryTransition {
  import opened Faults

  type Manifest = nat

  datatype App = Absent | Bundle(manifest: Manifest) | Broken

  /** What an operation moves from one manifest to another. */
  datatype Stable = Stable(active: Option<Manifest>, app: App, runtime: Option<Manifest>)

  /** Everything belongs to one manifest, or to none. */
  predicate OneSide(s: Stable) {
    match s.active
    case None => s.app == Absent && s.runtime == None
    case Some(m) => (s.app == Absent || s.app == Bundle(m)) && (s.runtime == None || s.runtime == Some(m))
  }

  datatype Record = Stored(version: nat) | Published

  /** The pinned operation; `digest` is the digest of the backup and stands for the app it identifies. */
  datatype Operation = Operation(
    previous: Option<Manifest>, target: Manifest, targetRecord: Option<Record>,
    previousRuntime: Option<Manifest>, previousWasLive: bool, appWasRunning: bool,
    backup: Option<nat>, digest: App)

  function Before(op: Operation): Stable {
    Stable(op.previous, op.digest, op.previousRuntime)
  }

  function After(op: Operation): Stable {
    Stable(Some(op.target), Bundle(op.target), Some(op.target))
  }

  predicate Pinned(op: Operation) {
    && OneSide(Before(op))
    && (op.backup.Some? <==> op.digest != Absent)
    && (op.previousWasLive ==> op.previousRuntime.Some?)
  }

  datatype Root = Root(receipt: Option<Operation>, active: Option<Manifest>, runtime: Option<Manifest>)

  function Mix(disk: Root, seen: Root, s: Synced): Root {
    Root(if s.first then seen.receipt else disk.receipt,
         if s.second then seen.active else disk.active,
         if s.third then seen.runtime else disk.runtime)
  }

  class World {
    var seen: Root                         // the state directory as every process reads it
    var disk: Root                         // as a power loss would reveal it
    var records: map<Manifest, Record>
    var backups: map<nat, App>
    var diskBackups: map<nat, App>         // copies and removals of backups are never synced
    var nextBackup: nat
    var app: App                           // the installed bundle
    var diskApp: App                       // and its unsynced counterpart on disk
    var live: Option<Manifest>             // the backend that runs
    var faults: seq<Fault>
    var kernel: seq<Progress>              // what reaches the disk while a command goes on
    ghost var outcome: Stable              // what the last finished operation left
    ghost var made: map<nat, App>          // what each finished copy was made of
    ghost var reached: set<nat>            // copies that reached the disk
    ghost var removed: set<nat>            // copies whose removal began to reach the disk
    ghost var pruned: set<nat>             // copies retention removed under a receipt that is still on disk

    // ----- The invariant -----

    predicate HasBackup(op: Operation)
      reads `backups
    {
      op.backup.Some? ==> op.backup.value in backups && backups[op.backup.value] == op.digest
    }

    /** The copy reached the disk, and its removal did not. */
    ghost predicate Durable(b: nat)
      reads `reached, `removed
    {
      b in reached && b !in removed
    }

    /** A view of the directory: settled without a receipt, pinned with one. */
    ghost predicate Good(root: Root)
      reads `outcome
    {
      match root.receipt
      case None => root.active == outcome.active && root.runtime == outcome.runtime
      case Some(op) =>
        && Pinned(op)
        && (root.active == op.previous || root.active == Some(op.target))
        && (root.runtime == op.previousRuntime || root.runtime == op.previous || root.runtime == Some(op.target))
    }

    /** A receipt names a finished copy. */
    ghost predicate Named(receipt: Option<Operation>)
      reads `made
    {
      receipt.Some? && receipt.value.backup.Some? ==>
        receipt.value.backup.value in made && made[receipt.value.backup.value] == receipt.value.digest
    }

    ghost predicate Copies()
      reads `backups, `diskBackups, `nextBackup, `made, `reached, `removed
    {
      && (forall b :: b in made ==> b < nextBackup)
      && (forall b :: b in backups ==> b < nextBackup)
      && (forall b :: b in diskBackups ==> b < nextBackup)
      // exactly the durable copies are whole on disk
      && (forall b :: b in made ==> (b in diskBackups && diskBackups[b] == made[b] <==> Durable(b)))
      && (forall b :: b in made ==> made[b].Bundle?)
      && (forall b :: b in made && b in backups && backups[b] == made[b] ==> b !in removed)
      && reached <= made.Keys
      && (forall b :: b in removed ==> b < nextBackup)
    }

    ghost predicate Inv()
      reads `seen, `disk, `backups, `diskBackups, `nextBackup, `outcome, `made, `reached, `removed, `pruned
    {
      && OneSide(outcome)
      && Good(seen) && Good(disk)
      && (seen.receipt == disk.receipt || (seen.active == disk.active && seen.runtime == disk.runtime))
      && Tracked(seen.receipt, disk.receipt)
    }

    /** The copies behind the receipt that is visible and the one on disk. */
    ghost predicate Tracked(visible: Option<Operation>, onDisk: Option<Operation>)
      reads `backups, `diskBackups, `nextBackup, `made, `reached, `removed, `pruned
    {
      && Copies() && Named(visible) && Named(onDisk)
      // a visible receipt lacks its backup only after a power loss, which revealed no durable copy
      && (visible.Some? && visible.value.backup.Some? ==>
            HasBackup(visible.value) || !Durable(visible.value.backup.value))
      // and a copy named on disk is removed by retention only
      && (onDisk.Some? && onDisk.value.backup.Some? ==> SparedUnlessPruned(onDisk.value.backup.value))
    }

    lemma TrackedWithout(visible: Option<Operation>, onDisk: Option<Operation>)
      requires Tracked(visible, onDisk)
      ensures Tracked(None, onDisk) && Tracked(None, None)
    {
    }

    lemma TrackedWith(visible: Option<Operation>, onDisk: Option<Operation>, op: Operation)
      requires Tracked(visible, onDisk) && HasBackup(op) && Named(Some(op))
      ensures Tracked(Some(op), onDisk) && Tracked(Some(op), Some(op))
    {
    }

    ghost predicate SparedUnlessPruned(b: nat)
      reads `backups, `diskBackups, `removed, `pruned
    {
      b in pruned || (b !in removed && (b in diskBackups ==> b in backups))
    }

    /** Without a receipt, the installed app is the one of the outcome. */
    ghost predicate Settled()
      reads `seen, `app, `outcome
    {
      seen.receipt.None? ==> app == outcome.app
    }

    constructor (active: Option<Manifest>, app: App, runtime: Option<Manifest>, records: map<Manifest, Record>)
      requires OneSide(Stable(active, app, runtime))
      ensures Inv() && seen == disk == Root(None, active, runtime) && this.app == diskApp == app
      ensures faults == [] && kernel == [] && backups == diskBackups == map[]
      ensures nextBackup == 0 && this.records == records
      ensures outcome == Stable(active, app, runtime) && reached == removed == pruned == {} && made == map[]
    {
      seen, disk := Root(None, active, runtime), Root(None, active, runtime);
      this.app, diskApp, this.records := app, app, records;
      backups, diskBackups, nextBackup := map[], map[], 0;
      live, faults, kernel := runtime, [], [];
      outcome, made := Stable(active, app, runtime), map[];
      reached, removed, pruned := {}, {}, {};
    }

    // ----- Steps -----

    method Take() returns (f: Fault)
      modifies `faults
      ensures f == First(old(faults)) && faults == Rest(old(faults))
      ensures Single(old(faults)) ==>
                Met(old(faults), faults, 1, Outcome(f)) && (|old(faults)| > 1 ==> f == Fine)
    {
      if Single(faults) {
        SingleStep(faults);
      }
      f, faults := First(faults), Rest(faults);
    }

    method Check() returns (r: Result)
      modifies `faults
      ensures r == Outcome(First(old(faults))) && faults == Rest(old(faults))
      ensures Single(old(faults)) ==> Met(old(faults), faults, 1, r)
    {
      var f := Take();
      return Outcome(f);
    }

    /** Atomic replacement and a sync of the directory, as `_write_json` does it. */
    method Replace(next: Root) returns (r: Result)
      modifies `faults, `seen, `disk
      ensures old(faults) == [] ==> r == Ok && faults == []
      ensures r == Ok ==> seen == disk == next
      ensures Single(old(faults)) ==> Met(old(faults), faults, 1, r)
      ensures r != Ok ==> (seen == next || seen == old(seen)) && exists s :: disk == Mix(old(disk), seen, s)
    {
      var f := Take();
      r := Outcome(f);
      if f == Fine {
        seen, disk := next, next;
      } else if f.applied {
        seen, disk := next, Mix(disk, next, f.synced);
      } else {
        assert disk == Mix(disk, seen, Synced(false, false, false));
      }
    }

    /** `_write_ordinary_receipt`, and the read that validates what was written. */
    method WriteReceipt(op: Operation) returns (r: Result)
      requires Inv() && Pinned(op) && HasBackup(op)
      requires seen.active == op.previous || seen.active == Some(op.target)
      requires seen.runtime == op.previousRuntime || seen.runtime == op.previous || seen.runtime == Some(op.target)
      requires seen.receipt.None? ==> Before(op) == outcome
      requires Named(Some(op))
      requires seen.receipt.Some? ==> seen.receipt.value == op
      modifies `faults, `seen, `disk
      ensures Inv() && seen.active == old(seen).active && seen.runtime == old(seen).runtime
      ensures old(faults) == [] ==> r == Ok && faults == []
      ensures seen.receipt == old(seen).receipt || seen.receipt == Some(op)
      ensures r == Ok ==> seen == disk && seen.receipt == Some(op)
      ensures Single(old(faults)) ==> Met(old(faults), faults, 2, r)
    {
      TrackedWith(seen.receipt, disk.receipt, op);
      hide Tracked, HasBackup;
      r := Replace(seen.(receipt := Some(op)));
      if r == Ok {
        r := Check();
      }
    }

    /** Under a durable receipt the installed app may be anything. */
    ghost predicate Working(op: Operation)
      reads `seen, `disk, `backups, `diskBackups, `nextBackup, `outcome, `made, `reached, `removed, `pruned
    {
      Inv() && seen.receipt == disk.receipt == Some(op)
    }

    method StopPrevious() returns (r: Result)
      modifies `faults, `live
      ensures old(faults) == [] ==> r == Ok && faults == []
      ensures r == Ok ==> live == None
      ensures Single(old(faults)) ==> Met(old(faults), faults, 1, r)
    {
      var f := Take();
      if f == Fine || f.applied {
        live := None;
      }
      r := Outcome(f);
    }

    /** The installed bundle may reach the disk at any time, in whole or in part. */
    method AppMayReach()
      modifies `kernel, `diskApp
      ensures old(kernel) == [] ==> diskApp == old(diskApp) && kernel == []
      ensures old(kernel) != [] ==>
                diskApp == Effect(old(kernel)[0], app, Broken, old(diskApp)) && kernel == old(kernel)[1..]
    {
      if kernel != [] {
        diskApp := Effect(kernel[0], app, Broken, diskApp);
        kernel := kernel[1..];
      }
    }

    method InstallApp(op: Operation) returns (r: Result)
      requires Working(op)
      modifies `faults, `app, `kernel, `diskApp
      ensures Working(op)
      ensures old(kernel) == [] ==> diskApp == old(diskApp) && kernel == []
      ensures old(kernel) != [] ==> diskApp == Effect(old(kernel)[0], old(app), Broken, old(diskApp))
      ensures old(faults) == [] ==> r == Ok && faults == []
      ensures r == Ok ==> app == Bundle(op.target)
      ensures Single(old(faults)) ==> Met(old(faults), faults, 1, r)
    {
      hide Inv;
      AppMayReach();
      var f := Take();
      if f == Fine {
        app := Bundle(op.target);
      } else if f.applied {
        app := if f.synced.first then Bundle(op.target) else Broken;
      }
      r := Outcome(f);
    }

    /** The runtime record, and then the backend behind its startup gate. */
    method StartBackend(op: Operation, m: Manifest) returns (r: Result)
      requires Working(op) && (Some(m) == op.previous || m == op.target)
      modifies `faults, `seen, `disk, `live
      ensures Working(op) && seen.active == old(seen).active
      ensures old(faults) == [] ==> r == Ok && faults == []
      ensures r == Ok ==> seen == disk && seen.runtime == Some(m) && live == Some(m)
      ensures Single(old(faults)) ==> Met(old(faults), faults, 2, r)
    {
      hide Tracked;
      r := Replace(seen.(runtime := Some(m)));
      if r == Ok {
        var f := Take();
        if f == Fine || f.applied {
          live := Some(m);
        }
        r := Outcome(f);
      }
    }

    /** `_restore_app`: the backup is copied and swapped in, or the app is taken away. */
    method RestoreApp(op: Operation) returns (r: Result)
      requires Working(op)
      modifies `faults, `app, `kernel, `diskApp
      ensures Working(op)
      ensures old(kernel) == [] ==> diskApp == old(diskApp) && kernel == []
      ensures old(kernel) != [] && HasBackup(op) ==> diskApp == Effect(old(kernel)[0], old(app), Broken, old(diskApp))
      ensures old(faults) == [] && HasBackup(op) ==> r == Ok && faults == []
      ensures r == Ok && HasBackup(op) ==> app == op.digest
      ensures Single(old(faults)) && HasBackup(op) ==> Met(old(faults), faults, 1, r)
    {
      PinnedFacts();
      hide Inv;
      if op.backup.Some? && op.backup.value !in backups {
        return Failed;
      }
      AppMayReach();
      var f := Take();
      if f == Fine || f.applied {
        app := if op.backup.Some? then backups[op.backup.value] else Absent;
      }
      r := Outcome(f);
    }

    /** `_restore_runtime`: a live backend is started again, a stopped one gets its record back. */
    method RestoreRuntime(op: Operation) returns (r: Result)
      requires Working(op)
      modifies `faults, `seen, `disk, `live
      ensures Working(op) && seen.active == old(seen).active
      ensures old(faults) == [] ==> r == Ok && faults == []
      ensures r == Ok ==> seen.runtime == op.previousRuntime
      ensures Single(old(faults)) ==> Met(old(faults), faults, if op.previousWasLive then 3 else 2, r)
      ensures r == Ok && op.previousRuntime.Some? ==> seen == disk
      ensures r == Ok ==> live == if op.previousWasLive then op.previousRuntime else None
    {
      hide Tracked, Single;
      r := StopPrevious();
      if r != Ok { return; }
      if op.previousWasLive {
        r := StartBackend(op, op.previousRuntime.value);
      } else if op.previousRuntime.None? {
        var f := Take();
        r := Outcome(f);
        if f == Fine || f.applied {
          seen := seen.(runtime := None);  // removed without a sync
        }
        if f != Fine && f.synced.third {
          disk := disk.(runtime := seen.runtime);
        }
      } else {
        r := Replace(seen.(runtime := op.previousRuntime));
      }
    }

    /** What the directory of manifests holds for one of them. */
    function RecordOf(m: Manifest): Option<Record>
      reads `records
    {
      if m in records then Some(records[m]) else None
    }

    /** `_publish_active` with its readback, or the removal of the pointer of a first installation. */
    method Publish(op: Operation, m: Option<Manifest>) returns (r: Result)
      requires Working(op) && (m == op.previous || m == Some(op.target))
      modifies `faults, `seen, `disk, `records
      ensures Working(op) && seen.runtime == old(seen).runtime
      ensures old(faults) == [] ==> r == Ok && faults == []
      ensures r == Ok ==> seen == disk && seen.active == m
      ensures Single(old(faults)) && m.Some? ==> Met(old(faults), faults, 3, r)
      ensures records == old(records) || (m.Some? && records == old(records)[m.value := Published])
      ensures r == Ok && m.Some? ==> RecordOf(m.value) == Some(Published)
    {
      hide Tracked, Pinned, OneSide;
      var f := Take();
      r := Outcome(f);
      if m.Some? {
        if f == Fine || f.applied {
          records := records[m.value := Published];
        }
        if r == Ok {
          r := Replace(seen.(active := m));
        }
      } else {
        if f == Fine || f.applied {
          seen := seen.(active := None);
        }
        if f == Fine {
          disk := seen;
        } else if f.synced.second {
          disk := disk.(active := seen.active);
        }
      }
      if r == Ok {
        r := Check();  // readback
      }
    }

    method RestoreTargetRecord(op: Operation) returns (r: Result)
      modifies `faults, `records
      ensures old(faults) == [] ==> r == Ok && faults == []
      ensures forall m :: m != op.target ==> RecordOf(m) == old(RecordOf(m))
      ensures r == Ok ==> RecordOf(op.target) == op.targetRecord
    {
      var f := Take();
      if f == Fine || f.applied {
        records := if op.targetRecord.Some? then records[op.target := op.targetRecord.value] else records - {op.target};
      }
      r := Outcome(f);
    }

    /** The receipt goes last; when only the sync fails, it may still come back. */
    method RemoveReceipt(op: Operation) returns (r: Result, synced: bool)
      requires Working(op) && seen == disk
      requires Stable(seen.active, app, seen.runtime) in {Before(op), After(op)}
      modifies `faults, `seen, `disk, `outcome
      ensures Inv()
      ensures old(faults) == [] ==> r == Ok && synced && faults == []
      ensures r == Ok ==> seen.receipt == None && (synced ==> disk.receipt == None)
      ensures seen.active == old(seen).active && seen.runtime == old(seen).runtime
      ensures seen.receipt == None || seen.receipt == Some(op)
      ensures seen.receipt == None ==> outcome == old(Stable(seen.active, app, seen.runtime))
      ensures Settled()
      ensures seen.receipt == Some(op) ==> r != Ok && disk == old(disk) && outcome == old(outcome)
      ensures old(faults) == [Fine, Fault(false, false, Synced(false, false, false))] ==>
                r == Ok && !synced && disk == old(disk) && faults == []
    {
      TrackedWithout(seen.receipt, disk.receipt);
      hide Tracked;
      synced := false;
      var unlink := Take();
      r := Outcome(unlink);
      if unlink != Fine && !unlink.applied {
        return;
      }
      outcome := Stable(seen.active, app, seen.runtime);
      seen := seen.(receipt := None);
      if unlink != Fine {
        if unlink.synced.first {
          disk := seen;
        }
        return Died, false;  // an unlink that happened and was not reported
      }
      var sync := Take();
      if sync == Fine {
        disk, synced := seen, true;
      } else {
        if sync.synced.first {
          disk := seen;
        }
        r := if sync.fatal then Died else Ok;
      }
    }

    /** `_complete_ordinary`. */
    method Complete(op: Operation, m: Option<Manifest>) returns (r: Result, synced: bool)
      requires Working(op) && (m == op.previous || m == Some(op.target))
      requires Stable(m, app, seen.runtime) == Before(op) || Stable(m, app, seen.runtime) == After(op)
      modifies `faults, `seen, `disk, `records, `outcome
      ensures Inv() && Settled()
      ensures old(faults) == [] ==> r == Ok && synced && faults == []
      ensures r == Ok ==> seen.receipt == None && (synced ==> disk.receipt == None)
      ensures seen.runtime == old(seen).runtime && (r == Ok ==> seen.active == m)
      ensures seen.receipt == None || seen.receipt == Some(op)
      ensures seen.receipt == None ==> outcome == Stable(m, app, old(seen.runtime))
      ensures seen.receipt == None && m != Some(op.target) ==> RecordOf(op.target) == op.targetRecord
      ensures r == Ok && m.Some? ==> RecordOf(m.value) == Some(Published)
      // a failure before the pointer was read back keeps the receipt
      ensures Single(old(faults)) && |old(faults)| <= 3 && m.Some? ==>
                r == Failed && faults == [] && seen.receipt == Some(op)
    {
      synced := false;
      r := Publish(op, m);
      if r == Ok && m != Some(op.target) {
        r := RestoreTargetRecord(op);
      }
      if r == Ok {
        r, synced := RemoveReceipt(op);
      }
    }

    /** Retention removes every app backup; it is refused only while a receipt is visible. */
    method RemoveBackups() returns (r: Result)
      requires Inv() && seen.receipt.None?
      modifies `faults, `backups, `pruned
      ensures Inv()
      ensures r == Ok ==> backups == map[]
      ensures backups == map[] || backups == old(backups)
      // a receipt whose removal was not synced loses its backup, and no other does
      ensures pruned == old(pruned) || pruned == old(pruned) + NamedOnDisk()
      ensures r == Ok ==> pruned == old(pruned) + NamedOnDisk()
      ensures old(faults) == [] ==> r == Ok && faults == []
    {
      var f := Take();
      r := Outcome(f);
      if f == Fine || f.applied {
        if disk.receipt.Some? && disk.receipt.value.backup.Some? {
          pruned := pruned + {disk.receipt.value.backup.value};
        }
        backups := map[];
      }
    }

    /** The backup of the receipt on disk. */
    ghost function NamedOnDisk(): set<nat>
      reads `disk
    {
      if disk.receipt.Some? && disk.receipt.value.backup.Some? then {disk.receipt.value.backup.value} else {}
    }

    /** Deferred cleanup after a synced removal; nothing it does can fail the operation. */
    method Cleanup(op: Operation) returns (r: Result)
      requires Inv() && seen.receipt.None? && disk.receipt.None?
      modifies `faults, `backups, `pruned
      ensures Inv() && pruned == old(pruned) && r != Failed
      ensures old(faults) == [] ==> r == Ok && faults == []
      ensures old(faults) == [] ==> backups == map[]
      ensures First(old(faults)) == Fine && op.backup.Some? ==> op.backup.value !in backups
    {
      var f := Take();
      if f == Fine || f.applied {
        backups := backups - (if op.backup.Some? then {op.backup.value} else {});
      }
      r := Outcome(f);
      if r == Ok {
        r := RemoveBackups();
      }
      if r == Failed {
        r := Ok;
      }
    }

    // ----- The operation -----

    /** The installed app belongs to the active manifest, or there is none. */
    predicate AppMatches()
      reads `seen, `app
    {
      app == Absent || (seen.active.Some? && app == Bundle(seen.active.value))
    }

    /** Pins a new operation and copies the installed app, without a sync; nothing is changed yet. */
    method Begin(target: Manifest, appWasRunning: bool) returns (op: Operation, r: Result)
      requires Inv() && seen.receipt.None?
      modifies `faults, `backups, `nextBackup, `made, `outcome
      ensures Inv()
      ensures old(faults) == [] && AppMatches() ==> r == Ok && faults == []
      ensures r == Ok ==> Pinned(op) && HasBackup(op) && Before(op) == outcome && op.target == target && Named(Some(op))
      ensures r == Ok ==> outcome == Stable(seen.active, app, seen.runtime)
      ensures r == Ok ==> op.targetRecord == RecordOf(target)
      ensures r == Ok && app != Absent ==> op.backup == Some(old(nextBackup))
      ensures r == Ok ==> op.previousWasLive == (live.Some? && live == seen.runtime)
      ensures Single(old(faults)) && AppMatches() ==> Met(old(faults), faults, 1, r)
      ensures outcome == old(outcome) || Settled()
    {
      hide Tracked;
      var previous := Stable(seen.active, app, seen.runtime);
      op := Operation(previous.active, target, RecordOf(target),
                      previous.runtime, live.Some? && live == previous.runtime, appWasRunning, None, app);
      if !AppMatches() {
        return op, Failed;  // an app of no known manifest is never replaced
      }
      if app == Absent {
        outcome := previous;
        r := Check();
      } else {
        op := op.(backup := Some(nextBackup));
        r := CopyApp();
        if r == Ok {
          outcome := previous;
        }
      }
    }

    /** `_snapshot_app`: a plain copy; when it fails, a part of it may stay. */
    method CopyApp() returns (r: Result)
      requires Inv() && seen.receipt.None? && app.Bundle?
      modifies `faults, `backups, `nextBackup, `made
      ensures Inv() && nextBackup == old(nextBackup) + 1
      ensures r == Ok ==> made == old(made)[old(nextBackup) := app] && backups == old(backups)[old(nextBackup) := app]
      ensures Single(old(faults)) ==> Met(old(faults), faults, 1, r)
      ensures old(faults) == [] ==> r == Ok && faults == []
    {
      hide Inv;
      var f := Take();
      r := Outcome(f);
      if f == Fine {
        AddCopy(app, true);
      } else if f.applied {
        AddCopy(Broken, false);
      } else {
        SkipCopy();
      }
    }

    method AddCopy(content: App, finished: bool)
      requires Inv() && seen.receipt.None? && (finished ==> content.Bundle?)
      modifies `backups, `nextBackup, `made
      ensures Inv() && nextBackup == old(nextBackup) + 1 && backups == old(backups)[old(nextBackup) := content]
      ensures made == if finished then old(made)[old(nextBackup) := content] else old(made)
    {
      hide Good;
      backups := backups[nextBackup := content];
      if finished {
        made := made[nextBackup := content];
      }
      nextBackup := nextBackup + 1;
    }

    method SkipCopy()
      requires Inv()
      modifies `nextBackup
      ensures Inv() && nextBackup == old(nextBackup) + 1
    {
      hide Good;
      nextBackup := nextBackup + 1;
    }

    /** Stop, install, start, smoke: the part whose failure is compensated. */
    method GoForward(op: Operation) returns (r: Result)
      requires Working(op)
      modifies `faults, `seen, `disk, `app, `live, `kernel, `diskApp
      ensures Working(op)
      ensures old(faults) == [] ==> r == Ok && faults == []
      ensures old(kernel) == [] ==> diskApp == old(diskApp) && kernel == []
      ensures r == Ok ==> app == Bundle(op.target) && seen.runtime == Some(op.target) && live == Some(op.target)
      ensures Single(old(faults)) ==> Met(old(faults), faults, 5, r)
    {
      hide Good, Inv;
      r := StopPrevious();
      if r == Ok {
        r := InstallApp(op);
      }
      if r == Ok {
        r := StartBackend(op, op.target);
      }
      if r == Ok {
        r := Check();  // launch, smoke, signed bundle, rollback archive
      }
    }

    /** The backend runs if and only if it ran when the operation was pinned, and then from the recorded manifest. */
    predicate LiveAsBefore(op: Operation)
      reads `live
    {
      live == if op.previousWasLive then op.previousRuntime else None
    }

    /** Back to the state before the operation, published like a result. */
    method Compensate(op: Operation) returns (r: Result)
      requires Working(op) && HasBackup(op)
      modifies `faults, `seen, `disk, `app, `live, `records, `backups, `outcome, `pruned, `kernel, `diskApp
      ensures Inv() && pruned == old(pruned) && Settled()
      ensures seen.receipt == None || seen.receipt == Some(op)
      // a failure before the restored stack was checked keeps the receipt for an exact repetition
      ensures Single(old(faults)) && |old(faults)| <= (if op.previousWasLive then 5 else 4) ==>
                r == Failed && faults == [] && seen.receipt == Some(op)
      ensures old(kernel) == [] ==> diskApp == old(diskApp)
      ensures seen.receipt == Some(op) ==> HasBackup(op)
      ensures r == Ok ==> seen.receipt == None
      ensures seen.receipt == None ==> outcome == Before(op)
      ensures r == Ok ==> Stable(seen.active, app, seen.runtime) == Before(op) && LiveAsBefore(op)
      ensures seen.receipt == None && op.previous != Some(op.target) ==> RecordOf(op.target) == op.targetRecord
      ensures r == Ok && op.previous.Some? ==> RecordOf(op.previous.value) == Some(Published)
      ensures old(faults) == [] ==> backups == map[]
      ensures old(faults) == [] ==> r == Ok && faults == []
    {
      hide Good, Inv, Single;
      r := RestoreApp(op);
      if r == Ok {
        r := RestoreRuntime(op);
      }
      if r == Ok {
        r := Check();  // the restored bundle, launch state and smoke
      }
      var synced := false;
      if r == Ok {
        r, synced := Complete(op, op.previous);
      }
      if r == Ok && synced {
        r := Cleanup(op);
      }
    }

    /** A visible receipt whose backup is missing or torn: every command is refused. */
    predicate Lost()
      reads `seen, `backups
    {
      seen.receipt.Some? && !HasBackup(seen.receipt.value)
    }

    /** The command repeats the pinned operation, or starts one where the app is known. */
    predicate CanRun(target: Manifest)
      reads `seen, `backups, `app
    {
      if seen.receipt.Some? then seen.receipt.value.target == target && !Lost() else AppMatches()
    }

    /** What follows the durable receipt: forward and published, or back when a step before the pointer fails. */
    method Carry(op: Operation) returns (r: Result)
      requires Working(op) && HasBackup(op)
      modifies `faults, `seen, `disk, `app, `live, `records, `backups, `outcome, `pruned, `kernel, `diskApp
      ensures Inv() && pruned == old(pruned) && Settled()
      ensures seen.receipt == None || (seen.receipt == Some(op) && HasBackup(op))
      ensures r == Ok ==> seen.receipt == None && outcome == After(op)
      ensures r == Ok ==> RecordOf(op.target) == Some(Published)
      ensures seen.receipt == None ==> outcome == Before(op) || outcome == After(op)
      ensures old(faults) == [] ==> r == Ok && faults == [] && disk.receipt == None && backups == map[]
      ensures old(kernel) == [] ==> diskApp == old(diskApp)
      // one failure before the pointer is moved is compensated, and one while it is moved is not
      ensures Single(old(faults)) && |old(faults)| <= 8 ==> r == Failed && faults == []
      ensures Single(old(faults)) && |old(faults)| <= 5 ==> TakenBack(op)
      ensures Single(old(faults)) && 5 < |old(faults)| <= 8 ==> Waiting(op)
    {
      hide Good, Inv, Single;
      r := GoForward(op);
      var synced := false;
      if r == Ok {
        r, synced := Complete(op, Some(op.target));
        if r == Ok && synced {
          r := Cleanup(op);
        }
      } else if r == Failed {
        r := Compensate(op);
        if r == Ok {
          r := Failed;
        }
      }
    }

    /** Everything is as it was when the operation was pinned, and its receipt is released. */
    predicate TakenBack(op: Operation)
      reads `seen, `app, `live, `records, `backups
    {
      && seen.receipt == None
      && seen.active == op.previous && seen.runtime == op.previousRuntime && app == op.digest
      && LiveAsBefore(op)
      && (op.previous.Some? ==> RecordOf(op.previous.value) == Some(Published))
      && (op.previous != Some(op.target) ==> RecordOf(op.target) == op.targetRecord)
      && backups == map[]
    }

    /** The target runs, and its receipt waits for a repetition. */
    predicate Waiting(op: Operation)
      reads `seen, `app, `live
    {
      seen.receipt == Some(op) && seen.runtime == live == Some(op.target) && app == Bundle(op.target)
    }

    /** `_ordinary_transition`: a new operation, or the repetition of the pinned one. */
    method Transition(target: Manifest, appWasRunning: bool) returns (r: Result)
      requires Inv()
      modifies `faults, `seen, `disk, `app, `live, `records, `backups, `nextBackup, `outcome, `made, `pruned,
               `kernel, `diskApp
      ensures Inv() && pruned == old(pruned)
      ensures old(Settled()) ==> Settled()
      ensures r == Ok ==>
                seen.receipt == None && outcome == Stable(Some(target), Bundle(target), Some(target)) && Settled()
      ensures r == Ok ==> RecordOf(target) == Some(Published)
      // a new operation ends on the target, or exactly where it began
      ensures old(seen.receipt) == None && seen.receipt == None ==>
                outcome == old(outcome) || outcome == old(Stable(seen.active, app, seen.runtime))
                || outcome == Stable(Some(target), Bundle(target), Some(target))
      // a pinned operation is repeated as it is, until it ends on one of its two sides
      ensures old(seen.receipt).Some? && seen.receipt.Some? ==> seen.receipt == old(seen.receipt)
      ensures old(seen.receipt).Some? && seen.receipt == None ==>
                outcome == Before(old(seen.receipt).value) || outcome == After(old(seen.receipt).value)
      // no command takes the backup of a visible receipt
      ensures Lost() <==> old(Lost())
      ensures old(faults) == [] && old(CanRun(target)) ==>
                r == Ok && faults == [] && disk.receipt == None && backups == map[]
      ensures old(kernel) == [] ==> diskApp == old(diskApp)
      // one failure at any step up to the moved pointer fails the command
      ensures Single(old(faults)) && |old(faults)| <= 11 && old(CanRun(target)) ==> r == Failed && faults == []
      // nothing is changed before the receipt is durable
      ensures Single(old(faults)) && |old(faults)| <= 3 && old(CanRun(target)) ==>
                app == old(app) && live == old(live) && records == old(records)
                && seen.active == old(seen).active && seen.runtime == old(seen).runtime
      // a failure after that and before the pointer is moved leaves everything as it was
      ensures Single(old(faults)) && 3 < |old(faults)| <= 8 && old(CanRun(target)) && old(seen.receipt) == None ==>
                && seen == old(seen) && app == old(app)
                && live == (if old(live) == old(seen).runtime then old(live) else None)
                && (old(seen).active != Some(target) ==> RecordOf(target) == old(RecordOf(target)))
      ensures Single(old(faults)) && 3 < |old(faults)| <= 8 && old(CanRun(target)) && old(seen.receipt).Some? ==>
                TakenBack(old(seen.receipt).value)
      // and while the pointer is moved it leaves the target running under its receipt
      ensures Single(old(faults)) && 8 < |old(faults)| <= 11 && old(CanRun(target)) ==>
                && seen.receipt.Some? && seen.receipt.value.target == target
                && seen.runtime == live == Some(target) && app == Bundle(target)
    {
      hide Good, Inv, Single;
      var op;
      if seen.receipt.Some? {
        op := seen.receipt.value;
        PinnedFacts();
        if op.target != target || !HasBackup(op) {
          return Failed;
        }
        r := Check();
      } else {
        op, r := Begin(target, appWasRunning);
        SettledFacts();
      }
      if r == Ok {
        r := WriteReceipt(op);
      }
      if r == Ok {
        r := Carry(op);
      }
    }

    lemma SettledFacts()
      requires Inv() && seen.receipt.None?
      ensures seen.active == outcome.active && seen.runtime == outcome.runtime
    {
    }

    lemma Agree()
      requires Inv() && seen.receipt.None? && disk.receipt.None?
      ensures disk.active == seen.active == outcome.active
    {
    }

    lemma PinnedFacts()
      requires Inv() && seen.receipt.Some?
      ensures Pinned(seen.receipt.value) && Named(seen.receipt)
      ensures seen.active == seen.receipt.value.previous || seen.active == Some(seen.receipt.value.target)
      ensures seen.runtime == seen.receipt.value.previousRuntime || seen.runtime == seen.receipt.value.previous
           || seen.runtime == Some(seen.receipt.value.target)
    {
    }

    // ----- Every run -----

    /** A finished copy that the disk lacks, or holds torn. */
    ghost predicate MayArrive(b: nat)
      reads `backups, `diskBackups, `made
    {
      && b in backups && (b !in diskBackups || diskBackups[b] == Broken)
      && b in made && backups[b] == made[b]
    }

    /** A copy the disk still holds although it was removed. */
    ghost predicate MayGo(b: nat)
      reads `backups, `diskBackups
    {
      b in diskBackups && b !in backups
    }

    /** The kernel writes back what nobody synced: nothing else ever reaches the disk, or leaves it. */
    method WritesBack(w: Writeback)
      requires Inv()
      modifies `diskApp, `diskBackups, `reached, `removed
      ensures Inv()
      ensures diskApp == if w.App? then Effect(w.progress, app, Broken, old(diskApp)) else old(diskApp)
      ensures reached == old(reached) + if w.Copy? && w.whole && old(MayArrive(w.backup)) then {w.backup} else {}
      ensures removed == old(removed) + if w.Removal? && old(MayGo(w.backup)) then {w.backup} else {}
    {
      hide Good;
      match w
      case App(progress) => diskApp := Effect(progress, app, Broken, diskApp);
      case Copy(b, whole) => CopyWritesBack(b, whole);
      case Removal(b, whole) => RemovalWritesBack(b, whole);
    }

    method CopyWritesBack(b: nat, whole: bool)
      requires Inv()
      modifies `diskBackups, `reached
      ensures Inv()
      ensures reached == old(reached) + if whole && old(MayArrive(b)) then {b} else {}
      ensures old(b in backups) ==> b in diskBackups
    {
      hide Good;
      if b in backups && (b !in diskBackups || diskBackups[b] == Broken) {
        if whole && b in made && backups[b] == made[b] {
          reached := reached + {b};
        }
        diskBackups := diskBackups[b := if whole then backups[b] else Broken];
      }
    }

    method RemovalWritesBack(b: nat, whole: bool)
      requires Inv()
      modifies `diskBackups, `removed
      ensures Inv() && removed == old(removed) + if old(MayGo(b)) then {b} else {}
    {
      hide Good;
      if b in diskBackups && b !in backups {
        removed := removed + {b};
        diskBackups := if whole then diskBackups - {b} else diskBackups[b := Broken];
      }
    }

    /** Power is lost: only what reached the disk remains. */
    method PowerLoss()
      requires Inv()
      modifies `seen, `live, `app, `backups
      ensures Inv() && seen == disk && app == diskApp && backups == diskBackups && live == None
      // a receipt that comes back is recoverable exactly when its copy reached the disk and no removal of it did
      ensures Lost() <==>
                seen.receipt.Some? && seen.receipt.value.backup.Some? && !Durable(seen.receipt.value.backup.value)
      // and a settled directory keeps its app exactly when that reached the disk
      ensures Settled() <==> (seen.receipt.None? ==> diskApp == outcome.app)
    {
      seen, live, app, backups := disk, None, diskApp, diskBackups;
    }

    method Happens(e: Event)
      requires Inv()
      modifies this
      ensures Inv()
      ensures !e.Prunes? ==> pruned == old(pruned)
      ensures e.PowerIsLost? || (Lost() <==> old(Lost()))
      ensures e.PowerIsLost? || (old(Settled()) ==> Settled())
      ensures e.PowerIsLost? ==>
                (Lost() <==>
                   seen.receipt.Some? && seen.receipt.value.backup.Some? && !Durable(seen.receipt.value.backup.value))
      ensures diskApp != old(diskApp) ==> WritesApp(e)
      ensures reached <= old(reached)
                + if e.KernelWrites? && e.write.Copy? && e.write.whole then {e.write.backup} else {}
      ensures removed <= old(removed) + if e.KernelWrites? && e.write.Removal? then {e.write.backup} else {}
    {
      hide Good, Inv;
      match e
      case Commands(target, appWasRunning, script, writebacks) =>
        faults, kernel := script, writebacks;
        var _ := Transition(target, appWasRunning);
      case Prunes(script) =>
        if seen.receipt.None? {
          faults := script;
          var _ := RemoveBackups();
        }
      case KernelWrites(w) => WritesBack(w);
      case PowerIsLost => PowerLoss();
    }

    /** Every run keeps the invariant; without a power loss nothing is lost, without a prune nothing is pruned. */
    method Run(events: seq<Event>)
      requires Inv()
      modifies this
      ensures Inv()
      ensures (forall i :: 0 <= i < |events| ==> !events[i].Prunes?) ==> pruned == old(pruned)
      ensures (forall i :: 0 <= i < |events| ==> !events[i].PowerIsLost?) ==> (Lost() <==> old(Lost()))
      ensures (forall i :: 0 <= i < |events| ==> !events[i].PowerIsLost?) && old(Settled()) ==> Settled()
      // what reaches the disk, or leaves it, was written back by one of the events
      ensures forall b :: b in reached && b !in old(reached) ==> KernelWrites(Copy(b, true)) in events
      ensures forall b :: b in removed && b !in old(removed) ==>
                exists whole :: KernelWrites(Removal(b, whole)) in events
      ensures diskApp != old(diskApp) ==> exists i :: 0 <= i < |events| && WritesApp(events[i])
    {
      hide Good, Inv;
      for i := 0 to |events|
        invariant Inv()
        invariant (forall k :: 0 <= k < |events| ==> !events[k].Prunes?) ==> pruned == old(pruned)
        invariant (forall k :: 0 <= k < |events| ==> !events[k].PowerIsLost?) ==> (Lost() <==> old(Lost()))
        invariant (forall k :: 0 <= k < |events| ==> !events[k].PowerIsLost?) && old(Settled()) ==> Settled()
        invariant forall b :: b in reached && b !in old(reached) ==> KernelWrites(Copy(b, true)) in events
        invariant forall b :: b in removed && b !in old(removed) ==>
                    exists whole :: KernelWrites(Removal(b, whole)) in events
        invariant diskApp != old(diskApp) ==> exists k :: 0 <= k < |events| && WritesApp(events[k])
      {
        Happens(events[i]);
      }
    }

    /** After any run, one undisturbed repetition finishes the operation, unless its backup is not durable. */
    method RunAndRepeat(events: seq<Event>)
      requires Inv()
      modifies this
      ensures Inv()
      ensures seen.receipt.None? || (seen.receipt.value.backup.Some? && !Durable(seen.receipt.value.backup.value))
    {
      hide Good, Inv;
      Run(events);
      LostIsNotDurable();
      if seen.receipt.Some? {
        faults, kernel := [], [];
        var _ := Transition(seen.receipt.value.target, false);
        LostIsNotDurable();
      }
    }

    lemma LostIsNotDurable()
      requires Inv()
      ensures Lost() ==> seen.receipt.value.backup.Some? && !Durable(seen.receipt.value.backup.value)
    {
    }

    /** After any run and a power loss, a receipt is recoverable if and only if its backup is durable. */
    method RunAndReboot(events: seq<Event>)
      requires Inv()
      modifies this
      ensures Inv() && seen == disk
      ensures seen.receipt.Some? ==>
                && OneSide(Before(seen.receipt.value))
                && (HasBackup(seen.receipt.value) <==>
                      seen.receipt.value.backup.None? || Durable(seen.receipt.value.backup.value))
      ensures seen.receipt.None? ==>
                seen.active == outcome.active && seen.runtime == outcome.runtime && OneSide(outcome)
      // a removal that reached the disk under a receipt is always the work of retention
      ensures seen.receipt.Some? && seen.receipt.value.backup.Some? && seen.receipt.value.backup.value in removed ==>
                seen.receipt.value.backup.value in pruned
    {
      hide Inv;
      Run(events);
      PowerLoss();
      AfterReboot();
    }

    lemma AfterReboot()
      requires Inv() && seen == disk
      ensures seen.receipt.Some? ==> OneSide(Before(seen.receipt.value))
      ensures seen.receipt.None? ==>
                seen.active == outcome.active && seen.runtime == outcome.runtime && OneSide(outcome)
      ensures seen.receipt.Some? && seen.receipt.value.backup.Some? && seen.receipt.value.backup.value in removed ==>
                seen.receipt.value.backup.value in pruned
    {
    }
  }

  /** What the kernel writes back on its own. */
  datatype Writeback =
    | App(progress: Progress)
    | Copy(backup: nat, whole: bool)
    | Removal(backup: nat, whole: bool)

  datatype Event =
    | Commands(target: Manifest, appWasRunning: bool, script: seq<Fault>, writebacks: seq<Progress>)
    | Prunes(script: seq<Fault>)
    | KernelWrites(write: Writeback)
    | PowerIsLost

  predicate WritesApp(e: Event) {
    if e.Commands? then e.writebacks != [] else e.KernelWrites? && e.write.App?
  }

  // ----- What can go wrong -----

  /** A first step of a promotion: the installed app is copied, and nothing is written back yet. */
  method Copied() returns (w: World, op: Operation)
    ensures w.Inv() && w.seen.receipt.None? && Pinned(op) && w.HasBackup(op)
    ensures Before(op) == w.outcome && w.Named(Some(op))
    ensures op.backup == Some(0) && op.target == 2 && op.previous == w.seen.active == Some(1)
    ensures op.previousRuntime == w.seen.runtime
    ensures w.reached == w.pruned == {} && w.diskBackups == map[] && w.faults == [] && w.kernel == [] && fresh(w)
  {
    w := new World(Some(1), Bundle(1), Some(1), map[]);
    hide World.Good, World.Inv, World.Tracked;
    var r;
    op, r := w.Begin(2, true);
  }

  /** The receipt is synced and its backup is not: the power goes, and the receipt comes back alone. */
  method ReceiptOutlivesItsBackup() returns (w: World)
    ensures w.seen.receipt.Some? && w.Lost() && w.pruned == {} && w.Inv() && fresh(w)
  {
    var op;
    w, op := Copied();
    hide World.Good, World.Inv, World.Tracked;
    var r := w.WriteReceipt(op);
    w.PowerLoss();
  }

  /** A promotion under way, with its backup on disk. */
  method Promoting() returns (w: World, op: Operation)
    ensures w.Working(op) && op.backup == Some(0) && op.target == 2 && op.previous == Some(1) && fresh(w)
    ensures w.reached == {0} && 0 in w.diskBackups && w.faults == [] && w.app == Bundle(2) && w.seen.runtime == Some(2)
  {
    w, op := Copied();
    hide World.Good, World.Inv, World.Tracked;
    w.CopyWritesBack(0, true);
    var r := w.WriteReceipt(op);
    r := w.GoForward(op);
  }

  /** It is published, and its receipt is unlinked without a sync. */
  method UnsyncedUnlink() returns (w: World)
    ensures w.Inv() && w.seen.receipt.None? && w.disk.receipt.Some? && w.disk.receipt.value.backup == Some(0)
    ensures w.reached == {0} && 0 in w.diskBackups && w.faults == [] && fresh(w)
  {
    var op;
    w, op := Promoting();
    hide World.Good, World.Inv, World.Tracked;
    var r := w.Publish(op, Some(2));
    w.faults := [Fine, Fault(false, false, Synced(false, false, false))];
    var synced;
    r, synced := w.RemoveReceipt(op);
  }

  /** Retention then runs because no receipt is visible, its removal reaches the disk, and the power goes. */
  method ReceiptReturnsWithoutBackup() returns (w: World)
    ensures w.seen.receipt.Some? && w.Lost() && w.Inv() && fresh(w)
    ensures w.seen.receipt.value.backup == Some(0) && 0 in w.reached * w.pruned
  {
    w := UnsyncedUnlink();
    hide World.Good, World.Inv, World.Tracked;
    var r := w.RemoveBackups();
    w.RemovalWritesBack(0, true);
    w.PowerLoss();
  }

  /** After a promotion of another app, a power loss leaves it exactly when it was written back whole meanwhile. */
  method PromotionSurvives(w: World, target: Manifest, appWasRunning: bool, writes: seq<Progress>)
    requires w.Inv() && w.seen.receipt.None? && w.CanRun(target) && w.diskApp != Bundle(target)
    modifies w
    ensures w.Inv() && w.seen.receipt.None? && w.seen.active == Some(target)
    ensures w.app == Bundle(target) <==> EndsWhole(writes)
    ensures w.Settled() <==> EndsWhole(writes)
  {
    hide World.Inv, World.Good;
    w.faults, w.kernel := [], [];
    var r := w.Transition(target, appWasRunning);
    w.Agree();
    for i := 0 to |writes|
      invariant w.Inv() && w.disk.receipt == None && w.disk.active == Some(target)
      invariant w.outcome.app == w.app == Bundle(target)
      invariant w.diskApp == w.app <==> EndsWhole(writes[..i])
    {
      assert writes[..i + 1][..i] == writes[..i];
      w.WritesBack(App(writes[i]));
    }
    assert writes[..|writes|] == writes;
    w.PowerLoss();
  }

  /** A finished operation whose new app never reached the disk: one manifest is active, the app is of another. */
  method FinishedAppIsTakenBack() returns (w: World)
    ensures w.seen.receipt.None? && w.seen.active == Some(2)
    ensures w.app == Bundle(1) && !w.Settled() && w.Inv() && fresh(w)
  {
    w := new World(Some(1), Bundle(1), Some(1), map[]);
    var r := w.Transition(2, true);
    w.PowerLoss();
  }
}
