/**
 Release attempts: a create-once attempt log with an active pointer and terminal
 results, written so that an interrupted deploy leaves a baseline to recover from.

 The log is kept as it is seen and as a power loss would reveal it.  A directory entry is
 on disk for certain once its own directory was synced; the files an attempt writes are
 synced with its directory, the entry of that directory itself never is.
 */
module ReleaseAttempts {
  import opened Faults

  type Service = string

  type AttemptId = nat

  type Sha = nat

  /** An image ID; it identifies one immutable image. */
  type Image = nat

  const API: Service := "rec-api"
  const MEDIA_WORKER: Service := "rec-media-worker"

  datatype Container = Container(id: nat, image: Image, running: bool)

  type Containers = map<Service, Container>

  /** A service as resolved from a commit: an image reference, and whether it is built here. */
  datatype Definition = Definition(ref: string, built: bool)

  datatype Pinned = Pinned(ref: string, image: Image)

  type Images = map<Service, Pinned>

  datatype Baseline = Baseline(sourceSha: Sha, images: Images, containers: Containers)

  datatype Candidate = Candidate(sourceSha: Sha, images: Images)

  datatype Outcome = Deployed | Unchanged | Restored

  datatype Attempt = Attempt(
    baseline: Option<Baseline>, previousOverride: Option<map<Service, Image>>,
    identity: Option<Sha>, helper: bool,
    candidate: Option<Candidate>, candidateOverride: Option<map<Service, Image>>,
    result: Option<Outcome>)

  const EMPTY := Attempt(None, None, None, false, None, None, None)

  function Override(images: Images): map<Service, Image> {
    map s | s in images :: images[s].image
  }

  /** The recorded side a result leaves the runtime on; None while that record is missing. */
  function SideImages(a: Attempt, o: Outcome): Option<Images> {
    if o == Deployed then
      if a.candidate.Some? then Some(a.candidate.value.images) else None
    else
      if a.baseline.Some? then Some(a.baseline.value.images) else None
  }

  function SideSha(a: Attempt, o: Outcome): Option<Sha> {
    if o == Deployed then
      if a.candidate.Some? then Some(a.candidate.value.sourceSha) else None
    else
      if a.baseline.Some? then Some(a.baseline.value.sourceSha) else None
  }

  /** A deployed candidate, or the baseline after any other result. */
  ghost predicate LeftOn(a: Attempt, o: Outcome, sha: Sha, images: Images) {
    if o == Deployed then a.candidate == Some(Candidate(sha, images))
    else a.baseline.Some? && a.baseline.value.sourceSha == sha && a.baseline.value.images == images
  }

  lemma SideIsRecorded(a: Attempt, o: Outcome, sha: Sha, images: Images)
    ensures LeftOn(a, o, sha, images) <==> SideSha(a, o) == Some(sha) && SideImages(a, o) == Some(images)
  {
  }

  function Running(cs: Containers): set<Service> {
    set s | s in cs && cs[s].running
  }

  /** Every running container is pinned to its recorded image, and something runs. */
  predicate PinnedTo(cs: Containers, images: Images) {
    && Running(cs) != {}
    && forall s :: s in Running(cs) ==> s in images && cs[s].image == images[s].image
  }

  /** The services that must run: the ones of the baseline, with or without the media worker. */
  function Required(b: Baseline, o: Outcome): set<Service> {
    if o == Restored then Running(b.containers) - {MEDIA_WORKER} else Running(b.containers) + {MEDIA_WORKER}
  }

  /** The runtime a result may be written for. */
  predicate Justified(a: Attempt, o: Outcome, cs: Containers) {
    && a.baseline.Some?
    && if o == Unchanged then cs == a.baseline.value.containers
       else
         && SideImages(a, o).Some?
         && PinnedTo(cs, SideImages(a, o).value)
         && Required(a.baseline.value, o) <= Running(cs)
  }

  // ----- What a result says about the runtime -----

  predicate Runs(cs: Containers, s: Service) {
    s in cs && cs[s].running
  }

  ghost predicate RunsOn(cs: Containers, images: Images) {
    (exists s :: Runs(cs, s)) && forall s :: Runs(cs, s) ==> s in images && cs[s].image == images[s].image
  }

  /**
   Deployed: everything on the candidate's images, with the media worker and all that ran
   before.  Restored: everything on the images from before, and all that ran before but the
   media worker.  Unchanged: exactly the containers from before.
   */
  ghost predicate Complete(a: Attempt, o: Outcome, cs: Containers) {
    && a.baseline.Some?
    && var before := a.baseline.value.containers;
    match o
    case Deployed =>
      && a.candidate.Some? && RunsOn(cs, a.candidate.value.images)
      && Runs(cs, "rec-media-worker") && forall s :: Runs(before, s) ==> Runs(cs, s)
    case Restored =>
      && RunsOn(cs, a.baseline.value.images)
      && forall s :: Runs(before, s) && s != "rec-media-worker" ==> Runs(cs, s)
    case Unchanged => cs == before
  }

  /** What `finish` checks is exactly that. */
  lemma JustifiedIsComplete(a: Attempt, o: Outcome, cs: Containers)
    ensures Justified(a, o, cs) <==> Complete(a, o, cs)
  {
    assert forall s :: Runs(cs, s) <==> s in Running(cs);
    if a.baseline.Some? {
      var before := a.baseline.value.containers;
      assert forall s :: Runs(before, s) <==> s in Running(before);
    }
  }

  // ----- The records of an attempt -----

  /** The records recovery reads: the baseline, its pinned override and the identity. */
  predicate Based(a: Attempt) {
    && a.baseline.Some?
    && a.previousOverride == Some(Override(a.baseline.value.images))
    && a.identity.Some?
    && forall s :: s in a.baseline.value.images && s in a.baseline.value.containers ==>
         a.baseline.value.images[s].image == a.baseline.value.containers[s].image
  }

  /** Recovery also runs the helper copied into the attempt. */
  predicate Recoverable(a: Attempt) {
    Based(a) && a.helper
  }

  predicate Consistent(a: Attempt) {
    a.candidateOverride.Some? ==> a.candidate.Some? && a.candidateOverride == Some(Override(a.candidate.value.images))
  }

  /** What was recorded stays recorded; a result that a command finds never changes. */
  predicate Keeps(before: Attempt, after: Attempt) {
    && (before.baseline.Some? ==> after.baseline == before.baseline)
    && (before.previousOverride.Some? ==> after.previousOverride == before.previousOverride)
    && (before.candidate.Some? ==> after.candidate == before.candidate)
    && (before.result.Some? ==> after.result == before.result)
  }

  predicate SameOrMissing<T(==)>(onDisk: Option<T>, visible: Option<T>) {
    onDisk.None? || onDisk == visible
  }

  /** Every record on disk is the visible one; results are told apart elsewhere. */
  predicate Below(onDisk: Attempt, visible: Attempt) {
    && SameOrMissing(onDisk.baseline, visible.baseline)
    && SameOrMissing(onDisk.previousOverride, visible.previousOverride)
    && SameOrMissing(onDisk.identity, visible.identity)
    && SameOrMissing(onDisk.candidate, visible.candidate)
    && SameOrMissing(onDisk.candidateOverride, visible.candidateOverride)
    && (onDisk.helper ==> visible.helper)
  }

  /** A directory of which only some entries reached the disk: records, the helper, the result. */
  function Mix(onDisk: Attempt, visible: Attempt, s: Synced): Attempt {
    var records := if s.first then visible else onDisk;
    records.(helper := if s.second then visible.helper else onDisk.helper,
             result := if s.third then visible.result else onDisk.result)
  }

  /** What a `prepare` is asked for and what Docker and the two commits answer. */
  datatype Request = Request(
    id: AttemptId, sourceSha: Sha, previousSha: Sha,
    previousConfig: map<Service, Definition>, candidateConfig: map<Service, Definition>,
    local: map<string, Image>,   // what a reference resolves to before the build
    pulled: map<string, Image>,  // and after a pull
    built: Image)

  /** The live container, else a recorded ID, else the reference. */
  function PreviousImage(s: Service, d: Definition, observed: Containers, recorded: Images,
                         local: map<string, Image>): Option<Image> {
    if s in observed then Some(observed[s].image)
    else if s in recorded then Some(recorded[s].image)
    else if d.ref in local then Some(local[d.ref])
    else None
  }

  /** Built here, reused from the previous side, or pulled. */
  function CandidateImage(s: Service, d: Definition, previous: Images, pulled: map<string, Image>,
                          built: Image): Option<Image> {
    if d.built then Some(built)
    else if s in previous && d.ref == previous[s].ref then Some(previous[s].image)
    else if d.ref in pulled then Some(pulled[d.ref])
    else None
  }

  /** A baseline of the observed containers, with their images for the previous services. */
  predicate FreshBaseline(a: Attempt, q: Request, observed: Containers) {
    && a.result.None? && a.baseline.Some?
    && a.baseline.value.containers == observed
    && a.baseline.value.images.Keys == q.previousConfig.Keys
    && forall s :: s in q.previousConfig && s in observed ==> a.baseline.value.images[s].image == observed[s].image
  }

  /** Both candidate records, for exactly the requested source and its services. */
  predicate Resolved(a: Attempt, q: Request) {
    && a.candidate.Some? && a.candidateOverride.Some?
    && a.candidate.value.images.Keys == q.candidateConfig.Keys
    && a.candidate.value.sourceSha == q.sourceSha
  }

  /** The attempt a successful claim leaves behind. */
  function Claimed(q: Request, previous: Images, observed: Containers): Attempt {
    EMPTY.(baseline := Some(Baseline(q.previousSha, previous, observed)),
           previousOverride := Some(Override(previous)), identity := Some(q.sourceSha), helper := true)
  }

  lemma ClaimedIsRecoverable(q: Request, previous: Images, observed: Containers)
    requires forall s :: s in previous && s in observed ==> previous[s].image == observed[s].image
    ensures Recoverable(Claimed(q, previous, observed)) && Based(Claimed(q, previous, observed).(helper := false))
  {
  }

  // ----- Scripts of a finish -----

  /** The result became visible, and still its write failed. */
  predicate Disturbed(script: seq<Fault>) {
    First(script).Fault? && First(script).applied
  }

  /** And it stays visible: the process died, or could not remove it again. */
  predicate Slips(script: seq<Fault>) {
    Disturbed(script) && (First(script).fatal || (First(Rest(script)).Fault? && !First(Rest(script)).applied))
  }

  type Log = map<AttemptId, Attempt>

  /** The log only grows: no baseline, candidate or visible result is ever rewritten. */
  ghost predicate LogKeeps(before: Log, after: Log) {
    forall id :: id in before ==> id in after && Keeps(before[id], after[id])
  }

  /** Every attempt that was active and is no longer so has its result. */
  ghost predicate ReplacedFinished(log: Log, active: Option<AttemptId>, named: set<AttemptId>) {
    forall id :: id in named && active != Some(id) ==> id in log && log[id].result.Some?
  }

  lemma ReplacedStay(before: Log, after: Log, active: Option<AttemptId>, named: set<AttemptId>)
    requires LogKeeps(before, after)
    ensures ReplacedFinished(before, active, named) ==> ReplacedFinished(after, active, named)
  {
  }

  class ReleaseState {
    var attempts: Log                                     // what every command reads
    var disk: Log                                         // what the directories of the attempts hold on disk
    var linked: set<AttemptId>                            // the directories whose own entry is on disk
    var active: Option<AttemptId>
    var diskActive: Option<AttemptId>
    var runtime: Containers
    var faults: seq<Fault>
    ghost var everActive: set<AttemptId>
    ghost var acknowledged: set<AttemptId>                // `finish` reported success
    ghost var disturbed: set<AttemptId>                   // a `finish` failed after its result was visible
    ghost var returned: set<AttemptId>                    // a power loss revealed such a result
    ghost var seenAtResult: map<AttemptId, Containers>    // the runtime a result was written for

    // ----- The invariant -----

    /** What holds of the log, as it is visible and as it is on disk. */
    ghost predicate View(log: Log)
      reads `active, `everActive, `acknowledged, `disturbed
    {
      forall id :: id in log ==> Fits(id, log[id])
    }

    ghost predicate Fits(id: AttemptId, a: Attempt)
      reads `active, `everActive, `acknowledged, `disturbed
    {
      && Consistent(a)
      && (id in everActive ==> Based(a))
      // an attempt without a result is the active one, or its result was lost with a disturbed finish
      && (id in everActive && a.result.None? ==> active == Some(id) || id in disturbed)
      && (a.result.Some? ==> id in everActive && (id in acknowledged || id in disturbed))
    }

    /** Every visible result was justified by the runtime it was written for, unless a power loss revealed it. */
    ghost predicate Results(log: Log)
      reads `returned, `seenAtResult
    {
      forall id :: id in log && log[id].result.Some? && id !in returned ==> ResultFits(id, log[id])
    }

    ghost predicate ResultFits(id: AttemptId, a: Attempt)
      requires a.result.Some?
      reads `seenAtResult
    {
      id in seenAtResult && Justified(a, a.result.value, seenAtResult[id])
    }

    ghost predicate Match(log: Log, onDisk: Log)
      reads `acknowledged, `seenAtResult
    {
      && log.Keys == onDisk.Keys
      && (forall id :: id in log ==> Below(onDisk[id], log[id]))
      // an acknowledged attempt is on disk as it is visible
      && (forall id :: id in acknowledged ==>
            id in log && onDisk[id] == log[id] && log[id].result.Some? && ResultFits(id, log[id]))
    }

    ghost predicate PointersFit(ids: set<AttemptId>)
      reads `linked, `active, `diskActive, `everActive
    {
      && linked <= ids && everActive <= ids
      && (active.Some? && active.value in ids ==> active.value in everActive)
      && (diskActive.Some? && diskActive.value in ids ==> diskActive.value in everActive)
      // a pointer to an attempt that a power loss took is never replaced
      && (diskActive.Some? && diskActive.value !in ids ==> active == diskActive)
    }

    ghost predicate Inv()
      reads `attempts, `disk, `linked, `active, `diskActive, `everActive, `acknowledged, `disturbed, `returned,
            `seenAtResult
    {
      View(attempts) && View(disk) && Results(attempts) && Match(attempts, disk) && PointersFit(attempts.Keys)
    }

    lemma Puts(id: AttemptId, a: Attempt, d: Attempt)
      requires Inv() && id in attempts && id !in acknowledged
      requires Fits(id, a) && Fits(id, d) && Below(d, a)
      requires a.result.Some? && id !in returned ==> ResultFits(id, a)
      ensures View(attempts[id := a]) && View(disk[id := d])
      ensures Results(attempts[id := a]) && Match(attempts[id := a], disk[id := d])
      ensures attempts[id := a].Keys == attempts.Keys
    {
      hide Fits, Below, ResultFits;
    }

    /** Every result anybody can find, now or after a power loss, was acknowledged. */
    ghost predicate AllAcknowledged()
      reads `attempts, `acknowledged
    {
      forall id :: id in attempts && attempts[id].result.Some? ==> id in acknowledged
    }

    ghost predicate AllAcknowledgedOnDisk()
      reads `disk, `acknowledged
    {
      forall id :: id in disk && disk[id].result.Some? ==> id in acknowledged
    }

    ghost predicate AllReplacedFinished()
      reads `attempts, `active, `everActive
    {
      ReplacedFinished(attempts, active, everActive)
    }

    constructor (runtime: Containers)
      ensures Inv() && this.runtime == runtime && attempts == disk == map[]
      ensures active == diskActive == None && faults == []
      ensures everActive == disturbed == acknowledged == returned == linked == {}
    {
      attempts, disk, linked, active, diskActive := map[], map[], {}, None, None;
      this.runtime, faults := runtime, [];
      everActive, acknowledged, disturbed, returned, seenAtResult := {}, {}, {}, {}, map[];
    }

    // ----- Steps -----

    method Take() returns (f: Fault)
      modifies `faults
      ensures f == First(old(faults)) && faults == Rest(old(faults))
    {
      f, faults := First(faults), Rest(faults);
    }

    method Check() returns (r: Faults.Result)
      modifies `faults
      ensures r == Faults.Outcome(First(old(faults))) && faults == Rest(old(faults))
    {
      var f := Take();
      return Faults.Outcome(f);
    }

    /** The records of `b` are those of `a`, or new ones. */
    ghost predicate Extends(b: Attempt, a: Attempt) {
      && SameOrMissing(a.baseline, b.baseline) && SameOrMissing(a.previousOverride, b.previousOverride)
      && SameOrMissing(a.identity, b.identity) && (a.helper ==> b.helper)
      && SameOrMissing(a.candidate, b.candidate) && SameOrMissing(a.candidateOverride, b.candidateOverride)
    }

    lemma MixFits(id: AttemptId, d: Attempt, a: Attempt, b: Attempt, s: Synced)
      requires Below(d, a) && Extends(b, a) && Fits(id, b) && Fits(id, d)
      ensures Below(b, b) && Below(d, b) && Below(Mix(d, b, s), b)
      ensures Fits(id, Mix(d, b, s))
    {
    }

    /**
     `write` for every file but a result: what replaced the old file stays; a sync covers the directory,
     and with it whatever of it was not synced before.
     */
    method WriteRecord(id: AttemptId, a: Attempt) returns (r: Faults.Result)
      requires Inv() && id in attempts && id !in acknowledged && attempts[id].result.None? && a.result.None?
      requires Extends(a, attempts[id]) && Fits(id, a)
      modifies `faults, `attempts, `disk
      ensures Inv() && attempts.Keys == old(attempts).Keys && attempts - {id} == old(attempts) - {id}
      ensures id in disk && disk - {id} == old(disk) - {id}
      ensures old(faults) == [] ==> r == Ok && faults == []
      ensures r == Ok ==> attempts[id] == disk[id] == a
      ensures attempts[id] == a || (r != Ok && attempts[id] == old(attempts)[id])
      ensures id in everActive ==> Based(disk[id])
      ensures old(AllAcknowledgedOnDisk()) ==> AllAcknowledgedOnDisk()
    {
      hide Extends, Below, View, Match, Fits, Results, ResultFits, Based;
      InDisk(id);
      var f := Take();
      r := Faults.Outcome(f);
      if f == Fine || f.applied {
        ghost var d := disk[id];
        var next := if f == Fine then a else Mix(disk[id], a, f.synced);
        MixFits(id, d, attempts[id], a, if f == Fine then Synced(true, true, true) else f.synced);
        Puts(id, a, next);
        attempts, disk := attempts[id := a], disk[id := next];
      }
      InDisk(id);
    }

    lemma InDisk(id: AttemptId)
      requires Inv() && id in attempts
      ensures id in disk && Fits(id, attempts[id]) && Fits(id, disk[id]) && Below(disk[id], attempts[id])
      ensures id in everActive ==> Based(attempts[id]) && Based(disk[id])
    {
      hide Below;
    }

    /** `mkdir` of the attempt: neither its entry nor anything in it is on disk. */
    method NewDirectory(id: AttemptId)
      requires Inv() && id !in attempts && (active.Some? ==> active.value in attempts)
      modifies `attempts, `disk
      ensures Inv() && attempts == old(attempts)[id := EMPTY] && disk == old(disk)[id := EMPTY] && id !in everActive
      ensures id !in acknowledged && id !in linked
      ensures old(AllAcknowledgedOnDisk()) ==> AllAcknowledgedOnDisk()
    {
      NewFits(id);
      hide *;
      var log, onDisk := attempts[id := EMPTY], disk[id := EMPTY];
      ghost var acks := AllAcknowledgedOnDisk();
      attempts, disk := log, onDisk;
      Together();
      if acks {
        AcknowledgedNow();
      }
    }

    lemma Together()
      requires View(attempts) && View(disk) && Results(attempts) && Match(attempts, disk) && PointersFit(attempts.Keys)
      ensures Inv()
    {
    }

    lemma AcknowledgedNow()
      requires forall id :: id in disk && disk[id].result.Some? ==> id in acknowledged
      ensures AllAcknowledgedOnDisk()
    {
    }

    lemma NewFits(id: AttemptId)
      requires Inv() && id !in attempts && (active.Some? ==> active.value in attempts)
      ensures PointersFit(attempts[id := EMPTY].Keys)
      ensures AllAcknowledgedOnDisk() ==>
                forall x :: x in disk[id := EMPTY] && disk[id := EMPTY][x].result.Some? ==> x in acknowledged
      ensures View(attempts[id := EMPTY]) && View(disk[id := EMPTY]) && Results(attempts[id := EMPTY])
      ensures Match(attempts[id := EMPTY], disk[id := EMPTY])
      ensures id !in everActive && id !in acknowledged && id !in linked
    {
      hide Based, ResultFits;
    }

    /** The copy of the helper: the file is synced, its entry in the directory is not. */
    method CopyHelper(id: AttemptId) returns (r: Faults.Result)
      requires Inv() && id in attempts && id !in everActive && id !in acknowledged && attempts[id].result.None?
      modifies `faults, `attempts, `disk
      ensures Inv() && attempts.Keys == old(attempts).Keys && attempts - {id} == old(attempts) - {id}
      ensures id in disk && disk - {id} == old(disk) - {id}
      ensures old(faults) == [] ==> r == Ok && faults == []
      ensures r == Ok ==> attempts[id] == old(attempts)[id].(helper := true) && disk == old(disk)
      ensures attempts[id] == old(attempts)[id] || attempts[id] == old(attempts)[id].(helper := true)
      ensures disk[id].(helper := false) == old(disk)[id].(helper := false)
      ensures old(AllAcknowledgedOnDisk()) ==> AllAcknowledgedOnDisk()
    {
      hide View, Fits, Below, Match, Results, ResultFits;
      InDisk(id);
      var f := Take();
      r := Faults.Outcome(f);
      if f == Fine || f.applied {
        var a := attempts[id].(helper := true);
        var d := if f.Fault? && f.synced.second then disk[id].(helper := true) else disk[id];
        HelperFits(id, attempts[id], disk[id], d);
        Puts(id, a, d);
        attempts, disk := attempts[id := a], disk[id := d];
      }
    }

    lemma HelperFits(id: AttemptId, a: Attempt, d: Attempt, d': Attempt)
      requires Fits(id, a) && Fits(id, d) && Below(d, a) && (d' == d || d' == d.(helper := true))
      ensures Fits(id, a.(helper := true)) && Fits(id, d') && Below(d', a.(helper := true))
    {
    }

    /** What a claim has on disk: everything but, perhaps, its helper. */
    ghost predicate ClaimOnDisk(id: AttemptId, a: Attempt)
      reads `disk
    {
      id in disk && disk[id].(helper := false) == a.(helper := false)
    }

    /** The records of a claim, in the order in which they are written. */
    method WriteClaim(q: Request, previous: Images) returns (r: Faults.Result)
      requires Inv() && q.id in attempts && q.id !in everActive && q.id !in acknowledged && attempts[q.id] == EMPTY
      modifies `faults, `attempts, `disk
      ensures Inv() && q.id in attempts && attempts - {q.id} == old(attempts) - {q.id}
      ensures attempts.Keys == old(attempts).Keys
      ensures q.id in disk && disk - {q.id} == old(disk) - {q.id} && attempts[q.id].result.None?
      ensures old(faults) == [] ==> r == Ok && faults == [] && !disk[q.id].helper
      ensures r == Ok ==>
                attempts[q.id] == Claimed(q, previous, runtime) && ClaimOnDisk(q.id, Claimed(q, previous, runtime))
      ensures old(AllAcknowledgedOnDisk()) ==> AllAcknowledgedOnDisk()
    {
      hide Inv, Override, AllAcknowledgedOnDisk;
      var a := EMPTY.(baseline := Some(Baseline(q.previousSha, previous, runtime)));
      r := WriteRecord(q.id, a);
      if r == Ok {
        a := a.(previousOverride := Some(Override(previous)));
        r := WriteRecord(q.id, a);
      }
      if r == Ok {
        a := a.(identity := Some(q.sourceSha));
        r := WriteRecord(q.id, a);
      }
      if r == Ok {
        r := CopyHelper(q.id);
      }
    }

    /** The pointer, in a directory of its own, which is synced. */
    method Activate(id: AttemptId) returns (r: Faults.Result)
      requires Inv() && (active.Some? ==> active.value in attempts && attempts[active.value].result.Some?)
      requires id in attempts && Recoverable(attempts[id]) && Based(disk[id]) && id !in everActive
      modifies `faults, `active, `diskActive, `everActive
      ensures Inv()
      ensures old(faults) == [] ==> r == Ok && faults == []
      ensures everActive == old(everActive) || (active == Some(id) && everActive == old(everActive) + {id})
      ensures r == Ok ==> active == diskActive == Some(id) && id in everActive
      ensures active == old(active) || (active == Some(id) && id in everActive)
    {
      hide Results, Match, Based;
      var f := Take();
      r := Faults.Outcome(f);
      if f == Fine || f.applied {
        ResultsReached();
        everActive := everActive + {id};
        active := Some(id);
        if f == Fine || f.synced.first {
          diskActive := Some(id);
        }
      }
    }

    /** Where a finished attempt is active, every attempt has its result, or was disturbed, on disk as well. */
    lemma ResultsReached()
      requires Inv() && (active.Some? ==> active.value in attempts && attempts[active.value].result.Some?)
      ensures forall id :: id in attempts && id in everActive && attempts[id].result.None? ==> id in disturbed
      ensures forall id :: id in disk && id in everActive && disk[id].result.None? ==> id in disturbed
    {
      hide Results, Below, Based, ResultFits;
      forall id | id in disk && id in everActive && disk[id].result.None?
        ensures id in disturbed
      {
        InDisk(id);
        assert Fits(id, attempts[id]);
      }
    }

    /** `claim_attempt`: the active pointer comes after everything it points to. */
    method ClaimAttempt(q: Request, previous: Images) returns (r: Faults.Result)
      requires Inv() && (active.Some? ==> active.value in attempts && attempts[active.value].result.Some?)
      requires forall s :: s in previous && s in runtime ==> previous[s].image == runtime[s].image
      modifies `faults, `attempts, `disk, `active, `diskActive, `everActive
      ensures Inv() && attempts - {q.id} == old(attempts) - {q.id} && disk - {q.id} == old(disk) - {q.id}
      ensures everActive == old(everActive) || (active == Some(q.id) && everActive == old(everActive) + {q.id})
      ensures q.id in old(attempts) ==>
                r != Ok && attempts == old(attempts) && disk == old(disk) && active == old(active)
      ensures active != old(active) ==>
                active == Some(q.id) && q.id in attempts && attempts[q.id] == Claimed(q, previous, runtime)
      ensures old(faults) == [] && q.id !in old(attempts) ==>
                r == Ok && faults == [] && q.id in disk && !disk[q.id].helper
      ensures r == Ok ==>
                active == diskActive == Some(q.id) && q.id in everActive && q.id in attempts && q.id !in acknowledged
      ensures r == Ok ==> attempts[q.id] == Claimed(q, previous, runtime) && ClaimOnDisk(q.id, attempts[q.id])
      ensures q.id !in old(attempts) && q.id in attempts ==> q.id !in linked && attempts[q.id].result.None?
      ensures old(AllAcknowledgedOnDisk()) ==> AllAcknowledgedOnDisk()
    {
      hide Inv, Based, Recoverable, AllAcknowledgedOnDisk;
      if q.id in attempts {
        return Failed;
      }
      NewDirectory(q.id);
      r := WriteClaim(q, previous);
      if r == Ok {
        ClaimedIsRecoverable(q, previous, runtime);
        ClaimIsBased(q, previous);
        assert active.Some? ==> active.value in attempts - {q.id};
        r := Activate(q.id);
      }
    }

    lemma ClaimIsBased(q: Request, previous: Images)
      requires forall s :: s in previous && s in runtime ==> previous[s].image == runtime[s].image
      requires ClaimOnDisk(q.id, Claimed(q, previous, runtime))
      ensures Based(disk[q.id])
    {
      var d, c := disk[q.id], Claimed(q, previous, runtime);
      assert d.(helper := false).baseline == c.(helper := false).baseline;
      assert d.(helper := false).previousOverride == c.(helper := false).previousOverride;
      assert d.(helper := false).identity == c.(helper := false).identity;
    }

    /** `recorded_images`: only a finished attempt, of which everything can be read, may be replaced. */
    method RecordedImages(previousSha: Sha) returns (recorded: Option<Images>)
      requires Inv()
      ensures recorded.Some? <==> active.None? || Replaceable()
      // the images of the side the last attempt left, if that is the commit asked for
      ensures active.Some? && recorded.Some? ==>
                recorded.value == if SideSha(Prior(), Prior().result.value) == Some(previousSha)
                                  then SideImages(Prior(), Prior().result.value).value else map[]
    {
      if active.None? {
        return Some(map[]);
      }
      if active.value !in attempts || attempts[active.value].result.None? {
        return None;
      }
      var prior := attempts[active.value];
      var images := SideImages(prior, prior.result.value);
      if images.None? {
        return None;
      }
      return if SideSha(prior, prior.result.value) == Some(previousSha) then images else Some(map[]);
    }

    /** The active attempt has a result, and the record of the side it names. */
    predicate Replaceable()
      reads `attempts, `active
    {
      && active.Some? && active.value in attempts && Prior().result.Some?
      && SideImages(Prior(), Prior().result.value).Some?
    }

    function Prior(): Attempt
      requires active.Some? && active.value in attempts
      reads `attempts, `active
    {
      attempts[active.value]
    }

    /** `prepare`: claims one attempt, then resolves and records its candidate images. */
    method Prepare(q: Request) returns (r: Faults.Result)
      requires Inv()
      modifies `faults, `attempts, `disk, `active, `diskActive, `everActive
      ensures Inv() && attempts - {q.id} == old(attempts) - {q.id} && disk - {q.id} == old(disk) - {q.id}
      ensures q.id in old(attempts) ==>
                r != Ok && attempts == old(attempts) && disk == old(disk) && active == old(active)
      ensures everActive == old(everActive) || (active == Some(q.id) && everActive == old(everActive) + {q.id})
      // an unfinished attempt is never replaced
      ensures old(active).Some? && !old(Replaceable()) ==> r != Ok && active == old(active) && attempts == old(attempts)
      ensures active == old(active) || active == Some(q.id)
      // nothing that can still reject the release leaves anything behind
      ensures attempts != old(attempts) || disk != old(disk) || active != old(active) || r == Ok ==>
                && First(old(faults)) == Fine && First(Rest(old(faults))) == Fine
                && API in Running(runtime) && (old(active).Some? ==> old(Replaceable()))
      // previous images come from the running containers, candidate ones from the request
      ensures active != old(active) ==> q.id in attempts && FreshBaseline(attempts[q.id], q, runtime)
      ensures active != old(active) && old(active).Some? && RunsAsRecorded(old(active).value) ==>
                Continues(old(Prior()), attempts[q.id].baseline.value.images, runtime)
      // then everything is on disk but the entry of the attempt's directory
      ensures r == Ok ==>
                active == diskActive == Some(q.id) && q.id in attempts && q.id in disk && attempts[q.id] == disk[q.id]
      ensures r == Ok ==> Resolved(attempts[q.id], q) && Recoverable(attempts[q.id])
      ensures q.id !in old(attempts) && q.id in attempts ==> q.id !in linked && attempts[q.id].result.None?
      ensures old(AllAcknowledgedOnDisk()) ==> AllAcknowledgedOnDisk()
      ensures old(faults) == [] && q.id !in old(attempts) && old(Preparable(q)) ==> r == Ok && faults == []
    {
      hide Inv, AllAcknowledgedOnDisk, Based, Recoverable, Justified;
      r := Check();  // the request and the exact clean checkout
      if r != Ok { return; }
      var recorded := RecordedImages(q.previousSha);
      if recorded.None? {
        return Failed;
      }
      r := Check();  // platform and both configurations
      if r != Ok { return; }
      if API !in Running(runtime) {
        return Failed;
      }
      var previous := PreviousImages(q, runtime, recorded.value);
      if previous.None? {
        return Failed;
      }
      if active.Some? && RunsAsRecorded(active.value) {
        SideGoesOn(active.value, previous.value);
      }
      hide Continues, RunsAsRecorded, Resolved, PreviousImages, CandidateImages, SideImages;
      r := ClaimAndResolve(q, previous.value);
    }

    /** Everything that `prepare` writes. */
    method ClaimAndResolve(q: Request, previous: Images) returns (r: Faults.Result)
      requires Inv() && (active.Some? ==> active.value in attempts && attempts[active.value].result.Some?)
      requires previous.Keys == q.previousConfig.Keys
      requires forall s :: s in previous && s in runtime ==> previous[s].image == runtime[s].image
      modifies `faults, `attempts, `disk, `active, `diskActive, `everActive
      ensures Inv() && attempts - {q.id} == old(attempts) - {q.id} && disk - {q.id} == old(disk) - {q.id}
      ensures q.id in old(attempts) ==>
                r != Ok && attempts == old(attempts) && disk == old(disk) && active == old(active)
      ensures everActive == old(everActive) || (active == Some(q.id) && everActive == old(everActive) + {q.id})
      ensures active == old(active) || active == Some(q.id)
      ensures active != old(active) ==> q.id in attempts && FreshBaseline(attempts[q.id], q, runtime)
      ensures active != old(active) ==> attempts[q.id].baseline.value.images == previous
      ensures r == Ok ==>
                active == diskActive == Some(q.id) && q.id in attempts && q.id in disk && attempts[q.id] == disk[q.id]
      ensures r == Ok ==> Resolved(attempts[q.id], q) && Recoverable(attempts[q.id])
      ensures q.id !in old(attempts) && q.id in attempts ==> q.id !in linked && attempts[q.id].result.None?
      ensures old(AllAcknowledgedOnDisk()) ==> AllAcknowledgedOnDisk()
      ensures old(faults) == [] && q.id !in old(attempts) && CandidateImages(q, previous).Some? ==>
                r == Ok && faults == []
    {
      hide Inv, AllAcknowledgedOnDisk, Based, Recoverable, Resolved, CandidateImages, ClaimOnDisk;
      r := ClaimAttempt(q, previous);
      if r == Ok {
        r := PrepareCandidate(q, previous);
      }
    }

    /** The runtime is still the one an acknowledged result was written for. */
    ghost predicate RunsAsRecorded(id: AttemptId)
      reads `acknowledged, `seenAtResult, `runtime
    {
      id in acknowledged && id in seenAtResult && seenAtResult[id] == runtime
    }

    /** An unchanged runtime hands over exactly the images of the side the last result recorded. */
    ghost predicate Continues(prior: Attempt, previous: Images, observed: Containers) {
      && prior.result.Some? && SideImages(prior, prior.result.value).Some?
      && var side := SideImages(prior, prior.result.value).value;
      && (forall s :: s in Running(observed) && s in previous && s in side ==> previous[s].image == side[s].image)
      && (prior.result != Some(Unchanged) ==> forall s :: s in Running(observed) ==> s in side)
    }

    lemma SideGoesOn(id: AttemptId, previous: Images)
      requires Inv() && RunsAsRecorded(id)
      requires forall s :: s in previous && s in runtime ==> previous[s].image == runtime[s].image
      ensures id in attempts && Continues(attempts[id], previous, runtime)
    {
      assert Fits(id, attempts[id]);
      hide View, Results, PointersFit, Match, Below;
      assert Justified(attempts[id], attempts[id].result.value, runtime);
    }

    /** The rest of `prepare`, under the new active attempt. */
    method PrepareCandidate(q: Request, previous: Images) returns (r: Faults.Result)
      requires Inv() && q.id in attempts && q.id in everActive && q.id !in acknowledged && active == Some(q.id)
      requires attempts[q.id] == Claimed(q, previous, runtime)
      modifies `faults, `attempts, `disk
      ensures Inv() && q.id in attempts && attempts - {q.id} == old(attempts) - {q.id}
      ensures attempts.Keys == old(attempts).Keys
      ensures disk - {q.id} == old(disk) - {q.id}
      ensures attempts[q.id].baseline == old(attempts)[q.id].baseline && attempts[q.id].result.None?
      ensures r == Ok ==> q.id in disk && attempts[q.id] == disk[q.id]
      // no candidate is recorded before the build and the second look at the checkout
      ensures attempts != old(attempts) || r == Ok ==>
                First(old(faults)) == Fine && First(Rest(old(faults))) == Fine
      ensures r == Ok ==> Resolved(attempts[q.id], q) && Recoverable(attempts[q.id])
      ensures old(faults) == [] && CandidateImages(q, previous).Some? ==> r == Ok && faults == []
      ensures old(AllAcknowledgedOnDisk()) ==> AllAcknowledgedOnDisk()
    {
      hide Inv, AllAcknowledgedOnDisk, Claimed, CandidateImages, Recoverable, Resolved;
      r := Check();  // retained tags and the build
      var candidate := CandidateImages(q, previous);
      if r == Ok && candidate.None? {
        r := Failed;
      }
      if r == Ok {
        r := Check();  // retained tags, the unchanged checkout, the cache
      }
      NoResultYet(q, previous);
      if r == Ok {
        r := RecordCandidate(q, previous, candidate.value);
      }
    }

    lemma NoResultYet(q: Request, previous: Images)
      ensures Claimed(q, previous, runtime).result.None?
    {
    }

    /** Both candidate records; each write syncs the directory, and with it the helper. */
    method RecordCandidate(q: Request, previous: Images, candidate: Images) returns (r: Faults.Result)
      requires Inv() && q.id in attempts && q.id in everActive && q.id !in acknowledged && active == Some(q.id)
      requires attempts[q.id] == Claimed(q, previous, runtime) && candidate.Keys == q.candidateConfig.Keys
      modifies `faults, `attempts, `disk
      ensures Inv() && q.id in attempts && attempts - {q.id} == old(attempts) - {q.id}
      ensures attempts.Keys == old(attempts).Keys
      ensures disk - {q.id} == old(disk) - {q.id}
      ensures attempts[q.id].baseline == old(attempts)[q.id].baseline && attempts[q.id].result.None?
      ensures r == Ok ==> q.id in disk && attempts[q.id] == disk[q.id]
      ensures r == Ok ==> Resolved(attempts[q.id], q) && Recoverable(attempts[q.id])
      ensures old(faults) == [] ==> r == Ok && faults == []
      ensures old(AllAcknowledgedOnDisk()) ==> AllAcknowledgedOnDisk()
    {
      InDisk(q.id);
      hide Inv, Override, AllAcknowledgedOnDisk, Fits, Extends, Based, Below;
      var a := attempts[q.id].(candidate := Some(Candidate(q.sourceSha, candidate)));
      CandidateFits(q.id, attempts[q.id], a);
      r := WriteRecord(q.id, a);
      if r == Ok {
        ghost var before := a;
        a := a.(candidateOverride := Some(Override(candidate)));
        CandidateFits(q.id, before, a);
        r := WriteRecord(q.id, a);
      }
    }

    lemma CandidateFits(id: AttemptId, a: Attempt, b: Attempt)
      requires Fits(id, a) && Consistent(b)
      requires b == a.(candidate := b.candidate, candidateOverride := b.candidateOverride)
      requires SameOrMissing(a.candidate, b.candidate) && SameOrMissing(a.candidateOverride, b.candidateOverride)
      ensures Fits(id, b) && Extends(b, a)
    {
    }

    /** The conditions under which an undisturbed `prepare` succeeds. */
    ghost predicate Preparable(q: Request)
      reads `attempts, `active, `runtime
    {
      && (active.None? || Replaceable())
      && API in Running(runtime)
      && (forall s :: s in q.previousConfig ==> s in runtime || q.previousConfig[s].ref in q.local)
      && forall s :: s in q.candidateConfig ==> q.candidateConfig[s].built || q.candidateConfig[s].ref in q.pulled
    }

    /** `verify`, for the whole running runtime. */
    method Verify(a: Attempt, o: Outcome) returns (verified: bool)
      ensures verified <==> SideImages(a, o).Some? && PinnedTo(runtime, SideImages(a, o).value)
    {
      var images := SideImages(a, o);
      if images.None? || Running(runtime) == {} {
        return false;
      }
      var names := Running(runtime);
      while names != {}
        invariant names <= Running(runtime)
        invariant forall s :: s in Running(runtime) - names ==>
                    s in images.value && runtime[s].image == images.value[s].image
      {
        var s :| s in names;
        if s !in images.value || runtime[s].image != images.value[s].image {
          return false;
        }
        names := names - {s};
      }
      return true;
    }

    /** The unfinished active attempt, and a runtime that justifies the result. */
    predicate Accepts(id: AttemptId, o: Outcome)
      reads `attempts, `active, `runtime
    {
      active == Some(id) && id in attempts && attempts[id].result.None? && Justified(attempts[id], o, runtime)
    }

    predicate IsUnfinished(id: AttemptId)
      reads `attempts, `active
    {
      active == Some(id) && id in attempts && attempts[id].result.None?
    }

    /** A visible result whose writer never reported success. */
    ghost predicate Unacknowledged(id: AttemptId)
      reads `attempts, `acknowledged
    {
      id in attempts && attempts[id].result.Some? && id !in acknowledged
    }

    /** `finish`: the one terminal result of the active attempt, only after verification. */
    method Finish(o: Outcome, id: AttemptId) returns (r: Faults.Result)
      requires Inv()
      modifies `faults, `attempts, `disk, `acknowledged, `disturbed, `seenAtResult
      ensures Inv() && attempts.Keys == old(attempts).Keys
      // success is exactly a complete runtime of the unfinished active attempt, when nothing fails
      ensures r == Ok ==> old(IsUnfinished(id)) && Complete(old(attempts)[id], o, runtime)
      ensures old(faults) == [] && old(IsUnfinished(id)) && Complete(old(attempts)[id], o, runtime) ==>
                r == Ok && faults == []
      // exactly the verified runtimes of the unfinished active attempt are accepted
      ensures !old(Accepts(id, o)) ==> r == Failed && attempts == old(attempts) && disk == old(disk)
      ensures !old(Accepts(id, o)) ==>
                acknowledged == old(acknowledged) && disturbed == old(disturbed) && seenAtResult == old(seenAtResult)
      ensures !Disturbed(old(faults)) ==> disturbed == old(disturbed)
      ensures old(Accepts(id, o)) ==> Finished(old(attempts), old(faults), old(acknowledged), old(disturbed), o, id, r)
      ensures LogKeeps(old(attempts), attempts) && old(acknowledged) <= acknowledged
      ensures Grown(old(disk), old(acknowledged))
      ensures old(AllAcknowledged()) ==> (AllAcknowledged() <==> !(old(Accepts(id, o)) && Slips(old(faults))))
      ensures old(AllAcknowledgedOnDisk()) && !Disturbed(old(faults)) ==> AllAcknowledgedOnDisk()
    {
      hide Inv, Based, Justified, PinnedTo, Required, Complete;
      if id in attempts {
        JustifiedIsComplete(attempts[id], o, runtime);
      }
      if active != Some(id) || id !in attempts {
        return Failed;
      }
      var a := attempts[id];
      if a.result.Some? {
        return Failed;
      }
      ActiveIsBased(id);
      BasedHasBaseline(a);
      VerifiedIsJustified(id, o);
      var baseline := a.baseline.value;
      if o == Unchanged {
        if runtime != baseline.containers {
          return Failed;
        }
      } else {
        var verified := Verify(a, o);
        if !verified || !(Required(baseline, o) <= Running(runtime)) {
          return Failed;
        }
      }
      NotYetAcknowledged(id);
      r := WriteResult(id, o);
    }

    lemma BasedHasBaseline(a: Attempt)
      requires Based(a)
      ensures a.baseline.Some?
    {
    }

    lemma VerifiedIsJustified(id: AttemptId, o: Outcome)
      requires active == Some(id) && id in attempts && attempts[id].result.None? && attempts[id].baseline.Some?
      ensures
        var baseline := attempts[id].baseline.value;
        && (o == Unchanged ==> (Accepts(id, o) <==> runtime == baseline.containers))
        && (o != Unchanged ==>
              (Accepts(id, o) <==>
                 && SideImages(attempts[id], o).Some? && PinnedTo(runtime, SideImages(attempts[id], o).value)
                 && Required(baseline, o) <= Running(runtime)))
    {
    }

    lemma ActiveIsBased(id: AttemptId)
      requires Inv() && active == Some(id) && id in attempts
      ensures id in everActive && Based(attempts[id])
    {
      assert Fits(id, attempts[id]);
    }

    /** What an accepted finish leaves behind, by the script of its failures. */
    ghost predicate Finished(log: Log, script: seq<Fault>, acks: set<AttemptId>, failed: set<AttemptId>, o: Outcome,
                             id: AttemptId, r: Faults.Result)
      reads `attempts, `disk, `acknowledged, `disturbed, `seenAtResult, `runtime
    {
      && id in log && id in attempts && id in disk
      && (r == Ok <==> First(script) == Fine)
      // the result is visible when its write succeeded, and also when it slipped
      && attempts == log[id := if r == Ok || Slips(script) then log[id].(result := Some(o)) else log[id]]
      && (r == Ok ==> disk[id] == attempts[id] && id in seenAtResult && seenAtResult[id] == runtime)
      && acknowledged == acks + (if r == Ok then {id} else {})
      && disturbed == failed + (if Disturbed(script) then {id} else {})
      // an unacknowledged result stays exactly when the process died, or could not remove it again
      && (Unacknowledged(id) <==> Slips(script))
      // its removal is not synced, so on disk it may stay in any case
      && (Disturbed(script) && First(script).synced.third ==> disk[id].result == Some(o))
    }

    /** `write` for a result: when its sync fails the file is removed again, without a sync. */
    method WriteResult(id: AttemptId, o: Outcome) returns (r: Faults.Result)
      requires Inv() && Accepts(id, o) && id in everActive
      modifies `faults, `attempts, `disk, `acknowledged, `disturbed, `seenAtResult
      ensures Inv() && attempts.Keys == old(attempts).Keys && (old(faults) == [] ==> faults == [])
      ensures Finished(old(attempts), old(faults), old(acknowledged), old(disturbed), o, id, r)
      ensures disk.Keys == old(disk).Keys && forall x :: x in disk && x != id ==> disk[x] == old(disk)[x]
      ensures id in old(disk) && id in disk && SameOrMissing(old(disk)[id].baseline, disk[id].baseline)
      ensures !Disturbed(old(faults)) ==> disk[id] == old(disk)[id] || id in acknowledged
    {
      InDisk(id);
      NotYetAcknowledged(id);
      hide *;
      ghost var script := faults;
      var f, removed;
      f, removed, r := ReplaceResult();
      ShowResult(id, o, f, removed);
      FinishedBy(old(attempts), script, old(acknowledged), old(disturbed), o, id, r);
    }

    /** The replacement of the file, its sync, and its removal when that fails. */
    method ReplaceResult() returns (f: Fault, removed: bool, r: Faults.Result)
      modifies `faults
      ensures f == First(old(faults)) && (r == Ok <==> f == Fine) && (old(faults) == [] ==> faults == [])
      ensures Disturbed(old(faults)) <==> f.Fault? && f.applied
      ensures Disturbed(old(faults)) ==> (Slips(old(faults)) <==> !removed)
      ensures Slips(old(faults)) ==> Disturbed(old(faults))
    {
      f := Take();
      removed := false;
      r := Faults.Outcome(f);
      if f.Fault? && f.applied && !f.fatal {
        var unlink := Take();
        removed := unlink == Fine || unlink.applied;
        r := if unlink.Fault? && unlink.fatal then Died else Failed;
      }
    }

    lemma FinishedBy(log: Log, script: seq<Fault>, acks: set<AttemptId>, failed: set<AttemptId>, o: Outcome,
                     id: AttemptId, r: Faults.Result)
      requires id in log && id in attempts && id in disk && id !in acks && log[id].result.None?
      requires r == Ok <==> First(script) == Fine
      requires attempts == log[id := if First(script) == Fine || Slips(script) then log[id].(result := Some(o))
                            else log[id]]
      requires First(script) == Fine ==> disk[id] == attempts[id] && id in seenAtResult && seenAtResult[id] == runtime
      requires acknowledged == acks + if First(script) == Fine then {id} else {}
      requires disturbed == failed + if Disturbed(script) then {id} else {}
      requires Disturbed(script) && First(script).synced.third ==> disk[id].result == Some(o)
      ensures Finished(log, script, acks, failed, o, id, r)
    {
    }

    /** What the write, and perhaps the removal, leave of the result. */
    method ShowResult(id: AttemptId, o: Outcome, f: Fault, removed: bool)
      requires Inv() && Accepts(id, o) && id in everActive && id !in acknowledged
      modifies `attempts, `disk, `acknowledged, `disturbed, `seenAtResult
      ensures Inv() && id in disk && id in old(disk) && SameOrMissing(old(disk)[id].baseline, disk[id].baseline)
      ensures disk.Keys == old(disk).Keys && forall x :: x in disk && x != id ==> disk[x] == old(disk)[x]
      ensures
        var a := old(attempts)[id];
        attempts == old(attempts)[id := if f == Fine || (f.applied && !removed) then a.(result := Some(o)) else a]
      ensures f == Fine ==> disk[id] == attempts[id] && id in seenAtResult && seenAtResult[id] == runtime
      ensures f.Fault? && !f.applied ==> disk == old(disk)
      ensures f.Fault? && f.applied && f.synced.third ==> disk[id].result == Some(o)
      ensures acknowledged == old(acknowledged) + if f == Fine then {id} else {}
      ensures disturbed == old(disturbed) + if f.Fault? && f.applied then {id} else {}
    {
      InDisk(id);
      hide *;
      if f == Fine {
        ShowAcknowledged(id, o);
      } else if f.applied {
        ShowDisturbed(id, o, f.synced, removed);
      } else {
        assert attempts == attempts[id := attempts[id]];
        SameBaseline(disk[id]);
      }
    }

    lemma SameBaseline(a: Attempt)
      ensures SameOrMissing(a.baseline, a.baseline)
    {
    }

    method ShowAcknowledged(id: AttemptId, o: Outcome)
      requires Inv() && Accepts(id, o) && id in everActive && id !in acknowledged
      modifies `attempts, `disk, `acknowledged, `disturbed, `seenAtResult
      ensures Inv() && id in disk && id in old(disk) && SameOrMissing(old(disk)[id].baseline, disk[id].baseline)
      ensures disk.Keys == old(disk).Keys && forall x :: x in disk && x != id ==> disk[x] == old(disk)[x]
      ensures attempts == old(attempts)[id := old(attempts)[id].(result := Some(o))]
      ensures disk[id] == attempts[id] && id in seenAtResult && seenAtResult[id] == runtime
      ensures acknowledged == old(acknowledged) + {id} && disturbed == old(disturbed)
    {
      InDisk(id);
      var a := attempts[id].(result := Some(o));
      FitsFinished(id, a);
      BelowBaseline(disk[id], a);
      hide Inv, Justified, Based, Consistent, Below, Fits, FitsOrDisturbed;
      KeepResult(id, a, a, true);
    }

    method ShowDisturbed(id: AttemptId, o: Outcome, s: Synced, removed: bool)
      requires Inv() && Accepts(id, o) && id in everActive && id !in acknowledged
      modifies `attempts, `disk, `acknowledged, `disturbed, `seenAtResult
      ensures Inv() && id in disk && id in old(disk) && SameOrMissing(old(disk)[id].baseline, disk[id].baseline)
      ensures disk.Keys == old(disk).Keys && forall x :: x in disk && x != id ==> disk[x] == old(disk)[x]
      ensures attempts == old(attempts)[id := if removed then old(attempts)[id]
                            else old(attempts)[id].(result := Some(o))]
      ensures s.third ==> disk[id].result == Some(o)
      ensures acknowledged == old(acknowledged) && disturbed == old(disturbed) + {id}
    {
      InDisk(id);
      MixFitsResult(id, o, s);
      hide Inv, Justified, Based, Consistent, Below, Fits, Mix, FitsOrDisturbed;
      JustifiedResult(id, o);
      var a := attempts[id].(result := Some(o));
      KeepResult(id, if removed then attempts[id] else a, Mix(disk[id], a, s), false);
    }

    lemma BelowBaseline(d: Attempt, a: Attempt)
      ensures Below(d, a) ==> SameOrMissing(d.baseline, a.baseline)
      ensures Below(d, a.(result := None)) ==> Below(d, a)
    {
    }

    lemma JustifiedResult(id: AttemptId, o: Outcome)
      requires Accepts(id, o)
      ensures Justified(attempts[id].(result := Some(o)), o, runtime) && attempts[id] == attempts[id].(result := None)
    {
    }

    lemma FitsFinished(id: AttemptId, a: Attempt)
      requires id in attempts && Fits(id, attempts[id]) && id in everActive && a == attempts[id].(result := a.result)
      requires a.result.Some? && Accepts(id, a.result.value)
      ensures FitsOrDisturbed(id, attempts[id]) && FitsOrDisturbed(id, a) && Below(a, attempts[id])
      ensures Justified(a, a.result.value, runtime)
    {
    }

    lemma NotYetAcknowledged(id: AttemptId)
      requires Inv() && id in attempts && attempts[id].result.None?
      ensures id !in acknowledged
    {
    }

    lemma MixFitsResult(id: AttemptId, o: Outcome, s: Synced)
      requires id in attempts && id in disk && Fits(id, attempts[id])
      requires Fits(id, disk[id]) && Below(disk[id], attempts[id])
      requires active == Some(id) && id in everActive && attempts[id].result.None?
      ensures FitsOrDisturbed(id, Mix(disk[id], attempts[id].(result := Some(o)), s))
      ensures Below(Mix(disk[id], attempts[id].(result := Some(o)), s), attempts[id])
      ensures SameOrMissing(disk[id].baseline, Mix(disk[id], attempts[id].(result := Some(o)), s).baseline)
      ensures s.third ==> Mix(disk[id], attempts[id].(result := Some(o)), s).result == Some(o)
      ensures FitsOrDisturbed(id, attempts[id])
    {
    }

    /** Fit for the log of a disturbed attempt. */
    ghost predicate FitsOrDisturbed(id: AttemptId, a: Attempt)
      reads `everActive
    {
      Consistent(a) && id in everActive && Based(a)
    }

    /** The result as it is found from now on, visible and on disk. */
    method KeepResult(id: AttemptId, a: Attempt, d: Attempt, acknowledge: bool)
      requires Inv() && id in attempts && id !in acknowledged && active == Some(id) && attempts[id].result.None?
      requires FitsOrDisturbed(id, attempts[id]) && FitsOrDisturbed(id, d) && Below(d, attempts[id])
      requires a == attempts[id].(result := a.result)
      requires a.result.Some? ==> Justified(a, a.result.value, runtime)
      requires acknowledge ==> a == d && a.result.Some?
      modifies `attempts, `disk, `acknowledged, `disturbed, `seenAtResult
      ensures Inv() && attempts == old(attempts)[id := a] && disk == old(disk)[id := d]
      ensures acknowledged == old(acknowledged) + (if acknowledge then {id} else {})
      ensures disturbed == old(disturbed) + (if acknowledge then {} else {id})
      ensures seenAtResult == if a.result.Some? then old(seenAtResult)[id := runtime] else old(seenAtResult)
    {
      hide Inv, Justified, Based, Consistent, Below;
      ghost var had := disturbed;
      Disturb(id);
      if a.result.Some? {
        Remember(id);
      }
      PutBoth(id, a, d);
      if acknowledge {
        Acknowledge(id);
        Settle(id, had);
      }
    }

    ghost method Disturb(id: AttemptId)
      requires Inv()
      modifies `disturbed
      ensures Inv() && disturbed == old(disturbed) + {id}
    {
      hide Based, Consistent;
      disturbed := disturbed + {id};
    }

    ghost method Remember(id: AttemptId)
      requires Inv() && id in attempts && attempts[id].result.None? && id !in acknowledged
      modifies `seenAtResult
      ensures Inv() && seenAtResult == old(seenAtResult)[id := runtime]
    {
      hide Justified, View;
      seenAtResult := seenAtResult[id := runtime];
    }

    method PutBoth(id: AttemptId, a: Attempt, d: Attempt)
      requires Inv() && id in attempts && id !in acknowledged && active == Some(id) && id in disturbed
      requires FitsOrDisturbed(id, attempts[id]) && FitsOrDisturbed(id, d) && Below(d, attempts[id])
      requires a == attempts[id].(result := a.result)
      requires a.result.Some? ==> ResultFits(id, a)
      modifies `attempts, `disk
      ensures Inv() && attempts == old(attempts)[id := a] && disk == old(disk)[id := d]
    {
      hide View, Results, Match, Justified, ResultFits;
      assert Fits(id, a) && Fits(id, d) && Below(d, a);
      Puts(id, a, d);
      attempts, disk := attempts[id := a], disk[id := d];
    }

    ghost method Acknowledge(id: AttemptId)
      requires Inv() && id in attempts && id in disk && disk[id] == attempts[id]
      requires attempts[id].result.Some? && ResultFits(id, attempts[id])
      modifies `acknowledged
      ensures Inv() && acknowledged == old(acknowledged) + {id}
    {
      hide Justified, Based, Consistent, Below;
      acknowledged := acknowledged + {id};
    }

    ghost method Settle(id: AttemptId, had: set<AttemptId>)
      requires Inv() && id in acknowledged && disturbed == had + {id}
      modifies `disturbed
      ensures Inv() && disturbed == had
    {
      hide Justified, Based, Consistent, Below, Results;
      disturbed := had;
    }

    /** The live runtime is the recorded side of a finished attempt for the commit. */
    ghost predicate Describes(a: Attempt, head: Sha, containers: Containers) {
      && a.result.Some? && SideSha(a, a.result.value) == Some(head)
      && SideImages(a, a.result.value).Some? && PinnedTo(containers, SideImages(a, a.result.value).value)
      && (if a.result.value == Deployed then a.candidateOverride.Some? else a.previousOverride.Some?)
    }

    /** `current_override`: what describes the live runtime, nothing before the first deploy, or a refusal. */
    method CurrentOverride(head: Sha) returns (answer: Option<Option<map<Service, Image>>>)
      requires Inv()
      ensures answer == Some(None) <==> active.None?
      ensures answer.Some? && answer.value.Some? ==>
                forall s :: s in Running(runtime) ==>
                  s in answer.value.value && answer.value.value[s] == runtime[s].image
      // a finished attempt of this commit, whose side still runs, is described, and nothing else is
      ensures active.Some? ==> (answer != None <==> active.value in attempts && Describes(Prior(), head, runtime))
    {
      if active.None? {
        return Some(None);
      }
      if active.value !in attempts {
        return None;
      }
      ActiveIsBased(active.value);
      var a := attempts[active.value];
      assert Fits(active.value, a);
      if a.result.None? || SideSha(a, a.result.value) != Some(head) {
        return None;
      }
      var verified := Verify(a, a.result.value);
      var path := if a.result.value == Deployed then a.candidateOverride else a.previousOverride;
      return if verified && path.Some? then Some(path) else None;
    }

    // ----- The rest of the world -----

    /** Containers start, stop and change between the commands. */
    method RuntimeChanges(containers: Containers)
      requires Inv()
      modifies `runtime
      ensures Inv() && runtime == containers
    {
      runtime := containers;
    }

    /** No baseline and no acknowledged attempt on disk changed. */
    ghost predicate Grown(onDisk: Log, acks: set<AttemptId>)
      reads `disk
    {
      forall x :: x in onDisk ==>
        && x in disk && SameOrMissing(onDisk[x].baseline, disk[x].baseline)
        && (x in acks ==> disk[x] == onDisk[x])
    }

    /** The kernel writes back some entries of an attempt, the entry of its directory, and the pointer. */
    method WritesBack(id: AttemptId, s: Synced, link: bool, pointer: bool)
      requires Inv()
      modifies `disk, `linked, `diskActive
      ensures Inv() && old(linked) <= linked
      ensures old(AllAcknowledged() && AllAcknowledgedOnDisk()) ==> AllAcknowledgedOnDisk()
      ensures Grown(old(disk), acknowledged)
      ensures linked == old(linked) + if link && id in attempts then {id} else {}
      ensures diskActive == if pointer then active else old(diskActive)
      ensures id !in attempts ==> disk == old(disk)
      ensures id in attempts ==> id in old(disk) && disk == old(disk)[id := Mix(old(disk)[id], attempts[id], s)]
    {
      hide Inv, AllAcknowledged, AllAcknowledgedOnDisk;
      if pointer {
        PointerReaches();
      }
      if id in attempts {
        EntriesReach(id, s);
        if link {
          DirectoryReaches(id);
        }
      }
    }

    method PointerReaches()
      requires Inv()
      modifies `diskActive
      ensures Inv() && diskActive == active
    {
      hide View, Results, Match;
      diskActive := active;
    }

    method DirectoryReaches(id: AttemptId)
      requires Inv() && id in attempts
      modifies `linked
      ensures Inv() && linked == old(linked) + {id}
    {
      hide View, Results, Match;
      linked := linked + {id};
    }

    method EntriesReach(id: AttemptId, s: Synced)
      requires Inv() && id in attempts
      modifies `disk
      ensures Inv() && Grown(old(disk), acknowledged)
      ensures id in old(disk) && disk == old(disk)[id := Mix(old(disk)[id], attempts[id], s)]
      ensures old(AllAcknowledged() && AllAcknowledgedOnDisk()) ==> AllAcknowledgedOnDisk()
    {
      InDisk(id);
      var d := Mix(disk[id], attempts[id], s);
      MoreReached(id, s);
      hide View, Results, Match, Fits, Below, Mix;
      disk := disk[id := d];
    }

    lemma MoreReached(id: AttemptId, s: Synced)
      requires Inv() && id in attempts && id in disk
      ensures SameOrMissing(disk[id].baseline, Mix(disk[id], attempts[id], s).baseline)
      ensures id in acknowledged ==> Mix(disk[id], attempts[id], s) == disk[id]
      ensures View(disk[id := Mix(disk[id], attempts[id], s)])
      ensures Match(attempts, disk[id := Mix(disk[id], attempts[id], s)])
    {
      InDisk(id);
      var d := Mix(disk[id], attempts[id], s);
      MixBelow(id, disk[id], attempts[id], s);
      hide Fits, Below, ResultFits;
    }

    lemma MixBelow(id: AttemptId, d: Attempt, a: Attempt, s: Synced)
      requires Fits(id, a) && Fits(id, d) && Below(d, a)
      ensures Fits(id, Mix(d, a, s)) && Below(Mix(d, a, s), a) && (d == a ==> Mix(d, a, s) == a)
      ensures SameOrMissing(d.baseline, Mix(d, a, s).baseline)
    {
    }

    /** The attempts a power loss leaves named: all linked ones, but an active one whose pointer was never synced. */
    ghost function NamedAfterLoss(): set<AttemptId>
      reads `linked, `disk, `active, `diskActive, `everActive
    {
      set id | id in everActive && id in linked && id in disk
        && (Some(id) == diskActive || Some(id) != active || disk[id].result.Some?)
    }

    lemma AfterLoss()
      requires Inv()
      ensures linked <= disk.Keys
      ensures forall id :: id in disk ==>
                Consistent(disk[id]) && (id in everActive ==> Based(disk[id])) && Below(disk[id], disk[id])
      ensures forall id :: id in disk && disk[id].result.Some? ==>
                id in everActive && (id in acknowledged || id in disturbed)
      ensures forall id :: id in disk && id in everActive && disk[id].result.None? ==>
                active == Some(id) || id in disturbed
      ensures forall id :: id in acknowledged ==> id in disk && disk[id].result.Some? && ResultFits(id, disk[id])
      ensures diskActive.Some? && diskActive.value in disk ==> diskActive.value in everActive
    {
      hide Based, Consistent, Justified;
      forall id | id in disk
        ensures Fits(id, disk[id])
      {
      }
    }

    /** A log whose visible and whose durable contents are the same. */
    ghost predicate Whole(log: Log, pointer: Option<AttemptId>, named: set<AttemptId>, acks: set<AttemptId>,
                          shown: set<AttemptId>)
      reads `disturbed, `seenAtResult
    {
      && named <= log.Keys && (pointer.Some? && pointer.value in log ==> pointer.value in named)
      && (forall id :: id in log ==> Consistent(log[id]) && (id in named ==> Based(log[id])) && Below(log[id], log[id]))
      && (forall id :: id in log && log[id].result.Some? ==> id in named && (id in acks || id in disturbed))
      && (forall id :: id in log && id in named && log[id].result.None? ==> pointer == Some(id) || id in disturbed)
      && (forall id :: id in acks ==> id in log && log[id].result.Some? && ResultFits(id, log[id]))
      && (forall id :: id in log && log[id].result.Some? ==> id in acks || id in shown)
    }

    ghost function Shown(log: Log, acks: set<AttemptId>): set<AttemptId> {
      (set id | id in log && log[id].result.Some?) - acks
    }

    ghost function Kept(): Log
      reads `disk, `linked
    {
      map id | id in linked && id in disk :: disk[id]
    }

    lemma LossIsWhole()
      requires Inv()
      ensures Whole(Kept(), diskActive, NamedAfterLoss(), acknowledged * linked,
                    returned + Shown(Kept(), acknowledged * linked))
      ensures Kept().Keys == linked
    {
      AfterLoss();
      hide Inv, Based, Consistent, Below, Justified, ResultFits;
    }

    lemma OnlyTheDisk()
      requires attempts == disk && attempts.Keys == linked && active == diskActive
      requires Whole(attempts, active, everActive, acknowledged, returned)
      ensures Inv()
      ensures active.Some? && active.value in linked ==> active.value in everActive && Based(attempts[active.value])
      ensures active.Some? ==> (CanRecover() <==> active.value in linked && attempts[active.value].helper)
    {
      hide Based, Consistent, Below, Justified, ResultFits;
      ActiveCanBeRecovered();
    }

    /** Power is lost: the directories that reached the disk remain, with the entries that did. */
    method PowerLoss()
      requires Inv()
      modifies `attempts, `disk, `active, `everActive, `acknowledged, `returned
      ensures Inv() && attempts == disk == old(Kept()) && attempts.Keys == linked && active == diskActive
      ensures acknowledged == old(acknowledged) * linked && everActive == old(NamedAfterLoss())
      // with its directory the active attempt keeps its baseline, override and identity
      ensures active.Some? && active.value in linked ==> active.value in everActive && Based(attempts[active.value])
      // and it can be recovered exactly when its helper reached the disk as well
      ensures active.Some? ==> (CanRecover() <==> active.value in linked && attempts[active.value].helper)
      // the unacknowledged results that come back are those whose file and directory reached the disk
      ensures forall id :: Unacknowledged(id) <==>
                id in old(linked) && id in old(disk) && old(disk)[id].result.Some? && id !in old(acknowledged)
    {
      hide *;
      LossIsWhole();
      KeptIs();
      ghost var kept, named, acks := Kept(), NamedAfterLoss(), acknowledged * linked;
      ghost var shown := returned + Shown(kept, acks);
      var log := map id | id in linked && id in disk :: disk[id];
      assert log == kept;
      attempts, disk, active := log, log, diskActive;
      everActive, acknowledged, returned := named, acks, shown;
      assert Whole(attempts, active, everActive, acknowledged, returned);
      OnlyTheDisk();
      WhatComesBack();
    }

    lemma WhatComesBack()
      ensures forall id :: Unacknowledged(id) <==> id in attempts && attempts[id].result.Some? && id !in acknowledged
    {
    }

    lemma KeptIs()
      ensures Kept() == map id | id in linked && id in disk :: disk[id]
    {
    }

    lemma ActiveCanBeRecovered()
      ensures active.Some? && active.value in attempts && Based(attempts[active.value]) ==>
                (CanRecover() <==> attempts[active.value].helper)
    {
    }

    /** The active attempt has everything a recovery needs. */
    predicate CanRecover()
      reads `attempts, `active
    {
      active.Some? ==> active.value in attempts && Recoverable(attempts[active.value])
    }

    lemma LinkedAreAttempts()
      requires Inv()
      ensures linked <= attempts.Keys && attempts.Keys == disk.Keys
    {
    }

    lemma NamedAreAttempts()
      requires Inv()
      ensures everActive <= attempts.Keys
    {
    }

    // ----- What the log means -----

    /** At every moment at most one attempt is unfinished, and then it is active and has its baseline. */
    lemma UnfinishedIsActive(id: AttemptId)
      requires Inv() && id in everActive && attempts[id].result.None? && id !in disturbed
      ensures active == Some(id) && Based(attempts[id])
    {
      assert Fits(id, attempts[id]);
    }

    /** A replaced attempt has an acknowledged and justified result, unless its finish was disturbed. */
    lemma ReplacedIsFinished(id: AttemptId)
      requires Inv() && id in everActive && active != Some(id)
      ensures id in acknowledged || id in disturbed
      ensures id in acknowledged ==>
                && attempts[id].result.Some? && id in seenAtResult
                && Justified(attempts[id], attempts[id].result.value, seenAtResult[id])
    {
      assert Fits(id, attempts[id]);
    }

    /** While every visible result is acknowledged, so is every replaced attempt that kept its result. */
    lemma AcknowledgedWhenReplaced(id: AttemptId)
      requires Inv() && AllAcknowledged() && id in everActive && active != Some(id)
      requires id !in disturbed || attempts[id].result.Some?
      ensures id in acknowledged && id in attempts && id in disk && disk[id] == attempts[id]
    {
      assert Fits(id, attempts[id]);
    }
  }

  /** Each previous image comes from the live container, a recorded ID, or the reference. */
  function PreviousImages(q: Request, observed: Containers, recorded: Images): (images: Option<Images>)
    ensures images.Some? ==> images.value.Keys == q.previousConfig.Keys
    ensures images.Some? ==>
              forall s :: s in images.value && s in observed ==> images.value[s].image == observed[s].image
    // a service without a container goes on with its recorded image, and only else with what its reference names
    ensures images.Some? ==> forall s :: s in images.value && s !in observed ==>
              if s in recorded then images.value[s].image == recorded[s].image
              else q.previousConfig[s].ref in q.local && images.value[s].image == q.local[q.previousConfig[s].ref]
    ensures (forall s :: s in q.previousConfig ==> s in observed || q.previousConfig[s].ref in q.local) ==> images.Some?
  {
    if forall s :: s in q.previousConfig ==>
         PreviousImage(s, q.previousConfig[s], observed, recorded, q.local).Some? then
      Some(map s | s in q.previousConfig ::
             Pinned(q.previousConfig[s].ref, PreviousImage(s, q.previousConfig[s], observed, recorded, q.local).value))
    else None
  }

  function CandidateImages(q: Request, previous: Images): (images: Option<Images>)
    ensures images.Some? ==> images.value.Keys == q.candidateConfig.Keys
    // built here; else the previous image of an unchanged reference; else what was pulled
    ensures images.Some? ==> forall s :: s in images.value ==>
              && (q.candidateConfig[s].built ==> images.value[s].image == q.built)
              && (!q.candidateConfig[s].built && s in previous && previous[s].ref == q.candidateConfig[s].ref ==>
                    images.value[s].image == previous[s].image)
              && (!q.candidateConfig[s].built && !(s in previous && previous[s].ref == q.candidateConfig[s].ref) ==>
                    q.candidateConfig[s].ref in q.pulled && images.value[s].image == q.pulled[q.candidateConfig[s].ref])
    ensures (forall s :: s in q.candidateConfig ==>
               q.candidateConfig[s].built || q.candidateConfig[s].ref in q.pulled) ==>
              images.Some?
  {
    if forall s :: s in q.candidateConfig ==>
         CandidateImage(s, q.candidateConfig[s], previous, q.pulled, q.built).Some? then
      Some(map s | s in q.candidateConfig ::
             Pinned(q.candidateConfig[s].ref,
                    CandidateImage(s, q.candidateConfig[s], previous, q.pulled, q.built).value))
    else None
  }

  datatype Command =
    | Prepares(request: Request, script: seq<Fault>)
    | Finishes(outcome: Outcome, id: AttemptId, script: seq<Fault>)
    | Changes(containers: Containers)
    | KernelWrites(id: AttemptId, entries: Synced, directory: bool, pointer: bool)
    | PowerIsLost

  /** What a power loss cannot take: the attempts whose directory is on disk. */
  ghost predicate DiskKeeps(s: ReleaseState, linked: set<AttemptId>, onDisk: Log, acknowledged: set<AttemptId>)
    reads s
  {
    && linked <= s.linked
    && (forall id :: id in linked && id in onDisk && onDisk[id].baseline.Some? ==>
          id in s.disk && id in s.attempts && s.disk[id].baseline == s.attempts[id].baseline == onDisk[id].baseline)
    && (forall id :: id in linked && id in onDisk && id in acknowledged ==>
          id in s.acknowledged && id in s.disk && id in s.attempts && s.disk[id] == s.attempts[id] == onDisk[id])
  }

  lemma DiskKeepsOn(s: ReleaseState, linked: set<AttemptId>, onDisk: Log, acks: set<AttemptId>,
                    linked': set<AttemptId>, onDisk': Log, acks': set<AttemptId>)
    requires linked <= linked'
    requires forall id :: id in linked && id in onDisk && onDisk[id].baseline.Some? ==>
               id in onDisk' && onDisk'[id].baseline == onDisk[id].baseline
    requires forall id :: id in linked && id in onDisk && id in acks ==>
               id in acks' && id in onDisk' && onDisk'[id] == onDisk[id]
    requires DiskKeeps(s, linked', onDisk', acks')
    ensures DiskKeeps(s, linked, onDisk, acks)
  {
  }

  lemma KeptOnDisk(s: ReleaseState, linked: set<AttemptId>, onDisk: Log, acks: set<AttemptId>)
    requires s.Inv() && linked <= s.linked && acks <= s.acknowledged
    requires s.Grown(onDisk, acks)
    ensures DiskKeeps(s, linked, onDisk, acks)
  {
    forall id | id in linked && id in onDisk
      ensures id in s.disk && id in s.attempts && Below(s.disk[id], s.attempts[id])
      ensures id in acks ==> s.disk[id] == s.attempts[id]
    {
      s.LinkedAreAttempts();
      s.InDisk(id);
    }
  }

  method ExecutePrepare(s: ReleaseState, request: Request, script: seq<Fault>)
    requires s.Inv()
    modifies s
    ensures s.Inv() && s.linked == old(s.linked) && s.disturbed == old(s.disturbed)
    ensures DiskKeeps(s, old(s.linked), old(s.disk), old(s.acknowledged))
    ensures LogKeeps(old(s.attempts), s.attempts)
    ensures old(s.AllReplacedFinished()) ==> s.AllReplacedFinished()
    ensures old(s.AllAcknowledged()) ==> s.AllAcknowledged()
    ensures old(s.AllAcknowledgedOnDisk()) ==> s.AllAcknowledgedOnDisk()
  {
    hide ReleaseState.Inv, ReleaseState.AllAcknowledgedOnDisk, Based, Recoverable, Resolved, FreshBaseline, SideImages;
    hide DiskKeeps, ReleaseState.Preparable, ReleaseState.Continues;
    hide ReleaseState.RunsAsRecorded, Running, First, Rest;
    s.LinkedAreAttempts();
    s.faults := script;
    ghost var log, onDisk := s.attempts, s.disk;
    var _ := s.Prepare(request);
    if request.id !in log {
      Others(log, s.attempts, request.id);
      Others(onDisk, s.disk, request.id);
    }
    s.LinkedAreAttempts();
    KeptOnDisk(s, old(s.linked), onDisk, old(s.acknowledged));
  }

  lemma Others(before: Log, after: Log, id: AttemptId)
    requires after - {id} == before - {id}
    ensures forall x :: x != id ==> (x in before <==> x in after) && (x in before ==> after[x] == before[x])
  {
    forall x | x != id
      ensures (x in before <==> x in after) && (x in before ==> after[x] == before[x])
    {
      assert x in before - {id} <==> x in before;
      assert x in after - {id} <==> x in after;
    }
  }

  method ExecuteFinish(s: ReleaseState, outcome: Outcome, id: AttemptId, script: seq<Fault>)
    requires s.Inv()
    modifies s
    ensures s.Inv() && s.linked == old(s.linked)
    ensures DiskKeeps(s, old(s.linked), old(s.disk), old(s.acknowledged))
    ensures LogKeeps(old(s.attempts), s.attempts)
    ensures old(s.AllReplacedFinished()) ==> s.AllReplacedFinished()
    ensures !Slips(script) && old(s.AllAcknowledged()) ==> s.AllAcknowledged()
    ensures !Disturbed(script) && old(s.AllAcknowledged()) ==> s.AllAcknowledged()
    ensures !Disturbed(script) && old(s.AllAcknowledgedOnDisk()) ==> s.AllAcknowledgedOnDisk()
    ensures !Disturbed(script) ==> s.disturbed == old(s.disturbed)
  {
    assert Slips(script) ==> Disturbed(script);
    hide ReleaseState.Inv, ReleaseState.Grown, ReleaseState.AllAcknowledged;
    hide ReleaseState.AllAcknowledgedOnDisk, Slips, Disturbed;
    hide LogKeeps, ReplacedFinished, ReleaseState.Accepts, ReleaseState.Finished;
    s.faults := script;
    ghost var log := s.attempts;
    var _ := s.Finish(outcome, id);
    ReplacedStay(log, s.attempts, s.active, s.everActive);
    KeptOnDisk(s, old(s.linked), old(s.disk), old(s.acknowledged));
  }

  method ExecuteChange(s: ReleaseState, containers: Containers)
    requires s.Inv()
    modifies s`runtime
    ensures s.Inv() && DiskKeeps(s, s.linked, s.disk, s.acknowledged) && LogKeeps(s.attempts, s.attempts)
  {
    s.RuntimeChanges(containers);
    hide ReleaseState.Inv;
    KeptOnDisk(s, s.linked, s.disk, s.acknowledged);
  }

  method ExecuteWriteback(s: ReleaseState, id: AttemptId, entries: Synced, directory: bool, pointer: bool)
    requires s.Inv()
    modifies s`disk, s`linked, s`diskActive
    ensures s.Inv() && DiskKeeps(s, old(s.linked), old(s.disk), s.acknowledged) && LogKeeps(s.attempts, s.attempts)
    ensures old(s.AllAcknowledged() && s.AllAcknowledgedOnDisk()) ==> s.AllAcknowledgedOnDisk()
  {
    hide ReleaseState.Inv, ReleaseState.Grown, ReleaseState.AllAcknowledged, ReleaseState.AllAcknowledgedOnDisk;
    s.WritesBack(id, entries, directory, pointer);
    KeptOnDisk(s, old(s.linked), old(s.disk), s.acknowledged);
  }

  method ExecuteLoss(s: ReleaseState)
    requires s.Inv()
    modifies s
    ensures s.Inv() && DiskKeeps(s, old(s.linked), old(s.disk), old(s.acknowledged)) && s.disturbed == old(s.disturbed)
    ensures old(s.AllAcknowledgedOnDisk()) ==> s.AllAcknowledged() && s.AllAcknowledgedOnDisk()
  {
    s.LinkedAreAttempts();
    hide ReleaseState.Inv;
    s.PowerLoss();
  }

  method Execute(s: ReleaseState, c: Command)
    requires s.Inv()
    modifies s
    ensures s.Inv()
    ensures DiskKeeps(s, old(s.linked), old(s.disk), old(s.acknowledged))
    ensures !c.PowerIsLost? ==> LogKeeps(old(s.attempts), s.attempts)
    ensures !c.PowerIsLost? && old(s.AllReplacedFinished()) ==> s.AllReplacedFinished()
    // a result stays unacknowledged through a finish that slips, or a power loss, and through nothing else
    ensures !c.PowerIsLost? && !(c.Finishes? && Slips(c.script)) && old(s.AllAcknowledged()) ==> s.AllAcknowledged()
    ensures !(c.Finishes? && Disturbed(c.script)) && old(s.AllAcknowledged() && s.AllAcknowledgedOnDisk()) ==>
              s.AllAcknowledged() && s.AllAcknowledgedOnDisk()
    ensures !(c.Finishes? && Disturbed(c.script)) ==> s.disturbed == old(s.disturbed)
  {
    hide ReleaseState.Inv, ReleaseState.AllAcknowledged, ReleaseState.AllAcknowledgedOnDisk;
    hide ReleaseState.AllReplacedFinished;
    hide LogKeeps, DiskKeeps, Slips, Disturbed;
    match c
    case Prepares(request, script) => ExecutePrepare(s, request, script);
    case Finishes(outcome, id, script) => ExecuteFinish(s, outcome, id, script);
    case Changes(containers) => ExecuteChange(s, containers);
    case KernelWrites(id, entries, directory, pointer) => ExecuteWriteback(s, id, entries, directory, pointer);
    case PowerIsLost => ExecuteLoss(s);
  }

  /** Commands of which none is a finish that fails after its result became visible. */
  ghost predicate NoneDisturbed(commands: seq<Command>) {
    forall i :: 0 <= i < |commands| && commands[i].Finishes? ==> !Disturbed(commands[i].script)
  }

  /** Nor one whose result then stays. */
  ghost predicate NoneSlips(commands: seq<Command>) {
    forall i :: 0 <= i < |commands| && commands[i].Finishes? ==> !Slips(commands[i].script)
  }

  ghost predicate NoPowerLoss(commands: seq<Command>) {
    forall i :: 0 <= i < |commands| ==> !commands[i].PowerIsLost?
  }

  /** Every sequence of commands and power losses, each with its own failures. */
  method Run(s: ReleaseState, commands: seq<Command>)
    requires s.Inv()
    modifies s
    ensures s.Inv()
    // attempts whose directory is on disk keep their baseline, and their acknowledged result
    ensures DiskKeeps(s, old(s.linked), old(s.disk), old(s.acknowledged))
    ensures NoPowerLoss(commands) ==> LogKeeps(old(s.attempts), s.attempts)
    ensures NoPowerLoss(commands) && old(s.AllReplacedFinished()) ==> s.AllReplacedFinished()
    ensures NoPowerLoss(commands) && NoneSlips(commands) && old(s.AllAcknowledged()) ==> s.AllAcknowledged()
    ensures NoneDisturbed(commands) && old(s.AllAcknowledged() && s.AllAcknowledgedOnDisk()) ==> s.AllAcknowledged()
    ensures NoneDisturbed(commands) ==> s.disturbed == old(s.disturbed)
  {
    hide ReleaseState.Inv, ReleaseState.AllAcknowledged, ReleaseState.AllAcknowledgedOnDisk;
    hide ReleaseState.AllReplacedFinished;
    hide LogKeeps, DiskKeeps, Slips, Disturbed;
    KeptAtFirst(s);
    for i := 0 to |commands|
      invariant s.Inv()
      invariant DiskKeeps(s, old(s.linked), old(s.disk), old(s.acknowledged))
      invariant NoPowerLoss(commands) ==> LogKeeps(old(s.attempts), s.attempts)
      invariant NoPowerLoss(commands) && old(s.AllReplacedFinished()) ==> s.AllReplacedFinished()
      invariant NoPowerLoss(commands) && NoneSlips(commands) && old(s.AllAcknowledged()) ==> s.AllAcknowledged()
      invariant NoneDisturbed(commands) && old(s.AllAcknowledged() && s.AllAcknowledgedOnDisk()) ==>
                  s.AllAcknowledged() && s.AllAcknowledgedOnDisk()
      invariant NoneDisturbed(commands) ==> s.disturbed == old(s.disturbed)
    {
      ghost var log, linked, onDisk, acks := s.attempts, s.linked, s.disk, s.acknowledged;
      StillOnDisk(s, old(s.linked), old(s.disk), old(s.acknowledged));
      Execute(s, commands[i]);
      DiskKeepsOn(s, old(s.linked), old(s.disk), old(s.acknowledged), linked, onDisk, acks);
      if NoPowerLoss(commands) {
        LogKeepsOn(old(s.attempts), log, s.attempts);
      }
    }
  }

  lemma KeptAtFirst(s: ReleaseState)
    requires s.Inv()
    ensures DiskKeeps(s, s.linked, s.disk, s.acknowledged) && LogKeeps(s.attempts, s.attempts)
  {
    hide ReleaseState.Inv;
    KeptOnDisk(s, s.linked, s.disk, s.acknowledged);
  }

  lemma StillOnDisk(s: ReleaseState, linked: set<AttemptId>, onDisk: Log, acks: set<AttemptId>)
    requires DiskKeeps(s, linked, onDisk, acks)
    ensures linked <= s.linked
    ensures forall id :: id in linked && id in onDisk && onDisk[id].baseline.Some? ==>
              id in s.disk && s.disk[id].baseline == onDisk[id].baseline
    ensures forall id :: id in linked && id in onDisk && id in acks ==>
              id in s.acknowledged && id in s.disk && s.disk[id] == onDisk[id]
  {
  }

  lemma LogKeepsOn(a: Log, b: Log, c: Log)
    requires LogKeeps(a, b) && LogKeeps(b, c)
    ensures LogKeeps(a, c)
  {
  }

  /**
   From an empty log: unless a finish failed after its result was visible, every attempt that was replaced has an
   acknowledged result.  Without a power loss it is enough that no such result stayed.
   */
  method RunFromEmpty(runtime: Containers, commands: seq<Command>) returns (s: ReleaseState)
    ensures fresh(s) && s.Inv()
    ensures NoneDisturbed(commands) || (NoPowerLoss(commands) && NoneSlips(commands)) ==>
              forall id :: id in s.everActive && s.active != Some(id) ==>
                id in s.acknowledged && id in s.disk && id in s.attempts && s.disk[id] == s.attempts[id]
  {
    s := new ReleaseState(runtime);
    hide ReleaseState.Inv;
    Run(s, commands);
    forall id | id in s.everActive && s.active != Some(id)
      ensures s.AllAcknowledged() && (id !in s.disturbed || s.AllReplacedFinished()) ==>
                id in s.acknowledged && id in s.disk && id in s.attempts && s.disk[id] == s.attempts[id]
    {
      s.LinkedAreAttempts();
      s.NamedAreAttempts();
      if s.AllAcknowledged() && (id !in s.disturbed || s.AllReplacedFinished()) {
        s.AcknowledgedWhenReplaced(id);
      }
    }
  }

  // ----- What can go wrong -----

  function Asked(id: AttemptId): Request {
    Request(id, 20, 10, map[], map[], map[], map[], 0)
  }

  /** An undisturbed `prepare`, with everything it wrote still in a directory that is not on disk. */
  method Prepared() returns (s: ReleaseState)
    ensures s.Inv() && s.active == s.diskActive == Some(1) && 1 in s.attempts
    ensures s.attempts[1].result.None? && 1 !in s.linked
    ensures FreshBaseline(s.attempts[1], Asked(1), s.runtime) && s.faults == [] && API in Running(s.runtime)
    ensures s.attempts.Keys == {1} && s.acknowledged == s.disturbed == {} && fresh(s)
  {
    s := new ReleaseState(map[API := Container(1, 7, true)]);
    hide ReleaseState.Inv;
    assert s.Preparable(Asked(1));
    var r := s.Prepare(Asked(1));
    assert s.attempts.Keys == {1} by {
      Others(map[], s.attempts, 1);
    }
  }

  /** The power goes: the active attempt has nothing left, and no other can replace it. */
  method PreparedAttemptVanishes() returns (s: ReleaseState)
    ensures s.Inv() && s.active == Some(1) && 1 !in s.attempts && !s.CanRecover() && !s.Replaceable() && fresh(s)
  {
    s := Prepared();
    hide ReleaseState.Inv;
    s.PowerLoss();
  }

  /** A claim whose directory reached the disk before its helper did: the baseline is there, what runs it is not. */
  method HelperIsMissing() returns (s: ReleaseState)
    ensures s.Inv() && s.active == Some(1) && 1 in s.attempts && Based(s.attempts[1]) && !s.CanRecover() && fresh(s)
  {
    s := new ReleaseState(map[API := Container(1, 7, true)]);
    hide ReleaseState.Inv, Based;
    var r := s.ClaimAttempt(Asked(1), map[]);
    s.DirectoryReaches(1);
    s.PowerLoss();
    s.ActiveIsBased(1);
  }

  /** A finish that dies after its file is visible leaves a result it never reported. */
  method UnacknowledgedResult() returns (s: ReleaseState)
    ensures s.Inv() && s.active == Some(1) && 1 in s.attempts && 1 !in s.acknowledged && s.attempts.Keys == {1}
    ensures s.attempts[1].result == Some(Unchanged) && s.Replaceable() && API in Running(s.runtime) && fresh(s)
  {
    s := Prepared();
    hide ReleaseState.Inv;
    s.faults := [Fault(true, true, Synced(true, true, true))];
    ghost var log := s.attempts;
    var r := s.Finish(Unchanged, 1);
  }

  /** The next `prepare` takes it as finished: the replaced attempt has no acknowledged result. */
  method UnacknowledgedResultIsReplaced() returns (s: ReleaseState)
    ensures s.Inv() && s.active == Some(2) && 1 in s.attempts
    ensures s.attempts[1].result == Some(Unchanged) && 1 !in s.acknowledged
  {
    s := UnacknowledgedResult();
    hide ReleaseState.Inv;
    s.faults := [];
    assert s.Preparable(Asked(2));
    var r := s.Prepare(Asked(2));
    assert 1 in s.attempts - {2};
  }

  /** A result that could not be synced and was removed again comes back with the power. */
  method RemovedResultReturns() returns (s: ReleaseState)
    ensures s.Inv() && s.active == Some(1) && 1 in s.attempts
    ensures s.attempts[1].result == Some(Unchanged) && 1 !in s.acknowledged && fresh(s)
  {
    s := Prepared();
    hide ReleaseState.Inv;
    s.WritesBack(1, Synced(true, true, true), true, true);
    s.faults := [Fault(true, false, Synced(true, true, true))];
    var r := s.Finish(Unchanged, 1);
    s.PowerLoss();
  }
}
