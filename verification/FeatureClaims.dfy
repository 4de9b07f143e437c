/**
 Feature IDs claimed by concurrent processes: checks made before the lock are stale by the
 time the shared registry is read again and rewritten under it.
 */
module FeatureClaims {
  import opened Faults

  datatype Claim = Claim(issue: Option<nat>, branch: string, slug: string)

  type Claims = map<nat, Claim>

  // ----- The next free ID -----

  /** The first ID at or above `start` that is free. */
  ghost predicate IsFirstFree(occupied: set<nat>, start: nat, id: nat) {
    start <= id && id !in occupied && forall k :: start <= k < id ==> k in occupied
  }

  /** `_available_id`: zero is no ID, and None is the exhausted numbering. */
  method AvailableId(occupied: set<nat>, start: nat, maximum: Option<nat>) returns (id: Option<nat>)
    ensures id.Some? ==> IsFirstFree(occupied + {0}, start, id.value)
    ensures id.Some? && maximum.Some? ==> id.value <= maximum.value
    ensures id.None? ==> maximum.Some? && forall k :: start <= k <= maximum.value ==> k in occupied + {0}
  {
    var candidate := if start < 1 then 1 else start;
    ghost var above := occupied;
    while candidate in occupied
      invariant start <= candidate && candidate > 0
      invariant forall k :: start <= k < candidate ==> k in occupied + {0}
      invariant above <= occupied && forall k :: k in occupied && k >= candidate ==> k in above
      decreases above
    {
      above := above - {candidate};
      candidate := candidate + 1;
    }
    if maximum.Some? && candidate > maximum.value {
      return None;
    }
    return Some(candidate);
  }

  /** One past the highest ID in sequence. */
  ghost predicate IsSuccessor(sequence: set<nat>, start: nat) {
    && (forall k :: k in sequence ==> k < start)
    && (sequence == {} ==> start == 1)
    && (sequence != {} ==> start > 0 && start - 1 in sequence)
  }

  method Successor(sequence: set<nat>) returns (start: nat)
    ensures IsSuccessor(sequence, start)
  {
    start := 1;
    var left, any := sequence, false;
    while left != {}
      invariant left <= sequence
      invariant forall n :: n in sequence && n !in left ==> n < start
      invariant !any ==> left == sequence
      invariant !any ==> start == 1
      invariant any ==> start > 0 && start - 1 in sequence
      decreases left
    {
      var k :| k in left;
      if !any || start < k + 1 {
        start := k + 1;
      }
      left, any := left - {k}, true;
    }
  }

  /** The numbering policy of the repository. */
  datatype Policy = Policy(outOfSequence: set<nat>, maximum: Option<nat>)

  function Sequence(specs: set<nat>, policy: Policy): set<nat> {
    set k | k in specs && k !in policy.outOfSequence && (policy.maximum.Some? ==> k <= policy.maximum.value)
  }

  /** The sequence starts one past a spec that counts, and past every other spec that counts. */
  lemma WhereItStarts(specs: set<nat>, policy: Policy, start: nat)
    requires IsSuccessor(Sequence(specs, policy), start)
    ensures forall k :: k in specs ==>
              k < start || k in policy.outOfSequence || (policy.maximum.Some? && k > policy.maximum.value)
    ensures start > 1 ==>
              && start - 1 in specs && start - 1 !in policy.outOfSequence
              && (policy.maximum.Some? ==> start - 1 <= policy.maximum.value)
  {
    assert forall k :: k in specs && k !in Sequence(specs, policy) ==>
        k in policy.outOfSequence || (policy.maximum.Some? && k > policy.maximum.value);
  }

  /** What GitHub knows: the IDs it has markers of, and those whose search fails. */
  datatype GitHub = GitHub(marked: set<nat>, failing: set<nat>)

  datatype Next = Next(id: nat) | Exhausted | Unknown

  /** The first ID free of `blocked` after the sequence. */
  ghost predicate IsNext(sequence: set<nat>, blocked: set<nat>, id: nat) {
    exists start: nat :: IsSuccessor(sequence, start) && IsFirstFree(blocked, start, id)
  }

  /** No ID free of `blocked` after the sequence and within the maximum. */
  ghost predicate NoneLeft(sequence: set<nat>, blocked: set<nat>, maximum: nat) {
    exists start: nat :: IsSuccessor(sequence, start) && AllTaken(blocked, start, maximum)
  }

  ghost predicate AllTaken(blocked: set<nat>, start: nat, maximum: nat) {
    forall k :: start <= k <= maximum ==> k in blocked
  }

  ghost function Blocked(occupied: set<nat>, github: GitHub, offline: bool): set<nat> {
    occupied + if offline then {} else github.marked
  }

  /** There is only one next ID, and it is found. */
  lemma NextIsFound(sequence: set<nat>, blocked: set<nat>, id: nat, next: Next, maximum: Option<nat>)
    requires IsNext(sequence, blocked, id) && next != Unknown
    requires maximum.Some? ==> id <= maximum.value
    requires next.Next? ==> IsNext(sequence, blocked, next.id)
    requires next == Exhausted ==> maximum.Some? && NoneLeft(sequence, blocked, maximum.value)
    ensures next == Next(id)
  {
    var start: nat :| IsSuccessor(sequence, start) && IsFirstFree(blocked, start, id);
    if next.Next? {
      var other: nat :| IsSuccessor(sequence, other) && IsFirstFree(blocked, other, next.id);
      OneSuccessor(sequence, start, other);
      OneFirstFree(blocked, start, id, next.id);
    } else {
      var other: nat :| IsSuccessor(sequence, other) && AllTaken(blocked, other, maximum.value);
      OneSuccessor(sequence, start, other);
    }
  }

  lemma OneFirstFree(blocked: set<nat>, start: nat, a: nat, b: nat)
    requires IsFirstFree(blocked, start, a) && IsFirstFree(blocked, start, b)
    ensures a == b
  {
  }

  lemma OneSuccessor(sequence: set<nat>, a: nat, b: nat)
    requires IsSuccessor(sequence, a) && IsSuccessor(sequence, b)
    ensures a == b
  {
  }

  /** `_next_feature_id`: specs anchor the sequence, everything else only blocks single IDs. */
  method NextFeatureId(specs: set<nat>, policy: Policy, occupied: set<nat>, github: GitHub, offline: bool)
    returns (next: Next)
    ensures next.Next? ==> IsNext(Sequence(specs, policy), Blocked(occupied, github, offline), next.id)
    ensures next.Next? && !offline ==> next.id !in github.failing
    ensures next.Next? && policy.maximum.Some? ==> next.id <= policy.maximum.value
    ensures next == Exhausted ==> policy.maximum.Some?
    ensures next == Exhausted ==>
              NoneLeft(Sequence(specs, policy), Blocked(occupied, github, offline), policy.maximum.value)
    ensures next == Unknown ==> !offline && github.failing != {}
  {
    var start := Successor(Sequence(specs, policy));
    assert start > 0 && forall k: nat :: k > 0 ==> (k in occupied + {0} <==> k in occupied);
    var candidate := AvailableId(occupied, start, policy.maximum);
    ghost var unseen := github.marked;
    while candidate.Some? && !offline
      invariant candidate.Some? ==> start <= candidate.value && candidate.value !in occupied
      invariant candidate.Some? && policy.maximum.Some? ==> candidate.value <= policy.maximum.value
      invariant candidate.Some? ==>
                  forall k :: start <= k < candidate.value ==> k in occupied || (!offline && k in github.marked)
      invariant candidate.Some? ==> forall k :: k in github.marked && k >= candidate.value ==> k in unseen
      invariant candidate.None? ==> policy.maximum.Some?
      invariant candidate.None? ==> AllTaken(Blocked(occupied, github, offline), start, policy.maximum.value)
      decreases unseen, candidate.Some?
    {
      if candidate.value in github.failing {
        return Unknown;
      }
      if candidate.value !in github.marked {
        return Next(candidate.value);
      }
      unseen := unseen - {candidate.value};
      candidate := AvailableId(occupied, candidate.value + 1, policy.maximum);
    }
    return if candidate.None? then Exhausted else Next(candidate.value);
  }

  // ----- How the registry may change -----

  /** A draft gains its issue; branch and slug stay. */
  ghost predicate Upgrades(a: Claim, b: Claim) {
    a.issue.None? && b.issue.Some? && a.branch == b.branch && a.slug == b.slug
  }

  ghost predicate Evolves(before: Claims, after: Claims) {
    forall id :: id in before ==> id in after && (after[id] == before[id] || Upgrades(before[id], after[id]))
  }

  lemma EvolvesTwice(a: Claims, b: Claims, c: Claims)
    requires Evolves(a, b) && Evolves(b, c)
    ensures Evolves(a, c)
  {
  }

  /** The registry contents so far, oldest first. */
  ghost predicate Chain(history: seq<Claims>) {
    history != [] && forall i :: 0 <= i < |history| - 1 ==> Evolves(history[i], history[i + 1])
  }

  lemma {:induction false} ChainEvolves(history: seq<Claims>, i: nat, j: nat)
    requires Chain(history) && i <= j < |history|
    ensures Evolves(history[i], history[j])
    decreases j - i
  {
    if i < j {
      ChainEvolves(history, i, j - 1);
      EvolvesTwice(history[i], history[j - 1], history[j]);
    }
  }

  /** A claim, once recorded, stays; it changes at most once, and then only gains its issue. */
  lemma ChangesAtMostOnce(history: seq<Claims>, id: nat, i: nat, j: nat, k: nat)
    requires Chain(history) && i <= j <= k < |history| && id in history[i]
    ensures id in history[j] && id in history[k]
    ensures history[i][id] != history[j][id] ==>
              Upgrades(history[i][id], history[j][id]) && history[k][id] == history[j][id]
  {
    ChainEvolves(history, i, j);
    ChainEvolves(history, j, k);
  }

  // ----- One process before the lock -----

  datatype Request = Request(id: nat, claim: Claim)

  /** What a process knows when it reaches the lock. */
  datatype Ticket = Ticket(request: Request, draftUpgrade: bool)

  /** The registry has no other claim of that ID, or a draft the ticket may complete. */
  ghost predicate MayEnter(claims: Claims, ticket: Ticket) {
    var id, wanted := ticket.request.id, ticket.request.claim;
    id !in claims || claims[id] == wanted || (ticket.draftUpgrade && Upgrades(claims[id], wanted))
  }

  /** The checks `claim` makes on a registry it reads without the lock; None is a refusal. */
  function EarlyChecks(claims: Claims, elsewhere: set<nat>, policy: Policy, request: Request): Option<Ticket> {
    var recorded := if request.id in claims then Some(claims[request.id]) else None;
    var same := recorded == Some(request.claim);
    var upgrade := recorded.Some? && recorded.value.issue.None? && request.claim.issue.Some?
      && recorded.value.branch == request.claim.branch && recorded.value.slug == request.claim.slug;
    if request.id == 0 || request.claim.branch == "" || request.claim.slug == "" then None
    else if same || upgrade then Some(Ticket(request, upgrade))
    else if policy.maximum.Some? && request.id > policy.maximum.value then None
    else if request.id in elsewhere || request.id in claims then None
    else Some(Ticket(request, false))
  }

  /** The registry holds exactly this claim, or the draft of it. */
  ghost predicate HoldsOrDrafts(claims: Claims, request: Request) {
    request.id in claims && (claims[request.id] == request.claim || Upgrades(claims[request.id], request.claim))
  }

  /** A named claim gets past the early checks when it is recorded, completes its draft, or has a free ID. */
  lemma WhoGetsPast(claims: Claims, elsewhere: set<nat>, policy: Policy, request: Request)
    ensures
      var ticket := EarlyChecks(claims, elsewhere, policy, request);
      && (ticket.Some? <==>
            && request.id > 0 && request.claim.branch != "" && request.claim.slug != ""
            && (HoldsOrDrafts(claims, request)
                || (request.id !in claims.Keys + elsewhere
                    && (policy.maximum.Some? ==> request.id <= policy.maximum.value))))
      && (ticket.Some? ==> ticket.value.request == request && MayEnter(claims, ticket.value))
      && (ticket.Some? ==>
            (ticket.value.draftUpgrade <==> request.id in claims && Upgrades(claims[request.id], request.claim)))
  {
  }

  /** Where a process may stop: before the registry is replaced, or before it reports success. */
  datatype Stop = Never | BeforeWrite | AfterWrite

  datatype Event =
    | Arrive(process: nat, elsewhere: set<nat>, policy: Policy, request: Request)
    | Enter(process: nat, stop: Stop)
    | AllocateNext(requested: nat, claim: Claim, created: nat, specs: set<nat>, refs: set<nat>, policy: Policy,
                   github: GitHub, stop: Stop)
    | KernelWrites(whole: bool)
    | PowerIsLost

  /** How many requests were granted, and IDs handed out, when a version of the registry was replaced. */
  datatype Mark = Mark(granted: nat, handedOut: nat)

  ghost predicate HonouredBy(claims: Claims, r: Request) {
    r.id in claims && (claims[r.id] == r.claim || Upgrades(r.claim, claims[r.id]))
  }

  class Registry {
    var claims: Claims
    var disk: Option<Claims>     // what a power loss would reveal of the file; None while it is torn
    var corrupt: bool            // what it did reveal cannot be read
    ghost var history: seq<Claims>
    ghost var marks: seq<Mark>   // one for each version but the last
    ghost var reached: nat       // the version on disk
    /** Every request answered with success, of which the registry may still know. */
    ghost var granted: seq<Request>
    /** Every ID handed out by an allocation that wrote the registry, likewise. */
    ghost var handedOut: seq<nat>

    ghost predicate Inv()
      reads this
    {
      corrupt || (Sound() && Marked() && (disk.Some? ==> reached < |history| && history[reached] == disk.value))
    }

    ghost predicate Sound()
      reads this
    {
      && Chain(history) && history[|history| - 1] == claims
      && (forall i :: 0 <= i < |granted| ==> Honoured(granted[i]))
      && (forall i :: 0 <= i < |handedOut| ==> handedOut[i] in claims)
      && (forall i, j :: 0 <= i < j < |handedOut| ==> handedOut[i] != handedOut[j])
    }

    /** Each version held what had been promised by the time it was replaced. */
    ghost predicate Marked()
      reads this
    {
      && |marks| + 1 == |history|
      && (forall i, j :: 0 <= i < j < |marks| ==>
            marks[i].granted <= marks[j].granted && marks[i].handedOut <= marks[j].handedOut)
      && forall i :: 0 <= i < |marks| ==>
           && marks[i].granted <= |granted| && marks[i].handedOut <= |handedOut|
           && (forall k :: 0 <= k < marks[i].granted ==> HonouredBy(history[i], granted[k]))
           && (forall k :: 0 <= k < marks[i].handedOut ==> handedOut[k] in history[i])
    }

    /** The promises that the version on disk holds. */
    ghost function Kept(): Mark
      reads this
    {
      if reached < |marks| then marks[reached] else Mark(|granted|, |handedOut|)
    }

    /** The registry still holds what a process was promised. */
    ghost predicate Honoured(r: Request)
      reads `claims
    {
      HonouredBy(claims, r)
    }

    constructor (initial: Claims)
      ensures Inv() && claims == initial && history == [initial] && granted == [] && handedOut == []
      ensures disk == Some(initial) && !corrupt && reached == 0 && marks == []
    {
      claims, history, granted, handedOut := initial, [initial], [], [];
      disk, corrupt, reached, marks := Some(initial), false, 0, [];
    }

    /** Replaces the registry, without a sync; the caller holds the lock. */
    method Record(id: nat, claim: Claim)
      requires Inv() && !corrupt
      requires id in claims ==> claims[id] == claim || Upgrades(claims[id], claim)
      modifies `claims, `history, `marks
      ensures Inv()
      ensures claims == old(claims)[id := claim] && history == old(history) + [claims]
      ensures marks == old(marks) + [Mark(|granted|, |handedOut|)] && Evolves(old(claims), claims)
    {
      claims := claims[id := claim];
      history := history + [claims];
      marks := marks + [Mark(|granted|, |handedOut|)];
      assert forall r :: old(Honoured(r)) ==> Honoured(r);
    }

    /** ... for an ID that is handed out with it. */
    method RecordNew(id: nat, claim: Claim)
      requires Inv() && !corrupt && id !in claims
      modifies `claims, `history, `marks, `handedOut
      ensures Inv() && handedOut == old(handedOut) + [id]
      ensures claims == old(claims)[id := claim] && history == old(history) + [claims]
      ensures Evolves(old(claims), claims)
    {
      Record(id, claim);
      handedOut := handedOut + [id];
    }

    /** A process reports success. */
    method Grant(request: Request)
      requires Inv() && !corrupt && Honoured(request)
      modifies `granted
      ensures Inv() && granted == old(granted) + [request]
    {
      granted := granted + [request];
    }

    /** The kernel writes the file back, or begins to. */
    method WritesBack(whole: bool)
      requires Inv()
      modifies `disk, `reached
      ensures Inv() && (disk == if whole then Some(claims) else None)
      ensures whole && !corrupt ==> reached + 1 == |history|
    {
      disk := if whole then Some(claims) else None;
      if whole && !corrupt {
        reached := |history| - 1;
      }
    }

    /** Power is lost: an earlier version comes back, with the promises made under it, or a file nobody can read. */
    method PowerLoss()
      requires Inv()
      modifies this
      ensures Inv() && disk == old(disk) && (corrupt <==> old(corrupt) || disk.None?)
      ensures !corrupt ==>
                && claims == disk.value && old(Kept()).granted <= |old(granted)|
                && granted == old(granted)[..old(Kept()).granted]
      ensures !corrupt ==> history == old(history)[..old(reached) + 1] && reached == old(reached)
    {
      if disk.None? {
        corrupt := true;
      } else if !corrupt {
        ghost var kept := Kept();
        claims := disk.value;
        history, marks := history[..reached + 1], marks[..reached];
        granted, handedOut := granted[..kept.granted], handedOut[..kept.handedOut];
      }
    }

    /** The locked part of `claim`, on a ticket drawn from an earlier state of the registry. */
    method EnterClaim(ticket: Ticket, stop: Stop) returns (ok: bool)
      requires Inv()
      requires ticket.draftUpgrade ==> ticket.request.claim.issue.Some?
      modifies `claims, `history, `marks, `granted
      ensures Inv() && Evolves(old(claims), claims)
      ensures claims != old(claims) ==> claims == old(claims)[ticket.request.id := ticket.request.claim]
      ensures history == old(history) || history == old(history) + [claims]
      ensures ok ==> granted == old(granted) + [ticket.request]
      ensures ok ==> claims == old(claims)[ticket.request.id := ticket.request.claim]
      ensures !ok ==> granted == old(granted)
      ensures ok <==> !corrupt && stop == Never && MayEnter(old(claims), ticket)
    {
      hide Inv;
      if corrupt {
        return false;
      }
      var id, wanted := ticket.request.id, ticket.request.claim;
      if id in claims && claims[id] != wanted {
        var current := claims[id];
        if !(ticket.draftUpgrade && current.issue.None? && current.branch == wanted.branch
             && current.slug == wanted.slug) {
          return false;
        }
      }
      if stop == BeforeWrite {
        return false;
      }
      Record(id, wanted);
      if stop == AfterWrite {
        return false;
      }
      Grant(ticket.request);
      return true;
    }

    /** The requested ID is within the policy and the next one nobody holds, and GitHub answers. */
    ghost predicate MayAllocate(requested: nat, claim: Claim, specs: set<nat>, held: set<nat>, policy: Policy,
                                github: GitHub) {
      && claim.branch != "" && claim.slug != "" && requested > 0
      && (policy.maximum.Some? ==> requested <= policy.maximum.value)
      && IsNext(Sequence(specs, policy), specs + held + github.marked, requested)
      && github.failing == {}
    }

    /** `--allocate`: everything under the lock, so the ID is still the next one when it is recorded. */
    method Allocate(requested: nat, claim: Claim, created: nat, specs: set<nat>, refs: set<nat>, policy: Policy,
                    github: GitHub, stop: Stop)
      returns (ok: bool)
      requires Inv()
      modifies `claims, `history, `marks, `granted, `handedOut
      ensures Inv() && Evolves(old(claims), claims)
      ensures claims != old(claims) ==>
        && requested !in old(claims)
        && (exists recorded :: claims == old(claims)[requested := recorded] && recorded.issue.Some?
              && recorded.branch == claim.branch && recorded.slug == claim.slug)
        && IsNext(Sequence(specs, policy), specs + refs + old(claims).Keys + github.marked, requested)
      // the umbrella issue that was given, or the one created for want of it
      ensures claims != old(claims) ==>
                claims[requested].issue == if claim.issue in {None, Some(0)} then Some(created) else claim.issue
      ensures ok ==>
                claims != old(claims) && |granted| == |old(granted)| + 1 && granted[..|old(granted)|] == old(granted)
      ensures ok ==> granted[|granted| - 1] == Request(requested, claims[requested])
      ensures !ok ==> granted == old(granted)
      ensures !corrupt && stop == Never ==>
                MayAllocate(requested, claim, specs, refs + old(claims).Keys, policy, github) ==> ok
      ensures history == old(history) || history == old(history) + [claims]
      ensures handedOut == old(handedOut) + if claims != old(claims) then [requested] else []
    {
      hide Inv;
      if corrupt || claim.branch == "" || claim.slug == "" || requested == 0
         || (policy.maximum.Some? && requested > policy.maximum.value) {
        return false;
      }
      var occupied := specs + refs + claims.Keys;
      var next := NextFeatureId(specs, policy, occupied, github, false);
      if MayAllocate(requested, claim, specs, refs + claims.Keys, policy, github) {
        assert occupied + github.marked == specs + (refs + claims.Keys) + github.marked;
        NextIsFound(Sequence(specs, policy), occupied + github.marked, requested, next, policy.maximum);
      }
      if !next.Next? || next.id != requested {
        return false;
      }
      var issue := if claim.issue == None || claim.issue == Some(0) then created else claim.issue.value;
      if stop == BeforeWrite {
        return false;
      }
      var recorded := Claim(Some(issue), claim.branch, claim.slug);
      RecordNew(requested, recorded);
      assert claims[requested] == recorded && requested !in old(claims);
      if stop == AfterWrite {
        return false;
      }
      Grant(Request(requested, recorded));
      return true;
    }

    /** The grants that the version on disk holds. */
    ghost function Safe(): seq<Request>
      reads this
    {
      if Kept().granted <= |granted| then granted[..Kept().granted] else granted
    }

    /** The file holds them, as it is seen and as it is on disk. */
    ghost predicate Honours(promises: seq<Request>)
      reads `claims, `disk
    {
      disk.Some? && forall r :: r in promises ==> HonouredBy(claims, r) && HonouredBy(disk.value, r)
    }

    lemma SafeIsHonoured()
      requires Inv()
      ensures !corrupt && disk.Some? ==> Honours(Safe())
    {
      if !corrupt && disk.Some? {
        forall r | r in Safe()
          ensures HonouredBy(claims, r) && HonouredBy(disk.value, r)
        {
          var k :| 0 <= k < |Safe()| && Safe()[k] == r;
          assert Honoured(granted[k]);
        }
      }
    }

    /** Promises survive a change of the registry, and a version that is written back or comes back. */
    lemma StillHonoured(promises: seq<Request>, before: Claims, onDisk: Claims)
      requires Evolves(before, claims) && (disk == Some(onDisk) || disk == Some(claims))
      requires forall r :: r in promises ==> HonouredBy(before, r) && HonouredBy(onDisk, r)
      ensures Honours(promises)
    {
    }

    ghost predicate Waits(waiting: map<nat, Ticket>) {
      forall p :: p in waiting && waiting[p].draftUpgrade ==> waiting[p].request.claim.issue.Some?
    }

    /** One step of a process, or of the machine. */
    method Step(e: Event, had: map<nat, Ticket>, ghost promises: seq<Request>) returns (waiting: map<nat, Ticket>)
      requires Inv() && Waits(had)
      modifies this
      ensures Inv() && Waits(waiting)
      ensures !e.PowerIsLost? ==> Evolves(old(claims), claims) && old(history) <= history
      ensures !e.PowerIsLost? ==> old(granted) <= granted && old(handedOut) <= handedOut
      ensures old(!corrupt && Honours(promises)) && e != KernelWrites(false) ==> !corrupt && Honours(promises)
      // a process waits for the lock with what it read when it arrived, and enters once; power takes all of them
      ensures e.Arrive? ==>
                var ticket := EarlyChecks(old(claims), e.elsewhere, e.policy, e.request);
                waiting == if corrupt || ticket.None? then had else had[e.process := ticket.value]
      ensures e.Enter? ==> waiting == had - {e.process}
      ensures e.Enter? && e.process in had && !corrupt && e.stop == Never && MayEnter(old(claims), had[e.process]) ==>
                granted == old(granted) + [had[e.process].request]
      ensures e.PowerIsLost? ==> waiting == map[] && (corrupt || (old(disk).Some? && claims == old(disk).value))
    {
      hide Inv, IsNext, HonouredBy, MayAllocate, MayEnter;
      waiting := had;
      match e {
        case Arrive(process, elsewhere, policy, request) =>
          var ticket := if corrupt then None else EarlyChecks(claims, elsewhere, policy, request);
          if ticket.Some? {
            waiting := waiting[process := ticket.value];
          }
        case Enter(process, stop) =>
          if process in waiting {
            var ok := EnterClaim(waiting[process], stop);
            waiting := waiting - {process};
          }
        case AllocateNext(requested, claim, created, specs, refs, policy, github, stop) =>
          var ok := Allocate(requested, claim, created, specs, refs, policy, github, stop);
        case KernelWrites(whole) => WritesBack(whole);
        case PowerIsLost =>
          PowerLoss();
          waiting := map[];
      }
      if old(!corrupt && Honours(promises)) && e != KernelWrites(false) && !e.PowerIsLost? {
        StillHonoured(promises, old(claims), old(disk).value);
      }
    }

    /** Any number of processes, interleaved in any way; each event is one step of one of them, or of the machine. */
    method Run(events: seq<Event>)
      requires Inv()
      modifies this
      ensures Inv()
      ensures NoPowerLoss(events) ==> Evolves(old(claims), claims)
      ensures NoPowerLoss(events) ==>
                old(history) <= history && old(granted) <= granted && old(handedOut) <= handedOut
      // what the version on disk promised stays, while no write-back is torn
      ensures NoneTorn(events) && old(!corrupt && disk.Some?) ==> !corrupt && disk.Some? && Honours(old(Safe()))
    {
      var waiting: map<nat, Ticket> := map[];
      ghost var safe := Safe();
      SafeIsHonoured();
      hide Inv, Honours, Safe;
      for i := 0 to |events|
        invariant Inv() && Waits(waiting)
        invariant NoPowerLoss(events) ==> Evolves(old(claims), claims)
        invariant NoPowerLoss(events) ==>
                    old(history) <= history && old(granted) <= granted && old(handedOut) <= handedOut
        invariant NoneTorn(events) && old(!corrupt && disk.Some?) ==> !corrupt && Honours(safe)
      {
        ghost var before := claims;
        waiting := Step(events[i], waiting, safe);
        if NoPowerLoss(events) {
          EvolvesTwice(old(claims), before, claims);
        }
      }
      HonoursIsOnDisk(safe);
    }

    lemma HonoursIsOnDisk(promises: seq<Request>)
      ensures Honours(promises) ==> disk.Some?
    {
    }

    /** Two processes that both succeeded for one ID hold the same branch and slug, and no two different issues. */
    lemma GrantsAgree(i: nat, j: nat)
      requires Inv() && !corrupt && i < |granted| && j < |granted| && granted[i].id == granted[j].id
      ensures granted[i].claim.branch == granted[j].claim.branch && granted[i].claim.slug == granted[j].claim.slug
      ensures granted[i].claim.issue.Some? && granted[j].claim.issue.Some? ==>
                granted[i].claim.issue == granted[j].claim.issue
    {
      assert Honoured(granted[i]) && Honoured(granted[j]);
    }
  }

  ghost predicate NoPowerLoss(events: seq<Event>) {
    forall i :: 0 <= i < |events| ==> !events[i].PowerIsLost?
  }

  ghost predicate NoneTorn(events: seq<Event>) {
    forall i :: 0 <= i < |events| && events[i].KernelWrites? ==> events[i].whole
  }

  /** A granted claim goes with the power, and its ID is granted to another branch. */
  method OneFeatureTwice(mine: Claim, yours: Claim) returns (r: Registry, first: bool, second: bool)
    requires mine.branch != yours.branch
    ensures first && second && fresh(r) && r.Inv() && !r.corrupt && r.claims == map[7 := yours]
  {
    r := new Registry(map[]);
    hide Registry.Inv;
    first := r.EnterClaim(Ticket(Request(7, mine), false), Never);
    r.PowerLoss();
    second := r.EnterClaim(Ticket(Request(7, yours), false), Never);
  }
}
