/**
 The durable latch of a protection incident: opened by a request, only ever escalated by
 the timer, and closed by a manual restoration whose receipt names that incident.
 */
module IncidentLatch {
  import opened Faults

  datatype Status = Observed | ProtectionRequested | BlockedDryRun | NotEnabled | ApplyFailed | Protected

  /** Environment settings; the program stores a digest of them. */
  type Settings = map<string, string>

  datatype State = State(
    status: Status,
    reasons: set<string>,
    recordedAt: int,
    incident: Option<string>,
    startedAt: Option<int>,
    applied: Option<Settings>,
    closed: Option<string>)

  datatype Receipt = Receipt(incident: Option<string>, approvedAt: int, expiresAt: int, runtime: Settings)

  // ----- Validation -----

  predicate IsCode(code: string) {
    code != "" && forall i :: 0 <= i < |code| ==> 'a' <= code[i] <= 'z' || code[i] == '_'
  }

  predicate IsIncidentId(id: string) {
    |id| == 32 && forall i :: 0 <= i < 32 ==> 'a' <= id[i] <= 'f' || '0' <= id[i] <= '9'
  }

  /** The characters of a reason, and those of an incident identifier. */
  lemma Alphabets(text: string)
    ensures IsCode(text) <==> text != "" && forall c :: c in text ==> c in "abcdefghijklmnopqrstuvwxyz_"
    ensures IsIncidentId(text) <==> |text| == 32 && forall c :: c in text ==> c in "0123456789abcdef"
  {
    assert forall c: char :: 'a' <= c <= 'z' || c == '_' <==> c in "abcdefghijklmnopqrstuvwxyz_";
    assert forall c: char :: 'a' <= c <= 'f' || '0' <= c <= '9' <==> c in "0123456789abcdef";
    if forall c :: c in text ==> c in "abcdefghijklmnopqrstuvwxyz_" {
      assert forall i :: 0 <= i < |text| ==> text[i] in text;
    }
    if forall c :: c in text ==> c in "0123456789abcdef" {
      assert forall i :: 0 <= i < |text| ==> text[i] in text;
    }
  }

  /** What every run demands of the file it finds. */
  predicate Verified(s: State) {
    && (forall code :: code in s.reasons ==> IsCode(code))
    && (s.status == Observed ==> s.reasons == {})
    && (s.status != Observed ==> s.incident.Some? && IsIncidentId(s.incident.value))
    && (s.status == Protected ==> s.applied.Some?)
  }

  function Fresh(now: int): State {
    State(Observed, {}, now, None, None, None, None)
  }

  // ----- The settings of the running container -----

  type Rows = seq<(string, string)>

  /** The positions of a setting. */
  function Named(rows: Rows, key: string): (r: seq<nat>)
    ensures forall i :: i in r <==> 0 <= i < |rows| && rows[i].0 == key
  {
    if rows == [] then []
    else Named(rows[..|rows| - 1], key) + if rows[|rows| - 1].0 == key then [|rows| - 1 as nat] else []
  }

  /** Each setting appears once, with the value that disables it. */
  predicate ReadsBack(rows: Rows, disabled: Settings) {
    forall key :: key in disabled ==> OnceWith(rows, key, disabled[key])
  }

  predicate OnceWith(rows: Rows, key: string, value: string) {
    |Named(rows, key)| == 1 && (assert Named(rows, key)[0] in Named(rows, key); rows[Named(rows, key)[0]].1 == value)
  }

  predicate EachOnce(rows: Rows, keys: set<string>) {
    forall key :: key in keys ==> |Named(rows, key)| == 1
  }

  function Effective(rows: Rows, keys: set<string>): Settings
    requires EachOnce(rows, keys)
  {
    map key | key in keys :: (assert Named(rows, key)[0] in Named(rows, key); rows[Named(rows, key)[0]].1)
  }

  /** The one row of a setting. */
  ghost predicate OnlyRow(rows: Rows, key: string, i: int) {
    0 <= i < |rows| && rows[i].0 == key && forall j :: 0 <= j < |rows| && rows[j].0 == key ==> j == i
  }

  lemma {:induction false} NoneNamed(rows: Rows, key: string)
    ensures Named(rows, key) == [] <==> forall i :: 0 <= i < |rows| ==> rows[i].0 != key
  {
    if Named(rows, key) != [] {
      assert Named(rows, key)[0] in Named(rows, key);
    }
    if i :| 0 <= i < |rows| && rows[i].0 == key {
      assert i as nat in Named(rows, key);
    }
  }

  lemma {:induction false} NamedOnce(rows: Rows, key: string)
    ensures |Named(rows, key)| == 1 <==> exists i :: OnlyRow(rows, key, i)
    ensures forall i :: OnlyRow(rows, key, i) ==> |Named(rows, key)| == 1 && Named(rows, key)[0] == i
  {
    if rows != [] {
      var front, last := rows[..|rows| - 1], |rows| - 1;
      NamedOnce(front, key);
      NoneNamed(front, key);
      assert forall i :: 0 <= i < |front| ==> front[i] == rows[i];
      if rows[last].0 == key {
        if |Named(rows, key)| == 1 {
          assert OnlyRow(rows, key, last);
        }
      } else {
        assert forall i :: OnlyRow(rows, key, i) <==> OnlyRow(front, key, i);
      }
    }
  }

  /** Reading back succeeds exactly when each switch has one row, and the settings in effect are the disabled ones. */
  lemma ReadsBackIff(rows: Rows, disabled: Settings)
    ensures ReadsBack(rows, disabled) <==>
              forall key :: key in disabled ==> exists i :: OnlyRow(rows, key, i) && rows[i].1 == disabled[key]
    ensures ReadsBack(rows, disabled) <==>
              EachOnce(rows, disabled.Keys) && Effective(rows, disabled.Keys) == disabled
  {
    forall key | key in disabled
      ensures OnceWith(rows, key, disabled[key]) <==> exists i :: OnlyRow(rows, key, i) && rows[i].1 == disabled[key]
    {
      NamedOnce(rows, key);
    }
  }

  /** The settings in effect: each key has one row, and its value. */
  lemma EffectiveIs(rows: Rows, keys: set<string>, settings: Settings)
    ensures EachOnce(rows, keys) && Effective(rows, keys) == settings <==>
              settings.Keys == keys
              && forall key :: key in keys ==> exists i :: OnlyRow(rows, key, i) && rows[i].1 == settings[key]
  {
    forall key | key in keys
      ensures |Named(rows, key)| == 1 <==> exists i :: OnlyRow(rows, key, i)
      ensures forall i :: OnlyRow(rows, key, i) ==> |Named(rows, key)| == 1 && Named(rows, key)[0] == i
    {
      NamedOnce(rows, key);
    }
    if EachOnce(rows, keys) {
      assert Effective(rows, keys).Keys == keys;
    }
  }

  // ----- What one written file may follow another -----

  predicate Latched(s: State) {
    s.status != Observed
  }

  /** One entry of the history: why the file was written. */
  datatype Cause =
    | Found
    | Moved(action: Status, verified: bool)
    | Restored(receipt: Receipt, now: int)

  datatype Entry = Entry(state: State, cause: Cause)

  ghost predicate Continues(a: State, b: State) {
    && b.status != Observed && b.incident == a.incident && b.startedAt == a.startedAt
    && a.reasons <= b.reasons && (a.status == Protected ==> b.status == Protected)
  }

  /** The receipt closes the incident it names, and was approved after that incident began. */
  ghost predicate Closes(a: State, b: State, receipt: Receipt, now: int) {
    && b.status == Observed && b.closed == a.incident && receipt.incident == a.incident
    && a.startedAt.Some? && 0 < a.startedAt.value <= receipt.approvedAt <= now < receipt.expiresAt
    && b.applied == Some(receipt.runtime)
  }

  ghost predicate Follows(a: State, e: Entry) {
    && Verified(e.state)
    && (Latched(a) && e.cause.Moved? ==> Continues(a, e.state))
    && (Latched(a) && e.cause.Restored? ==> Closes(a, e.state, e.cause.receipt, e.cause.now))
    && (Latched(a) ==> !e.cause.Found?)
    && (!Latched(a) ==> !e.cause.Restored?)
    && (!Latched(a) && Latched(e.state) ==>
          && e.state.status == ProtectionRequested && e.state.reasons != {}
          && e.state.startedAt == Some(e.state.recordedAt))
    && (a.status != Protected && e.state.status == Protected ==> e.cause == Moved(Protected, true))
  }

  ghost predicate History(log: seq<Entry>) {
    && (forall i :: 0 <= i < |log| ==> Verified(log[i].state))
    && (forall i :: 0 < i < |log| ==> Follows(log[i - 1].state, log[i]))
  }

  // ----- Properties of every history -----

  /** An incident stays as it is, only growing, until some receipt names it. */
  ghost predicate Persists(log: seq<Entry>, i: nat, j: nat)
    requires i <= j < |log|
  {
    && Latched(log[j].state) && log[j].state.incident == log[i].state.incident
    && log[j].state.startedAt == log[i].state.startedAt && log[i].state.reasons <= log[j].state.reasons
    && (log[i].state.status == Protected ==> log[j].state.status == Protected)
  }

  ghost predicate ClosedAt(log: seq<Entry>, i: nat, k: nat)
    requires i < |log| && k < |log|
  {
    && log[k].cause.Restored? && log[k].cause.receipt.incident == log[i].state.incident
    && log[i].state.startedAt.Some? && log[i].state.startedAt.value <= log[k].cause.receipt.approvedAt
    && log[k].state.closed == log[i].state.incident
  }

  lemma {:induction false} OnlyAReceiptEndsAnIncident(log: seq<Entry>, i: nat, j: nat)
    requires History(log) && i <= j < |log| && Latched(log[i].state)
    ensures Persists(log, i, j) || exists k :: i < k <= j && ClosedAt(log, i, k)
    decreases j - i
  {
    if i < j {
      OnlyAReceiptEndsAnIncident(log, i, j - 1);
      if Persists(log, i, j - 1) {
        assert Follows(log[j - 1].state, log[j]);
        if log[j].cause.Restored? {
          assert ClosedAt(log, i, j);
        }
      } else {
        var k :| i < k <= j - 1 && ClosedAt(log, i, k);
      }
    }
  }

  /** Protection is recorded only after the running container was read back with every switch off. */
  lemma {:induction false} ProtectionWasReadBack(log: seq<Entry>, j: nat)
    requires History(log) && j < |log| && log[j].state.status == Protected && log[0].state.status != Protected
    ensures exists k :: 0 < k <= j && log[k].cause == Moved(Protected, true) && Persists(log, k, j)
  {
    assert Follows(log[j - 1].state, log[j]);
    if log[j - 1].state.status == Protected {
      ProtectionWasReadBack(log, j - 1);
      var k :| 0 < k <= j - 1 && log[k].cause == Moved(Protected, true) && Persists(log, k, j - 1);
      assert Persists(log, k, j);
    } else {
      assert Persists(log, j, j);
    }
  }

  // ----- The program -----

  datatype Answer = Status(status: Status) | Refused(reason: string) | Crashed

  /** What a restoration checks besides the receipt: capacity decision, proofs and measured growth. */
  datatype Review = Review(operator: bool, versionsMatch: bool, capacityReady: bool, proofs: bool, growth: bool,
                           deadline: int)

  class Latch {
    var file: Option<State>
    const disabled: Settings
    ghost var log: seq<Entry>

    ghost predicate Inv()
      reads `file, `log
    {
      && History(log)
      && (file.None? <==> log == [])
      && (file.Some? ==> log[|log| - 1].state == file.value)
    }

    constructor (disabled: Settings)
      ensures Inv() && file.None? && this.disabled == disabled
    {
      this.disabled := disabled;
      file, log := None, [];
    }

    /** A latch whose file is already there. */
    constructor Existing(disabled: Settings, state: State)
      requires Verified(state)
      ensures Inv() && file == Some(state) && log == [Entry(state, Found)] && this.disabled == disabled
    {
      this.disabled := disabled;
      file, log := Some(state), [Entry(state, Found)];
    }

    /** `atomic_json`: the old file or the new one, and perhaps an error. */
    method Write(state: State, cause: Cause, fault: Fault) returns (r: Result)
      requires Inv() && Verified(state)
      requires file.Some? ==> Follows(file.value, Entry(state, cause))
      modifies `file, `log
      ensures Inv()
      ensures
        var written := fault == Fine || fault.applied;
        && file == (if written then Some(state) else old(file))
        && log == old(log) + if written then [Entry(state, cause)] else []
      ensures r == Outcome(fault)
    {
      if fault == Fine || fault.applied {
        log := log + [Entry(state, cause)];
        file := Some(state);
      }
      return Outcome(fault);
    }

    /** `transition` with the action `status`. */
    method ReadStatus(now: int, fault: Fault) returns (r: Answer)
      requires Inv()
      modifies `file, `log
      ensures Inv()
      ensures old(file).Some? ==> file == old(file) && log == old(log) && r == Status(old(file).value.status)
      ensures old(file).None? ==> file == None || file == Some(Fresh(now))
      ensures old(file).None? ==> r == if fault == Fine then Status(Observed) else Crashed
      ensures r.Status? ==> file.Some? && file.value.status == r.status
    {
      if file.Some? {
        return Status(file.value.status);
      }
      var w := Write(Fresh(now), Found, fault);
      return if w == Ok then Status(Observed) else Crashed;
    }

    /** A request opens an incident; later actions only need well-formed codes and, to protect, a verified runtime. */
    predicate Admissible(found: Option<State>, reasons: set<string>, action: Status, rows: Rows) {
      && (forall code :: code in reasons ==> IsCode(code))
      && action != Observed
      && (action == Protected ==> ReadsBack(rows, disabled))
      && (found.None? || !Latched(found.value) ==> action == ProtectionRequested && reasons != {})
    }

    /** `transition`: `id` is the identifier a new incident would receive. */
    method Transition(reasons: set<string>, action: Status, now: int, rows: Rows, id: string, fault: Fault)
      returns (r: Answer)
      requires Inv() && IsIncidentId(id)
      modifies `file, `log
      ensures Inv()
      ensures log != old(log) ==>
                |log| == |old(log)| + 1 && log[..|old(log)|] == old(log) && log[|log| - 1].cause.Moved?
      ensures r.Refused? ==> file == old(file) && log == old(log)
      ensures r.Refused? <==> !Admissible(old(file), reasons, action, rows)
      ensures r == Crashed <==> !r.Refused? && fault != Fine
      ensures r.Status? ==> file.Some? && file.value.status == r.status && reasons <= file.value.reasons
      ensures r.Status? ==> file.Some? && file.value.recordedAt == now
      ensures r.Status? && (old(file).None? || !Latched(old(file).value)) ==>
        && action == ProtectionRequested && file.value.incident == Some(id) && file.value.startedAt == Some(now)
        && file.value.reasons == reasons != {}
      ensures r.Status? && old(file).Some? && Latched(old(file).value) ==> Continues(old(file).value, file.value)
      ensures r.Status? && r.status != Protected ==> r.status == action
      ensures r == Status(Protected) ==> file.value.applied == Some(disabled)
      ensures r.Status? && action == Protected ==> ReadsBack(rows, disabled)
    {
      hide IsCode, IsIncidentId, ReadsBack;
      var state := if file.Some? then file.value else Fresh(now);
      if exists code :: code in reasons && !IsCode(code) {
        return Refused("protection_state_unverified");
      }
      if action == Observed {
        return Refused("protection_action_invalid");
      }
      if action == Protected && !ReadsBack(rows, disabled) {
        return Refused("protection_readback_unverified");
      }
      if state.status == Observed {
        if action != ProtectionRequested || reasons == {} {
          return Refused("protection_request_required");
        }
        state := state.(incident := Some(id), startedAt := Some(now));
      }
      if state.status != Protected {
        state := state.(status := action);
      }
      state := state.(reasons := state.reasons + reasons, recordedAt := now);
      if state.status == Protected {
        state := state.(applied := Some(disabled));
      }
      var w := Write(state, Moved(action, action == Protected), fault);
      return if w == Ok then Status(state.status) else Crashed;
    }

    /** A latched incident, its own receipt, approved within the incident and not expired, and everything reviewed. */
    predicate Restorable(found: Option<State>, receipt: Receipt, review: Review, rows: Rows, now: int) {
      && found.Some? && Latched(found.value) && receipt.incident == found.value.incident && found.value.startedAt.Some?
      && 0 < found.value.startedAt.value <= receipt.approvedAt <= now < receipt.expiresAt <= review.deadline
      && review.operator && review.versionsMatch && review.capacityReady && review.proofs && review.growth
      && EachOnce(rows, disabled.Keys) && receipt.runtime == Effective(rows, disabled.Keys)
    }

    /** `restore`: the only way back to `Observed`. */
    method Restore(receipt: Receipt, review: Review, rows: Rows, now: int, fault: Fault) returns (r: Answer)
      requires Inv()
      modifies `file, `log
      ensures Inv()
      ensures log != old(log) ==>
                |log| == |old(log)| + 1 && log[..|old(log)|] == old(log) && log[|log| - 1].cause.Restored?
      ensures r.Refused? ==> file == old(file) && log == old(log)
      ensures r.Refused? <==> !Restorable(old(file), receipt, review, rows, now)
      ensures r == Crashed <==> !r.Refused? && fault != Fine
      ensures r.Status? ==>
                r.status == Observed && old(file).Some? && file.Some? && receipt.expiresAt <= review.deadline
      ensures r.Status? ==> Closes(old(file).value, file.value, receipt, now)
      ensures file != old(file) ==>
                review.operator && review.versionsMatch && review.capacityReady && review.proofs && review.growth
      ensures file != old(file) ==> EachOnce(rows, disabled.Keys) && receipt.runtime == Effective(rows, disabled.Keys)
    {
      hide IsCode, IsIncidentId, EachOnce, Effective;
      if file.None? || file.value.status == Observed || receipt.incident != file.value.incident
        || !review.operator || !review.versionsMatch || !review.capacityReady
      {
        return Refused("restoration_unverified");
      }
      var state := file.value;
      if state.startedAt.None?
         || !(0 < state.startedAt.value <= receipt.approvedAt <= now < receipt.expiresAt <= review.deadline) {
        return Refused("restoration_unverified");
      }
      if !review.proofs || !review.growth {
        return Refused("restoration_unverified");
      }
      if !EachOnce(rows, disabled.Keys) || receipt.runtime != Effective(rows, disabled.Keys) {
        return Refused("restoration_readback_unverified");
      }
      var next := State(Observed, {}, now, None, None, Some(receipt.runtime), state.incident);
      var w := Write(next, Restored(receipt, now), fault);
      return if w == Ok then Status(Observed) else Crashed;
    }
  }

  datatype Step =
    | Look(now: int, fault: Fault)
    | Move(reasons: set<string>, action: Status, now: int, rows: Rows, id: string, fault: Fault)
    | Reopen(receipt: Receipt, review: Review, rows: Rows, now: int, fault: Fault)

  /** Any runs of the timer and of the operator, failing anywhere. */
  method Run(latch: Latch, steps: seq<Step>)
    requires latch.Inv()
    requires forall i :: 0 <= i < |steps| && steps[i].Move? ==> IsIncidentId(steps[i].id)
    modifies latch
    ensures latch.Inv() && old(latch.log) <= latch.log
  {
    for i := 0 to |steps|
      invariant latch.Inv() && old(latch.log) <= latch.log
    {
      var answer: Answer;
      match steps[i] {
        case Look(now, fault) => answer := latch.ReadStatus(now, fault);
        case Move(reasons, action, now, rows, id, fault) =>
          answer := latch.Transition(reasons, action, now, rows, id, fault);
        case Reopen(receipt, review, rows, now, fault) => answer := latch.Restore(receipt, review, rows, now, fault);
      }
    }
  }
}
