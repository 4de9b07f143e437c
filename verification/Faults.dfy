/**
 Failures and crashes of one step of a protocol over durable files.  A script of
 these drives the models, so a statement about every script is a statement about
 every failure and every crash.
 */
module Faults {

  datatype Option<+T> = None | Some(value: T)

  /** Which of up to three entries of a directory a power loss would reveal in their new form. */
  datatype Synced = Synced(first: bool, second: bool, third: bool)

  datatype Fault =
    | Fine
    // did it happen, did the process die, what is on disk, and does a container outlive its client
    | Fault(applied: bool, fatal: bool, synced: Synced, orphan: bool := false)

  /** How far an unsynced write has come on its way to the disk. */
  datatype Progress = Stays | Tears | Arrives

  /** What the disk holds after such a write-back. */
  function Effect<T>(progress: Progress, visible: T, torn: T, onDisk: T): T {
    if progress == Arrives then visible else if progress == Tears then torn else onDisk
  }

  /** The last write-back that did anything brought the whole to the disk. */
  predicate EndsWhole(writes: seq<Progress>) {
    writes != [] &&
    var last := writes[|writes| - 1];
    last == Arrives || (last == Stays && EndsWhole(writes[..|writes| - 1]))
  }

  datatype Result = Ok | Failed | Died

  function Outcome(f: Fault): Result {
    if f == Fine then Ok else if f.fatal then Died else Failed
  }

  /** The next step of a script; an exhausted script disturbs nothing. */
  function First(script: seq<Fault>): Fault {
    if script == [] then Fine else script[0]
  }

  function Rest(script: seq<Fault>): seq<Fault> {
    if script == [] then [] else script[1..]
  }

  // ----- One failure -----

  /** A script whose only fault is its last step, which fails but does not kill. */
  predicate Single(script: seq<Fault>) {
    && script != [] && Outcome(script[|script| - 1]) == Failed
    && forall i :: 0 <= i < |script| - 1 ==> script[i] == Fine
  }

  /** `n` steps were taken under such a script, or the fault was among them. */
  predicate Met(before: seq<Fault>, after: seq<Fault>, n: nat, r: Result) {
    if |before| > n then r == Ok && Single(after) && |after| == |before| - n
    else r == Failed && after == []
  }

  /** Some steps were taken, or the fault was among them. */
  predicate Struck(after: seq<Fault>, r: Result) {
    if r == Ok then Single(after) else r == Failed && after == []
  }

  lemma SingleStep(script: seq<Fault>)
    requires Single(script)
    ensures Met(script, Rest(script), 1, Outcome(First(script)))
    ensures |script| > 1 ==> First(script) == Fine
  {
  }
}
