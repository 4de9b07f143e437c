/**
 The growth anchor: the sample that the next comparable one is measured against. Rates are
 reals here; the program's are floating-point numbers.
 */
module GrowthAnchor {
  import opened Faults
  import opened AllocatedStorage

  const DAY: int := 86400

  datatype Sample = Sample(inventory: string, classes: map<Class, int>, at: int, windowHours: int)

  datatype Growth = Growth(decreased: bool, start: int, end: int, interval: int, rates: map<Class, real>)

  /** The anchor file: anything that is no object, or an object whose fields may be missing. */
  datatype Anchor =
    | Malformed
    | Anchor(inventory: Option<string>, at: Option<int>, classes: map<Class, int>, last: Option<Growth>)

  datatype Reading = Measured(growth: Growth) | Pending(reason: string) | Incomplete(reason: string)

  const EMPTY := Anchor(None, None, map[], None)

  predicate ValidSizes(classes: map<Class, int>) {
    forall c :: c in CLASSES ==> c in classes && classes[c] >= 0
  }

  predicate ValidLast(g: Growth, at: int) {
    g.end == at && g.interval >= DAY && forall c :: c in CLASSES ==> c in g.rates
  }

  function Longest(a: int, b: int): int {
    if a < b then b else a
  }

  function Rate(before: int, after: int, elapsed: int): real
    requires elapsed > 0
  {
    (after - before) as real * 86400.0 / elapsed as real
  }

  function Rates(before: map<Class, int>, after: map<Class, int>, elapsed: int): map<Class, real>
    requires elapsed > 0 && ValidSizes(before) && ValidSizes(after)
  {
    map c | c in CLASSES :: Rate(before[c], after[c], elapsed)
  }

  function Grew(sample: Sample, before: map<Class, int>, start: int, now: int): Growth
    requires now > start && ValidSizes(before) && ValidSizes(sample.classes)
  {
    var rates := Rates(before, sample.classes, now - start);
    Growth(exists c :: c in CLASSES && rates[c] < 0.0, start, now, now - start, rates)
  }

  function AnchorOf(sample: Sample, last: Option<Growth>): Anchor {
    Anchor(Some(sample.inventory), Some(sample.at), sample.classes, last)
  }

  /** `measured_growth`: what to report, and the anchor to write. */
  function MeasuredGrowth(sample: Sample, anchor: Anchor, now: int): (Reading, Anchor)
    requires ValidSizes(sample.classes)
  {
    if anchor.Malformed? then (Incomplete("growth_anchor_invalid"), EMPTY)
    else if anchor.inventory != Some(sample.inventory)
      then (Pending("two_comparable_samples_required"), AnchorOf(sample, None))
    else if anchor.at.None? || anchor.at.value <= 0 || !ValidSizes(anchor.classes)
      then (Incomplete("growth_anchor_invalid"), anchor)
    else if now < anchor.at.value then (Incomplete("growth_anchor_future"), anchor)
    else if anchor.last.Some? && !ValidLast(anchor.last.value, anchor.at.value)
      then (Incomplete("growth_anchor_invalid"), anchor)
    else if now - anchor.at.value < Longest(DAY, sample.windowHours * 3600) then
      (if anchor.last.Some? then Measured(anchor.last.value) else Pending("interval_under_24h"), anchor)
    else
      var growth := Grew(sample, anchor.classes, anchor.at.value, now);
      (Measured(growth), AnchorOf(sample, Some(growth)))
  }

  // ----- Sums over consecutive intervals -----

  /** What a daily rate amounts to over an interval. */
  function Over(rate: real, interval: int): real {
    rate * interval as real / 86400.0
  }

  function Amount(g: Growth, c: Class): real
    requires c in g.rates
  {
    Over(g.rates[c], g.interval)
  }

  lemma AmountIsTheDifference(before: int, after: int, elapsed: int)
    requires elapsed > 0
    ensures Over(Rate(before, after, elapsed), elapsed) == (after - before) as real
  {
    var e := elapsed as real;
    var x := (after - before) as real * 86400.0;
    assert x / e * e == x;
  }

  ghost predicate Abut(gs: seq<Growth>, start: int, end: int) {
    if gs == [] then start == end
    else
      var g := gs[|gs| - 1];
      && g.end == end && g.interval == g.end - g.start && g.interval >= DAY && g.rates.Keys == CLASSES
      && Abut(gs[..|gs| - 1], start, g.start)
  }

  ghost function Grown(gs: seq<Growth>, start: int, end: int, c: Class): real
    requires c in CLASSES && Abut(gs, start, end)
  {
    if gs == [] then 0.0
    else Grown(gs[..|gs| - 1], start, gs[|gs| - 1].start, c) + Amount(gs[|gs| - 1], c)
  }

  /** The intervals leave no gap and do not overlap. */
  lemma {:induction false} NoGap(gs: seq<Growth>, start: int, end: int, t: int)
    requires Abut(gs, start, end) && start < t <= end
    ensures exists k :: 0 <= k < |gs| && gs[k].start < t <= gs[k].end
    ensures forall i, k :: 0 <= i < |gs| && gs[i].start < t <= gs[i].end ==>
              0 <= k < |gs| && gs[k].start < t <= gs[k].end ==> i == k
  {
    var front, last := gs[..|gs| - 1], gs[|gs| - 1];
    Within(front, start, last.start);
    if t <= last.start {
      NoGap(front, start, last.start, t);
      var k :| 0 <= k < |front| && front[k].start < t <= front[k].end;
      assert gs[k] == front[k];
      forall i, j | 0 <= i < |gs| && 0 <= j < |gs| && gs[i].start < t <= gs[i].end && gs[j].start < t <= gs[j].end
        ensures i == j
      {
        assert i < |front| && j < |front| && gs[i] == front[i] && gs[j] == front[j];
      }
    } else {
      assert gs[|gs| - 1].start < t <= gs[|gs| - 1].end;
      assert forall i :: 0 <= i < |front| ==> gs[i] == front[i];
    }
  }

  lemma {:induction false} Within(gs: seq<Growth>, start: int, end: int)
    requires Abut(gs, start, end)
    ensures start <= end && forall k :: 0 <= k < |gs| ==> start <= gs[k].start && gs[k].end <= end
  {
    if gs != [] {
      var front := gs[..|gs| - 1];
      Within(front, start, gs[|gs| - 1].start);
      assert forall k :: 0 <= k < |front| ==> gs[k] == front[k];
    }
  }

  // ----- The anchor over all runs -----

  /** An anchor the next run accepts. */
  ghost predicate Usable(a: Anchor) {
    && a.Anchor? && a.inventory.Some? && a.at.Some? && a.at.value > 0 && ValidSizes(a.classes)
    && (a.last.Some? ==> ValidLast(a.last.value, a.at.value))
  }

  /** Nothing is measured against an unusable anchor of the same inventory or one from the future, and it is kept. */
  lemma WhatIsRefused(sample: Sample, anchor: Anchor, now: int)
    requires ValidSizes(sample.classes)
    ensures
      var step := MeasuredGrowth(sample, anchor, now);
      && (step.0.Incomplete? <==>
            anchor.Malformed?
            || (anchor.inventory == Some(sample.inventory) && (!Usable(anchor) || now < anchor.at.value)))
      && (step.0.Incomplete? && anchor.Anchor? ==> step.1 == anchor)
      && (anchor.Anchor? && anchor.inventory != Some(sample.inventory) ==> step.1 == AnchorOf(sample, None))
  {
  }

  /** The measured growth adds up, class by class, to what the sizes changed since the origin. */
  ghost predicate Telescopes(origin: Anchor, growths: seq<Growth>, anchor: Anchor) {
    && Usable(anchor) && Usable(origin) && origin.inventory == anchor.inventory
    && Abut(growths, origin.at.value, anchor.at.value)
    && (forall c :: c in CLASSES ==>
          Grown(growths, origin.at.value, anchor.at.value, c) == (anchor.classes[c] - origin.classes[c]) as real)
  }

  lemma MeasuredOnceMore(origin: Anchor, growths: seq<Growth>, before: Anchor, sample: Sample)
    requires Telescopes(origin, growths, before) && before.inventory == Some(sample.inventory)
    requires ValidSizes(sample.classes) && sample.at > 0 && sample.at - before.at.value >= DAY
    ensures
      var g := Grew(sample, before.classes, before.at.value, sample.at);
      Telescopes(origin, growths + [g], AnchorOf(sample, Some(g)))
  {
    var g := Grew(sample, before.classes, before.at.value, sample.at);
    var all, after := growths + [g], AnchorOf(sample, Some(g));
    assert g.rates.Keys == CLASSES;
    assert ValidLast(g, sample.at);
    hide ValidSizes, ValidLast, Rates, Rate, Amount;
    forall c | c in CLASSES
      ensures Abut(all, origin.at.value, sample.at)
      ensures Grown(all, origin.at.value, sample.at, c) == (sample.classes[c] - origin.classes[c]) as real
    {
      GrownOnceMore(growths, g, origin.at.value, c);
      assert Amount(g, c) == (sample.classes[c] - before.classes[c]) as real by {
        AmountOfGrowth(before.classes, sample, before.at.value, c);
      }
    }
    GrownOnceMore(growths, g, origin.at.value, "events");
  }

  lemma GrownOnceMore(gs: seq<Growth>, g: Growth, start: int, c: Class)
    requires c in CLASSES && g.rates.Keys == CLASSES && g.interval == g.end - g.start && g.interval >= DAY
    requires Abut(gs, start, g.start)
    ensures Abut(gs + [g], start, g.end)
    ensures Grown(gs + [g], start, g.end, c) == Grown(gs, start, g.start, c) + Amount(g, c)
  {
    hide Amount;
    assert (gs + [g])[..|gs|] == gs;
  }

  lemma AmountOfGrowth(before: map<Class, int>, sample: Sample, start: int, c: Class)
    requires sample.at > start && ValidSizes(before) && ValidSizes(sample.classes) && c in CLASSES
    ensures Amount(Grew(sample, before, start, sample.at), c) == (sample.classes[c] - before[c]) as real
  {
    assert c in before && c in sample.classes;
    hide Rate, ValidSizes, Over;
    var g := Grew(sample, before, start, sample.at);
    assert g.rates[c] == Rate(before[c], sample.classes[c], g.interval);
    AmountIsTheDifference(before[c], sample.classes[c], g.interval);
  }

  /** A day has passed since the anchor, and the window of the sample in hours. */
  predicate Due(sample: Sample, since: int) {
    sample.at - since >= DAY && sample.at - since >= sample.windowHours * 3600
  }

  /** The growth from one sample to the next one: flagged when some class became smaller. */
  ghost predicate Describes(g: Growth, before: map<Class, int>, start: int, sample: Sample)
    requires ValidSizes(before) && ValidSizes(sample.classes)
  {
    && g.start == start && g.end == sample.at && g.interval == sample.at - start && g.rates.Keys == CLASSES
    && (forall c :: c in CLASSES ==> Amount(g, c) == (sample.classes[c] - before[c]) as real)
    && (g.decreased <==> exists c :: c in CLASSES && sample.classes[c] < before[c])
  }

  lemma GrewDescribes(sample: Sample, before: map<Class, int>, start: int)
    requires sample.at > start && ValidSizes(before) && ValidSizes(sample.classes)
    ensures Describes(Grew(sample, before, start, sample.at), before, start, sample)
  {
    var g := Grew(sample, before, start, sample.at);
    forall c | c in CLASSES
      ensures Amount(g, c) == (sample.classes[c] - before[c]) as real
      ensures g.rates[c] < 0.0 <==> sample.classes[c] < before[c]
    {
      AmountOfGrowth(before, sample, start, c);
      SignOfRate(before[c], sample.classes[c], sample.at - start);
    }
  }

  lemma SignOfRate(before: int, after: int, elapsed: int)
    requires elapsed > 0
    ensures Rate(before, after, elapsed) < 0.0 <==> after < before
  {
    var r, e := Rate(before, after, elapsed), elapsed as real;
    AmountIsTheDifference(before, after, elapsed);
    assert r * e == (after - before) as real * 86400.0;
    if r < 0.0 {
      assert r * e < 0.0;
    } else {
      assert r * e >= 0.0;
    }
  }

  class Store {
    var anchor: Anchor
    /** The first sample of the present inventory, and the growth measured since. */
    ghost var origin: Anchor
    ghost var growths: seq<Growth>

    ghost predicate Inv()
      reads this
    {
      && Telescopes(origin, growths, anchor)
      && anchor.last == if growths == [] then None else Some(growths[|growths| - 1])
    }

    /** No sample yet, or an unreadable file. */
    ghost predicate Unset()
      reads this
    {
      anchor == Malformed || anchor == EMPTY
    }

    constructor ()
      ensures Unset()
    {
      anchor := EMPTY;
      origin, growths := EMPTY, [];
    }

    /** One complete sample of the collector; the write may fail, leaving the old anchor. */
    method Update(sample: Sample, written: bool) returns (reading: Reading)
      requires Inv() || Unset()
      requires ValidSizes(sample.classes) && sample.at > 0
      modifies this
      ensures Inv() || Unset()
      ensures old(Inv()) ==> Inv()
      ensures reading == MeasuredGrowth(sample, old(anchor), sample.at).0
      ensures anchor == if written then MeasuredGrowth(sample, old(anchor), sample.at).1 else old(anchor)
      ensures old(Inv()) && sample.at >= old(anchor).at.value ==> !reading.Incomplete?
      ensures old(Inv()) && old(anchor).inventory == Some(sample.inventory) ==>
                origin == old(origin) && old(growths) <= growths
      // of a due sample the growth since the anchor is reported and recorded, of an early one the last growth again
      ensures old(Inv()) && old(anchor).inventory == Some(sample.inventory) && Due(sample, old(anchor).at.value) ==>
                && reading.Measured?
                && Describes(reading.growth, old(anchor).classes, old(anchor).at.value, sample)
                && growths == if written then old(growths) + [reading.growth] else old(growths)
      ensures old(Inv()) && old(anchor).inventory == Some(sample.inventory) && sample.at >= old(anchor).at.value
              && !Due(sample, old(anchor).at.value) ==>
                && anchor == old(anchor) && growths == old(growths)
                && reading == if growths == [] then Pending("interval_under_24h")
                              else Measured(growths[|growths| - 1])
    {
      ghost var before := anchor;
      var step := MeasuredGrowth(sample, anchor, sample.at);
      reading := step.0;
      if Inv() && anchor.inventory == Some(sample.inventory) && Due(sample, anchor.at.value) {
        GrewDescribes(sample, anchor.classes, anchor.at.value);
      }
      if written {
        anchor := step.1;
        if before.Anchor? && before.inventory != Some(sample.inventory) {
          origin, growths := anchor, [];
        } else if before.Anchor? && anchor != before {
          MeasuredOnceMore(origin, growths, before, sample);
          growths := growths + [Grew(sample, before.classes, before.at.value, sample.at)];
        }
      }
    }
  }
}
