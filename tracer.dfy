/** The single-particle tracer plug-in: it keeps a bounded trail of the traced particle's
    positions, a bounded window of its free path lengths, and running collision count,
    total distance and mean free path, driven by the engine's tick and collision events. */
module Tracer {
  import opened Common
  import opened MathLib

  const DEFAULT_MAX_TRAIL: real := 200.0
  const DEFAULT_MAX_MFP_SAMPLES: real := 1000.0

  /** A colliding pair, by the ids of its two bodies. */
  datatype Pair = Pair(bodyA: nat, bodyB: nat)

  /** The particle handed to `setTracer`: its identity and its position at that moment. */
  datatype TracedBody = TracedBody(id: nat, position: Point)

  /** The keys of the `setup` configuration the handlers read; `None` is an absent key. */
  datatype TracerConfig = TracerConfig(enabled: Option<bool>, maxTrail: Option<real>, maxMFPSamples: Option<real>)

  /** The number of entries a cap lets an array keep when it is pushed to and shifted at
      most once per push: ⌊cap⌋, and none for a negative cap. */
  function Cap(cap: real): (n: nat)
    ensures 0.0 <= cap ==> n as real <= cap < (n + 1) as real
  {
    if cap < 0.0 then 0 else cap.Floor
  }

  /** `a.push(x); if (a.length > cap) a.shift();` */
  function PushCapped<T>(a: seq<T>, x: T, cap: real): seq<T> {
    var pushed := a + [x];
    if (|pushed| as real) > cap then pushed[1..] else pushed
  }

  /** Pushing onto the window of a history gives the window of the longer history: the
      array always holds the most recent `Cap(cap)` entries, oldest first. */
  lemma PushCappedWindow<T>(history: seq<T>, x: T, cap: real)
    ensures PushCapped(LastN(history, Cap(cap)), x, cap) == LastN(history + [x], Cap(cap))
  {
    var n := Cap(cap);
    CapAgainstLength(cap, |LastN(history, n)| + 1);
    if |history| >= n {
      PushOntoFullWindow(history, x, n);
    } else {
      PushOntoShortWindow(history, x, n);
    }
  }

  /** A length above the cap's entries exceeds the cap; a positive one within them does not. */
  lemma CapAgainstLength(cap: real, len: nat)
    ensures len > Cap(cap) ==> (len as real) > cap
    ensures 0 < len <= Cap(cap) ==> (len as real) <= cap
  {
  }

  /** A full window with one entry pushed and the oldest shifted off is the window of the
      longer history. */
  lemma PushOntoFullWindow<T>(history: seq<T>, x: T, n: nat)
    requires |history| >= n
    ensures |LastN(history, n) + [x]| == n + 1
    ensures (LastN(history, n) + [x])[1..] == LastN(history + [x], n)
  {
    var full := history + [x];
    assert (LastN(history, n) + [x])[1..] == full[|full| - n..];
  }

  /** A window that is the whole history takes the pushed entry and stays the whole
      history. */
  lemma PushOntoShortWindow<T>(history: seq<T>, x: T, n: nat)
    requires |history| < n
    ensures |LastN(history, n) + [x]| <= n
    ensures LastN(history, n) + [x] == LastN(history + [x], n)
  {
  }

  /** The straight-line distance between two collision positions. */
  function Distance(mth: Transcendentals, a: Point, b: Point): real {
    var dx := b.x - a.x;
    var dy := b.y - a.y;
    Sqrt(mth, dx * dx + dy * dy)
  }

  /** The first pair in which the traced body takes part, if any. */
  function FirstTracerPair(pairs: seq<Pair>, id: nat): (r: Option<nat>)
    ensures r.Some? ==> r.value < |pairs| && (pairs[r.value].bodyA == id || pairs[r.value].bodyB == id)
    ensures r.Some? ==> forall j :: 0 <= j < r.value ==> pairs[j].bodyA != id && pairs[j].bodyB != id
    ensures r.None? ==> forall j :: 0 <= j < |pairs| ==> pairs[j].bodyA != id && pairs[j].bodyB != id
  {
    if |pairs| == 0 then None
    else if pairs[0].bodyA == id || pairs[0].bodyB == id then Some(0)
    else
      var rest := FirstTracerPair(pairs[1..], id);
      if rest.Some? then Some(rest.value + 1) else None
  }

  class TracerPlugin {
    var enabled: bool
    var maxTrail: real
    var maxMFPSamples: real
    /** The id of the traced body; `None` is `null`. */
    var tracer: Option<nat>
    var trail: seq<Point>
    var mfpLengths: seq<real>
    var lastCollisionPosition: Option<Point>
    var collisionCount: nat
    var totalDistance: real
    var meanFreePath: real
    /** Every tick position and every free path length since the tracer was set. */
    ghost var positions: seq<Point>
    ghost var lengths: seq<real>

    /** The trail and the sample window are the newest entries of their histories; the
        accumulators cover every length ever recorded; a set tracer always has a last
        collision position. */
    ghost predicate Valid()
      reads this
    {
      && trail == LastN(positions, Cap(maxTrail))
      && mfpLengths == LastN(lengths, Cap(maxMFPSamples))
      && collisionCount == |lengths|
      && totalDistance == Sum(lengths)
      && meanFreePath == (if collisionCount == 0 then 0.0 else totalDistance / (collisionCount as real))
      && (tracer.Some? ==> lastCollisionPosition.Some?)
    }

    /** `setup`: the defaults (enabled, 200 trail points, 1000 samples) overridden by the
        configuration, with no tracer and empty statistics. */
    constructor (config: TracerConfig)
      ensures Valid()
      ensures enabled == config.enabled.GetOr(true)
      ensures maxTrail == config.maxTrail.GetOr(DEFAULT_MAX_TRAIL)
      ensures maxMFPSamples == config.maxMFPSamples.GetOr(DEFAULT_MAX_MFP_SAMPLES)
      ensures tracer.None? && trail == [] && mfpLengths == [] && lastCollisionPosition.None?
      ensures collisionCount == 0 && totalDistance == 0.0 && meanFreePath == 0.0
    {
      enabled := config.enabled.GetOr(true);
      maxTrail := config.maxTrail.GetOr(DEFAULT_MAX_TRAIL);
      maxMFPSamples := config.maxMFPSamples.GetOr(DEFAULT_MAX_MFP_SAMPLES);
      tracer := None;
      trail := [];
      mfpLengths := [];
      lastCollisionPosition := None;
      collisionCount := 0;
      totalDistance := 0.0;
      meanFreePath := 0.0;
      positions := [];
      lengths := [];
    }

    /** `setTracer(body)`: trail, samples and statistics start afresh; the last collision
        position is the body's position, or null for no body. */
    method SetTracer(body: Option<TracedBody>)
      modifies this
      ensures Valid()
      ensures tracer == (if body.Some? then Some(body.value.id) else None)
      ensures lastCollisionPosition == (if body.Some? then Some(body.value.position) else None)
      ensures trail == [] && mfpLengths == []
      ensures collisionCount == 0 && totalDistance == 0.0 && meanFreePath == 0.0
      ensures enabled == old(enabled) && maxTrail == old(maxTrail) && maxMFPSamples == old(maxMFPSamples)
    {
      tracer := if body.Some? then Some(body.value.id) else None;
      trail := [];
      mfpLengths := [];
      lastCollisionPosition := if body.Some? then Some(body.value.position) else None;
      collisionCount := 0;
      totalDistance := 0.0;
      meanFreePath := 0.0;
      positions := [];
      lengths := [];
    }

    /** The `afterUpdate` handler, given the traced body's position: the position joins the
        trail, which keeps its newest `Cap(maxTrail)` points; nothing happens while
        disabled or without a tracer. */
    method AfterUpdate(position: Point)
      requires Valid()
      modifies this
      ensures Valid()
      ensures !enabled || tracer.None? ==> trail == old(trail) && positions == old(positions)
      ensures enabled && tracer.Some? ==>
        trail == PushCapped(old(trail), position, maxTrail) && positions == old(positions) + [position]
      ensures enabled == old(enabled) && tracer == old(tracer) && maxTrail == old(maxTrail)
      ensures maxMFPSamples == old(maxMFPSamples) && mfpLengths == old(mfpLengths)
      ensures lastCollisionPosition == old(lastCollisionPosition) && lengths == old(lengths)
      ensures collisionCount == old(collisionCount) && totalDistance == old(totalDistance)
      ensures meanFreePath == old(meanFreePath)
    {
      if !enabled || tracer.None? {
        return;
      }
      PushCappedWindow(positions, position, maxTrail);
      trail := trail + [position];
      if (|trail| as real) > maxTrail {
        trail := trail[1..];
      }
      positions := positions + [position];
    }

    /** The `collisionStart` handler, given the pairs of the event and the traced body's
        position: only the first pair involving the tracer is handled. The free path since
        the last collision is recorded in the window and in the totals, the mean free path
        is recomputed, and the position becomes the last collision position. */
    method CollisionStart(mth: Transcendentals, pairs: seq<Pair>, position: Point)
      requires Valid()
      modifies this
      ensures Valid()
      ensures enabled == old(enabled) && tracer == old(tracer) && maxTrail == old(maxTrail)
      ensures maxMFPSamples == old(maxMFPSamples) && trail == old(trail) && positions == old(positions)
      ensures !old(enabled) || old(tracer).None? || FirstTracerPair(pairs, old(tracer).value).None? ==>
        lastCollisionPosition == old(lastCollisionPosition) && lengths == old(lengths)
        && mfpLengths == old(mfpLengths) && collisionCount == old(collisionCount)
        && totalDistance == old(totalDistance) && meanFreePath == old(meanFreePath)
      ensures old(enabled) && old(tracer).Some? && FirstTracerPair(pairs, old(tracer).value).Some? ==>
        var d := Distance(mth, old(lastCollisionPosition).value, position);
        && lastCollisionPosition == Some(position)
        && lengths == old(lengths) + [d]
        && mfpLengths == PushCapped(old(mfpLengths), d, maxMFPSamples)
        && collisionCount == old(collisionCount) + 1
        && totalDistance == old(totalDistance) + d
        && meanFreePath == totalDistance / (collisionCount as real)
    {
      if !enabled || tracer.None? {
        return;
      }
      var id := tracer.value;
      var i := 0;
      while i < |pairs|
        invariant 0 <= i <= |pairs|
        invariant forall j :: 0 <= j < i ==> pairs[j].bodyA != id && pairs[j].bodyB != id
        invariant unchanged(this)
      {
        if pairs[i].bodyA == id || pairs[i].bodyB == id {
          assert FirstTracerPair(pairs, id) == Some(i) by {
            FirstPairIsFirst(pairs, id, i);
          }
          if lastCollisionPosition.Some? {
            RecordFreePath(mth, position);
          }
          lastCollisionPosition := Some(position);
          return;
        }
        i := i + 1;
      }
      FirstPairNone(pairs, id);
    }

    /** The body of a counted collision: the distance from the last collision position
        joins the sample window and the totals, and the mean is recomputed. */
    method RecordFreePath(mth: Transcendentals, position: Point)
      requires Valid() && lastCollisionPosition.Some?
      modifies this
      ensures Valid()
      ensures var d := Distance(mth, old(lastCollisionPosition).value, position);
        && lengths == old(lengths) + [d]
        && mfpLengths == PushCapped(old(mfpLengths), d, maxMFPSamples)
        && collisionCount == old(collisionCount) + 1
        && totalDistance == old(totalDistance) + d
        && meanFreePath == totalDistance / (collisionCount as real)
      ensures enabled == old(enabled) && tracer == old(tracer) && maxTrail == old(maxTrail)
      ensures maxMFPSamples == old(maxMFPSamples) && trail == old(trail) && positions == old(positions)
      ensures lastCollisionPosition == old(lastCollisionPosition)
    {
      var last := lastCollisionPosition.value;
      var distance := Distance(mth, last, position);
      PushCappedWindow(lengths, distance, maxMFPSamples);
      PushSample(distance);
      ghost var longer := lengths + [distance];
      assert longer[..|longer| - 1] == lengths;
      Accumulate(distance);
    }

    /** `mfpLengths.push(d)`, then one `shift` when the window is over its cap. */
    method PushSample(d: real)
      modifies this
      ensures mfpLengths == PushCapped(old(mfpLengths), d, maxMFPSamples)
      ensures enabled == old(enabled) && tracer == old(tracer) && maxTrail == old(maxTrail)
      ensures maxMFPSamples == old(maxMFPSamples) && trail == old(trail) && positions == old(positions)
      ensures lastCollisionPosition == old(lastCollisionPosition) && lengths == old(lengths)
      ensures collisionCount == old(collisionCount) && totalDistance == old(totalDistance)
      ensures meanFreePath == old(meanFreePath)
    {
      mfpLengths := mfpLengths + [d];
      if (|mfpLengths| as real) > maxMFPSamples {
        mfpLengths := mfpLengths[1..];
      }
    }

    /** The running statistics after one more free path of length d: one more collision,
        the distance added, and the mean recomputed. */
    method Accumulate(d: real)
      modifies this
      ensures lengths == old(lengths) + [d]
      ensures collisionCount == old(collisionCount) + 1 && totalDistance == old(totalDistance) + d
      ensures meanFreePath == totalDistance / (collisionCount as real)
      ensures enabled == old(enabled) && tracer == old(tracer) && maxTrail == old(maxTrail)
      ensures maxMFPSamples == old(maxMFPSamples) && trail == old(trail) && positions == old(positions)
      ensures lastCollisionPosition == old(lastCollisionPosition) && mfpLengths == old(mfpLengths)
    {
      lengths := lengths + [d];
      totalDistance := totalDistance + d;
      collisionCount := collisionCount + 1;
      meanFreePath := totalDistance / (collisionCount as real);
    }
  }

  /** An index whose pair involves the tracer, with none before it, is the first one. */
  lemma {:induction false} FirstPairIsFirst(pairs: seq<Pair>, id: nat, i: nat)
    requires i < |pairs| && (pairs[i].bodyA == id || pairs[i].bodyB == id)
    requires forall j :: 0 <= j < i ==> pairs[j].bodyA != id && pairs[j].bodyB != id
    ensures FirstTracerPair(pairs, id) == Some(i)
  {
    if i > 0 {
      FirstPairIsFirst(pairs[1..], id, i - 1);
    }
  }

  lemma FirstPairNone(pairs: seq<Pair>, id: nat)
    requires forall j :: 0 <= j < |pairs| ==> pairs[j].bodyA != id && pairs[j].bodyB != id
    ensures FirstTracerPair(pairs, id).None?
  {
  }

  /** The trail never holds more than `maxTrail` points (likewise the sample window). */
  lemma WindowsBounded<T>(window: seq<T>, history: seq<T>, cap: real)
    requires window == LastN(history, Cap(cap)) && 0.0 <= cap
    ensures |window| as real <= cap
  {
  }

  /** Free path lengths are never negative, so neither is their total. */
  lemma {:induction false} TotalDistanceNonNegative(lengths: seq<real>)
    requires forall i :: 0 <= i < |lengths| ==> 0.0 <= lengths[i]
    ensures 0.0 <= Sum(lengths)
  {
    if |lengths| > 0 {
      TotalDistanceNonNegative(lengths[..|lengths| - 1]);
    }
  }

  /** Every recorded free path length is a distance, hence non-negative. */
  lemma DistanceNonNegative(mth: Transcendentals, a: Point, b: Point)
    requires Lawful(mth)
    ensures 0.0 <= Distance(mth, a, b)
  {
    var dx, dy := b.x - a.x, b.y - a.y;
    assert 0.0 <= dx * dx + dy * dy;
  }

  /** Samples leaving the window do not reduce the total: the sum of the window never
      exceeds the sum of every length recorded. */
  lemma {:induction false} WindowSumAtMostTotal(lengths: seq<real>, k: nat)
    requires forall i :: 0 <= i < |lengths| ==> 0.0 <= lengths[i]
    ensures Sum(LastN(lengths, k)) <= Sum(lengths)
  {
    if |lengths| > k {
      var init := lengths[..|lengths| - 1];
      if k > 0 {
        WindowSumAtMostTotal(init, k - 1);
        var w := LastN(lengths, k);
        assert w[..|w| - 1] == LastN(init, k - 1);
      } else {
        TotalDistanceNonNegative(lengths);
      }
    }
  }
}
