/** The speed histogram: particle speeds counted into fixed bins, and the time-smoothed
    probability density built from a history of such count frames. */
module Histogram {
  import opened Common
  import opened MathLib
  import opened Physics

  const DEFAULT_BIN_COUNT: nat := 60
  const DEFAULT_MAX_FACTOR: real := 4.0
  /** The histogram always spans at least 10 px/frame. */
  const MIN_MAX_SPEED: real := 10.0
  /** The histogram's own fallbacks for a non-finite temperature and molar mass. */
  const HISTOGRAM_DEFAULT_TEMPERATURE: real := 300.0
  const HISTOGRAM_DEFAULT_MOLAR_MASS: real := 28.0
  /** `new Array(n)` accepts the whole numbers below 2³². */
  const ARRAY_LENGTH_LIMIT: int := 0x1_0000_0000
  const DEFAULT_ALPHA: real := 0.3

  /** The number of bins: 60 for a non-finite option; `None` where `new Array(n)` throws a
      RangeError (a finite option that is negative, fractional or too large), which the
      function's catch turns into an empty histogram. */
  function BinCountOf(binCount: Num): (n: Option<nat>)
    ensures !binCount.IsFinite() ==> n == Some(DEFAULT_BIN_COUNT)
    ensures binCount.IsFinite() ==>
      (n.Some? <==> binCount.r.Floor as real == binCount.r && 0.0 <= binCount.r < ARRAY_LENGTH_LIMIT as real)
    ensures binCount.IsFinite() && n.Some? ==> n.value as real == binCount.r
  {
    if !binCount.IsFinite() then Some(DEFAULT_BIN_COUNT)
    else if binCount.r.Floor as real == binCount.r && 0 <= binCount.r.Floor < ARRAY_LENGTH_LIMIT then Some(binCount.r.Floor)
    else None
  }

  /** The inputs the histogram's σ is computed from stay in the reals. */
  predicate HistogramInputs(temperature: Num, molarMass: Num) {
    temperature.FiniteOr(HISTOGRAM_DEFAULT_TEMPERATURE) >= 0.0 && molarMass.FiniteOr(HISTOGRAM_DEFAULT_MOLAR_MASS) > 0.0
  }

  /** `maxSpeed = Math.max(10, σ_px · maxFactor)`. */
  function MaxSpeed(scale: SpeedScale, mth: Transcendentals, temperature: Num, molarMass: Num, maxFactor: Num): (m: real)
    reads scale
    requires scale.Valid() && Lawful(mth) && HistogramInputs(temperature, molarMass)
    ensures m >= MIN_MAX_SPEED
  {
    var sigmaPx := scale.PixelSigma2D(mth, Fin(temperature.FiniteOr(HISTOGRAM_DEFAULT_TEMPERATURE)),
                                      Fin(molarMass.FiniteOr(HISTOGRAM_DEFAULT_MOLAR_MASS)));
    MaxR(MIN_MAX_SPEED, sigmaPx * maxFactor.FiniteOr(DEFAULT_MAX_FACTOR))
  }

  /** The width of one bin: at least 10/n. */
  function BinSize(scale: SpeedScale, mth: Transcendentals, temperature: Num, molarMass: Num, maxFactor: Num, n: nat): (size: real)
    reads scale
    requires scale.Valid() && Lawful(mth) && HistogramInputs(temperature, molarMass) && n > 0
    ensures size >= MIN_MAX_SPEED / (n as real) > 0.0
  {
    var m := MaxSpeed(scale, mth, temperature, molarMass, maxFactor);
    DivLeft(MIN_MAX_SPEED, m, n as real);
    m / (n as real)
  }

  /** The bin of one particle: ⌊speed / binSize⌋ clamped into [0, n−1]. */
  function BinIndex(mth: Transcendentals, b: Body, binSize: real, n: nat): (k: nat)
    requires Lawful(mth) && 0.0 < binSize && 0 < n
    ensures k < n
  {
    var raw := (Sqrt(mth, SpeedSquared(b)) / binSize).Floor;
    if raw < 0 then 0 else if raw >= n then n - 1 else raw
  }

  /** Below the top of the range a particle lands in the bin whose interval holds its
      speed: k·binSize ≤ speed < (k+1)·binSize. */
  lemma BinHoldsSpeed(mth: Transcendentals, b: Body, binSize: real, n: nat)
    requires Lawful(mth) && 0.0 < binSize && 0 < n
    requires Sqrt(mth, SpeedSquared(b)) < (n as real) * binSize
    ensures var k := BinIndex(mth, b, binSize, n);
      (k as real) * binSize <= Sqrt(mth, SpeedSquared(b)) < (k as real) * binSize + binSize
  {
    var speed := Sqrt(mth, SpeedSquared(b));
    var q := speed / binSize;
    assert speed == q * binSize;
    assert 0.0 <= q;
    assert q < n as real by {
      if q >= n as real {
        MulLeft(n as real, q, binSize);
      }
    }
    var k := q.Floor;
    assert 0 <= k < n;
    assert BinIndex(mth, b, binSize, n) == k;
    Bracket(speed, binSize, q, k as real);
  }

  /** Multiplying k ≤ speed/size < k + 1 through by the size. */
  lemma Bracket(speed: real, size: real, q: real, k: real)
    requires 0.0 < size && speed == q * size && k <= q < k + 1.0
    ensures k * size <= speed < k * size + size
  {
    var d := q - k;
    assert speed == k * size + d * size;
    MulStrict(d, 1.0, size);
  }

  /** Speeds at or above the top of the range all land in the last bin. */
  lemma FastParticlesInLastBin(mth: Transcendentals, b: Body, binSize: real, n: nat)
    requires Lawful(mth) && 0.0 < binSize && 0 < n
    requires Sqrt(mth, SpeedSquared(b)) >= (n as real) * binSize
    ensures BinIndex(mth, b, binSize, n) == n - 1
  {
    var speed := Sqrt(mth, SpeedSquared(b));
    var q := speed / binSize;
    assert speed == q * binSize;
    if q < n as real {
      MulStrict(q, n as real, binSize);
    }
  }

  /** A particle without velocity fields has speed 0 and lands in bin 0. */
  lemma RestingParticleInFirstBin(mth: Transcendentals, binSize: real, n: nat)
    requires Lawful(mth) && 0.0 < binSize && 0 < n
    ensures BinIndex(mth, Body(None, None, None), binSize, n) == 0
  {
    SqrtZero(mth);
  }

  /** The number of particles whose bin is k. */
  function BinCount(mth: Transcendentals, bs: seq<Body>, binSize: real, n: nat, k: nat): nat
    requires Lawful(mth) && 0.0 < binSize && 0 < n
  {
    if |bs| == 0 then 0
    else BinCount(mth, bs[..|bs| - 1], binSize, n, k) + (if BinIndex(mth, bs[|bs| - 1], binSize, n) == k then 1 else 0)
  }

  /** Σ_{k < upto} BinCount(k). */
  function SumBins(mth: Transcendentals, bs: seq<Body>, binSize: real, n: nat, upto: nat): nat
    requires Lawful(mth) && 0.0 < binSize && 0 < n
  {
    if upto == 0 then 0 else SumBins(mth, bs, binSize, n, upto - 1) + BinCount(mth, bs, binSize, n, upto - 1)
  }

  lemma {:induction false} SumBinsStep(mth: Transcendentals, bs: seq<Body>, binSize: real, n: nat, upto: nat)
    requires Lawful(mth) && 0.0 < binSize && 0 < n && |bs| > 0
    ensures SumBins(mth, bs, binSize, n, upto)
         == SumBins(mth, bs[..|bs| - 1], binSize, n, upto) + (if BinIndex(mth, bs[|bs| - 1], binSize, n) < upto then 1 else 0)
  {
    if upto > 0 {
      SumBinsStep(mth, bs, binSize, n, upto - 1);
    }
  }

  /** Every particle is counted exactly once: the bins sum to the particle count. */
  lemma {:induction false} BinCountsSumToParticleCount(mth: Transcendentals, bs: seq<Body>, binSize: real, n: nat)
    requires Lawful(mth) && 0.0 < binSize && 0 < n
    ensures SumBins(mth, bs, binSize, n, n) == |bs|
  {
    if |bs| == 0 {
      ZeroBins(mth, bs, binSize, n, n);
    } else {
      BinCountsSumToParticleCount(mth, bs[..|bs| - 1], binSize, n);
      SumBinsStep(mth, bs, binSize, n, n);
    }
  }

  lemma {:induction false} ZeroBins(mth: Transcendentals, bs: seq<Body>, binSize: real, n: nat, upto: nat)
    requires Lawful(mth) && 0.0 < binSize && 0 < n && |bs| == 0
    ensures SumBins(mth, bs, binSize, n, upto) == 0
  {
    if upto > 0 {
      ZeroBins(mth, bs, binSize, n, upto - 1);
    }
  }

  /** One more particle adds one to exactly the bin it lands in. */
  lemma BinCountStep(mth: Transcendentals, bs: seq<Body>, j: nat, binSize: real, n: nat)
    requires Lawful(mth) && 0.0 < binSize && 0 < n && j < |bs|
    ensures forall k :: BinCount(mth, bs[..j + 1], binSize, n, k)
                     == BinCount(mth, bs[..j], binSize, n, k) + (if BinIndex(mth, bs[j], binSize, n) == k then 1 else 0)
  {
    assert bs[..j + 1][..j] == bs[..j];
  }

  /** The counting loop of `getSpeedDistributionHistogram`: `bins[idx]++` per particle. */
  method CountBins(mth: Transcendentals, bs: seq<Body>, binSize: real, n: nat) returns (bins: array<nat>)
    requires Lawful(mth) && 0.0 < binSize && 0 < n
    ensures fresh(bins) && bins.Length == n
    ensures forall k :: 0 <= k < n ==> bins[k] == BinCount(mth, bs, binSize, n, k)
  {
    bins := new nat[n](_ => 0);
    var j := 0;
    while j < |bs|
      invariant 0 <= j <= |bs|
      invariant forall k :: 0 <= k < n ==> bins[k] == BinCount(mth, bs[..j], binSize, n, k)
    {
      var speed := Sqrt(mth, SpeedSquared(bs[j]));
      var idx := (speed / binSize).Floor;
      if idx < 0 {
        idx := 0;
      }
      if idx >= n {
        idx := n - 1;
      }
      assert idx == BinIndex(mth, bs[j], binSize, n);
      BinCountStep(mth, bs, j, binSize, n);
      bins[idx] := bins[idx] + 1;
      j := j + 1;
    }
    assert bs[..j] == bs;
  }

  /** The centre of bin i, (i + ½)·binSize. */
  function BinCentre(i: nat, binSize: real): real {
    (i as real + 0.5) * binSize
  }

  /** `getSpeedDistributionHistogram`: bin i is reported at its centre (i + ½)·binSize
      with the number of particles in it; a non-array counts as no particles. */
  method GetSpeedDistributionHistogram(mth: Transcendentals, scale: SpeedScale, particles: Option<seq<Body>>,
                                       temperature: Num, molarMass: Num, binCountOption: Num, maxFactorOption: Num)
    returns (hist: seq<Point>)
    requires Lawful(mth) && scale.Valid() && HistogramInputs(temperature, molarMass)
    ensures var n := BinCountOf(binCountOption);
      if n.None? || n.value == 0 then hist == []
      else
        var size := BinSize(scale, mth, temperature, molarMass, maxFactorOption, n.value);
        && |hist| == n.value
        && forall i :: 0 <= i < n.value ==>
             hist[i] == Point(BinCentre(i, size), BinCount(mth, particles.GetOr([]), size, n.value, i) as real)
  {
    var binCount := BinCountOf(binCountOption);
    if binCount.None? || binCount.value == 0 {
      return [];
    }
    var n := binCount.value;
    var binSize := BinSize(scale, mth, temperature, molarMass, maxFactorOption, n);
    var bs := particles.GetOr([]);
    var bins := CountBins(mth, bs, binSize, n);
    hist := [];
    var i := 0;
    while i < n
      invariant 0 <= i <= n && |hist| == i
      invariant forall k :: 0 <= k < i ==> hist[k] == Point(BinCentre(k, binSize), bins[k] as real)
    {
      hist := hist + [Point(BinCentre(i, binSize), bins[i] as real)];
      i := i + 1;
    }
    assert forall k :: 0 <= k < n ==> hist[k] == Point(BinCentre(k, binSize), BinCount(mth, bs, binSize, n, k) as real);
  }

  /** The bin centres start at half a bin and are equally spaced, one bin apart. */
  lemma BinCentresEquallySpaced(size: real, i: nat)
    ensures BinCentre(i + 1, size) - BinCentre(i, size) == size
    ensures BinCentre(0, size) == size / 2.0
  {
  }

  /** Count y of bin i of a frame; a frame shorter than the template counts 0 there. */
  function CountAt(frame: seq<Point>, i: nat): real {
    if i < |frame| then frame[i].y else 0.0
  }

  /** The raw weight α·(1−α)^(frames−1−f) of frame f. */
  function Weight(alpha: real, frames: nat, f: nat): real
    requires f < frames
  {
    alpha * PowNat(1.0 - alpha, frames - 1 - f)
  }

  /** Σ_{f < k} Weight(f). */
  function WeightSum(alpha: real, frames: nat, k: nat): real
    requires k <= frames
  {
    if k == 0 then 0.0 else WeightSum(alpha, frames, k - 1) + Weight(alpha, frames, k - 1)
  }

  /** The normalised weight of frame f; all weights are 0 when their sum is not positive. */
  function NormWeight(alpha: real, frames: nat, f: nat): real
    requires f < frames
  {
    var wsum := WeightSum(alpha, frames, frames);
    if wsum > 0.0 then Weight(alpha, frames, f) / wsum else 0.0
  }

  /** Σ_{f < k} NormWeight(f). */
  function NormWeightSum(alpha: real, frames: nat, k: nat): real
    requires k <= frames
  {
    if k == 0 then 0.0 else NormWeightSum(alpha, frames, k - 1) + NormWeight(alpha, frames, k - 1)
  }

  /** The smoothed count of bin i over the first k frames: Σ_{f < k} NormWeight(f)·count. */
  function Smoothed(history: seq<seq<Point>>, alpha: real, i: nat, k: nat): real
    requires k <= |history|
  {
    if k == 0 then 0.0
    else Smoothed(history, alpha, i, k - 1) + NormWeight(alpha, |history|, k - 1) * CountAt(history[k - 1], i)
  }

  /** The bin width read off the newest frame: |x₁ − x₀|, or 0 for fewer than two bins. */
  function BinWidth(template: seq<Point>): (w: real)
    ensures 0.0 <= w
    ensures |template| < 2 ==> w == 0.0
  {
    if |template| > 1 then
      var dx := AbsR(template[1].x - template[0].x);
      if dx > 0.0 then dx else 0.0
    else 0.0
  }

  /** Density of bin i: the smoothed count over N·binWidth, or 0 when that is not positive. */
  function Density(history: seq<seq<Point>>, particleCount: nat, alpha: real, i: nat): real
    requires |history| > 0
  {
    var denom := if particleCount > 0 && BinWidth(history[|history| - 1]) > 0.0
                 then (particleCount as real) * BinWidth(history[|history| - 1]) else 0.0;
    if denom > 0.0 then Smoothed(history, alpha, i, |history|) / denom else 0.0
  }

  /** `getSmoothedHistogram`: [] for no history or an empty newest frame; otherwise one
      point per bin of the newest frame, at its x, with the smoothed density as y. A
      non-array particle list counts as N = 0; `alpha` defaults to 0.3. */
  method GetSmoothedHistogram(mth: Transcendentals, history: Option<seq<seq<Point>>>,
                              particles: Option<seq<Body>>, alphaOption: Option<real>)
    returns (r: seq<Point>)
    requires Lawful(mth)
    ensures history.None? || |history.value| == 0 || |history.value[|history.value| - 1]| == 0 <==> r == []
    ensures r != [] ==>
      var h, alpha := history.value, alphaOption.GetOr(DEFAULT_ALPHA);
      var template := h[|h| - 1];
      && |r| == |template|
      && forall i :: 0 <= i < |r| ==>
           r[i] == Point(template[i].x, Density(h, |particles.GetOr([])|, alpha, i))
  {
    var alpha := alphaOption.GetOr(DEFAULT_ALPHA);
    var frames := if history.Some? then |history.value| else 0;
    if frames == 0 {
      return [];
    }
    var h := history.value;
    var template := h[frames - 1];
    var numBins := |template|;
    if numBins == 0 {
      return [];
    }
    var binWidth := 0.0;
    if numBins > 1 {
      var dx := AbsR(template[1].x - template[0].x);
      binWidth := if dx > 0.0 then dx else 0.0;
    }
    assert binWidth == BinWidth(template);

    var weights, wsum := FrameWeights(mth, alpha, frames);
    var ewma := SmoothCounts(h, alpha, weights, wsum, numBins);

    var n := |particles.GetOr([])|;
    var normDenom := if n > 0 && binWidth > 0.0 then (n as real) * binWidth else 0.0;
    r := DensityPoints(h, n, alpha, ewma, normDenom);
  }

  /** The output loop: one point per bin of the newest frame, at its x, with the smoothed
      count over `normDenom` (N·binWidth, or 0 when that is not positive) as y. */
  method DensityPoints(h: seq<seq<Point>>, n: nat, alpha: real, ewma: array<real>, normDenom: real)
    returns (r: seq<Point>)
    requires |h| > 0 && ewma.Length == |h[|h| - 1]|
    requires forall i :: 0 <= i < ewma.Length ==> ewma[i] == Smoothed(h, alpha, i, |h|)
    requires var w := BinWidth(h[|h| - 1]);
      normDenom == if n > 0 && w > 0.0 then (n as real) * w else 0.0
    ensures |r| == ewma.Length
    ensures forall j :: 0 <= j < |r| ==> r[j] == Point(h[|h| - 1][j].x, Density(h, n, alpha, j))
  {
    var template := h[|h| - 1];
    r := [];
    var i := 0;
    while i < ewma.Length
      invariant 0 <= i <= ewma.Length && |r| == i
      invariant forall j :: 0 <= j < i ==> r[j] == Point(template[j].x, Density(h, n, alpha, j))
    {
      var pd := if normDenom > 0.0 then ewma[i] / normDenom else 0.0;
      assert pd == Density(h, n, alpha, i);
      r := r + [Point(template[i].x, pd)];
      i := i + 1;
    }
  }

  /** The weight loop: weights[f] = α·(1−α)^(frames−1−f) and their sum. */
  method FrameWeights(mth: Transcendentals, alpha: real, frames: nat) returns (weights: array<real>, wsum: real)
    requires Lawful(mth)
    ensures fresh(weights) && weights.Length == frames
    ensures forall g :: 0 <= g < frames ==> weights[g] == Weight(alpha, frames, g)
    ensures wsum == WeightSum(alpha, frames, frames)
  {
    weights := new real[frames](_ => 0.0);
    wsum := 0.0;
    var f := 0;
    while f < frames
      invariant 0 <= f <= frames
      invariant forall g :: 0 <= g < f ==> weights[g] == Weight(alpha, frames, g)
      invariant wsum == WeightSum(alpha, frames, f)
    {
      var e: nat := frames - 1 - f;
      var w := alpha * Pow(mth, 1.0 - alpha, e as real);
      PowOfNat(mth, 1.0 - alpha, e);
      assert w == Weight(alpha, frames, f);
      weights[f] := w;
      wsum := wsum + w;
      f := f + 1;
    }
  }

  /** The accumulation loop: ewma[i] = Σ_f (weights[f]/wsum)·count_f(i). */
  method SmoothCounts(h: seq<seq<Point>>, alpha: real, weights: array<real>, wsum: real, numBins: nat)
    returns (ewma: array<real>)
    requires weights.Length == |h| && wsum == WeightSum(alpha, |h|, |h|)
    requires forall g :: 0 <= g < |h| ==> weights[g] == Weight(alpha, |h|, g)
    ensures fresh(ewma) && ewma.Length == numBins
    ensures forall i :: 0 <= i < numBins ==> ewma[i] == Smoothed(h, alpha, i, |h|)
  {
    ewma := new real[numBins](_ => 0.0);
    var f := 0;
    while f < |h|
      invariant 0 <= f <= |h|
      invariant forall i :: 0 <= i < numBins ==> ewma[i] == Smoothed(h, alpha, i, f)
    {
      var wf := if wsum > 0.0 then weights[f] / wsum else 0.0;
      assert wf == NormWeight(alpha, |h|, f);
      AddFrame(ewma, h[f], wf);
      assert forall i :: 0 <= i < numBins ==> ewma[i] == Smoothed(h, alpha, i, f + 1);
      f := f + 1;
    }
  }

  /** One pass of the inner loop: every bin gains wf times the frame's count there. */
  method AddFrame(ewma: array<real>, frame: seq<Point>, wf: real)
    modifies ewma
    ensures forall j :: 0 <= j < ewma.Length ==> ewma[j] == old(ewma[j]) + wf * CountAt(frame, j)
  {
    var i := 0;
    while i < ewma.Length
      invariant 0 <= i <= ewma.Length
      invariant forall j :: 0 <= j < i ==> ewma[j] == old(ewma[j]) + wf * CountAt(frame, j)
      invariant forall j :: i <= j < ewma.Length ==> ewma[j] == old(ewma[j])
    {
      var c := if i < |frame| then frame[i].y else 0.0;
      ewma[i] := ewma[i] + wf * c;
      i := i + 1;
    }
  }

  /** With no particles or fewer than two bins every density is 0. */
  lemma DensityZeroWithoutNormaliser(history: seq<seq<Point>>, particleCount: nat, alpha: real, i: nat)
    requires |history| > 0
    requires particleCount == 0 || |history[|history| - 1]| < 2
    ensures Density(history, particleCount, alpha, i) == 0.0
  {
  }

  /** The normalised weights of the first k frames add up to their share of the total. */
  lemma {:induction false} NormWeightPrefix(alpha: real, frames: nat, k: nat)
    requires k <= frames && WeightSum(alpha, frames, frames) > 0.0
    ensures NormWeightSum(alpha, frames, k) == WeightSum(alpha, frames, k) / WeightSum(alpha, frames, frames)
  {
    if k > 0 {
      NormWeightPrefix(alpha, frames, k - 1);
      var s := WeightSum(alpha, frames, frames);
      var a, w := WeightSum(alpha, frames, k - 1), Weight(alpha, frames, k - 1);
      assert NormWeight(alpha, frames, k - 1) == w / s;
      DivAddSame(a, w, s);
    }
  }

  /** a/s + w/s = (a + w)/s */
  lemma DivAddSame(a: real, w: real, s: real)
    requires s != 0.0
    ensures a / s + w / s == (a + w) / s
  {
  }

  /** The normalised weights sum to 1 whenever their raw sum is positive. */
  lemma NormWeightsSumToOne(alpha: real, frames: nat)
    requires WeightSum(alpha, frames, frames) > 0.0
    ensures NormWeightSum(alpha, frames, frames) == 1.0
  {
    NormWeightPrefix(alpha, frames, frames);
  }

  lemma {:induction false} PowNatPositive(q: real, n: nat)
    requires 0.0 < q
    ensures 0.0 < PowNat(q, n)
  {
    if n > 0 {
      PowNatPositive(q, n - 1);
      MulPositive(q, PowNat(q, n - 1));
    }
  }

  lemma {:induction false} PowNatNonNegative(q: real, n: nat)
    requires 0.0 <= q
    ensures 0.0 <= PowNat(q, n)
  {
    if n > 0 {
      PowNatNonNegative(q, n - 1);
      MulLeft(0.0, q, PowNat(q, n - 1));
    }
  }

  /** For 0 ≤ α ≤ 1 every partial sum of the weights is non-negative. */
  lemma {:induction false} WeightSumNonNegative(alpha: real, frames: nat, k: nat)
    requires 0.0 <= alpha <= 1.0 && k <= frames
    ensures 0.0 <= WeightSum(alpha, frames, k)
  {
    if k > 0 {
      WeightSumNonNegative(alpha, frames, k - 1);
      PowNatNonNegative(1.0 - alpha, frames - 1 - (k - 1));
      MulLeft(0.0, alpha, PowNat(1.0 - alpha, frames - 1 - (k - 1)));
    }
  }

  /** For 0 < α ≤ 1 (the default 0.3 among them) and at least one frame the raw weights
      have a positive sum, the newest frame alone weighing α, so the normalised weights
      sum to 1. */
  lemma WeightSumPositive(alpha: real, frames: nat)
    requires 0.0 < alpha <= 1.0 && frames > 0
    ensures WeightSum(alpha, frames, frames) > 0.0
    ensures NormWeightSum(alpha, frames, frames) == 1.0
  {
    WeightSumNonNegative(alpha, frames, frames - 1);
    assert Weight(alpha, frames, frames - 1) == alpha;
    NormWeightsSumToOne(alpha, frames);
  }

  /** For 0 < α < 1 the weights grow towards the newest frame. */
  lemma WeightsIncrease(alpha: real, frames: nat, f: nat)
    requires 0.0 < alpha < 1.0 && f + 1 < frames
    ensures Weight(alpha, frames, f) < Weight(alpha, frames, f + 1)
  {
    var q := 1.0 - alpha;
    var e := frames - 1 - (f + 1);
    assert frames - 1 - f == e + 1;
    PowNatPositive(q, e);
    ShrinkingWeight(alpha, q, PowNat(q, e), Weight(alpha, frames, f), Weight(alpha, frames, f + 1));
  }

  lemma ShrinkingWeight(alpha: real, q: real, p: real, w1: real, w2: real)
    requires 0.0 < alpha && 0.0 < q < 1.0 && 0.0 < p
    requires w1 == alpha * (q * p) && w2 == alpha * p
    ensures w1 < w2
  {
    MulStrict(q, 1.0, p);
    MulStrict(q * p, p, alpha);
  }

  /** Frames that agree on bin i smooth to that common count. */
  lemma {:induction false} IdenticalFramesPrefix(history: seq<seq<Point>>, alpha: real, i: nat, c: real, k: nat)
    requires k <= |history|
    requires forall f :: 0 <= f < |history| ==> CountAt(history[f], i) == c
    ensures Smoothed(history, alpha, i, k) == c * NormWeightSum(alpha, |history|, k)
  {
    if k > 0 {
      IdenticalFramesPrefix(history, alpha, i, c, k - 1);
      var s, w := NormWeightSum(alpha, |history|, k - 1), NormWeight(alpha, |history|, k - 1);
      assert c * s + w * c == c * (s + w);
    }
  }

  lemma IdenticalFramesSmoothToFrame(history: seq<seq<Point>>, alpha: real, i: nat, c: real)
    requires |history| > 0 && WeightSum(alpha, |history|, |history|) > 0.0
    requires forall f :: 0 <= f < |history| ==> CountAt(history[f], i) == c
    ensures Smoothed(history, alpha, i, |history|) == c
  {
    IdenticalFramesPrefix(history, alpha, i, c, |history|);
    NormWeightsSumToOne(alpha, |history|);
  }
}
