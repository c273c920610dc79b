/** The mean-free-path charts: a bar chart of the recent free-path lengths in 10-pixel bins,
    with two vertical marker lines (the theoretical and the simulated mean free path), and a
    line chart of the mean free path against the collision count. The module-level chart
    objects and change-detection variables are the fields of `MFPCharts`; a chart object is
    modelled by its data arrays. */
module MfpCharts {
  import opened Common
  import opened Text
  import opened MathLib
  import opened Physics
  import opened TheoreticalValues

  const BIN_SIZE: real := 10.0
  /** Only the newest samples are binned. */
  const WINDOW: nat := 500
  /** The x axis always reaches at least this length. */
  const MIN_MAX_LENGTH: real := 100.0
  /** The marker lines are at least this tall. */
  const MIN_Y_MAX: nat := 5

  const DEFAULT_TEMPERATURE: real := 300.0
  const DEFAULT_MOLAR_MASS: real := 28.0134
  const DEFAULT_PARTICLE_COUNT: real := 300.0
  const DEFAULT_PARTICLE_RADIUS: real := 5.0
  /** The area used when there is no simulation canvas. */
  const DEFAULT_AREA: real := 100000.0

  /** JavaScript truthiness of a number: 0 and NaN are falsy. */
  predicate Truthy(n: Num) {
    match n
    case Fin(r) => r != 0.0
    case NaN => false
    case _ => true
  }

  /** `value || d` for a number that may be undefined (`None`). */
  function OrDefault(v: Option<Num>, d: real): Num {
    if v.Some? && Truthy(v.value) then v.value else Fin(d)
  }

  // ---------------------------------------------------------------------------------------
  // Parameters of the theoretical mean free path

  /** The fields of the current application state that the theoretical line reads. */
  datatype CurrentState = CurrentState(
    temperature: Option<Num>, molarMass: Option<Num>, particleCount: Option<Num>, particleRadius: Option<Num>)

  datatype TheoryInputs = TheoryInputs(
    temperature: Num, molarMass: Num, particleCount: Num, particleRadius: Num, area: real)

  /** The inputs of the theoretical mean free path: each state field with its default, and
      the canvas area (width · height), or 100000 when there is no canvas. */
  function TheoryParameters(s: CurrentState, canvas: Option<(real, real)>): (p: TheoryInputs)
    ensures (s.temperature.None? || !Truthy(s.temperature.value)) ==> p.temperature == Fin(DEFAULT_TEMPERATURE)
    ensures (s.molarMass.None? || !Truthy(s.molarMass.value)) ==> p.molarMass == Fin(DEFAULT_MOLAR_MASS)
    ensures (s.particleCount.None? || !Truthy(s.particleCount.value)) ==> p.particleCount == Fin(DEFAULT_PARTICLE_COUNT)
    ensures (s.particleRadius.None? || !Truthy(s.particleRadius.value)) ==> p.particleRadius == Fin(DEFAULT_PARTICLE_RADIUS)
    ensures s.temperature.Some? && Truthy(s.temperature.value) ==> p.temperature == s.temperature.value
    ensures s.molarMass.Some? && Truthy(s.molarMass.value) ==> p.molarMass == s.molarMass.value
    ensures s.particleCount.Some? && Truthy(s.particleCount.value) ==> p.particleCount == s.particleCount.value
    ensures s.particleRadius.Some? && Truthy(s.particleRadius.value) ==> p.particleRadius == s.particleRadius.value
    ensures canvas.None? ==> p.area == DEFAULT_AREA
    ensures canvas.Some? ==> p.area == canvas.value.0 * canvas.value.1
    ensures Truthy(p.temperature) && Truthy(p.molarMass) && Truthy(p.particleCount) && Truthy(p.particleRadius)
  {
    TheoryInputs(
      OrDefault(s.temperature, DEFAULT_TEMPERATURE),
      OrDefault(s.molarMass, DEFAULT_MOLAR_MASS),
      OrDefault(s.particleCount, DEFAULT_PARTICLE_COUNT),
      OrDefault(s.particleRadius, DEFAULT_PARTICLE_RADIUS),
      if canvas.Some? then canvas.value.0 * canvas.value.1 else DEFAULT_AREA)
  }

  /** The x position of the theoretical marker:
      `metersToPixels(calculateTheoreticalMeanFreePath(...))` on the defaulted inputs, with
      `units` the program's metre/pixel conversions. The count and radius are truthy, so
      non-zero; when both are finite and the area is not zero the marker is the pixel mean
      free path. An infinite count or radius, or a zero area, makes the density infinite
      and the path 0. */
  function TheoryMarker(mth: Transcendentals, units: Conversions, s: CurrentState, canvas: Option<(real, real)>): (x: Num)
    requires Lawful(mth) && units.Valid()
    ensures x.Fin?
    ensures var p := TheoryParameters(s, canvas);
      p.particleCount.Fin? && p.particleRadius.Fin? && p.area != 0.0 ==>
        x.r == PixelMeanFreePath(mth, p.particleCount.r, p.particleRadius.r, p.area)
    ensures var p := TheoryParameters(s, canvas);
      !(p.particleCount.Fin? && p.particleRadius.Fin? && p.area != 0.0) ==> x.r == 0.0
  {
    var p := TheoryParameters(s, canvas);
    if p.particleCount.Fin? && p.particleRadius.Fin? && p.area != 0.0 then
      var lambda := TheoreticalMeanFreePath(mth, units, p.temperature, p.molarMass,
                                            p.particleCount.r, p.particleRadius.r, p.area);
      Fin(units.MetersToPixels(lambda))
    else
      Fin(0.0)
  }

  /** With no state fields and no canvas, the marker sits at the mean free path of 300
      particles of radius 5 in an area of 100000. */
  lemma DefaultTheoryMarker(mth: Transcendentals, units: Conversions)
    requires Lawful(mth) && units.Valid()
    ensures TheoryMarker(mth, units, CurrentState(None, None, None, None), None)
         == Fin(PixelMeanFreePath(mth, DEFAULT_PARTICLE_COUNT, DEFAULT_PARTICLE_RADIUS, DEFAULT_AREA))
  {
  }

  /** With a positive count and radius and a positive area, the marker is a positive
      length, so it always lands on a bin. */
  lemma TheoryMarkerSelectsBin(mth: Transcendentals, units: Conversions, s: CurrentState,
                               canvas: Option<(real, real)>, numBins: nat)
    requires Lawful(mth) && units.Valid() && 0 < numBins
    requires var p := TheoryParameters(s, canvas);
      && p.particleCount.Fin? && 0.0 < p.particleCount.r
      && p.particleRadius.Fin? && 0.0 < p.particleRadius.r
      && 0.0 < p.area
    ensures 0.0 < TheoryMarker(mth, units, s, canvas).r
    ensures MarkerIndex(TheoryMarker(mth, units, s, canvas), numBins).Some?
  {
  }

  // ---------------------------------------------------------------------------------------
  // Binning

  /** `Math.max(...windowed, 100)` */
  function MaxLength(ws: seq<real>): (m: real)
    ensures MIN_MAX_LENGTH <= m
    ensures forall i :: 0 <= i < |ws| ==> ws[i] <= m
    ensures m == MIN_MAX_LENGTH || exists i :: 0 <= i < |ws| && ws[i] == m
  {
    if |ws| == 0 then MIN_MAX_LENGTH
    else MaxR(MaxLength(ws[..|ws| - 1]), ws[|ws| - 1])
  }

  /** `Math.ceil(maxLength / 10)`: there are always at least ten bins, and every sample is
      at most ten times the bin count. */
  function NumBins(ws: seq<real>): (n: nat)
    ensures 10 <= n
    ensures forall i :: 0 <= i < |ws| ==> ws[i] <= BIN_SIZE * (n as real)
  {
    var m := MaxLength(ws);
    var c := Ceil(m / BIN_SIZE);
    assert m / BIN_SIZE <= c as real;
    c
  }

  /** `Math.min(Math.floor(L / 10), numBins - 1)`; a negative result selects no bin. */
  function BinIndex(L: real, numBins: nat): int {
    Min((L / BIN_SIZE).Floor, numBins - 1)
  }

  /** A non-negative sample always selects a bin, and the bin is the one whose range holds
      it, or the last bin for a sample at or past its upper end. */
  lemma BinIndexInRange(L: real, numBins: nat)
    requires 0.0 <= L && 0 < numBins
    ensures 0 <= BinIndex(L, numBins) < numBins
    ensures BinIndex(L, numBins) < numBins - 1 ==>
      BIN_SIZE * (BinIndex(L, numBins) as real) <= L < BIN_SIZE * ((BinIndex(L, numBins) + 1) as real)
  {
  }

  /** A negative sample selects no bin. */
  lemma NegativeSampleHasNoBin(L: real, numBins: nat)
    requires L < 0.0
    ensures BinIndex(L, numBins) < 0
  {
  }

  /** How many of the samples select bin k. */
  function BinCount(ws: seq<real>, numBins: nat, k: int): (c: nat)
    ensures c <= |ws|
  {
    if |ws| == 0 then 0
    else BinCount(ws[..|ws| - 1], numBins, k) + (if BinIndex(ws[|ws| - 1], numBins) == k then 1 else 0)
  }

  /** The histogram: bin k holds the number of samples that select it. */
  function Bins(ws: seq<real>, numBins: nat): (bins: seq<nat>)
    ensures |bins| == numBins
  {
    seq(numBins, k requires 0 <= k < numBins => BinCount(ws, numBins, k))
  }

  /** The number of non-negative samples. */
  function CountNonNegative(ws: seq<real>): (c: nat)
    ensures c <= |ws|
  {
    if |ws| == 0 then 0
    else CountNonNegative(ws[..|ws| - 1]) + (if 0.0 <= ws[|ws| - 1] then 1 else 0)
  }

  /** Adding one to entry `idx` of a sequence adds one to its sum, and nothing when `idx`
      is outside it. */
  lemma {:induction false} SumBump(a: seq<nat>, b: seq<nat>, idx: int)
    requires |a| == |b|
    requires forall k :: 0 <= k < |a| ==> b[k] == a[k] + (if k == idx then 1 else 0)
    ensures SumNat(b) == SumNat(a) + (if 0 <= idx < |a| then 1 else 0)
  {
    if |a| > 0 {
      var n := |a| - 1;
      SumBump(a[..n], b[..n], idx);
    }
  }

  /** Every non-negative sample is counted in exactly one bin and a negative one in none,
      so the bins add up to the number of non-negative samples. */
  lemma {:induction false} BinsSumToCount(ws: seq<real>, numBins: nat)
    requires 0 < numBins
    ensures SumNat(Bins(ws, numBins)) == CountNonNegative(ws)
  {
    if |ws| == 0 {
      var z := Bins(ws, numBins);
      assert forall k :: 0 <= k < numBins ==> z[k] == 0;
      ZeroSum(z);
    } else {
      var n := |ws| - 1;
      var L := ws[n];
      BinsSumToCount(ws[..n], numBins);
      var idx := BinIndex(L, numBins);
      if 0.0 <= L {
        BinIndexInRange(L, numBins);
      } else {
        NegativeSampleHasNoBin(L, numBins);
      }
      SumBump(Bins(ws[..n], numBins), Bins(ws, numBins), idx);
    }
  }

  lemma {:induction false} ZeroSum(z: seq<nat>)
    requires forall k :: 0 <= k < |z| ==> z[k] == 0
    ensures SumNat(z) == 0
  {
    if |z| > 0 {
      ZeroSum(z[..|z| - 1]);
    }
  }

  /** With no negative sample, the bins add up to the number of samples binned. */
  lemma BinsSumToWindowSize(ws: seq<real>, numBins: nat)
    requires 0 < numBins
    requires forall i :: 0 <= i < |ws| ==> 0.0 <= ws[i]
    ensures SumNat(Bins(ws, numBins)) == |ws|
  {
    BinsSumToCount(ws, numBins);
    AllNonNegative(ws);
  }

  lemma {:induction false} AllNonNegative(ws: seq<real>)
    requires forall i :: 0 <= i < |ws| ==> 0.0 <= ws[i]
    ensures CountNonNegative(ws) == |ws|
  {
    if |ws| > 0 {
      AllNonNegative(ws[..|ws| - 1]);
    }
  }

  /** `bins[idx]++` for each windowed sample, on an array of zeros. */
  method CountBins(ws: seq<real>, numBins: nat) returns (counts: seq<nat>)
    requires 0 < numBins
    ensures counts == Bins(ws, numBins)
  {
    var bins := new nat[numBins](_ => 0);
    var i := 0;
    while i < |ws|
      invariant 0 <= i <= |ws|
      invariant forall k :: 0 <= k < numBins ==> bins[k] == BinCount(ws[..i], numBins, k)
    {
      var idx := BinIndex(ws[i], numBins);
      if 0 <= idx {
        bins[idx] := bins[idx] + 1;
      }
      assert ws[..i + 1][..i] == ws[..i];
      i := i + 1;
    }
    assert ws[..|ws|] == ws;
    counts := bins[..];
  }

  // ---------------------------------------------------------------------------------------
  // Labels

  /** The label `${i * 10}-${(i + 1) * 10}` of bin i. */
  function BinLabel(i: nat): string {
    NatToString(i * 10) + "-" + NatToString((i + 1) * 10)
  }

  function BinLabels(numBins: nat): (labels: seq<string>)
    ensures |labels| == numBins
    ensures forall i :: 0 <= i < numBins ==> labels[i] == BinLabel(i)
  {
    seq(numBins, i requires 0 <= i => BinLabel(i))
  }

  lemma NatToStringLong(n: nat)
    requires 10 <= n
    ensures 2 <= |NatToString(n)|
  {
  }

  /** Different numbers have different decimal renderings. */
  lemma {:induction false} NatToStringInjective(a: nat, b: nat)
    requires NatToString(a) == NatToString(b)
    ensures a == b
    decreases a
  {
    if a < 10 && b < 10 {
      assert "0123456789"[a] == "0123456789"[b];
    } else if a < 10 {
      NatToStringLong(b);
    } else if b < 10 {
      NatToStringLong(a);
    } else {
      SameLongRendering(a, b);
      NatToStringInjective(a / 10, b / 10);
    }
  }

  /** Two numbers of two or more digits with the same rendering agree on their last digit
      and on the rendering of the digits before it. */
  lemma SameLongRendering(a: nat, b: nat)
    requires 10 <= a && 10 <= b && NatToString(a) == NatToString(b)
    ensures NatToString(a / 10) == NatToString(b / 10) && a % 10 == b % 10
  {
    var sa, sb := NatToString(a / 10), NatToString(b / 10);
    assert NatToString(a) == sa + [DigitChar(a % 10)];
    assert NatToString(b) == sb + [DigitChar(b % 10)];
    assert sa == NatToString(a)[..|sa|] == NatToString(b)[..|sb|] == sb;
    assert "0123456789"[a % 10] == "0123456789"[b % 10];
  }

  /** In a label `s-t` whose left part is decimal digits, the first dash is right after
      the left part. */
  lemma DashAfterDigits(s: string, t: string)
    requires forall k :: 0 <= k < |s| ==> '0' <= s[k] <= '9'
    ensures (s + "-" + t)[|s|] == '-'
    ensures forall k :: 0 <= k < |s| ==> (s + "-" + t)[k] != '-'
    ensures (s + "-" + t)[..|s|] == s
  {
  }

  /** No two bins share a label: the category axis is unambiguous. */
  lemma BinLabelsDistinct(i: nat, j: nat)
    requires BinLabel(i) == BinLabel(j)
    ensures i == j
  {
    var si, sj := NatToString(i * 10), NatToString(j * 10);
    DashAfterDigits(si, NatToString((i + 1) * 10));
    DashAfterDigits(sj, NatToString((j + 1) * 10));
    assert |si| == |sj|;
    NatToStringInjective(i * 10, j * 10);
  }

  // ---------------------------------------------------------------------------------------
  // Marker lines

  /** A point `{x: label, y}` of a vertical marker line; `None` is an undefined label. */
  datatype LinePoint = LinePoint(x: Option<string>, y: nat)

  /** `Math.min(Math.floor(x / 10), numBins - 1)` for a marker position; `None` when the
      index is negative or NaN, where `labels[idx]` is undefined. */
  function MarkerIndex(x: Num, numBins: nat): (idx: Option<nat>)
    requires 0 < numBins
    ensures idx.Some? ==> idx.value < numBins
    ensures x.Fin? && 0.0 <= x.r ==> idx.Some?
    ensures x.PosInf? ==> idx == Some(numBins - 1)
  {
    match x
    case Fin(r) =>
      var i := BinIndex(r, numBins);
      if i < 0 then None else Some(i)
    case PosInf => Some(numBins - 1)
    case _ => None
  }

  /** The label the marker sits on. */
  function MarkerLabel(labels: seq<string>, idx: Option<nat>): Option<string> {
    if idx.Some? && idx.value < |labels| then Some(labels[idx.value]) else None
  }

  /** `Math.max(...bins, 5)` */
  function YMax(bins: seq<nat>): (m: nat)
    ensures MIN_Y_MAX <= m
    ensures forall i :: 0 <= i < |bins| ==> bins[i] <= m
    ensures m == MIN_Y_MAX || exists i :: 0 <= i < |bins| && bins[i] == m
  {
    if |bins| == 0 then MIN_Y_MAX
    else Max(YMax(bins[..|bins| - 1]), bins[|bins| - 1])
  }

  /** The two points of a vertical line from 0 to `top` at category `at`. */
  function VerticalLine(at: Option<string>, top: nat): seq<LinePoint> {
    [LinePoint(at, 0), LinePoint(at, top)]
  }

  // ---------------------------------------------------------------------------------------
  // The charts

  /** The fields of the tracer data that the charts read; `None` is an undefined field. */
  datatype TracerData = TracerData(mfpLengths: Option<seq<real>>, collisionCount: Option<Num>, meanFreePath: Option<Num>)

  /** A point of the convergence chart. */
  datatype ConvergencePoint = ConvergencePoint(collisionCount: real, meanFreePath: Num)

  /** `pixelsToMeters` on a number: a positive factor keeps the infinities. */
  function ToMeters(conv: Conversions, px: Num): (m: Num)
    requires conv.Valid()
    ensures px.Fin? <==> m.Fin?
  {
    match px
    case Fin(r) => Fin(conv.PixelsToMeters(r))
    case _ => px
  }

  /** The mean free path in metres when the physics module is available, else in pixels. */
  function MeanFreePathMeters(conv: Option<Conversions>, px: Num): Num
    requires conv.Some? ==> conv.value.Valid()
  {
    if conv.Some? then ToMeters(conv.value, px) else px
  }

  /** What the distribution chart shows for a list of samples. */
  datatype Distribution = Distribution(
    labels: seq<string>, counts: seq<nat>, theoryLine: seq<LinePoint>, simulationLine: seq<LinePoint>)

  /** The distribution of the newest 500 samples, with the marker lines at `theoryPx` and
      `simulationPx` drawn up to the tallest bar (at least 5). */
  function DistributionOf(lengths: seq<real>, theoryPx: Num, simulationPx: Num): Distribution {
    var ws := LastN(lengths, WINDOW);
    var n := NumBins(ws);
    var labels := BinLabels(n);
    var counts := Bins(ws, n);
    Distribution(labels, counts,
      VerticalLine(MarkerLabel(labels, MarkerIndex(theoryPx, n)), YMax(counts)),
      VerticalLine(MarkerLabel(labels, MarkerIndex(simulationPx, n)), YMax(counts)))
  }

  class MFPCharts {
    /** Whether each chart object exists. */
    var hasDistributionChart: bool
    var hasConvergenceChart: bool
    /** The change-detection variables. */
    var lastCollisionCount: real
    var lastLengthsSize: nat
    /** The distribution chart: its category labels, the bar counts and the two marker lines. */
    var labels: seq<string>
    var counts: seq<nat>
    var theoryLine: seq<LinePoint>
    var simulationLine: seq<LinePoint>
    /** The convergence chart's points. */
    var convergenceData: seq<ConvergencePoint>
    /** The store's convergence history, which the convergence chart shows. */
    var history: seq<ConvergencePoint>

    /** The module as loaded: no charts, last collision count −1, last sample count 0. */
    constructor()
      ensures !hasDistributionChart && !hasConvergenceChart
      ensures lastCollisionCount == -1.0 && lastLengthsSize == 0
      ensures labels == [] && counts == [] && theoryLine == [] && simulationLine == []
      ensures convergenceData == [] && history == []
    {
      hasDistributionChart, hasConvergenceChart := false, false;
      lastCollisionCount, lastLengthsSize := -1.0, 0;
      labels, counts, theoryLine, simulationLine := [], [], [], [];
      convergenceData, history := [], [];
    }

    /** `initMFPCharts`: a chart is created, empty, for each canvas that exists; a chart
        whose canvas is missing is left as it was. */
    method InitMFPCharts(distributionCanvas: bool, convergenceCanvas: bool)
      modifies this
      ensures hasDistributionChart == (old(hasDistributionChart) || distributionCanvas)
      ensures hasConvergenceChart == (old(hasConvergenceChart) || convergenceCanvas)
      ensures distributionCanvas ==> labels == [] && counts == [] && theoryLine == [] && simulationLine == []
      ensures !distributionCanvas ==>
        labels == old(labels) && counts == old(counts) && theoryLine == old(theoryLine) && simulationLine == old(simulationLine)
      ensures convergenceCanvas ==> convergenceData == []
      ensures !convergenceCanvas ==> convergenceData == old(convergenceData)
      ensures lastCollisionCount == old(lastCollisionCount) && lastLengthsSize == old(lastLengthsSize)
      ensures history == old(history)
    {
      if distributionCanvas {
        hasDistributionChart := true;
        labels, counts, theoryLine, simulationLine := [], [], [], [];
      }
      if convergenceCanvas {
        hasConvergenceChart := true;
        convergenceData := [];
      }
    }

    /** The distribution recomputation over the newest 500 samples: labels, bin counts and
        the two marker lines, and the sample count remembered. */
    method RecomputeDistribution(lengths: seq<real>, theoryPx: Num, simulationPx: Num)
      modifies this
      ensures lastLengthsSize == |lengths|
      ensures Distribution(labels, counts, theoryLine, simulationLine) == DistributionOf(lengths, theoryPx, simulationPx)
      ensures hasDistributionChart == old(hasDistributionChart) && hasConvergenceChart == old(hasConvergenceChart)
      ensures lastCollisionCount == old(lastCollisionCount)
      ensures convergenceData == old(convergenceData) && history == old(history)
    {
      var windowed := LastN(lengths, WINDOW);
      var numBins := NumBins(windowed);
      var bins := CountBins(windowed, numBins);
      var d := DistributionOf(lengths, theoryPx, simulationPx);
      assert bins == d.counts;
      lastLengthsSize := |lengths|;
      labels, counts, theoryLine, simulationLine := d.labels, bins, d.theoryLine, d.simulationLine;
    }

    /** The convergence update: the point is appended to the store's history and the chart
        shows the whole history. */
    method RecordConvergence(point: ConvergencePoint)
      modifies this
      ensures lastCollisionCount == point.collisionCount
      ensures history == old(history) + [point]
      ensures convergenceData == history
      ensures hasDistributionChart == old(hasDistributionChart) && hasConvergenceChart == old(hasConvergenceChart)
      ensures lastLengthsSize == old(lastLengthsSize)
      ensures labels == old(labels) && counts == old(counts)
      ensures theoryLine == old(theoryLine) && simulationLine == old(simulationLine)
    {
      lastCollisionCount := point.collisionCount;
      history := history + [point];
      convergenceData := history;
    }

    /** The convergence update as the source runs it against its store, which has no
        `appendMFPConvergencePoint` and no `mfpConvergenceHistory`: the append throws and
        is ignored, and the chart is set to the empty fallback history. */
    method RecordConvergenceAsWritten(point: ConvergencePoint)
      modifies this
      ensures lastCollisionCount == point.collisionCount
      ensures convergenceData == []
      ensures history == old(history)
      ensures hasDistributionChart == old(hasDistributionChart) && hasConvergenceChart == old(hasConvergenceChart)
      ensures lastLengthsSize == old(lastLengthsSize)
      ensures labels == old(labels) && counts == old(counts)
      ensures theoryLine == old(theoryLine) && simulationLine == old(simulationLine)
    {
      lastCollisionCount := point.collisionCount;
      convergenceData := [];
    }

    /** `updateMFPCharts(tracerData, currentState)`. `canvas` is the simulation canvas's
        width and height when it exists; `units` are the metre/pixel conversions the module
        imports and `conv` those of `window.PHYSICS` when it is available. The theoretical
        marker is `TheoryMarker` of the state and canvas. Nothing happens until both charts
        exist. The distribution is
        recomputed only when there are samples and their number changed since the last
        recomputation; a convergence point is recorded only when the collision count is
        finite and differs from the last one recorded. */
    method UpdateMFPCharts(tracer: TracerData, s: CurrentState, canvas: Option<(real, real)>,
                           mth: Transcendentals, units: Conversions, conv: Option<Conversions>)
      requires Lawful(mth) && units.Valid()
      requires conv.Some? ==> conv.value.Valid()
      modifies this
      ensures !old(hasDistributionChart && hasConvergenceChart) ==>
        && lastCollisionCount == old(lastCollisionCount) && lastLengthsSize == old(lastLengthsSize)
        && labels == old(labels) && counts == old(counts) && convergenceData == old(convergenceData)
        && theoryLine == old(theoryLine) && simulationLine == old(simulationLine) && history == old(history)
      ensures hasDistributionChart == old(hasDistributionChart) && hasConvergenceChart == old(hasConvergenceChart)
      ensures old(hasDistributionChart && hasConvergenceChart) ==>
        var lengths := tracer.mfpLengths.GetOr([]);
        var mfpPx := OrDefault(tracer.meanFreePath, 0.0);
        if |lengths| > 0 && |lengths| != old(lastLengthsSize) then
          && lastLengthsSize == |lengths|
          && Distribution(labels, counts, theoryLine, simulationLine)
             == DistributionOf(lengths, TheoryMarker(mth, units, s, canvas), mfpPx)
        else
          && lastLengthsSize == old(lastLengthsSize) && labels == old(labels) && counts == old(counts)
          && theoryLine == old(theoryLine) && simulationLine == old(simulationLine)
      ensures old(hasDistributionChart && hasConvergenceChart) ==>
        var cc := OrDefault(tracer.collisionCount, 0.0);
        var mfpM := MeanFreePathMeters(conv, OrDefault(tracer.meanFreePath, 0.0));
        if cc.Fin? && cc.r != old(lastCollisionCount) then
          && lastCollisionCount == cc.r
          && history == old(history) + [ConvergencePoint(cc.r, mfpM)]
          && convergenceData == history
        else
          lastCollisionCount == old(lastCollisionCount) && history == old(history)
          && convergenceData == old(convergenceData)
    {
      if !hasDistributionChart || !hasConvergenceChart {
        return;
      }
      var collisionCount := OrDefault(tracer.collisionCount, 0.0);
      var meanFreePathM := MeanFreePathMeters(conv, OrDefault(tracer.meanFreePath, 0.0));
      var theoryPx := TheoryMarker(mth, units, s, canvas);
      RefreshDistribution(tracer, theoryPx);
      if collisionCount.Fin? && collisionCount.r != lastCollisionCount {
        RecordConvergence(ConvergencePoint(collisionCount.r, meanFreePathM));
      }
    }

    /** `updateMFPCharts` as the source runs it against its store: the same as
        `UpdateMFPCharts`, except that a new collision count leaves the convergence chart
        empty and the history as it was. */
    method UpdateMFPChartsAsWritten(tracer: TracerData, s: CurrentState, canvas: Option<(real, real)>,
                                    mth: Transcendentals, units: Conversions, conv: Option<Conversions>)
      requires Lawful(mth) && units.Valid()
      requires conv.Some? ==> conv.value.Valid()
      modifies this
      ensures !old(hasDistributionChart && hasConvergenceChart) ==>
        && lastCollisionCount == old(lastCollisionCount) && lastLengthsSize == old(lastLengthsSize)
        && labels == old(labels) && counts == old(counts) && convergenceData == old(convergenceData)
        && theoryLine == old(theoryLine) && simulationLine == old(simulationLine) && history == old(history)
      ensures hasDistributionChart == old(hasDistributionChart) && hasConvergenceChart == old(hasConvergenceChart)
      ensures old(hasDistributionChart && hasConvergenceChart) ==>
        var lengths := tracer.mfpLengths.GetOr([]);
        var mfpPx := OrDefault(tracer.meanFreePath, 0.0);
        if |lengths| > 0 && |lengths| != old(lastLengthsSize) then
          && lastLengthsSize == |lengths|
          && Distribution(labels, counts, theoryLine, simulationLine)
             == DistributionOf(lengths, TheoryMarker(mth, units, s, canvas), mfpPx)
        else
          && lastLengthsSize == old(lastLengthsSize) && labels == old(labels) && counts == old(counts)
          && theoryLine == old(theoryLine) && simulationLine == old(simulationLine)
      ensures old(hasDistributionChart && hasConvergenceChart) ==>
        var cc := OrDefault(tracer.collisionCount, 0.0);
        if cc.Fin? && cc.r != old(lastCollisionCount) then
          lastCollisionCount == cc.r && history == old(history) && convergenceData == []
        else
          lastCollisionCount == old(lastCollisionCount) && history == old(history)
          && convergenceData == old(convergenceData)
    {
      if !hasDistributionChart || !hasConvergenceChart {
        return;
      }
      var collisionCount := OrDefault(tracer.collisionCount, 0.0);
      var meanFreePathM := MeanFreePathMeters(conv, OrDefault(tracer.meanFreePath, 0.0));
      var theoryPx := TheoryMarker(mth, units, s, canvas);
      RefreshDistribution(tracer, theoryPx);
      if collisionCount.Fin? && collisionCount.r != lastCollisionCount {
        RecordConvergenceAsWritten(ConvergencePoint(collisionCount.r, meanFreePathM));
      }
    }

    /** The distribution half of an update: recomputed only when there are samples and
        their number changed since the last recomputation. */
    method RefreshDistribution(tracer: TracerData, theoryPx: Num)
      modifies this
      ensures var lengths := tracer.mfpLengths.GetOr([]);
        if |lengths| > 0 && |lengths| != old(lastLengthsSize) then
          && lastLengthsSize == |lengths|
          && Distribution(labels, counts, theoryLine, simulationLine)
             == DistributionOf(lengths, theoryPx, OrDefault(tracer.meanFreePath, 0.0))
        else
          && lastLengthsSize == old(lastLengthsSize) && labels == old(labels) && counts == old(counts)
          && theoryLine == old(theoryLine) && simulationLine == old(simulationLine)
      ensures hasDistributionChart == old(hasDistributionChart) && hasConvergenceChart == old(hasConvergenceChart)
      ensures lastCollisionCount == old(lastCollisionCount)
      ensures convergenceData == old(convergenceData) && history == old(history)
    {
      var lengths := tracer.mfpLengths.GetOr([]);
      if |lengths| > 0 && |lengths| != lastLengthsSize {
        RecomputeDistribution(lengths, theoryPx, OrDefault(tracer.meanFreePath, 0.0));
      }
    }

    /** `resetMFPCharts`: the data of each existing chart is emptied and the store's history
        cleared. The change-detection variables are not reset. */
    method ResetMFPCharts()
      modifies this
      ensures hasDistributionChart == old(hasDistributionChart) && hasConvergenceChart == old(hasConvergenceChart)
      ensures lastCollisionCount == old(lastCollisionCount) && lastLengthsSize == old(lastLengthsSize)
      ensures hasDistributionChart ==> labels == [] && counts == [] && theoryLine == [] && simulationLine == []
      ensures !hasDistributionChart ==>
        labels == old(labels) && counts == old(counts) && theoryLine == old(theoryLine) && simulationLine == old(simulationLine)
      ensures hasConvergenceChart ==> convergenceData == []
      ensures !hasConvergenceChart ==> convergenceData == old(convergenceData)
      ensures history == []
    {
      if hasDistributionChart {
        labels, counts, theoryLine, simulationLine := [], [], [], [];
      }
      if hasConvergenceChart {
        convergenceData := [];
      }
      history := [];
    }
  }

  /** After one collision on freshly initialised charts, the convergence chart shows no
      point as the source is written, and the new point once the store keeps a history. */
  method ConvergenceAfterFirstCollision(mth: Transcendentals, units: Conversions, meanFreePath: Num)
    returns (shownAsWritten: nat, shownCorrected: nat)
    requires Lawful(mth) && units.Valid()
    ensures shownAsWritten == 0
    ensures shownCorrected == 1
  {
    var noState := CurrentState(None, None, None, None);
    var asWritten := new MFPCharts();
    asWritten.InitMFPCharts(true, true);
    asWritten.UpdateMFPChartsAsWritten(TracerData(None, Some(Fin(1.0)), Some(meanFreePath)), noState, None, mth, units, None);
    shownAsWritten := |asWritten.convergenceData|;
    var corrected := new MFPCharts();
    corrected.InitMFPCharts(true, true);
    corrected.UpdateMFPCharts(TracerData(None, Some(Fin(1.0)), Some(meanFreePath)), noState, None, mth, units, None);
    shownCorrected := |corrected.convergenceData|;
  }
}
