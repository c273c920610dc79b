# Maxwell speed distribution: a verified model of the teaching app's core

The app teaches the Maxwell–Boltzmann speed distribution. It has two parts:

- A browser page, where students heat a two-dimensional gas of disc particles, switch the
  gas, and compare the speed histogram with the theoretical curve.
- Two serverless endpoints, which receive the students' conclusions.

This project models the logic behind the page and the endpoints in Dafny, and proves what
that logic promises:

- **Physics and metrics.** The characteristic speeds vp ≤ vavg ≤ vrms, the pixel-speed
  scale and the initial-velocity generators. The theoretical values shown on the indicator
  panel. The simulated kinetic energy, temperature, RMS speed and mean free path.
- **Histograms.** The speed histogram, with every particle counted in exactly one bin. Its
  exponentially smoothed version, whose weights are normalised to sum to 1. The most
  probable speed and the normalised entropy read off it.
- **Matter plug-ins.** The thermostat, which rescales the moving bodies to a target energy.
  The single-particle tracer, which keeps a capped trail and a capped window of free-path
  samples. The velocity rescale when the gas is switched, which conserves the kinetic energy.
- **Simulation and charts.** The self-contained particle animation, with wall reflections,
  temperature-to-speed mapping, spawning and resizing. The theoretical-curve chart and its
  saved comparison curve. The mean-free-path charts.
- **State and flow.** The global state store: deep merge, operation log and histogram
  history. The tutorial flow: step completion, the next button and the control locking.
  The tracer mode machine and the guidance inputs.
- **Chat and export.** The chat client's request and error texts. The CSV export, whose
  quoted rows read back as their fields.
- **Endpoints.** The conclusion-submission endpoint and the step-critique endpoint.

How the model represents the program:

- Pure code becomes functions and lemmas.
- Objects whose fields the page updates become classes: the speed scale, the plug-ins, the
  store, the charts, the tutorial page and the chat session. Their methods carry `modifies`
  clauses.
- In-place array updates keep an `array`: the velocity rescale, the thermostat rescale and
  the counting loops.
- JavaScript numbers are `Num`: a real, NaN or ±Infinity.
- Square roots, logarithms, exponentials and trigonometry are abstract functions. The
  lemmas rely only on their defining laws (`MathLib.Lawful`).
- Random draws, clocks and network outcomes are parameters.

Some facts are modelled as written:

- The factory's default molar mass is 28, while the velocity generators default to 28.0134.
- `logOperation` records an entry twice on a fresh page (see Findings).

Where the source is evidently wrong (see Findings), the model keeps a member for the code
as written beside the corrected one, and the rest of the model uses the corrected one: the
chat request, the convergence chart and the canvas click among them.

## Model

| member | source | states |
|---|---|---|
| Physics.MoleculeMass | js/physics.js:22-23 | a positive molar mass gives a positive molecule mass |
| Physics.Sigma2D | js/physics.js:20-26 | σ is non-negative and σ² = k·T/m, with the defaults for non-finite inputs |
| Physics.RadicandsOrdered | js/physics.js:36-38 | 0 ≤ 2RT/M ≤ 8RT/(πM) ≤ 3RT/M for T ≥ 0, M > 0 and π near 3.14159 |
| Physics.SpeedsAt | js/physics.js:36-39 | the three speeds are ordered 0 ≤ vp ≤ vavg ≤ vrms |
| Physics.CharacteristicSpeeds | js/physics.js:33-40 | after defaulting and converting M to kg/mol, 0 ≤ vp ≤ vavg ≤ vrms |
| Physics.CharacteristicSpeedsSquares | js/physics.js:36-38 | vp² = 2RT/M, vavg² = 8RT/(πM) and vrms² = 3RT/M for the defaulted inputs |
| Physics.VpMonotoneInTemperature | js/physics.js:33-36 | a hotter gas never has a smaller vp |
| Physics.SpeedScale.constructor | js/physics.js:11 | the scale starts at its initial positive value |
| Physics.SpeedScale.SetSpeedScale | js/physics.js:13-15 | a finite positive scale is taken; any other argument leaves the scale unchanged |
| Physics.SpeedScale.GetSpeedScale | js/physics.js:17 | the scale read is always positive |
| Physics.SpeedScale.ConvertMsToPxFrame | js/physics.js:43-45 | the conversion keeps 0 at 0 and keeps the sign of the speed |
| Physics.SpeedScale.PixelSigma2D | js/physics.js:28-30 | σ in px/frame is non-negative, with square scale²·k·T/m |
| Physics.SpeedScale.PixelVp | js/physics.js:48-51 | vp in px/frame is non-negative, with square scale²·2RT/M |
| Physics.ConvertLinear | js/physics.js:43-45 | the m/s → px/frame conversion is linear |
| Physics.ConvertMonotone | js/physics.js:43-45 | the conversion keeps the order of speeds |
| Physics.Conversions.MetersToPixels | js/mfp-charts.js:137 | a length in metres converted to pixels converts back to the same metres |
| Physics.PixelsRoundTrip | js/physics/theoretical-values.js:105 | a pixel length converted to metres converts back to the same pixels |
| TheoreticalValues.TheoreticalEntropy | js/physics/theoretical-values.js:12-16 | the theoretical entropy is 0.95 for every gas |
| TheoreticalValues.TheoreticalTemperature | js/physics/theoretical-values.js:23-26 | the theoretical temperature is the set temperature |
| TheoreticalValues.TheoreticalParticleCount | js/physics/theoretical-values.js:33-36 | the theoretical count is the set count |
| TheoreticalValues.TheoreticalAverageKineticEnergy | js/physics/theoretical-values.js:55-58 | k·T is non-negative for T ≥ 0 |
| TheoreticalValues.TheoreticalTotalKineticEnergy | js/physics/theoretical-values.js:44-48 | no contract of its own (it only computes N·k·T); TotalIsCountTimesAverage states that it is N times the average energy |
| TheoreticalValues.TotalIsCountTimesAverage | js/physics/theoretical-values.js:44-58 | the total energy is N times the average energy |
| TheoreticalValues.TheoreticalPressure | js/physics/theoretical-values.js:67-74 | no contract of its own (it only computes N·T/300², the area unused); PressureReferenceAndLinear states its reference value and linearity |
| TheoreticalValues.PressureReferenceAndLinear | js/physics/theoretical-values.js:67-74 | the pressure is 1 at 300 particles and 300 K, and linear in both N and T |
| TheoreticalValues.TheoreticalTimeScale | js/physics/theoretical-values.js:80-83 | the theoretical time scale is 1 |
| TheoreticalValues.PixelMeanFreePath | js/physics/theoretical-values.js:98-102 | for non-zero N, r and area, λ in pixels times the collision density is 1; for positive N, r and area it is positive |
| TheoreticalValues.DensityNonZero | js/physics/theoretical-values.js:98-102 | the collision density is non-zero for non-zero N, r and area, and positive for positive ones |
| TheoreticalValues.DensityPositive | js/physics/theoretical-values.js:98-102 | the collision density √2·π·n·d² is positive |
| TheoreticalValues.TheoreticalMeanFreePath | js/physics/theoretical-values.js:94-106 | the mean free path in metres converts back to λ in pixels, and is positive for positive N, r and area |
| TheoreticalValues.DensityClosedForm | js/physics/theoretical-values.js:98-102 | the density equals √2·π·(N/area)·(2r)² |
| TheoreticalValues.MeanFreePathProportionalToArea | js/physics/theoretical-values.js:98-102 | c times the area gives c times the mean free path |
| TheoreticalValues.MeanFreePathInverseInCount | js/physics/theoretical-values.js:98-102 | c times the particles gives 1/c times the mean free path |
| TheoreticalValues.MeanFreePathInverseSquareInRadius | js/physics/theoretical-values.js:98-102 | c times the radius gives 1/c² times the mean free path, through d² = (2r)² |
| PhysicalMetrics.EnergySumScaled | js/physics/physical-metrics.js:66-81 | the accumulated energy is ½·m·c²·Σ(vx²+vy²), with c the px/frame → m/s factor |
| PhysicalMetrics.EnergySumNonNegative | js/physics/physical-metrics.js:66-81 | with m ≥ 0 the energy sum is non-negative |
| PhysicalMetrics.CalculateTotalKineticEnergy | js/physics/physical-metrics.js:56-84 | null exactly for a missing or empty list; otherwise the energy sum in joules |
| PhysicalMetrics.EnergyLoop | js/physics/physical-metrics.js:66-81 | the loop's sum is the energy sum of the particles, ½·m·c²·Σv² by EnergySumScaled |
| PhysicalMetrics.CalculateAverageKineticEnergy | js/physics/physical-metrics.js:92-99 | null exactly for a missing or empty list; otherwise the total divided by N |
| PhysicalMetrics.CalculateEffectiveTemperature | js/physics/physical-metrics.js:12-48 | null exactly for a missing or empty list; otherwise ⟨E⟩/k |
| PhysicalMetrics.TemperatureOf | js/physics/physical-metrics.js:40-47 | the temperature of a total over n particles satisfies k·T·n = total |
| PhysicalMetrics.EffectiveTemperatureMatchesAverage | js/physics/physical-metrics.js:40-47 | the temperature and the average energy are null together, and k·T_eff = ⟨E⟩ |
| PhysicalMetrics.SimulatedMeanFreePath | js/physics/physical-metrics.js:106-113 | null exactly without a record or a number; finiteness kept; a finite path converted to metres |
| EnergyMetrics.KineticEnergyNonNegative | js/energy/metrics.js:10-19 | the energy ½·mass·Σ(vx²+vy²) is 0 for no bodies and never negative for a non-negative mass |
| EnergyMetrics.GetKineticEnergy | js/energy/metrics.js:10-19 | the loop's running sum of ½·mass·v² per body equals ½·mass·Σ(vx²+vy²); a non-array counts as no bodies and the mass defaults to 1 |
| EnergyMetrics.RescaleFactor | js/energy/metrics.js:29-39 | the factor is 1 without conservation or with a non-positive mass; otherwise √(mOld/mNew) after defaulting |
| EnergyMetrics.EqualMassesFactorOne | js/energy/metrics.js:32-39 | switching to the same gas leaves the factor at 1 |
| EnergyMetrics.ScaleBodyVelocity | js/energy/metrics.js:40-48 | both components are multiplied by f, and the velocity record keeps its form |
| EnergyMetrics.ScaleBodySpeed | js/energy/metrics.js:41-42 | the squared speed is multiplied by f² |
| EnergyMetrics.ScaleAll | js/energy/metrics.js:40-48 | scaling keeps the number of bodies |
| EnergyMetrics.ScaleAllElements | js/energy/metrics.js:40-48 | the i-th result is the i-th body scaled, in order |
| EnergyMetrics.SumSpeedSquaredScaled | js/energy/metrics.js:40-48 | scaling all velocities by f scales Σv² by f² |
| EnergyMetrics.KineticEnergyScaled | js/energy/metrics.js:40-48 | scaling all velocities by f scales the kinetic energy by f² |
| EnergyMetrics.RescaleConservesEnergy | js/energy/metrics.js:34-38 | with ff = f² and ff·mNew = mOld, mNew·Σ(scaled v²) = mOld·Σv²: the gas switch conserves kinetic energy |
| EnergyMetrics.ScaleByOneKeepsVelocities | js/energy/metrics.js:32-48 | the factor 1 leaves every velocity unchanged |
| EnergyMetrics.RescaleParticleVelocitiesForNewGas | js/energy/metrics.js:28-49 | the array holds every body scaled by the rescale factor, with conservation on by default |
| MetricsUtils.VrmsPx | js/energy/metrics-utils.js:16-32 | vrms ≥ 0 and vrms²·N = Σ(vx²+vy²) |
| MetricsUtils.CalculateSimulatedVrms | js/energy/metrics-utils.js:10-40 | null exactly for a missing or empty list; otherwise the pixel vrms converted to m/s |
| MetricsUtils.VrmsMatchesKineticEnergy | js/energy/metrics-utils.js:16-32 | vrms²·N = 2·E at unit mass |
| MetricsUtils.VrmsScaled | js/energy/metrics-utils.js:16-32 | scaling velocities by f ≥ 0 scales vrms by f |
| Thermostat.Moving | js/features/thermostat.js:27 | the moving bodies are at most all bodies |
| Thermostat.MovingEmptyIff | js/features/thermostat.js:27-28 | there are no moving bodies exactly when every body is static |
| Thermostat.ScaleWorld | js/features/thermostat.js:34-37 | the world keeps its number of bodies |
| Thermostat.ScaleWorldElements | js/features/thermostat.js:34-37 | each body is scaled if it moves and kept if it is static |
| Thermostat.MovingOfScaledWorld | js/features/thermostat.js:27-37 | the moving bodies of the scaled world are the moving bodies scaled, in order |
| Thermostat.FactorReachesTarget | js/features/thermostat.js:33 | f = √(target/E) gives f²·E = target |
| Thermostat.RescaleReachesTarget | js/features/thermostat.js:31-37 | after a rescale the moving bodies carry exactly the target energy |
| Thermostat.ThermostatPlugin.constructor | js/features/thermostat.js:8-24 | each option takes its configured value or its default; the last rescale time is 0 |
| Thermostat.ThermostatPlugin.RescaledEnergy | js/features/thermostat.js:26-39 | when the rescale applies the energy reaches the target; otherwise the world is unchanged |
| Thermostat.ThermostatPlugin.Applies | js/features/thermostat.js:27-34 | no contract of its own: the guards of `rescale` (moving bodies, enabled, a positive target, a positive energy); RescaledEnergy and Rescale state what happens when it holds and when it does not |
| Thermostat.ThermostatPlugin.Rescale | js/features/thermostat.js:26-39 | the world array becomes the rescaled world |
| Thermostat.ThermostatPlugin.AfterUpdate | js/features/thermostat.js:41-48 | once the interval has passed, the world is rescaled and the time recorded; before that nothing changes |
| Tracer.Cap | js/features/tracer.js:52 | the number kept under a cap is the largest whole number not above it |
| Tracer.PushCappedWindow | js/features/tracer.js:51-52 | push-then-shift on the window equals the window of the longer history |
| Tracer.FirstTracerPair | js/features/tracer.js:59-91 | the index is the first pair involving the traced body; None means no pair does |
| Tracer.TracerPlugin.constructor | js/features/tracer.js:4-31 | the options default to enabled, 200 and 1000; trail, samples and statistics are empty |
| Tracer.TracerPlugin.SetTracer | js/features/tracer.js:35-43 | the tracer and last collision position are set; trail, samples and statistics restart |
| Tracer.TracerPlugin.AfterUpdate | js/features/tracer.js:48-53 | while enabled with a tracer, the position joins the capped trail; nothing else changes |
| Tracer.TracerPlugin.CollisionStart | js/features/tracer.js:56-93 | only a pair with the tracer counts: the free path is recorded, count and total grow, the mean is total/count |
| Tracer.TracerPlugin.RecordFreePath | js/features/tracer.js:67-86 | the distance joins the capped window; count +1, total + d, mean = total/count |
| Tracer.TracerPlugin.PushSample | js/features/tracer.js:73-79 | the window becomes the push-then-shift of the new length under the cap; nothing else changes |
| Tracer.TracerPlugin.Accumulate | js/features/tracer.js:80-85 | one more collision, the length added to the total, and the mean the new total over the new count; the window and the trail are kept |
| Tracer.FirstPairIsFirst | js/features/tracer.js:60-62 | a matching index with no match before it is the one found |
| Tracer.FirstPairNone | js/features/tracer.js:60-62 | with no pair involving the tracer, nothing is found |
| Tracer.WindowsBounded | js/features/tracer.js:51-52 | the trail and the sample window never exceed their caps |
| Tracer.TotalDistanceNonNegative | js/features/tracer.js:81 | the total of non-negative free paths is non-negative |
| Tracer.DistanceNonNegative | js/features/tracer.js:68-70 | every free path length is non-negative |
| Tracer.WindowSumAtMostTotal | js/features/tracer.js:73-81 | the window's sum is at most the total distance |
| Histogram.BinCountOf | js/data/histogram.js:16-24 | 60 bins for a non-finite option; otherwise the option itself when `new Array` accepts it |
| Histogram.MaxSpeed | js/data/histogram.js:17-22 | the range is at least 10 px/frame |
| Histogram.BinSize | js/data/histogram.js:22-23 | the bin width is at least 10/n and positive |
| Histogram.BinIndex | js/data/histogram.js:26-31 | every particle lands in a bin below n |
| Histogram.BinHoldsSpeed | js/data/histogram.js:28-31 | below the top, bin k holds speeds in [k·size, (k+1)·size) |
| Histogram.FastParticlesInLastBin | js/data/histogram.js:29-31 | speeds at or beyond the top land in the last bin |
| Histogram.RestingParticleInFirstBin | js/data/histogram.js:25-30 | a body without velocity lands in bin 0 |
| Histogram.BinCountsSumToParticleCount | js/data/histogram.js:24-33 | the bins sum to the number of particles |
| Histogram.BinCountStep | js/data/histogram.js:25-33 | one more particle adds one to exactly its own bin |
| Histogram.CountBins | js/data/histogram.js:24-33 | the counting loop gives each bin the number of particles whose index is that bin |
| Histogram.GetSpeedDistributionHistogram | js/data/histogram.js:14-39 | no input or a bad bin count gives []; otherwise point i is at the bin centre, with the bin's count |
| Histogram.BinCentresEquallySpaced | js/data/histogram.js:34 | the centres start at half a bin and are one bin apart |
| Histogram.BinWidth | js/data/histogram.js:56-60 | the width is non-negative, and 0 with fewer than two bins |
| Histogram.GetSmoothedHistogram | js/data/histogram.js:48-96 | [] exactly for no history or an empty newest frame; otherwise each bin's smoothed density |
| Histogram.FrameWeights | js/data/histogram.js:63-68 | weights[f] = α(1−α)^(frames−1−f), and their sum |
| Histogram.SmoothCounts | js/data/histogram.js:70-78 | each bin is the normalised-weight sum of its counts over all frames |
| Histogram.DensityPoints | js/data/histogram.js:81-91 | one point per bin of the newest frame, at its x, whose y is the smoothed count over N·binWidth, or 0 when that denominator is not positive |
| Histogram.AddFrame | js/data/histogram.js:74-77 | every bin gains w times the frame's count |
| Histogram.DensityZeroWithoutNormaliser | js/data/histogram.js:80-86 | with no particles or fewer than two bins every density is 0 |
| Histogram.NormWeightPrefix | js/data/histogram.js:63-73 | a prefix of normalised weights sums to its share of the raw sum |
| Histogram.NormWeightsSumToOne | js/data/histogram.js:63-73 | the normalised weights sum to 1 when the raw sum is positive |
| Histogram.WeightSumPositive | js/data/histogram.js:63-73 | for 0 < α ≤ 1 (the default 0.3 among them) and at least one frame the raw sum is positive and the normalised weights sum to 1 |
| Histogram.WeightsIncrease | js/data/histogram.js:65-66 | for 0 < α < 1 newer frames weigh strictly more |
| Histogram.IdenticalFramesPrefix | js/data/histogram.js:71-78 | frames agreeing on a bin smooth to the count times the weight share |
| Histogram.IdenticalFramesSmoothToFrame | js/data/histogram.js:71-78 | identical frames smooth to their common count |
| HistogramUtils.FirstArgMax | js/data/histogram-utils.js:17-22 | the index found has maximal height, and is the first such index |
| HistogramUtils.CalculateSimulatedVp | js/data/histogram-utils.js:10-30 | null exactly for no data; otherwise the x of the first highest point, in m/s |
| HistogramUtils.PositiveTotal | js/data/histogram-utils.js:45-50 | the total of the positive heights is non-negative |
| HistogramUtils.PositiveTotalIff | js/data/histogram-utils.js:45-54 | the total is positive exactly when some height is positive |
| HistogramUtils.HeightAtMostTotal | js/data/histogram-utils.js:58-62 | each positive height is at most the total, so p ∈ (0, 1] |
| HistogramUtils.CalculateDistributionEntropy | js/data/histogram-utils.js:38-75 | null exactly for no data; otherwise the normalised entropy |
| HistogramUtils.NoPositiveHeightZeroEntropy | js/data/histogram-utils.js:52-54 | without a positive height the entropy is 0 |
| HistogramUtils.SinglePointZeroEntropy | js/data/histogram-utils.js:66-70 | a single point has entropy 0 |
| HistogramUtils.PositiveTotalAppend | js/data/histogram-utils.js:45-50 | the total is additive over concatenation |
| HistogramUtils.EntropySumAppend | js/data/histogram-utils.js:57-64 | the entropy sum is additive over concatenation |
| HistogramUtils.NonPositivePointIgnored | js/data/histogram-utils.js:46-64 | a point of height ≤ 0 changes neither the total nor the entropy sum |
| HistogramUtils.EntropyTermNonNegative | js/data/histogram-utils.js:61-62 | each −p·ln p term is non-negative |
| HistogramUtils.EntropySumNonNegative | js/data/histogram-utils.js:57-64 | the entropy sum is non-negative |
| HistogramUtils.EntropyNonNegative | js/data/histogram-utils.js:56-70 | the normalised entropy is never negative |
| State.MergeInto | js/state.js:77-89 | the keys are the union; untouched keys keep their values; non-object patch values overwrite |
| State.MergeValue | js/state.js:80-86 | a non-object patch value wins; an object patch gives an object that keeps the target's array-ness |
| State.DeepMerge | js/state.js:77-78 | a source that is not an object leaves the state unchanged |
| State.MergeIntoEmpty | js/state.js:79-87 | merging a patch into nothing gives the patch back |
| State.MergeValueFresh | js/state.js:81-83 | a value merged onto a missing key is the value itself |
| State.ObjectPatchReplacesScalar | js/state.js:81-83 | an object patch replaces a non-object target value with a copy of itself |
| State.MergeIntoIdempotent | js/state.js:77-89 | merging the same patch twice equals merging it once |
| State.MergeValueIdempotent | js/state.js:80-86 | per key, the merge is idempotent |
| State.MakeEntry | js/state.js:49-54 | an entry has the timestamp, event and value keys plus the extra data, and the extra keys win |
| State.LogArray.constructor | js/state.js:12 | the shared log starts empty |
| State.WindowSize | js/state.js:108-111 | the kept count is ⌊limit⌋ capped at n, and never above n |
| State.NegativeLimitNeverStops | js/state.js:109-111 | with a negative limit the shift loop never ends, for any number of rounds |
| State.NonNegativeLimitStops | js/state.js:109-111 | with a limit ≥ 0 the loop stops with the window size |
| State.Store.constructor | js/state.js:5-45 | a fresh page: the module's mode is the default while `window.currentAppMode` stays undefined; an empty shared log aliased by the state, empty history and default keys |
| State.Store.SetAppMode | js/state.js:6-9 | both copies of the mode take the new value (the window copy becomes defined); nothing else changes |
| State.Store.LogOperation | js/state.js:48-70 | as written: when the state's log is the shared log, the entry is appended twice |
| State.Store.LogOperationOnce | js/state.js:48-70 | corrected: the shared log gains exactly the entry, once |
| State.Store.GetOperationLogs | js/state.js:72-74 | a fresh array holding the log's entries |
| State.Store.UpdateState | js/state.js:91-101 | the patch, or {} when missing, is deep-merged into the state |
| State.Store.AppendHistogramFrame | js/state.js:104-119 | the history becomes the newest WindowSize frames of the old history plus the frame |
| State.FreshPageLogsTwice | js/state.js:40-61 | on a fresh page one call records two identical entries |
| State.FreshPageLogsOnce | js/state.js:56-61 | with the corrected push one call records one entry |
| State.HistoryWindow | js/state.js:104-111 | the window is a suffix within the limit, and ends with the new frame when the limit is ≥ 1 |
| Simulation.ResolvedInside | js/simulation.js:80-100 | after the wall rule the particle lies between the walls |
| Simulation.ResolvedKeepsMagnitude | js/simulation.js:84-99 | a wall hit changes only the sign of the velocity component |
| Simulation.ResolvedPointsInward | js/simulation.js:84-99 | after a hit the component points back into the box; without a hit nothing changes |
| Simulation.MapTemperatureToSpeed | js/simulation.js:243-251 | the speed lies in [0.5, 4] and is clamped at the ends of [200 K, 600 K] |
| Simulation.MapTemperatureMonotone | js/simulation.js:243-251 | a warmer gas never gets a lower speed |
| Simulation.SpeedStd | js/simulation.js:229-230 | the standard deviation is positive |
| Simulation.Particle.GetSpeed | js/simulation.js:117-119 | no contract of its own (it only computes √(vx²+vy²)); SpeedIs and SpeedOfEqualSquares state its relation to the squared length |
| Simulation.SpeedIs | js/simulation.js:117-119 | the speed is the root of the known squared length |
| Simulation.SpeedOfEqualSquares | js/simulation.js:117-119 | velocities with equal squared lengths have equal speeds |
| Simulation.MaxwellVelocity | js/simulation.js:221-236 | no contract of its own (the Box–Muller pair times mapTemperatureToSpeed/√2, with u1 unguarded); MaxwellVelocitySquared states its squared speed |
| Simulation.MaxwellVelocitySquared | js/simulation.js:221-236 | the squared speed is −2·ln(u1)·σ² |
| Simulation.ScaledSpeed | js/simulation.js:125-130 | scaling a velocity by c ≥ 0 scales its speed by c |
| Simulation.RatioReachesSpeed | js/simulation.js:126-130 | rescaling by speed/current gives exactly the requested speed |
| Simulation.PolarReachesSpeed | js/simulation.js:132-135 | a polar velocity of magnitude s has speed s |
| Simulation.Particle.constructor | js/simulation.js:58-64 | the particle has the given position and velocity and the fixed radius |
| Simulation.Particle.HandleWallCollisions | js/simulation.js:80-100 | the wall rule is applied along x and along y; the radius is kept |
| Simulation.Particle.Update | js/simulation.js:69-75 | one step by the velocity, then the walls |
| Simulation.Particle.SetSpeed | js/simulation.js:125-137 | a moving particle is rescaled and one at rest gets a drawn direction; the new speed is the requested one |
| Simulation.WallsKeepSpeed | js/simulation.js:80-100 | a wall hit preserves the particle's speed |
| Simulation.SpawnInsideSafeRegion | js/simulation.js:196-204 | a draw in [0, 1) places the coordinate inside the safe region |
| Simulation.Spawn | js/simulation.js:202-210 | a fresh particle built from its draws |
| Simulation.CreateCount | js/simulation.js:201 | the count is capped at the maximum and equals a non-negative request below it |
| Simulation.SpliceKeep | js/simulation.js:283 | a non-negative target keeps exactly that many |
| Simulation.SimulationState.constructor | js/simulation.js:9-16 | stopped, with no particles and no pending frame |
| Simulation.SimulationState.StartSimulation | js/simulation.js:392-399 | a no-op while running; otherwise running from now with the frame requested |
| Simulation.SimulationState.PauseSimulation | js/simulation.js:404-414 | a no-op while stopped; otherwise stopped, with a pending frame cancelled |
| Simulation.SimulationState.CreateParticles | js/simulation.js:179-214 | without both sliders nothing changes; otherwise the capped count of freshly spawned particles |
| Simulation.SimulationState.UpdateParticleCount | js/simulation.js:256-285 | a larger target appends spawned particles; a smaller one keeps a prefix |
| Simulation.ShrinkKeepsPrefix | js/simulation.js:281-284 | shrinking keeps exactly the first target particles |
| Distributions.NonZeroDraw | js/physics/distributions.js:13 | a draw in [0, 1] becomes one in (0, 1]; 0 is replaced by 1e-12 |
| Distributions.Defaulted | js/physics/distributions.js:7-10 | the result is finite: the input or its default |
| Distributions.GeneratorVpIsPhysicsVp | js/physics/distributions.js:7-11 | the generators' vp equals the physics module's vp |
| Distributions.PixelSpeed | js/physics/distributions.js:11 | vp in px/frame is non-negative |
| Distributions.MaxwellStd | js/physics/distributions.js:17 | the standard deviation is non-negative |
| Distributions.RootTwo | js/physics/distributions.js:17 | √2 is positive |
| Distributions.PolarMagnitude | js/physics/distributions.js:29 | a polar velocity of magnitude s ≥ 0 has length s |
| Distributions.MaxwellVelocity | js/physics/distributions.js:6-19 | no contract of its own (the Box–Muller pair times the pixel vp/√2); MaxwellSquaredLength and MaxwellDependsOnVpOnly state its squared speed and what it depends on |
| Distributions.SingleSpeedVelocity | js/physics/distributions.js:22-30 | no contract of its own (speed scale·vp at angle 2πu); SingleSpeedMagnitude and SingleSpeedDependsOnVpOnly state its magnitude and what it depends on |
| Distributions.DualSpeedVelocity | js/physics/distributions.js:33-43 | no contract of its own (the slow or fast cluster at angle 2πu); DualSpeedMagnitude, DualSpeedsScaleSingle and DualSpeedDependsOnVpOnly state its magnitude and what it depends on |
| Distributions.MaxwellSquaredLength | js/physics/distributions.js:13-18 | the squared speed is −2·ln(u1')·std², with u1' ∈ (0, 1] |
| Distributions.SingleSpeedMagnitude | js/physics/distributions.js:22-30 | every single-speed velocity has magnitude scale·vp |
| Distributions.DualSpeedsScaleSingle | js/physics/distributions.js:38-39 | the two clusters are 0.6 and 1.6 times the single speed |
| Distributions.DualSpeedMagnitude | js/physics/distributions.js:33-43 | the magnitude is the slow speed for pick < 0.5 and the fast one otherwise |
| Distributions.NonFiniteInputsDefault | js/physics/distributions.js:7-10 | a non-finite temperature or molar mass acts as 300 K or 28.0134 g/mol |
| Distributions.MaxwellDependsOnVpOnly | js/physics/distributions.js:6-19 | equal vp with equal draws gives equal Maxwell velocities |
| Distributions.SingleSpeedDependsOnVpOnly | js/physics/distributions.js:22-30 | equal vp with equal draws gives equal single-speed velocities |
| Distributions.DualSpeedDependsOnVpOnly | js/physics/distributions.js:33-43 | equal vp with equal draws gives equal dual-speed velocities |
| Factory.CreateWalls | js/bodies/factory.js:7-17 | four static walls named top, bottom, left and right |
| Factory.WallsFrameTheBox | js/bodies/factory.js:9-14 | the walls' inner faces are the box border and they are one thickness wide |
| Factory.SpawnCoordInRange | js/bodies/factory.js:22-23 | a draw in [0, 1) gives a coordinate in [r, r + span) |
| Factory.LoopCount | js/bodies/factory.js:21 | the loop runs the least n ≥ 0 with n ≥ count |
| Factory.LoopCountOfWholeNumber | js/bodies/factory.js:21 | a whole count gives exactly that many |
| Factory.CreateParticles | js/bodies/factory.js:19-36 | LoopCount particles, the i-th spawned from the i-th draws |
| Factory.SpawnParticle | js/bodies/factory.js:22-33 | no contract of its own (the circle at the drawn position with the dispatched velocity); SpawnedParticleShape states its shape and placement |
| Factory.DispatchVelocity | js/bodies/factory.js:26-31 | no contract of its own (the `switch` on the distribution, maxwell by default); SpawnedSpeed states the speed of each case |
| Factory.SpawnedParticleShape | js/bodies/factory.js:22-24 | a spawned body is elastic, frictionless and placed inside the box |
| Factory.SpawnedSpeed | js/bodies/factory.js:26-31 | the speed is scale·vp for single, a cluster speed for dual, a Maxwell draw otherwise |
| SpeedChart.ChartMoleculeMass | js/chart.js:197-200 | a positive molar mass gives a positive molecule mass |
| SpeedChart.ChartSpeedsMatchPhysics | js/chart.js:36-50 | the chart's vp and vrms equal the physics module's |
| SpeedChart.MaxwellZeroAtRest | js/chart.js:195-209 | f(0) = 0 |
| SpeedChart.MaxwellNonNegative | js/chart.js:195-209 | f ≥ 0, and f > 0 at every non-zero speed |
| SpeedChart.YAxisMax | js/chart.js:79 | the y-axis maximum is positive |
| SpeedChart.GridEnds | js/chart.js:221-229 | the grid runs from 0 to 4·vp |
| SpeedChart.GridEquallySpaced | js/chart.js:225-229 | consecutive grid speeds are one step apart |
| SpeedChart.GridNonDecreasing | js/chart.js:225-229 | for T ≥ 0 the grid is non-negative and non-decreasing |
| SpeedChart.GenerateTheoreticalData | js/chart.js:217-235 | 201 points, the i-th at grid speed i with density f |
| SpeedChart.CurveShape | js/chart.js:228-231 | every density is non-negative and the first point is (0, 0) |
| SpeedChart.Chart.constructor | js/chart.js:9 | no chart yet, with empty curves |
| SpeedChart.Chart.InitSpeedDistributionChart | js/chart.js:58-186 | with a canvas and the library, an empty chart (both curves empty); otherwise nothing |
| SpeedChart.Chart.UpdateSpeedDistributionChart | js/chart.js:243-259 | only the live curve is replaced, and only once the chart exists |
| SpeedChart.Chart.SaveCurrentCurve | js/chart.js:273-285 | the snapshot becomes the live curve, once the chart exists |
| SpeedChart.SnapshotSurvivesUpdate | js/chart.js:273-285 | a saved curve keeps its points after the live curve changes |
| MfpCharts.TheoryParameters | js/mfp-charts.js:112-117 | each falsy field takes its default, truthy ones are kept; the area is the canvas's or the default |
| MfpCharts.TheoryMarker | js/mfp-charts.js:112-118 | the theoretical marker is the pixel mean free path of the defaulted count, radius and area when those are finite and the area non-zero, and 0 otherwise |
| MfpCharts.DefaultTheoryMarker | js/mfp-charts.js:112-118 | with no state fields and no canvas, the marker is the path of 300 particles of radius 5 in an area of 100000 |
| MfpCharts.TheoryMarkerSelectsBin | js/mfp-charts.js:137-139 | with a positive count, radius and area the marker is positive and always selects a bin |
| MfpCharts.MaxLength | js/mfp-charts.js:125 | the maximum is at least 100, bounds every sample and is 100 or a sample |
| MfpCharts.NumBins | js/mfp-charts.js:126 | at least ten bins, and every sample lies below the top bin edge |
| MfpCharts.BinIndexInRange | js/mfp-charts.js:129 | a non-negative sample selects a bin whose range holds it |
| MfpCharts.NegativeSampleHasNoBin | js/mfp-charts.js:129-130 | a negative sample selects no bin |
| MfpCharts.BinCount | js/mfp-charts.js:127-131 | a bin count is at most the number of samples |
| MfpCharts.Bins | js/mfp-charts.js:127-131 | there is one count per bin |
| MfpCharts.BinsSumToCount | js/mfp-charts.js:127-131 | the bins sum to the number of non-negative samples |
| MfpCharts.BinsSumToWindowSize | js/mfp-charts.js:123-131 | with no negative sample the bins sum to the window size |
| MfpCharts.CountBins | js/mfp-charts.js:127-131 | the counting loop gives exactly the bins |
| MfpCharts.BinLabels | js/mfp-charts.js:132 | one label per bin, the i-th being "10i-10(i+1)" |
| MfpCharts.BinLabelsDistinct | js/mfp-charts.js:132 | no two bins share a label |
| MfpCharts.MarkerIndex | js/mfp-charts.js:139-140 | a marker index is a bin; a non-negative finite x has one; +∞ marks the last bin |
| MfpCharts.YMax | js/mfp-charts.js:136 | the maximum is at least 5, bounds every bar and is 5 or a bar |
| MfpCharts.ToMeters | js/mfp-charts.js:107-109 | the conversion keeps finiteness |
| MfpCharts.MFPCharts.constructor | js/mfp-charts.js:7-10 | no charts; the last collision count is −1 and the sample count 0 |
| MfpCharts.MFPCharts.InitMFPCharts | js/mfp-charts.js:11-98 | each existing canvas gets an empty chart; other charts are kept |
| MfpCharts.MFPCharts.RecomputeDistribution | js/mfp-charts.js:121-145 | labels, counts and markers are those of the newest 500 samples |
| MfpCharts.MFPCharts.RecordConvergence | js/mfp-charts.js:151-156 | corrected: the point joins the history and the chart shows the history |
| MfpCharts.MFPCharts.RecordConvergenceAsWritten | js/mfp-charts.js:151-156 | as written: the count is recorded, but the chart stays empty and the history unchanged |
| MfpCharts.MFPCharts.UpdateMFPCharts | js/mfp-charts.js:101-159 | corrected: without both charts nothing changes; new samples recompute the distribution, with the theoretical marker at TheoryMarker of the state and canvas; a new collision count appends a point to the history the chart shows |
| MfpCharts.MFPCharts.UpdateMFPChartsAsWritten | js/mfp-charts.js:101-159 | as written: the same, with the same theoretical marker, except that a new collision count leaves the convergence chart empty and the history unchanged |
| MfpCharts.MFPCharts.RefreshDistribution | js/mfp-charts.js:121-147 | the distribution is recomputed exactly when there are samples and their number changed |
| MfpCharts.MFPCharts.ResetMFPCharts | js/mfp-charts.js:161-176 | the existing charts are emptied and the history cleared |
| MfpCharts.ConvergenceAfterFirstCollision | js/mfp-charts.js:151-156 | after one collision the as-written chart shows 0 points and the corrected one 1 |
| Exporter.Format | js/data/exporter.js:59-69 | a non-finite value gives '--'; a finite one is formatted by its type |
| Exporter.UnknownFormatIsString | js/data/exporter.js:67 | an unknown type gives String(value) |
| Exporter.Escape | js/data/exporter.js:36 | escaping never shortens a field |
| Exporter.QuoteRoundTrip | js/data/exporter.js:36 | stripping the quotes and un-doubling gives back the field, whatever follows |
| Exporter.QuoteInjective | js/data/exporter.js:36 | different fields are quoted differently |
| Exporter.RowRoundTrip | js/data/exporter.js:35-38 | a data line reads back as its fields |
| Exporter.RowsRoundTrip | js/data/exporter.js:34-38 | all data lines read back as the rows, in order |
| Exporter.IndicatorRows | js/data/exporter.js:21-32 | ten rows of four present fields |
| Exporter.BuildCsv | js/data/exporter.js:34-38 | the loop builds the header line followed by the rows' lines |
| Exporter.ExportIndicatorsToCsv | js/data/exporter.js:5-57 | no data source or no data gives nothing; otherwise the CSV of the ten rows |
| Exporter.ExportReadsBack | js/data/exporter.js:20-38 | the exported document is the header plus ten lines that read back as the rows |
| FlowManager.StateForCompletion | js/flow-manager.js:86-97 | the view keeps the raw keys, takes the step objects from stepCompletion and makes feedbackSubmitted a boolean |
| FlowManager.ConditionMet | js/flow-manager.js:110-118 | no condition is met; a throwing condition is not; otherwise its value |
| FlowManager.TutorialSteps | js/flow-manager.js:10-83 | six steps with ids 1 to 6 |
| FlowManager.StepPredicates | js/flow-manager.js:49-71 | steps 1, 2 and 6 are always met; steps 3 to 5 need their flags and submitted feedback |
| FlowManager.NextButton.constructor | js/flow-manager.js:102 | the button starts shown and enabled |
| FlowManager.CheckAndUnlockNextButton | js/flow-manager.js:100-124 | no button: false; the last step hides it; otherwise shown, and disabled exactly when the condition fails |
| FlowManager.WholeIndicesNameSteps | js/flow-manager.js:101-109 | every whole index below the last names a step |
| FlowManager.AdvanceStep | js/flow-manager.js:127-149 | the reset patch is deep-merged into the state; nothing else changes |
| FlowManager.AdvanceResetsFlags | js/flow-manager.js:131-138 | after the reset, every flag the conditions read is false |
| FlowManager.ViewFeedback | js/flow-manager.js:94 | the view's feedback flag is the raw flag's truthiness |
| FlowManager.NoFeedbackLocks | js/flow-manager.js:49-71 | without feedback, no step with a condition is complete |
| FlowManager.AdvanceLocksConditionalSteps | js/flow-manager.js:127-149 | right after advancing, every step with a condition stays locked |
| MainFlow.LessThan | js/main.js:1087-1107 | undefined exactly for a NaN operand that is not a pair of strings |
| MainFlow.RelationalComparisons | js/main.js:1087-1107 | without NaN, < and >= are complements, as are > and <=; with NaN all four are false |
| MainFlow.FiniteComparisons | js/main.js:1087-1107 | on finite numbers the comparisons are those of the reals |
| MainFlow.ApproxProperties | js/main.js:1099 | the approximate equality is symmetric, reflexive on finite numbers and false with a non-finite operand |
| MainFlow.TutorialSteps | js/main.js:89-171 | six steps; the first and last have no condition, the middle four do; the last enables all |
| MainFlow.ControlConditionMet | js/main.js:1076-1111 | defined exactly for a known operator |
| MainFlow.CompletionDecision | js/main.js:1024-1111 | undefined exactly without a step condition, a missing control or an unknown operator |
| MainFlow.SaveButtonTable | js/main.js:1036-1056 | each operator on the click count against a finite target, an unknown one behaving as >= |
| MainFlow.EqualityRule | js/main.js:1094-1100 | equality holds for the same string, or approximately for numbers |
| MainFlow.TutorialConditions | js/main.js:108-153 | steps 2 and 4 need exactly one save, step 3 the slider and step 5 the gas selector; steps 1 and 6 decide nothing |
| MainFlow.SetAll | js/main.js:982-987 | setting flags keeps the set of elements |
| MainFlow.ControlStates | js/main.js:967-1019 | no contract of its own (the three passes of `updateControlStates` over the flags); ControlStatesRule states the rule element by element |
| MainFlow.ControlStatesRule | js/main.js:967-1019 | save and reset are enabled; another input is enabled exactly when listed or when 'all' is given |
| MainFlow.TutorialPage.constructor | js/main.js:317-339 | step 0 is loaded with no clicks, and the next button is shown and enabled |
| MainFlow.TutorialPage.SetDisabled | js/main.js:982-995 | one pass sets each listed element; nothing else changes |
| MainFlow.TutorialPage.UpdateControlStates | js/main.js:967-1019 | the flags become ControlStates; nothing else changes |
| MainFlow.TutorialPage.LoadStep | js/main.js:931-961 | an out-of-range index changes nothing; otherwise the step is shown, its controls set, clicks reset and next locked when conditional |
| MainFlow.TutorialPage.EnterFinalExplorationPhase | js/main.js:486-496 | the last step is shown and the next button hidden |
| MainFlow.TutorialPage.ClickNext | js/main.js:325-335 | the index moves on by one, and a step that exists is loaded |
| MainFlow.TutorialPage.CheckCompletion | js/main.js:1024-1120 | a decided condition sets the next button to its negation; otherwise nothing changes |
| MainFlow.TutorialPage.ClickSaveCurve | js/main.js:344-365 | when the chart can save, one more click, then the completion check |
| MainFlow.SaveTwiceRelocks | js/main.js:1036-1066 | on step 2 the button is locked after loading, unlocked after one save and locked again after two |
| EventHandler.ModePatches | js/event-handler.js:171-216 | each patch sets its mode and traced id and keeps every other key |
| EventHandler.ToggleCycle | js/event-handler.js:171-188 | inactive becomes selecting, any other mode becomes inactive |
| EventHandler.ClickRadius | js/event-handler.js:200 | the first non-zero radius of config, simulation and 5 |
| EventHandler.FindClicked | js/event-handler.js:201-205 | the index found is the first body hit; None means no body is hit |
| EventHandler.HitIsInsideDisc | js/event-handler.js:204 | a hit is exactly a click within the radius of the body's centre |
| EventHandler.TracedSim.constructor | js/event-handler.js:198-200 | the given particles and radius, with no traced particle and no tracer data |
| EventHandler.TracerUi.constructor | js/event-handler.js:124-161 | no overlay and the default cursor |
| EventHandler.HandleTraceToggle | js/event-handler.js:171-188 | the toggle patch is merged; from inactive the simulation pauses and the overlay shows |
| EventHandler.HandleCanvasClick | js/event-handler.js:192-221 | corrected (given a simulation state): only while selecting, the first body hit within its own radius or ClickRadius of the configured and state radii becomes traced, its statistics restart and the mode becomes active |
| EventHandler.HandleCanvasClickAsWritten | js/event-handler.js:198-199 | as written: the lookup finds no simulation state, so no click picks a body or changes anything |
| EventHandler.GuidanceTextId | js/event-handler.js:78-85 | steps 0 to 3 have a text area |
| EventHandler.FilledIff | js/event-handler.js:89-90 | filled means some character is not white space |
| EventHandler.GuidancePatch | js/event-handler.js:92-95 | steps 0 to 2 write a patch |
| EventHandler.HandleGuidanceInput | js/event-handler.js:88-105 | the step's text_filled is merged in for steps 0 to 2 (otherwise the state is unchanged), then the page's completion check runs |
| EventHandler.AttachGuidanceInputListeners | js/event-handler.js:76-118 | attached exactly when the step's text area exists; its initial state is then written and the completion check run |
| EventHandler.FillGuidance | js/event-handler.js:89-100 | for steps 0 to 2 the step's text_filled (non-empty trimmed text) is merged into the state; any other step leaves the state as it was; the app mode, histogram history and logs are untouched |
| EventHandler.UnlockNext | js/event-handler.js:248-250 | the next button takes the flags `checkAndUnlockNextButton` gives for the current step on the given state |
| EventHandler.CheckPage | js/event-handler.js:102-104 | the page's `checkCompletion` runs when it is defined, and only it |
| EventHandler.FeedbackUnlocksNext | js/event-handler.js:246-250 | once feedback is recorded the next button is enabled on steps 0, 1 and 4, hidden on the last, and on steps 2 and 3 enabled exactly when their flags are set |
| EventHandler.GuidanceKeepsOtherFlags | js/event-handler.js:93-95 | the input sets text_filled and keeps the step's other flags |
| EventHandler.CritiqueReply | js/event-handler.js:341-350 | the critique text, or the default, unavailable or network text |
| EventHandler.ChatSession.constructor | js/event-handler.js:10-11 | empty conversation and log, not thinking, ask enabled and submit disabled |
| EventHandler.RecordSend | js/event-handler.js:245-258 | the state records the feedback, then the step's text_filled for steps 0 to 2; the next button takes the flags `checkAndUnlockNextButton` gives on the state with the feedback, and the page's completion check runs |
| EventHandler.ChatSession.ShowQuestion | js/event-handler.js:236-262 | the question joins the shown log, the conversation and the question history; the state, the next button and the page are updated as RecordSend states; the input is cleared, asking disabled and the session thinking |
| EventHandler.ChatSession.BeginSendMessage | js/event-handler.js:226-265 | sent exactly with the elements, a non-empty trimmed text and no pending reply; the question joins the conversation and the question history; the state records the feedback, on which the next button is re-decided, then the filled text, after which the completion check runs. As written, the request ends with the question twice (`requestAsWritten`); corrected, it is built from the conversation before the question (`request`) |
| EventHandler.ChatSession.CompleteSendMessage | js/event-handler.js:264-276 | the reply, or an apology, is shown; thinking ends and asking is enabled |
| EventHandler.ChatSession.HandleConclusionSubmission | js/event-handler.js:315-363 | submitted exactly for a non-empty trimmed text; the conclusion and the critique reply are shown, a feedback entry for the step appended, the submit button restored, feedback recorded and the next button re-decided on that state |
| EventHandler.ChatSession.ShowConclusion | js/event-handler.js:321-360 | the conclusion and the critique reply are shown, a feedback entry for the step appended, the submit button restored, feedback recorded and the next button re-decided on that state; the page and the conversation are untouched |
| EventHandler.RecordConclusion | js/event-handler.js:355-360 | feedbackSubmitted is merged into the state, then the next button takes the flags `checkAndUnlockNextButton` gives on that new state; the tutorial page is untouched |
| EventHandler.SendMarksFeedback | js/event-handler.js:246-258 | sending sets feedbackSubmitted, and the step's text_filled for steps 0 to 2 |
| UiManager.LogText | js/ui-manager.js:12-30 | the time, " - ", then a text per event type; an unknown event shows its name and value |
| UiManager.LogTextShowsUnknownEvents | js/ui-manager.js:15-30 | save and reset ignore the value; an unknown event shows it |
| UiManager.LogPanel.constructor | js/ui-manager.js:6-7 | no items |
| UiManager.LogPanel.UpdateLogDisplay | js/ui-manager.js:5-37 | one item appended when the panel exists |
| UiManager.ClampedScore | js/ui-manager.js:162 | within [0, 10]; undefined exactly for NaN; an in-range number is kept |
| UiManager.FilledStars | js/ui-manager.js:163 | at most five, the rounding of s/2 |
| UiManager.RenderStars | js/ui-manager.js:161-166 | no contract of its own (filled then empty stars of the clamped score); FiveStars and StarsMonotone state its shape |
| UiManager.FiveStars | js/ui-manager.js:161-166 | a non-NaN score shows five stars, the filled ones first |
| UiManager.StarsMonotone | js/ui-manager.js:163 | a higher score never fills fewer stars; 0 fills none and 10 fills five |
| UiManager.TimeScaleShown | js/ui-manager.js:298-299 | the state's numeric time scale, or 1 |
| UiManager.InitialTimeScale | js/ui-manager.js:299 | the initial state shows 0.1 |
| UiManager.LockControlsState | js/ui-manager.js:415-472 | the set of elements is kept |
| UiManager.LockedExperiment | js/ui-manager.js:420-460 | locked: everything managed is disabled except the always-on controls and the evaluate button |
| UiManager.ListedControlsOnly | js/ui-manager.js:463-467 | unlocked: a managed control is enabled exactly when listed or always-on |
| UiManager.LockUIState | js/ui-manager.js:390-412 | the set of elements is kept |
| UiManager.LockUIRoundTrip | js/ui-manager.js:398-411 | locking disables the listed controls and unlocking enables them; other elements and always-on ones are untouched |
| UiManager.ControlPanel.constructor | js/ui-manager.js:398-400 | the flags are the page's |
| UiManager.ControlPanel.LockUI | js/ui-manager.js:390-412 | the flags become LockUIState |
| UiManager.ControlPanel.LockControls | js/ui-manager.js:415-472 | the flags become LockControlsState for the state's lock and the final-step test |
| UiManager.ControlPanel.LockOne | js/ui-manager.js:434-467 | one id of the loop: when the element is on the page its flag becomes the decision for it (always-on, evaluate button, 'all', or listed); every other flag is unchanged |
| ApiClient.RequestMessages | js/api.js:7-19 | the system prompt, the last ten history messages, then the question |
| ApiClient.QuestionSentTwice | js/event-handler.js:237-265 | as written, the request ends with the question twice |
| ApiClient.SendRequestIsConversationTail | js/api.js:15-19 | corrected: the system prompt plus the last eleven messages, ending with the question once |
| ApiClient.AiReply | js/api.js:4-63 | a reply is shown as it is, an `AbortError` as the timeout text, and a response that is not ok is never shown as a timeout |
| ApiClient.ErrorReply | js/api.js:48-61 | tested in order: a timeout, a failed fetch, a message with "401", one with "429", each with its fixed text; anything else is the prefix plus the message |
| ApiClient.StatusInMessage | js/api.js:39-43 | the error of a failed response names its status code |
| ApiClient.UnauthorizedIsKeyText | js/api.js:39-56 | a 401 response shows the invalid-key text |
| ApiClient.TooManyRequestsIsRateText | js/api.js:39-58 | a 429 response shows the rate-limit text unless its body mentions a failed fetch or a 401 |
| ApiClient.OtherFailuresShowMessage | js/api.js:51-61 | other failures show their own message after the prefix |
| SubmitConclusion.CountEvent | api/submit-conclusion.js:26-29 | 0 exactly when no entry has the event; the length exactly when all entries do |
| SubmitConclusion.CountEventAppend | api/submit-conclusion.js:26-29 | appending adds one to the count of its own event only |
| SubmitConclusion.CategoriesWithinTotal | api/submit-conclusion.js:24-30 | the four category counts together never exceed the total |
| SubmitConclusion.Summarize | api/submit-conclusion.js:24-30 | the total is the log's length, and each category is its event count |
| SubmitConclusion.LogEntries | api/submit-conclusion.js:23-29 | a falsy log is []; an array log is used, and a null entry makes the filter throw |
| SubmitConclusion.Submit | api/submit-conclusion.js:4-61 | 405 exactly for a method other than POST, 400 without a conclusion, 500 when the summary throws; otherwise a report whose log is the request's `operationLog || []`, whose summary counts that log, with the experiment type and timestamp or their defaults and the id from the clock |
| SubmitConclusion.SummaryValue | api/submit-conclusion.js:24-30 | no contract of its own (the `operationSummary` object with its five counts); Respond states that its total is the reported operation count |
| SubmitConclusion.Respond | api/submit-conclusion.js:4-61 | status 405/400/500/200 per outcome, and an accepted report answers with its id and summary |
| SubmitConclusion.HandlerStatus | api/submit-conclusion.js:6-15 | the status follows from the request alone |
| SubmitConclusion.SummaryExample | api/submit-conclusion.js:24-30 | one entry of each kind counts once each, and an unknown entry counts only in the total |
| Critique.BodyValue | api/critique-step-conclusion.js:15 | a parsed body is kept or defaults to {}; an empty text is {} |
| Critique.StepOf | api/critique-step-conclusion.js:24-35 | steps 1 to 4 by number or string; anything else names no step |
| Critique.ReadBody | api/critique-step-conclusion.js:15-19 | fails exactly when parsing throws or the body is null; otherwise the two fields |
| Critique.IsInvalidInput | api/critique-step-conclusion.js:40-44 | no contract of its own (the three tests of `isInvalidInput`); PerfunctoryBeyondLength and InvalidInputExamples state which texts it rejects |
| Critique.PerfunctoryBeyondLength | api/critique-step-conclusion.js:40-44 | invalid exactly for length ≤ 2, a short ASCII alphanumeric run, or "已完成" |
| Critique.InvalidInputExamples | api/critique-step-conclusion.js:39-44 | "ok", "abc", "123456" and "已完成" are rejected; real conclusions are not |
| Critique.ReplyAsksAgainIff | api/critique-step-conclusion.js:121-126 | the fourth test (`/请重新提交/`) is subsumed by the second (`/重新提交/`) |
| Critique.OfflineCritique | api/critique-step-conclusion.js:58 | no contract of its own (the offline prefix, the step hint and the suffix); LocalAnswersAskAgain and OfflineHintIsStepHint state that it asks again and carries the step's hint |
| Critique.LocalAnswersAskAgain | api/critique-step-conclusion.js:38-59 | the fixed and offline answers both read as asking to resubmit |
| Critique.ReplyVerdict | api/critique-step-conclusion.js:118-128 | the invalid flag is the reply's asks-again test; a falsy content gives "" |
| Critique.Judge | api/critique-step-conclusion.js:4-132 | method, body, fields, step, input and key checks in order, each answer exactly on its condition; past them, a service error carries the model's status and text, a thrown call its message, and a reply its text with the asks-again flag ("" and not invalid for an empty reply; a non-string content is a server error) |
| Critique.NoModelCallBeforeKeyCheck | api/critique-step-conclusion.js:40-60 | local and offline answers do not depend on the model |
| Critique.OfflineHintIsStepHint | api/critique-step-conclusion.js:51-58 | an offline critique uses the step's own hint |
| Critique.Respond | api/critique-step-conclusion.js:4-132 | each verdict gets its status, the Allow header on 405 and its critique and invalid fields |

## Left out

- The Matter.js engine is not part of this model: stepping, collision detection and
  resolution, and `addBodies`. The plug-ins and handlers react to given tick and collision
  events, and the bodies they see are parameters. Bodies in arrays lose aliasing between
  bodies.
- Floating point:
  - square root, logarithm, exponential, sine, cosine and π are abstract functions, known
    only by their laws;
  - IEEE rounding is not modelled;
  - `toFixed`, `toExponential`, `String(number)` and `toLocaleTimeString` are formatter
    parameters.
- `Math.random` draws are parameters. No claim is made about the distribution of the
  generated velocities beyond each draw's magnitude.
- Clocks (`performance.now`, `Date`) are parameters. These are left out:
  - `requestAnimationFrame` and `simulationLoop`;
  - `setTimeout` chains and the 500 ms delay;
  - async sequencing.
  The 30 s timeout appears only as the `AbortError` outcome.
- DOM, canvas and Chart.js presentation:
  - `render`, `drawWalls` and `Particle.draw`;
  - canvas sizing in `initParticleSimulation` (the box is a parameter);
  - chart options, modals, chat bubbles and the log floater;
  - the CSV Blob and download;
  - cursor, opacity and pointer-events styles;
  - the star markup.
- js/simulation.js: `updateParticleTemperature`, `resetSimulation`,
  `updateChartWithSimulationData` and `simulationLoop` are not modelled, because they are
  timing and drawing.
- `pixelsToMeters`, `pixelsPerFrameToMetersPerSecond` and `metersToPixels` are imported but
  not defined in js/physics.js. They are modelled as linear maps with positive factors,
  `metersToPixels` as the inverse of `pixelsToMeters`. As shipped, a named import of a
  missing export is an ES-module link error: js/physics/theoretical-values.js,
  js/physics/physical-metrics.js, js/mfp-charts.js, js/energy/metrics-utils.js and
  js/data/histogram-utils.js, and every module that imports them, never load. The model
  describes these modules as they would run once the conversions are defined.
- Division by zero and unphysical inputs (a negative temperature, a non-positive molar mass,
  a non-positive area) are excluded by preconditions of the formula functions. The mean free
  path needs only a non-zero count, radius and area.
- MfpCharts.MFPCharts.RecomputeDistribution: the write of the distribution into the state is
  not modelled.
- State.Store.UpdateState: the fallback to a bare `appState` object is not modelled.
- js/main.js:
  - not modelled: step titles and guidance HTML, the conclusion button's creation, console
    logging, and the `logOperation` call in the save handler;
  - the next button is assumed present when a step loads.
- js/event-handler.js:
  - not modelled: keypress routing, `handleFeedbackSubmission`, `handleEvaluationRequest`,
    `activateConclusionMode` and `initChatHandlers`;
  - the chat fetch is an outcome parameter;
  - the chat input and submit button are assumed present;
  - the click handler looks the simulation state up as `SimulationModule.state ||
    window.SimulationModule?.state`, and the program as written never supplies one (see
    Findings); the corrected handler takes that state as a parameter;
  - the next-step button is one element of the page, but FlowManager.NextButton and the
    flags of MainFlow.TutorialPage model it separately, so the model does not capture that
    after a send the later of the two checks decides its final state; likewise the step
    index the handlers are given is not tied to the page's `currentStepIndex`;
  - `resetTracerStats`, which is defined nowhere, is a no-op;
  - EventHandler.ChatSession: the question and feedback histories are fields of the chat
    session, not the `qaHistory` and `feedbackHistory` arrays of the store's state. The
    push onto the array `getState()` returns and the `updateState` that merges it back are
    not modelled, so the model does not capture that these histories live in, and are
    aliased with, the application state.
- js/ui-manager.js: the modals and `updateTheoreticalValues` (DOM copies) are not modelled.
- api/submit-conclusion.js:
  - console logging is left out;
  - a `null` body throws before the handler's `try`, so SubmitConclusion.Submit requires a
    POST body that is not `null` (any other method is answered 405 first);
  - the two reads of the clock are one `now`.
- api/critique-step-conclusion.js:
  - the prompt text and the model's HTTP call (an outcome parameter);
  - the environment's API key is a parameter;
  - `JSON.parse` of a text body is a parameter;
  - lengths count characters, while JavaScript counts UTF-16 code units: they differ only
    for characters outside the Basic Multilingual Plane.
- Critique.ReplyVerdict: a reply content that is an array (which has `includes`, and which
  the regular expressions read as its comma-joined text) is answered as a server error
  here, while the source answers 200 with it.
- MetricsUtils.CalculateSimulatedVrms: an entry that makes the loop throw (a `null`
  particle, say) makes the source's `try`/`catch` return null; the model's bodies are
  always records, so that path is not modelled.
- The other serverless endpoints (ask-ai, chat, evaluate-experiment, submit-feedback) are
  not part of this model.
- HistogramUtils.EntropyNonNegative: only the lower bound 0 of the documented [0, 1] range is
  proved, not the upper bound 1.

## Findings

| source | as written | input that shows it | evidently intended | confidence | as-written member | corrected member |
|---|---|---|---|---|---|---|
| js/state.js:40-61 | `logEntries` is the very array `window.operationLog`, and `logOperation` pushes onto both | any `logOperation` call on a freshly loaded page | each operation recorded once | not executed | State.Store.LogOperation, State.FreshPageLogsTwice | State.Store.LogOperationOnce, State.FreshPageLogsOnce |
| js/state.js:108-111 | `while (history.length > maxFrames) history.shift()` | `appendHistogramFrame(frame, -1)`: an empty history is still longer than −1 | keep at most max(0, maxFrames) frames and stop | not executed | State.NegativeLimitNeverStops | State.Store.AppendHistogramFrame, State.NonNegativeLimitStops, State.HistoryWindow |
| js/mfp-charts.js:151-156 | calls `window.State.appendMFPConvergencePoint`, which js/state.js:126-130 does not export; the TypeError is swallowed | the first collision after `initMFPCharts`, reachable only once js/physics.js exports the `metersToPixels` that js/mfp-charts.js:5 imports (until then the module does not load) | the convergence chart shows one point per new collision count | not executed | MfpCharts.MFPCharts.RecordConvergenceAsWritten, MfpCharts.MFPCharts.UpdateMFPChartsAsWritten, MfpCharts.ConvergenceAfterFirstCollision | MfpCharts.MFPCharts.RecordConvergence, MfpCharts.MFPCharts.UpdateMFPCharts |
| js/event-handler.js:237-265 | the question is pushed onto `chatHistory` before `getAiResponse` appends it again (js/api.js:15-19) | question "hi" with an empty history: the request is [system, user "hi", user "hi"] | the question sent once, after the history | not executed | ApiClient.QuestionSentTwice, EventHandler.ChatSession.BeginSendMessage (`requestAsWritten`) | ApiClient.SendRequestIsConversationTail, EventHandler.ChatSession.BeginSendMessage (`request`) |
| js/event-handler.js:198-199 | the click handler looks for `SimulationModule.state || window.SimulationModule?.state`; js/simulation.js exports nothing and its `window.SimulationModule` (js/simulation.js:428-436) has no `state` | any click on a particle while the mode is selecting: the handler returns, and the mode stays selecting | the clicked particle becomes traced and the mode active | not executed | EventHandler.HandleCanvasClickAsWritten | EventHandler.HandleCanvasClick |
