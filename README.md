# Dynamic spirogram: a verified model of the waveform and frame loop

`render.py` draws a one-minute teaching video of a spirogram: lung volume (mL)
against time over a fixed 30 s breathing cycle that is played twice. The
cycle runs through seven phases: quiet breathing (tidal1), a pause at FRC
(hold1), forced expiration down to RV (fexp), a pause at RV (hold2), forced
inspiration up to TLC (fins), a pause at TLC (hold3), and a return to FRC
followed by one more quiet breath (tidal2). Every frame draws the curve so far
and marks the current volume with a dot.

This project models the computational core of that script in Dafny:

- `volumes.dfy` (module `LungVolumes`): the base volumes TLC, RV, ERV and VT
  and the derived capacities FRC, IRV (clamped at zero), IC and VC. The values
  the script draws are the constant `Didactic`. `CoherentCapacities` and
  `IrvClampsInconsistentVolumes` hold for every choice of volumes;
  `DidacticCapacities` checks the drawn values.
- `timeline.dfy` (module `Timeline`): the seven phase durations (`FixedCycle`
  holds the script's values), the cycle length, and `PhaseInCycle`, the
  lookup of the phase and of the progress within it at time `tau`.
- `waveform.dfy` (module `Waveform`): the ease-out law, the raised-cosine
  step, quiet breathing, the per-phase volume law and `VolumeOfTau`.
- `frames.dfy` (module `Animation`): the frame loop. It covers the time of
  frame `i` within the cycle, `(i / FPS) mod T_CYCLE`, and the precomputed
  2400-sample curve. It also covers the mask `t_curve <= tau` that selects
  the part of the curve drawn so far, and the list of 1200 frames built by
  the loop.
- `realfacts.dfy` (module `RealFacts`): small facts about products and
  quotients of reals used by the proofs.

The cosine is a parameter `cos: real -> real`. It stands for
`a |-> cos(2 * pi * a)`, so angles are measured in whole turns. The model
uses only three facts about it (`Waveform.IsTurnCosine`):

- it lies in [-1, 1];
- it is 1 at every whole number of turns;
- it is -1 half a turn later.

Python's `t % T_CYCLE` on floats takes the sign of the divisor. It is modelled
as `t - m * floor(t / m)`. numpy's `linspace` and boolean-mask indexing are
modelled as `Animation.Linspace` and `Animation.Select`. The frame loop
requires a valid timing (every duration non-negative) with `t.Cycle() > 0.0`.
For a valid timing, a positive cycle is exactly the case in which
`t % T_CYCLE` does not raise an error.

One might expect each phase's volume law to start where the previous one
ends, but the code does not do this at one boundary. Hold1 holds FRC, and
forced expiration starts from FRC + VT (`render.py:95-101`), so the volume
steps up by VT there. The model follows the code.
`Waveform.BoundaryContinuity` proves that each phase's law ends where the
next one starts, except from hold1 to forced expiration, where the step is
exactly VT. It compares the laws at progress 1 and progress 0. It says
nothing about limits in time, since the abstract `cos` need not be
continuous.

## Model

| member | source | states |
|---|---|---|
| LungVolumes.Volumes.Frc | render.py:29 | definition of FRC = RV + ERV; its laws are in `CoherentCapacities` |
| LungVolumes.Volumes.Ic | render.py:31 | definition of IC = TLC - FRC; its laws are in `CoherentCapacities` |
| LungVolumes.Volumes.Vc | render.py:32 | definition of VC = TLC - RV; its laws are in `CoherentCapacities` |
| LungVolumes.Volumes.FexpTarget | render.py:49 | definition of FEXP_TARGET = RV; its laws are in `ForcedExpLaw`, `HoldsAreConstant` and `BoundaryContinuity` |
| LungVolumes.Volumes.FinsTarget | render.py:50 | definition of FINS_TARGET = TLC; its laws are in `ForcedInsLaw`, `HoldsAreConstant` and `BoundaryContinuity` |
| LungVolumes.Volumes.Irv | render.py:30-34 | IRV is TLC - (FRC + VT) clamped below at 0: never negative, never below the raw difference, and equal to one of the two |
| LungVolumes.CoherentCapacities | render.py:29-34 | coherent volumes are exactly the chart's ordering 0 <= RV <= FRC <= FRC + VT <= TLC; for them the IRV clamp does not fire, RV + ERV + VT + IRV = TLC, IC = VT + IRV, VC = ERV + VT + IRV and FRC + IC = TLC |
| LungVolumes.IrvClampsInconsistentVolumes | render.py:30-34 | when FRC + VT exceeds TLC, IRV is 0 rather than negative |
| LungVolumes.DidacticCapacities | render.py:24-50 | the drawn volumes are coherent, with FRC 2300, IC 3700, VC 4800, IRV 3200, and targets RV 1200 and TLC 6000 |
| Timeline.Index | render.py:61-80 | each phase has a position in the seven-phase order, and the order lists it there |
| Timeline.Next | render.py:61-80 | the phase after p is the next one in the order, and after tidal2 the order starts again with tidal1 |
| Timeline.Guarded | render.py:69 | max(d, 1e-9) is at least 1e-9 and at least d, and is one of the two |
| Timeline.Progress | render.py:69-80 | definition of elapsed / max(duration, 1e-9); its laws are in `ProgressInUnitInterval`, `PastCycleIsUnclampedTidal2` and `ProgressMonotone` |
| Timeline.Timing.Cycle | render.py:47 | definition of T_CYCLE as the sum of the seven durations; `StartsAreRunningSums` shows the last phase ends there |
| Timeline.StartsAreRunningSums | render.py:62-67 | the thresholds a..f are the running sums of the durations, each phase ends where the next starts, and the last phase ends at T_CYCLE |
| Timeline.PhasesInOrder | render.py:62-67 | with non-negative durations each phase ends no later than any later phase starts, and within the cycle |
| Timeline.PhaseInCycle | render.py:61-80 | the phase returned is tidal2 or ends after tau, every earlier phase ended at or before tau, and the progress is (tau - start) / max(duration, 1e-9) |
| Timeline.PartitionExact | render.py:61-80 | for tau in [0, T_CYCLE) the phase returned is exactly the one whose interval [start, end) contains tau, in both directions; a boundary time belongs to the later phase |
| Timeline.LookupInsidePhase | render.py:61-80 | a time inside a phase's interval is looked up as that phase |
| Timeline.ProgressInUnitInterval | render.py:68-80 | within the cycle the progress lies in [0, 1) |
| Timeline.PastCycleIsUnclampedTidal2 | render.py:80 | for non-negative durations with tidal2 lasting at least 1e-9, from T_CYCLE on the lookup returns tidal2 with progress at least 1 (it does not clamp) |
| Timeline.ProgressMonotone | render.py:68-80 | two times in the same phase have progress in the same order as the times |
| Timeline.FixedCycleBoundaries | render.py:39-47 | the fixed cycle lasts 30 s with phase starts at 12, 13, 19, 20, 26 and 27 s |
| Waveform.Clip | render.py:58 | np.clip to [0, 1]: within [0, 1], the identity inside it, 0 below and 1 above |
| Waveform.Ease | render.py:56-59 | the ease-out law lies in [0, 1], is 0 at or below 0, 1 at or above 1, and never behind the straight line clip(x) |
| Waveform.EaseMonotone | render.py:56-59 | the ease-out law is non-decreasing |
| Waveform.Smoothstep | render.py:52-54 | the raised-cosine step lies in [0, 1], is 0 at or below 0 and 1 at or above 1 |
| Waveform.Lerp | render.py:99-101 | definition of v0 + (target - v0) * k; its laws are in `LerpEnds`, `LerpDownward`, `LerpUpward`, `LerpWithinDown` and `LerpWithinUp` |
| Waveform.TidalVolume | render.py:82-87 | for VT >= 0, a quiet breath stays within [FRC, FRC + VT], never dipping into the expiratory reserve |
| Waveform.TidalVolumeAtTurns | render.py:86-87 | a quiet breath is at FRC after every whole breath and at FRC + VT half a breath later |
| Waveform.VolumeIn | render.py:92-121 | definition of the dispatch on the phase; its laws are in `VolumeInBounds`, `Tidal1Law`, `HoldsAreConstant`, `ForcedExpLaw`, `ForcedInsLaw`, `ReturnFirstHalf`, `ReturnSecondHalf` and `BoundaryContinuity` |
| Waveform.VolumeOfTau | render.py:89-123 | definition of the law of the looked-up phase at the looked-up progress; its laws are in `VolumeOfTauBounds`, `ForcedExpOverTime`, `ForcedInsOverTime` and `DidacticKeyVolumes` |
| Waveform.VolumeInBounds | render.py:89-121 | with coherent volumes every phase law stays within [RV, TLC] at any progress |
| Waveform.VolumeOfTauBounds | render.py:89-123 | with coherent volumes the curve stays within [RV, TLC], hence non-negative, at every time |
| Waveform.Tidal1Law | render.py:92-93 | the first quiet-breathing phase starts and ends at FRC and reaches FRC + VT at 1/6 of the phase |
| Waveform.HoldsAreConstant | render.py:95-112 | the three pauses hold FRC, RV and TLC at any progress |
| Waveform.ForcedExpLaw | render.py:98-101 | forced expiration starts at FRC + VT, is non-increasing in progress, stays within [RV, FRC + VT] and sits at RV from progress 1 on |
| Waveform.ForcedInsLaw | render.py:106-109 | forced inspiration starts at RV, is non-decreasing in progress, stays within [RV, TLC] and sits at TLC from progress 1 on |
| Waveform.ReturnFirstHalf | render.py:114-118 | the first half of tidal2 starts at TLC, is non-increasing, stays within [FRC, TLC], never lies above the straight line from TLC at 0 to FRC at 0.5, and its law reaches FRC at 0.5 |
| Waveform.ReturnSecondHalf | render.py:119-121 | the second half of tidal2 is one quiet breath from FRC up to FRC + VT and back to FRC |
| Waveform.BoundaryContinuity | render.py:92-121 | each phase's law at progress 1 equals the next phase's law at progress 0 (tidal2 against tidal1) if and only if the boundary is not hold1 to fexp or VT is 0; from hold1 to fexp the law steps up by exactly VT |
| Waveform.ForcedExpOverTime | render.py:89-101 | over the forced-expiration interval the volume never rises as time goes on |
| Waveform.ForcedInsOverTime | render.py:89-109 | over the forced-inspiration interval the volume never falls as time goes on |
| Waveform.DidacticKeyVolumes | render.py:89-104 | with the drawn values the curve is at FRC = 2300 mL at 0 s and at RV = 1200 mL at 19 s, the start of the pause at RV |
| Animation.CycleOf | render.py:176 | the number of elapsed cycles k brackets the time: m * k <= t < m * (k + 1) |
| Animation.FloorMod | render.py:176 | t % m for m > 0 lies in [0, m) and differs from t by a whole number of periods |
| Animation.FloorModLaws | render.py:176 | a time already in [0, m) is its own remainder, and adding one period leaves the remainder unchanged |
| Animation.FrameTime | render.py:175 | the wall-clock time of frame i is non-negative, and FPS times it gives back i |
| Animation.FrameTau | render.py:175-176 | the time in the cycle of every frame lies in [0, T_CYCLE) |
| Animation.FrameTauWithinRepetition | render.py:174-176 | within one repetition of the cycle, a later frame's time in the cycle is later by exactly the wall-clock difference |
| Animation.FixedCycleFrameTau | render.py:174-176 | with the script's values frame i shows (i mod 600) / 20 s into the cycle |
| Animation.Step | render.py:129 | the spacing of n >= 2 samples times n - 1 is hi - lo, and it is non-negative for an increasing range |
| Animation.Linspace | render.py:129 | linspace(lo, hi, n) has n samples; its shape is in `LinspaceShape` |
| Animation.LinspaceShape | render.py:129 | linspace samples of an increasing range are sorted, start at lo, end at hi (for two or more samples) and stay within [lo, hi] |
| Animation.Select | render.py:180-182 | the mask selection keeps one entry per sample time at or before tau |
| Animation.CountMonotone | render.py:180 | a later time never selects fewer samples |
| Animation.SortedMaskIsPrefix | render.py:180-182 | over sorted sample times the mask selects exactly a prefix: the first n samples are at or before tau and all later ones after it |
| Animation.CurveTimes | render.py:128-129 | the curve has 2400 sample times |
| Animation.CurveVolumes | render.py:130 | the curve holds, for each of the 2400 sample times, the volume at that time |
| Animation.Snapshot | render.py:177-183 | for a time tau in [0, T_CYCLE) with a valid timing, what is drawn shows tau and the phase whose interval contains it; the drawn times and volumes are the first n samples of the curve, exactly those at or before tau, never empty; the dot is the curve's value at tau, and with coherent volumes it lies within [RV, TLC] |
| Animation.FrameAt | render.py:174-183 | frame i shows a time in [0, T_CYCLE) that differs from its wall-clock time by a whole number of cycles; its contents are what `Snapshot` promises at that time |
| Animation.DrawnCurveGrows | render.py:174-182 | within one repetition of the cycle a later frame draws at least as much curve, and the earlier drawn times and volumes are prefixes of the later ones |
| Animation.FixedCycleReplays | render.py:172-176 | with the script's values frame i + 600 is identical to frame i, so the minute plays the cycle twice |
| Animation.FixedCycleWrap | render.py:174-182 | at the wrap from frame 599 to 600 the time in the cycle drops from 29.95 s to 0 and the drawn curve restarts from its first sample alone |
| Animation.Animate | render.py:172-183 | the loop produces 1200 frames, frame i being FrameAt(i), each with its time in [0, T_CYCLE) |

## Left out

- Drawing (`render.py:145-307`): axes, reference lines, labels, arrows and colours. The model stops at what each frame shows: the time, the phase, the volume and the drawn part of the curve.
- The plotting backend setup, the video writer and file output with its closing message (`render.py:1-2`, `render.py:163-170`, `render.py:308-311`).
- `PHASE_LABEL` (`render.py:132-140`): captions only. The model keeps the phase itself.
- Floating point: all arithmetic is over the reals. Rounding in `linspace`, in `i / FPS` and in `%` is not modelled. For example, the exact value 29.95 at frame 599 would not be exact in binary floating point.
- `np.cos`: it is the parameter `cos`, constrained only by `IsTurnCosine`. No other property of the cosine is used.
- `Waveform.Smoothstep`: defined in `render.py:52-54` but never called by the script. It is modelled for completeness only.
- The final `return FRC` of `volume_of_tau` (`render.py:123`) is unreachable: `phase_in_cycle` always returns one of the seven phase names. The model's `match` over `Phase` has no such case.
- Animation.Animate: a timing with a negative duration, or with a zero or negative cycle, is not modelled. Python's `%` still returns a value for a negative cycle, and raises an error only for a zero one. The model requires every duration to be non-negative and the cycle to be positive.
- Animation.FrameAt: requires a valid timing with a positive cycle, for the same reason as `Animate`.
- Animation.Snapshot: requires a valid timing and a time inside the cycle. The frame loop always passes such a time.
- `Animation.Animate`: the 1200 frames are returned as a list instead of being drawn one after another, and the figure that the loop clears and redraws in place is not modelled.
