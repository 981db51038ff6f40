/** The animation: a minute of frames, each showing the time reached in the
    breathing cycle, the current phase and volume, and the part of the
    precomputed curve drawn so far. */
module Animation {

  import opened RealFacts
  import opened LungVolumes
  import opened Timeline
  import opened Waveform

  /** Frames per second of the video. */
  const Fps: nat := 20

  /** Length of the video in seconds. */
  const DurationS: nat := 60

  /** Number of frames rendered: 1200. */
  const TotalFrames: nat := DurationS * Fps

  /** Number of samples of the precomputed cycle curve. */
  const CurvePoints: nat := 2400

  // ---------------------------------------------------------------
  // Time of a frame within the cycle
  // ---------------------------------------------------------------

  /** The bracketing of a real by consecutive multiples of `m` pins the
      multiple down. */
  lemma FloorBracket(t: real, m: real, k: int)
    requires m > 0.0 && (k as real) <= t / m < ((k + 1) as real)
    ensures m * (k as real) <= t < m * ((k + 1) as real)
  {
    QuotientTimesDivisor(t, m);
    ScaleMonotone(m, k as real, t / m);
    ScaleStrict(m, t / m, (k + 1) as real);
  }

  /** Number of whole cycles of length `m` elapsed at time `t`:
      floor(t / m). */
  function CycleOf(t: real, m: real): (k: int)
    requires m > 0.0
    ensures m * (k as real) <= t < m * ((k + 1) as real)
  {
    FloorBracket(t, m, (t / m).Floor);
    (t / m).Floor
  }

  /** Only one multiple of `m` brackets a given time. */
  lemma {:induction false} CycleUnique(t: real, m: real, k1: int, k2: int)
    requires m > 0.0
    requires m * (k1 as real) <= t < m * ((k1 + 1) as real)
    requires m * (k2 as real) <= t < m * ((k2 + 1) as real)
    ensures k1 == k2
  {
    if k1 < k2 {
      ScaleMonotone(m, (k1 + 1) as real, k2 as real);
    } else if k2 < k1 {
      ScaleMonotone(m, (k2 + 1) as real, k1 as real);
    }
  }

  /** Python's `t % m` for a positive modulus: the remainder takes the sign
      of the divisor, so it lies in [0, m). */
  function FloorMod(t: real, m: real): (r: real)
    requires m > 0.0
    ensures 0.0 <= r < m
    ensures t - r == m * (CycleOf(t, m) as real)
  {
    t - m * (CycleOf(t, m) as real)
  }

  /** A time already inside [0, m) is its own remainder, and adding one
      period does not change the remainder. */
  lemma FloorModLaws(t: real, m: real)
    requires m > 0.0
    ensures 0.0 <= t < m ==> FloorMod(t, m) == t
    ensures FloorMod(t + m, m) == FloorMod(t, m)
  {
    if 0.0 <= t < m {
      CycleUnique(t, m, CycleOf(t, m), 0);
    }
    var k := CycleOf(t, m);
    assert m * ((k + 1) as real) == m * (k as real) + m;
    assert m * ((k + 2) as real) == m * ((k + 1) as real) + m;
    CycleUnique(t + m, m, CycleOf(t + m, m), k + 1);
  }

  /** Wall-clock time of frame `i`: i / FPS seconds, so FPS frames make
      one second. */
  function FrameTime(i: nat): (s: real)
    ensures 0.0 <= s && s * (Fps as real) == i as real
  {
    (i as real) / (Fps as real)
  }

  /** Time into the cycle shown by frame `i`: (i / FPS) mod cycle length. */
  function FrameTau(t: Timing, i: nat): (tau: real)
    requires t.Cycle() > 0.0
    ensures 0.0 <= tau < t.Cycle()
  {
    FloorMod(FrameTime(i), t.Cycle())
  }

  /** Between two frames of the same cycle repetition, the later frame shows
      a time no earlier in the cycle, advanced by exactly the wall-clock
      difference. */
  lemma FrameTauWithinRepetition(t: Timing, i: nat, j: nat)
    requires t.Cycle() > 0.0 && i <= j
    requires CycleOf(FrameTime(i), t.Cycle()) == CycleOf(FrameTime(j), t.Cycle())
    ensures FrameTau(t, j) - FrameTau(t, i) == FrameTime(j) - FrameTime(i)
    ensures FrameTau(t, i) <= FrameTau(t, j)
  {
  }

  /** With the 30 s cycle at 20 frames per second, frame `i` shows
      (i mod 600) / 20 s into the cycle. */
  lemma FixedCycleFrameTau(i: nat)
    ensures FixedCycle.Cycle() == 30.0
    ensures FrameTau(FixedCycle, i) == ((i % 600) as real) / 20.0
  {
    FixedCycleBoundaries();
    var k := i / 600;
    var r := i % 600;
    var time := FrameTime(i);
    assert (i as real) == 600.0 * (k as real) + (r as real);
    assert time == 30.0 * (k as real) + (r as real) / 20.0;
    assert 30.0 * (k as real) <= time < 30.0 * ((k + 1) as real);
    CycleUnique(time, 30.0, CycleOf(time, 30.0), k);
  }

  // ---------------------------------------------------------------
  // The precomputed curve and the mask of samples drawn so far
  // ---------------------------------------------------------------

  /** A sequence of times in non-decreasing order. */
  predicate Sorted(xs: seq<real>) {
    forall i, j :: 0 <= i <= j < |xs| ==> xs[i] <= xs[j]
  }

  /** Spacing of `n` evenly spaced samples from `lo` to `hi`; a single
      sample (or none) has no spacing. */
  function Step(lo: real, hi: real, n: nat): (d: real)
    ensures lo <= hi ==> 0.0 <= d
    ensures n >= 2 ==> d * ((n - 1) as real) == hi - lo
  {
    if n <= 1 then 0.0 else (hi - lo) / ((n - 1) as real)
  }

  /** numpy's `linspace(lo, hi, n)`: `n` evenly spaced samples, the first at
      `lo` and, when there are at least two, the last at `hi`. */
  function Linspace(lo: real, hi: real, n: nat): (xs: seq<real>)
    ensures |xs| == n
  {
    seq(n, j => lo + Step(lo, hi, n) * (j as real))
  }

  /** The samples of an increasing range are sorted, start at `lo`, end at
      `hi` and stay within [lo, hi]. */
  lemma LinspaceShape(lo: real, hi: real, n: nat)
    requires lo <= hi
    ensures Sorted(Linspace(lo, hi, n))
    ensures n >= 1 ==> Linspace(lo, hi, n)[0] == lo
    ensures n >= 2 ==> Linspace(lo, hi, n)[n - 1] == hi
    ensures forall j :: 0 <= j < n ==> lo <= Linspace(lo, hi, n)[j] <= hi
  {
    var xs := Linspace(lo, hi, n);
    var step := Step(lo, hi, n);
    assert 0.0 <= step;
    forall i, j | 0 <= i <= j < n
      ensures xs[i] <= xs[j]
    {
      assert xs[i] == lo + step * (i as real) && xs[j] == lo + step * (j as real);
      ScaleMonotone(step, i as real, j as real);
    }
    if n >= 1 {
      assert xs[0] == lo + step * 0.0;
    }
    if n >= 2 {
      assert xs[n - 1] == lo + step * ((n - 1) as real);
    }
  }

  /** Number of samples at or before `tau`: the number of `true`s in the
      mask `xs <= tau`. */
  function CountAtMost(xs: seq<real>, tau: real): (n: nat)
    ensures n <= |xs|
  {
    if xs == [] then 0
    else (if xs[0] <= tau then 1 else 0) + CountAtMost(xs[1..], tau)
  }

  /** numpy's boolean indexing `ys[xs <= tau]`: the entries of `ys` whose
      matching sample time is at or before `tau`, in their original order. */
  function Select<T>(ys: seq<T>, xs: seq<real>, tau: real): (r: seq<T>)
    requires |ys| == |xs|
    ensures |r| == CountAtMost(xs, tau)
  {
    if xs == [] then []
    else (if xs[0] <= tau then [ys[0]] else []) + Select(ys[1..], xs[1..], tau)
  }

  /** A later time never masks fewer samples. */
  lemma {:induction false} CountMonotone(xs: seq<real>, tau1: real, tau2: real)
    requires tau1 <= tau2
    ensures CountAtMost(xs, tau1) <= CountAtMost(xs, tau2)
  {
    if xs != [] {
      CountMonotone(xs[1..], tau1, tau2);
    }
  }

  /** Over sorted sample times the mask `xs <= tau` keeps a prefix: the
      selection is the first `n` entries, where the first `n` sample times
      are at or before `tau` and all later ones are after it. */
  lemma {:induction false} SortedMaskIsPrefix<T>(ys: seq<T>, xs: seq<real>, tau: real)
    requires |ys| == |xs| && Sorted(xs)
    ensures Select(ys, xs, tau) == ys[..CountAtMost(xs, tau)]
    ensures forall j :: 0 <= j < CountAtMost(xs, tau) ==> xs[j] <= tau
    ensures forall j :: CountAtMost(xs, tau) <= j < |xs| ==> tau < xs[j]
  {
    if xs != [] {
      var rest := xs[1..];
      var n' := CountAtMost(rest, tau);
      assert Sorted(rest);
      SortedMaskIsPrefix(ys[1..], rest, tau);
      if xs[0] <= tau {
        assert [ys[0]] + ys[1..][..n'] == ys[..n' + 1];
      } else {
        assert forall j :: 0 <= j < |rest| ==> tau < rest[j];
        assert n' == 0;
      }
    }
  }

  /** Sample times of the cycle curve: 2400 points from 0 to the cycle
      length. */
  function CurveTimes(t: Timing): (xs: seq<real>)
    ensures |xs| == CurvePoints
  {
    Linspace(0.0, t.Cycle(), CurvePoints)
  }

  /** The volume at each sample time of the cycle curve. */
  function CurveVolumes(v: Volumes, t: Timing, cos: real -> real): (ys: seq<real>)
    requires IsTurnCosine(cos)
    ensures |ys| == CurvePoints
    ensures forall j :: 0 <= j < CurvePoints ==> ys[j] == VolumeOfTau(v, t, cos, CurveTimes(t)[j])
  {
    var times := CurveTimes(t);
    seq(CurvePoints, j requires 0 <= j < CurvePoints => VolumeOfTau(v, t, cos, times[j]))
  }

  // ---------------------------------------------------------------
  // Frames
  // ---------------------------------------------------------------

  /** What one frame shows: the time in the cycle, the phase named in the
      caption, the volume marked by the moving dot, and the curve drawn up
      to that time. */
  datatype Frame = Frame(tau: real, phase: Phase, volume: real,
                         shownTimes: seq<real>, shownVolumes: seq<real>)

  /** What is drawn at time `tau` into the cycle: the phase whose interval
      contains `tau`; the part of the precomputed curve drawn so far, which
      is a prefix of it holding exactly the samples at or before `tau` (never
      empty, since the first sample is at 0); and the dot, which coherent
      volumes keep between RV and TLC. */
  function Snapshot(v: Volumes, t: Timing, cos: real -> real, tau: real): (f: Frame)
    requires IsTurnCosine(cos) && t.Valid() && 0.0 <= tau < t.Cycle()
    ensures var n := CountAtMost(CurveTimes(t), tau);
            && f.tau == tau
            && t.Contains(f.phase, tau)
            && 1 <= n
            && f.shownTimes == CurveTimes(t)[..n]
            && f.shownVolumes == CurveVolumes(v, t, cos)[..n]
            && (forall j :: 0 <= j < n ==> f.shownTimes[j] <= tau)
            && (forall j :: n <= j < CurvePoints ==> tau < CurveTimes(t)[j])
            && f.volume == VolumeOfTau(v, t, cos, tau)
            && (v.Coherent() ==> v.rv <= f.volume <= v.tlc)
  {
    var times := CurveTimes(t);
    var volumes := CurveVolumes(v, t, cos);
    var phase := PhaseInCycle(t, tau).0;
    LinspaceShape(0.0, t.Cycle(), CurvePoints);
    SortedMaskIsPrefix(times, times, tau);
    SortedMaskIsPrefix(volumes, times, tau);
    PartitionExact(t, tau, phase);
    assert v.Coherent() ==> v.rv <= VolumeOfTau(v, t, cos, tau) <= v.tlc by {
      if v.Coherent() {
        VolumeOfTauBounds(v, t, cos, tau);
      }
    }
    Frame(tau, phase, VolumeOfTau(v, t, cos, tau),
          Select(times, times, tau), Select(volumes, times, tau))
  }

  /** The contents of frame `i`: what is drawn at its wall-clock time less
      a whole number of cycles, which lies inside the cycle. */
  function FrameAt(v: Volumes, t: Timing, cos: real -> real, i: nat): (f: Frame)
    requires IsTurnCosine(cos) && t.Valid() && t.Cycle() > 0.0
    ensures 0.0 <= f.tau < t.Cycle()
    ensures FrameTime(i) - f.tau == t.Cycle() * (CycleOf(FrameTime(i), t.Cycle()) as real)
  {
    Snapshot(v, t, cos, FrameTau(t, i))
  }

  /** Within one repetition of the cycle the drawn curve only grows: an
      earlier frame's drawn curve is a prefix of a later frame's. */
  lemma DrawnCurveGrows(v: Volumes, t: Timing, cos: real -> real, i: nat, j: nat)
    requires IsTurnCosine(cos) && t.Valid() && t.Cycle() > 0.0 && i <= j
    requires CycleOf(FrameTime(i), t.Cycle()) == CycleOf(FrameTime(j), t.Cycle())
    ensures |FrameAt(v, t, cos, i).shownTimes| <= |FrameAt(v, t, cos, j).shownTimes|
    ensures FrameAt(v, t, cos, i).shownTimes <= FrameAt(v, t, cos, j).shownTimes
    ensures FrameAt(v, t, cos, i).shownVolumes <= FrameAt(v, t, cos, j).shownVolumes
  {
    FrameTauWithinRepetition(t, i, j);
    CountMonotone(CurveTimes(t), FrameTau(t, i), FrameTau(t, j));
  }

  /** With the drawn timing the minute holds the cycle twice: frame i + 600
      is identical to frame i. */
  lemma FixedCycleReplays(v: Volumes, cos: real -> real, i: nat)
    requires IsTurnCosine(cos) && i < 600
    ensures FixedCycle.Valid() && FixedCycle.Cycle() > 0.0
    ensures FrameAt(v, FixedCycle, cos, i + 600) == FrameAt(v, FixedCycle, cos, i)
  {
    FixedCycleBoundaries();
    FixedCycleFrameTau(i);
    FixedCycleFrameTau(i + 600);
    assert i % 600 == i && (i + 600) % 600 == i;
    assert FrameTau(FixedCycle, i + 600) == FrameTau(FixedCycle, i);
  }

  /** At the wrap from frame 599 to frame 600 the time in the cycle drops
      from 29.95 s back to 0 and the drawn curve restarts from its first
      sample alone. */
  lemma FixedCycleWrap(v: Volumes, cos: real -> real)
    requires IsTurnCosine(cos)
    ensures FixedCycle.Valid() && FixedCycle.Cycle() > 0.0
    ensures FrameAt(v, FixedCycle, cos, 599).tau == 29.95
    ensures FrameAt(v, FixedCycle, cos, 600).tau == 0.0
    ensures |FrameAt(v, FixedCycle, cos, 600).shownTimes| == 1
    ensures |FrameAt(v, FixedCycle, cos, 599).shownTimes| > 1
  {
    FixedCycleFrameTau(599);
    FixedCycleFrameTau(600);
    FixedCycleBoundaries();
    var times := CurveTimes(FixedCycle);
    LinspaceShape(0.0, 30.0, CurvePoints);
    SortedMaskIsPrefix(times, times, 0.0);
    SortedMaskIsPrefix(times, times, 29.95);
    assert times[1] == 30.0 / 2399.0;
  }

  /** Frame `i` is assembled from the phase, the volume and the two masked
      curves at its time into the cycle. */
  lemma FrameAtUnfolds(v: Volumes, t: Timing, cos: real -> real, i: nat)
    requires IsTurnCosine(cos) && t.Valid() && t.Cycle() > 0.0
    ensures var tau := FloorMod(FrameTime(i), t.Cycle());
            FrameAt(v, t, cos, i)
              == Frame(tau, PhaseInCycle(t, tau).0, VolumeOfTau(v, t, cos, tau),
                       Select(CurveTimes(t), CurveTimes(t), tau),
                       Select(CurveVolumes(v, t, cos), CurveTimes(t), tau))
  {
  }

  /** The render loop: for each of the 1200 frames, compute the wall-clock
      time, the time into the cycle, the phase, the mask of curve samples
      drawn so far and the current volume. */
  method Animate(v: Volumes, t: Timing, cos: real -> real) returns (frames: seq<Frame>)
    requires IsTurnCosine(cos) && t.Valid() && t.Cycle() > 0.0
    ensures |frames| == TotalFrames
    ensures forall i :: 0 <= i < |frames| ==> frames[i] == FrameAt(v, t, cos, i)
    ensures forall i :: 0 <= i < |frames| ==> 0.0 <= frames[i].tau < t.Cycle()
  {
    var times := CurveTimes(t);
    var volumes := CurveVolumes(v, t, cos);
    frames := [];
    var i := 0;
    while i < TotalFrames
      invariant 0 <= i <= TotalFrames && |frames| == i
      invariant forall k :: 0 <= k < i ==> frames[k] == FrameAt(v, t, cos, k)
    {
      var now := FrameTime(i);
      var tau := FloorMod(now, t.Cycle());
      var (ph, _) := PhaseInCycle(t, tau);
      var shownTimes := Select(times, times, tau);
      var shownVolumes := Select(volumes, times, tau);
      var volume := VolumeOfTau(v, t, cos, tau);
      FrameAtUnfolds(v, t, cos, i);
      frames := frames + [Frame(tau, ph, volume, shownTimes, shownVolumes)];
      i := i + 1;
    }
  }
}
