/** The volume-over-time law of the spirogram: quiet breaths, pauses, the two
    forced manoeuvres and the return to FRC, each a function of the progress
    through its phase. */
module Waveform {

  import opened RealFacts
  import opened LungVolumes
  import opened Timeline

  /** A whole number of turns, as an angle. */
  function Turns(n: nat): real { n as real }

  /** Half a turn past a whole number of turns. */
  function HalfTurns(n: nat): real { n as real + 0.5 }

  /** `cos` stands for the cosine of an angle measured in turns,
      a |-> cos(2 * pi * a). The model relies only on these facts about it:
      it stays within [-1, 1], is 1 at every whole turn and -1 half a turn on. */
  ghost predicate IsTurnCosine(cos: real -> real) {
    && (forall a :: -1.0 <= cos(a) <= 1.0)
    && (forall n: nat :: cos(Turns(n)) == 1.0)
    && (forall n: nat :: cos(HalfTurns(n)) == -1.0)
  }

  /** x clipped to [0, 1]. */
  function Clip(x: real): (r: real)
    ensures 0.0 <= r <= 1.0
    ensures 0.0 <= x <= 1.0 ==> r == x
    ensures x < 0.0 ==> r == 0.0
    ensures x > 1.0 ==> r == 1.0
  {
    if x < 0.0 then 0.0 else if x > 1.0 then 1.0 else x
  }

  /** The ease-out law 1 - (1 - x)^2 on x clipped to [0, 1]: it runs from 0
      to 1, fast at first and slowing down, so it is never behind the
      straight line x. */
  function Ease(x: real): (r: real)
    ensures 0.0 <= r <= 1.0
    ensures x <= 0.0 ==> r == 0.0
    ensures x >= 1.0 ==> r == 1.0
    ensures Clip(x) <= r
  {
    var z := 1.0 - Clip(x);
    SquareOfUnit(z);
    assert Clip(x) <= 1.0 - z * z <= 1.0;
    assert x <= 0.0 ==> z * z == 1.0;
    assert x >= 1.0 ==> z * z == 0.0;
    1.0 - z * z
  }

  /** The ease-out law never goes back. */
  lemma EaseMonotone(x1: real, x2: real)
    requires x1 <= x2
    ensures Ease(x1) <= Ease(x2)
  {
    SquareMonotone(1.0 - Clip(x2), 1.0 - Clip(x1));
  }

  /** Raised-cosine step 0.5 - 0.5 * cos(pi * x) on x clipped to [0, 1]
      (the angle pi * x is x / 2 turns). */
  function Smoothstep(cos: real -> real, x: real): (r: real)
    requires IsTurnCosine(cos)
    ensures 0.0 <= r <= 1.0
    ensures x <= 0.0 ==> r == 0.0
    ensures x >= 1.0 ==> r == 1.0
  {
    assert cos(Turns(0)) == 1.0 && cos(HalfTurns(0)) == -1.0;
    0.5 - 0.5 * cos(Clip(x) / 2.0)
  }

  /** Straight interpolation from `a` (at k = 0) to `b` (at k = 1). */
  function Lerp(a: real, b: real, k: real): real {
    a + (b - a) * k
  }

  /** Interpolation starts at `a` and ends at `b`. */
  lemma LerpEnds(a: real, b: real)
    ensures Lerp(a, b, 0.0) == a && Lerp(a, b, 1.0) == b
  {
  }

  /** Interpolating towards a lower target goes down as k grows. */
  lemma LerpDownward(a: real, b: real, k1: real, k2: real)
    requires b <= a && k1 <= k2
    ensures Lerp(a, b, k2) <= Lerp(a, b, k1)
  {
  }

  /** Interpolating towards a higher target goes up as k grows. */
  lemma LerpUpward(a: real, b: real, k1: real, k2: real)
    requires a <= b && k1 <= k2
    ensures Lerp(a, b, k1) <= Lerp(a, b, k2)
  {
  }

  /** Interpolation towards a lower target stays between the two. */
  lemma LerpWithinDown(a: real, b: real, k: real)
    requires 0.0 <= k <= 1.0 && b <= a
    ensures b <= Lerp(a, b, k) <= a
  {
    LerpEnds(a, b);
    LerpDownward(a, b, 0.0, k);
    LerpDownward(a, b, k, 1.0);
  }

  /** Interpolation towards a higher target stays between the two. */
  lemma LerpWithinUp(a: real, b: real, k: real)
    requires 0.0 <= k <= 1.0 && a <= b
    ensures a <= Lerp(a, b, k) <= b
  {
    LerpEnds(a, b);
    LerpUpward(a, b, 0.0, k);
    LerpUpward(a, b, k, 1.0);
  }

  /** Quiet breathing: `breaths` raised-cosine breaths over the phase, each
      from FRC up to FRC + VT and back, never dipping into the expiratory
      reserve. */
  function TidalVolume(v: Volumes, cos: real -> real, xlocal: real, breaths: real): (r: real)
    requires IsTurnCosine(cos)
    ensures v.vt >= 0.0 ==> v.Frc() <= r <= v.Frc() + v.vt
  {
    var c := cos(breaths * xlocal);
    var half := v.vt / 2.0;
    assert v.vt >= 0.0 ==> v.Frc() <= v.Frc() + half * (1.0 - c) <= v.Frc() + v.vt by {
      if v.vt >= 0.0 {
        assert half + half == v.vt;
        RaisedCosineBand(v.Frc(), half, c);
      }
    }
    v.Frc() + half * (1.0 - c)
  }

  /** A quiet breath is at FRC after every whole breath and at FRC + VT half
      a breath later. */
  lemma TidalVolumeAtTurns(v: Volumes, cos: real -> real, xlocal: real, breaths: real, n: nat)
    requires IsTurnCosine(cos)
    ensures breaths * xlocal == Turns(n) ==> TidalVolume(v, cos, xlocal, breaths) == v.Frc()
    ensures breaths * xlocal == HalfTurns(n) ==> TidalVolume(v, cos, xlocal, breaths) == v.Frc() + v.vt
  {
    assert cos(Turns(n)) == 1.0 && cos(HalfTurns(n)) == -1.0;
  }

  /** Breaths in the first quiet-breathing phase and in the second half of
      the return phase. */
  const Tidal1Breaths: real := 3.0
  const Tidal2Breaths: real := 1.0

  /** The volume at progress `x` through phase `ph`. */
  function VolumeIn(v: Volumes, cos: real -> real, ph: Phase, x: real): real
    requires IsTurnCosine(cos)
  {
    match ph
    case Tidal1 => TidalVolume(v, cos, x, Tidal1Breaths)
    case Hold1 => v.Frc()
    case ForcedExp => Lerp(v.Frc() + v.vt, v.FexpTarget(), Ease(x))
    case Hold2 => v.FexpTarget()
    case ForcedIns => Lerp(v.FexpTarget(), v.FinsTarget(), Ease(x))
    case Hold3 => v.FinsTarget()
    case Tidal2 =>
      if x < 0.5 then Lerp(v.tlc, v.Frc(), Ease(x / 0.5))
      else TidalVolume(v, cos, (x - 0.5) / 0.5, Tidal2Breaths)
  }

  /** Every law keeps coherent volumes between RV and TLC, at any progress. */
  lemma VolumeInBounds(v: Volumes, cos: real -> real, ph: Phase, x: real)
    requires IsTurnCosine(cos) && v.Coherent()
    ensures v.rv <= VolumeIn(v, cos, ph, x) <= v.tlc
  {
    match ph
    case ForcedExp => LerpWithinDown(v.Frc() + v.vt, v.rv, Ease(x));
    case ForcedIns => LerpWithinUp(v.rv, v.tlc, Ease(x));
    case Tidal2 =>
      if x < 0.5 {
        LerpWithinDown(v.tlc, v.Frc(), Ease(x / 0.5));
      }
    case _ =>
  }

  /** The volume at time `tau` into the cycle: the law of the phase the time
      falls in, at the progress through it. */
  function VolumeOfTau(v: Volumes, t: Timing, cos: real -> real, tau: real): real
    requires IsTurnCosine(cos)
  {
    var (ph, x) := PhaseInCycle(t, tau);
    VolumeIn(v, cos, ph, x)
  }

  /** Coherent volumes keep the curve between RV and TLC, so within
      [0, TLC], at every time, inside the cycle or not. */
  lemma VolumeOfTauBounds(v: Volumes, t: Timing, cos: real -> real, tau: real)
    requires IsTurnCosine(cos) && v.Coherent()
    ensures 0.0 <= v.rv <= VolumeOfTau(v, t, cos, tau) <= v.tlc
  {
    var (ph, x) := PhaseInCycle(t, tau);
    VolumeInBounds(v, cos, ph, x);
  }

  /** The first quiet-breathing phase starts and ends at FRC and reaches
      FRC + VT at the top of its first breath. */
  lemma Tidal1Law(v: Volumes, cos: real -> real)
    requires IsTurnCosine(cos)
    ensures VolumeIn(v, cos, Tidal1, 0.0) == v.Frc()
    ensures VolumeIn(v, cos, Tidal1, 1.0 / 6.0) == v.Frc() + v.vt
    ensures VolumeIn(v, cos, Tidal1, 1.0) == v.Frc()
  {
    TidalVolumeAtTurns(v, cos, 0.0, Tidal1Breaths, 0);
    TidalVolumeAtTurns(v, cos, 1.0 / 6.0, Tidal1Breaths, 0);
    TidalVolumeAtTurns(v, cos, 1.0, Tidal1Breaths, 3);
  }

  /** The pauses hold FRC, RV and TLC. */
  lemma HoldsAreConstant(v: Volumes, cos: real -> real, x: real)
    requires IsTurnCosine(cos)
    ensures VolumeIn(v, cos, Hold1, x) == v.Frc()
    ensures VolumeIn(v, cos, Hold2, x) == v.rv
    ensures VolumeIn(v, cos, Hold3, x) == v.tlc
  {
  }

  /** Forced expiration runs from FRC + VT down to RV, never going back up,
      and stays at RV once the progress passes 1. */
  lemma ForcedExpLaw(v: Volumes, cos: real -> real, x1: real, x2: real)
    requires IsTurnCosine(cos) && v.Coherent() && x1 <= x2
    ensures VolumeIn(v, cos, ForcedExp, 0.0) == v.Frc() + v.vt
    ensures x2 >= 1.0 ==> VolumeIn(v, cos, ForcedExp, x2) == v.rv
    ensures v.rv <= VolumeIn(v, cos, ForcedExp, x2) <= VolumeIn(v, cos, ForcedExp, x1) <= v.Frc() + v.vt
  {
    EaseMonotone(x1, x2);
    LerpEnds(v.Frc() + v.vt, v.rv);
    LerpDownward(v.Frc() + v.vt, v.rv, Ease(x1), Ease(x2));
    LerpWithinDown(v.Frc() + v.vt, v.rv, Ease(x1));
    LerpWithinDown(v.Frc() + v.vt, v.rv, Ease(x2));
  }

  /** Forced inspiration runs from RV up to TLC, never going back down. */
  lemma ForcedInsLaw(v: Volumes, cos: real -> real, x1: real, x2: real)
    requires IsTurnCosine(cos) && v.Coherent() && x1 <= x2
    ensures VolumeIn(v, cos, ForcedIns, 0.0) == v.rv
    ensures x2 >= 1.0 ==> VolumeIn(v, cos, ForcedIns, x2) == v.tlc
    ensures v.rv <= VolumeIn(v, cos, ForcedIns, x1) <= VolumeIn(v, cos, ForcedIns, x2) <= v.tlc
  {
    EaseMonotone(x1, x2);
    LerpEnds(v.rv, v.tlc);
    LerpUpward(v.rv, v.tlc, Ease(x1), Ease(x2));
    LerpWithinUp(v.rv, v.tlc, Ease(x1));
    LerpWithinUp(v.rv, v.tlc, Ease(x2));
  }

  /** First half of the return phase: from TLC back down to FRC with the
      ease-out law, never going back up and never above the straight line
      from TLC at 0 to FRC at 0.5, which the law reaches at 0.5. */
  lemma ReturnFirstHalf(v: Volumes, cos: real -> real, x1: real, x2: real)
    requires IsTurnCosine(cos) && v.Coherent() && x1 <= x2 < 0.5
    ensures VolumeIn(v, cos, Tidal2, 0.0) == v.tlc
    ensures v.Frc() <= VolumeIn(v, cos, Tidal2, x2) <= VolumeIn(v, cos, Tidal2, x1) <= v.tlc
    ensures 0.0 <= x2 ==> VolumeIn(v, cos, Tidal2, x2) <= Lerp(v.tlc, v.Frc(), x2 / 0.5)
    ensures Lerp(v.tlc, v.Frc(), Ease(0.5 / 0.5)) == v.Frc()
  {
    if 0.0 <= x2 {
      assert Clip(x2 / 0.5) == x2 / 0.5;
      LerpDownward(v.tlc, v.Frc(), x2 / 0.5, Ease(x2 / 0.5));
    }
    var y1, y2 := x1 / 0.5, x2 / 0.5;
    QuotientMonotone(x1, x2, 0.5);
    EaseMonotone(y1, y2);
    LerpEnds(v.tlc, v.Frc());
    LerpDownward(v.tlc, v.Frc(), Ease(y1), Ease(y2));
    LerpWithinDown(v.tlc, v.Frc(), Ease(y1));
    LerpWithinDown(v.tlc, v.Frc(), Ease(y2));
  }

  /** Second half of the return phase: one quiet breath starting at FRC,
      peaking at FRC + VT and ending at FRC. */
  lemma ReturnSecondHalf(v: Volumes, cos: real -> real, x: real)
    requires IsTurnCosine(cos) && 0.5 <= x
    ensures VolumeIn(v, cos, Tidal2, x) == TidalVolume(v, cos, (x - 0.5) / 0.5, 1.0)
    ensures VolumeIn(v, cos, Tidal2, 0.5) == v.Frc()
    ensures VolumeIn(v, cos, Tidal2, 0.75) == v.Frc() + v.vt
    ensures VolumeIn(v, cos, Tidal2, 1.0) == v.Frc()
  {
    TidalVolumeAtTurns(v, cos, 0.0, Tidal2Breaths, 0);
    TidalVolumeAtTurns(v, cos, 0.5, Tidal2Breaths, 0);
    TidalVolumeAtTurns(v, cos, 1.0, Tidal2Breaths, 1);
  }

  /** Each phase ends at the volume the next one starts from (the last one
      at the start of the next cycle), except that forced expiration starts
      VT above the pause at FRC before it. */
  lemma BoundaryContinuity(v: Volumes, cos: real -> real, p: Phase)
    requires IsTurnCosine(cos)
    ensures VolumeIn(v, cos, p, 1.0) == VolumeIn(v, cos, Next(p), 0.0) <==> (p != Hold1 || v.vt == 0.0)
    ensures p == Hold1 ==> VolumeIn(v, cos, Next(p), 0.0) == VolumeIn(v, cos, p, 1.0) + v.vt
  {
    match p
    case Tidal1 => Tidal1Law(v, cos);
    case Hold1 => LerpEnds(v.Frc() + v.vt, v.rv);
    case ForcedExp => LerpEnds(v.Frc() + v.vt, v.rv);
    case Hold2 => LerpEnds(v.rv, v.tlc);
    case ForcedIns => LerpEnds(v.rv, v.tlc);
    case Hold3 =>
      assert 0.0 / 0.5 == 0.0;
      LerpEnds(v.tlc, v.Frc());
    case Tidal2 =>
      ReturnSecondHalf(v, cos, 1.0);
      Tidal1Law(v, cos);
  }

  /** Over the forced-expiration interval of the cycle the volume never
      rises as time goes on. */
  lemma ForcedExpOverTime(v: Volumes, t: Timing, cos: real -> real, tau1: real, tau2: real)
    requires IsTurnCosine(cos) && v.Coherent() && t.Valid()
    requires t.Contains(ForcedExp, tau1) && t.Contains(ForcedExp, tau2) && tau1 <= tau2
    ensures VolumeOfTau(v, t, cos, tau2) <= VolumeOfTau(v, t, cos, tau1)
  {
    LookupInsidePhase(t, ForcedExp, tau1);
    LookupInsidePhase(t, ForcedExp, tau2);
    ProgressMonotone(t, tau1, tau2);
    ForcedExpLaw(v, cos, PhaseInCycle(t, tau1).1, PhaseInCycle(t, tau2).1);
  }

  /** Over the forced-inspiration interval of the cycle the volume never
      falls as time goes on. */
  lemma ForcedInsOverTime(v: Volumes, t: Timing, cos: real -> real, tau1: real, tau2: real)
    requires IsTurnCosine(cos) && v.Coherent() && t.Valid()
    requires t.Contains(ForcedIns, tau1) && t.Contains(ForcedIns, tau2) && tau1 <= tau2
    ensures VolumeOfTau(v, t, cos, tau1) <= VolumeOfTau(v, t, cos, tau2)
  {
    LookupInsidePhase(t, ForcedIns, tau1);
    LookupInsidePhase(t, ForcedIns, tau2);
    ProgressMonotone(t, tau1, tau2);
    ForcedInsLaw(v, cos, PhaseInCycle(t, tau1).1, PhaseInCycle(t, tau2).1);
  }

  /** With the drawn volumes and cycle, the pause after forced expiration
      starts (at 19 s) exactly at RV = 1200 mL, and the cycle starts at
      FRC = 2300 mL. */
  lemma DidacticKeyVolumes(cos: real -> real)
    requires IsTurnCosine(cos)
    ensures VolumeOfTau(Didactic, FixedCycle, cos, 19.0) == 1200.0
    ensures VolumeOfTau(Didactic, FixedCycle, cos, 0.0) == 2300.0
  {
    FixedCycleBoundaries();
    DidacticCapacities();
    LookupInsidePhase(FixedCycle, Hold2, 19.0);
    LookupInsidePhase(FixedCycle, Tidal1, 0.0);
    Tidal1Law(Didactic, cos);
  }
}
