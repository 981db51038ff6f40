/** The fixed breathing cycle: seven phases played one after another, and the
    lookup of the phase (and the progress within it) at a time in the cycle. */
module Timeline {

  import opened RealFacts

  /** The phases of one cycle: quiet breathing, a pause at FRC, forced
      expiration, a pause at RV, forced inspiration, a pause at TLC, and the
      return to FRC followed by one more quiet breath. */
  datatype Phase = Tidal1 | Hold1 | ForcedExp | Hold2 | ForcedIns | Hold3 | Tidal2

  /** The order in which the phases are played. */
  const Order: seq<Phase> := [Tidal1, Hold1, ForcedExp, Hold2, ForcedIns, Hold3, Tidal2]

  /** Position of a phase in the cycle. */
  function Index(p: Phase): (k: nat)
    ensures k < |Order| && Order[k] == p
  {
    match p
    case Tidal1 => 0
    case Hold1 => 1
    case ForcedExp => 2
    case Hold2 => 3
    case ForcedIns => 4
    case Hold3 => 5
    case Tidal2 => 6
  }

  /** The phase played after `p`; after Tidal2 the next cycle begins. */
  function Next(p: Phase): (q: Phase)
    ensures Index(q) == (Index(p) + 1) % |Order|
  {
    match p
    case Tidal1 => Hold1
    case Hold1 => ForcedExp
    case ForcedExp => Hold2
    case Hold2 => ForcedIns
    case ForcedIns => Hold3
    case Hold3 => Tidal2
    case Tidal2 => Tidal1
  }

  /** Floor on a duration used as a divisor, so that a zero-length phase
      never divides by zero. */
  const MinDuration: real := 0.000000001

  /** max(d, MinDuration). */
  function Guarded(d: real): (r: real)
    ensures r >= MinDuration && r >= d
    ensures r == d || r == MinDuration
  {
    if MinDuration > d then MinDuration else d
  }

  /** Progress through a phase of duration `d` after `elapsed` seconds of
      it: elapsed / max(d, MinDuration). */
  function Progress(elapsed: real, d: real): real {
    elapsed / Guarded(d)
  }

  /** Duration in seconds of each phase of the cycle. */
  datatype Timing = Timing(tidal1: real, hold1: real, fexp: real, hold2: real,
                           fins: real, hold3: real, tidal2: real)
  {
    predicate Valid() {
      0.0 <= tidal1 && 0.0 <= hold1 && 0.0 <= fexp && 0.0 <= hold2 &&
      0.0 <= fins && 0.0 <= hold3 && 0.0 <= tidal2
    }

    function Dur(p: Phase): real {
      match p
      case Tidal1 => tidal1
      case Hold1 => hold1
      case ForcedExp => fexp
      case Hold2 => hold2
      case ForcedIns => fins
      case Hold3 => hold3
      case Tidal2 => tidal2
    }

    /** Length of one cycle: the sum of the seven durations. */
    function Cycle(): real {
      tidal1 + hold1 + fexp + hold2 + fins + hold3 + tidal2
    }

    /** Total duration of the phases `ps`, played one after another. */
    function Elapsed(ps: seq<Phase>): (r: real)
      ensures Valid() ==> r >= 0.0
    {
      if ps == [] then 0.0 else Elapsed(ps[..|ps| - 1]) + Dur(ps[|ps| - 1])
    }

    /** Time into the cycle at which phase `p` begins: the total duration of
        the phases before it. */
    function Start(p: Phase): real {
      Elapsed(Order[..Index(p)])
    }

    function End(p: Phase): real {
      Start(p) + Dur(p)
    }

    /** Phase `p` covers the left-closed, right-open interval [Start, End). */
    predicate Contains(p: Phase, tau: real) {
      Start(p) <= tau < End(p)
    }
  }

  /** The cycle of the animation: 30 s, played twice in a minute. */
  const FixedCycle: Timing := Timing(12.0, 1.0, 6.0, 1.0, 6.0, 1.0, 3.0)

  lemma {:induction false} ElapsedStep(t: Timing, k: nat)
    requires k < |Order|
    ensures t.Elapsed(Order[..k + 1]) == t.Elapsed(Order[..k]) + t.Dur(Order[k])
  {
    assert Order[..k + 1][..k] == Order[..k];
  }

  /** The start of each phase is the running sum of the durations before it,
      and the last phase ends at the cycle length. */
  lemma StartsAreRunningSums(t: Timing)
    ensures t.Start(Tidal1) == 0.0
    ensures t.Start(Hold1) == t.tidal1
    ensures t.Start(ForcedExp) == t.tidal1 + t.hold1
    ensures t.Start(Hold2) == t.tidal1 + t.hold1 + t.fexp
    ensures t.Start(ForcedIns) == t.tidal1 + t.hold1 + t.fexp + t.hold2
    ensures t.Start(Hold3) == t.tidal1 + t.hold1 + t.fexp + t.hold2 + t.fins
    ensures t.Start(Tidal2) == t.tidal1 + t.hold1 + t.fexp + t.hold2 + t.fins + t.hold3
    ensures t.End(Tidal1) == t.Start(Hold1) && t.End(Hold1) == t.Start(ForcedExp)
    ensures t.End(ForcedExp) == t.Start(Hold2) && t.End(Hold2) == t.Start(ForcedIns)
    ensures t.End(ForcedIns) == t.Start(Hold3) && t.End(Hold3) == t.Start(Tidal2)
    ensures t.End(Tidal2) == t.Cycle()
  {
    assert Order[..0] == [];
    ElapsedStep(t, 0);
    ElapsedStep(t, 1);
    ElapsedStep(t, 2);
    ElapsedStep(t, 3);
    ElapsedStep(t, 4);
    ElapsedStep(t, 5);
  }

  /** A phase ends no later than any later phase starts. */
  lemma PhasesInOrder(t: Timing, p: Phase, q: Phase)
    requires t.Valid() && Index(p) < Index(q)
    ensures t.Start(p) <= t.End(p) <= t.Start(q) <= t.End(q) <= t.Cycle()
  {
    StartsAreRunningSums(t);
  }

  /** The phase at time `tau` of the cycle and the progress through it: the
      first phase whose running upper bound exceeds `tau` (Tidal2 when none
      does), and (tau - start) / max(duration, MinDuration), not clamped. */
  function PhaseInCycle(t: Timing, tau: real): (r: (Phase, real))
    ensures r.0 == Tidal2 || tau < t.End(r.0)
    ensures forall q :: Index(q) < Index(r.0) ==> t.End(q) <= tau
    ensures r.1 == Progress(tau - t.Start(r.0), t.Dur(r.0))
  {
    StartsAreRunningSums(t);
    var a := t.tidal1;
    var b := a + t.hold1;
    var c := b + t.fexp;
    var d := c + t.hold2;
    var e := d + t.fins;
    var f := e + t.hold3;
    if tau < a then (Tidal1, Progress(tau, t.tidal1))
    else if tau < b then (Hold1, Progress(tau - a, t.hold1))
    else if tau < c then (ForcedExp, Progress(tau - b, t.fexp))
    else if tau < d then (Hold2, Progress(tau - c, t.hold2))
    else if tau < e then (ForcedIns, Progress(tau - d, t.fins))
    else if tau < f then (Hold3, Progress(tau - e, t.hold3))
    else (Tidal2, Progress(tau - f, t.tidal2))
  }

  /** The phases partition [0, Cycle): a time in the cycle lies in the
      interval of exactly one phase, the one the lookup returns. A boundary
      time therefore belongs to the later phase. */
  lemma PartitionExact(t: Timing, tau: real, p: Phase)
    requires t.Valid() && 0.0 <= tau < t.Cycle()
    ensures t.Contains(p, tau) <==> p == PhaseInCycle(t, tau).0
  {
    StartsAreRunningSums(t);
  }

  /** A time inside phase `p` of a valid timing is looked up as `p`. */
  lemma LookupInsidePhase(t: Timing, p: Phase, tau: real)
    requires t.Valid() && t.Contains(p, tau)
    ensures PhaseInCycle(t, tau).0 == p
  {
    StartsAreRunningSums(t);
    PartitionExact(t, tau, p);
  }

  /** Within the cycle the progress lies in [0, 1). */
  lemma ProgressInUnitInterval(t: Timing, tau: real)
    requires t.Valid() && 0.0 <= tau < t.Cycle()
    ensures 0.0 <= PhaseInCycle(t, tau).1 < 1.0
  {
    var (p, x) := PhaseInCycle(t, tau);
    PartitionExact(t, tau, p);
    QuotientInUnit(tau - t.Start(p), Guarded(t.Dur(p)));
  }

  /** The lookup does not clamp: from the end of the cycle on, every time
      falls in Tidal2 with progress at least 1. */
  lemma PastCycleIsUnclampedTidal2(t: Timing, tau: real)
    requires t.Valid() && t.tidal2 >= MinDuration && tau >= t.Cycle()
    ensures PhaseInCycle(t, tau).0 == Tidal2
    ensures PhaseInCycle(t, tau).1 >= 1.0
  {
    StartsAreRunningSums(t);
    QuotientAtLeastOne(tau - t.Start(Tidal2), Guarded(t.tidal2));
  }

  /** Within one phase the progress grows with time. */
  lemma ProgressMonotone(t: Timing, tau1: real, tau2: real)
    requires tau1 <= tau2
    requires PhaseInCycle(t, tau1).0 == PhaseInCycle(t, tau2).0
    ensures PhaseInCycle(t, tau1).1 <= PhaseInCycle(t, tau2).1
  {
    var p := PhaseInCycle(t, tau1).0;
    QuotientMonotone(tau1 - t.Start(p), tau2 - t.Start(p), Guarded(t.Dur(p)));
  }

  /** The fixed cycle lasts 30 s, and the boundaries fall at 12, 13, 19, 20,
      26 and 27 s. */
  lemma FixedCycleBoundaries()
    ensures FixedCycle.Valid() && FixedCycle.Cycle() == 30.0
    ensures FixedCycle.Start(Hold1) == 12.0 && FixedCycle.Start(ForcedExp) == 13.0
    ensures FixedCycle.Start(Hold2) == 19.0 && FixedCycle.Start(ForcedIns) == 20.0
    ensures FixedCycle.Start(Hold3) == 26.0 && FixedCycle.Start(Tidal2) == 27.0
  {
    StartsAreRunningSums(FixedCycle);
  }
}
