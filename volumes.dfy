/** Lung volumes and capacities (mL) of the didactic spirogram. */
module LungVolumes {

  /** The four base volumes every capacity is derived from: total lung
      capacity, residual volume, expiratory reserve volume and tidal volume. */
  datatype Volumes = Volumes(tlc: real, rv: real, erv: real, vt: real)
  {
    /** Functional residual capacity: the resting volume between breaths. */
    function Frc(): real { rv + erv }

    /** Inspiratory reserve volume: what is left above the top of a quiet
        breath, clamped at zero when the base volumes leave no room. */
    function Irv(): (r: real)
      ensures r >= 0.0
      ensures r >= tlc - (Frc() + vt)
      ensures r == 0.0 || r == tlc - (Frc() + vt)
    {
      var raw := tlc - (Frc() + vt);
      if 0.0 > raw then 0.0 else raw
    }

    /** Inspiratory capacity. */
    function Ic(): real { tlc - Frc() }

    /** Vital capacity. */
    function Vc(): real { tlc - rv }

    /** The volume a forced expiration drives the lungs down to. */
    function FexpTarget(): real { rv }

    /** The volume a forced inspiration drives the lungs up to. */
    function FinsTarget(): real { tlc }

    /** The base volumes are non-negative and a quiet breath fits below the
        total lung capacity. */
    predicate Coherent() {
      0.0 <= rv && 0.0 <= erv && 0.0 <= vt && Frc() + vt <= tlc
    }
  }

  /** The volumes the animation is drawn with. */
  const Didactic: Volumes := Volumes(6000.0, 1200.0, 1100.0, 500.0)

  /** Coherence is exactly the ordering of the reference lines on the chart,
      and for coherent volumes the clamp on IRV never fires, so the four
      volumes stack up to TLC and the capacities are sums of volumes. */
  lemma CoherentCapacities(v: Volumes)
    ensures v.Coherent() <==> 0.0 <= v.rv <= v.Frc() <= v.Frc() + v.vt <= v.tlc
    ensures v.Coherent() ==> v.Irv() == v.tlc - (v.Frc() + v.vt)
    ensures v.Coherent() ==> v.rv + v.erv + v.vt + v.Irv() == v.tlc
    ensures v.Coherent() ==> v.Ic() == v.vt + v.Irv() && v.Vc() == v.erv + v.vt + v.Irv()
    ensures v.Coherent() ==> v.Frc() + v.Ic() == v.tlc
  {
  }

  /** When a quiet breath would overshoot TLC the inspiratory reserve is
      clamped to zero instead of going negative. */
  lemma IrvClampsInconsistentVolumes(v: Volumes)
    requires v.Frc() + v.vt > v.tlc
    ensures v.Irv() == 0.0
  {
  }

  /** The drawn values: FRC = 2300, IC = 3700, VC = 4800, IRV = 3200 mL. */
  lemma DidacticCapacities()
    ensures Didactic.Coherent()
    ensures Didactic.Frc() == 2300.0 && Didactic.Ic() == 3700.0
    ensures Didactic.Vc() == 4800.0 && Didactic.Irv() == 3200.0
    ensures Didactic.FexpTarget() == 1200.0 && Didactic.FinsTarget() == 6000.0
  {
  }
}
