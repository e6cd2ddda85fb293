/** The exact energies of samples, frames and reports. */
module EnergyLaws {
  import opened Basics
  import opened Energy

  // ----- one sample -----

  lemma QuotientBack(a: real, b: real)
    requires b > 0.0
    ensures (a / b) * b == a
  {
  }

  /** The drive takes its loss from the energy that it draws, and the recovery gives back its fraction of the energy
      that
      braking frees. A sample never does both. */
  lemma WheelExactly(wheel: real, p: Profile)
    requires ValidProfile(p)
    ensures wheel >= 0.0 ==> Drawn(wheel, p) * p.efficiency == wheel && Recovered(wheel, p) == 0.0
    ensures wheel <= 0.0 ==> Drawn(wheel, p) == 0.0 && Recovered(wheel, p) == (-wheel) * p.recovery
  {
    QuotientBack(Positive(wheel), p.efficiency);
    if wheel <= 0.0 {
      assert Positive(wheel) == 0.0 && Positive(-wheel) == -wheel;
      NothingDrawn(p.efficiency);
    } else {
      assert Positive(-wheel) == 0.0;
    }
  }

  lemma NothingDrawn(efficiency: real)
    requires efficiency > 0.0
    ensures 0.0 / efficiency == 0.0
  {
  }

  /** The wheels need the change of the kinetic energy and the force of the resistance over the distance. The force has
      a constant part and a part with the square of the mean speed, in meters a second at 60 ticks a second. */
  lemma WheelMeans(sample: Sample, p: Profile, speed: real)
    requires speed == sample.distance * 60.0
    ensures Wheel(sample, p) ==
            p.mass * (sample.endSpeed * sample.endSpeed - sample.startSpeed * sample.startSpeed) / 2.0
            + (p.constantResistance + p.quadraticResistance * speed * speed) * sample.distance
  {
  }

  // ----- one frame -----

  ghost function Sum(samples: seq<Sample>, energy: Sample -> real): real {
    if samples == [] then 0.0 else Sum(samples[..|samples| - 1], energy) + energy(samples[|samples| - 1])
  }

  ghost function DrawnBy(m: Setup): Sample -> real
    requires Covers(m.fleet, m.profiles)
  {
    (sample: Sample) => if sample.id in m.fleet
                        then Drawn(Wheel(sample, m.profiles[m.fleet[sample.id]]), m.profiles[m.fleet[sample.id]])
                          else 0.0
  }

  ghost function RecoveredBy(m: Setup): Sample -> real
    requires Covers(m.fleet, m.profiles)
  {
    (sample: Sample) => if sample.id in m.fleet
                        then Recovered(Wheel(sample, m.profiles[m.fleet[sample.id]]), m.profiles[m.fleet[sample.id]])
                          else 0.0
  }

  /** A sample of a fleet vehicle of that class, not sampled before in the frame, with fitting and finite numbers. */
  ghost predicate Fitting(m: Setup, samples: seq<Sample>, k: nat)
    requires Covers(m.fleet, m.profiles) && k < |samples|
  {
    var sample := samples[k];
    && sample.id in m.fleet && sample.class_ == m.fleet[sample.id]
    && (forall j :: 0 <= j < k ==> samples[j].id != sample.id)
    && sample.distance >= 0.0 && sample.startSpeed >= 0.0 && sample.endSpeed >= 0.0
    && FiniteSample(m.finite, sample, m.profiles[m.fleet[sample.id]])
  }

  /** A frame is accepted exactly when all its samples fit, and it then gives the sums over its samples. */
  lemma {:induction false} FrameExactly(m: Setup, samples: seq<Sample>)
    requires Covers(m.fleet, m.profiles)
    ensures FrameEnergy(m, samples).Some? <==> forall k :: 0 <= k < |samples| ==> Fitting(m, samples, k)
    ensures FrameEnergy(m, samples).Some? ==>
              FrameEnergy(m, samples).value == (Sum(samples, DrawnBy(m)), Sum(samples, RecoveredBy(m)))
  {
    if samples != [] {
      var n := |samples| - 1;
      var before := samples[..n];
      FrameExactly(m, before);
      forall k | 0 <= k < n ensures Fitting(m, samples, k) <==> Fitting(m, before, k) {
        assert before[k] == samples[k] && forall j :: 0 <= j < k ==> before[j] == samples[j];
      }
      LastFits(m, samples);
    }
  }

  lemma LastFits(m: Setup, samples: seq<Sample>)
    requires Covers(m.fleet, m.profiles) && samples != []
    ensures var n := |samples| - 1;
            Fitting(m, samples, n) <==>
              Identified(m.fleet, samples[..n], samples[n]) &&
              SampleEnergy(m.finite, samples[n], m.profiles[m.fleet[samples[n].id]]).Some?
  {
    var n := |samples| - 1;
    var before := samples[..n];
    assert SeenIn(before, samples[n].id) <==> exists j :: 0 <= j < n && samples[j].id == samples[n].id by {
      assert forall j :: 0 <= j < n ==> before[j] == samples[j];
    }
  }

  // ----- one report -----

  /** A frame counts exactly when its tick is the next one, its samples fit and its sums are finite. It adds its sums
      and
      one tick of the auxiliary load to the report. */
  lemma ConsumedExactly(m: Setup, report: Report, frame: Frame)
    requires Covers(m.fleet, m.profiles)
    ensures var traction, recovery := Sum(frame.samples, DrawnBy(m)), Sum(frame.samples, RecoveredBy(m));
            var t, r, a := report.traction + traction, report.recovered + recovery, report.auxiliary + m.perTick;
            var fits := (forall k :: 0 <= k < |frame.samples| ==> Fitting(m, frame.samples, k)) &&
                        m.finite(traction) && m.finite(recovery);
            var sums := m.finite(t) && m.finite(r) && m.finite(a) && m.finite(t + a - r);
            Consumed(m, report, frame) ==
              if frame.tick == report.end && fits then Some(report)
              else if frame.tick == report.end + 1 && fits && sums
              then Some(Report(report.start, frame.tick, t, r, a, t + a - r)) else None
  {
    FrameExactly(m, frame.samples);
    var traction, recovery := Sum(frame.samples, DrawnBy(m)), Sum(frame.samples, RecoveredBy(m));
    TwoFinite(m.finite, traction, recovery);
    FourFinite(m.finite, Added(report, traction, recovery, m.perTick));
  }

  lemma TwoFinite(finite: real -> bool, a: real, b: real)
    ensures AllFinite(finite, [a, b]) <==> finite(a) && finite(b)
  {
    assert [a, b][0] == a && [a, b][1] == b;
  }

  lemma FourFinite(finite: real -> bool, r: Report)
    ensures AllFinite(finite, [r.traction, r.recovered, r.auxiliary, r.net]) <==>
              finite(r.traction) && finite(r.recovered) && finite(r.auxiliary) && finite(r.net)
  {
    var all := [r.traction, r.recovered, r.auxiliary, r.net];
    assert all[0] == r.traction && all[1] == r.recovered && all[2] == r.auxiliary && all[3] == r.net;
  }

  // ----- the auxiliary load -----

  /** The auxiliary power of the fleet in watts. */
  ghost function Watts(registry: Registry, profiles: Profiles, fleet: seq<Placement>): real
    requires Registered(registry, profiles, fleet)
  {
    if fleet == [] then 0.0
    else Watts(registry, profiles, fleet[..|fleet| - 1]) +
         profiles[registry[fleet[|fleet| - 1].class_]].auxiliary
  }

  /** Sixty ticks of the load are one second of the fleet's power. */
  lemma {:induction false} LoadIsPower(registry: Registry, profiles: Profiles, fleet: seq<Placement>)
    requires Registered(registry, profiles, fleet)
    ensures AuxiliaryLoad(registry, profiles, fleet) * 60.0 == Watts(registry, profiles, fleet)
  {
    if fleet != [] {
      LoadIsPower(registry, profiles, fleet[..|fleet| - 1]);
    }
  }
}
