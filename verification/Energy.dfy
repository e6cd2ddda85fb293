/** The energy meter of a comparison run, over real arithmetic. */
module Energy {
  import opened Basics

  const TICKS_PER_SECOND: real := 60.0

  /** The name of the only energy model. */
  const MODEL_NAME: string := "flat-v1"

  datatype Profile = Profile(mass: real, constantResistance: real, quadraticResistance: real,
                             efficiency: real, recovery: real, auxiliary: real)

  datatype Sample = Sample(id: string, class_: string, distance: real, startSpeed: real, endSpeed: real)

  datatype Frame = Frame(tick: int, samples: seq<Sample>)

  datatype Placement = Placement(id: string, class_: string)

  datatype Report = Report(start: int, end: int, traction: real, recovered: real, auxiliary: real, net: real)

  type Profiles = map<string, Profile>

  /** The class of each vehicle. */
  type Fleet = map<string, string>

  predicate ValidProfile(p: Profile) {
    && p.mass > 0.0 && p.constantResistance >= 0.0 && p.quadraticResistance >= 0.0 && p.auxiliary >= 0.0
    && 0.0 < p.efficiency <= 1.0 && 0.0 <= p.recovery <= 1.0
  }

  predicate ValidProfiles(profiles: Profiles) {
    forall class_ :: class_ in profiles ==> ValidProfile(profiles[class_])
  }

  /** The fleet of a meter with its profiles and its load. `finite` tells which numbers the arithmetic can hold. */
  datatype Setup = Setup(fleet: Fleet, profiles: Profiles, perTick: real, finite: real -> bool)

  predicate AllFinite(finite: real -> bool, values: seq<real>) {
    forall k :: 0 <= k < |values| ==> finite(values[k])
  }

  predicate FiniteProfile(finite: real -> bool, p: Profile) {
    AllFinite(finite, [p.mass, p.constantResistance, p.quadraticResistance, p.efficiency, p.recovery, p.auxiliary])
  }

  // ----- one sample -----

  predicate ValidSample(sample: Sample) {
    sample.distance >= 0.0 && sample.startSpeed >= 0.0 && sample.endSpeed >= 0.0
  }

  function Mean(sample: Sample): real {
    sample.distance * TICKS_PER_SECOND
  }

  function Resistance(sample: Sample, p: Profile): real {
    var mean := Mean(sample);
    (p.constantResistance + p.quadraticResistance * mean * mean) * sample.distance
  }

  function Kinetic(mass: real, speed: real): real {
    mass * (speed * speed) / 2.0
  }

  function Positive(x: real): real { if x > 0.0 then x else 0.0 }

  function KineticChange(sample: Sample, p: Profile): real {
    p.mass * (sample.endSpeed * sample.endSpeed - sample.startSpeed * sample.startSpeed) / 2.0
  }

  /** The energy at the wheels of a sample: the kinetic change and the work against resistance. */
  function Wheel(sample: Sample, p: Profile): real {
    KineticChange(sample, p) + Resistance(sample, p)
  }

  /** The energy drawn for a wheel energy, which only a positive one needs. */
  function Drawn(wheel: real, p: Profile): real
    requires p.efficiency > 0.0
  {
    Positive(wheel) / p.efficiency
  }

  /** The energy recovered from a negative wheel energy. */
  function Recovered(wheel: real, p: Profile): real {
    Positive(-wheel) * p.recovery
  }

  /** Whether the arithmetic of a sample stays finite, from its inputs to its results. */
  predicate FiniteSample(finite: real -> bool, sample: Sample, p: Profile)
    requires p.efficiency > 0.0
  {
    var wheel := Wheel(sample, p);
    && AllFinite(finite, [sample.distance, sample.startSpeed, sample.endSpeed])
    && AllFinite(finite, [Mean(sample), Resistance(sample, p), KineticChange(sample, p), wheel])
    && AllFinite(finite, [Drawn(wheel, p), Recovered(wheel, p)])
  }

  /** The energy drawn for a sample and the energy recovered from it. */
  function SampleEnergy(finite: real -> bool, sample: Sample, p: Profile): Option<(real, real)>
    requires ValidProfile(p)
  {
    if !ValidSample(sample) || !FiniteSample(finite, sample, p) then None
    else
      var wheel := Wheel(sample, p);
      Some((Drawn(wheel, p), Recovered(wheel, p)))
  }

  lemma ProductNonnegative(a: real, b: real)
    requires a >= 0.0 && b >= 0.0
    ensures a * b >= 0.0
  {
  }

  lemma ProductSplits(a: real, b: real)
    ensures a * (1.0 - b) == a - a * b
  {
  }

  lemma QuotientTimes(a: real, b: real)
    requires a >= 0.0 && b > 0.0
    ensures (a / b) * b == a && a / b >= 0.0
  {
  }

  lemma DrawAtLeast(wheel: real, p: Profile)
    requires ValidProfile(p)
    ensures Drawn(wheel, p) >= Positive(wheel)
  {
    var up, draw := Positive(wheel), Drawn(wheel, p);
    QuotientTimes(up, p.efficiency);
    ProductNonnegative(draw, 1.0 - p.efficiency);
    ProductSplits(draw, p.efficiency);
  }

  lemma RecoverAtMost(wheel: real, p: Profile)
    requires ValidProfile(p)
    ensures 0.0 <= Recovered(wheel, p) <= Positive(-wheel)
  {
    var down := Positive(-wheel);
    ProductNonnegative(down, p.recovery);
    ProductNonnegative(down, 1.0 - p.recovery);
    ProductSplits(down, p.recovery);
  }

  lemma DifferenceSplits(mass: real, a: real, b: real)
    ensures mass * (a - b) / 2.0 == mass * a / 2.0 - mass * b / 2.0
  {
  }

  lemma WheelBalance(wheel: real, p: Profile)
    requires ValidProfile(p)
    ensures Drawn(wheel, p) >= 0.0 && Recovered(wheel, p) >= 0.0 && Drawn(wheel, p) - Recovered(wheel, p) >= wheel
  {
    DrawAtLeast(wheel, p);
    RecoverAtMost(wheel, p);
  }

  /** Neither the drive nor the recovery makes energy: the balance covers the kinetic change and the resistance. */
  lemma SampleBalance(finite: real -> bool, sample: Sample, p: Profile)
    requires ValidProfile(p) && SampleEnergy(finite, sample, p).Some?
    ensures var (draw, recovered) := SampleEnergy(finite, sample, p).value;
      && draw >= 0.0 && recovered >= 0.0
      && draw - recovered >=
           Kinetic(p.mass, sample.endSpeed) - Kinetic(p.mass, sample.startSpeed) + Resistance(sample, p)
  {
    DifferenceSplits(p.mass, sample.endSpeed * sample.endSpeed, sample.startSpeed * sample.startSpeed);
    WheelBalance(Wheel(sample, p), p);
  }

  /** Resistance never helps. */
  lemma ResistanceNonnegative(sample: Sample, p: Profile)
    requires ValidProfile(p) && ValidSample(sample)
    ensures Resistance(sample, p) >= 0.0
  {
    var mean := Mean(sample);
    ProductNonnegative(sample.distance, TICKS_PER_SECOND);
    ProductNonnegative(p.quadraticResistance, mean);
    ProductNonnegative(p.quadraticResistance * mean, mean);
    ProductNonnegative(p.constantResistance + p.quadraticResistance * mean * mean, sample.distance);
  }

  // ----- one frame -----

  ghost predicate Covers(fleet: Fleet, profiles: Profiles) {
    ValidProfiles(profiles) && forall id :: id in fleet ==> fleet[id] in profiles
  }

  predicate SeenIn(samples: seq<Sample>, id: string) {
    exists k :: 0 <= k < |samples| && samples[k].id == id
  }

  predicate Identified(fleet: Fleet, samples: seq<Sample>, sample: Sample) {
    sample.id in fleet && fleet[sample.id] == sample.class_ && !SeenIn(samples, sample.id)
  }

  /** The traction and the recovery of a frame, unless a sample is invalid, unknown or repeated. */
  function FrameEnergy(m: Setup, samples: seq<Sample>): Option<(real, real)>
    requires Covers(m.fleet, m.profiles)
  {
    if samples == [] then Some((0.0, 0.0))
    else
      var before, last := samples[..|samples| - 1], samples[|samples| - 1];
      match FrameEnergy(m, before)
      case None => None
      case Some((traction, recovery)) =>
        if !Identified(m.fleet, before, last) then None
        else match SampleEnergy(m.finite, last, m.profiles[m.fleet[last.id]])
          case None => None
          case Some((draw, recovered)) => Some((traction + draw, recovery + recovered))
  }

  /** The report after a frame, or none when the frame is rejected. A repeated frame is checked and changes nothing. */
  function Consumed(m: Setup, report: Report, frame: Frame): Option<Report>
    requires Covers(m.fleet, m.profiles)
  {
    if frame.tick < report.end || frame.tick > report.end + 1 then None
    else match FrameEnergy(m, frame.samples)
      case None => None
      case Some((traction, recovery)) =>
        if !AllFinite(m.finite, [traction, recovery]) then None
        else if frame.tick == report.end then Some(report)
        else
          var next := Added(report, traction, recovery, m.perTick);
          if AllFinite(m.finite, [next.traction, next.recovered, next.auxiliary, next.net]) then Some(next) else None
  }

  /** The report with the sums of one more tick. */
  function Added(report: Report, traction: real, recovery: real, perTick: real): Report {
    var t, r, a := report.traction + traction, report.recovered + recovery, report.auxiliary + perTick;
    Report(report.start, report.end + 1, t, r, a, t + a - r)
  }

  // ----- kinetic energy of the fleet -----

  /** The speed of each vehicle after the samples of a frame. */
  function Moved(speeds: map<string, real>, samples: seq<Sample>): map<string, real> {
    if samples == [] then speeds
    else Moved(speeds, samples[..|samples| - 1])[samples[|samples| - 1].id := samples[|samples| - 1].endSpeed]
  }

  function Speed(speeds: map<string, real>, id: string): real {
    if id in speeds then speeds[id] else 0.0
  }

  /** Each sample starts at the speed at which its vehicle was. */
  predicate Chained(speeds: map<string, real>, samples: seq<Sample>) {
    forall k :: 0 <= k < |samples| ==> samples[k].startSpeed == Speed(speeds, samples[k].id)
  }

  ghost function FleetKinetic(ids: set<string>, fleet: Fleet, profiles: Profiles, speeds: map<string, real>): real
    requires Covers(fleet, profiles) && ids <= fleet.Keys
  {
    if ids == {} then 0.0
    else
      var id :| id in ids;
      Kinetic(profiles[fleet[id]].mass, Speed(speeds, id)) + FleetKinetic(ids - {id}, fleet, profiles, speeds)
  }

  lemma {:induction false} KineticWithout(ids: set<string>, fleet: Fleet, profiles: Profiles, speeds: map<string, real>,
                                          id: string)
    requires Covers(fleet, profiles) && ids <= fleet.Keys && id in ids
    ensures FleetKinetic(ids, fleet, profiles, speeds)
         == Kinetic(profiles[fleet[id]].mass, Speed(speeds, id)) + FleetKinetic(ids - {id}, fleet, profiles, speeds)
  {
    var first :| first in ids && FleetKinetic(ids, fleet, profiles, speeds)
      == Kinetic(profiles[fleet[first]].mass, Speed(speeds, first))
        + FleetKinetic(ids - {first}, fleet, profiles, speeds);
    if first != id {
      KineticWithout(ids - {first}, fleet, profiles, speeds, id);
      KineticWithout(ids - {id}, fleet, profiles, speeds, first);
      assert ids - {first} - {id} == ids - {id} - {first};
    }
  }

  lemma {:induction false} KineticUnmoved(ids: set<string>, fleet: Fleet, profiles: Profiles, speeds: map<string, real>,
                                          id: string, speed: real)
    requires Covers(fleet, profiles) && ids <= fleet.Keys && id !in ids
    ensures FleetKinetic(ids, fleet, profiles, speeds[id := speed]) == FleetKinetic(ids, fleet, profiles, speeds)
  {
    if ids != {} {
      var other :| other in ids;
      KineticWithout(ids, fleet, profiles, speeds, other);
      KineticWithout(ids, fleet, profiles, speeds[id := speed], other);
      KineticUnmoved(ids - {other}, fleet, profiles, speeds, id, speed);
    }
  }

  /** One vehicle's speed changes the fleet's kinetic energy by that vehicle's share. */
  lemma KineticMoved(fleet: Fleet, profiles: Profiles, speeds: map<string, real>, id: string, speed: real)
    requires Covers(fleet, profiles) && id in fleet
    ensures FleetKinetic(fleet.Keys, fleet, profiles, speeds[id := speed])
      - FleetKinetic(fleet.Keys, fleet, profiles, speeds)
         == Kinetic(profiles[fleet[id]].mass, speed) - Kinetic(profiles[fleet[id]].mass, Speed(speeds, id))
  {
    KineticWithout(fleet.Keys, fleet, profiles, speeds, id);
    KineticWithout(fleet.Keys, fleet, profiles, speeds[id := speed], id);
    KineticUnmoved(fleet.Keys - {id}, fleet, profiles, speeds, id, speed);
  }

  function ResistanceWork(fleet: Fleet, profiles: Profiles, samples: seq<Sample>): real
    requires Covers(fleet, profiles)
  {
    if samples == [] then 0.0
    else
      var last := samples[|samples| - 1];
      ResistanceWork(fleet, profiles, samples[..|samples| - 1]) + if last.id in fleet then
        Resistance(last, profiles[fleet[last.id]]) else 0.0
  }

  lemma {:induction false} UnseenUnmoved(speeds: map<string, real>, samples: seq<Sample>, id: string)
    requires !SeenIn(samples, id)
    ensures Speed(Moved(speeds, samples), id) == Speed(speeds, id)
  {
    if samples != [] {
      var before := samples[..|samples| - 1];
      assert forall k :: 0 <= k < |before| ==> before[k] == samples[k];
      assert samples[|samples| - 1].id != id;
      UnseenUnmoved(speeds, before, id);
    }
  }

  /** The balance of an accepted frame whose samples start where their vehicles were. */
  lemma {:induction false} FrameBalance(m: Setup, speeds: map<string, real>, samples: seq<Sample>)
    requires Covers(m.fleet, m.profiles) && Chained(speeds, samples) && FrameEnergy(m, samples).Some?
    ensures var (traction, recovery) := FrameEnergy(m, samples).value;
            var work := ResistanceWork(m.fleet, m.profiles, samples);
      && traction >= 0.0 && recovery >= 0.0 && work >= 0.0
      && traction - recovery >=
           FleetKinetic(m.fleet.Keys, m.fleet, m.profiles, Moved(speeds, samples))
           - FleetKinetic(m.fleet.Keys, m.fleet, m.profiles, speeds) + work
  {
    if samples != [] {
      var before, last := samples[..|samples| - 1], samples[|samples| - 1];
      FrameBalance(m, speeds, before);
      SampleBalance(m.finite, last, m.profiles[m.fleet[last.id]]);
      ResistanceNonnegative(last, m.profiles[m.fleet[last.id]]);
      UnseenUnmoved(speeds, before, last.id);
      KineticMoved(m.fleet, m.profiles, Moved(speeds, before), last.id, last.endSpeed);
    }
  }

  // ----- whole runs -----

  /** A report with what the run did so far: the speeds and the work against resistance. */
  datatype Account = Account(report: Report, speeds: map<string, real>, resistance: real)

  /** A rejected or a repeated frame changes nothing. */
  function Next(m: Setup, a: Account, frame: Frame): Account
    requires Covers(m.fleet, m.profiles)
  {
    match Consumed(m, a.report, frame)
    case None => a
    case Some(report) =>
      if frame.tick == a.report.end then a
      else
        var work := ResistanceWork(m.fleet, m.profiles, frame.samples);
        Account(report, Moved(a.speeds, frame.samples), a.resistance + work)
  }

  function Run(m: Setup, a: Account, frames: seq<Frame>): Account
    requires Covers(m.fleet, m.profiles)
  {
    if frames == [] then a else Next(m, Run(m, a, frames[..|frames| - 1]), frames[|frames| - 1])
  }

  /** A frame that counts starts where the frames before it left its vehicles. */
  predicate Joins(m: Setup, a: Account, frame: Frame)
    requires Covers(m.fleet, m.profiles)
  {
    Consumed(m, a.report, frame).Some? && frame.tick == a.report.end + 1 ==> Chained(a.speeds, frame.samples)
  }

  predicate Continuous(m: Setup, a: Account, frames: seq<Frame>)
    requires Covers(m.fleet, m.profiles)
  {
    frames != [] ==>
      && Continuous(m, a, frames[..|frames| - 1])
      && Joins(m, Run(m, a, frames[..|frames| - 1]), frames[|frames| - 1])
  }

  function Opened(tick: int): Report {
    Report(tick, tick, 0.0, 0.0, 0.0, 0.0)
  }

  /** What the report says after any frames: the balance of energy, and the exact auxiliary share. */
  ghost predicate Balanced(m: Setup, first: map<string, real>, a: Account)
    requires Covers(m.fleet, m.profiles)
  {
    && a.report.net == a.report.traction + a.report.auxiliary - a.report.recovered
    && a.report.auxiliary == m.perTick * (a.report.end - a.report.start) as real && a.report.start <= a.report.end
    && a.report.traction >= 0.0 && a.report.recovered >= 0.0 && a.resistance >= 0.0
    && a.report.net >=
         FleetKinetic(m.fleet.Keys, m.fleet, m.profiles, a.speeds)
         - FleetKinetic(m.fleet.Keys, m.fleet, m.profiles, first) + a.resistance + a.report.auxiliary
  }

  lemma OneTickMore(perTick: real, ticks: int)
    ensures perTick * (ticks + 1) as real == perTick * ticks as real + perTick
  {
    assert (ticks + 1) as real == ticks as real + 1.0;
  }

  lemma NextBalanced(m: Setup, first: map<string, real>, a: Account, frame: Frame)
    requires Covers(m.fleet, m.profiles) && Balanced(m, first, a) && Joins(m, a, frame)
    ensures Balanced(m, first, Next(m, a, frame))
  {
    if Consumed(m, a.report, frame).Some? && frame.tick == a.report.end + 1 {
      FrameBalance(m, a.speeds, frame.samples);
      OneTickMore(m.perTick, a.report.end - a.report.start);
    }
  }

  /** In every run the net energy covers the kinetic change, the resistance and the auxiliary load. */
  lemma {:induction false} RunBalanced(m: Setup, tick: int, first: map<string, real>, frames: seq<Frame>)
    requires Covers(m.fleet, m.profiles) && Continuous(m, Account(Opened(tick), first, 0.0), frames)
    ensures Balanced(m, first, Run(m, Account(Opened(tick), first, 0.0), frames))
  {
    if frames != [] {
      var before := frames[..|frames| - 1];
      RunBalanced(m, tick, first, before);
      NextBalanced(m, first, Run(m, Account(Opened(tick), first, 0.0), before), frames[|frames| - 1]);
    }
  }

  // ----- the meter -----

  /** The registered class of each class name. */
  type Registry = map<string, string>

  /** The auxiliary energy of one tick, vehicle by vehicle. */
  ghost function AuxiliaryLoad(registry: Registry, profiles: Profiles, fleet: seq<Placement>): real
    requires Registered(registry, profiles, fleet)
  {
    if fleet == [] then 0.0
    else AuxiliaryLoad(registry, profiles, fleet[..|fleet| - 1])
         + profiles[registry[fleet[|fleet| - 1].class_]].auxiliary / TICKS_PER_SECOND
  }

  ghost predicate Registered(registry: Registry, profiles: Profiles, fleet: seq<Placement>) {
    forall k :: 0 <= k < |fleet| ==> fleet[k].class_ in registry && registry[fleet[k].class_] in profiles
  }

  ghost predicate UniqueIDs(fleet: seq<Placement>) {
    && (forall k :: 0 <= k < |fleet| ==> fleet[k].id != "")
    && forall j, k :: 0 <= j < k < |fleet| ==> fleet[j].id != fleet[k].id
  }

  /** Each vehicle has its registered class. */
  ghost predicate IsFleet(registry: Registry, placements: seq<Placement>, fleet: Fleet) {
    && (forall k :: 0 <= k < |placements| ==>
          placements[k].id in fleet && placements[k].class_ in registry &&
            fleet[placements[k].id] == registry[placements[k].class_])
    && forall id :: id in fleet ==> exists k :: 0 <= k < |placements| && placements[k].id == id
  }

  type Counts = map<string, nat>

  /** The load of the vehicles of one class. */
  function Share(count: nat, p: Profile): real {
    count as real * p.auxiliary / TICKS_PER_SECOND
  }

  lemma ShareGrows(count: nat, p: Profile)
    ensures Share(0, p) == 0.0 && Share(count + 1, p) == Share(count, p) + p.auxiliary / TICKS_PER_SECOND
  {
    assert (count + 1) as real == count as real + 1.0;
  }

  ghost function ClassLoad(keys: set<string>, counts: Counts, profiles: Profiles): real
    requires keys <= counts.Keys && counts.Keys <= profiles.Keys
  {
    if keys == {} then 0.0
    else
      var class_ :| class_ in keys;
      Share(counts[class_], profiles[class_]) + ClassLoad(keys - {class_}, counts, profiles)
  }

  lemma {:induction false} LoadWithout(keys: set<string>, counts: Counts, profiles: Profiles, class_: string)
    requires keys <= counts.Keys && counts.Keys <= profiles.Keys && class_ in keys
    ensures ClassLoad(keys, counts, profiles)
         == Share(counts[class_], profiles[class_]) + ClassLoad(keys - {class_}, counts, profiles)
  {
    var first :| first in keys && ClassLoad(keys, counts, profiles)
      == Share(counts[first], profiles[first]) + ClassLoad(keys - {first}, counts, profiles);
    if first != class_ {
      LoadWithout(keys - {first}, counts, profiles, class_);
      LoadWithout(keys - {class_}, counts, profiles, first);
      assert keys - {first} - {class_} == keys - {class_} - {first};
    }
  }

  lemma {:induction false} LoadUnchanged(keys: set<string>, counts: Counts, counts': Counts, profiles: Profiles)
    requires keys <= counts.Keys && keys <= counts'.Keys && counts.Keys <= profiles.Keys &&
             counts'.Keys <= profiles.Keys
    requires forall class_ :: class_ in keys ==> counts[class_] == counts'[class_]
    ensures ClassLoad(keys, counts, profiles) == ClassLoad(keys, counts', profiles)
  {
    if keys != {} {
      var class_ :| class_ in keys;
      LoadWithout(keys, counts, profiles, class_);
      LoadWithout(keys, counts', profiles, class_);
      LoadUnchanged(keys - {class_}, counts, counts', profiles);
    }
  }

  function CountOf(counts: Counts, class_: string): nat {
    if class_ in counts then counts[class_] else 0
  }

  /** One vehicle more of a class adds that class's load once. */
  lemma LoadGrows(counts: Counts, profiles: Profiles, class_: string)
    requires counts.Keys <= profiles.Keys && class_ in profiles
    ensures var more := counts[class_ := CountOf(counts, class_) + 1];
      ClassLoad(more.Keys, more, profiles)
        == ClassLoad(counts.Keys, counts, profiles) + profiles[class_].auxiliary / TICKS_PER_SECOND
  {
    var more := counts[class_ := CountOf(counts, class_) + 1];
    LoadWithout(more.Keys, more, profiles, class_);
    LoadUnchanged(counts.Keys - {class_}, counts, more, profiles);
    assert more.Keys - {class_} == counts.Keys - {class_};
    ShareGrows(CountOf(counts, class_), profiles[class_]);
    if class_ in counts {
      LoadWithout(counts.Keys, counts, profiles, class_);
    } else {
      assert counts.Keys - {class_} == counts.Keys;
    }
  }

  /** Adds the loads of the classes. */
  method SumLoads(counts: Counts, profiles: Profiles) returns (perTick: real)
    requires counts.Keys <= profiles.Keys
    ensures perTick == ClassLoad(counts.Keys, counts, profiles)
  {
    perTick := 0.0;
    var rest := counts.Keys;
    while rest != {}
      invariant rest <= counts.Keys && perTick == ClassLoad(counts.Keys - rest, counts, profiles)
      decreases |rest|
    {
      var class_ :| class_ in rest;
      var done := counts.Keys - rest;
      assert counts.Keys - (rest - {class_}) == done + {class_} && done + {class_} - {class_} == done;
      LoadWithout(done + {class_}, counts, profiles, class_);
      perTick := perTick + Share(counts[class_], profiles[class_]);
      rest := rest - {class_};
    }
    assert counts.Keys - {} == counts.Keys;
  }

  ghost predicate LoadIs(registry: Registry, profiles: Profiles, placements: seq<Placement>, counts: Counts)
    requires Registered(registry, profiles, placements)
  {
    counts.Keys <= profiles.Keys &&
      ClassLoad(counts.Keys, counts, profiles) == AuxiliaryLoad(registry, profiles, placements)
  }

  lemma LoadMore(registry: Registry, profiles: Profiles, placements: seq<Placement>, k: nat, counts: Counts)
    requires k < |placements| && Registered(registry, profiles, placements[..k]) &&
             LoadIs(registry, profiles, placements[..k], counts)
    requires placements[k].class_ in registry && registry[placements[k].class_] in profiles
    ensures var class_ := registry[placements[k].class_];
      Registered(registry, profiles, placements[..k + 1])
      && LoadIs(registry, profiles, placements[..k + 1], counts[class_ := CountOf(counts, class_) + 1])
  {
    var longer := placements[..k + 1];
    assert longer[..k] == placements[..k] && longer[k] == placements[k];
    assert forall j :: 0 <= j < k ==> longer[j] == placements[..k][j];
    LoadGrows(counts, profiles, registry[placements[k].class_]);
  }

  /** The classes of the vehicles and the number of vehicles of each class, unless a vehicle is unsupported or
      repeated. */
  method CountFleet(registry: Registry, profiles: Profiles, placements: seq<Placement>)
    returns (ok: bool, fleet: Fleet, counts: Counts)
    ensures ok <==> Registered(registry, profiles, placements) && UniqueIDs(placements)
    ensures ok ==> IsFleet(registry, placements, fleet) && LoadIs(registry, profiles, placements, counts)
  {
    fleet, counts := map[], map[];
    for k := 0 to |placements|
      invariant Registered(registry, profiles, placements[..k]) && UniqueIDs(placements[..k])
      invariant IsFleet(registry, placements[..k], fleet) && LoadIs(registry, profiles, placements[..k], counts)
    {
      var placement := placements[k];
      UniqueMore(registry, placements, k, fleet);
      if placement.class_ !in registry || registry[placement.class_] !in profiles {
        return false, map[], map[];
      }
      if placement.id in fleet || placement.id == "" {
        return false, map[], map[];
      }
      var class_ := registry[placement.class_];
      LoadMore(registry, profiles, placements, k, counts);
      FleetMore(registry, placements, k, fleet);
      fleet := fleet[placement.id := class_];
      counts := counts[class_ := CountOf(counts, class_) + 1];
    }
    assert placements[..|placements|] == placements;
    ok := true;
  }

  lemma UniqueMore(registry: Registry, placements: seq<Placement>, k: nat, fleet: Fleet)
    requires k < |placements| && IsFleet(registry, placements[..k], fleet) && UniqueIDs(placements[..k])
    ensures UniqueIDs(placements[..k + 1]) <==> placements[k].id !in fleet && placements[k].id != ""
    ensures UniqueIDs(placements) ==> UniqueIDs(placements[..k + 1])
  {
    var longer, before, id := placements[..k + 1], placements[..k], placements[k].id;
    assert longer[k] == placements[k] && forall j :: 0 <= j < k ==> longer[j] == before[j];
    if id in fleet {
      var j :| 0 <= j < |before| && before[j].id == id;
      assert longer[j].id == longer[k].id;
    }
    if id !in fleet && id != "" {
      forall i, j | 0 <= i < j < |longer| ensures longer[i].id != longer[j].id {
        assert before[i].id in fleet;
      }
    }
  }

  lemma FleetMore(registry: Registry, placements: seq<Placement>, k: nat, fleet: Fleet)
    requires k < |placements| && IsFleet(registry, placements[..k], fleet) && placements[k].class_ in registry &&
             placements[k].id !in fleet
    ensures IsFleet(registry, placements[..k + 1], fleet[placements[k].id := registry[placements[k].class_]])
  {
    var longer, before := placements[..k + 1], placements[..k];
    var fleet' := fleet[placements[k].id := registry[placements[k].class_]];
    assert longer[k] == placements[k];
    forall id | id in fleet' ensures exists j :: 0 <= j < |longer| && longer[j].id == id {
      if id != placements[k].id {
        var j :| 0 <= j < |before| && before[j].id == id;
        assert longer[j].id == id;
      }
    }
    forall j | 0 <= j < |longer|
      ensures longer[j].id in fleet' && longer[j].class_ in registry &&
              fleet'[longer[j].id] == registry[longer[j].class_]
    {
      if j < k {
        assert before[j] == longer[j];
      }
    }
  }

  /** Every profile is finite, within its domain, and of a supported class under its own name. */
  ghost predicate Supported(finite: real -> bool, registry: Registry, profiles: Profiles) {
    && ValidProfiles(profiles)
    && forall class_ :: class_ in profiles ==>
         class_ in registry && registry[class_] == class_ && FiniteProfile(finite, profiles[class_])
  }

  /** Opens a meter: its auxiliary load is that of all vehicles, and every vehicle has a valid profile. */
  method NewEnergyMeter(model: string, finite: real -> bool, registry: Registry, profiles: Profiles,
                        placements: seq<Placement>, tick: int) returns (meter: EnergyMeter?)
    ensures meter != null <==>
      && model == MODEL_NAME && tick >= 0 && Supported(finite, registry, profiles)
      && Registered(registry, profiles, placements) && UniqueIDs(placements)
      && finite(AuxiliaryLoad(registry, profiles, placements))
    ensures meter != null ==>
      && fresh(meter) && IsFleet(registry, placements, meter.setup.fleet) && Covers(meter.setup.fleet, profiles)
      && meter.setup.profiles == profiles && meter.setup.perTick == AuxiliaryLoad(registry, profiles, placements)
      && meter.setup.finite == finite && meter.report == Opened(tick)
  {
    if model != MODEL_NAME || tick < 0 {
      return null;
    }
    if exists class_ :: class_ in profiles &&
        (class_ !in registry || registry[class_] != class_
         || !ValidProfile(profiles[class_]) || !FiniteProfile(finite, profiles[class_])) {
      return null;
    }
    var ok, fleet, counts := CountFleet(registry, profiles, placements);
    if !ok {
      return null;
    }
    var perTick := SumLoads(counts, profiles);
    if !finite(perTick) {
      return null;
    }
    forall id | id in fleet ensures fleet[id] in profiles {
      var k :| 0 <= k < |placements| && placements[k].id == id;
    }
    meter := new EnergyMeter(Setup(fleet, profiles, perTick, finite), tick);
  }

  class EnergyMeter {
    const setup: Setup
    var report: Report

    constructor (setup: Setup, tick: int)
      requires Covers(setup.fleet, setup.profiles)
      ensures this.setup == setup && report == Opened(tick)
    {
      this.setup := setup;
      report := Opened(tick);
    }

    /** Adds a frame. A rejected frame leaves the report as it was. */
    method Consume(frame: Frame) returns (ok: bool)
      requires Covers(setup.fleet, setup.profiles)
      modifies this
      ensures ok <==> Consumed(setup, old(report), frame).Some?
      ensures report == if ok then Consumed(setup, old(report), frame).value else old(report)
    {
      if frame.tick < report.end || frame.tick > report.end + 1 {
        return false;
      }
      var totals := Totals(frame.samples);
      if totals.None? || !AllFinite(setup.finite, [totals.value.0, totals.value.1]) {
        return false;
      }
      if frame.tick == report.end {
        return true;
      }
      var next := Added(report, totals.value.0, totals.value.1, setup.perTick);
      ok := AllFinite(setup.finite, [next.traction, next.recovered, next.auxiliary, next.net]);
      if ok {
        report := next;
      }
    }

    /** The sums over the samples of a frame. */
    method Totals(samples: seq<Sample>) returns (totals: Option<(real, real)>)
      requires Covers(setup.fleet, setup.profiles)
      ensures totals == FrameEnergy(setup, samples)
    {
      var traction, recovery := 0.0, 0.0;
      var seen: set<string> := {};
      for k := 0 to |samples|
        invariant FrameEnergy(setup, samples[..k]) == Some((traction, recovery))
        invariant forall id :: id in seen <==> SeenIn(samples[..k], id)
      {
        var sample := samples[k];
        assert samples[..k + 1][..k] == samples[..k] && samples[..k + 1][k] == sample;
        if sample.id !in setup.fleet || setup.fleet[sample.id] != sample.class_ || sample.id in seen {
          assert !Identified(setup.fleet, samples[..k], sample);
          FrameFails(setup, samples, k + 1);
          return None;
        }
        var energy := SampleEnergy(setup.finite, sample, setup.profiles[setup.fleet[sample.id]]);
        if energy.None? {
          FrameFails(setup, samples, k + 1);
          return None;
        }
        SeenMore(samples, k);
        seen := seen + {sample.id};
        traction, recovery := traction + energy.value.0, recovery + energy.value.1;
      }
      assert samples[..|samples|] == samples;
      totals := Some((traction, recovery));
    }
  }

  /** A frame with a rejected sample is rejected. */
  lemma {:induction false} FrameFails(m: Setup, samples: seq<Sample>, k: nat)
    requires Covers(m.fleet, m.profiles) && k <= |samples| && FrameEnergy(m, samples[..k]).None?
    ensures FrameEnergy(m, samples).None?
    decreases |samples| - k
  {
    if k < |samples| {
      assert samples[..k + 1][..k] == samples[..k];
      FrameFails(m, samples, k + 1);
    } else {
      assert samples[..k] == samples;
    }
  }

  lemma SeenMore(samples: seq<Sample>, k: nat)
    requires k < |samples|
    ensures forall id :: SeenIn(samples[..k + 1], id) <==> SeenIn(samples[..k], id) || samples[k].id == id
  {
    var longer, before := samples[..k + 1], samples[..k];
    assert forall j :: 0 <= j < k ==> longer[j] == before[j];
    assert longer[k] == samples[k];
    forall id ensures SeenIn(longer, id) <==> SeenIn(before, id) || samples[k].id == id {
      if SeenIn(before, id) {
        var j :| 0 <= j < k && before[j].id == id;
        assert longer[j].id == id;
      }
    }
  }
}
