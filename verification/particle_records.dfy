/**
 * The parts of SMASH's ParticleData (particledata.cc) that decide things:
 * the per-process update of a particle's history record (set_history), the
 * branch structure of the cross-section scaling factor during formation
 * (xsec_scaling_factor), and the repair of externally provided particles with
 * its warn-once flags (create_valid_smash_particle_matching_provided_quantities).
 *
 * PDG codes are plain integers; the code 0x0 stands for "no parent".
 */
module ParticleRecords {

  /** The process types set_history distinguishes. */
  datatype ProcessType =
    | None | Elastic | TwoToOne | TwoToTwo | TwoToThree | TwoToFour | TwoToFive
    | Decay | Wall | Thermalization | HyperSurfaceCrossing | Bremsstrahlung
    | MultiParticleThreeMesonsToOne | MultiParticleThreeToTwo | MultiParticleFourToTwo
    | MultiParticleFiveToTwo
    | StringSoftSingleDiffractiveAX | StringSoftSingleDiffractiveXB | StringSoftDoubleDiffractive
    | StringSoftAnnihilation | StringSoftNonDiffractive | StringHard | FailedString
    | Freeforall

  /** An unsigned 32-bit process id (uint32_t). */
  type ProcessId = x: int | 0 <= x < 0x1_0000_0000

  /** The history record of a particle (HistoryData). */
  datatype HistoryData = HistoryData(
    collisionsPerParticle: int,
    idProcess: ProcessId,
    processType: ProcessType,
    timeLastCollision: real,
    p1: int,
    p2: int)

  // Families of process types, named as the process types are named.

  predicate IsTwoToN(pt: ProcessType)
  {
    pt.TwoToOne? || pt.TwoToTwo? || pt.TwoToThree? || pt.TwoToFour? || pt.TwoToFive?
  }

  /** The string processes that did produce a string (a failed string is not one of them). */
  predicate IsStringProcess(pt: ProcessType)
  {
    pt.StringSoftSingleDiffractiveAX? || pt.StringSoftSingleDiffractiveXB? || pt.StringSoftDoubleDiffractive?
    || pt.StringSoftAnnihilation? || pt.StringSoftNonDiffractive? || pt.StringHard?
  }

  predicate IsMultiParticle(pt: ProcessType)
  {
    pt.MultiParticleThreeMesonsToOne? || pt.MultiParticleThreeToTwo? || pt.MultiParticleFourToTwo?
    || pt.MultiParticleFiveToTwo?
  }

  /** How many entries of the incoming particle list set_history reads for the process type. */
  function ParentsRead(pt: ProcessType): nat
  {
    if pt.Decay? || pt.Wall? then 1
    else if IsTwoToN(pt) || IsStringProcess(pt) || pt.Bremsstrahlung? then 2
    else 0
  }

  /**
   * The history after set_history(ncoll, pid, pt, time, plist): a Wall
   * crossing does not count as a collision; the process id and type are
   * always recorded; the parents depend on the process type.
   */
  function HistoryAfter(h: HistoryData, ncoll: int, pid: ProcessId, pt: ProcessType,
                        timeLastColl: real, plist: seq<int>): HistoryData
    requires ParentsRead(pt) <= |plist|
  {
    var counted := if pt.Wall? then h else h.(collisionsPerParticle := ncoll, timeLastCollision := timeLastColl);
    var recorded := counted.(idProcess := pid, processType := pt);
    if ParentsRead(pt) == 1 then recorded.(p1 := plist[0], p2 := 0)
    else if ParentsRead(pt) == 2 then recorded.(p1 := plist[0], p2 := plist[1])
    else if pt.Elastic? || pt.HyperSurfaceCrossing? || pt.FailedString? then recorded
    else recorded.(p1 := 0, p2 := 0)
  }

  /** A particle as far as its history record is concerned (ParticleData::history_). */
  class ParticleData {
    var history: HistoryData

    constructor (h: HistoryData)
      ensures history == h
    {
      history := h;
    }

    /** ParticleData::set_history: updates the record field by field, as the source does. */
    method SetHistory(ncoll: int, pid: ProcessId, pt: ProcessType, timeLastColl: real, plist: seq<int>)
      requires ParentsRead(pt) <= |plist|
      modifies this
      ensures history == HistoryAfter(old(history), ncoll, pid, pt, timeLastColl, plist)
    {
      if pt != Wall {
        history := history.(collisionsPerParticle := ncoll);
        history := history.(timeLastCollision := timeLastColl);
      }
      history := history.(idProcess := pid);
      history := history.(processType := pt);
      match pt {
        case Decay | Wall =>
          history := history.(p1 := plist[0], p2 := 0);
        case Elastic | HyperSurfaceCrossing | FailedString =>
        case TwoToOne | TwoToTwo | TwoToThree | TwoToFour | TwoToFive
           | StringSoftSingleDiffractiveAX | StringSoftSingleDiffractiveXB | StringSoftDoubleDiffractive
           | StringSoftAnnihilation | StringSoftNonDiffractive | StringHard | Bremsstrahlung =>
          history := history.(p1 := plist[0], p2 := plist[1]);
        case Thermalization | MultiParticleThreeMesonsToOne | MultiParticleThreeToTwo
           | MultiParticleFourToTwo | MultiParticleFiveToTwo | Freeforall | None =>
          history := history.(p1 := 0, p2 := 0);
      }
    }
  }

  /** The collision counter and the time of the last collision change exactly when the process is not a Wall crossing; id and type are always recorded. */
  lemma CountersUnlessWall(h: HistoryData, ncoll: int, pid: ProcessId, pt: ProcessType, t: real, plist: seq<int>)
    requires ParentsRead(pt) <= |plist|
    ensures var r := HistoryAfter(h, ncoll, pid, pt, t, plist);
      && r.idProcess == pid && r.processType == pt
      && (pt.Wall? ==> r.collisionsPerParticle == h.collisionsPerParticle && r.timeLastCollision == h.timeLastCollision)
      && (!pt.Wall? ==> r.collisionsPerParticle == ncoll && r.timeLastCollision == t)
  {
  }

  /** The parent fields after set_history, family by family. */
  lemma ParentsByFamily(h: HistoryData, ncoll: int, pid: ProcessId, pt: ProcessType, t: real, plist: seq<int>)
    requires ParentsRead(pt) <= |plist|
    ensures var r := HistoryAfter(h, ncoll, pid, pt, t, plist);
      && ((pt.Decay? || pt.Wall?) ==> r.p1 == plist[0] && r.p2 == 0)
      && ((pt.Elastic? || pt.HyperSurfaceCrossing? || pt.FailedString?) ==> r.p1 == h.p1 && r.p2 == h.p2)
      && ((IsTwoToN(pt) || IsStringProcess(pt) || pt.Bremsstrahlung?) ==> r.p1 == plist[0] && r.p2 == plist[1])
      && ((pt.Thermalization? || IsMultiParticle(pt) || pt.Freeforall? || pt.None?) ==> r.p1 == 0 && r.p2 == 0)
  {
  }

  /** Recording the same process twice leaves the record as recording it once. */
  lemma SetHistoryIdempotent(h: HistoryData, ncoll: int, pid: ProcessId, pt: ProcessType, t: real, plist: seq<int>)
    requires ParentsRead(pt) <= |plist|
    ensures var once := HistoryAfter(h, ncoll, pid, pt, t, plist);
      HistoryAfter(once, ncoll, pid, pt, t, plist) == once
  {
  }

  // ---------------------------------------------------------------------
  // xsec_scaling_factor

  /**
   * What xsec_scaling_factor reads of a particle: the time of its position
   * (position_.x0()), its formation times and its initial scaling factor.
   */
  datatype Formation = Formation(t: real, formationTime: real, beginFormationTime: real, initialFactor: real)

  /**
   * ParticleData::xsec_scaling_factor(dt): a step function of the time of
   * interest t + dt when formationPower <= 0, otherwise a smooth rise from the
   * initial factor to 1 between the begin of formation and the formation
   * time. `pow` is std::pow, and formationPower the static formation_power_.
   */
  function XsecScalingFactor(f: Formation, deltaTime: real, formationPower: real, pow: (real, real) -> real): real
  {
    var timeOfInterest := f.t + deltaTime;
    if formationPower <= 0.0 then
      if timeOfInterest < f.formationTime then f.initialFactor else 1.0
    else if f.formationTime <= timeOfInterest then 1.0
    else if f.beginFormationTime >= timeOfInterest then f.initialFactor
    else
      f.initialFactor + (1.0 - f.initialFactor)
        * pow((timeOfInterest - f.beginFormationTime) / (f.formationTime - f.beginFormationTime), formationPower)
  }

  /** A particle fully formed at the time of interest scales its cross section by 1, whatever the formation power. */
  lemma FormedScalesByOne(f: Formation, deltaTime: real, formationPower: real, pow: (real, real) -> real)
    requires f.formationTime <= f.t + deltaTime
    ensures XsecScalingFactor(f, deltaTime, formationPower, pow) == 1.0
  {
  }

  /**
   * Before the formation time the initial factor applies with the step
   * function, and with the smooth rise as long as formation has not begun.
   */
  lemma UnformedScalesByInitial(f: Formation, deltaTime: real, formationPower: real, pow: (real, real) -> real)
    requires f.t + deltaTime < f.formationTime
    requires formationPower <= 0.0 || f.t + deltaTime <= f.beginFormationTime
    ensures XsecScalingFactor(f, deltaTime, formationPower, pow) == f.initialFactor
  {
  }

  /**
   * With the step function (formation power at most 0) the initial factor
   * applies exactly while the time of interest lies before the formation
   * time, whether or not formation has begun, and 1 applies from then on.
   */
  lemma StepScaling(f: Formation, deltaTime: real, formationPower: real, pow: (real, real) -> real)
    requires formationPower <= 0.0
    ensures f.t + deltaTime < f.formationTime ==> XsecScalingFactor(f, deltaTime, formationPower, pow) == f.initialFactor
    ensures f.t + deltaTime >= f.formationTime ==> XsecScalingFactor(f, deltaTime, formationPower, pow) == 1.0
  {
  }

  /** std::pow maps a base in (0, 1) and a positive exponent into [0, 1]. */
  ghost predicate PowInUnit(pow: (real, real) -> real)
  {
    forall b: real, e: real {:trigger pow(b, e)} :: 0.0 < b < 1.0 && e > 0.0 ==> 0.0 <= pow(b, e) <= 1.0
  }

  /** With an initial factor in [0, 1], the scaling factor always lies between the initial factor and 1. */
  lemma ScalingFactorBetween(f: Formation, deltaTime: real, formationPower: real, pow: (real, real) -> real)
    requires 0.0 <= f.initialFactor <= 1.0 && PowInUnit(pow)
    ensures f.initialFactor <= XsecScalingFactor(f, deltaTime, formationPower, pow) <= 1.0
  {
    var toi := f.t + deltaTime;
    if formationPower > 0.0 && toi < f.formationTime && f.beginFormationTime < toi {
      var span := f.formationTime - f.beginFormationTime;
      var b := (toi - f.beginFormationTime) / span;
      assert 0.0 < b < 1.0 by {
        assert span > 0.0;
        assert b * span == toi - f.beginFormationTime;
        if b <= 0.0 { MulNonPositive(b, span); }
        if b >= 1.0 { MulAtLeast(b, span); }
      }
      var p := pow(b, formationPower);
      assert 0.0 <= p <= 1.0;
      assert 0.0 <= (1.0 - f.initialFactor) * p <= 1.0 - f.initialFactor by {
        MulBetween(1.0 - f.initialFactor, p);
      }
    }
  }

  lemma MulNonPositive(b: real, s: real)
    requires b <= 0.0 && s > 0.0
    ensures b * s <= 0.0
  {
  }

  lemma MulAtLeast(b: real, s: real)
    requires b >= 1.0 && s > 0.0
    ensures b * s >= s
  {
    assert b * s - s == (b - 1.0) * s;
  }

  lemma MulBetween(a: real, p: real)
    requires a >= 0.0 && 0.0 <= p <= 1.0
    ensures 0.0 <= a * p <= a
  {
    assert a - a * p == a * (1.0 - p);
  }

  // ---------------------------------------------------------------------
  // create_valid_smash_particle_matching_provided_quantities

  /** A three-momentum and a four-momentum (energy first). */
  datatype ThreeVector = ThreeVector(x: real, y: real, z: real)
  datatype FourVector = FourVector(e: real, p: ThreeVector)

  function Sqr3(v: ThreeVector): real { v.x * v.x + v.y * v.y + v.z * v.z }

  /** The invariant mass squared E^2 - p^2 (FourVector::sqr). */
  function Sqr(m: FourVector): real { m.e * m.e - Sqr3(m.p) }

  function Abs(x: real): real { if x < 0.0 then -x else x }

  /** really_small of constants.h. */
  const ReallySmall: real := 0.000001

  /** What the particle type table says about the species of a PDG code. */
  datatype TypeInfo = TypeInfo(isStable: bool, poleMass: real)

  /** The energy sqrt(p^2 + m^2) that set_4momentum(m, p) assigns; `onShell(m, p)` stands for it. */
  ghost predicate ShellEnergy(onShell: (real, ThreeVector) -> real)
  {
    forall m: real, p: ThreeVector {:trigger onShell(m, p)} :: onShell(m, p) >= 0.0 && onShell(m, p) * onShell(m, p) == m * m + Sqr3(p)
  }

  /** A stable species given with a mass away from its pole mass. */
  predicate MassMismatch(info: TypeInfo, mass: real)
  {
    info.isStable && Abs(mass - info.poleMass) > ReallySmall
  }

  /** A four-momentum away from the mass shell of the given mass. */
  predicate OffShell(momentum: FourVector, mass: real)
  {
    Abs(Sqr(momentum) - mass * mass) > ReallySmall
  }

  /** The mass the particle ends up on the shell of: the pole mass when the given mass was rejected. */
  function ShellMass(info: TypeInfo, mass: real): real
  {
    if MassMismatch(info, mass) then info.poleMass else mass
  }

  /**
   * The four-momentum the created particle gets: with the pole mass when a
   * stable species came with another mass, put back on the shell of the given
   * mass when the given four-momentum is off its shell, unchanged otherwise.
   */
  function ValidMomentum(info: TypeInfo, mass: real, momentum: FourVector, onShell: (real, ThreeVector) -> real): FourVector
  {
    if MassMismatch(info, mass) then FourVector(onShell(info.poleMass, momentum.p), momentum.p)
    else if OffShell(momentum, mass) then FourVector(onShell(mass, momentum.p), momentum.p)
    else momentum
  }

  /** The created particle keeps the given three-momentum and lies on the shell of ShellMass, within really_small. */
  lemma ValidMomentumOnShell(info: TypeInfo, mass: real, momentum: FourVector, onShell: (real, ThreeVector) -> real)
    requires ShellEnergy(onShell)
    ensures var r := ValidMomentum(info, mass, momentum, onShell);
      r.p == momentum.p && Abs(Sqr(r) - ShellMass(info, mass) * ShellMass(info, mass)) <= ReallySmall
  {
    var r := ValidMomentum(info, mass, momentum, onShell);
    if MassMismatch(info, mass) || OffShell(momentum, mass) {
      var m := ShellMass(info, mass);
      assert r.e == onShell(m, momentum.p);
      assert Sqr(r) == m * m;
    }
  }

  /** Repairing a repaired particle again changes nothing. */
  lemma ValidMomentumIdempotent(info: TypeInfo, mass: real, momentum: FourVector, onShell: (real, ThreeVector) -> real)
    requires ShellEnergy(onShell)
    ensures var r := ValidMomentum(info, mass, momentum, onShell);
      ValidMomentum(info, mass, r, onShell) == r
  {
    var r := ValidMomentum(info, mass, momentum, onShell);
    if !MassMismatch(info, mass) && OffShell(momentum, mass) {
      assert r.e == onShell(mass, momentum.p);
      assert Sqr(r) == mass * mass;
    }
  }

  /** The two warnings create_valid_smash_particle_matching_provided_quantities may log. */
  datatype Warning = MassWarning | OnShellWarning

  /** The caller's two bool& warning flags: true while the warning has not been given yet. */
  class WarningFlags {
    var massWarning: bool
    var onShellWarning: bool

    constructor ()
      ensures massWarning && onShellWarning
    {
      massWarning := true;
      onShellWarning := true;
    }
  }

  /** A particle created from provided quantities: its species and four-momentum. */
  datatype ProvidedParticle = ProvidedParticle(pdg: int, momentum: FourVector)

  /**
   * create_valid_smash_particle_matching_provided_quantities. Each warning is
   * logged only while its flag is set, and logging it clears the flag; the
   * logged warnings are returned in `logged`.
   */
  method CreateValidParticle(pdg: int, info: TypeInfo, mass: real, momentum: FourVector,
                             onShell: (real, ThreeVector) -> real, flags: WarningFlags)
    returns (particle: ProvidedParticle, logged: seq<Warning>)
    modifies flags
    ensures particle == ProvidedParticle(pdg, ValidMomentum(info, mass, momentum, onShell))
    ensures MassWarning in logged <==> old(flags.massWarning) && MassMismatch(info, mass)
    ensures OnShellWarning in logged <==> old(flags.onShellWarning) && !MassMismatch(info, mass) && OffShell(momentum, mass)
    ensures |logged| <= 1
    ensures flags.massWarning == (old(flags.massWarning) && MassWarning !in logged)
    ensures flags.onShellWarning == (old(flags.onShellWarning) && OnShellWarning !in logged)
  {
    logged := [];
    var p := momentum;
    if info.isStable && Abs(mass - info.poleMass) > ReallySmall {
      if flags.massWarning {
        logged := logged + [MassWarning];
        flags.massWarning := false;
      }
      p := FourVector(onShell(info.poleMass, momentum.p), momentum.p);
    } else {
      if Abs(Sqr(p) - mass * mass) > ReallySmall {
        if flags.onShellWarning {
          logged := logged + [OnShellWarning];
          flags.onShellWarning := false;
        }
        p := FourVector(onShell(mass, momentum.p), momentum.p);
      }
    }
    particle := ProvidedParticle(pdg, p);
  }
}
