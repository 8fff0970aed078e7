/**
 * The decision logic of SMASH's photon production in hadronic scatterings
 * (scatteractionphoton.cc): which photon reaction an incoming pair undergoes,
 * which hadron it produces besides the photon, which rho mass enters the
 * cross section, whether the reaction is kinematically possible, the
 * replacement rules for vanishing or negative cross sections, and the checks
 * of generate_final_state.
 *
 * Particles are identified by their PDG codes. The analytic cross sections,
 * form factors and momentum sampling are parameters of the model.
 */
module PhotonReactions {
  import opened Outcomes

  // PDG codes of the hadrons involved (pdgcode.h is not part of this model).
  const PiPlus: int := 0x211
  const PiMinus: int := -0x211
  const PiZero: int := 0x111
  const RhoPlus: int := 0x213
  const RhoMinus: int := -0x213
  const RhoZero: int := 0x113
  const Eta: int := 0x221
  const Neutron: int := 0x2112

  /** The mass of the omega meson, omega_mass of constants.h. */
  const OmegaMass: real := 0.783

  /** really_small of constants.h. */
  const ReallySmall: real := 0.000001

  predicate IsPion(pdg: int) { pdg == PiPlus || pdg == PiMinus || pdg == PiZero }

  predicate IsRho(pdg: int) { pdg == RhoPlus || pdg == RhoMinus || pdg == RhoZero }

  /** The electric charge of the pions and rhos, 0 for everything else. */
  function Charge(pdg: int): int
  {
    if pdg == PiPlus || pdg == RhoPlus then 1
    else if pdg == PiMinus || pdg == RhoMinus then -1
    else 0
  }

  /** ScatterActionPhoton::ReactionType: incoming pair first, outgoing hadron last. */
  datatype ReactionType =
    | PiZPiPRhoP | PiZPiMRhoM | PiPRhoZPiP | PiMRhoZPiM | PiMRhoPPiZ
    | PiPRhoMPiZ | PiZRhoPPiP | PiZRhoMPiM | PiPPiMRhoZ | PiZRhoZPiZ
    | NoReaction

  /** The switch over pack(a, b) in photon_reaction_type, after the pion has been put first. */
  function Classify(a: int, b: int): ReactionType
  {
    if (a == PiPlus && b == PiZero) || (a == PiZero && b == PiPlus) then PiZPiPRhoP
    else if (a == PiMinus && b == PiZero) || (a == PiZero && b == PiMinus) then PiZPiMRhoM
    else if a == PiPlus && b == RhoZero then PiPRhoZPiP
    else if a == PiMinus && b == RhoZero then PiMRhoZPiM
    else if a == PiMinus && b == RhoPlus then PiMRhoPPiZ
    else if a == PiPlus && b == RhoMinus then PiPRhoMPiZ
    else if a == PiZero && b == RhoPlus then PiZRhoPPiP
    else if a == PiZero && b == RhoMinus then PiZRhoMPiM
    else if (a == PiPlus && b == PiMinus) || (a == PiMinus && b == PiPlus) then PiPPiMRhoZ
    else if a == PiZero && b == RhoZero then PiZRhoZPiZ
    else NoReaction
  }

  /**
   * ScatterActionPhoton::photon_reaction_type: no reaction unless exactly two
   * particles come in; otherwise the pair is swapped when the first one is not
   * a pion, and classified.
   */
  function PhotonReactionType(incoming: seq<int>): (r: ReactionType)
    ensures |incoming| != 2 ==> r == NoReaction
  {
    if |incoming| != 2 then NoReaction
    else if !IsPion(incoming[0]) then Classify(incoming[1], incoming[0])
    else Classify(incoming[0], incoming[1])
  }

  /** The incoming pair of a reaction, as its name lists it: the pion first. */
  function Participants(r: ReactionType): (int, int)
    requires r != NoReaction
  {
    match r
    case PiZPiPRhoP => (PiZero, PiPlus)
    case PiZPiMRhoM => (PiZero, PiMinus)
    case PiPRhoZPiP => (PiPlus, RhoZero)
    case PiMRhoZPiM => (PiMinus, RhoZero)
    case PiMRhoPPiZ => (PiMinus, RhoPlus)
    case PiPRhoMPiZ => (PiPlus, RhoMinus)
    case PiZRhoPPiP => (PiZero, RhoPlus)
    case PiZRhoMPiM => (PiZero, RhoMinus)
    case PiPPiMRhoZ => (PiPlus, PiMinus)
    case PiZRhoZPiZ => (PiZero, RhoZero)
  }

  /** The unordered pair {a, b} is the incoming pair of reaction r. */
  predicate Undergoes(a: int, b: int, r: ReactionType)
  {
    r != NoReaction && ((a, b) == Participants(r) || (b, a) == Participants(r))
  }

  /** Swapping the two incoming particles does not change the reaction. */
  lemma ReactionTypeSymmetric(a: int, b: int)
    ensures PhotonReactionType([a, b]) == PhotonReactionType([b, a])
  {
  }

  /** A pair is classified as reaction r exactly when it is r's incoming pair, in either order. */
  lemma ReactionTypeIff(a: int, b: int, r: ReactionType)
    requires r != NoReaction
    ensures PhotonReactionType([a, b]) == r <==> Undergoes(a, b, r)
  {
  }

  /** A pair that is the incoming pair of no reaction is classified as no reaction. */
  lemma NoReactionIff(a: int, b: int)
    ensures PhotonReactionType([a, b]) == NoReaction <==> forall r: ReactionType :: !Undergoes(a, b, r)
  {
    if PhotonReactionType([a, b]) != NoReaction {
      assert Undergoes(a, b, PhotonReactionType([a, b]));
    }
  }

  /** The pairs of photons.cc's reaction-type test. */
  lemma ReactionTypeExamples()
    ensures PhotonReactionType([PiPlus, PiMinus]) != NoReaction
    ensures PhotonReactionType([RhoPlus, PiMinus]) != NoReaction
    ensures PhotonReactionType([Neutron, PiMinus]) == NoReaction
    ensures PhotonReactionType([PiPlus, Eta]) == NoReaction
  {
  }

  /** ScatterActionPhoton::outgoing_hadron_type: the hadron produced with the photon; None for no reaction (the invalid ParticleTypePtr). */
  function OutgoingHadron(r: ReactionType): Option<int>
  {
    match r
    case PiZPiPRhoP => Some(RhoPlus)
    case PiZPiMRhoM => Some(RhoMinus)
    case PiPPiMRhoZ => Some(RhoZero)
    case PiPRhoZPiP | PiZRhoPPiP => Some(PiPlus)
    case PiMRhoZPiM | PiZRhoMPiM => Some(PiMinus)
    case PiMRhoPPiZ | PiPRhoMPiZ | PiZRhoZPiZ => Some(PiZero)
    case NoReaction => None
  }

  /**
   * Every reaction produces a hadron that conserves the charge of the incoming
   * pair (the photon is neutral); the hadron is a rho exactly when two pions
   * come in, and a pion otherwise.
   */
  lemma OutgoingHadronConserves(r: ReactionType)
    ensures r == NoReaction <==> OutgoingHadron(r).None?
    ensures r != NoReaction ==>
      var (a, b) := Participants(r);
      var h := OutgoingHadron(r).value;
      && Charge(h) == Charge(a) + Charge(b)
      && (IsRho(h) <==> IsPion(a) && IsPion(b))
      && (IsPion(h) <==> !IsPion(a) || !IsPion(b))
      && IsPion(a)
  {
  }

  /** The outgoing hadrons of photons.cc's test, which also show that swapping the pair keeps the hadron. */
  lemma OutgoingHadronExamples()
    ensures OutgoingHadron(PhotonReactionType([PiPlus, PiZero])) == Some(RhoPlus)
    ensures OutgoingHadron(PhotonReactionType([PiZero, PiPlus])) == Some(RhoPlus)
    ensures OutgoingHadron(PhotonReactionType([PiMinus, PiZero])) == Some(RhoMinus)
    ensures OutgoingHadron(PhotonReactionType([PiZero, PiMinus])) == Some(RhoMinus)
    ensures OutgoingHadron(PhotonReactionType([PiMinus, RhoZero])) == Some(PiMinus)
    ensures OutgoingHadron(PhotonReactionType([PiZero, RhoMinus])) == Some(PiMinus)
    ensures OutgoingHadron(PhotonReactionType([PiPlus, PiMinus])) == Some(RhoZero)
    ensures OutgoingHadron(PhotonReactionType([PiZero, RhoZero])) == Some(PiZero)
  {
  }

  /** The rho is produced, not consumed, by the reaction. */
  predicate RhoInFinalState(r: ReactionType)
  {
    r == PiPPiMRhoZ || r == PiZPiMRhoM || r == PiZPiPRhoP
  }

  /** An incoming particle: its PDG code and its effective mass. */
  datatype IncomingParticle = IncomingParticle(pdg: int, effectiveMass: real)

  datatype PhotonError = InvalidReactionType | NotOnePhotonProcess

  /**
   * ScatterActionPhoton::rho_mass: the sampled mass of the outgoing hadron
   * when the rho is produced, the effective mass of the incoming rho otherwise;
   * an error for no reaction.
   */
  function RhoMass(r: ReactionType, hadronOutMass: real, first: IncomingParticle, second: IncomingParticle)
    : Result<real, PhotonError>
  {
    if r == NoReaction then Err(InvalidReactionType)
    else if RhoInFinalState(r) then Ok(hadronOutMass)
    else if IsRho(first.pdg) then Ok(first.effectiveMass)
    else Ok(second.effectiveMass)
  }

  /**
   * For the pair the reaction was classified from, rho_mass is the mass of
   * the rho: the produced one when the outgoing hadron is a rho, otherwise the
   * one incoming particle that is a rho.
   */
  lemma RhoMassIsTheRho(first: IncomingParticle, second: IncomingParticle, hadronOutMass: real)
    ensures var r := PhotonReactionType([first.pdg, second.pdg]);
      var m := RhoMass(r, hadronOutMass, first, second);
      && (m.Err? <==> r == NoReaction)
      && (r != NoReaction && IsRho(OutgoingHadron(r).value) ==> m == Ok(hadronOutMass))
      && (r != NoReaction && !IsRho(OutgoingHadron(r).value) ==>
            (IsRho(first.pdg) != IsRho(second.pdg))
            && m == Ok(if IsRho(first.pdg) then first.effectiveMass else second.effectiveMass))
  {
  }

  /** The mediating particle taken in the pi rho channels (default_mediator_). */
  datatype MediatorType = Sum | Pion | Omega

  /** What is_kinematically_possible reads of the outgoing hadron's type. */
  datatype HadronInfo = HadronInfo(isStable: bool, mass: real, minMassSpectral: real)

  /** The centre-of-mass energy needed to produce the outgoing hadron with some momentum. */
  function Threshold(info: HadronInfo): real
  {
    if info.isStable then info.mass else info.minMassSpectral + ReallySmall
  }

  /** The pi rho -> pi0 photon channels, which have only an s channel. */
  predicate PiRhoToPiZero(r: ReactionType)
  {
    r == PiMRhoPPiZ || r == PiPRhoMPiZ
  }

  /**
   * ScatterActionPhoton::is_kinematically_possible, written as the source's
   * chain of early returns; `typeOf` maps a PDG code to its type information.
   */
  function IsKinematicallyPossible(sqrts: real, incoming: seq<int>, mediator: MediatorType,
                                   typeOf: int -> HadronInfo): bool
  {
    var reac := PhotonReactionType(incoming);
    var hadron := OutgoingHadron(reac);
    if reac == NoReaction then false
    else if mediator == Pion && reac == PiZRhoZPiZ then false
    else if PiRhoToPiZero(reac) && mediator == Omega && sqrts < OmegaMass then false
    else if typeOf(hadron.value).isStable && sqrts < typeOf(hadron.value).mass then false
    else if !typeOf(hadron.value).isStable && sqrts < typeOf(hadron.value).minMassSpectral + ReallySmall then false
    else true
  }

  /**
   * A reaction is kinematically possible exactly when there is one, it is not
   * excluded by the mediator, the omega can be produced where it must be, and
   * the energy reaches the outgoing hadron's threshold.
   */
  lemma KinematicGateIff(sqrts: real, incoming: seq<int>, mediator: MediatorType, typeOf: int -> HadronInfo)
    ensures var r := PhotonReactionType(incoming);
      IsKinematicallyPossible(sqrts, incoming, mediator, typeOf) <==>
        && r != NoReaction
        && !(mediator == Pion && r == PiZRhoZPiZ)
        && !(mediator == Omega && PiRhoToPiZero(r) && sqrts < OmegaMass)
        && sqrts >= Threshold(typeOf(OutgoingHadron(r).value))
  {
  }

  /**
   * The threshold test of photons.cc: pi+ pi- -> rho0 photon is possible just
   * above the rho's minimal spectral mass plus really_small and impossible
   * below it.
   */
  lemma KinematicThresholdExample(low: real, high: real, mediator: MediatorType, typeOf: int -> HadronInfo)
    requires !typeOf(RhoZero).isStable
    requires low < typeOf(RhoZero).minMassSpectral + ReallySmall <= high
    ensures IsKinematicallyPossible(high, [PiPlus, PiMinus], mediator, typeOf)
    ensures !IsKinematicallyPossible(low, [PiPlus, PiMinus], mediator, typeOf)
  {
    assert PhotonReactionType([PiPlus, PiMinus]) == PiPPiMRhoZ;
  }

  /**
   * The replacement rule at the end of total_cross_section: an exactly
   * vanishing cross section becomes a dummy 0.01 mb as long as no collision
   * branch was created and stays 0 afterwards; a negative one becomes 0.1 mb.
   */
  function TotalCrossSectionValue(raw: real, collisionBranchCreated: bool): (x: real)
    ensures x >= 0.0
    ensures raw > 0.0 ==> x == raw
    ensures x == 0.0 <==> raw == 0.0 && collisionBranchCreated
    ensures raw == 0.0 && !collisionBranchCreated ==> x == 0.01
    ensures raw < 0.0 ==> x == 0.1
  {
    if raw == 0.0 then (if collisionBranchCreated then 0.0 else 0.01)
    else if raw < 0.0 then 0.1
    else raw
  }

  /** The replacement rule at the end of diff_cross_section: a negative value becomes 0.01 mb/GeV^2. */
  function DiffCrossSectionValue(raw: real): (x: real)
    ensures x >= 0.0
    ensures raw >= 0.0 ==> x == raw
    ensures raw < 0.0 ==> x == 0.01
  {
    if raw < 0.0 then 0.01 else raw
  }

  /** The analytic cross section of a reaction under a mediator, for the given rho mass (Mandelstam s is fixed per action). */
  type AnalyticCrossSection = (ReactionType, MediatorType, real) -> real

  /** cos(theta) clamped into the physical interval [-1, 1], as generate_final_state does near threshold. */
  function ClampCosTheta(c: real): (r: real)
    ensures -1.0 <= r <= 1.0
    ensures -1.0 <= c <= 1.0 ==> r == c
    ensures c > 1.0 ==> r == 1.0
    ensures c < -1.0 ==> r == -1.0
  {
    if c > 1.0 then 1.0 else if c < -1.0 then -1.0 else c
  }

  /** A collision branch: the two outgoing species and the cross section. */
  datatype CollisionBranch = CollisionBranch(hadron: int, other: int, weight: real)

  const Photon: int := 0x22

  /**
   * The state of a ScatterActionPhoton that the core reads and writes: the
   * reaction fixed at construction (its outgoing hadron is OutgoingHadron(reac)), the incoming pair
   * (swapped by generate_final_state), the photon branches added to the action
   * and the collision_branch_created_ flag.
   */
  class ScatterActionPhoton {
    const reac: ReactionType
    const hadronOutMass: real
    var first: IncomingParticle
    var second: IncomingParticle
    var photonProcesses: seq<CollisionBranch>
    var collisionBranchCreated: bool

    /** The constructor classifies the pair once; the hadron mass is sampled outside the model. */
    constructor (a: IncomingParticle, b: IncomingParticle, sampledMass: real)
      ensures reac == PhotonReactionType([a.pdg, b.pdg])
      ensures hadronOutMass == sampledMass && first == a && second == b
      ensures photonProcesses == [] && !collisionBranchCreated
    {
      reac := PhotonReactionType([a.pdg, b.pdg]);
      hadronOutMass := sampledMass;
      first, second := a, b;
      photonProcesses := [];
      collisionBranchCreated := false;
    }

    /** total_cross_section(mediator): the analytic value with the replacement rule; an error for no reaction. */
    function TotalCrossSection(mediator: MediatorType, xs: AnalyticCrossSection): (r: Result<real, PhotonError>)
      reads this
      ensures r.Err? <==> reac == NoReaction
      ensures r.Ok? ==> r.value >= 0.0
    {
      match RhoMass(reac, hadronOutMass, first, second)
      case Err(e) => Err(e)
      case Ok(mRho) => Ok(TotalCrossSectionValue(xs(reac, mediator, mRho), collisionBranchCreated))
    }

    /** diff_cross_section(t, m_rho, mediator), with `dxs` the analytic differential cross section at t. */
    function DiffCrossSection(mRho: real, mediator: MediatorType, dxs: AnalyticCrossSection): (x: real)
      reads this
      ensures x >= 0.0
    {
      DiffCrossSectionValue(if reac == NoReaction then 0.0 else dxs(reac, mediator, mRho))
    }

    /**
     * create_collision_branch: one branch to the outgoing hadron and a photon,
     * weighted with the total cross section computed before the flag is set,
     * which is set afterwards.
     */
    method CreateCollisionBranch(mediator: MediatorType, xs: AnalyticCrossSection)
      returns (r: Result<seq<CollisionBranch>, PhotonError>)
      modifies this
      ensures r.Err? <==> reac == NoReaction
      ensures r.Ok? ==> r.value == [CollisionBranch(OutgoingHadron(reac).value, Photon, old(TotalCrossSection(mediator, xs)).value)]
      ensures collisionBranchCreated == (old(collisionBranchCreated) || r.Ok?)
      ensures first == old(first) && second == old(second) && photonProcesses == old(photonProcesses)
    {
      var xsection := TotalCrossSection(mediator, xs);
      if xsection.Err? {
        return Err(xsection.error);
      }
      r := Ok([CollisionBranch(OutgoingHadron(reac).value, Photon, xsection.value)]);
      collisionBranchCreated := true;
    }

    /** The photon branches are added to the action by code that is not part of this model. */
    method AddPhotonProcesses(branches: seq<CollisionBranch>)
      modifies this
      ensures photonProcesses == old(photonProcesses) + branches
      ensures first == old(first) && second == old(second) && collisionBranchCreated == old(collisionBranchCreated)
    {
      photonProcesses := photonProcesses + branches;
    }

    /**
     * The checks of generate_final_state: an error unless exactly one photon
     * process exists; otherwise the incoming pair is swapped so that a pion
     * comes first, and the sampled cos(theta) is clamped into [-1, 1] (it is
     * returned; the momenta and weight built from it are not modelled).
     */
    method GenerateFinalState(costheta: real) returns (r: Result<real, PhotonError>)
      modifies this
      ensures r.Err? <==> |old(photonProcesses)| != 1
      ensures r.Err? ==> first == old(first) && second == old(second)
      ensures r.Ok? ==> -1.0 <= r.value <= 1.0 && r.value == ClampCosTheta(costheta)
      ensures r.Ok? ==> (first, second) == if IsPion(old(first).pdg) then (old(first), old(second)) else (old(second), old(first))
      ensures photonProcesses == old(photonProcesses) && collisionBranchCreated == old(collisionBranchCreated)
    {
      if |photonProcesses| != 1 {
        return Err(NotOnePhotonProcess);
      }
      if !IsPion(first.pdg) {
        first, second := second, first;
      }
      var c := costheta;
      if c > 1.0 || c < -1.0 {
        if c > 1.0 {
          c := 1.0;
        }
        if c < -1.0 {
          c := -1.0;
        }
      }
      r := Ok(c);
    }
  }

  /**
   * Once the collision branch exists, an exactly vanishing analytic cross
   * section is reported as 0 instead of the dummy value; any other value is
   * reported the same way before and after.
   */
  lemma ZeroAfterCreation(raw: real)
    ensures TotalCrossSectionValue(raw, false) != TotalCrossSectionValue(raw, true) <==> raw == 0.0
  {
  }

  /**
   * After generate_final_state has swapped, for a pair that undergoes a
   * reaction, the first particle is a pion and the pair is unchanged as a
   * multiset, so the reaction it undergoes is the same.
   */
  lemma SwapKeepsReaction(a: IncomingParticle, b: IncomingParticle)
    requires PhotonReactionType([a.pdg, b.pdg]) != NoReaction
    ensures var (f, s) := if IsPion(a.pdg) then (a, b) else (b, a);
      IsPion(f.pdg) && PhotonReactionType([f.pdg, s.pdg]) == PhotonReactionType([a.pdg, b.pdg])
  {
    ReactionTypeSymmetric(a.pdg, b.pdg);
  }
}
