/**
 * The configuration checks of SMASH's collider modus (collidermodus.cc): the
 * choice of exactly one collision-energy input, the consistency of the
 * deformation parameters of a deformed nucleus, the precedence of the
 * impact-parameter keys, the rejection of empty nuclei, the path of a custom
 * nucleus file and the initial displacement of the nuclei.
 *
 * Configuration entries are optional values; a key the source `take`s without
 * a default and that is missing is the error MissingKey (the Configuration
 * class itself is not part of this model). The kinematics that turn the
 * chosen energy input into sqrt(s) are left out: the model returns the input.
 */
module ColliderModus {
  import opened Outcomes

  datatype Beam = Projectile | Target

  /** The seven ways of giving the collision energy, in the order the constructor reads them. */
  datatype EnergyInput =
    | Sqrtsnn(sqrts: real)
    | ETot(eTot: real)
    | EKin(eKin: real)
    | PLab(pLab: real)
    | ETotEach(projETot: real, targETot: real)
    | EKinEach(projEKin: real, targEKin: real)
    | PLabEach(projPLab: real, targPLab: real)

  datatype ColliderError =
    | ColliderEmpty(beam: Beam)
    | InvalidEnergy(input: EnergyInput)
    | NonExistentEnergy
    | RedundantEnergy
    | AutomaticWithParameters(nucleus: Beam)
    | ManualWithoutBeta(nucleus: Beam)
    | GammaWithoutBeta2(nucleus: Beam)
    | MissingSpectrum
    | SpectrumLengthMismatch
    | EmptySpectrum
    | MissingKey

  /** The energy keys of the Collider section and of its Projectile and Target sections. */
  datatype EnergyConfig = EnergyConfig(
    sqrtsnn: Option<real>, eTot: Option<real>, eKin: Option<real>, pLab: Option<real>,
    projETot: Option<real>, targETot: Option<real>,
    projEKin: Option<real>, targEKin: Option<real>,
    projPLab: Option<real>, targPLab: Option<real>)

  /** The energy input given as option k (1 to 7), if any; a per-beam option counts only when both beams give it. */
  function GivenOption(c: EnergyConfig, k: int): seq<EnergyInput>
  {
    if k == 1 then (if c.sqrtsnn.Some? then [Sqrtsnn(c.sqrtsnn.value)] else [])
    else if k == 2 then (if c.eTot.Some? then [ETot(c.eTot.value)] else [])
    else if k == 3 then (if c.eKin.Some? then [EKin(c.eKin.value)] else [])
    else if k == 4 then (if c.pLab.Some? then [PLab(c.pLab.value)] else [])
    else if k == 5 then (if c.projETot.Some? && c.targETot.Some? then [ETotEach(c.projETot.value, c.targETot.value)] else [])
    else if k == 6 then (if c.projEKin.Some? && c.targEKin.Some? then [EKinEach(c.projEKin.value, c.targEKin.value)] else [])
    else if k == 7 then (if c.projPLab.Some? && c.targPLab.Some? then [PLabEach(c.projPLab.value, c.targPLab.value)] else [])
    else []
  }

  /** The energy inputs given as options k to 7, in order. */
  function GivenFrom(c: EnergyConfig, k: nat): seq<EnergyInput>
    decreases 8 - k
  {
    if k >= 8 then [] else GivenOption(c, k) + GivenFrom(c, k + 1)
  }

  /** All energy inputs given, in the order they are read. */
  function GivenEnergies(c: EnergyConfig): seq<EnergyInput>
  {
    GivenFrom(c, 1)
  }

  /**
   * An energy input the constructor rejects: sqrt(s_NN) not above the two
   * average nucleon masses, a negative energy or momentum (of either beam).
   */
  predicate Invalid(e: EnergyInput, massA: real, massB: real)
  {
    match e
    case Sqrtsnn(s) => s <= massA + massB
    case ETot(x) => x < 0.0
    case EKin(x) => x < 0.0
    case PLab(x) => x < 0.0
    case ETotEach(p, t) => p < 0.0 || t < 0.0
    case EKinEach(p, t) => p < 0.0 || t < 0.0
    case PLabEach(p, t) => p < 0.0 || t < 0.0
  }

  /** The first invalid input of a list. */
  function FirstInvalid(s: seq<EnergyInput>, massA: real, massB: real): Option<EnergyInput>
  {
    if |s| == 0 then None
    else if Invalid(s[0], massA, massB) then Some(s[0])
    else FirstInvalid(s[1..], massA, massB)
  }

  /**
   * The energy selection the constructor makes from the inputs given, in
   * order: the first invalid one is an error; otherwise no input is
   * "Non-existent collision energy", more than one is "Redundant collision
   * energy", and exactly one is chosen.
   */
  function SelectFrom(given: seq<EnergyInput>, massA: real, massB: real): Result<EnergyInput, ColliderError>
  {
    match FirstInvalid(given, massA, massB)
    case Some(e) => Err(InvalidEnergy(e))
    case None =>
      if |given| == 0 then Err(NonExistentEnergy)
      else if |given| > 1 then Err(RedundantEnergy)
      else Ok(given[0])
  }

  /** The energy selection of a configuration. */
  function EnergySelection(c: EnergyConfig, massA: real, massB: real): Result<EnergyInput, ColliderError>
  {
    SelectFrom(GivenEnergies(c), massA, massB)
  }

  lemma {:induction false} FirstInvalidHere(pre: seq<EnergyInput>, e: EnergyInput, post: seq<EnergyInput>, massA: real, massB: real)
    requires FirstInvalid(pre, massA, massB) == None && Invalid(e, massA, massB)
    ensures FirstInvalid(pre + [e] + post, massA, massB) == Some(e)
  {
    if |pre| > 0 {
      FirstInvalidHere(pre[1..], e, post, massA, massB);
      assert (pre + [e] + post)[1..] == pre[1..] + [e] + post;
    }
  }

  lemma {:induction false} FirstInvalidExtend(pre: seq<EnergyInput>, e: EnergyInput, massA: real, massB: real)
    requires FirstInvalid(pre, massA, massB) == None && !Invalid(e, massA, massB)
    ensures FirstInvalid(pre + [e], massA, massB) == None
  {
    if |pre| > 0 {
      FirstInvalidExtend(pre[1..], e, massA, massB);
      assert (pre + [e])[1..] == pre[1..] + [e];
    }
  }

  /**
   * The constructor's sequence of checks over the inputs still to be read,
   * after `count` inputs were counted, the last of them `chosen`: each input
   * is checked and counted in turn, and the count decides at the end.
   */
  function RemainingList(rest: seq<EnergyInput>, count: nat, chosen: EnergyInput, massA: real, massB: real)
    : Result<EnergyInput, ColliderError>
  {
    if |rest| == 0 then
      if count == 0 then Err(NonExistentEnergy)
      else if count > 1 then Err(RedundantEnergy)
      else Ok(chosen)
    else if Invalid(rest[0], massA, massB) then Err(InvalidEnergy(rest[0]))
    else RemainingList(rest[1..], count + 1, rest[0], massA, massB)
  }

  /** Splitting the inputs of one option off the front of a list. */
  lemma SplitOption(o: seq<EnergyInput>, rest: seq<EnergyInput>)
    requires |o| <= 1
    ensures |o| == 1 ==> |o + rest| > 0 && (o + rest)[0] == o[0] && (o + rest)[1..] == rest
    ensures |o| == 0 ==> o + rest == rest
  {
  }

  /**
   * The constructor's reading of options k to 7, after `count` inputs were
   * counted, the last of them `chosen`: a given option is checked and
   * counted, and the count decides after option 7.
   */
  function Remaining(c: EnergyConfig, k: nat, count: nat, chosen: EnergyInput, massA: real, massB: real)
    : Result<EnergyInput, ColliderError>
    decreases 8 - k
  {
    if k >= 8 then
      if count == 0 then Err(NonExistentEnergy)
      else if count > 1 then Err(RedundantEnergy)
      else Ok(chosen)
    else if |GivenOption(c, k)| == 1 then
      var e := GivenOption(c, k)[0];
      if Invalid(e, massA, massB) then Err(InvalidEnergy(e))
      else Remaining(c, k + 1, count + 1, e, massA, massB)
    else Remaining(c, k + 1, count, chosen, massA, massB)
  }

  /** Reading a given option is checking it at the front of the list of inputs from option k on. */
  lemma {:induction false} TakenStep(c: EnergyConfig, k: nat, count: nat, chosen: EnergyInput, massA: real, massB: real)
    requires 1 <= k < 8 && |GivenOption(c, k)| == 1
    ensures Remaining(c, k, count, chosen, massA, massB) == RemainingList(GivenFrom(c, k), count, chosen, massA, massB)
    decreases 8 - k, 0
  {
    var e := GivenOption(c, k)[0];
    if !Invalid(e, massA, massB) {
      RemainingFromList(c, k + 1, count + 1, e, massA, massB);
    }
    assert GivenFrom(c, k) == GivenOption(c, k) + GivenFrom(c, k + 1);
    SplitOption(GivenOption(c, k), GivenFrom(c, k + 1));
  }

  /** An option that is not given adds nothing to the list of given inputs. */
  lemma NotGivenSkipped(c: EnergyConfig, k: nat, count: nat, chosen: EnergyInput, massA: real, massB: real)
    requires 1 <= k < 8 && |GivenOption(c, k)| != 1
    ensures GivenFrom(c, k) == GivenFrom(c, k + 1)
    ensures Remaining(c, k, count, chosen, massA, massB) == Remaining(c, k + 1, count, chosen, massA, massB)
  {
    assert GivenOption(c, k) == [];
    assert GivenFrom(c, k) == [] + GivenFrom(c, k + 1);
  }

  /** Skipping an option that is not given leaves the list of inputs from option k on unchanged. */
  lemma {:induction false} SkippedStep(c: EnergyConfig, k: nat, count: nat, chosen: EnergyInput, massA: real, massB: real)
    requires 1 <= k < 8 && |GivenOption(c, k)| != 1
    ensures Remaining(c, k, count, chosen, massA, massB) == RemainingList(GivenFrom(c, k), count, chosen, massA, massB)
    decreases 8 - k, 0
  {
    calc {
      Remaining(c, k, count, chosen, massA, massB);
      { NotGivenSkipped(c, k, count, chosen, massA, massB); }
      Remaining(c, k + 1, count, chosen, massA, massB);
      { RemainingFromList(c, k + 1, count, chosen, massA, massB); }
      RemainingList(GivenFrom(c, k + 1), count, chosen, massA, massB);
      { NotGivenSkipped(c, k, count, chosen, massA, massB); }
      RemainingList(GivenFrom(c, k), count, chosen, massA, massB);
    }
  }

  /** Reading options k to 7 is checking the list of the inputs they give. */
  lemma {:induction false} RemainingFromList(c: EnergyConfig, k: nat, count: nat, chosen: EnergyInput, massA: real, massB: real)
    requires 1 <= k <= 8
    ensures Remaining(c, k, count, chosen, massA, massB) == RemainingList(GivenFrom(c, k), count, chosen, massA, massB)
    decreases 8 - k, 1
  {
    if k < 8 {
      if |GivenOption(c, k)| == 1 {
        TakenStep(c, k, count, chosen, massA, massB);
      } else {
        SkippedStep(c, k, count, chosen, massA, massB);
      }
    }
  }

  /**
   * Checking the inputs one by one, after `seen` were found valid and counted,
   * makes the selection from all of them.
   */
  lemma {:induction false} ListIsSelection(seen: seq<EnergyInput>, rest: seq<EnergyInput>, count: nat, chosen: EnergyInput,
                                           massA: real, massB: real)
    requires FirstInvalid(seen, massA, massB) == None && count == |seen|
    requires |seen| > 0 ==> chosen == seen[|seen| - 1]
    ensures RemainingList(rest, count, chosen, massA, massB) == SelectFrom(seen + rest, massA, massB)
    decreases |rest|
  {
    if |rest| == 0 {
      assert seen + rest == seen;
    } else {
      var e := rest[0];
      var tail := rest[1..];
      assert seen + rest == seen + [e] + tail;
      if Invalid(e, massA, massB) {
        FirstInvalidHere(seen, e, tail, massA, massB);
      } else {
        FirstInvalidExtend(seen, e, massA, massB);
        var seen' := seen + [e];
        var count' := count + 1;
        ListIsSelection(seen', tail, count', e, massA, massB);
      }
    }
  }

  /** Reading the seven options one by one makes the declarative energy selection. */
  lemma RemainingIsSelection(c: EnergyConfig, chosen: EnergyInput, massA: real, massB: real)
    ensures Remaining(c, 1, 0, chosen, massA, massB) == EnergySelection(c, massA, massB)
  {
    RemainingFromList(c, 1, 0, chosen, massA, massB);
    ListIsSelection([], GivenEnergies(c), 0, chosen, massA, massB);
    assert [] + GivenEnergies(c) == GivenEnergies(c);
  }

  /**
   * One energy option of the constructor: when it is given, an invalid value
   * is reported, otherwise it counts towards energy_input and becomes the
   * chosen input (the source sets sqrt_s_NN_ and total_s_ from it).
   */
  method TakeEnergyOption(c: EnergyConfig, k: nat, option: Option<EnergyInput>,
                          energyInput: nat, chosen: EnergyInput, massA: real, massB: real)
    returns (invalid: bool, energyInput': nat, chosen': EnergyInput)
    requires 1 <= k <= 7
    requires option.Some? <==> |GivenOption(c, k)| == 1
    requires option.Some? ==> option.value == GivenOption(c, k)[0]
    ensures invalid ==> option.Some? && Remaining(c, k, energyInput, chosen, massA, massB) == Err(InvalidEnergy(option.value))
    ensures !invalid ==> Remaining(c, k, energyInput, chosen, massA, massB) == Remaining(c, k + 1, energyInput', chosen', massA, massB)
  {
    invalid, energyInput', chosen' := false, energyInput, chosen;
    if option.Some? {
      if Invalid(option.value, massA, massB) {
        invalid := true;
        return;
      }
      energyInput' := energyInput + 1;
      chosen' := option.value;
    }
  }

  /**
   * The energy part of ColliderModus::ColliderModus: the seven options are
   * read one after the other, each given one is checked and counts towards
   * energy_input, and the count decides at the end.
   */
  method SelectEnergy(c: EnergyConfig, massA: real, massB: real) returns (r: Result<EnergyInput, ColliderError>)
    ensures r == EnergySelection(c, massA, massB)
  {
    var energyInput := 0;
    var chosen := Sqrtsnn(0.0);
    var invalid := false;
    RemainingIsSelection(c, chosen, massA, massB);
    // Option 1: the centre-of-mass energy per nucleon pair
    var option1 := if c.sqrtsnn.Some? then Some(Sqrtsnn(c.sqrtsnn.value)) else None;
    invalid, energyInput, chosen := TakeEnergyOption(c, 1, option1, energyInput, chosen, massA, massB);
    if invalid {
      return Err(InvalidEnergy(option1.value));
    }
    // Option 2: the total energy per nucleon of the projectile
    var option2 := if c.eTot.Some? then Some(ETot(c.eTot.value)) else None;
    invalid, energyInput, chosen := TakeEnergyOption(c, 2, option2, energyInput, chosen, massA, massB);
    if invalid {
      return Err(InvalidEnergy(option2.value));
    }
    // Option 3: the kinetic energy per nucleon of the projectile
    var option3 := if c.eKin.Some? then Some(EKin(c.eKin.value)) else None;
    invalid, energyInput, chosen := TakeEnergyOption(c, 3, option3, energyInput, chosen, massA, massB);
    if invalid {
      return Err(InvalidEnergy(option3.value));
    }
    // Option 4: the momentum of the projectile
    var option4 := if c.pLab.Some? then Some(PLab(c.pLab.value)) else None;
    invalid, energyInput, chosen := TakeEnergyOption(c, 4, option4, energyInput, chosen, massA, massB);
    if invalid {
      return Err(InvalidEnergy(option4.value));
    }
    // Option 5: the total energy per nucleon of each beam
    var option5 := if c.projETot.Some? && c.targETot.Some? then Some(ETotEach(c.projETot.value, c.targETot.value)) else None;
    invalid, energyInput, chosen := TakeEnergyOption(c, 5, option5, energyInput, chosen, massA, massB);
    if invalid {
      return Err(InvalidEnergy(option5.value));
    }
    // Option 6: the kinetic energy per nucleon of each beam
    var option6 := if c.projEKin.Some? && c.targEKin.Some? then Some(EKinEach(c.projEKin.value, c.targEKin.value)) else None;
    invalid, energyInput, chosen := TakeEnergyOption(c, 6, option6, energyInput, chosen, massA, massB);
    if invalid {
      return Err(InvalidEnergy(option6.value));
    }
    // Option 7: the momentum per nucleon of each beam
    var option7 := if c.projPLab.Some? && c.targPLab.Some? then Some(PLabEach(c.projPLab.value, c.targPLab.value)) else None;
    invalid, energyInput, chosen := TakeEnergyOption(c, 7, option7, energyInput, chosen, massA, massB);
    if invalid {
      return Err(InvalidEnergy(option7.value));
    }
    if energyInput == 0 {
      return Err(NonExistentEnergy);
    }
    if energyInput > 1 {
      return Err(RedundantEnergy);
    }
    r := Ok(chosen);
  }

  /** The energy is accepted exactly when exactly one valid input is given. */
  lemma EnergyAcceptedIff(c: EnergyConfig, massA: real, massB: real)
    ensures EnergySelection(c, massA, massB).Ok? <==>
      |GivenEnergies(c)| == 1 && !Invalid(GivenEnergies(c)[0], massA, massB)
  {
    var given := GivenEnergies(c);
    if |given| == 1 {
      assert FirstInvalid(given[1..], massA, massB) == None by { assert given[1..] == []; }
      assert FirstInvalid(given, massA, massB) == if Invalid(given[0], massA, massB) then Some(given[0]) else None;
    }
  }

  /** A per-beam energy key given for the projectile only is not an energy input. */
  lemma OneSidedBeamIgnored(c: EnergyConfig)
    requires c.targETot.None? && c.targEKin.None? && c.targPLab.None?
    ensures GivenEnergies(c) == GivenEnergies(c.(projETot := None, projEKin := None, projPLab := None))
  {
  }

  // ---------------------------------------------------------------------
  // create_deformed_nucleus

  /** The Deformed section of a nucleus. */
  datatype DeformationConfig = DeformationConfig(
    automatic: Option<bool>, beta2: Option<real>, beta3: Option<real>, beta4: Option<real>, gamma: Option<real>)

  /** The settings a DeformedNucleus is built with. */
  datatype Deformation = AutomaticDeformation | ManualDeformation(beta2: Option<real>, beta3: Option<real>, beta4: Option<real>, gamma: Option<real>)

  /** ColliderModus::create_deformed_nucleus: the consistency checks of the Deformed section. */
  function CreateDeformedNucleus(d: DeformationConfig, nucleus: Beam): (r: Result<Deformation, ColliderError>)
  {
    if d.automatic.None? then Err(MissingKey)
    else
      var automaticDeformation := d.automatic.value;
      var wasAnyBetaGiven := d.beta2.Some? || d.beta3.Some? || d.beta4.Some?;
      var wasAnyParameterGiven := wasAnyBetaGiven || d.gamma.Some?;
      var gammaWithoutBeta2 := d.gamma.Some? && d.beta2.None?;
      if automaticDeformation && wasAnyParameterGiven then Err(AutomaticWithParameters(nucleus))
      else if !automaticDeformation && !wasAnyBetaGiven then Err(ManualWithoutBeta(nucleus))
      else if !automaticDeformation && gammaWithoutBeta2 then Err(GammaWithoutBeta2(nucleus))
      else if automaticDeformation then Ok(AutomaticDeformation)
      else Ok(ManualDeformation(d.beta2, d.beta3, d.beta4, d.gamma))
  }

  /**
   * A deformed nucleus is accepted exactly when automatic deformation comes
   * with no parameter at all, or manual deformation comes with some beta and
   * with beta_2 whenever gamma is given.
   */
  lemma DeformationAcceptedIff(d: DeformationConfig, nucleus: Beam)
    ensures CreateDeformedNucleus(d, nucleus).Ok? <==>
      d.automatic.Some? &&
      (if d.automatic.value
       then d.beta2.None? && d.beta3.None? && d.beta4.None? && d.gamma.None?
       else (d.beta2.Some? || d.beta3.Some? || d.beta4.Some?) && (d.gamma.Some? ==> d.beta2.Some?))
    ensures CreateDeformedNucleus(d, nucleus).Ok? ==>
      (CreateDeformedNucleus(d, nucleus).value.AutomaticDeformation? <==> d.automatic.value)
  {
  }

  // ---------------------------------------------------------------------
  // Impact parameter

  datatype Sampling = Quadratic | Uniform | Custom

  /** The Impact section. */
  datatype ImpactConfig = ImpactConfig(
    value: Option<real>, sample: Option<Sampling>, impactValues: Option<seq<real>>, impactYields: Option<seq<real>>,
    range: Option<(real, real)>, max: Option<real>)

  /** What the constructor sets from the Impact section; the spectrum is kept for custom sampling. */
  datatype ImpactSettings = ImpactSettings(
    impact: real, impMin: real, impMax: real, sampling: Sampling,
    spectrum: Option<(seq<real>, seq<real>)>, yieldMax: Option<real>)

  /** The settings before the Impact section is read: impact parameter 0, quadratic sampling. */
  const DefaultImpact := ImpactSettings(0.0, 0.0, 0.0, Quadratic, None, None)

  /** The smallest value of a non-empty list (the value std::minmax_element finds first). */
  function MinOf(s: seq<real>): real
    requires |s| > 0
  {
    if |s| == 1 then s[0] else var m := MinOf(s[1..]); if s[0] <= m then s[0] else m
  }

  /** The largest value of a non-empty list. */
  function MaxOf(s: seq<real>): real
    requires |s| > 0
  {
    if |s| == 1 then s[0] else var m := MaxOf(s[1..]); if s[0] >= m then s[0] else m
  }

  /** MinOf and MaxOf are elements of the list and bound all of it. */
  lemma {:induction false} MinMaxOf(s: seq<real>)
    requires |s| > 0
    ensures MinOf(s) in s && MaxOf(s) in s
    ensures forall i :: 0 <= i < |s| ==> MinOf(s) <= s[i] <= MaxOf(s)
  {
    if |s| > 1 {
      MinMaxOf(s[1..]);
      forall i | 1 <= i < |s|
        ensures MinOf(s) <= s[i] <= MaxOf(s)
      {
        assert s[i] == s[1..][i - 1];
      }
    }
  }

  /**
   * The impact-parameter settings the constructor arrives at: Value fixes the
   * impact parameter and skips every other impact key; otherwise the range is
   * taken from Max (from 0) over Range over the custom spectrum's extremes.
   * Custom sampling needs both Values and Yields of equal length.
   */
  function ImpactSpec(i: ImpactConfig): Result<ImpactSettings, ColliderError>
  {
    if i.value.Some? then
      Ok(DefaultImpact.(impact := i.value.value, impMin := i.value.value, impMax := i.value.value))
    else
      var sampling := if i.sample.Some? then i.sample.value else Quadratic;
      var custom := i.sample == Some(Custom);
      if custom && i.impactValues.None? && i.impactYields.None? then Err(MissingSpectrum)
      else if custom && (i.impactValues.None? || i.impactYields.None?) then Err(MissingKey)
      else if custom && |i.impactValues.value| != |i.impactYields.value| then Err(SpectrumLengthMismatch)
      else if custom && |i.impactValues.value| == 0 then Err(EmptySpectrum)
      else
        var spectrumRange := if custom then (MinOf(i.impactValues.value), MaxOf(i.impactValues.value)) else (0.0, 0.0);
        var (lo, hi) := if i.max.Some? then (0.0, i.max.value) else if i.range.Some? then i.range.value else spectrumRange;
        Ok(ImpactSettings(0.0, lo, hi, sampling,
                          if custom then Some((i.impactValues.value, i.impactYields.value)) else None,
                          if custom then Some(MaxOf(i.impactYields.value)) else None))
  }

  /** The impact part of the constructor, as its sequence of overriding assignments. */
  method ReadImpact(i: ImpactConfig) returns (r: Result<ImpactSettings, ColliderError>)
    ensures r == ImpactSpec(i)
  {
    var s := DefaultImpact;
    if i.value.Some? {
      s := s.(impact := i.value.value);
      s := s.(impMin := s.impact, impMax := s.impact);
    } else {
      if i.sample.Some? {
        s := s.(sampling := i.sample.value);
        if s.sampling == Custom {
          if !(i.impactValues.Some? || i.impactYields.Some?) {
            return Err(MissingSpectrum);
          }
          if i.impactValues.None? || i.impactYields.None? {
            return Err(MissingKey);
          }
          var impacts := i.impactValues.value;
          var yieldList := i.impactYields.value;
          if |impacts| != |yieldList| {
            return Err(SpectrumLengthMismatch);
          }
          if |impacts| == 0 {
            return Err(EmptySpectrum);
          }
          s := s.(spectrum := Some((impacts, yieldList)));
          s := s.(impMin := MinOf(impacts), impMax := MaxOf(impacts));
          s := s.(yieldMax := Some(MaxOf(yieldList)));
        }
      }
      if i.range.Some? {
        s := s.(impMin := i.range.value.0, impMax := i.range.value.1);
      }
      if i.max.Some? {
        s := s.(impMin := 0.0);
        s := s.(impMax := i.max.value);
      }
    }
    r := Ok(s);
  }

  /** Value wins over every other impact key: the range collapses to the value. */
  lemma ValueWins(i: ImpactConfig)
    requires i.value.Some?
    ensures ImpactSpec(i).Ok?
    ensures var s := ImpactSpec(i).value; s.impact == s.impMin == s.impMax == i.value.value
  {
  }

  /** Without Value, Max sets the range from 0 and overrides Range. */
  lemma MaxOverridesRange(i: ImpactConfig)
    requires i.value.None? && i.max.Some? && ImpactSpec(i).Ok?
    ensures ImpactSpec(i).value.impMin == 0.0 && ImpactSpec(i).value.impMax == i.max.value
  {
  }

  /**
   * Custom sampling is accepted exactly when Values and Yields are both given,
   * non-empty and of equal length; without Range and Max its range is then
   * spanned by the given impact parameters.
   */
  lemma CustomSamplingIff(i: ImpactConfig)
    requires i.value.None? && i.sample == Some(Custom)
    ensures ImpactSpec(i).Ok? <==>
      i.impactValues.Some? && i.impactYields.Some? && |i.impactValues.value| == |i.impactYields.value| && |i.impactValues.value| > 0
    ensures ImpactSpec(i).Ok? && i.max.None? && i.range.None? ==>
      var s := ImpactSpec(i).value;
      && s.impMin in i.impactValues.value && s.impMax in i.impactValues.value
      && forall k :: 0 <= k < |i.impactValues.value| ==> s.impMin <= i.impactValues.value[k] <= s.impMax
  {
    if ImpactSpec(i).Ok? {
      MinMaxOf(i.impactValues.value);
    }
  }

  // ---------------------------------------------------------------------
  // Custom nucleus files

  /**
   * ColliderModus::custom_file_path: the directory and the file name joined
   * with exactly the one '/' the directory may already end with. The source
   * reads the last character of the directory, so it must not be empty.
   */
  function CustomFilePath(directory: string, fileName: string): string
    requires |directory| > 0
  {
    if directory[|directory| - 1] == '/' then directory + fileName
    else directory + "/" + fileName
  }

  /**
   * The path starts with the directory and ends with the file name, with a
   * '/' between them, and a directory with or without its trailing '/' gives
   * the same path.
   */
  lemma CustomFilePathShape(directory: string, fileName: string)
    requires |directory| > 0
    ensures var p := CustomFilePath(directory, fileName);
      && directory <= p
      && |p| > |fileName| && p[|p| - |fileName|..] == fileName
      && p[|p| - |fileName| - 1] == '/'
    ensures directory[|directory| - 1] != '/' ==> CustomFilePath(directory + "/", fileName) == CustomFilePath(directory, fileName)
  {
    var p := CustomFilePath(directory, fileName);
    if directory[|directory| - 1] == '/' {
      assert p == directory + fileName;
    } else {
      assert p == (directory + "/") + fileName;
      var d2 := directory + "/";
      assert d2[|d2| - 1] == '/';
    }
  }

  /** The Custom section of a nucleus. */
  datatype CustomFile = CustomFile(directory: string, fileName: string)

  /**
   * ColliderModus::same_inputfile, called once the projectile is known to be
   * custom: false when the target is not custom, otherwise whether both
   * nuclei are read from the same path.
   */
  function SameInputFile(projectile: CustomFile, target: Option<CustomFile>): bool
    requires |projectile.directory| > 0
    requires target.Some? ==> |target.value.directory| > 0
  {
    if target.None? then false
    else CustomFilePath(projectile.directory, projectile.fileName) == CustomFilePath(target.value.directory, target.value.fileName)
  }

  /** The same file name in the same directory, written with or without its trailing '/', is the same input file. */
  lemma SameFileDetected(directory: string, fileName: string)
    requires |directory| > 0 && directory[|directory| - 1] != '/'
    ensures SameInputFile(CustomFile(directory, fileName), Some(CustomFile(directory + "/", fileName)))
    ensures SameInputFile(CustomFile(directory + "/", fileName), Some(CustomFile(directory, fileName)))
  {
    CustomFilePathShape(directory, fileName);
  }

  // ---------------------------------------------------------------------
  // The constructor as a whole

  /**
   * A nucleus section as the constructor sees it: its Deformed and Custom
   * sub-sections, each of which may be present, and how many nucleons the
   * nucleus built from it has. A Deformed section decides how the nucleus is
   * built even when a Custom one is present too.
   */
  datatype NucleusConfig = NucleusConfig(deformed: Option<DeformationConfig>, custom: Option<CustomFile>, size: nat)

  /** The Collider section: both nuclei, the energy keys (mass_a, mass_b are the average nucleon masses), the Impact section and Initial_Distance. */
  datatype ColliderConfig = ColliderConfig(
    projectile: NucleusConfig, target: NucleusConfig,
    energy: EnergyConfig, massA: real, massB: real,
    impact: ImpactConfig, initialDistance: Option<real>)

  /** What a successfully constructed collider modus holds of the modelled parts. */
  datatype ColliderSettings = ColliderSettings(
    projectileDeformation: Option<Deformation>, targetDeformation: Option<Deformation>,
    sameFile: bool, energy: EnergyInput, impact: ImpactSettings, initialZDisplacement: real)

  /** A custom nucleus needs a non-empty File_Directory. */
  predicate DirectoriesGiven(n: NucleusConfig)
  {
    n.custom.Some? ==> |n.custom.value.directory| > 0
  }

  function DeformationOf(n: NucleusConfig, beam: Beam): Result<Option<Deformation>, ColliderError>
  {
    if n.deformed.Some? then
      match CreateDeformedNucleus(n.deformed.value, beam)
      case Ok(d) => Ok(Some(d))
      case Err(e) => Err(e)
    else Ok(None)
  }

  /** The initial displacement of each nucleus: half the Initial_Distance, `current` when none is given. */
  function InitialZDisplacement(distance: Option<real>, current: real): (z: real)
    ensures distance.Some? ==> 2.0 * z == distance.value
  {
    if distance.Some? then distance.value / 2.0 else current
  }

  /**
   * The modelled parts of ColliderModus::ColliderModus, in the order it runs
   * them: the projectile (deformation checks, then emptiness), the target
   * likewise, the energy, the impact parameter and the initial distance.
   * `defaultDisplacement` is the displacement set in the class definition.
   */
  function ColliderSpec(c: ColliderConfig, defaultDisplacement: real): Result<ColliderSettings, ColliderError>
    requires DirectoriesGiven(c.projectile) && DirectoriesGiven(c.target)
  {
    var projDef :- DeformationOf(c.projectile, Projectile);
    var sameFile :=
      c.projectile.deformed.None? && c.projectile.custom.Some? &&
      SameInputFile(c.projectile.custom.value, c.target.custom);
    if c.projectile.size < 1 then Err(ColliderEmpty(Projectile))
    else
      var targDef :- DeformationOf(c.target, Target);
      if c.target.size < 1 then Err(ColliderEmpty(Target))
      else
        var energy :- EnergySelection(c.energy, c.massA, c.massB);
        var impact :- ImpactSpec(c.impact);
        Ok(ColliderSettings(projDef, targDef, sameFile, energy, impact,
                            InitialZDisplacement(c.initialDistance, defaultDisplacement)))
  }

  /** The constructor, with the energy counted and the impact keys read as the source does. */
  method NewColliderModus(c: ColliderConfig, defaultDisplacement: real) returns (r: Result<ColliderSettings, ColliderError>)
    requires DirectoriesGiven(c.projectile) && DirectoriesGiven(c.target)
    ensures r == ColliderSpec(c, defaultDisplacement)
  {
    var projDef :- DeformationOf(c.projectile, Projectile);
    var sameFile := false;
    if c.projectile.deformed.None? && c.projectile.custom.Some? {
      sameFile := SameInputFile(c.projectile.custom.value, c.target.custom);
    }
    if c.projectile.size < 1 {
      return Err(ColliderEmpty(Projectile));
    }
    var targDef :- DeformationOf(c.target, Target);
    if c.target.size < 1 {
      return Err(ColliderEmpty(Target));
    }
    var energy :- SelectEnergy(c.energy, c.massA, c.massB);
    var impact :- ReadImpact(c.impact);
    var displacement := defaultDisplacement;
    if c.initialDistance.Some? {
      displacement := c.initialDistance.value;
      displacement := displacement / 2.0;
    }
    r := Ok(ColliderSettings(projDef, targDef, sameFile, energy, impact, displacement));
  }

  /** An empty nucleus is always rejected, the projectile before the target, unless its own deformation section is rejected first. */
  lemma EmptyNucleusRejected(c: ColliderConfig, defaultDisplacement: real)
    requires DirectoriesGiven(c.projectile) && DirectoriesGiven(c.target)
    ensures c.projectile.size == 0 && DeformationOf(c.projectile, Projectile).Ok? ==>
      ColliderSpec(c, defaultDisplacement) == Err(ColliderEmpty(Projectile))
    ensures c.projectile.size >= 1 && DeformationOf(c.projectile, Projectile).Ok?
            && c.target.size == 0 && DeformationOf(c.target, Target).Ok? ==>
      ColliderSpec(c, defaultDisplacement) == Err(ColliderEmpty(Target))
    ensures ColliderSpec(c, defaultDisplacement).Ok? ==> c.projectile.size >= 1 && c.target.size >= 1
  {
  }

  /**
   * same_inputfile looks only at the target's Custom section: a custom
   * projectile and a target read from the same path count as the same input
   * file even when the target is built from its Deformed section; a target
   * without a Custom section never does.
   */
  lemma SameFileReadsTargetCustomSection(c: ColliderConfig, defaultDisplacement: real)
    requires DirectoriesGiven(c.projectile) && DirectoriesGiven(c.target)
    requires ColliderSpec(c, defaultDisplacement).Ok?
    ensures c.projectile.deformed.None? && c.projectile.custom.Some? && c.target.custom.Some? ==>
      (ColliderSpec(c, defaultDisplacement).value.sameFile <==>
         CustomFilePath(c.projectile.custom.value.directory, c.projectile.custom.value.fileName)
         == CustomFilePath(c.target.custom.value.directory, c.target.custom.value.fileName))
    ensures c.target.custom.None? || c.projectile.deformed.Some? || c.projectile.custom.None? ==>
      !ColliderSpec(c, defaultDisplacement).value.sameFile
  {
  }
}
