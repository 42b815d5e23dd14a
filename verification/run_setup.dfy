/**
  Run-type detection and the timestep-dependent constraint tier chosen before
  the simulated system is built.
 */
module RunSetup {
  import opened Outcomes
  import opened Priority

  /** The force-field family the system is built from. */
  datatype RunType = Amber | Charmm | OpenMMXml

  /**
    The run type follows the first configured key among `parmfile` (AMBER),
    `parameters` (CHARMM) and `openmmsystem` (serialized OpenMM system); with
    none of them the run cannot start.
   */
  function DetectRunType(hasParmfile: bool, hasParameters: bool, hasOpenmmSystem: bool): (r: Result<RunType, RunError>)
    ensures r == Ok(Amber) <==> hasParmfile
    ensures r == Ok(Charmm) <==> !hasParmfile && hasParameters
    ensures r == Ok(OpenMMXml) <==> !hasParmfile && !hasParameters && hasOpenmmSystem
    ensures r.Err? <==> !hasParmfile && !hasParameters && !hasOpenmmSystem
    ensures r.Err? ==> r.error == UnknownRunType
  {
    if hasParmfile then Ok(Amber)
    else if hasParameters then Ok(Charmm)
    else if hasOpenmmSystem then Ok(OpenMMXml)
    else Err(UnknownRunType)
  }

  /** The run-type chain as an ordered rule list. */
  function RunTypeRules(hasParmfile: bool, hasParameters: bool, hasOpenmmSystem: bool): seq<Rule<Result<RunType, RunError>>>
  {
    [Rule(hasParmfile, Ok(Amber)), Rule(hasParameters, Ok(Charmm)), Rule(hasOpenmmSystem, Ok(OpenMMXml))]
  }

  /** The cascade is exactly the first-match reading of the ordered rule list. */
  lemma DetectRunTypeIsFirstMatch(hasParmfile: bool, hasParameters: bool, hasOpenmmSystem: bool)
    ensures DetectRunType(hasParmfile, hasParameters, hasOpenmmSystem)
         == Choose(RunTypeRules(hasParmfile, hasParameters, hasOpenmmSystem), Err(UnknownRunType))
  {
    var rules := RunTypeRules(hasParmfile, hasParameters, hasOpenmmSystem);
    var m := FirstMatch(rules);
    if hasParmfile {
      assert rules[0].guard;
      assert m == Some(0);
    } else if hasParameters {
      assert !rules[0].guard && rules[1].guard;
      assert m == Some(1);
    } else if hasOpenmmSystem {
      assert !rules[0].guard && !rules[1].guard && rules[2].guard;
      assert m == Some(2);
    } else {
      assert !rules[0].guard && !rules[1].guard && !rules[2].guard;
      assert m == None;
    }
  }

  /** Which bonds are held rigid by the integrator. */
  datatype Constraints = NoConstraints | HBonds | AllBonds

  /** The constraint settings handed to system construction. */
  datatype Tier = Tier(constraints: Constraints, hydrogenMassAmu: Option<int>, rigidWater: bool)

  /** Long timesteps: all bonds constrained, hydrogens repartitioned to 4 amu. */
  const LongStepTier := Tier(AllBonds, Some(4), true)
  /** Intermediate timesteps: bonds to hydrogen constrained, masses untouched. */
  const MediumStepTier := Tier(HBonds, None, true)
  /** Short timesteps: nothing constrained, flexible water. */
  const ShortStepTier := Tier(NoConstraints, None, false)

  /** The constraint tier for a timestep of `dtFs` femtoseconds. */
  function SelectTier(dtFs: real): (t: Tier)
    ensures t.constraints == AllBonds <==> dtFs > 2.0
    ensures t.constraints == HBonds <==> 0.5 < dtFs <= 2.0
    ensures t.constraints == NoConstraints <==> dtFs <= 0.5
    ensures t.hydrogenMassAmu == Some(4) <==> t.constraints == AllBonds
    ensures t.hydrogenMassAmu.None? <==> t.constraints != AllBonds
    ensures t.rigidWater <==> t.constraints != NoConstraints
  {
    if dtFs > 2.0 then LongStepTier
    else if dtFs > 0.5 then MediumStepTier
    else ShortStepTier
  }

  /** How much of the molecule the tier constrains. */
  function Strength(c: Constraints): nat
  {
    match c
    case NoConstraints => 0
    case HBonds => 1
    case AllBonds => 2
  }

  /** A longer timestep never constrains less. */
  lemma TierMonotone(dt1: real, dt2: real)
    requires dt1 <= dt2
    ensures Strength(SelectTier(dt1).constraints) <= Strength(SelectTier(dt2).constraints)
    ensures SelectTier(dt1).rigidWater ==> SelectTier(dt2).rigidWater
  {
  }

  /** The tier cascade is the first-match reading of its thresholds. */
  lemma SelectTierIsFirstMatch(dtFs: real)
    ensures SelectTier(dtFs) == Choose([Rule(dtFs > 2.0, LongStepTier), Rule(dtFs > 0.5, MediumStepTier)], ShortStepTier)
  {
    var rules := [Rule(dtFs > 2.0, LongStepTier), Rule(dtFs > 0.5, MediumStepTier)];
    var m := FirstMatch(rules);
    if dtFs > 2.0 {
      assert rules[0].guard;
      assert m == Some(0);
    } else if dtFs > 0.5 {
      assert !rules[0].guard && rules[1].guard;
      assert m == Some(1);
    } else {
      assert !rules[0].guard && !rules[1].guard;
      assert m == None;
    }
  }
}
