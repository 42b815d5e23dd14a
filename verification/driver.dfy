/**
  One invocation of the run driver: detect the run type, choose the constraint
  tier, resolve the start, plan the remaining steps and issue the integration,
  either as one advance or as the restraint progress loop.
 */
module Driver {
  import opened Outcomes
  import opened RunSetup
  import opened Resume
  import opened StepPlanning
  import opened Restraint

  /** What `atomrestraint` provides: the parsed setpoints and the two ramp helpers. */
  datatype Restraints = Restraints(setpoints: seq<Setpoint>, startingRamp: int -> Ramp, gradientFrom: Setpoint -> real)

  /**
    The configuration the core reads: which keys are present, the timestep in
    femtoseconds, the run length and save period in timesteps, and the
    restraint inputs when `atomrestraint` is given.
   */
  datatype Config = Config(
    hasParmfile: bool, hasParameters: bool, hasOpenmmSystem: bool,
    hasOpenmmState: bool, hasMinimize: bool, hasBinVelocities: bool,
    timestepFs: real, runSteps: int, saveEvery: int,
    restraints: Option<Restraints>)

  /**
    The persisted state found at start-up: whether the checkpoint file exists,
    the elapsed steps it holds once its time is rounded, and the elapsed steps
    of the saved state named by `openmmstate`.
   */
  datatype Persisted = Persisted(checkpointExists: bool, checkpointSteps: int, stateSteps: int)

  /** What is decided before the integration starts. */
  datatype Setup = Setup(runType: RunType, tier: Tier, start: Start, plan: StepPlan)

  /** Everything decided and issued by a successful run. */
  datatype Run = Run(runType: RunType, tier: Tier, start: Start, plan: StepPlan, commands: seq<Command>)

  function StartOf(cfg: Config, disk: Persisted): Start
  {
    ResolveStart(disk.checkpointExists, cfg.hasOpenmmState, cfg.hasMinimize, cfg.hasBinVelocities)
  }

  /** The steps still to run: the run length less the elapsed steps of the start. */
  function RemainingOf(cfg: Config, disk: Persisted): int
  {
    cfg.runSteps - ElapsedSteps(StartOf(cfg, disk), disk.checkpointSteps, disk.stateSteps)
  }

  ghost predicate HasRunType(cfg: Config)
  {
    cfg.hasParmfile || cfg.hasParameters || cfg.hasOpenmmSystem
  }

  /** The schedule the progress loop runs on: block size from the full run length. */
  function ScheduleOf(rs: Restraints, runSteps: int): Schedule
  {
    Schedule(rs.setpoints, rs.gradientFrom, BlockSteps(runSteps))
  }

  /**
    The integration issued once `remaining` steps are planned: one advance of
    all of them without restraints; with restraints, `k` is set to the starting
    force and the progress loop runs from the starting unit `sp`, integrating
    `Iterations(sp)` blocks of `BlockSteps(runSteps)` timesteps. A zero run
    length aborts the restrained path.
   */
  method Integrate(restraints: Option<Restraints>, runSteps: int, remaining: int) returns (r: Result<seq<Command>, RunError>)
    ensures restraints.None? ==> r == Ok([Advance(remaining)])
    ensures restraints.Some? ==> (r.Err? <==> runSteps == 0)
    ensures r.Err? ==> r.error == ZeroRunLength
    ensures restraints.Some? && r.Ok? ==>
      var sp := StartingPercent(runSteps, remaining).value;
      var rs := restraints.value;
      && AdvanceCount(r.value) == Iterations(sp)
      && StepsIssued(r.value) == Iterations(sp) * BlockSteps(runSteps)
      && r.value == [SetK(rs.startingRamp(sp).force)] + TraceAfter(ScheduleOf(rs, runSteps), sp, Iterations(sp), rs.startingRamp(sp))
  {
    match restraints {
      case None =>
        return Ok([Advance(remaining)]);
      case Some(rs) =>
        var sp := StartingPercent(runSteps, remaining);
        if sp.Err? {
          return Err(sp.error);
        }
        var commands, last := ProgressLoop(ScheduleOf(rs, runSteps), sp.value, rs.startingRamp(sp.value));
        return Ok(commands);
    }
  }

  /**
    Everything up to the integration: the run type, then the tier and the
    start, then the plan of the remaining steps. `started` is the start once
    its operations have been issued: only the run-type error comes before it,
    so the save-period errors are raised after the start, minimisation and
    the save of the minimised state included.
   */
  method Prepare(cfg: Config, disk: Persisted) returns (r: Result<Setup, RunError>, started: Option<Start>)
    ensures r == Err(UnknownRunType) <==> !HasRunType(cfg)
    ensures r == Err(ZeroSavePeriod) <==> HasRunType(cfg) && cfg.saveEvery == 0
    ensures r == Err(MisalignedSavePeriod)
        <==> HasRunType(cfg) && cfg.saveEvery != 0 && RemainingOf(cfg, disk) % cfg.saveEvery != 0
    ensures r != Err(ZeroRunLength)
    ensures r.Ok? ==> r.value.runType == DetectRunType(cfg.hasParmfile, cfg.hasParameters, cfg.hasOpenmmSystem).value
    ensures r.Ok? ==> r.value.tier == SelectTier(cfg.timestepFs)
    ensures r.Ok? ==> r.value.start == StartOf(cfg, disk)
    ensures r.Ok? ==> r.value.plan.remaining == RemainingOf(cfg, disk) && r.value.plan.remaining % cfg.saveEvery == 0
    ensures r.Ok? && r.value.start.source == FreshStart ==> r.value.plan.remaining == cfg.runSteps
    ensures r.Ok? && r.value.start.source == Checkpoint ==> r.value.plan.remaining == cfg.runSteps - disk.checkpointSteps
    ensures r.Ok? && r.value.start.source == SavedState ==> r.value.plan.remaining == cfg.runSteps - disk.stateSteps
    ensures started.Some? <==> HasRunType(cfg)
    ensures started.Some? ==> started.value == StartOf(cfg, disk)
    ensures r.Ok? ==> started == Some(r.value.start)
  {
    var tier := SelectTier(cfg.timestepFs);
    var runType := DetectRunType(cfg.hasParmfile, cfg.hasParameters, cfg.hasOpenmmSystem);
    if runType.Err? {
      return Err(runType.error), None;
    }
    assert HasRunType(cfg);
    var start := StartOf(cfg, disk);
    started := Some(start);
    var elapsed := ElapsedSteps(start, disk.checkpointSteps, disk.stateSteps);
    assert cfg.runSteps - elapsed == RemainingOf(cfg, disk);
    assert start.source == FreshStart ==> elapsed == 0;
    assert start.source == Checkpoint ==> elapsed == disk.checkpointSteps;
    assert start.source == SavedState ==> elapsed == disk.stateSteps;
    var plan := PlanSteps(cfg.runSteps, elapsed, cfg.saveEvery);
    if plan.Err? {
      assert plan.error == ZeroSavePeriod || plan.error == MisalignedSavePeriod;
      return Err(plan.error), started;
    }
    assert plan.value.remaining == RemainingOf(cfg, disk);
    return Ok(Setup(runType.value, tier, start, plan.value)), started;
  }

  /**
    The run aborts on a missing run type, then on a save period that does not
    divide the remaining steps, then (with restraints only) on a zero run
    length; otherwise it reports the decisions taken and the commands issued.
    Every abort after the run type still reports the start it has issued.
   */
  method RunOmm(cfg: Config, disk: Persisted) returns (r: Result<Run, RunError>, started: Option<Start>)
    ensures r == Err(UnknownRunType) <==> !HasRunType(cfg)
    ensures r == Err(ZeroSavePeriod) <==> HasRunType(cfg) && cfg.saveEvery == 0
    ensures r == Err(MisalignedSavePeriod)
        <==> HasRunType(cfg) && cfg.saveEvery != 0 && RemainingOf(cfg, disk) % cfg.saveEvery != 0
    ensures r == Err(ZeroRunLength)
        <==> HasRunType(cfg) && cfg.saveEvery != 0 && RemainingOf(cfg, disk) % cfg.saveEvery == 0
             && cfg.restraints.Some? && cfg.runSteps == 0
    ensures r.Ok? ==> r.value.runType == DetectRunType(cfg.hasParmfile, cfg.hasParameters, cfg.hasOpenmmSystem).value
    ensures r.Ok? ==> r.value.tier == SelectTier(cfg.timestepFs)
    ensures r.Ok? ==> r.value.start == StartOf(cfg, disk)
    ensures r.Ok? ==> r.value.plan.remaining == RemainingOf(cfg, disk) && r.value.plan.remaining % cfg.saveEvery == 0
    ensures r.Ok? && cfg.restraints.None? ==> r.value.commands == [Advance(RemainingOf(cfg, disk))]
    ensures r.Ok? && r.value.start.source == FreshStart ==> r.value.plan.remaining == cfg.runSteps
    ensures r.Ok? && r.value.start.source == Checkpoint ==> r.value.plan.remaining == cfg.runSteps - disk.checkpointSteps
    ensures r.Ok? && r.value.start.source == SavedState ==> r.value.plan.remaining == cfg.runSteps - disk.stateSteps
    ensures r.Ok? && cfg.restraints.Some? ==>
      var sp := StartingPercent(cfg.runSteps, RemainingOf(cfg, disk)).value;
      var rs := cfg.restraints.value;
      && AdvanceCount(r.value.commands) == Iterations(sp)
      && StepsIssued(r.value.commands) == Iterations(sp) * BlockSteps(cfg.runSteps)
      && r.value.commands
         == [SetK(rs.startingRamp(sp).force)] + TraceAfter(ScheduleOf(rs, cfg.runSteps), sp, Iterations(sp), rs.startingRamp(sp))
    ensures started.Some? <==> HasRunType(cfg)
    ensures started.Some? ==> started.value == StartOf(cfg, disk)
    ensures r.Ok? ==> started == Some(r.value.start)
    ensures r == Err(ZeroSavePeriod) || r == Err(MisalignedSavePeriod) || r == Err(ZeroRunLength) ==>
      && started.Some?
      && (Minimize in started.value.actions <==> !disk.checkpointExists && !cfg.hasOpenmmState && cfg.hasMinimize)
      && (SaveMinimizedState in started.value.actions <==> !disk.checkpointExists && !cfg.hasOpenmmState && cfg.hasMinimize)
  {
    var setup;
    setup, started := Prepare(cfg, disk);
    ghost var minimises := !disk.checkpointExists && !cfg.hasOpenmmState && cfg.hasMinimize;
    assert started.Some? ==>
      (Minimize in started.value.actions <==> minimises) && (SaveMinimizedState in started.value.actions <==> minimises);
    if setup.Err? {
      assert setup.error == UnknownRunType || setup.error == ZeroSavePeriod || setup.error == MisalignedSavePeriod;
      return Err(setup.error), started;
    }
    var s := setup.value;
    var commands := Integrate(cfg.restraints, cfg.runSteps, s.plan.remaining);
    if commands.Err? {
      return Err(commands.error), started;
    }
    if cfg.restraints.Some? {
      ghost var sp := StartingPercent(cfg.runSteps, RemainingOf(cfg, disk)).value;
      ghost var rs := cfg.restraints.value;
      assert commands.value == [SetK(rs.startingRamp(sp).force)] + TraceAfter(ScheduleOf(rs, cfg.runSteps), sp, Iterations(sp), rs.startingRamp(sp));
    }
    return Ok(Run(s.runType, s.tier, s.start, s.plan, commands.value)), started;
  }

  /**
    A fresh restrained run integrates 1000 blocks, that is the run length with
    its remainder modulo 1000 dropped; the remainder steps are never run.
   */
  lemma FreshRestrainedRunDropsRemainder(runSteps: int)
    requires runSteps > 0
    ensures StartingPercent(runSteps, runSteps) == Ok(0)
    ensures Iterations(0) * BlockSteps(runSteps) == runSteps - runSteps % ProgressUnits
    ensures Iterations(0) * BlockSteps(runSteps) < runSteps <==> runSteps % ProgressUnits != 0
  {
    StartingPercentBounds(runSteps, runSteps);
    assert runSteps == BlockSteps(runSteps) * ProgressUnits + runSteps % ProgressUnits;
  }

  /**
    Block sizes follow the full run length, not the remaining steps, while the
    starting unit is rounded down: a resumed run can integrate more steps than
    remain. With 2000 run steps of which 3 are done, unit 1 starts and 999
    blocks of 2 give 1998 steps for 1997 remaining.
   */
  lemma ResumedRestrainedRunCanOvershoot()
    ensures StartingPercent(2000, 1997) == Ok(1)
    ensures Iterations(1) * BlockSteps(2000) == 1998
  {
    StartingPercentIsIntegerDivision(2000, 1997);
  }

  /**
    When 1000 does not divide the run length the truncated block can leave a
    resumed run short: with 2500 run steps of which 500 are done, unit 200
    starts and 800 blocks of 2 give 1600 steps for 2000 remaining.
   */
  lemma ResumedRestrainedRunCanFallShort()
    ensures StartingPercent(2500, 2000) == Ok(200)
    ensures Iterations(200) * BlockSteps(2500) == 1600
  {
    StartingPercentIsIntegerDivision(2500, 2000);
  }

  /**
    When 1000 divides the run length, a restrained run resumed after `elapsed`
    steps starts at unit `elapsed / block` and integrates the remaining steps
    plus `elapsed % block`: never fewer than remain, and exactly as many when
    the block size divides the elapsed steps.
   */
  lemma RestrainedResumeCoversRemaining(block: int, elapsed: int)
    requires block > 0 && 0 <= elapsed <= block * ProgressUnits
    ensures BlockSteps(block * ProgressUnits) == block
    ensures StartingPercent(block * ProgressUnits, block * ProgressUnits - elapsed) == Ok(elapsed / block)
    ensures Iterations(elapsed / block) * block == block * ProgressUnits - elapsed + elapsed % block
    ensures Iterations(elapsed / block) * block >= block * ProgressUnits - elapsed
    ensures Iterations(elapsed / block) * block == block * ProgressUnits - elapsed <==> elapsed % block == 0
  {
    var runSteps := block * ProgressUnits;
    DivisionIsUnique(runSteps, ProgressUnits, block, 0);
    var q := elapsed / block;
    var m := elapsed % block;
    assert elapsed == q * block + m && 0 <= m < block;
    assert elapsed * 1000 == q * runSteps + m * 1000;
    DivisionIsUnique(elapsed * 1000, runSteps, q, m * 1000);
    StartingPercentIsIntegerDivision(runSteps, runSteps - elapsed);
    assert runSteps - (runSteps - elapsed) == elapsed;
    DivisionBetween(elapsed, block, ProgressUnits);
    assert Iterations(q) == 1000 - q;
    assert (1000 - q) * block == runSteps - q * block;
  }
}
