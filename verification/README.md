# miniomm run driver — decision and scheduling core

`miniomm` drives one OpenMM molecular-dynamics run to completion. Most of its
`run_omm` function builds OpenMM objects; this project models the part that
decides and counts, in Dafny:

- **Run type** (`RunSetup.DetectRunType`): `parmfile` gives an AMBER system,
  else `parameters` gives CHARMM, else `openmmsystem` gives a serialized OpenMM
  system, else the run fails.
- **Constraint tier** (`RunSetup.SelectTier`): a timestep above 2 fs
  constrains all bonds and repartitions hydrogen mass to 4 amu. A timestep in
  (0.5, 2] fs constrains bonds to hydrogen. Anything shorter constrains
  nothing and leaves water flexible.
- **Start** (`Resume.ResolveStart`): an existing checkpoint file wins and is the
  only path that sets the `resuming` flag. Next comes a saved state named by
  `openmmstate`. Otherwise the run starts fresh from input coordinates and box
  and then either minimises, or sets velocities from a binary velocity file,
  or assigns thermal velocities. The model records the sequence of operations
  issued on the simulation context.
- **Step planning** (`StepPlanning`): the remaining steps are the run length
  minus the elapsed steps. The run fails unless the save period divides them.
  The restraint ramp starts at unit `floor(elapsed / run * 1000)`. One
  progress unit integrates `int(run_steps / 1000)` timesteps.
- **Restraint progress loop** (`Restraint.ProgressLoop`): for each unit from
  the starting unit up to 999, any setpoint at that unit snaps the force
  constant `k` to its value and sets a new gradient. The last such setpoint in
  list order wins. One block of timesteps is then integrated and the gradient
  is added to `k`.
- **Driver** (`Driver.RunOmm`): composes the above. Each Python exception
  becomes a `RunError` value, reported together with the start operations
  already issued when it is raised.

Time is counted in integer timesteps throughout. The timestep itself is a
rational number of femtoseconds, used only for the tier comparison. Forces and
gradients are exact rationals (`real`).

Modules: `Outcomes` (Option, Result, RunError), `Priority` (a first-match rule
list that serves as the declarative reference for the decision cascades),
`RunSetup`, `Resume`, `StepPlanning`, `Restraint`, `Driver`.

## Model

| member | source | states |
|---|---|---|
| RunSetup.DetectRunType | miniomm/miniomm.py:136-144 | AMBER exactly when `parmfile` is present; CHARMM exactly when `parameters` is present and `parmfile` is absent; OpenMM exactly when only `openmmsystem` is present; the run-type error exactly when none of the three is present |
| RunSetup.DetectRunTypeIsFirstMatch | miniomm/miniomm.py:136-144 | the cascade agrees, for every combination of keys, with the first-match reading of the ordered rule list parmfile > parameters > openmmsystem, with the error as fallback |
| RunSetup.SelectTier | miniomm/miniomm.py:107-119 | all bonds constrained exactly when dt > 2 fs; bonds to hydrogen exactly when 0.5 < dt <= 2 fs; nothing constrained exactly when dt <= 0.5 fs; hydrogen mass 4 amu only with all bonds, otherwise none; rigid water exactly when something is constrained |
| RunSetup.TierMonotone | miniomm/miniomm.py:108-119 | a longer timestep never selects a weaker constraint tier and never turns rigid water off |
| RunSetup.SelectTierIsFirstMatch | miniomm/miniomm.py:108-119 | the tier cascade is the first-match reading of its two thresholds, with the unconstrained tier as fallback |
| Resume.VelocityActions | miniomm/miniomm.py:242-253 | a fresh start minimises exactly when `minimize` is given, and then saves the minimised state, in that order, and does nothing else (two operations); otherwise it issues one operation, a velocity write from the binary file when `binvelocities` is given and a thermal one otherwise; it never loads, sets positions or box |
| Resume.FreshActions | miniomm/miniomm.py:232-253 | a fresh start always sets positions first and the box second, before any minimisation or velocity write, loads neither checkpoint nor state, rounds no time, and writes velocities once unless minimising; it saves the minimised state exactly when minimising, after the minimisation, and issues four operations when minimising and three otherwise |
| Resume.ResolveStart | miniomm/miniomm.py:219-253 | an existing checkpoint always wins, and `resuming` is true exactly on that path, after the checkpoint load and time rounding to 10 timesteps; the saved state is used exactly when there is no checkpoint and `openmmstate` is given; otherwise the fresh start sets positions and then the box as its first two operations, before minimising or writing velocities; each kind of velocity write occurs exactly under its conditions, and velocities are written once exactly on a fresh start without `minimize`; the minimised state is saved exactly on a fresh start with `minimize`, after the minimisation; the only time rounding is to 10 timesteps; a checkpoint start issues two operations, a saved-state start one, a fresh start four with `minimize` and three without |
| Resume.StartSourceIsFirstMatch | miniomm/miniomm.py:219-232 | the start source is the first-match reading of checkpoint > openmmstate, with a fresh start as fallback |
| StepPlanning.PlanSteps | miniomm/miniomm.py:282-288 | the run aborts with the save-period error exactly when the remaining steps are not a multiple of the save period, or with division by zero when that period is zero, and with no other error; on success the remaining steps plus the elapsed steps give the run length |
| StepPlanning.PlannedRunIsWholeFrames | miniomm/miniomm.py:286-288 | a successfully planned run is a whole number of save periods |
| StepPlanning.WholeFramesArePlanned | miniomm/miniomm.py:282-288 | conversely, remaining steps equal to any whole number of save periods, negative included, are always planned |
| StepPlanning.AlignedResumeIsPlanned | miniomm/miniomm.py:282-288 | a run of a whole number of frames that resumes on a frame boundary plans exactly the frames still to come |
| StepPlanning.StartingPercent | miniomm/miniomm.py:315-316 | a zero run length fails with division by zero; otherwise the starting unit is the largest integer not above the elapsed fraction of the run times 1000 |
| StepPlanning.StartingPercentIsIntegerDivision | miniomm/miniomm.py:315-316 | for a positive run length the starting unit equals integer division of elapsed steps times 1000 by the run length |
| StepPlanning.StartingPercentBounds | miniomm/miniomm.py:315-320 | with remaining steps between 0 and the run length, the starting unit lies in [0, 1000]; a fresh run starts at 0 and a completed run at 1000 |
| StepPlanning.BlockSteps | miniomm/miniomm.py:328 | the block size is the run length divided by 1000 truncated toward zero: its multiple of 1000 lies within 1000 of the run length, on the zero side |
| Restraint.LastMatch | miniomm/miniomm.py:322-323 | finds the last setpoint whose unit equals the current one; none is found exactly when no setpoint has that unit |
| Restraint.SnapCommandsAreUpdates | miniomm/miniomm.py:322-326 | scanning the setpoints issues only `k` updates, none exactly when no setpoint matches, and the last one carries the force of the last matching setpoint |
| Restraint.ApplySetpoints | miniomm/miniomm.py:322-326 | when several setpoints share the current unit, the last one in list order sets force and gradient; with no match, force and gradient are unchanged and no update is issued |
| Restraint.ProgressLoop | miniomm/miniomm.py:317-331 | `k` is set to the starting force, then exactly one unit runs for each value of `range(startingPercent, 1000)`; this integrates `Iterations(startingPercent)` blocks of the block size, the last command sets `k` to the final force; a run starting at unit 1000 or later issues only the starting-force update and keeps its starting state |
| Restraint.UnitCounts | miniomm/miniomm.py:322-331 | one progress unit integrates exactly one block |
| Restraint.TraceCounts | miniomm/miniomm.py:320-328 | `n` progress units integrate `n` blocks, `n` times the block size in timesteps |
| Restraint.NoSetpointIsLinear | miniomm/miniomm.py:320-331 | after `n` units with no setpoint the gradient is unchanged and the force has grown by exactly `n` gradients |
| Restraint.SetpointSnaps | miniomm/miniomm.py:322-330 | at a unit carrying a setpoint, the state after the unit is that setpoint's force plus its gradient, whatever the state before |
| Restraint.SplitRamp | miniomm/miniomm.py:320-331 | running `a + b` units ends in the same state as running `a` units and then `b` more from there |
| Restraint.SplitTrace | miniomm/miniomm.py:320-331 | running `a + b` units issues the commands of the first `a` units followed by those of the next `b` |
| Restraint.ResumedRunReplaysSuffix | miniomm/miniomm.py:315-331 | a run resumed at unit `sp` from the state an uninterrupted run has there issues exactly the uninterrupted run's remaining commands and ends in the same state |
| Driver.Integrate | miniomm/miniomm.py:312-331 | without restraints, exactly one advance of all remaining steps; with restraints, division by zero exactly for a zero run length, else the starting-force update and the progress loop, integrating `Iterations(sp)` blocks of `int(run_steps/1000)` steps |
| Driver.Prepare | miniomm/miniomm.py:136-288 | the run-type error exactly when no system key is present, and then no start is issued; otherwise the start is issued, and the zero and misaligned save-period errors follow exactly under their conditions; on success the run type, tier and start are reported, and the remaining steps are a multiple of the save period: the run length on a fresh start, less the checkpoint steps after a checkpoint, less the saved-state steps, unrounded, after a saved state |
| Driver.RunOmm | miniomm/miniomm.py:136-331 | errors in the order run type, then zero save period, then misaligned save period, then zero run length on the restrained path, each exactly under its condition; a successful run reports the detected run type, the tier, the start and the remaining steps; these are a multiple of the save period and equal the run length on a fresh start, less the checkpoint steps after a checkpoint and less the saved-state steps after a saved state; without restraints the commands are one advance of the remaining steps; with restraints they are the starting-force update followed by the progress-loop trace from the starting unit, `Iterations(sp)` blocks of `int(run_steps/1000)` steps; every error after the run-type error still reports the start issued before it, so a save-period or zero-run-length abort on a fresh start with `minimize` comes after the minimisation and the save of the minimised state |
| Driver.FreshRestrainedRunDropsRemainder | miniomm/miniomm.py:315-328 | a fresh restrained run starts at unit 0 and integrates the run length minus its remainder modulo 1000; it integrates fewer steps than requested exactly when 1000 does not divide the run length |
| Driver.ResumedRestrainedRunCanOvershoot | miniomm/miniomm.py:315-328 | because blocks use the full run length and the starting unit is rounded down, a resumed restrained run can integrate more steps than remain: 2000 run steps with 3 done start at unit 1 and integrate 1998 steps for 1997 remaining |
| Driver.ResumedRestrainedRunCanFallShort | miniomm/miniomm.py:315-328 | when 1000 does not divide the run length, a resumed restrained run can integrate fewer steps than remain: 2500 run steps with 500 done start at unit 200 and integrate 1600 steps for 2000 remaining |
| Driver.RestrainedResumeCoversRemaining | miniomm/miniomm.py:315-328 | for any run length that is a positive multiple of 1000 and any elapsed count between 0 and the run length, the restrained run starts at unit `elapsed / block` and integrates the remaining steps plus `elapsed % block`: never fewer than remain, and exactly as many when the block size divides the elapsed steps |

## Left out

- System and topology construction, the integrator, barostat and PLUMED forces (miniomm/miniomm.py:148-211) are calls into OpenMM. Only the run type and constraint tier that feed them are modelled.
- Platform, device and precision selection and plugin reporting (miniomm/miniomm.py:44-57, 89-105, 213-217) depend on the environment and print output.
- Reading and writing checkpoints, states, NAMDBin and XSC files, and the reporters (miniomm/miniomm.py:220-230, 298-309, 334-340) are file I/O. The start is modelled as the sequence of context operations it issues, with no data.
- `util.round_state_time` is not part of this model. The checkpoint's elapsed step count is an input, taken to be already rounded to ten timesteps. The saved state's elapsed step count is an input too.
- `util.every` is not part of this model. The save period in timesteps is an input, and a zero period yields Python's division-by-zero error. The log period only feeds the reporters and is left out.
- `util.get_coords` and `util.get_box_size` are not part of this model. The model records that positions and box are set, not their values.
- `atrest.atrest_parser` and `atrest.add_restraints` are not part of this model. The setpoints are an input, and parser errors are not modelled.
- `atrest.get_starting_force_and_gradient` and `atrest.get_force_gradient` are not part of this model. They are arbitrary function inputs. As a result, linear interpolation between setpoints is not proved. Resume exactness is proved only on the condition that the starting helper returns the state an uninterrupted run has at that unit (`Restraint.ResumedRunReplaysSuffix`).
- StepPlanning.StartingPercent: computed on exact rationals. Python's float division and multiplication can round to a different integer next to a unit boundary.
- StepPlanning.BlockSteps: exact truncation of `run_steps / 1000`. The source truncates a float quotient, which differs only for run lengths beyond 2^53.
- Driver.RunOmm: remaining steps are the run length minus the elapsed steps. The source rounds a floating-point time difference divided by the timestep, and the two agree when the elapsed time is a whole number of timesteps.
- Restraint.ProgressLoop: force and gradient are exact, so floating-point drift from repeated `force += gradient` is not modelled.
- Temperatures, cutoffs, PME and friction settings, console printing and `Config` warnings feed only OpenMM or the console.

## Behaviour worth noting

- miniomm/miniomm.py:282-288 computes the remaining steps without a lower bound. A checkpoint beyond the requested run length gives a negative count, which passes planning when the save period divides it. Without restraints the run then advances by that negative count, and with restraints the progress loop runs no units.
- miniomm/miniomm.py:315-328 sizes a restraint block as `int(run_steps / 1000)` of the full run length, while the remaining steps are what is left. When 1000 divides the run length, a resumed restrained run integrates `elapsed % block` steps more than remain (`Driver.RestrainedResumeCoversRemaining`). Otherwise the truncated block can make a run, fresh or resumed, integrate fewer steps than remain (`Driver.FreshRestrainedRunDropsRemainder`, `Driver.ResumedRestrainedRunCanFallShort`): with 2500 run steps and 500 done, the run starts at unit 200 and integrates 800 blocks of 2, 1600 steps for 2000 remaining.
- miniomm/miniomm.py:322-328 applies every setpoint whose unit equals the current one, in list order, each with its own `k` update. The last one sets the force and gradient.
- miniomm/miniomm.py:242-245 minimises and writes `miniomm_minimized.xml` before the save-period check at miniomm/miniomm.py:287-288 and the division at miniomm/miniomm.py:316 can raise. A run with a bad save period or a zero run length aborts only after that work (`Driver.RunOmm` reports the issued start with its error).
- miniomm/miniomm.py:238 sets the box under `if not resuming`. On the fresh-start path `resuming` is always false, so the box is always set there. The model keeps the test.
- miniomm/miniomm.py:312-313 takes the unrestrained path as one `step` call of all remaining steps.
