/**
  Step planning: how many timesteps remain, whether they split into whole
  trajectory frames, where on the 1000-unit progress axis the run starts, and
  how many timesteps one progress unit advances.
 */
module StepPlanning {
  import opened Outcomes

  /** The number of progress units a run is divided into for restraint ramping. */
  const ProgressUnits := 1000

  datatype StepPlan = StepPlan(remaining: int, saveEvery: int)

  /**
    The remaining steps are the run length less the elapsed steps; planning
    fails unless they are a whole number of save periods. The run length is not
    compared with the elapsed steps, so an overshot run plans a negative count.
    Python's `%` by a non-zero divisor is zero exactly when the divisor divides
    the dividend, whatever the signs, as Dafny's `%` is.
   */
  function PlanSteps(runSteps: int, elapsedSteps: int, saveEvery: int): (r: Result<StepPlan, RunError>)
    ensures r == Err(ZeroSavePeriod) <==> saveEvery == 0
    ensures r == Err(MisalignedSavePeriod) <==> saveEvery != 0 && (runSteps - elapsedSteps) % saveEvery != 0
    ensures r.Err? ==> r.error == ZeroSavePeriod || r.error == MisalignedSavePeriod
    ensures r.Ok? ==> r.value.remaining + elapsedSteps == runSteps && r.value.saveEvery == saveEvery
  {
    var remaining := runSteps - elapsedSteps;
    if saveEvery == 0 then Err(ZeroSavePeriod)
    else if remaining % saveEvery != 0 then Err(MisalignedSavePeriod)
    else Ok(StepPlan(remaining, saveEvery))
  }

  /** A planned run is a whole number of trajectory frames. */
  lemma PlannedRunIsWholeFrames(runSteps: int, elapsedSteps: int, saveEvery: int)
    requires PlanSteps(runSteps, elapsedSteps, saveEvery).Ok?
    ensures var p := PlanSteps(runSteps, elapsedSteps, saveEvery).value;
      p.saveEvery != 0 && p.remaining == (p.remaining / p.saveEvery) * p.saveEvery
  {
    var p := PlanSteps(runSteps, elapsedSteps, saveEvery).value;
    assert p.remaining == (p.remaining / p.saveEvery) * p.saveEvery + p.remaining % p.saveEvery;
  }

  /**
    Conversely, a run whose remaining steps are `frames` save periods is
    planned, whichever sign `frames` has.
   */
  lemma {:induction false} WholeFramesArePlanned(runSteps: int, elapsedSteps: int, saveEvery: int, frames: int)
    requires saveEvery != 0
    requires runSteps - elapsedSteps == frames * saveEvery
    ensures PlanSteps(runSteps, elapsedSteps, saveEvery) == Ok(StepPlan(frames * saveEvery, saveEvery))
  {
    MultipleHasNoRemainder(frames, saveEvery);
  }

  lemma ProductOfNonNegatives(x: int, y: int)
    requires x >= 0 && y >= 0
    ensures x * y >= 0
  {}

  /** A non-zero multiple of a positive `b` is at least `b` away from zero. */
  lemma ProductAwayFromZero(x: int, b: int)
    requires b > 0
    ensures x >= 1 ==> x * b >= b
    ensures x <= -1 ==> x * b <= -b
  {
    if x >= 1 {
      ProductOfNonNegatives(x - 1, b);
      assert x * b == (x - 1) * b + b;
    } else if x <= -1 {
      ProductOfNonNegatives(-x - 1, b);
      assert x * b == -((-x - 1) * b + b);
    }
  }

  lemma MultipleHasNoRemainder(k: int, d: int)
    requires d != 0
    ensures (k * d) % d == 0
  {
    var q := (k * d) / d;
    var r := (k * d) % d;
    assert k * d == q * d + r;
    var a := if d > 0 then d else -d;
    assert 0 <= r < a;
    var x := if d > 0 then k - q else q - k;
    assert x * a == r by {
      assert (k - q) * d == r;
    }
    ProductAwayFromZero(x, a);
  }

  /**
    A run resumed at a frame boundary of a run that is itself a whole number of
    frames plans the frames still to come.
   */
  lemma AlignedResumeIsPlanned(saveEvery: int, totalFrames: int, doneFrames: int)
    requires saveEvery != 0
    ensures PlanSteps(totalFrames * saveEvery, doneFrames * saveEvery, saveEvery)
         == Ok(StepPlan((totalFrames - doneFrames) * saveEvery, saveEvery))
  {
    assert totalFrames * saveEvery - doneFrames * saveEvery == (totalFrames - doneFrames) * saveEvery;
    WholeFramesArePlanned(totalFrames * saveEvery, doneFrames * saveEvery, saveEvery, totalFrames - doneFrames);
  }

  /**
    The progress unit the restraint ramp starts at: the floor of the elapsed
    fraction of the run times 1000, computed on exact rationals. A zero run
    length divides by zero.
   */
  function StartingPercent(runSteps: int, remainingSteps: int): (r: Result<int, RunError>)
    ensures r.Err? <==> runSteps == 0
    ensures r.Err? ==> r.error == ZeroRunLength
    ensures r.Ok? ==> (r.value as real) <= (runSteps - remainingSteps) as real / runSteps as real * 1000.0 < (r.value + 1) as real
  {
    if runSteps == 0 then Err(ZeroRunLength)
    else
      var startingStep := runSteps - remainingSteps;
      Ok((startingStep as real / runSteps as real * ProgressUnits as real).Floor)
  }

  /** For a positive run length the starting unit is plain integer division. */
  lemma StartingPercentIsIntegerDivision(runSteps: int, remainingSteps: int)
    requires runSteps > 0
    ensures StartingPercent(runSteps, remainingSteps) == Ok((runSteps - remainingSteps) * 1000 / runSteps)
  {
    var s := runSteps - remainingSteps;
    assert s as real / runSteps as real * 1000.0 == (s * 1000) as real / runSteps as real;
    FloorOfQuotient(s * 1000, runSteps);
  }

  /** The floor of an exact quotient by a positive divisor is Dafny's integer division. */
  lemma FloorOfQuotient(n: int, d: int)
    requires d > 0
    ensures (n as real / d as real).Floor == n / d
  {
    var q := n / d;
    var m := n % d;
    assert n == q * d + m && 0 <= m < d;
    var x := n as real / d as real;
    assert n as real == q as real * d as real + m as real;
    assert x == q as real + m as real / d as real;
    assert 0.0 <= m as real / d as real < 1.0;
  }

  /** Integer division is determined by quotient and remainder bounds. */
  lemma DivisionIsUnique(n: int, d: int, q: int, m: int)
    requires d > 0 && 0 <= m < d && n == q * d + m
    ensures n / d == q && n % d == m
  {
    var q' := n / d;
    var m' := n % d;
    assert n == q' * d + m' && 0 <= m' < d;
    assert (q - q') * d == m' - m;
    ProductAwayFromZero(q - q', d);
  }

  /**
    With remaining steps between zero and the run length the starting unit is
    on [0, 1000]: 0 for a fresh run, 1000 for a completed one.
   */
  lemma StartingPercentBounds(runSteps: int, remainingSteps: int)
    requires 0 <= remainingSteps <= runSteps && runSteps > 0
    ensures var sp := StartingPercent(runSteps, remainingSteps).value; 0 <= sp <= ProgressUnits
    ensures remainingSteps == runSteps ==> StartingPercent(runSteps, remainingSteps) == Ok(0)
    ensures remainingSteps == 0 ==> StartingPercent(runSteps, remainingSteps) == Ok(ProgressUnits)
  {
    StartingPercentIsIntegerDivision(runSteps, remainingSteps);
    var s := runSteps - remainingSteps;
    assert 0 <= s * 1000 <= runSteps * 1000;
    DivisionBetween(s * 1000, runSteps, 1000);
  }

  lemma DivisionBetween(a: int, b: int, k: int)
    requires b > 0 && k >= 0 && 0 <= a <= b * k
    ensures 0 <= a / b <= k
    ensures a == b * k ==> a / b == k
  {
    var q := a / b;
    var m := a % b;
    assert a == q * b + m && 0 <= m < b;
    ProductAwayFromZero(q, b);
    ProductAwayFromZero(q - k, b);
    assert a - b * k == (q - k) * b + m;
  }

  /**
    Timesteps per progress unit, `int(run_steps / 1000)`: the quotient is
    truncated toward zero, so any remainder of the run length is dropped.
   */
  function BlockSteps(runSteps: int): (b: int)
    ensures runSteps >= 0 ==> 0 <= b * ProgressUnits <= runSteps < (b + 1) * ProgressUnits
    ensures runSteps < 0 ==> (b - 1) * ProgressUnits < runSteps <= b * ProgressUnits <= 0
  {
    if runSteps >= 0 then runSteps / ProgressUnits else -((-runSteps) / ProgressUnits)
  }
}
