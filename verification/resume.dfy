/**
  Where a run starts from: a checkpoint left by an interrupted run, a saved
  engine state named in the configuration, or fresh coordinates. The model
  records the operations issued on the simulation context, in order, and the
  `resuming` flag later handed to the reporters.
 */
module Resume {
  import opened Outcomes
  import opened Priority

  datatype Source = Checkpoint | SavedState | FreshStart

  /** An operation issued on the simulation context while preparing the start. */
  datatype Action =
    | LoadCheckpoint
    | RoundTime(multipleOfSteps: nat)   // round the context's time to a multiple of this many timesteps
    | LoadState
    | SetPositions
    | SetBox
    | Minimize
    | SaveMinimizedState
    | SetVelocitiesFromFile
    | SetThermalVelocities

  datatype Start = Start(source: Source, actions: seq<Action>, resuming: bool)

  /** A restored checkpoint has its time rounded to a multiple of ten timesteps. */
  const CheckpointRounding: nat := 10

  /** The number of operations that overwrite the velocities. */
  function VelocityWrites(actions: seq<Action>): nat
  {
    if |actions| == 0 then 0
    else
      (if actions[0] == SetVelocitiesFromFile || actions[0] == SetThermalVelocities then 1 else 0)
      + VelocityWrites(actions[1..])
  }

  /** Counting velocity writes distributes over concatenation. */
  lemma {:induction false} VelocityWritesAppend(a: seq<Action>, b: seq<Action>)
    ensures VelocityWrites(a + b) == VelocityWrites(a) + VelocityWrites(b)
  {
    if |a| > 0 {
      assert (a + b)[1..] == a[1..] + b;
      VelocityWritesAppend(a[1..], b);
    } else {
      assert a + b == b;
    }
  }

  /** `a` is issued before `b`. */
  ghost predicate Precedes(actions: seq<Action>, a: Action, b: Action)
  {
    exists i, j :: 0 <= i < j < |actions| && actions[i] == a && actions[j] == b
  }

  /** The velocity operations of a fresh start. */
  function VelocityActions(hasMinimize: bool, hasBinVelocities: bool): (v: seq<Action>)
    ensures Minimize in v <==> hasMinimize
    ensures SaveMinimizedState in v <==> hasMinimize
    ensures hasMinimize ==> Precedes(v, Minimize, SaveMinimizedState)
    ensures |v| == (if hasMinimize then 2 else 1)
    ensures SetVelocitiesFromFile in v <==> !hasMinimize && hasBinVelocities
    ensures SetThermalVelocities in v <==> !hasMinimize && !hasBinVelocities
    ensures VelocityWrites(v) == (if hasMinimize then 0 else 1)
    ensures LoadCheckpoint !in v && LoadState !in v && SetPositions !in v && SetBox !in v
    ensures forall m :: RoundTime(m) !in v
  {
    if hasMinimize then
      var v := [Minimize, SaveMinimizedState];
      assert v[0] == Minimize && v[1] == SaveMinimizedState;
      v
    else if hasBinVelocities then [SetVelocitiesFromFile]
    else [SetThermalVelocities]
  }

  /**
    The operations of a fresh start: positions from the input coordinates, the
    box unless resuming (never the case on this path), then the velocity
    operations.
   */
  function FreshActions(resuming: bool, hasMinimize: bool, hasBinVelocities: bool): (actions: seq<Action>)
    requires !resuming
    ensures |actions| == (if hasMinimize then 4 else 3)
    ensures actions[0] == SetPositions && actions[1] == SetBox
    ensures LoadCheckpoint !in actions && LoadState !in actions
    ensures forall m :: RoundTime(m) !in actions
    ensures Minimize in actions <==> hasMinimize
    ensures SaveMinimizedState in actions <==> hasMinimize
    ensures hasMinimize ==> Precedes(actions, Minimize, SaveMinimizedState)
    ensures SetVelocitiesFromFile in actions <==> !hasMinimize && hasBinVelocities
    ensures SetThermalVelocities in actions <==> !hasMinimize && !hasBinVelocities
    ensures VelocityWrites(actions) == (if hasMinimize then 0 else 1)
  {
    var box := if !resuming then [SetBox] else [];
    var velocities := VelocityActions(hasMinimize, hasBinVelocities);
    var actions := [SetPositions] + box + velocities;
    assert actions == [SetPositions, SetBox] + velocities;
    assert actions[0] == SetPositions && actions[1] == SetBox;
    VelocityWritesAppend([SetPositions, SetBox], velocities);
    if hasMinimize then
      assert actions == [SetPositions, SetBox, Minimize, SaveMinimizedState];
      actions
    else
      assert |actions| == 3 && actions[2] == velocities[0];
      actions
  }

  /**
    The start chain: an existing checkpoint file wins, then a saved state named
    by `openmmstate`, then a fresh start from input coordinates and box, which
    either minimises or sets velocities (from a binary velocity file if given,
    thermal otherwise). Only the checkpoint path marks the run as resuming.
   */
  function ResolveStart(checkpointExists: bool, hasOpenmmState: bool, hasMinimize: bool, hasBinVelocities: bool): (s: Start)
    ensures s.source == Checkpoint <==> checkpointExists
    ensures s.source == SavedState <==> !checkpointExists && hasOpenmmState
    ensures s.source == FreshStart <==> !checkpointExists && !hasOpenmmState
    ensures s.resuming <==> s.source == Checkpoint
    ensures LoadCheckpoint in s.actions <==> s.source == Checkpoint
    ensures RoundTime(CheckpointRounding) in s.actions <==> s.source == Checkpoint
    ensures LoadState in s.actions <==> s.source == SavedState
    ensures SetPositions in s.actions <==> s.source == FreshStart
    ensures SetBox in s.actions <==> s.source == FreshStart
    ensures Minimize in s.actions <==> s.source == FreshStart && hasMinimize
    ensures SaveMinimizedState in s.actions <==> s.source == FreshStart && hasMinimize
    ensures forall m :: RoundTime(m) in s.actions ==> m == CheckpointRounding
    ensures |s.actions| == match s.source
      case Checkpoint => 2
      case SavedState => 1
      case FreshStart => if hasMinimize then 4 else 3
    ensures SetVelocitiesFromFile in s.actions <==> s.source == FreshStart && !hasMinimize && hasBinVelocities
    ensures SetThermalVelocities in s.actions <==> s.source == FreshStart && !hasMinimize && !hasBinVelocities
    ensures VelocityWrites(s.actions) == (if s.source == FreshStart && !hasMinimize then 1 else 0)
    ensures s.source == Checkpoint ==> Precedes(s.actions, LoadCheckpoint, RoundTime(CheckpointRounding))
    ensures s.source == FreshStart ==> s.actions[0] == SetPositions && s.actions[1] == SetBox
    ensures s.source == FreshStart && hasMinimize ==> Precedes(s.actions, Minimize, SaveMinimizedState)
  {
    var resuming := false;
    if checkpointExists then
      var actions := [LoadCheckpoint, RoundTime(CheckpointRounding)];
      assert actions[0] == LoadCheckpoint && actions[1] == RoundTime(CheckpointRounding);
      assert actions[1..][1..] == [];
      assert VelocityWrites(actions[1..][1..]) == 0;
      assert VelocityWrites(actions[1..]) == 0;
      Start(Checkpoint, actions, true)
    else if hasOpenmmState then
      Start(SavedState, [LoadState], resuming)
    else
      Start(FreshStart, FreshActions(resuming, hasMinimize, hasBinVelocities), resuming)
  }

  /** The start-source cascade is the first-match reading of its priorities. */
  lemma StartSourceIsFirstMatch(checkpointExists: bool, hasOpenmmState: bool, hasMinimize: bool, hasBinVelocities: bool)
    ensures ResolveStart(checkpointExists, hasOpenmmState, hasMinimize, hasBinVelocities).source
         == Choose([Rule(checkpointExists, Checkpoint), Rule(hasOpenmmState, SavedState)], FreshStart)
  {
    var rules := [Rule(checkpointExists, Checkpoint), Rule(hasOpenmmState, SavedState)];
    var m := FirstMatch(rules);
    if checkpointExists {
      assert rules[0].guard;
      assert m == Some(0);
    } else if hasOpenmmState {
      assert !rules[0].guard && rules[1].guard;
      assert m == Some(1);
    } else {
      assert !rules[0].guard && !rules[1].guard;
      assert m == None;
    }
  }

  /** The number of timesteps already integrated, taken from the start source. */
  function ElapsedSteps(s: Start, checkpointSteps: int, stateSteps: int): int
  {
    match s.source
    case Checkpoint => checkpointSteps
    case SavedState => stateSteps
    case FreshStart => 0
  }
}
