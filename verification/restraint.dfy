/**
  The restraint ramp: the force constant `k` of the positional restraint is
  driven across the run's 1000 progress units. At each unit a setpoint for
  that unit (the last one in list order, if several) snaps the force to its
  value and sets a new gradient; a block of timesteps is then integrated and
  the gradient is added to the force.

  The two helpers that compute the starting force/gradient and the gradient
  leaving a setpoint live outside this model; the starting state is an input
  and the gradient helper is an arbitrary function.
 */
module Restraint {
  import opened Outcomes

  /** A ramp waypoint: at progress unit `percent` the force becomes `force`. */
  datatype Setpoint = Setpoint(percent: int, force: real)

  /** The loop state carried between units. */
  datatype Ramp = Ramp(force: real, gradient: real)

  /** An instruction to the simulation: set the restraint parameter `k`, or integrate timesteps. */
  datatype Command = SetK(k: real) | Advance(steps: int)

  /** What one run's ramp is built from. */
  datatype Schedule = Schedule(setpoints: seq<Setpoint>, gradientFrom: Setpoint -> real, block: int)

  /** The position of the last setpoint at unit `p`, if any. */
  function LastMatch(p: int, sps: seq<Setpoint>): (r: Option<nat>)
    ensures r.Some? ==> r.value < |sps| && sps[r.value].percent == p
    ensures r.Some? ==> forall j :: r.value < j < |sps| ==> sps[j].percent != p
    ensures r.None? <==> forall j :: 0 <= j < |sps| ==> sps[j].percent != p
  {
    if |sps| == 0 then None
    else if sps[|sps| - 1].percent == p then Some(|sps| - 1)
    else LastMatch(p, sps[..|sps| - 1])
  }

  /** The state after the setpoints of unit `p` have been applied to `r`. */
  function Snap(p: int, sps: seq<Setpoint>, gradientFrom: Setpoint -> real, r: Ramp): Ramp
  {
    match LastMatch(p, sps)
    case None => r
    case Some(i) => Ramp(sps[i].force, gradientFrom(sps[i]))
  }

  /** The parameter updates issued while scanning the setpoints at unit `p`: one per match, in list order. */
  function SnapCommands(p: int, sps: seq<Setpoint>): seq<Command>
  {
    if |sps| == 0 then []
    else
      var rest := SnapCommands(p, sps[..|sps| - 1]);
      if sps[|sps| - 1].percent == p then rest + [SetK(sps[|sps| - 1].force)] else rest
  }

  /** One progress unit: snap, then add the gradient to the force. */
  function Tick(p: int, sch: Schedule, r: Ramp): Ramp
  {
    var s := Snap(p, sch.setpoints, sch.gradientFrom, r);
    Ramp(s.force + s.gradient, s.gradient)
  }

  /** The commands of one progress unit. */
  function UnitCommands(p: int, sch: Schedule, r: Ramp): seq<Command>
  {
    SnapCommands(p, sch.setpoints) + [Advance(sch.block), SetK(Tick(p, sch, r).force)]
  }

  /** The state after `n` units starting at unit `from`. */
  function RampAfter(sch: Schedule, from: int, n: nat, r: Ramp): Ramp
  {
    if n == 0 then r else Tick(from + n - 1, sch, RampAfter(sch, from, n - 1, r))
  }

  /** The commands of `n` units starting at unit `from`. */
  function TraceAfter(sch: Schedule, from: int, n: nat, r: Ramp): seq<Command>
  {
    if n == 0 then []
    else TraceAfter(sch, from, n - 1, r) + UnitCommands(from + n - 1, sch, RampAfter(sch, from, n - 1, r))
  }

  /** How many units `range(startingPercent, 1000)` visits. */
  function Iterations(startingPercent: int): nat
  {
    if startingPercent < 1000 then 1000 - startingPercent else 0
  }

  /** The number of `Advance` commands. */
  function AdvanceCount(cmds: seq<Command>): nat
  {
    if |cmds| == 0 then 0
    else AdvanceCount(cmds[..|cmds| - 1]) + (if cmds[|cmds| - 1].Advance? then 1 else 0)
  }

  /** The total number of timesteps integrated. */
  function StepsIssued(cmds: seq<Command>): int
  {
    if |cmds| == 0 then 0
    else StepsIssued(cmds[..|cmds| - 1]) + (if cmds[|cmds| - 1].Advance? then cmds[|cmds| - 1].steps else 0)
  }

  /** Both counts distribute over concatenation. */
  lemma {:induction false} CountsAppend(a: seq<Command>, b: seq<Command>)
    ensures AdvanceCount(a + b) == AdvanceCount(a) + AdvanceCount(b)
    ensures StepsIssued(a + b) == StepsIssued(a) + StepsIssued(b)
  {
    if |b| == 0 {
      assert a + b == a;
    } else {
      var b' := b[..|b| - 1];
      assert (a + b)[..|a + b| - 1] == a + b';
      CountsAppend(a, b');
    }
  }

  /** Scanning the setpoints only updates `k`; it integrates nothing. */
  lemma {:induction false} SnapCommandsAreUpdates(p: int, sps: seq<Setpoint>)
    ensures AdvanceCount(SnapCommands(p, sps)) == 0 && StepsIssued(SnapCommands(p, sps)) == 0
    ensures forall c :: c in SnapCommands(p, sps) ==> c.SetK?
    ensures SnapCommands(p, sps) == [] <==> LastMatch(p, sps).None?
    ensures LastMatch(p, sps).Some? ==> SnapCommands(p, sps)[|SnapCommands(p, sps)| - 1] == SetK(sps[LastMatch(p, sps).value].force)
  {
    if |sps| > 0 {
      var rest := SnapCommands(p, sps[..|sps| - 1]);
      SnapCommandsAreUpdates(p, sps[..|sps| - 1]);
      if sps[|sps| - 1].percent == p {
        CountsAppend(rest, [SetK(sps[|sps| - 1].force)]);
        assert AdvanceCount([SetK(sps[|sps| - 1].force)]) == 0;
      }
    }
  }

  /** Scanning one more setpoint: it overwrites the state and issues an update exactly when it is at `p`. */
  lemma SnapExtend(p: int, sps: seq<Setpoint>, gradientFrom: Setpoint -> real, r: Ramp, i: int)
    requires 0 <= i < |sps|
    ensures Snap(p, sps[..i + 1], gradientFrom, r)
         == if sps[i].percent == p then Ramp(sps[i].force, gradientFrom(sps[i])) else Snap(p, sps[..i], gradientFrom, r)
    ensures SnapCommands(p, sps[..i + 1])
         == if sps[i].percent == p then SnapCommands(p, sps[..i]) + [SetK(sps[i].force)] else SnapCommands(p, sps[..i])
  {
    var q := sps[..i + 1];
    assert q[..|q| - 1] == sps[..i] && q[|q| - 1] == sps[i];
    if sps[i].percent != p {
      assert LastMatch(p, q) == LastMatch(p, sps[..i]);
      if LastMatch(p, q).Some? {
        assert q[LastMatch(p, q).value] == sps[..i][LastMatch(p, q).value];
      }
    }
  }

  /** The setpoint that wins at `p` is the last one at `p` in list order. */
  lemma SnapIsLastSetpoint(p: int, sps: seq<Setpoint>, gradientFrom: Setpoint -> real, r: Ramp, i: int)
    requires 0 <= i < |sps| && sps[i].percent == p
    requires forall j :: i < j < |sps| ==> sps[j].percent != p
    ensures Snap(p, sps, gradientFrom, r) == Ramp(sps[i].force, gradientFrom(sps[i]))
  {
    var m := LastMatch(p, sps);
    assert m.Some? && m.value == i;
  }

  /**
    The inner loop over the setpoints at unit `p`: every setpoint at `p`
    overwrites force and gradient, so the last one in list order wins, and
    nothing changes when none is at `p`.
   */
  method ApplySetpoints(p: int, sch: Schedule, r: Ramp) returns (snapped: Ramp, cmds: seq<Command>)
    ensures (forall i :: 0 <= i < |sch.setpoints| ==> sch.setpoints[i].percent != p) ==> snapped == r && cmds == []
    ensures forall i :: 0 <= i < |sch.setpoints| && sch.setpoints[i].percent == p
              && (forall j :: i < j < |sch.setpoints| ==> sch.setpoints[j].percent != p)
              ==> snapped == Ramp(sch.setpoints[i].force, sch.gradientFrom(sch.setpoints[i]))
    ensures cmds != [] ==> cmds[|cmds| - 1] == SetK(snapped.force)
    ensures snapped == Snap(p, sch.setpoints, sch.gradientFrom, r)
    ensures cmds == SnapCommands(p, sch.setpoints)
  {
    var sps := sch.setpoints;
    snapped := r;
    cmds := [];
    var i := 0;
    while i < |sps|
      invariant 0 <= i <= |sps|
      invariant snapped == Snap(p, sps[..i], sch.gradientFrom, r)
      invariant cmds == SnapCommands(p, sps[..i])
    {
      SnapExtend(p, sps, sch.gradientFrom, r, i);
      if p == sps[i].percent {
        snapped := Ramp(sps[i].force, sch.gradientFrom(sps[i]));
        cmds := cmds + [SetK(sps[i].force)];
      }
      i := i + 1;
    }
    assert sps[..i] == sps;
    SnapCommandsAreUpdates(p, sps);
    forall k | 0 <= k < |sps| && sps[k].percent == p && (forall j :: k < j < |sps| ==> sps[j].percent != p)
      ensures snapped == Ramp(sps[k].force, sch.gradientFrom(sps[k]))
    {
      SnapIsLastSetpoint(p, sps, sch.gradientFrom, r, k);
    }
  }

  /** One more unit: the state ticks once and the unit's commands are appended. */
  lemma UnitStep(sch: Schedule, from: int, n: nat, r: Ramp)
    ensures RampAfter(sch, from, n + 1, r) == Tick(from + n, sch, RampAfter(sch, from, n, r))
    ensures TraceAfter(sch, from, n + 1, r) == TraceAfter(sch, from, n, r) + UnitCommands(from + n, sch, RampAfter(sch, from, n, r))
  {
  }

  /**
    The progress loop from `startingPercent` to unit 999: `k` is first set to
    the starting force, then each unit applies its setpoints, integrates one
    block and adds the gradient. Exactly `Iterations(startingPercent)` blocks
    of `sch.block` timesteps are integrated.
   */
  method ProgressLoop(sch: Schedule, startingPercent: int, start: Ramp) returns (cmds: seq<Command>, last: Ramp)
    ensures last == RampAfter(sch, startingPercent, Iterations(startingPercent), start)
    ensures cmds == [SetK(start.force)] + TraceAfter(sch, startingPercent, Iterations(startingPercent), start)
    ensures AdvanceCount(cmds) == Iterations(startingPercent)
    ensures StepsIssued(cmds) == Iterations(startingPercent) * sch.block
    ensures |cmds| > 0 && cmds[|cmds| - 1] == SetK(last.force)
    ensures startingPercent >= 1000 ==> cmds == [SetK(start.force)] && last == start
  {
    cmds := [SetK(start.force)];
    last := start;
    var p := startingPercent;
    while p < 1000
      invariant startingPercent <= p
      invariant p <= 1000 || p == startingPercent
      invariant last == RampAfter(sch, startingPercent, p - startingPercent, start)
      invariant cmds == [SetK(start.force)] + TraceAfter(sch, startingPercent, p - startingPercent, start)
      invariant cmds[|cmds| - 1] == SetK(last.force)
    {
      ghost var n: nat := p - startingPercent;
      ghost var before := cmds;
      UnitStep(sch, startingPercent, n, start);
      var snapped, snapCmds := ApplySetpoints(p, sch, last);
      assert Tick(p, sch, last) == Ramp(snapped.force + snapped.gradient, snapped.gradient);
      last := Ramp(snapped.force + snapped.gradient, snapped.gradient);
      var unit := snapCmds + [Advance(sch.block), SetK(last.force)];
      assert unit == UnitCommands(startingPercent + n, sch, RampAfter(sch, startingPercent, n, start));
      cmds := cmds + unit;
      AppendAssociative([SetK(start.force)], TraceAfter(sch, startingPercent, n, start), unit);
      p := p + 1;
    }
    assert p - startingPercent == Iterations(startingPercent);
    TraceCounts(sch, startingPercent, Iterations(startingPercent), start);
    CountsAppend([SetK(start.force)], TraceAfter(sch, startingPercent, Iterations(startingPercent), start));
  }

  /** One unit integrates exactly one block. */
  lemma UnitCounts(p: int, sch: Schedule, r: Ramp)
    ensures AdvanceCount(UnitCommands(p, sch, r)) == 1
    ensures StepsIssued(UnitCommands(p, sch, r)) == sch.block
  {
    var tail := [Advance(sch.block), SetK(Tick(p, sch, r).force)];
    var head := [Advance(sch.block)];
    assert tail[..1] == head && head[..0] == [];
    assert AdvanceCount(head) == 1 && StepsIssued(head) == sch.block;
    assert AdvanceCount(tail) == AdvanceCount(head) && StepsIssued(tail) == StepsIssued(head);
    SnapCommandsAreUpdates(p, sch.setpoints);
    CountsAppend(SnapCommands(p, sch.setpoints), tail);
  }

  /** `n` units integrate `n` blocks. */
  lemma {:induction false} TraceCounts(sch: Schedule, from: int, n: nat, r: Ramp)
    ensures AdvanceCount(TraceAfter(sch, from, n, r)) == n
    ensures StepsIssued(TraceAfter(sch, from, n, r)) == n * sch.block
  {
    if n > 0 {
      var prev := TraceAfter(sch, from, n - 1, r);
      var unit := UnitCommands(from + n - 1, sch, RampAfter(sch, from, n - 1, r));
      assert TraceAfter(sch, from, n, r) == prev + unit;
      TraceCounts(sch, from, n - 1, r);
      UnitCounts(from + n - 1, sch, RampAfter(sch, from, n - 1, r));
      CountsAppend(prev, unit);
      assert (n - 1) * sch.block + sch.block == n * sch.block;
    }
  }

  /**
    Between setpoints the gradient is unchanged: after `n` units none of which
    carries a setpoint, the force has grown by `n` gradients.
   */
  lemma {:induction false} NoSetpointIsLinear(sch: Schedule, from: int, n: nat, r: Ramp)
    requires forall i :: 0 <= i < |sch.setpoints| ==> !(from <= sch.setpoints[i].percent < from + n)
    ensures RampAfter(sch, from, n, r) == Ramp(r.force + n as real * r.gradient, r.gradient)
  {
    if n > 0 {
      NoSetpointIsLinear(sch, from, n - 1, r);
      assert LastMatch(from + n - 1, sch.setpoints).None?;
    }
  }

  /**
    At a unit carrying a setpoint the force restarts from the last such
    setpoint, whatever the state before.
   */
  lemma SetpointSnaps(sch: Schedule, p: int, r: Ramp, i: int)
    requires 0 <= i < |sch.setpoints| && sch.setpoints[i].percent == p
    requires forall j :: i < j < |sch.setpoints| ==> sch.setpoints[j].percent != p
    ensures Tick(p, sch, r) == Ramp(sch.setpoints[i].force + sch.gradientFrom(sch.setpoints[i]), sch.gradientFrom(sch.setpoints[i]))
  {
    var m := LastMatch(p, sch.setpoints);
    assert m.Some?;
    assert m.value == i;
  }

  /** Running `a + b` units ends where running `a` units and then `b` more ends. */
  lemma {:induction false} SplitRamp(sch: Schedule, from: int, a: nat, b: nat, r: Ramp)
    ensures RampAfter(sch, from, a + b, r) == RampAfter(sch, from + a, b, RampAfter(sch, from, a, r))
  {
    if b > 0 {
      SplitRamp(sch, from, a, b - 1, r);
      var ra := RampAfter(sch, from, a, r);
      assert RampAfter(sch, from, a + b, r) == Tick(from + a + b - 1, sch, RampAfter(sch, from, a + b - 1, r));
      assert RampAfter(sch, from + a, b, ra) == Tick(from + a + b - 1, sch, RampAfter(sch, from + a, b - 1, ra));
    }
  }

  /** Running `a + b` units issues the commands of `a` units followed by those of `b` more. */
  lemma {:induction false} SplitTrace(sch: Schedule, from: int, a: nat, b: nat, r: Ramp)
    ensures TraceAfter(sch, from, a + b, r) == TraceAfter(sch, from, a, r) + TraceAfter(sch, from + a, b, RampAfter(sch, from, a, r))
  {
    var ra := RampAfter(sch, from, a, r);
    if b == 0 {
      assert TraceAfter(sch, from, a, r) + [] == TraceAfter(sch, from, a, r);
    } else {
      var k: nat := b - 1;
      SplitTrace(sch, from, a, k, r);
      SplitRamp(sch, from, a, k, r);
      var front := TraceAfter(sch, from, a, r);
      var middle := TraceAfter(sch, from + a, k, ra);
      var last := UnitCommands(from + a + k, sch, RampAfter(sch, from + a, k, ra));
      assert from + (a + b) - 1 == from + a + k && from + a + b - 1 == from + a + k;
      assert TraceAfter(sch, from, a + b, r) == TraceAfter(sch, from, a + k, r) + last;
      assert TraceAfter(sch, from + a, b, ra) == middle + last;
      AppendAssociative(front, middle, last);
    }
  }

  lemma AppendAssociative<T>(x: seq<T>, y: seq<T>, z: seq<T>)
    ensures (x + y) + z == x + (y + z)
  {
  }

  /**
    A run resumed at unit `sp` whose starting state is the state an
    uninterrupted run has reached there replays exactly the rest of the
    uninterrupted run: the same commands from unit `sp` on and the same final
    state.
   */
  lemma ResumedRunReplaysSuffix(sch: Schedule, sp: int, uninterrupted: Ramp, resumed: Ramp)
    requires 0 <= sp <= 1000
    requires resumed == RampAfter(sch, 0, sp, uninterrupted)
    ensures TraceAfter(sch, 0, Iterations(0), uninterrupted)
         == TraceAfter(sch, 0, sp, uninterrupted) + TraceAfter(sch, sp, Iterations(sp), resumed)
    ensures RampAfter(sch, 0, Iterations(0), uninterrupted) == RampAfter(sch, sp, Iterations(sp), resumed)
  {
    SplitRamp(sch, 0, sp, 1000 - sp, uninterrupted);
    SplitTrace(sch, 0, sp, 1000 - sp, uninterrupted);
  }
}
