/**
 The cursor model inside the capture wrapper: every operation performs a few steps of `WallPress`, so a run of the
 wrapper goes through a run of those, and what is proved there over whole runs holds of the wrapper's polls.
 */
module CaptureCursor {
  import opened Wrappers
  import opened Bytes
  import opened Positions
  import opened CaptureModel
  import opened CaptureState
  import opened CaptureRuns
  import G = PressGauge
  import W = WallPress

  /** The operation is a poll that consumes an event of the backend. */
  predicate Takes(c: Capture, op: Op) {
    op.Poll? && c.pending == [] && op.arrival.Arrived? && (Fires(c, op.elapsed) ==> FiredCopies(c) == [])
  }

  /** The operation is a poll at which the deadline fires. */
  predicate FiresAt(c: Capture, op: Op) {
    op.Poll? && Fires(c, op.elapsed)
  }

  /** The cursor-model steps an operation performs, in order: a firing poll may go on to consume an event. */
  function WallSteps(c: Capture, op: Op): seq<W.Step> {
    match op
    case Attach(_, _) => []
    case Detach(_) => []
    case TakeKeys => []
    case Release(_) => [W.Release]
    case Poll(elapsed, arrival) =>
      (if Fires(c, elapsed) then [W.Fire] else [])
      + (if Takes(c, op) then [W.Take(arrival.pos, arrival.event)] else [])
    case SetThreshold(px) => [W.SetThreshold(px)]
    case SetBounds(pos, size) => [W.SetBounds(pos, size)]
    case ClearBounds(pos) => [W.ClearBounds(pos)]
    case SetSensitivity(pos, factor) => [W.SetSensitivity(pos, factor)]
    case ClearSensitivity(pos) => [W.ClearSensitivity(pos)]
  }

  //
  // One run inside the other
  //

  function WallAfter(host: Host, w: Wall, steps: seq<W.Step>): Wall
    requires |steps| <= 2
  {
    if |steps| == 0 then w
    else if |steps| == 1 then W.Next(host, w, steps[0])
    else W.Next(host, W.Next(host, w, steps[0]), steps[1])
  }

  lemma WallFollows(host: Host, c: Capture, op: Op)
    requires Legal(c, op)
    ensures |WallSteps(c, op)| <= 2
    ensures After(host, c, op).wall == WallAfter(host, c.wall, WallSteps(c, op))
  {
    if op.Poll? {
      PolledWall(host, c, op.elapsed, op.arrival);
    }
  }

  lemma PolledWall(host: Host, c: Capture, elapsed: bool, arrival: Arrival)
    ensures |WallSteps(c, Poll(elapsed, arrival))| <= 2
    ensures Polled(host, c, elapsed, arrival).0.wall == WallAfter(host, c.wall, WallSteps(c, Poll(elapsed, arrival)))
  {
    if c.pending == [] {
      BackendWall(host, c, arrival);
      BackendWall(host, c.(wall := c.wall.(pressPending := false), pending := []), arrival);
    }
  }

  lemma BackendWall(host: Host, c: Capture, arrival: Arrival)
    requires c.pending == []
    ensures PollBackend(host, c, arrival).0.wall
            == if arrival.Arrived? then TrackWallPress(host, c.wall, arrival.pos, arrival.event) else c.wall
  {
  }

  lemma ExtendWallRun(host: Host, steps: seq<W.Step>, walls: seq<Wall>, s: W.Step)
    requires W.Run(host, steps, walls)
    ensures W.Run(host, steps + [s], walls + [W.Next(host, walls[|steps|], s)])
  {
    var steps', walls' := steps + [s], walls + [W.Next(host, walls[|steps|], s)];
    forall n | 0 <= n < |steps'|
      ensures walls'[n + 1] == W.Next(host, walls'[n], steps'[n])
    {
      if n < |steps| { assert steps'[n] == steps[n]; }
    }
  }

  lemma AppendWallSteps(host: Host, steps: seq<W.Step>, walls: seq<Wall>, more: seq<W.Step>) returns (walls': seq<Wall>)
    requires W.Run(host, steps, walls) && |more| <= 2
    ensures W.Run(host, steps + more, walls') && walls <= walls'
    ensures walls'[|steps + more|] == WallAfter(host, walls[|steps|], more)
  {
    if more == [] {
      assert steps + more == steps;
      walls' := walls;
    } else {
      ExtendWallRun(host, steps, walls, more[0]);
      walls' := walls + [W.Next(host, walls[|steps|], more[0])];
      if |more| == 1 {
        assert more == [more[0]];
      } else {
        ExtendWallRun(host, steps + [more[0]], walls', more[1]);
        walls' := walls' + [W.Next(host, walls'[|steps| + 1], more[1])];
        assert steps + more == steps + [more[0]] + [more[1]];
      }
    }
  }

  /** The operation's steps are those from `lo` up to `hi`. */
  predicate Performed(c: Capture, op: Op, steps: seq<W.Step>, lo: nat, hi: nat) {
    lo <= hi <= |steps| && steps[lo..hi] == WallSteps(c, op)
  }

  /**
   `steps` are those of the first `n` operations, one operation after the other: those of operation `m` start at
   `starts[m]`, and there the two runs have the same cursor model.
   */
  ghost predicate Performs(ops: seq<Op>, states: seq<Capture>, n: nat, steps: seq<W.Step>, walls: seq<Wall>,
      starts: seq<nat>)
  {
    && n <= |ops| < |states| && |walls| == |steps| + 1
    && |starts| == n + 1 && starts[0] == 0 && starts[n] == |steps|
    && (forall m {:trigger ops[m]} :: 0 <= m < n ==> Performed(states[m], ops[m], steps, starts[m], starts[m + 1]))
    && (forall m {:trigger starts[m]} :: 0 <= m <= n ==> starts[m] <= |steps| && walls[starts[m]] == states[m].wall)
  }

  lemma PerformsOneMore(ops: seq<Op>, states: seq<Capture>, n: nat, steps: seq<W.Step>, walls: seq<Wall>,
      starts: seq<nat>, walls': seq<Wall>)
    requires n < |ops| && Performs(ops, states, n, steps, walls, starts)
    requires walls <= walls' && |walls'| == |steps + WallSteps(states[n], ops[n])| + 1
    requires walls'[|walls'| - 1] == states[n + 1].wall
    ensures var steps' := steps + WallSteps(states[n], ops[n]);
            Performs(ops, states, n + 1, steps', walls', starts + [|steps'|])
  {
    var steps' := steps + WallSteps(states[n], ops[n]);
    var starts' := starts + [|steps'|];
    forall m | 0 <= m < n + 1
      ensures Performed(states[m], ops[m], steps', starts'[m], starts'[m + 1])
    {
      if m < n {
        assert Performed(states[m], ops[m], steps, starts[m], starts[m + 1]);
        assert steps'[starts[m]..starts[m + 1]] == steps[starts[m]..starts[m + 1]];
      }
    }
  }

  lemma ReachOneMore(host: Host, ops: seq<Op>, states: seq<Capture>, n: nat, steps: seq<W.Step>, walls: seq<Wall>,
      starts: seq<nat>)
    returns (steps': seq<W.Step>, walls': seq<Wall>, starts': seq<nat>)
    requires W.Run(host, steps, walls) && Performs(ops, states, n, steps, walls, starts) && n < |ops|
    requires Legal(states[n], ops[n]) && states[n + 1] == After(host, states[n], ops[n])
    ensures W.Run(host, steps', walls') && Performs(ops, states, n + 1, steps', walls', starts')
  {
    var more := WallSteps(states[n], ops[n]);
    WallFollows(host, states[n], ops[n]);
    assert walls[starts[n]] == states[n].wall;
    walls' := AppendWallSteps(host, steps, walls, more);
    PerformsOneMore(ops, states, n, steps, walls, starts, walls');
    steps', starts' := steps + more, starts + [|steps + more|];
  }

  lemma {:induction false} ReachAll(host: Host, ops: seq<Op>, states: seq<Capture>, n: nat)
    returns (steps: seq<W.Step>, walls: seq<Wall>, starts: seq<nat>)
    requires Run(host, ops, states) && n <= |ops|
    ensures W.Run(host, steps, walls) && Performs(ops, states, n, steps, walls, starts)
  {
    if n == 0 {
      steps, walls, starts := [], [INITIAL], [0];
    } else {
      steps, walls, starts := ReachAll(host, ops, states, n - 1);
      assert Legal(states[n - 1], ops[n - 1]) && states[n] == After(host, states[n - 1], ops[n - 1]);
      steps, walls, starts := ReachOneMore(host, ops, states, n - 1, steps, walls, starts);
    }
  }

  /** There is a run of `WallPress` that performs the steps of the first `n` operations. */
  ghost predicate GoesThrough(host: Host, ops: seq<Op>, states: seq<Capture>, n: nat) {
    exists steps, walls, starts :: W.Run(host, steps, walls) && Performs(ops, states, n, steps, walls, starts)
  }

  /** A run of the wrapper goes through the run of `WallPress` that performs the steps of its operations in order. */
  lemma WallIsReachable(host: Host, ops: seq<Op>, states: seq<Capture>, n: nat)
    requires Run(host, ops, states) && n <= |ops|
    ensures GoesThrough(host, ops, states, n)
  {
    var steps, walls, starts := ReachAll(host, ops, states, n);
  }

  /** Pressure, depth and the pending AutoRelease are well formed in every reachable state of the wrapper. */
  lemma RunKeepsWallInv(host: Host, ops: seq<Op>, states: seq<Capture>, n: nat)
    requires Run(host, ops, states) && n <= |ops|
    ensures W.Inv(states[n].wall)
  {
    var steps, walls, starts := ReachAll(host, ops, states, n);
    W.RunKeepsInv(host, steps, walls, |steps|);
    assert walls[starts[n]] == states[n].wall;
  }

  //
  // From steps to operations and back
  //

  lemma StepsOf(ops: seq<Op>, states: seq<Capture>, n: nat, steps: seq<W.Step>, walls: seq<Wall>, starts: seq<nat>,
      m: nat)
    requires Performs(ops, states, n, steps, walls, starts) && m < n
    ensures starts[m] + |WallSteps(states[m], ops[m])| == starts[m + 1] <= |steps|
    ensures forall r :: 0 <= r < |WallSteps(states[m], ops[m])| ==>
              steps[starts[m] + r] == WallSteps(states[m], ops[m])[r]
  {
    assert Performed(states[m], ops[m], steps, starts[m], starts[m + 1]);
    forall r | 0 <= r < |WallSteps(states[m], ops[m])|
      ensures steps[starts[m] + r] == WallSteps(states[m], ops[m])[r]
    {
      assert steps[starts[m]..starts[m + 1]][r] == steps[starts[m] + r];
    }
  }

  lemma {:induction false} StartsGrow(ops: seq<Op>, states: seq<Capture>, n: nat, steps: seq<W.Step>, walls: seq<Wall>,
      starts: seq<nat>, l: nat, m: nat)
    requires Performs(ops, states, n, steps, walls, starts) && l <= m <= n
    ensures starts[l] <= starts[m] <= |steps|
  {
    if l < m {
      StartsGrow(ops, states, n, steps, walls, starts, l, m - 1);
      assert Performed(states[m - 1], ops[m - 1], steps, starts[m - 1], starts[m]);
    }
  }

  /** Which operation step `j` belongs to. */
  lemma {:induction false} OperationOf(starts: seq<nat>, l: nat, m: nat, j: nat) returns (i: nat)
    requires l <= m < |starts| && starts[l] <= j < starts[m]
    ensures l <= i < m && starts[i] <= j < starts[i + 1]
  {
    if j < starts[m - 1] {
      i := OperationOf(starts, l, m - 1, j);
    } else {
      i := m - 1;
    }
  }

  /** A step that takes an event is the poll that consumes it, with the same capture under way. */
  lemma TakenBy(host: Host, ops: seq<Op>, states: seq<Capture>, n: nat, steps: seq<W.Step>, walls: seq<Wall>,
      starts: seq<nat>, i: nat, j: nat)
    requires W.Run(host, steps, walls) && Performs(ops, states, n, steps, walls, starts) && i < n
    requires starts[i] <= j < starts[i + 1] && j < |steps| && steps[j].Take?
    ensures Takes(states[i], ops[i]) && ops[i].arrival == Arrived(steps[j].pos, steps[j].event)
    ensures walls[j] == if FiresAt(states[i], ops[i]) then states[i].wall.(pressPending := false) else states[i].wall
    ensures j + 1 == starts[i + 1]
  {
    StepsOf(ops, states, n, steps, walls, starts, i);
    var r: nat := j - starts[i];
    assert steps[starts[i] + r] == WallSteps(states[i], ops[i])[r];
    if r > 0 {
      assert steps[starts[i] + 0] == WallSteps(states[i], ops[i])[0];
      W.StepAt(host, steps, walls, starts[i]);
    }
  }

  //
  // What fires
  //

  /** A release or a firing shows among the steps. */
  lemma EndShows(ops: seq<Op>, states: seq<Capture>, n: nat, steps: seq<W.Step>, walls: seq<Wall>, starts: seq<nat>,
      m: nat)
    requires Performs(ops, states, n, steps, walls, starts) && m < n
    requires ops[m].Release? || FiresAt(states[m], ops[m])
    ensures starts[m] < starts[m + 1] <= |steps| && walls[starts[m]] == states[m].wall
    ensures steps[starts[m]] == if ops[m].Release? then W.Release else W.Fire
  {
    StepsOf(ops, states, n, steps, walls, starts, m);
    assert steps[starts[m] + 0] == WallSteps(states[m], ops[m])[0];
  }

  lemma NoEndAt(ops: seq<Op>, states: seq<Capture>, n: nat, steps: seq<W.Step>, walls: seq<Wall>, starts: seq<nat>,
      i: nat, m: nat, j: nat)
    requires Performs(ops, states, n + 1, steps, walls, starts) && i < m < n && j < starts[i + 1]
    requires forall l :: j < l < starts[n] && l < |steps| ==>
               !steps[l].Release? && !(steps[l].Fire? && walls[l].pressPending)
    ensures !ops[m].Release? && !FiresAt(states[m], ops[m])
  {
    StartsGrow(ops, states, n + 1, steps, walls, starts, i + 1, m);
    StartsGrow(ops, states, n + 1, steps, walls, starts, m + 1, n);
    if ops[m].Release? || FiresAt(states[m], ops[m]) {
      EndShows(ops, states, n + 1, steps, walls, starts, m);
    }
  }

  /** What the steps say of the arming step, and of everything after it, the operations say of theirs. */
  lemma ArmingPoll(host: Host, ops: seq<Op>, states: seq<Capture>, n: nat, steps: seq<W.Step>, walls: seq<Wall>,
      starts: seq<nat>, j: nat)
    returns (i: nat)
    requires W.Run(host, steps, walls) && Performs(ops, states, n + 1, steps, walls, starts)
    requires j < starts[n] && j < |steps| && steps[j].Take? && steps[j].event.Motion?
    requires walls[j].capturePos == Some(steps[j].pos)
    requires forall l :: j < l < starts[n] && l < |steps| ==>
               !steps[l].Release? && !(steps[l].Fire? && walls[l].pressPending)
    ensures i < n && Takes(states[i], ops[i]) && ops[i].arrival.event.Motion? && starts[i + 1] == j + 1
    ensures states[i].wall.capturePos == Some(ops[i].arrival.pos)
    ensures forall m :: i < m < n ==> !ops[m].Release? && !FiresAt(states[m], ops[m])
  {
    i := OperationOf(starts, 0, n, j);
    TakenBy(host, ops, states, n + 1, steps, walls, starts, i, j);
    forall m | i < m < n
      ensures !ops[m].Release? && !FiresAt(states[m], ops[m])
    {
      NoEndAt(ops, states, n, steps, walls, starts, i, m, j);
    }
  }

  lemma ArmingStep(host: Host, ops: seq<Op>, states: seq<Capture>, n: nat, steps: seq<W.Step>, walls: seq<Wall>,
      starts: seq<nat>)
    returns (k: nat, j: nat)
    requires W.Run(host, steps, walls) && Performs(ops, states, n + 1, steps, walls, starts)
    requires FiresAt(states[n], ops[n])
    ensures j < starts[n] < |steps| && steps[j].Take? && steps[j].event.Motion?
    ensures walls[j].capturePos == Some(steps[j].pos)
    ensures G.ArmedBy(W.PushesOf(steps, walls), W.GaugesOf(walls), k, j, starts[n])
    ensures forall l :: j < l < starts[n] ==> !steps[l].Release? && !(steps[l].Fire? && walls[l].pressPending)
  {
    EndShows(ops, states, n + 1, steps, walls, starts, n);
    k, j := W.FiringWasArmed(host, steps, walls, starts[n]);
  }

  /** The last step of operation `i` ends an overshoot since step `k` that arms what operation `n` fires. */
  ghost predicate ArmedBySteps(steps: seq<W.Step>, walls: seq<Wall>, starts: seq<nat>, k: nat, i: nat, n: nat) {
    && i < n < |starts| && |walls| == |steps| + 1 && 0 < starts[i + 1] && starts[n] <= |steps|
    && G.ArmedBy(W.PushesOf(steps, walls), W.GaugesOf(walls), k, starts[i + 1] - 1, starts[n])
  }

  /** So it is for the steps that the operations perform. */
  ghost predicate Arms(host: Host, ops: seq<Op>, states: seq<Capture>, i: nat, n: nat) {
    exists steps, walls, starts, k: nat ::
      && W.Run(host, steps, walls) && Performs(ops, states, n + 1, steps, walls, starts)
      && ArmedBySteps(steps, walls, starts, k, i, n)
  }

  lemma FiringGoes(host: Host, ops: seq<Op>, states: seq<Capture>, n: nat) returns (i: nat)
    requires n < |ops| < |states| && GoesThrough(host, ops, states, n + 1) && FiresAt(states[n], ops[n])
    ensures i < n && Takes(states[i], ops[i]) && ops[i].arrival.event.Motion?
    ensures states[i].wall.capturePos == Some(ops[i].arrival.pos)
    ensures Arms(host, ops, states, i, n)
    ensures forall m :: i < m < n ==> !ops[m].Release? && !FiresAt(states[m], ops[m])
  {
    var steps: seq<W.Step>, walls, starts :|
      W.Run(host, steps, walls) && Performs(ops, states, n + 1, steps, walls, starts);
    var k, j := ArmingStep(host, ops, states, n, steps, walls, starts);
    i := ArmingPoll(host, ops, states, n, steps, walls, starts, j);
    assert ArmedBySteps(steps, walls, starts, k, i, n);
  }

  /**
   A deadline that fires at a poll was armed by an earlier poll that consumed a motion at the captured position, the
   last of an unbroken overshoot of at least the threshold, and since then there was no release and no other firing.
   */
  lemma FiringWasArmed(host: Host, ops: seq<Op>, states: seq<Capture>, n: nat) returns (i: nat)
    requires Run(host, ops, states) && n < |ops| && FiresAt(states[n], ops[n])
    ensures i < n && Takes(states[i], ops[i]) && ops[i].arrival.event.Motion?
    ensures states[i].wall.capturePos == Some(ops[i].arrival.pos)
    ensures Arms(host, ops, states, i, n)
    ensures forall m :: i < m < n ==> !ops[m].Release? && !FiresAt(states[m], ops[m])
  {
    WallIsReachable(host, ops, states, n + 1);
    i := FiringGoes(host, ops, states, n);
  }

  //
  // What cannot be missed
  //

  predicate MovesAt(c: Capture, op: Op, pos: Position) {
    Takes(c, op) && op.arrival.pos == pos && op.arrival.event.Motion?
  }

  /** The operation neither ends the capture, starts another, nor touches the bounds known for `pos`. */
  predicate Undisturbed(c: Capture, op: Op, pos: Position) {
    && !op.Release?
    && !(Takes(c, op) && op.arrival.event.Begin?)
    && !(op.SetBounds? && op.pos == pos)
    && !(op.ClearBounds? && op.pos == pos)
  }

  /** No firing, no new threshold, and motions at `pos` only away from the guest's interior. */
  predicate Outward(c: Capture, op: Op, pos: Position) {
    && !FiresAt(c, op) && !op.SetThreshold?
    && (MovesAt(c, op, pos) ==> EntryAxisDelta(pos, op.arrival.event.dx, op.arrival.event.dy) < 0.0)
  }

  /** What one operation adds to the travel. */
  function Moved(c: Capture, op: Op, pos: Position): real {
    if MovesAt(c, op, pos) then ScaledDelta(c.wall, pos, op.arrival.event.dx, op.arrival.event.dy) else 0.0
  }

  /** Scaled travel of the motions at `pos` that the operations from `k` up to `n` consume. */
  ghost function Travel(ops: seq<Op>, states: seq<Capture>, pos: Position, k: nat, n: nat): real
    requires k <= n <= |ops| < |states|
  {
    if k == n then 0.0 else Travel(ops, states, pos, k, n - 1) + Moved(states[n - 1], ops[n - 1], pos)
  }

  predicate OutwardStep(s: W.Step, pos: Position) {
    && !s.Fire? && !s.SetThreshold?
    && (W.MovesAt(s, pos) ==> EntryAxisDelta(pos, s.event.dx, s.event.dy) < 0.0)
  }

  lemma StepKinds(c: Capture, op: Op, pos: Position, r: nat)
    requires r < |WallSteps(c, op)|
    ensures Undisturbed(c, op, pos) ==> W.Undisturbed(WallSteps(c, op)[r], pos)
    ensures Outward(c, op, pos) ==> OutwardStep(WallSteps(c, op)[r], pos)
  {
  }

  /** What holds of the operations from `l` up to `m` holds of their steps. */
  lemma UndisturbedSteps(ops: seq<Op>, states: seq<Capture>, n: nat, steps: seq<W.Step>, walls: seq<Wall>,
      starts: seq<nat>, pos: Position, l: nat, m: nat)
    requires Performs(ops, states, n, steps, walls, starts) && l <= m <= n && starts[m] <= |steps|
    requires forall i {:trigger ops[i]} :: l <= i < m ==> Undisturbed(states[i], ops[i], pos)
    ensures forall j :: starts[l] <= j < starts[m] ==> W.Undisturbed(steps[j], pos)
  {
    forall j: nat | starts[l] <= j < starts[m]
      ensures W.Undisturbed(steps[j], pos)
    {
      var i := StepIsOf(ops, states, n, steps, walls, starts, l, m, j);
      StepKinds(states[i], ops[i], pos, j - starts[i]);
    }
  }

  lemma OutwardSteps(ops: seq<Op>, states: seq<Capture>, n: nat, steps: seq<W.Step>, walls: seq<Wall>,
      starts: seq<nat>, pos: Position, l: nat, m: nat)
    requires Performs(ops, states, n, steps, walls, starts) && l <= m <= n && starts[m] <= |steps|
    requires forall i {:trigger ops[i]} :: l <= i < m ==> Outward(states[i], ops[i], pos)
    ensures forall j :: starts[l] <= j < starts[m] ==> OutwardStep(steps[j], pos)
  {
    forall j: nat | starts[l] <= j < starts[m]
      ensures OutwardStep(steps[j], pos)
    {
      var i := StepIsOf(ops, states, n, steps, walls, starts, l, m, j);
      StepKinds(states[i], ops[i], pos, j - starts[i]);
    }
  }

  lemma StepIsOf(ops: seq<Op>, states: seq<Capture>, n: nat, steps: seq<W.Step>, walls: seq<Wall>, starts: seq<nat>,
      l: nat, m: nat, j: nat)
    returns (i: nat)
    requires Performs(ops, states, n, steps, walls, starts) && l <= m <= n && starts[l] <= j < starts[m] <= |steps|
    ensures l <= i < m && starts[i] <= j && j - starts[i] < |WallSteps(states[i], ops[i])|
    ensures steps[j] == WallSteps(states[i], ops[i])[j - starts[i]]
  {
    i := OperationOf(starts, l, m, j);
    StepsOf(ops, states, n, steps, walls, starts, i);
    var r: nat := j - starts[i];
    assert steps[starts[i] + r] == WallSteps(states[i], ops[i])[r];
  }

  /** The capture at `pos` is under way, and nothing fires. */
  predicate Holding(c: Capture, op: Op, pos: Position) {
    c.wall.capturePos == Some(pos) && !FiresAt(c, op)
  }

  /** With the capture at `pos` under way and nothing firing, one operation moves the gauge by its own travel. */
  lemma TravelOfOne(ops: seq<Op>, states: seq<Capture>, n: nat, steps: seq<W.Step>, walls: seq<Wall>,
      starts: seq<nat>, pos: Position, m: nat, from: nat)
    requires Performs(ops, states, n, steps, walls, starts) && m < n && from <= starts[m]
    requires Holding(states[m], ops[m], pos)
    ensures starts[m] <= starts[m + 1] <= |steps|
    ensures var ps := W.PushesOf(steps, walls);
            G.Travel(ps, from, starts[m + 1]) == G.Travel(ps, from, starts[m]) + Moved(states[m], ops[m], pos)
  {
    StepsOf(ops, states, n, steps, walls, starts, m);
    if starts[m + 1] == starts[m] + 1 {
      assert steps[starts[m] + 0] == WallSteps(states[m], ops[m])[0];
      assert walls[starts[m]] == states[m].wall;
    }
  }

  /** The steps of the operations from `k` to `m` travel as far as the operations do. */
  ghost predicate SameTravel(ops: seq<Op>, states: seq<Capture>, ps: seq<G.Push>, starts: seq<nat>, pos: Position,
      k: nat, m: nat)
    requires k <= m <= |ops| < |states| && m < |starts|
  {
    && starts[k] <= starts[m] <= |ps|
    && G.Travel(ps, starts[k], starts[m]) == Travel(ops, states, pos, k, m)
  }

  lemma TravelAgrees(ops: seq<Op>, states: seq<Capture>, n: nat, steps: seq<W.Step>,
      walls: seq<Wall>, starts: seq<nat>, pos: Position, k: nat, m: nat)
    requires Performs(ops, states, n, steps, walls, starts) && k <= m <= n && starts[k] <= starts[m] <= |steps|
    requires forall i {:trigger ops[i]} :: k <= i < m ==> Holding(states[i], ops[i], pos)
    ensures SameTravel(ops, states, W.PushesOf(steps, walls), starts, pos, k, m)
  {
    for i := k to m
      invariant SameTravel(ops, states, W.PushesOf(steps, walls), starts, pos, k, i)
    {
      assert Holding(states[i], ops[i], pos);
      TravelOfOne(ops, states, n, steps, walls, starts, pos, i, starts[k]);
    }
  }

  lemma BeginStep(ops: seq<Op>, states: seq<Capture>, n: nat, steps: seq<W.Step>, walls: seq<Wall>, starts: seq<nat>,
      b: nat)
    requires Performs(ops, states, n, steps, walls, starts) && b < n && Takes(states[b], ops[b])
    ensures 0 < starts[b + 1] <= |steps|
    ensures steps[starts[b + 1] - 1] == W.Take(ops[b].arrival.pos, ops[b].arrival.event)
  {
    StepsOf(ops, states, n, steps, walls, starts, b);
    var r: nat := |WallSteps(states[b], ops[b])| - 1;
    assert steps[starts[b] + r] == WallSteps(states[b], ops[b])[r];
  }

  lemma CaptureStays(host: Host, ops: seq<Op>, states: seq<Capture>, n: nat, steps: seq<W.Step>, walls: seq<Wall>,
      starts: seq<nat>, pos: Position, b: nat, i: nat)
    requires W.Run(host, steps, walls) && Performs(ops, states, n, steps, walls, starts) && b < i <= n
    requires 0 < starts[b + 1] <= |steps| && starts[n] <= |steps|
    requires var s := steps[starts[b + 1] - 1]; s.Take? && s.event.Begin? && s.pos == pos
    requires forall j :: starts[b + 1] <= j < starts[n] ==> W.Undisturbed(steps[j], pos)
    ensures states[i].wall.capturePos == Some(pos)
  {
    StartsGrow(ops, states, n, steps, walls, starts, b + 1, i);
    StartsGrow(ops, states, n, steps, walls, starts, i, n);
    assert walls[starts[i]] == states[i].wall;
    W.CaptureContinues(host, steps, walls, starts[b + 1] - 1, starts[i], pos);
  }

  lemma TravelInSteps(host: Host, ops: seq<Op>, states: seq<Capture>, n: nat, steps: seq<W.Step>, walls: seq<Wall>,
      starts: seq<nat>, pos: Position, b: nat, k: nat)
    requires W.Run(host, steps, walls) && Performs(ops, states, n, steps, walls, starts) && b < k <= n
    requires Takes(states[b], ops[b]) && ops[b].arrival.pos == pos && ops[b].arrival.event.Begin?
    requires forall i {:trigger ops[i]} :: b < i < n ==> Undisturbed(states[i], ops[i], pos)
    requires forall i {:trigger ops[i]} :: k <= i < n ==> Outward(states[i], ops[i], pos)
    ensures starts[k] <= starts[n] && G.Travel(W.PushesOf(steps, walls), starts[k], starts[n])
                                      == Travel(ops, states, pos, k, n)
  {
    BeginStep(ops, states, n, steps, walls, starts, b);
    UndisturbedSteps(ops, states, n, steps, walls, starts, pos, b + 1, n);
    forall i {:trigger ops[i]} | k <= i < n
      ensures Holding(states[i], ops[i], pos)
    {
      CaptureStays(host, ops, states, n, steps, walls, starts, pos, b, i);
      assert Outward(states[i], ops[i], pos);
    }
    StartsGrow(ops, states, n, steps, walls, starts, k, n);
    TravelAgrees(ops, states, n, steps, walls, starts, pos, k, n);
  }

  /** From the Begin at step `b` on nothing disturbs the capture, and from step `k` on every motion is outward. */
  ghost predicate OutwardSince(steps: seq<W.Step>, walls: seq<Wall>, b: nat, k: nat, n: nat, pos: Position,
      extent: u32)
  {
    && b < k <= n <= |steps| < |walls|
    && steps[b].Take? && steps[b].event.Begin? && steps[b].pos == pos
    && PeerExtent(walls[b + 1], pos) == Some(extent) && walls[k].threshold > 0
    && (forall j :: b + 1 <= j < n ==> W.Undisturbed(steps[j], pos))
    && (forall j :: k <= j < n ==> OutwardStep(steps[j], pos))
  }

  lemma StepsArm(host: Host, steps: seq<W.Step>, walls: seq<Wall>, b: nat, k: nat, n: nat, pos: Position, extent: u32)
    requires W.Run(host, steps, walls) && OutwardSince(steps, walls, b, k, n, pos, extent)
    requires -G.Travel(W.PushesOf(steps, walls), k, n) >= extent as real + walls[k].threshold as real
    ensures walls[n].pressPending
  {
    assert k < n;
    W.LongOutwardRunArms(host, steps, walls, b, k, n, pos, extent);
  }

  lemma StepsAreOutward(ops: seq<Op>, states: seq<Capture>, steps: seq<W.Step>, walls: seq<Wall>,
      starts: seq<nat>, b: nat, k: nat, n: nat, pos: Position, extent: u32)
    requires b < k <= n && Performs(ops, states, n, steps, walls, starts)
    requires Takes(states[b], ops[b]) && ops[b].arrival.pos == pos && ops[b].arrival.event.Begin?
    requires forall i {:trigger ops[i]} :: b < i < n ==> Undisturbed(states[i], ops[i], pos)
    requires forall i {:trigger ops[i]} :: k <= i < n ==> Outward(states[i], ops[i], pos)
    requires PeerExtent(states[b + 1].wall, pos) == Some(extent) && states[k].wall.threshold > 0
    ensures 0 < starts[b + 1]
    ensures OutwardSince(steps, walls, starts[b + 1] - 1, starts[k], starts[n], pos, extent)
  {
    BeginStep(ops, states, n, steps, walls, starts, b);
    StartsGrow(ops, states, n, steps, walls, starts, b + 1, k);
    StartsGrow(ops, states, n, steps, walls, starts, k, n);
    UndisturbedSteps(ops, states, n, steps, walls, starts, pos, b + 1, n);
    OutwardSteps(ops, states, n, steps, walls, starts, pos, k, n);
    assert walls[starts[b + 1]] == states[b + 1].wall && walls[starts[k]] == states[k].wall;
  }

  lemma LongOutwardSteps(host: Host, ops: seq<Op>, states: seq<Capture>, steps: seq<W.Step>, walls: seq<Wall>,
      starts: seq<nat>, b: nat, k: nat, n: nat, pos: Position, extent: u32)
    requires b < k <= n && W.Run(host, steps, walls) && Performs(ops, states, n, steps, walls, starts)
    requires Takes(states[b], ops[b]) && ops[b].arrival.pos == pos && ops[b].arrival.event.Begin?
    requires forall i {:trigger ops[i]} :: b < i < n ==> Undisturbed(states[i], ops[i], pos)
    requires forall i {:trigger ops[i]} :: k <= i < n ==> Outward(states[i], ops[i], pos)
    requires PeerExtent(states[b + 1].wall, pos) == Some(extent) && states[k].wall.threshold > 0
    requires -Travel(ops, states, pos, k, n) >= extent as real + states[k].wall.threshold as real
    ensures states[n].wall.pressPending
  {
    StepsAreOutward(ops, states, steps, walls, starts, b, k, n, pos, extent);
    TravelInSteps(host, ops, states, n, steps, walls, starts, pos, b, k);
    assert walls[starts[n]] == states[n].wall && walls[starts[k]] == states[k].wall;
    StepsArm(host, steps, walls, starts[b + 1] - 1, starts[k], starts[n], pos, extent);
  }

  lemma LongOutwardRunGoes(host: Host, ops: seq<Op>, states: seq<Capture>, b: nat, k: nat, n: nat, pos: Position,
      extent: u32)
    requires b < k <= n <= |ops| < |states| && GoesThrough(host, ops, states, n)
    requires Takes(states[b], ops[b]) && ops[b].arrival.pos == pos && ops[b].arrival.event.Begin?
    requires forall i {:trigger ops[i]} :: b < i < n ==> Undisturbed(states[i], ops[i], pos)
    requires forall i {:trigger ops[i]} :: k <= i < n ==> Outward(states[i], ops[i], pos)
    requires PeerExtent(states[b + 1].wall, pos) == Some(extent) && states[k].wall.threshold > 0
    requires -Travel(ops, states, pos, k, n) >= extent as real + states[k].wall.threshold as real
    ensures states[n].wall.pressPending
  {
    var steps: seq<W.Step>, walls, starts :|
      W.Run(host, steps, walls) && Performs(ops, states, n, steps, walls, starts);
    LongOutwardSteps(host, ops, states, steps, walls, starts, b, k, n, pos, extent);
  }

  /**
   From a poll that consumes a Begin at a peer of known size on, while nothing disturbs the capture, polls that
   consume outward motions totalling at least the extent plus the threshold leave the AutoRelease armed, whatever
   else is polled, queued, attached, reported or asked for in between.
   */
  lemma LongOutwardRunArms(host: Host, ops: seq<Op>, states: seq<Capture>, b: nat, k: nat, n: nat, pos: Position,
      extent: u32)
    requires Run(host, ops, states) && b < k <= n <= |ops|
    requires Takes(states[b], ops[b]) && ops[b].arrival.pos == pos && ops[b].arrival.event.Begin?
    requires forall i {:trigger ops[i]} :: b < i < n ==> Undisturbed(states[i], ops[i], pos)
    requires forall i {:trigger ops[i]} :: k <= i < n ==> Outward(states[i], ops[i], pos)
    requires PeerExtent(states[b + 1].wall, pos) == Some(extent) && states[k].wall.threshold > 0
    requires -Travel(ops, states, pos, k, n) >= extent as real + states[k].wall.threshold as real
    ensures states[n].wall.pressPending
  {
    WallIsReachable(host, ops, states, n);
    LongOutwardRunGoes(host, ops, states, b, k, n, pos, extent);
  }
}
