/**
 The capture wrapper's cursor model under every step that touches it. Its depth, pressure and pending
 AutoRelease are shown to follow `PressGauge`, whose whole-run facts then hold of the wrapper. Time is not
 modelled: `Fire` is the deadline elapsing, at any moment.
 */
module WallPress {
  import opened Wrappers
  import opened Bytes
  import opened Positions
  import opened CaptureModel
  import G = PressGauge

  datatype Step =
    | Take(pos: Position, event: Event)
    | Fire
    | Release
    | SetThreshold(px: u32)
    | SetBounds(pos: Position, size: Size)
    | ClearBounds(pos: Position)
    | SetSensitivity(pos: Position, factor: real)
    | ClearSensitivity(pos: Position)

  function Next(host: Host, w: Wall, s: Step): Wall {
    match s
    case Take(pos, e) => TrackWallPress(host, w, pos, e)
    case Fire => w.(pressPending := false)
    case Release => Reset(w)
    case SetThreshold(px) => w.(threshold := px)
    case SetBounds(pos, size) => SetPeerBounds(host, w, pos, size)
    case ClearBounds(pos) => w.(peerBounds := w.peerBounds - {pos})
    case SetSensitivity(pos, factor) => SetPeerSensitivity(w, pos, factor)
    case ClearSensitivity(pos) => w.(peerSensitivity := w.peerSensitivity - {pos})
  }

  /** `states[n]` is the model after the first `n` steps of a run from a fresh wrapper. */
  ghost predicate Run(host: Host, steps: seq<Step>, states: seq<Wall>) {
    && |states| == |steps| + 1
    && states[0] == INITIAL
    && forall n {:trigger steps[n]} :: 0 <= n < |steps| ==> states[n + 1] == Next(host, states[n], steps[n])
  }

  lemma StepAt(host: Host, steps: seq<Step>, states: seq<Wall>, n: nat)
    requires Run(host, steps, states) && n < |steps|
    ensures states[n + 1] == Next(host, states[n], steps[n])
  {
  }

  //
  // Abstraction to the gauge
  //

  function GaugeOf(w: Wall): G.Gauge {
    G.Gauge(w.virtualPos, w.pressure, w.pressPending, w.threshold)
  }

  /** What the step means to the gauge: motions away from the captured position mean nothing. */
  function PushOf(w: Wall, s: Step): G.Push {
    match s
    case Take(pos, Begin(_)) => G.Begin
    case Take(pos, Motion(dx, dy)) =>
      if w.capturePos == Some(pos) then G.Move(ScaledDelta(w, pos, dx, dy), PeerExtent(w, pos)) else G.Idle
    case Fire => G.Fire
    case Release => G.Release
    case SetThreshold(px) => G.SetThreshold(px)
    case _ => G.Idle
  }

  lemma StepRefines(host: Host, w: Wall, s: Step)
    ensures GaugeOf(Next(host, w, s)) == G.Step(GaugeOf(w), PushOf(w, s))
  {
    if s.Take? && s.event.Motion? && w.capturePos == Some(s.pos) {
      MoveRefines(w, s.pos, s.event.dx, s.event.dy, ScaledDelta(w, s.pos, s.event.dx, s.event.dy));
    }
  }

  lemma MoveRefines(w: Wall, pos: Position, dx: real, dy: real, delta: real)
    ensures GaugeOf(Press(MoveCursor(w, pos, dx, dy), pos, delta))
            == G.Step(GaugeOf(w), G.Move(delta, PeerExtent(w, pos)))
  {
    assert PeerExtent(MoveCursor(w, pos, dx, dy), pos) == PeerExtent(w, pos);
  }

  ghost function GaugesOf(states: seq<Wall>): (gs: seq<G.Gauge>)
    ensures |gs| == |states|
  {
    seq(|states|, n requires 0 <= n < |states| => GaugeOf(states[n]))
  }

  ghost function PushesOf(steps: seq<Step>, states: seq<Wall>): (ps: seq<G.Push>)
    requires |steps| <= |states|
    ensures |ps| == |steps|
  {
    seq(|steps|, n requires 0 <= n < |steps| => PushOf(states[n], steps[n]))
  }

  /** Every run of the wrapper is, seen through its depth, pressure and pending flag, a run of the gauge. */
  lemma RunRefines(host: Host, steps: seq<Step>, states: seq<Wall>)
    requires Run(host, steps, states)
    ensures G.Run(PushesOf(steps, states), GaugesOf(states))
  {
    forall n | 0 <= n < |steps|
      ensures GaugesOf(states)[n + 1] == G.Step(GaugesOf(states)[n], PushesOf(steps, states)[n])
    {
      RefinesAt(host, steps, states, n);
    }
    assert GaugeOf(states[0]) == G.INITIAL;
  }

  lemma RefinesAt(host: Host, steps: seq<Step>, states: seq<Wall>, n: nat)
    requires Run(host, steps, states) && n < |steps|
    ensures GaugeOf(states[n + 1]) == G.Step(GaugeOf(states[n]), PushOf(states[n], steps[n]))
  {
    StepAt(host, steps, states, n);
    StepRefines(host, states[n], steps[n]);
  }

  //
  // Reachable states
  //

  ghost predicate Inv(w: Wall) {
    && w.virtualPos >= 0.0 && w.pressure >= 0.0
    && (w.pressure > 0.0 ==> w.virtualPos == 0.0)
    && (w.pressPending ==> w.capturePos.Some?)
    && forall pos :: pos in w.peerSensitivity ==> w.peerSensitivity[pos] > 0.0
  }

  lemma CaptureStays(host: Host, w: Wall, s: Step)
    requires w.pressPending ==> w.capturePos.Some?
    ensures var w' := Next(host, w, s); w'.pressPending ==> w'.capturePos.Some?
  {
  }

  lemma SensitivitiesStayPositive(host: Host, w: Wall, s: Step)
    requires forall pos :: pos in w.peerSensitivity ==> w.peerSensitivity[pos] > 0.0
    ensures var sens := Next(host, w, s).peerSensitivity;
            forall pos :: pos in sens ==> sens[pos] > 0.0
  {
    match s
    case Take(pos, e) => TrackingKeepsSensitivities(host, w, pos, e);
    case SetBounds(pos, size) => BoundsKeepSensitivities(host, w, pos, size);
    case _ =>
  }

  lemma TrackingKeepsSensitivities(host: Host, w: Wall, pos: Position, e: Event)
    ensures TrackWallPress(host, w, pos, e).peerSensitivity == w.peerSensitivity
  {
  }

  lemma BoundsKeepSensitivities(host: Host, w: Wall, pos: Position, size: Size)
    ensures SetPeerBounds(host, w, pos, size).peerSensitivity == w.peerSensitivity
  {
  }

  lemma {:induction false} RunKeepsInv(host: Host, steps: seq<Step>, states: seq<Wall>, n: nat)
    requires Run(host, steps, states) && n <= |steps|
    ensures Inv(states[n])
  {
    if n > 0 {
      RunKeepsInv(host, steps, states, n - 1);
      StepAt(host, steps, states, n - 1);
      StepKeepsInv(host, states[n - 1], steps[n - 1]);
    }
  }

  lemma StepKeepsInv(host: Host, w: Wall, s: Step)
    requires Inv(w)
    ensures Inv(Next(host, w, s))
  {
    StepRefines(host, w, s);
    G.StepKeepsInv(GaugeOf(w), PushOf(w, s));
    CaptureStays(host, w, s);
    SensitivitiesStayPositive(host, w, s);
  }

  /**
   An AutoRelease that fires was armed by an unbroken overshoot of at least the threshold, with no interior
   motion, release or firing since; the indexes are those of `PressGauge.ArmedBy`.
   */
  lemma FiringWasArmed(host: Host, steps: seq<Step>, states: seq<Wall>, n: nat) returns (k: nat, j: nat)
    requires Run(host, steps, states) && n < |steps| && steps[n].Fire? && states[n].pressPending
    ensures k <= j < n && steps[j].Take? && steps[j].event.Motion? && states[j].capturePos == Some(steps[j].pos)
    ensures G.ArmedBy(PushesOf(steps, states), GaugesOf(states), k, j, n)
    ensures forall i :: j < i < n ==> !steps[i].Release? && !(steps[i].Fire? && states[i].pressPending)
  {
    RunRefines(host, steps, states);
    var ps, gs := PushesOf(steps, states), GaugesOf(states);
    k, j := G.ArmedByOvershoot(ps, gs, n);
    PushKinds(states[j], steps[j]);
    forall i | j < i < n
      ensures !steps[i].Release? && !(steps[i].Fire? && states[i].pressPending)
    {
      PushKinds(states[i], steps[i]);
      assert !ps[i].Release? && !G.Fires(gs[i], ps[i]);
    }
  }

  lemma PushKinds(w: Wall, s: Step)
    ensures PushOf(w, s).Move? <==> s.Take? && s.event.Motion? && w.capturePos == Some(s.pos)
    ensures PushOf(w, s).Release? <==> s.Release?
    ensures PushOf(w, s).Fire? <==> s.Fire?
  {
  }

  /** The stale arming in the wrapper itself: a press of 30 at the left edge, then a Begin at the right one. */
  lemma BeginKeepsStaleArm(host: Host) returns (steps: seq<Step>, states: seq<Wall>)
    ensures Run(host, steps, states) && |steps| == 4
    ensures steps[3] == Take(Right, Begin(None)) && states[4].pressPending && states[4].pressure == 0.0
  {
    steps := [SetThreshold(20), Take(Left, Begin(None)), Take(Left, Motion(30.0, 0.0)), Take(Right, Begin(None))];
    var s1 := Next(host, INITIAL, steps[0]);
    var s2 := Next(host, s1, steps[1]);
    var s3 := Next(host, s2, steps[2]);
    var s4 := Next(host, s3, steps[3]);
    assert s3.pressure == 30.0;
    states := [INITIAL, s1, s2, s3, s4];
  }

  /** Nothing is being tracked: no captured side, no cursor, no motion kept for one, no depth, no pressure, no alarm. */
  predicate Idle(w: Wall) {
    && w.capturePos.None? && w.virtualCursor.None? && w.pendingBeginCursor.None? && w.pendingMotion == (0.0, 0.0)
    && w.virtualPos == 0.0 && w.pressure == 0.0 && !w.pressPending
  }

  /** A release ends all tracking, and nothing but a Begin starts it again. */
  lemma {:induction false} ReleaseStaysIdle(host: Host, steps: seq<Step>, states: seq<Wall>, r: nat, n: nat)
    requires Run(host, steps, states) && r < n <= |steps| && steps[r].Release?
    requires forall i :: r < i < n ==> !(steps[i].Take? && steps[i].event.Begin?)
    ensures Idle(states[n])
  {
    StepAt(host, steps, states, n - 1);
    if r < n - 1 {
      ReleaseStaysIdle(host, steps, states, r, n - 1);
    }
  }

  //
  // The release cannot be missed
  //

  /** A step that neither ends the capture, starts another, nor touches the bounds known for `pos`. */
  predicate Undisturbed(s: Step, pos: Position) {
    && !s.Release?
    && !(s.Take? && s.event.Begin?)
    && !(s.SetBounds? && s.pos == pos)
    && !(s.ClearBounds? && s.pos == pos)
  }

  predicate MovesAt(s: Step, pos: Position) {
    s.Take? && s.event.Motion? && s.pos == pos
  }

  /**
   The whole story of one capture at a peer of known size: Begin, anything that leaves the capture and the peer's
   size alone, then steps whose motions at the captured position are all outward, with other events and reports in
   between but no firing and no new threshold. If their scaled travel totals at least the extent plus the
   threshold, the AutoRelease is armed.
   */
  lemma LongOutwardRunArms(host: Host, steps: seq<Step>, states: seq<Wall>, b: nat, k: nat, n: nat, pos: Position,
      extent: u32)
    requires Run(host, steps, states) && b < k < n <= |steps|
    requires steps[b].Take? && steps[b].event.Begin? && steps[b].pos == pos
    requires forall i :: b < i < n ==> Undisturbed(steps[i], pos)
    requires PeerExtent(states[b + 1], pos) == Some(extent) && states[k].threshold > 0
    requires forall i :: k <= i < n ==> !steps[i].Fire? && !steps[i].SetThreshold?
    requires forall i :: k <= i < n && MovesAt(steps[i], pos) ==>
              EntryAxisDelta(pos, steps[i].event.dx, steps[i].event.dy) < 0.0
    requires -G.Travel(PushesOf(steps, states), k, n) >= extent as real + states[k].threshold as real
    ensures states[n].pressPending
  {
    RunRefines(host, steps, states);
    var ps, gs := PushesOf(steps, states), GaugesOf(states);
    ExtentStaysFixed(host, steps, states, b, k, pos, extent);
    forall i | k <= i < n
      ensures ps[i].Idle? || (ps[i].Move? && ps[i].delta < 0.0)
    {
      CaptureContinues(host, steps, states, b, i, pos);
      RunKeepsInv(host, steps, states, i);
      OutwardOrIdle(states[i], steps[i], pos);
    }
    assert gs[k].threshold == states[k].threshold;
    G.LongOutwardRunArms(ps, gs, b, k, n, extent);
    assert gs[n].armed == states[n].pressPending;
  }

  lemma ExtentStaysFixed(host: Host, steps: seq<Step>, states: seq<Wall>, b: nat, n: nat, pos: Position, extent: u32)
    requires Run(host, steps, states) && b < n <= |steps|
    requires steps[b].Take? && steps[b].event.Begin? && steps[b].pos == pos
    requires forall i :: b < i < n ==> Undisturbed(steps[i], pos)
    requires PeerExtent(states[b + 1], pos) == Some(extent)
    ensures G.ExtentFixedSince(PushesOf(steps, states), b, n, extent)
  {
    var ps := PushesOf(steps, states);
    assert ps[b].Begin?;
    forall i | b < i < n && ps[i].Move?
      ensures ps[i].extent == Some(extent)
    {
      CaptureContinues(host, steps, states, b, i, pos);
    }
  }

  lemma OutwardOrIdle(w: Wall, s: Step, pos: Position)
    requires Inv(w) && w.capturePos == Some(pos) && Undisturbed(s, pos) && !s.Fire? && !s.SetThreshold?
    requires MovesAt(s, pos) ==> EntryAxisDelta(pos, s.event.dx, s.event.dy) < 0.0
    ensures PushOf(w, s).Idle? || (PushOf(w, s).Move? && PushOf(w, s).delta < 0.0)
  {
    if MovesAt(s, pos) {
      NegativeProduct(EntryAxisDelta(pos, s.event.dx, s.event.dy), Sensitivity(w, pos));
    }
  }

  lemma NegativeProduct(a: real, b: real)
    requires a < 0.0 < b
    ensures a * b < 0.0
  {
  }

  lemma {:induction false} CaptureContinues(host: Host, steps: seq<Step>, states: seq<Wall>, b: nat, n: nat,
      pos: Position)
    requires Run(host, steps, states) && b < n <= |steps|
    requires steps[b].Take? && steps[b].event.Begin? && steps[b].pos == pos
    requires forall i :: b < i < n ==> Undisturbed(steps[i], pos)
    ensures states[n].capturePos == Some(pos) && PeerExtent(states[n], pos) == PeerExtent(states[b + 1], pos)
  {
    StepAt(host, steps, states, n - 1);
    if b + 1 < n {
      CaptureContinues(host, steps, states, b, n - 1, pos);
      UndisturbedStep(host, states[n - 1], steps[n - 1], pos);
    }
  }

  lemma UndisturbedStep(host: Host, w: Wall, s: Step, pos: Position)
    requires w.capturePos == Some(pos) && Undisturbed(s, pos)
    ensures Next(host, w, s).capturePos == Some(pos) && PeerExtent(Next(host, w, s), pos) == PeerExtent(w, pos)
  {
    BoundsStay(host, w, s, pos);
  }

  lemma BoundsStay(host: Host, w: Wall, s: Step, pos: Position)
    requires Undisturbed(s, pos)
    ensures var bounds := Next(host, w, s).peerBounds;
            (pos in bounds <==> pos in w.peerBounds) && (pos in w.peerBounds ==> bounds[pos] == w.peerBounds[pos])
  {
  }
}
