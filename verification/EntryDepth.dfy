/**
 Two models of how far into the guest the user is, the depth used for wall pressure and the guest cursor, tell the
 same story on all four sides.
 */
module EntryDepth {
  import opened Wrappers
  import opened Bytes
  import opened Positions
  import opened CaptureModel
  import opened WallPress
  import opened VirtualCursor

  /** How far the guest cursor is from the edge it entered through. */
  function EntryDistance(pos: Position, v: Vector, size: Size): real {
    match pos
    case Left => (size.0 - 1) as real - v.0
    case Right => v.0
    case Top => (size.1 - 1) as real - v.1
    case Bottom => v.1
  }

  function Extent(pos: Position, size: Size): u32 {
    if Sideways(pos) then size.0 else size.1
  }

  /** The cursor at `v` is on the guest's screen, not past the entry edge, and its scaled distance is within reach. */
  predicate Reachable(pos: Position, size: Size, sensitivity: real, v: Vector) {
    && Inside(v, size) && EntryDistance(pos, v, size) >= 0.0
    && 0.0 <= sensitivity * EntryDistance(pos, v, size) <= Extent(pos, size) as real
  }

  /** With wall-press tracking on, the depth is the scaled distance of a cursor at `v`. */
  predicate Entered(w: Wall, pos: Position, size: Size, sensitivity: real, v: Vector) {
    EnteredAt(w, pos, size, sensitivity, v, sensitivity * EntryDistance(pos, v, size))
  }

  predicate EnteredAt(w: Wall, pos: Position, size: Size, sensitivity: real, v: Vector, depth: real) {
    && w.capturePos == Some(pos) && w.threshold > 0
    && pos in w.peerBounds && w.peerBounds[pos] == size && Sensitivity(w, pos) == sensitivity
    && w.virtualCursor == Some(v)
    && w.virtualPos == depth
  }

  /** A step that leaves the capture, the peer's size and sensitivity as they are, and tracking on. */
  predicate Steady(s: Step, pos: Position) {
    && Undisturbed(s, pos)
    && !(s.SetSensitivity? && s.pos == pos) && !(s.ClearSensitivity? && s.pos == pos)
    && !(s.SetThreshold? && s.px == 0)
  }

  lemma EnteredAfterBegin(host: Host, w: Wall, pos: Position, cursor: Pixel, size: Size)
    requires host.bounds.Some? && w.threshold > 0 && pos in w.peerBounds && w.peerBounds[pos] == size
    requires SeedsOnScreen(host, pos, size, Some(cursor))
    ensures var w' := Next(host, w, Take(pos, Begin(Some(cursor))));
            Entered(w', pos, size, Sensitivity(w, pos), Seed(host, pos, size, cursor))
  {
    SeedDependsOnBoundsOnly(host, w, pos, cursor);
    assert EntryDistance(pos, Seed(host, pos, size, cursor), size) == 0.0;
  }

  lemma Distributes(f: real, a: real, b: real)
    ensures f * (a + b) == f * a + b * f
  {
  }

  lemma DistanceFollows(w: Wall, pos: Position, v: Vector, dx: real, dy: real, size: Size, f: real)
    requires Sensitivity(w, pos) == f
    ensures f * EntryDistance(pos, Add(v, (dx, dy)), size)
            == f * EntryDistance(pos, v, size) + ScaledDelta(w, pos, dx, dy)
  {
    assert EntryDistance(pos, Add(v, (dx, dy)), size) == EntryDistance(pos, v, size) + EntryAxisDelta(pos, dx, dy);
    Distributes(f, EntryDistance(pos, v, size), EntryAxisDelta(pos, dx, dy));
  }

  /** A motion that stays on the screen and within the depth's range is absorbed by both models. */
  lemma MovesTo(host: Host, w: Wall, s: Step, pos: Position, size: Size, f: real, v: Vector, depth: real, depth': real)
    requires EnteredAt(w, pos, size, f, v, depth) && MovesAt(s, pos) && Inside(Add(v, DeltaOf(s, pos)), size)
    requires depth' == depth + ScaledDelta(w, pos, s.event.dx, s.event.dy)
    requires 0.0 <= depth' <= Extent(pos, size) as real
    ensures EnteredAt(Next(host, w, s), pos, size, f, Add(v, DeltaOf(s, pos)), depth')
  {
    PressesTo(MoveCursor(w, pos, s.event.dx, s.event.dy), pos, ScaledDelta(w, pos, s.event.dx, s.event.dy), depth');
  }

  lemma PressesTo(w: Wall, pos: Position, delta: real, depth: real)
    requires w.threshold > 0 && w.virtualPos + delta == depth >= 0.0
    requires PeerExtent(w, pos).Some? && depth <= PeerExtent(w, pos).value as real
    ensures var w' := Press(w, pos, delta);
            w' == w.(virtualPos := depth, pressure := w'.pressure, pressPending := w'.pressPending)
  {
  }

  lemma StandsStill(host: Host, w: Wall, s: Step, pos: Position, size: Size, f: real, v: Vector, depth: real)
    requires EnteredAt(w, pos, size, f, v, depth) && Steady(s, pos) && !MovesAt(s, pos)
    ensures EnteredAt(Next(host, w, s), pos, size, f, v, depth)
  {
  }

  lemma EnteredAfterMotion(host: Host, w: Wall, s: Step, pos: Position, size: Size, f: real, v: Vector, v': Vector)
    requires Entered(w, pos, size, f, v) && MovesAt(s, pos) && v' == Add(v, DeltaOf(s, pos))
    requires Reachable(pos, size, f, v')
    ensures Entered(Next(host, w, s), pos, size, f, v')
  {
    DistanceFollows(w, pos, v, s.event.dx, s.event.dy, size, f);
    MovesTo(host, w, s, pos, size, f, v, f * EntryDistance(pos, v, size), f * EntryDistance(pos, v', size));
  }

  lemma EnteredStep(host: Host, w: Wall, s: Step, pos: Position, size: Size, f: real, v: Vector)
    requires Entered(w, pos, size, f, v) && Steady(s, pos) && Reachable(pos, size, f, Add(v, DeltaOf(s, pos)))
    ensures Entered(Next(host, w, s), pos, size, f, Add(v, DeltaOf(s, pos)))
  {
    if MovesAt(s, pos) {
      EnteredAfterMotion(host, w, s, pos, size, f, v, Add(v, DeltaOf(s, pos)));
    } else {
      assert Add(v, DeltaOf(s, pos)) == v;
      StandsStill(host, w, s, pos, size, f, v, f * EntryDistance(pos, v, size));
    }
  }

  lemma DriftStep(steps: seq<Step>, pos: Position, lo: nat, hi: nat, v: Vector)
    requires lo < hi <= |steps|
    ensures Add(v, Drift(steps, pos, lo, hi)) == Add(Add(v, Drift(steps, pos, lo, hi - 1)), DeltaOf(steps[hi - 1], pos))
  {
  }

  predicate SumReachable(steps: seq<Step>, pos: Position, lo: nat, hi: nat, v: Vector, size: Size, f: real)
    requires lo <= hi <= |steps|
  {
    Reachable(pos, size, f, Add(v, Drift(steps, pos, lo, hi)))
  }

  predicate StaysReachable(steps: seq<Step>, pos: Position, lo: nat, hi: nat, v: Vector, size: Size, f: real)
    requires lo <= hi <= |steps|
  {
    forall i :: lo <= i <= hi ==> SumReachable(steps, pos, lo, i, v, size, f)
  }

  lemma {:induction false} StaysEntered(
    host: Host, steps: seq<Step>, states: seq<Wall>, m: nat, n: nat, pos: Position, size: Size, f: real, v: Vector)
    requires Run(host, steps, states) && m <= n <= |steps| && Entered(states[m], pos, size, f, v)
    requires forall i :: m <= i < n ==> Steady(steps[i], pos)
    requires StaysReachable(steps, pos, m, n, v, size, f)
    ensures Entered(states[n], pos, size, f, Add(v, Drift(steps, pos, m, n)))
  {
    if m == n {
      assert Add(v, Drift(steps, pos, m, n)) == v;
    } else {
      StaysEntered(host, steps, states, m, n - 1, pos, size, f, v);
      StepAt(host, steps, states, n - 1);
      DriftStep(steps, pos, m, n, v);
      assert SumReachable(steps, pos, m, n, v, size, f);
      EnteredStep(host, states[n - 1], steps[n - 1], pos, size, f, Add(v, Drift(steps, pos, m, n - 1)));
    }
  }

  /**
   While the motions since Begin keep the cursor on the guest's screen, short of leaving it again, the depth used
   for wall pressure is the cursor's distance from the edge it entered through, scaled by the guest's sensitivity.
   */
  lemma DepthIsEntryDistance(
    host: Host, steps: seq<Step>, states: seq<Wall>, b: nat, n: nat, pos: Position, cursor: Pixel, size: Size, f: real)
    requires Run(host, steps, states) && b < n <= |steps| && host.bounds.Some?
    requires steps[b] == Take(pos, Begin(Some(cursor))) && SeedsOnScreen(host, pos, size, Some(cursor))
    requires pos in states[b].peerBounds && states[b].peerBounds[pos] == size
    requires states[b].threshold > 0 && Sensitivity(states[b], pos) == f
    requires forall i :: b < i < n ==> Steady(steps[i], pos)
    requires StaysReachable(steps, pos, b + 1, n, Seed(host, pos, size, cursor), size, f)
    ensures Entered(states[n], pos, size, f, Add(Seed(host, pos, size, cursor), Drift(steps, pos, b + 1, n)))
  {
    StepAt(host, steps, states, b);
    EnteredAfterBegin(host, states[b], pos, cursor, size);
    StaysEntered(host, steps, states, b + 1, n, pos, size, f, Seed(host, pos, size, cursor));
  }
}
