/**
 The guest-space cursor over whole runs of the capture wrapper: where it is placed when the peer's bounds only arrive
 after motions did, and exactly when it is on the peer's screen.
 */
module VirtualCursor {
  import opened Wrappers
  import opened Bytes
  import opened Positions
  import opened CaptureModel
  import opened WallPress

  function Add(u: Vector, v: Vector): Vector {
    (u.0 + v.0, u.1 + v.1)
  }

  predicate Inside(v: Vector, size: Size) {
    0.0 <= v.0 <= size.0 as real && 0.0 <= v.1 <= size.1 as real
  }

  //
  // Late seeding
  //

  /** Where the guest cursor starts when a capture at `pos` begins with the host cursor at `cursor`. */
  function Seed(host: Host, pos: Position, size: Size, cursor: Pixel): Vector {
    InitialVirtualCursor(host, INITIAL.(peerBounds := map[pos := size]), pos, Some(cursor)).value
  }

  lemma SeedDependsOnBoundsOnly(host: Host, w: Wall, pos: Position, cursor: Pixel)
    requires pos in w.peerBounds
    ensures InitialVirtualCursor(host, w, pos, Some(cursor)) == Some(Seed(host, pos, w.peerBounds[pos], cursor))
  {
    var w1 := INITIAL.(peerBounds := map[pos := w.peerBounds[pos]]);
    assert PeerWarpTarget(host, w, pos, cursor) == PeerWarpTarget(host, w1, pos, cursor);
  }

  function DeltaOf(s: Step, pos: Position): Vector {
    if s.Take? && s.pos == pos && s.event.Motion? then (s.event.dx, s.event.dy) else (0.0, 0.0)
  }

  /** Sum of the motions at `pos` among `steps[lo..hi]`. */
  function Drift(steps: seq<Step>, pos: Position, lo: nat, hi: nat): Vector
    requires lo <= hi <= |steps|
  {
    if lo == hi then (0.0, 0.0) else Add(Drift(steps, pos, lo, hi - 1), DeltaOf(steps[hi - 1], pos))
  }

  /** The state of a capture that began with a cursor at a peer of unknown size. */
  predicate Waiting(w: Wall, pos: Position, cursor: Pixel, drift: Vector) {
    && w.capturePos == Some(pos) && w.virtualCursor.None? && pos !in w.peerBounds
    && w.pendingBeginCursor == Some(cursor) && w.pendingMotion == drift
  }

  lemma WaitingContinues(host: Host, w: Wall, s: Step, pos: Position, cursor: Pixel, drift: Vector)
    requires Waiting(w, pos, cursor, drift) && Undisturbed(s, pos)
    ensures Waiting(Next(host, w, s), pos, cursor, Add(drift, DeltaOf(s, pos)))
  {
  }

  /** `steps[b]` begins a capture with a cursor at a peer of unknown size, and nothing disturbs it before `n`. */
  ghost predicate BeginsUnsized(host: Host, steps: seq<Step>, states: seq<Wall>, b: nat, n: nat, pos: Position,
      cursor: Pixel)
  {
    && Run(host, steps, states) && b < n <= |steps|
    && steps[b] == Take(pos, Begin(Some(cursor))) && pos !in states[b].peerBounds
    && forall i :: b < i < n ==> Undisturbed(steps[i], pos)
  }

  lemma {:induction false} WaitingAccumulates(host: Host, steps: seq<Step>, states: seq<Wall>, b: nat, n: nat,
      pos: Position, cursor: Pixel)
    requires BeginsUnsized(host, steps, states, b, n, pos, cursor)
    ensures Waiting(states[n], pos, cursor, Drift(steps, pos, b + 1, n))
  {
    StepAt(host, steps, states, n - 1);
    if b + 1 < n {
      WaitingAccumulates(host, steps, states, b, n - 1, pos, cursor);
      WaitingContinues(host, states[n - 1], steps[n - 1], pos, cursor, Drift(steps, pos, b + 1, n - 1));
    }
  }

  /** Bounds that arrive late place the cursor at its seed plus every motion since Begin, clamped once. */
  lemma LateSeeding(host: Host, steps: seq<Step>, states: seq<Wall>, b: nat, n: nat, pos: Position, cursor: Pixel,
      size: Size)
    requires BeginsUnsized(host, steps, states, b, n, pos, cursor)
    requires n < |steps| && steps[n] == SetBounds(pos, size)
    ensures states[n + 1].pendingMotion == (0.0, 0.0)
    ensures states[n + 1].virtualCursor
            == Some(Clamped(Add(Seed(host, pos, size, cursor), Drift(steps, pos, b + 1, n)), size))
  {
    WaitingAccumulates(host, steps, states, b, n, pos, cursor);
    StepAt(host, steps, states, n);
    BoundsEndWaiting(host, states[n], pos, cursor, Drift(steps, pos, b + 1, n), size);
  }

  lemma BoundsEndWaiting(host: Host, w: Wall, pos: Position, cursor: Pixel, drift: Vector, size: Size)
    requires Waiting(w, pos, cursor, drift)
    ensures var w' := SetPeerBounds(host, w, pos, size);
            && w'.pendingMotion == (0.0, 0.0) && w'.capturePos == Some(pos)
            && w'.peerBounds == w.peerBounds[pos := size] && w'.pendingBeginCursor == Some(cursor)
            && w'.virtualCursor == Some(Clamped(Add(Seed(host, pos, size, cursor), drift), size))
  {
    SeedDependsOnBoundsOnly(host, w.(peerBounds := w.peerBounds[pos := size]), pos, cursor);
  }

  //
  // What the cursor depends on
  //

  /** The part of the wrapper that decides where the guest cursor is, now and later. */
  datatype View = View(
    capturePos: Option<Position>,
    cursor: Option<Vector>,
    beginCursor: Option<Pixel>,
    pendingMotion: Vector,
    bounds: map<Position, Size>)

  function ViewOf(w: Wall): View {
    View(w.capturePos, w.virtualCursor, w.pendingBeginCursor, w.pendingMotion, w.peerBounds)
  }

  lemma MotionView(host: Host, w: Wall, pos: Position, dx: real, dy: real)
    ensures ViewOf(Next(host, w, Take(pos, Motion(dx, dy))))
            == ViewOf(if w.capturePos == Some(pos) then MoveCursor(w, pos, dx, dy) else w)
  {
  }

  //
  // The cursor stays on the peer's screen
  //

  predicate OnScreen(w: Wall, pos: Position) {
    && w.capturePos == Some(pos) && pos in w.peerBounds && w.virtualCursor.Some?
    && Inside(w.virtualCursor.value, w.peerBounds[pos])
  }

  lemma {:induction false} StaysOnScreen(host: Host, steps: seq<Step>, states: seq<Wall>, m: nat, n: nat, pos: Position)
    requires Run(host, steps, states) && m <= n <= |steps|
    requires OnScreen(states[m], pos)
    requires forall i :: m <= i < n ==> Undisturbed(steps[i], pos)
    ensures OnScreen(states[n], pos)
  {
    if m < n {
      StaysOnScreen(host, steps, states, m, n - 1, pos);
      assert states[n] == Next(host, states[n - 1], steps[n - 1]);
    }
  }

  /** From the late bounds on, the cursor is on the peer's screen for as long as the capture is undisturbed. */
  lemma LateSeedStaysOnScreen(
    host: Host, steps: seq<Step>, states: seq<Wall>, b: nat, n: nat, k: nat, pos: Position, cursor: Pixel, size: Size)
    requires BeginsUnsized(host, steps, states, b, n, pos, cursor)
    requires n < k <= |steps| && steps[n] == SetBounds(pos, size)
    requires forall i :: n < i < k ==> Undisturbed(steps[i], pos)
    ensures OnScreen(states[k], pos)
  {
    WaitingAccumulates(host, steps, states, b, n, pos, cursor);
    StepAt(host, steps, states, n);
    BoundsEndWaiting(host, states[n], pos, cursor, Drift(steps, pos, b + 1, n), size);
    StaysOnScreen(host, steps, states, n + 1, k, pos);
  }

  /** A Begin at a zero-sized peer seeds the cursor off its screen; only the next motion corrects that. */
  lemma ZeroSizedPeerSeedsOffScreen(host: Host, cursor: Pixel, height: u32)
    requires host.bounds.Some?
    ensures Seed(host, Left, (0, height), cursor).0 == -1.0
  {
    SeedDependsOnBoundsOnly(host, INITIAL.(peerBounds := map[Left := (0, height)]), Left, cursor);
  }

  /**
   Where a Begin at a peer of this size seeds the cursor on its screen: except when a warp target is pinned to the
   far pixel of an empty side or of one whose length wraps around as an i32.
   */
  predicate SeedsOnScreen(host: Host, pos: Position, size: Size, cursor: Option<Pixel>) {
    cursor.None? || host.bounds.None? ||
    match pos
    case Left => 0 < size.0 <= I32_MAX
    case Top => 0 < size.1 <= I32_MAX
    case _ => true
  }

  lemma BeginOnScreenExactly(host: Host, w: Wall, pos: Position, cursor: Option<Pixel>)
    requires pos in w.peerBounds
    ensures OnScreen(TrackWallPress(host, w, pos, Begin(cursor)), pos)
            <==> SeedsOnScreen(host, pos, w.peerBounds[pos], cursor)
  {
  }

  /**
   After a bounds report for the captured position the cursor is on the screen exactly if it was inside the reported
   size already, or is placed only now: a report that shrinks the peer does not move a placed cursor.
   */
  lemma BoundsOnScreenExactly(host: Host, w: Wall, pos: Position, size: Size)
    requires w.capturePos == Some(pos)
    ensures OnScreen(SetPeerBounds(host, w, pos, size), pos)
            <==> if w.virtualCursor.Some? then Inside(w.virtualCursor.value, size) else w.pendingBeginCursor.Some?
  {
  }

  /** A capture at a peer of this size has its cursor placed. */
  predicate Sized(w: Wall, pos: Position, size: Size) {
    w.capturePos == Some(pos) && pos in w.peerBounds && w.peerBounds[pos] == size && w.virtualCursor.Some?
  }

  lemma SizedContinues(host: Host, w: Wall, s: Step, pos: Position, size: Size)
    requires Sized(w, pos, size) && Undisturbed(s, pos)
    ensures Sized(Next(host, w, s), pos, size)
    ensures OnScreen(Next(host, w, s), pos) <==> MovesAt(s, pos) || OnScreen(w, pos)
  {
    if s.Take? && s.event.Motion? { MotionView(host, w, s.pos, s.event.dx, s.event.dy); }
  }

  /**
   Over a whole capture at a peer of known size, the cursor is on its screen exactly if the Begin seeded it there or
   a motion has come since.
   */
  lemma {:induction false} CaptureOnScreenExactly(
    host: Host, steps: seq<Step>, states: seq<Wall>, b: nat, n: nat, pos: Position, cursor: Option<Pixel>)
    requires Run(host, steps, states) && b < n <= |steps|
    requires steps[b] == Take(pos, Begin(cursor)) && pos in states[b].peerBounds
    requires forall i :: b < i < n ==> Undisturbed(steps[i], pos)
    ensures Sized(states[n], pos, states[b].peerBounds[pos])
    ensures OnScreen(states[n], pos)
            <==> SeedsOnScreen(host, pos, states[b].peerBounds[pos], cursor) ||
                 exists i :: b < i < n && MovesAt(steps[i], pos)
  {
    StepAt(host, steps, states, n - 1);
    if n == b + 1 {
      BeginOnScreenExactly(host, states[b], pos, cursor);
    } else {
      CaptureOnScreenExactly(host, steps, states, b, n - 1, pos, cursor);
      SizedContinues(host, states[n - 1], steps[n - 1], pos, states[b].peerBounds[pos]);
      if MovesAt(steps[n - 1], pos) { assert b < n - 1 < n; }
    }
  }
}
