/**
 Seeding the guest cursor late against having known the peer's bounds since Begin. The eager run clamps the cursor to
 the peer's screen at every motion, the late one once when the bounds arrive; the two agree exactly if that one clamp
 lands where the motions could have left the cursor at all.
 */
module LateCursor {
  import opened Wrappers
  import opened Positions
  import opened CaptureModel
  import opened WallPress
  import opened VirtualCursor

  //
  // Clamping at every motion
  //

  /** A cursor on a screen of this size, after one step. */
  function Stepped(v: Vector, s: Step, pos: Position, size: Size): Vector {
    if MovesAt(s, pos) then Clamped(Add(v, DeltaOf(s, pos)), size) else v
  }

  /** A cursor that starts at `v` and is clamped at every motion at `pos` among `steps[lo..hi]`. */
  function Walked(steps: seq<Step>, pos: Position, lo: nat, hi: nat, size: Size, v: Vector): Vector
    requires lo <= hi <= |steps|
  {
    if lo == hi then v else Stepped(Walked(steps, pos, lo, hi - 1, size, v), steps[hi - 1], pos, size)
  }

  /** Opposite corners of a rectangle, once there is one: the screen's after the first motion, then each walks on. */
  type Corners = Option<(Vector, Vector)>

  function Spread(span: Corners, s: Step, pos: Position, size: Size): Corners {
    match span
    case Some((least, most)) => Some((Stepped(least, s, pos, size), Stepped(most, s, pos, size)))
    case None => if MovesAt(s, pos) then Some(((0.0, 0.0), (size.0 as real, size.1 as real))) else None
  }

  /** The rectangle that holds every cursor after the steps `steps[lo..hi]`, wherever it started. */
  function Span(steps: seq<Step>, pos: Position, lo: nat, hi: nat, size: Size): Corners
    requires lo <= hi <= |steps|
  {
    if lo == hi then None else Spread(Span(steps, pos, lo, hi - 1, size), steps[hi - 1], pos, size)
  }

  /** Componentwise order. */
  predicate Below(u: Vector, v: Vector) {
    u.0 <= v.0 && u.1 <= v.1
  }

  function ClampedTo(v: Vector, least: Vector, most: Vector): Vector
    requires Below(least, most)
  {
    (Clamp(v.0, least.0, most.0), Clamp(v.1, least.1, most.1))
  }

  lemma SteppedSpan(v: Vector, least: Vector, most: Vector, s: Step, pos: Position, size: Size)
    requires Below(least, most)
    ensures Below(Stepped(least, s, pos, size), Stepped(most, s, pos, size))
    ensures Stepped(ClampedTo(v, least, most), s, pos, size)
            == ClampedTo(Add(v, DeltaOf(s, pos)), Stepped(least, s, pos, size), Stepped(most, s, pos, size))
  {
  }

  /** The cursor is where it started, displaced and clamped once to the span, if there is one yet. */
  predicate IsOneClamp(walked: Vector, v: Vector, drift: Vector, span: Corners, size: Size) {
    match span
    case None => walked == v && drift == (0.0, 0.0)
    case Some((least, most)) =>
      Below(least, most) && Inside(least, size) && Inside(most, size) && walked == ClampedTo(Add(v, drift), least, most)
  }

  lemma StepIsOneClamp(walked: Vector, v: Vector, drift: Vector, span: Corners, s: Step, pos: Position, size: Size)
    requires IsOneClamp(walked, v, drift, span, size)
    ensures IsOneClamp(Stepped(walked, s, pos, size), v, Add(drift, DeltaOf(s, pos)), Spread(span, s, pos, size), size)
  {
    assert Add(Add(v, drift), DeltaOf(s, pos)) == Add(v, Add(drift, DeltaOf(s, pos)));
    if span.Some? {
      SteppedSpan(Add(v, drift), span.value.0, span.value.1, s, pos, size);
    }
  }

  /** Clamping at every motion comes to one clamp, to the span of the motions. */
  lemma {:induction false} WalkIsOneClamp(steps: seq<Step>, pos: Position, lo: nat, hi: nat, size: Size, v: Vector)
    requires lo <= hi <= |steps|
    ensures IsOneClamp(Walked(steps, pos, lo, hi, size, v), v, Drift(steps, pos, lo, hi),
                       Span(steps, pos, lo, hi, size), size)
  {
    if lo < hi {
      WalkIsOneClamp(steps, pos, lo, hi - 1, size, v);
      StepIsOneClamp(Walked(steps, pos, lo, hi - 1, size, v), v, Drift(steps, pos, lo, hi - 1),
                     Span(steps, pos, lo, hi - 1, size), steps[hi - 1], pos, size);
    }
  }

  /** Where clamping once puts the cursor, the motions could have left it. */
  predicate LandsInSpan(steps: seq<Step>, pos: Position, lo: nat, hi: nat, size: Size, seed: Vector)
    requires lo <= hi <= |steps|
  {
    match Span(steps, pos, lo, hi, size)
    case None => Inside(seed, size)
    case Some((least, most)) =>
      var once := Clamped(Add(seed, Drift(steps, pos, lo, hi)), size);
      Below(least, once) && Below(once, most)
  }

  lemma WalkIsClampedOnceExactly(steps: seq<Step>, pos: Position, lo: nat, hi: nat, size: Size, seed: Vector)
    requires lo <= hi <= |steps|
    ensures Walked(steps, pos, lo, hi, size, seed) == Clamped(Add(seed, Drift(steps, pos, lo, hi)), size)
            <==> LandsInSpan(steps, pos, lo, hi, size, seed)
  {
    WalkIsOneClamp(steps, pos, lo, hi, size, seed);
    assert Add(seed, (0.0, 0.0)) == seed;
  }

  /** The seed displaced by the motions among `steps[lo..hi]` is still on the peer's screen. */
  predicate SumInside(steps: seq<Step>, pos: Position, lo: nat, hi: nat, seed: Vector, size: Size)
    requires lo <= hi <= |steps|
  {
    Inside(Add(seed, Drift(steps, pos, lo, hi)), size)
  }

  /** Every motion at `pos` among `steps[lo..hi]` starts with the cursor on the peer's screen. */
  predicate StartsInside(steps: seq<Step>, pos: Position, lo: nat, hi: nat, seed: Vector, size: Size)
    requires lo <= hi <= |steps|
  {
    && Inside(seed, size)
    && forall i :: lo <= i < hi && MovesAt(steps[i], pos) ==> SumInside(steps, pos, lo, i, seed, size)
  }

  /** In particular nothing is clamped on the way. */
  lemma StartsInsideLandsInSpan(steps: seq<Step>, pos: Position, lo: nat, hi: nat, seed: Vector,
      size: Size)
    requires lo <= hi <= |steps| && StartsInside(steps, pos, lo, hi, seed, size)
    ensures LandsInSpan(steps, pos, lo, hi, size, seed)
  {
    WalksStraight(steps, pos, lo, hi, seed, size);
    WalkIsClampedOnceExactly(steps, pos, lo, hi, size, seed);
  }

  lemma {:induction false} WalksStraight(steps: seq<Step>, pos: Position, lo: nat, hi: nat, seed: Vector, size: Size)
    requires lo <= hi <= |steps| && StartsInside(steps, pos, lo, hi, seed, size)
    ensures Walked(steps, pos, lo, hi, size, seed) == Clamped(Add(seed, Drift(steps, pos, lo, hi)), size)
  {
    if lo == hi {
      assert Add(seed, (0.0, 0.0)) == seed;
    } else {
      WalksStraight(steps, pos, lo, hi - 1, seed, size);
      var s, drift := steps[hi - 1], Drift(steps, pos, lo, hi - 1);
      if MovesAt(s, pos) {
        assert SumInside(steps, pos, lo, hi - 1, seed, size);
        assert Clamped(Add(seed, drift), size) == Add(seed, drift);
      }
      assert Add(Add(seed, drift), DeltaOf(s, pos)) == Add(seed, Drift(steps, pos, lo, hi));
    }
  }

  //
  // The late run and the eager one
  //

  lemma BoundsView(host: Host, w1: Wall, w2: Wall, pos: Position, size: Size)
    requires ViewOf(w1) == ViewOf(w2)
    ensures ViewOf(SetPeerBounds(host, w1, pos, size)) == ViewOf(SetPeerBounds(host, w2, pos, size))
  {
    SeedByBounds(host, w1.(peerBounds := w1.peerBounds[pos := size]),
                 w2.(peerBounds := w2.peerBounds[pos := size]), pos, w1.pendingBeginCursor);
  }

  lemma ViewDecidesView(host: Host, w1: Wall, w2: Wall, s: Step)
    requires ViewOf(w1) == ViewOf(w2)
    ensures ViewOf(Next(host, w1, s)) == ViewOf(Next(host, w2, s))
  {
    match s
    case Take(pos, Begin(cursor)) => SeedByBounds(host, w1, w2, pos, cursor);
    case Take(pos, Motion(dx, dy)) =>
      MotionView(host, w1, pos, dx, dy);
      MotionView(host, w2, pos, dx, dy);
    case SetBounds(pos, size) => BoundsView(host, w1, w2, pos, size);
    case _ =>
  }

  /** `eager` is `late` with the bounds report at `n` moved to just before the Begin at `b`. */
  predicate Hastens(eager: seq<Step>, late: seq<Step>, b: nat, n: nat) {
    && b < n < |late| == |eager|
    && eager[..b] == late[..b]
    && eager[b] == late[n]
    && (forall i {:trigger late[i]} :: b <= i < n ==> eager[i + 1] == late[i])
    && eager[n + 1..] == late[n + 1..]
  }

  lemma {:induction false} SamePrefix(host: Host, es: seq<Step>, e: seq<Wall>, ls: seq<Step>, l: seq<Wall>, b: nat)
    requires Run(host, es, e) && Run(host, ls, l) && b <= |es| && b <= |ls| && es[..b] == ls[..b]
    ensures e[b] == l[b]
  {
    if b > 0 {
      assert es[b - 1] == es[..b][b - 1] == ls[b - 1];
      assert es[..b - 1] == es[..b][..b - 1] == ls[..b - 1];
      SamePrefix(host, es, e, ls, l, b - 1);
    }
  }

  /** An eager state with the cursor at `v`, beside a late one still waiting for the bounds. */
  predicate Ahead(e: Wall, l: Wall, pos: Position, size: Size, v: Vector) {
    && e.capturePos == Some(pos) && e.peerBounds == l.peerBounds[pos := size]
    && e.pendingBeginCursor == l.pendingBeginCursor && e.pendingMotion == (0.0, 0.0)
    && e.virtualCursor == Some(v)
  }

  lemma AheadAfterBegin(host: Host, w: Wall, pos: Position, size: Size, cursor: Pixel)
    requires pos !in w.peerBounds
    ensures var begin := Take(pos, Begin(Some(cursor)));
            Ahead(Next(host, Next(host, w, SetBounds(pos, size)), begin), Next(host, w, begin), pos, size,
                  Seed(host, pos, size, cursor))
  {
    SeedDependsOnBoundsOnly(host, Next(host, w, SetBounds(pos, size)), pos, cursor);
  }

  lemma AheadByView(e1: Wall, l1: Wall, e2: Wall, l2: Wall, pos: Position, size: Size, v: Vector)
    requires ViewOf(e1) == ViewOf(e2) && ViewOf(l1) == ViewOf(l2) && Ahead(e1, l1, pos, size, v)
    ensures Ahead(e2, l2, pos, size, v)
  {
  }

  lemma AheadContinues(host: Host, e: Wall, l: Wall, s: Step, pos: Position, size: Size, v: Vector, cursor: Pixel,
      drift: Vector)
    requires Ahead(e, l, pos, size, v) && Waiting(l, pos, cursor, drift) && Undisturbed(s, pos)
    ensures Ahead(Next(host, e, s), Next(host, l, s), pos, size, Stepped(v, s, pos, size))
  {
    if s.Take? && s.event.Motion? {
      AheadMoves(host, e, l, s, pos, size, v, cursor, drift);
    }
  }

  lemma AheadMoves(host: Host, e: Wall, l: Wall, s: Step, pos: Position, size: Size, v: Vector, cursor: Pixel,
      drift: Vector)
    requires Ahead(e, l, pos, size, v) && Waiting(l, pos, cursor, drift) && s.Take? && s.event.Motion?
    ensures Ahead(Next(host, e, s), Next(host, l, s), pos, size, Stepped(v, s, pos, size))
  {
    var dx, dy := s.event.dx, s.event.dy;
    MotionView(host, e, s.pos, dx, dy);
    MotionView(host, l, s.pos, dx, dy);
    if s.pos == pos {
      AheadByView(MoveCursor(e, pos, dx, dy), MoveCursor(l, pos, dx, dy), Next(host, e, s), Next(host, l, s),
                  pos, size, Stepped(v, s, pos, size));
    } else {
      AheadByView(e, l, Next(host, e, s), Next(host, l, s), pos, size, v);
    }
  }

  /** The eager cursor is the seed, clamped at every motion. */
  lemma {:induction false} StaysAhead(
    host: Host, es: seq<Step>, e: seq<Wall>, ls: seq<Step>, l: seq<Wall>, b: nat, n: nat, k: nat,
    pos: Position, cursor: Pixel, size: Size)
    requires Run(host, es, e) && BeginsUnsized(host, ls, l, b, n, pos, cursor) && b < k <= n
    requires Hastens(es, ls, b, n) && ls[n] == SetBounds(pos, size)
    ensures Ahead(e[k + 1], l[k], pos, size, Walked(ls, pos, b + 1, k, size, Seed(host, pos, size, cursor)))
  {
    assert ls[k - 1] == es[k];
    StepAt(host, es, e, k);
    StepAt(host, ls, l, k - 1);
    if k == b + 1 {
      SamePrefix(host, es, e, ls, l, b);
      StepAt(host, es, e, b);
      AheadAfterBegin(host, l[b], pos, size, cursor);
    } else {
      StaysAhead(host, es, e, ls, l, b, n, k - 1, pos, cursor, size);
      WaitingAccumulates(host, ls, l, b, k - 1, pos, cursor);
      var v := Walked(ls, pos, b + 1, k - 1, size, Seed(host, pos, size, cursor));
      AheadContinues(host, e[k], l[k - 1], ls[k - 1], pos, size, v, cursor, Drift(ls, pos, b + 1, k - 1));
    }
  }

  /**
   At the moment late bounds arrive, the run that learns them then and the run that knew them at Begin agree on the
   guest cursor exactly if the seed and the motions in between land in the span of those motions.
   */
  lemma LateAgreesExactly(
    host: Host, es: seq<Step>, e: seq<Wall>, ls: seq<Step>, l: seq<Wall>, b: nat, n: nat,
    pos: Position, cursor: Pixel, size: Size)
    requires Run(host, es, e) && BeginsUnsized(host, ls, l, b, n, pos, cursor) && n < |ls|
    requires Hastens(es, ls, b, n) && ls[n] == SetBounds(pos, size)
    ensures ViewOf(e[n + 1]) == ViewOf(l[n + 1])
            <==> LandsInSpan(ls, pos, b + 1, n, size, Seed(host, pos, size, cursor))
  {
    StaysAhead(host, es, e, ls, l, b, n, n, pos, cursor, size);
    WaitingAccumulates(host, ls, l, b, n, pos, cursor);
    StepAt(host, ls, l, n);
    BoundsEndWaiting(host, l[n], pos, cursor, Drift(ls, pos, b + 1, n), size);
    WalkIsClampedOnceExactly(ls, pos, b + 1, n, size, Seed(host, pos, size, cursor));
  }

  /** And from then on they agree whatever happens. */
  lemma {:induction false} LateAgreesWithEager(
    host: Host, es: seq<Step>, e: seq<Wall>, ls: seq<Step>, l: seq<Wall>, b: nat, n: nat, k: nat,
    pos: Position, cursor: Pixel, size: Size)
    requires Run(host, es, e) && BeginsUnsized(host, ls, l, b, n, pos, cursor) && n < k <= |ls|
    requires Hastens(es, ls, b, n) && ls[n] == SetBounds(pos, size)
    requires LandsInSpan(ls, pos, b + 1, n, size, Seed(host, pos, size, cursor))
    ensures ViewOf(e[k]) == ViewOf(l[k])
  {
    if k == n + 1 {
      LateAgreesExactly(host, es, e, ls, l, b, n, pos, cursor, size);
    } else {
      LateAgreesWithEager(host, es, e, ls, l, b, n, k - 1, pos, cursor, size);
      assert es[k - 1] == es[n + 1..][k - 1 - (n + 1)] == ls[k - 1];
      StepAt(host, es, e, k - 1);
      StepAt(host, ls, l, k - 1);
      ViewDecidesView(host, e[k - 1], l[k - 1], ls[k - 1]);
    }
  }

  /**
   The condition matters: a motion out of the rectangle and back is clamped on the way only when the bounds
   were known, so the two runs can disagree.
   */
  lemma OvershootSplitsLateFromEager(host: Host) returns (es: seq<Step>, e: seq<Wall>, ls: seq<Step>, l: seq<Wall>)
    requires host.bounds.None?
    ensures Run(host, es, e) && Run(host, ls, l) && Hastens(es, ls, 0, 3)
    ensures e[4].virtualCursor == Some((30.0, 9.0)) && l[4].virtualCursor == Some((0.0, 9.0))
  {
    var size: Size := (100, 10);
    var begin, bounds := Take(Bottom, Begin(Some((0, 0)))), SetBounds(Bottom, size);
    var out, back := Take(Bottom, Motion(-80.0, 0.0)), Take(Bottom, Motion(30.0, 0.0));
    ls, es := [begin, out, back, bounds], [bounds, begin, out, back];
    var l1 := Next(host, INITIAL, begin);
    var l2 := Next(host, l1, out);
    var l3 := Next(host, l2, back);
    var l4 := Next(host, l3, bounds);
    l := [INITIAL, l1, l2, l3, l4];
    var e1 := Next(host, INITIAL, bounds);
    var e2 := Next(host, e1, begin);
    var e3 := Next(host, e2, out);
    var e4 := Next(host, e3, back);
    e := [INITIAL, e1, e2, e3, e4];
  }
}
