/**
 What the backend is told and why: a client that takes over gets its release without a warp, the host's own releases
 put the host cursor back on the edge it left through, as far along it as the guest cursor is on the guest's screen.
 */
module HostReleases {
  import opened Wrappers
  import opened Bytes
  import opened Positions
  import opened CaptureModel
  import opened CaptureState
  import opened CaptureSession
  import opened KeyLink
  import opened KeyLinkDestroy
  import W = WallPress
  import WarpTargets

  //
  // Where a release puts the host cursor
  //

  /** A guest coordinate on the guest's screen. */
  function OnScreen(g: real, peer: u32): real {
    if g < 0.0 then 0.0 else if g > peer as real then peer as real else g
  }

  /** Pixel `o` is as far along the host's extent as `g` along the guest's, rounded down; casts stop at 2^31 - 1. */
  predicate AsFarAlong(o: int, g: real, peer: u32, host: u32) {
    && 0 <= o <= 0x7fff_ffff
    && o as real * peer as real <= OnScreen(g, peer) * host as real
    && (OnScreen(g, peer) * host as real < (o + 1) as real * peer as real || o == 0x7fff_ffff)
  }

  /** The last pixel of an extent, as a wrapping cast and a saturating subtraction compute it. */
  predicate IsLastPixel(o: int, extent: u32) {
    if extent < 0x8000_0000 then o == extent - 1
    else if extent == 0x8000_0000 then o == -0x8000_0000
    else o == extent - 0x1_0000_0000 - 1
  }

  predicate NonEmpty(size: Size) {
    size.0 > 0 && size.1 > 0
  }

  /** A capture is under way with its guest cursor placed, and both screens are known and not empty. */
  predicate Placed(host: Host, w: Wall) {
    && w.capturePos.Some? && w.virtualCursor.Some? && w.capturePos.value in w.peerBounds && host.bounds.Some?
    && NonEmpty(w.peerBounds[w.capturePos.value]) && NonEmpty(host.bounds.value)
  }

  predicate OnFacingEdge(host: Host, w: Wall, p: Pixel)
    requires Placed(host, w)
  {
    var (gx, gy) := w.virtualCursor.value;
    var (pw, ph) := w.peerBounds[w.capturePos.value];
    var (hw, hh) := host.bounds.value;
    var (x, y) := (p.0 - host.origin.0, p.1 - host.origin.1);
    match w.capturePos.value
    case Left => x == 0 && AsFarAlong(y, gy, ph, hh)
    case Right => IsLastPixel(x, hw) && AsFarAlong(y, gy, ph, hh)
    case Top => y == 0 && AsFarAlong(x, gx, pw, hw)
    case Bottom => IsLastPixel(y, hh) && AsFarAlong(x, gx, pw, hw)
  }

  /** The warp a release is given: the facing edge if the cursor is placed, none otherwise. */
  predicate WarpsBack(host: Host, w: Wall, warp: Option<Pixel>) {
    if Placed(host, w) then warp.Some? && OnFacingEdge(host, w, warp.value) else warp.None?
  }

  /** Fraction `f` of the host's extent and the guest coordinate `t` it stands for, between pixels `o` and `o + 1`. */
  lemma FloorScales(o: int, f: real, h: real, p: real, t: real)
    requires p > 0.0 && f * p == t && o as real <= f * h
    ensures o as real * p <= t * h
    ensures f * h < (o + 1) as real ==> t * h < (o + 1) as real * p
  {
    Commutes(f, h, p, t);
    WarpTargets.ScaleMonotone(o as real, f * h, p);
    if f * h < (o + 1) as real {
      WarpTargets.StrictScale(f * h, (o + 1) as real, p);
    }
  }

  lemma Commutes(f: real, h: real, p: real, t: real)
    requires f * p == t
    ensures (f * h) * p == t * h
  {
    assert (f * h) * p == (f * p) * h;
  }

  lemma PixelBounds(f: real, host: u32)
    requires 0.0 <= f <= 1.0
    ensures PixelAt(f, host) as real <= f * host as real
    ensures f * host as real < (PixelAt(f, host) + 1) as real || PixelAt(f, host) == 0x7fff_ffff
  {
    ProductIsNonNegative(f, host as real);
  }

  lemma PixelIsAsFarAlong(g: real, peer: u32, host: u32)
    requires peer > 0 && host > 0
    ensures AsFarAlong(PixelAt(Clamp(g / peer as real, 0.0, 1.0), host), g, peer, host)
  {
    var f := Clamp(g / peer as real, 0.0, 1.0);
    ClampedQuotient(g, peer as real);
    PixelBounds(f, host);
    FloorScales(PixelAt(f, host), f, host as real, peer as real, OnScreen(g, peer));
  }

  lemma ClampedQuotient(g: real, p: real)
    requires p > 0.0
    ensures Clamp(g / p, 0.0, 1.0) * p == if g < 0.0 then 0.0 else if g > p then p else g
  {
    WarpTargets.CancelDivision(g, p);
    if g < 0.0 {
      WarpTargets.CancelStrictScale(g / p, 0.0, p);
    } else if g > p {
      WarpTargets.CancelStrictScale(1.0, g / p, p);
    } else {
      WarpTargets.QuotientInUnit(g, p);
    }
  }

  lemma TargetWarpsBack(host: Host, w: Wall)
    ensures WarpsBack(host, w, WarpTarget(host, w))
  {
    if Placed(host, w) {
      var (gx, gy) := w.virtualCursor.value;
      var (pw, ph) := w.peerBounds[w.capturePos.value];
      var (hw, hh) := host.bounds.value;
      PixelIsAsFarAlong(gx, pw, hw);
      PixelIsAsFarAlong(gy, ph, hh);
    }
  }

  //
  // Where an entry puts the guest cursor
  //

  /** As far along the guest's entry edge as the host cursor is along the edge it left through. */
  predicate OnEntryEdge(host: Host, pos: Position, cursor: Pixel, size: Size, v: Vector)
    requires host.bounds.Some? && NonEmpty(host.bounds.value)
  {
    var (hw, hh) := host.bounds.value;
    var (x, y) := ((cursor.0 - host.origin.0) as real, (cursor.1 - host.origin.1) as real);
    && v.0 == v.0.Floor as real && v.1 == v.1.Floor as real
    && match pos
       case Left => IsLastPixel(v.0.Floor, size.0) && AsFarAlong(v.1.Floor, y, hh, size.1)
       case Right => v.0 == 0.0 && AsFarAlong(v.1.Floor, y, hh, size.1)
       case Top => IsLastPixel(v.1.Floor, size.1) && AsFarAlong(v.0.Floor, x, hw, size.0)
       case Bottom => v.1 == 0.0 && AsFarAlong(v.0.Floor, x, hw, size.0)
  }

  lemma FractionIsClamped(offset: int, extent: u32)
    requires extent > 0
    ensures Fraction(offset, extent) == Clamp(offset as real / extent as real, 0.0, 1.0)
  {
    QuotientSide(offset as real, extent as real);
  }

  lemma QuotientSide(a: real, b: real)
    requires b > 0.0
    ensures a <= 0.0 ==> a / b <= 0.0
    ensures a >= b ==> a / b >= 1.0
    ensures 0.0 <= a <= b ==> 0.0 <= a / b <= 1.0
  {
    var q := a / b;
    WarpTargets.CancelDivision(a, b);
    assert q * b == a;
    if a <= 0.0 {
      WarpTargets.CancelScale(q, 0.0, b);
    } else if a >= b {
      if q < 1.0 {
        WarpTargets.StrictScale(q, 1.0, b);
      }
    } else {
      WarpTargets.QuotientInUnit(a, b);
    }
  }

  lemma ScaledPixel(offset: int, from: u32, to: u32)
    requires from > 0 && to > 0
    ensures AsFarAlong(PixelAt(Fraction(offset, from), to), offset as real, from, to)
  {
    FractionIsClamped(offset, from);
    PixelIsAsFarAlong(offset as real, from, to);
  }

  /** A Begin whose cursor is known, at a peer whose screen is known, places the guest cursor on its entry edge. */
  lemma EntersOnTheEdge(host: Host, w: Wall, pos: Position, cursor: Pixel, size: Size)
    requires host.bounds.Some? && NonEmpty(host.bounds.value)
    requires pos in w.peerBounds && w.peerBounds[pos] == size && NonEmpty(size)
    ensures var w' := TrackWallPress(host, w, pos, Begin(Some(cursor)));
            w'.virtualCursor.Some? && OnEntryEdge(host, pos, cursor, size, w'.virtualCursor.value)
  {
    ScaledPixel(cursor.0 - host.origin.0, host.bounds.value.0, size.0);
    ScaledPixel(cursor.1 - host.origin.1, host.bounds.value.1, size.1);
  }

  //
  // One step
  //

  /** The poll hands out an event that ends the capture: an AutoRelease, or any at all with the chord down. */
  predicate EndsCapture(x: Link, c1: Capture, e: Event) {
    e.AutoRelease? || KeysPressed(c1.pressedKeys, x.task.releaseBind)
  }

  /** The poll hands out an event for an EnterOnly handle at a position without a Default one. */
  predicate NobodyThere(x: Link, h: Handle) {
    var reg := Find(x.task.captures, h);
    && reg.Some? && reg.value.kind == EnterOnly
    && forall i :: 0 <= i < |x.task.captures| && x.task.captures[i].pos == reg.value.pos ==>
         x.task.captures[i].kind == EnterOnly
  }

  /** Exactly what a step tells the backend. */
  predicate CallsExactly(host: Host, x: Link, s: Step, more: seq<Call>) {
    match s
    case Poll(elapsed, arrival, _) =>
      var (c1, out) := Polled(host, x.cap, elapsed, arrival);
      if out.Yield? && (EndsCapture(x, c1, out.item.1) || NobodyThere(x, out.item.0))
      then |more| == 1 && more[0].Release? && WarpsBack(host, c1.wall, more[0].warp)
      else more == []
    case Peer(h, m, _) =>
      if m.PeerLeave? && (x.task.active.None? || x.task.active == Some(h)) then more == [Release(None)] else more == []
    case Service(r, _) =>
      match r
      case ReleaseForHandover => more == [Release(None)]
      case CreateCapture(_, pos, _) => more == if pos in x.cap.positionMap then [] else [Create(pos)]
      case DestroyCapture(h) =>
        h in x.cap.idMap && x.cap.idMap[h] in x.cap.positionMap &&
        more == if x.cap.positionMap[x.cap.idMap[h]] == [h] then [Destroy(x.cap.idMap[h])] else []
      case _ => more == []
  }

  lemma ReleasedCalls(host: Host, c: Capture, warp: Option<Pixel>)
    ensures c.calls <= Released(c, warp).calls && Released(c, warp).calls[|c.calls|..] == [Release(warp)]
  {
  }

  lemma PolledCalls(host: Host, c: Capture, elapsed: bool, arrival: Arrival)
    ensures Polled(host, c, elapsed, arrival).0.calls == c.calls
  {
  }

  lemma PollCalls(host: Host, x: Link, s: Step)
    requires s.Poll? && Runs(host, x, s)
    ensures var y := Next(host, x, s);
            x.cap.calls <= y.cap.calls && CallsExactly(host, x, s, y.cap.calls[|x.cap.calls|..])
  {
    var (c1, out) := Polled(host, x.cap, s.elapsed, s.arrival);
    PolledCalls(host, x.cap, s.elapsed, s.arrival);
    TargetWarpsBack(host, c1.wall);
    ReleasedCalls(host, c1, WarpTarget(host, c1.wall));
  }

  lemma {:induction false} OnlyHandleLeaves(ids: seq<Handle>, h: Handle)
    requires NoDuplicates(ids) && h in ids
    ensures Without(ids, h) == [] <==> ids == [h]
  {
    if |ids| > 1 {
      if ids[0] == h {
        assert ids[1] != h && ids[1] in ids;
      } else {
        assert ids[0] in ids;
      }
    }
  }

  lemma ServiceCalls(host: Host, x: Link, r: Request, order: seq<u32>)
    requires Mapped(x) && Runs(host, x, Service(r, order))
    ensures var y := Next(host, x, Service(r, order));
            x.cap.calls <= y.cap.calls && CallsExactly(host, x, Service(r, order), y.cap.calls[|x.cap.calls|..])
  {
    match r
    case ReleaseForHandover => ReleasedCalls(host, x.cap, None);
    case DestroyCapture(h) =>
      DestroyRequestResult(host, x, h, order);
      OnlyHandleLeaves(x.cap.positionMap[x.cap.idMap[h]], h);
    case _ =>
  }

  lemma StepCalls(host: Host, x: Link, s: Step)
    requires Mapped(x) && Runs(host, x, s)
    ensures var y := Next(host, x, s);
            x.cap.calls <= y.cap.calls && CallsExactly(host, x, s, y.cap.calls[|x.cap.calls|..])
  {
    match s
    case Poll(_, _, _) => PollCalls(host, x, s);
    case Peer(_, _, _) => ReleasedCalls(host, x.cap, None);
    case Service(r, order) => ServiceCalls(host, x, r, order);
  }

  /**
   A connection that refuses the message of an event ends the capture without a farewell: keys and tracking are
   forgotten, and the host cursor is put back.
   */
  lemma RefusedSendReleases(host: Host, t: Task, c: Capture, h: Handle, e: Event, order: seq<u32>)
    requires LooksUp(t, c, e) && Find(t.captures, h).Some? && Find(t.captures, h).value.kind == Default
    ensures var (t2, c2) := Handled(host, t, c, h, e, order, false);
            && |t2.sent| == |t.sent| + 1 && t2.sent[..|t.sent|] == t.sent && t2.sent[|t.sent|].0 == h
            && t2.active == (if e.Begin? then Some(h) else t.active)
            && c2.pressedKeys == {} && W.Idle(c2.wall) && c2.pending == c.pending
            && |c2.calls| == |c.calls| + 1 && c2.calls[..|c.calls|] == c.calls
            && c2.calls[|c.calls|].Release? && WarpsBack(host, c.wall, c2.calls[|c.calls|].warp)
  {
    TargetWarpsBack(host, c.wall);
  }

  //
  // Whole runs
  //

  /**
   In every session, whatever the layout, the backend is told exactly this at each step: a peer's Leave or a handover
   releases without a warp; the chord, an AutoRelease or an empty side releases with the cursor put back.
   */
  lemma BackendIsTold(host: Host, x: Link, steps: seq<Step>, states: seq<Link>, n: nat) returns (more: seq<Call>)
    requires Mapped(x) && Execution(host, x, steps, states) && n < |steps|
    ensures states[n + 1].cap.calls == states[n].cap.calls + more
    ensures CallsExactly(host, states[n], steps[n], more)
  {
    ExecutionStaysMapped(host, x, steps, states, n);
    StepCalls(host, states[n], steps[n]);
    more := states[n + 1].cap.calls[|states[n].cap.calls|..];
  }
}
