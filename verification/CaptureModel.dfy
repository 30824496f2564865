/**
 The model of the remote cursor kept by the capture wrapper: the wall-press accumulator, the guest-space
 cursor and the two warp targets. Lengths and deltas are exact reals; the casts of the pixel code
 (`as i32`, saturating subtraction, division by a zero-sized display) are written out.
 */
module CaptureModel {
  import opened Wrappers
  import opened Bytes
  import opened Positions

  type Pixel = (int, int)
  type Size = (u32, u32)
  type Vector = (real, real)

  /** `OtherInput` is any button, scroll or modifier event; what it carries is passed on unopened. */
  datatype Event =
    | Begin(cursor: Option<Pixel>)
    | Motion(dx: real, dy: real)
    | Key(code: u32, state: byte)
    | OtherInput(payload: nat)
    | AutoRelease

  /** The host's own displays, as far as the backend can report them. */
  datatype Host = Host(bounds: Option<Size>, origin: Pixel)

  datatype Wall = Wall(
    threshold: u32,
    capturePos: Option<Position>,
    virtualPos: real,
    pressure: real,
    virtualCursor: Option<Vector>,
    pendingBeginCursor: Option<Pixel>,
    pendingMotion: Vector,
    peerBounds: map<Position, Size>,
    peerSensitivity: map<Position, real>,
    pressPending: bool)

  const INITIAL: Wall := Wall(0, None, 0.0, 0.0, None, None, (0.0, 0.0), map[], map[], false)

  //
  // Arithmetic
  //

  const I32_MAX: int := 0x7fff_ffff

  function Clamp(x: real, lo: real, hi: real): real
    requires lo <= hi
  {
    if x < lo then lo else if x > hi then hi else x
  }

  /** `f64::clamp(0.0, upper)`, where no upper bound stands for infinity. */
  function ClampTo(x: real, upper: Option<nat>): real {
    if x < 0.0 then 0.0 else if upper.Some? && x > upper.value as real then upper.value as real else x
  }

  /** `x as i32` for a non-negative float: truncation, saturating at the top. */
  function FloorI32(x: real): int
    requires x >= 0.0
  {
    if x.Floor > I32_MAX then I32_MAX else x.Floor
  }

  /** `n as i32` for an unsigned size: wraps. */
  function WrapI32(n: u32): int {
    if n > I32_MAX then n - 0x1_0000_0000 else n
  }

  /** `(n as i32).saturating_sub(1)` */
  function LastPixel(n: u32): int {
    if WrapI32(n) == -0x8000_0000 then -0x8000_0000 else WrapI32(n) - 1
  }

  /**
   `(offset / extent).clamp(0, 1)`. On a zero extent the float quotient is an infinity, which clamps to
   0 or 1, or for a zero offset NaN, which every use casts to 0.
   */
  function Fraction(offset: int, extent: u32): (f: real)
    ensures 0.0 <= f <= 1.0
  {
    if offset <= 0 then 0.0 else if offset >= extent then 1.0 else offset as real / extent as real
  }

  lemma ProductIsNonNegative(a: real, b: real)
    requires a >= 0.0 && b >= 0.0
    ensures a * b >= 0.0
  {
  }

  /** The pixel a fraction of an extent falls on. */
  function PixelAt(f: real, extent: u32): (p: int)
    requires 0.0 <= f <= 1.0
    ensures 0 <= p <= extent
  {
    ProductIsNonNegative(f, extent as real);
    ProductIsNonNegative(1.0 - f, extent as real);
    assert f * extent as real <= extent as real;
    FloorI32(f * extent as real)
  }

  function EntryAxisDelta(pos: Position, dx: real, dy: real): real {
    match pos
    case Left => -dx
    case Right => dx
    case Top => -dy
    case Bottom => dy
  }

  predicate Sideways(pos: Position) {
    pos.Left? || pos.Right?
  }

  /** Extent of the peer along the entry axis, unless it has not reported bounds. */
  function PeerExtent(w: Wall, pos: Position): Option<u32> {
    if pos !in w.peerBounds then None
    else Some(if Sideways(pos) then w.peerBounds[pos].0 else w.peerBounds[pos].1)
  }

  //
  // Warp targets
  //

  function PeerWarpTarget(host: Host, w: Wall, pos: Position, cursor: Pixel): Option<Pixel> {
    if host.bounds.None? || pos !in w.peerBounds then None else
    var (hostW, hostH) := host.bounds.value;
    var (peerW, peerH) := w.peerBounds[pos];
    var x := PixelAt(Fraction(cursor.0 - host.origin.0, hostW), peerW);
    var y := PixelAt(Fraction(cursor.1 - host.origin.1, hostH), peerH);
    Some(match pos
         case Left => (LastPixel(peerW), y)
         case Right => (0, y)
         case Top => (x, LastPixel(peerH))
         case Bottom => (x, 0))
  }

  function Max0(x: real): real {
    if x < 0.0 then 0.0 else x
  }

  function InitialVirtualCursor(host: Host, w: Wall, pos: Position, cursor: Option<Pixel>): Option<Vector> {
    var target := if cursor.Some? then PeerWarpTarget(host, w, pos, cursor.value) else None;
    if target.Some? then Some((target.value.0 as real, target.value.1 as real))
    else if pos !in w.peerBounds then None
    else
      var pw, ph := w.peerBounds[pos].0 as real, w.peerBounds[pos].1 as real;
      Some(match pos
           case Left => (0.0, ph / 2.0)
           case Right => (Max0(pw - 1.0), ph / 2.0)
           case Top => (pw / 2.0, 0.0)
           case Bottom => (pw / 2.0, Max0(ph - 1.0)))
  }

  /** The seed depends on no more of the state than the peers' bounds. */
  lemma SeedByBounds(host: Host, w1: Wall, w2: Wall, pos: Position, cursor: Option<Pixel>)
    requires w1.peerBounds == w2.peerBounds
    ensures InitialVirtualCursor(host, w1, pos, cursor) == InitialVirtualCursor(host, w2, pos, cursor)
  {
    if cursor.Some? {
      assert PeerWarpTarget(host, w1, pos, cursor.value) == PeerWarpTarget(host, w2, pos, cursor.value);
    }
  }

  function HostWarpTargetOnRelease(host: Host, w: Wall, pos: Position): Option<Pixel> {
    if w.virtualCursor.None? || pos !in w.peerBounds || host.bounds.None? then None else
    var (gx, gy) := w.virtualCursor.value;
    var (peerW, peerH) := w.peerBounds[pos];
    var (hostW, hostH) := host.bounds.value;
    if peerW == 0 || peerH == 0 || hostW == 0 || hostH == 0 then None else
    var (ox, oy) := host.origin;
    var x := ox + PixelAt(Clamp(gx / peerW as real, 0.0, 1.0), hostW);
    var y := oy + PixelAt(Clamp(gy / peerH as real, 0.0, 1.0), hostH);
    Some(match pos
         case Left => (ox, y)
         case Right => (ox + LastPixel(hostW), y)
         case Top => (x, oy)
         case Bottom => (x, oy + LastPixel(hostH)))
  }

  //
  // Transitions
  //

  function Reset(w: Wall): Wall {
    w.(capturePos := None, virtualPos := 0.0, pressure := 0.0, virtualCursor := None,
    pendingBeginCursor := None, pendingMotion := (0.0, 0.0), pressPending := false)
  }

  function Clamped(v: Vector, size: Size): Vector {
    (Clamp(v.0, 0.0, size.0 as real), Clamp(v.1, 0.0, size.1 as real))
  }

  /** Guest-space cursor bookkeeping of one motion at the captured position. */
  function MoveCursor(w: Wall, pos: Position, dx: real, dy: real): Wall {
    match w.virtualCursor
    case Some(c) =>
      if pos in w.peerBounds then w.(virtualCursor := Some(Clamped((c.0 + dx, c.1 + dy), w.peerBounds[pos]))) else w
    case None =>
      w.(pendingMotion := (w.pendingMotion.0 + dx, w.pendingMotion.1 + dy))
  }

  function Sensitivity(w: Wall, pos: Position): real {
    if pos in w.peerSensitivity then w.peerSensitivity[pos] else 1.0
  }

  /** Entry-axis delta of a motion as the receiver's sensitivity scales it. */
  function ScaledDelta(w: Wall, pos: Position, dx: real, dy: real): real {
    EntryAxisDelta(pos, dx, dy) * Sensitivity(w, pos)
  }

  function Press(w: Wall, pos: Position, delta: real): Wall {
    if w.threshold == 0 then w else
    var proposed := w.virtualPos + delta;
    var pressure := if proposed < 0.0 then w.pressure - proposed else 0.0;
    w.(virtualPos := ClampTo(proposed, PeerExtent(w, pos)),
    pressure := pressure,
    pressPending := pressure >= w.threshold as real || (proposed < 0.0 && w.pressPending))
  }

  function TrackWallPress(host: Host, w: Wall, pos: Position, e: Event): Wall {
    match e
    case Begin(cursor) =>
      w.(capturePos := Some(pos), virtualPos := 0.0, pressure := 0.0,
      virtualCursor := InitialVirtualCursor(host, w, pos, cursor),
      pendingBeginCursor := cursor, pendingMotion := (0.0, 0.0))
    case Motion(dx, dy) =>
      if w.capturePos != Some(pos) then w else Press(MoveCursor(w, pos, dx, dy), pos, ScaledDelta(w, pos, dx, dy))
    case _ => w
  }

  function SetPeerBounds(host: Host, w: Wall, pos: Position, size: Size): Wall {
    var w1 := w.(peerBounds := w.peerBounds[pos := size]);
    if w.virtualCursor.None? && w.capturePos == Some(pos) && w.pendingBeginCursor.Some? then
      var seed := InitialVirtualCursor(host, w1, pos, w.pendingBeginCursor).value;
      w1.(virtualCursor := Some(Clamped((seed.0 + w.pendingMotion.0, seed.1 + w.pendingMotion.1), size)),
      pendingMotion := (0.0, 0.0))
    else w1
  }

  function SetPeerSensitivity(w: Wall, pos: Position, sensitivity: real): Wall {
    if sensitivity <= 0.0 then w else w.(peerSensitivity := w.peerSensitivity[pos := sensitivity])
  }
}
