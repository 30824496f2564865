/**
 The warp maps between the host's and the guest's screens: entering at a host pixel and leaving again at once
 puts the host cursor back on the facing edge, at most one guest pixel's worth before where it left.
 */
module WarpTargets {
  import opened Wrappers
  import opened Bytes
  import opened Positions
  import opened CaptureModel

  /** `offset` moved onto a display of the given extent. */
  function Clipped(offset: int, extent: u32): (y: int)
    ensures 0 <= y <= extent
  {
    if offset < 0 then 0 else if offset > extent then extent else offset
  }

  /** The host offset, scaled to the guest and back. */
  function ThereAndBack(offset: int, host: u32, peer: u32): int
    requires host > 0 && peer > 0
  {
    PixelAt(Clamp(PixelAt(Fraction(offset, host), peer) as real / peer as real, 0.0, 1.0), host)
  }

  lemma FloorBounds(f: real, extent: u32)
    requires 0.0 <= f <= 1.0 && f * extent as real < (I32_MAX + 1) as real
    ensures PixelAt(f, extent) as real <= f * extent as real < PixelAt(f, extent) as real + 1.0
  {
    ProductIsNonNegative(1.0 - f, extent as real);
  }

  lemma CancelDivision(a: real, b: real)
    requires b > 0.0
    ensures a / b * b == a
  {
  }

  lemma StrictScale(a: real, b: real, c: real)
    requires a < b && c > 0.0
    ensures a * c < b * c
  {
  }

  lemma CancelScale(a: real, b: real, c: real)
    requires a * c <= b * c && c > 0.0
    ensures a <= b
  {
    if a > b { StrictScale(b, a, c); }
  }

  lemma CancelStrictScale(a: real, b: real, c: real)
    requires a * c < b * c && c > 0.0
    ensures a < b
  {
    if a > b { StrictScale(b, a, c); }
  }

  /** The arithmetic of the round trip: two truncations lose less than one guest pixel plus one host pixel. */
  lemma TruncationBound(f: real, h: real, p: real, a: real, g: real, y: real)
    requires h > 0.0 && p > 0.0
    requires a <= f * p < a + 1.0
    requires g * p == a
    requires y <= g * h < y + 1.0
    ensures y <= f * h < y + h / p + 1.0
  {
    CancelScale(g, f, p);
    ProductIsNonNegative(f - g, h);
    CancelDivision(1.0, p);
    assert (g + 1.0 / p) * p == a + 1.0;
    CancelStrictScale(f, g + 1.0 / p, p);
    StrictScale(f, g + 1.0 / p, h);
    assert (g + 1.0 / p) * h == g * h + h / p;
  }

  /** The offset, clipped to the host's edge, and its image on the guest's are 32-bit pixel coordinates. */
  predicate Castable(offset: int, host: u32, peer: u32) {
    Clipped(offset, host) <= I32_MAX && Fraction(offset, host) * peer as real < (I32_MAX + 1) as real
  }

  lemma FractionOfHost(offset: int, host: u32)
    requires host > 0
    ensures Fraction(offset, host) * host as real == Clipped(offset, host) as real
  {
    CancelDivision(offset as real, host as real);
  }

  /** Truncating to the guest and scaling by its extent gives a fraction no larger, within one guest pixel. */
  lemma GuestFraction(f: real, peer: u32) returns (a: real, g: real)
    requires 0.0 <= f <= 1.0 && peer > 0 && f * peer as real < (I32_MAX + 1) as real
    ensures a == PixelAt(f, peer) as real && g == a / peer as real && Clamp(g, 0.0, 1.0) == g
    ensures a <= f * peer as real < a + 1.0 && g * peer as real == a && 0.0 <= g <= f
  {
    a, g := PixelAt(f, peer) as real, PixelAt(f, peer) as real / peer as real;
    FloorBounds(f, peer);
    CancelDivision(a, peer as real);
    QuotientInUnit(a, peer as real);
    CancelScale(g, f, peer as real);
  }

  lemma FractionsRoundTrip(f: real, host: u32, peer: u32, c: real)
    requires 0.0 <= f <= 1.0 && host > 0 && peer > 0
    requires f * host as real == c < (I32_MAX + 1) as real && f * peer as real < (I32_MAX + 1) as real
    ensures var y := PixelAt(Clamp(PixelAt(f, peer) as real / peer as real, 0.0, 1.0), host) as real;
            y <= c < y + host as real / peer as real + 1.0
  {
    var a, g := GuestFraction(f, peer);
    ScaleMonotone(g, f, host as real);
    FloorBounds(g, host);
    TruncationBound(f, host as real, peer as real, a, g, PixelAt(g, host) as real);
  }

  /** Cross-axis round trip: never past the starting offset, and short of it by less than host/peer + 1. */
  lemma RoundTripBound(offset: int, host: u32, peer: u32)
    requires host > 0 && peer > 0 && Castable(offset, host, peer)
    ensures ThereAndBack(offset, host, peer) <= Clipped(offset, host)
    ensures (Clipped(offset, host) - ThereAndBack(offset, host, peer)) as real < host as real / peer as real + 1.0
    ensures peer >= host ==> Clipped(offset, host) - ThereAndBack(offset, host, peer) <= 1
  {
    FractionOfHost(offset, host);
    FractionsRoundTrip(Fraction(offset, host), host, peer, Clipped(offset, host) as real);
    if peer >= host { QuotientInUnit(host as real, peer as real); }
  }

  lemma ScaleMonotone(a: real, b: real, c: real)
    requires a <= b && c >= 0.0
    ensures a * c <= b * c
  {
    ProductIsNonNegative(b - a, c);
  }

  lemma QuotientInUnit(a: real, b: real)
    requires 0.0 <= a <= b && b > 0.0
    ensures 0.0 <= a / b <= 1.0
  {
    CancelDivision(a, b);
    CancelScale(0.0, a / b, b);
    CancelScale(a / b, 1.0, b);
  }

  /** Host pixel the cursor reappears on when it enters at `cursor` and is released without having moved. */
  function ReleasePoint(host: Host, w: Wall, pos: Position, cursor: Pixel): Option<Pixel> {
    HostWarpTargetOnRelease(host, TrackWallPress(host, w, pos, Begin(Some(cursor))), pos)
  }

  /** Offset along the edge shared with the guest. */
  function AlongEdge(pos: Position, p: Pixel, origin: Pixel): int {
    if Sideways(pos) then p.1 - origin.1 else p.0 - origin.0
  }

  function EdgeLength(pos: Position, size: Size): u32 {
    if Sideways(pos) then size.1 else size.0
  }

  predicate OnFacingEdge(pos: Position, p: Pixel, origin: Pixel, size: Size) {
    match pos
    case Left => p.0 == origin.0
    case Right => p.0 == origin.0 + LastPixel(size.0)
    case Top => p.1 == origin.1
    case Bottom => p.1 == origin.1 + LastPixel(size.1)
  }

  /**
   Entering and leaving at once lands on the host edge facing the guest, at or before the offset where the
   cursor left, and within one pixel of it when the guest's edge is at least as long.
   */
  lemma WarpRoundTrip(host: Host, w: Wall, pos: Position, cursor: Pixel, hostSize: Size, peerSize: Size)
    requires host.bounds == Some(hostSize) && pos in w.peerBounds && w.peerBounds[pos] == peerSize
    requires hostSize.0 > 0 && hostSize.1 > 0 && peerSize.0 > 0 && peerSize.1 > 0
    requires Castable(AlongEdge(pos, cursor, host.origin), EdgeLength(pos, hostSize), EdgeLength(pos, peerSize))
    ensures ReleasePoint(host, w, pos, cursor).Some?
    ensures var back := ReleasePoint(host, w, pos, cursor).value;
            && OnFacingEdge(pos, back, host.origin, hostSize)
            && var lost := Clipped(AlongEdge(pos, cursor, host.origin), EdgeLength(pos, hostSize))
                           - AlongEdge(pos, back, host.origin);
            && 0 <= lost
            && lost as real < EdgeLength(pos, hostSize) as real / EdgeLength(pos, peerSize) as real + 1.0
            && (EdgeLength(pos, peerSize) >= EdgeLength(pos, hostSize) ==> lost <= 1)
  {
    ReleasePointExact(host, w, pos, cursor, hostSize, peerSize);
    RoundTripBound(AlongEdge(pos, cursor, host.origin), EdgeLength(pos, hostSize), EdgeLength(pos, peerSize));
  }

  lemma ReleasePointExact(host: Host, w: Wall, pos: Position, cursor: Pixel, hostSize: Size, peerSize: Size)
    requires host.bounds == Some(hostSize) && pos in w.peerBounds && w.peerBounds[pos] == peerSize
    requires hostSize.0 > 0 && hostSize.1 > 0 && peerSize.0 > 0 && peerSize.1 > 0
    ensures var back := ReleasePoint(host, w, pos, cursor);
            && back.Some? && OnFacingEdge(pos, back.value, host.origin, hostSize)
            && AlongEdge(pos, back.value, host.origin)
               == ThereAndBack(AlongEdge(pos, cursor, host.origin),
                               EdgeLength(pos, hostSize), EdgeLength(pos, peerSize))
  {
    var target := PeerWarpTarget(host, w, pos, cursor).value;
    var seeded := TrackWallPress(host, w, pos, Begin(Some(cursor)));
    assert seeded.virtualCursor == Some((target.0 as real, target.1 as real));
  }

  /**
   The fallback used when no warp target can be computed is half way along the edge of the guest's screen opposite to
   the one the warp target is pinned to, unless a cast wraps or the guest has no extent.
   */
  lemma FallbackIsOnTheOppositeEdge(host: Host, w: Wall, pos: Position, cursor: Pixel, hostSize: Size, peerSize: Size)
    requires host.bounds == Some(hostSize) && pos in w.peerBounds && w.peerBounds[pos] == peerSize
    ensures var target := PeerWarpTarget(host, w, pos, cursor).value;
            var fallback := InitialVirtualCursor(host, w, pos, None).value;
            var extent := if Sideways(pos) then peerSize.0 else peerSize.1;
            (if Sideways(pos) then target.0 as real + fallback.0 == (extent - 1) as real
             else target.1 as real + fallback.1 == (extent - 1) as real)
            <==> if pos.Left? || pos.Top? then extent <= I32_MAX else extent > 0
    ensures var fallback := InitialVirtualCursor(host, w, pos, None).value;
            2.0 * (if Sideways(pos) then fallback.1 else fallback.0)
            == (if Sideways(pos) then peerSize.1 else peerSize.0) as real
  {
  }
}
