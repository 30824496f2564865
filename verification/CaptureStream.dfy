/**
 The capture wrapper as the object it is: its methods update its fields, and each is shown to move the value
 `Model()` the way the corresponding function of `CaptureState` or `CaptureModel` says. The backend is the record
 of the calls made on it; what it reports (display geometry, events, elapsed deadlines) arrives as parameters.
 */
module CaptureStream {
  import opened Wrappers
  import opened Bytes
  import opened Positions
  import opened CaptureModel
  import opened CaptureState

  class InputCapture {
    var idMap: map<Handle, Position>
    var positionMap: map<Position, seq<Handle>>
    var pending: seq<Item>
    var pressedKeys: set<u32>
    var releaseThreshold: u32
    var capturePos: Option<Position>
    var virtualPos: real
    var wallPressure: real
    var virtualCursor: Option<Vector>
    var pendingBeginCursor: Option<Pixel>
    var pendingMotion: Vector
    var peerBounds: map<Position, Size>
    var peerSensitivity: map<Position, real>
    var wallPressPending: bool
    var calls: seq<Call>

    ghost function WallOf(): Wall
      reads this
    {
      Wall(releaseThreshold, capturePos, virtualPos, wallPressure, virtualCursor, pendingBeginCursor, pendingMotion,
           peerBounds, peerSensitivity, wallPressPending)
    }

    ghost function Model(): Capture
      reads this
    {
      Capture(idMap, positionMap, pending, pressedKeys, WallOf(), calls)
    }

    ghost predicate Valid()
      reads this
    {
      Inverse(idMap, positionMap)
    }

    constructor ()
      ensures Valid() && Model() == FRESH
    {
      idMap, positionMap, pending, pressedKeys, calls := map[], map[], [], {}, [];
      releaseThreshold, capturePos, virtualPos, wallPressure := 0, None, 0.0, 0.0;
      virtualCursor, pendingBeginCursor, pendingMotion := None, None, (0.0, 0.0);
      peerBounds, peerSensitivity, wallPressPending := map[], map[], false;
    }

    /** Registers a handle; `backend` is the answer of the backend, asked only for a new position. */
    method Create(id: Handle, pos: Position, backend: Result<(), CaptureError>) returns (r: Result<(), CaptureError>)
      requires Valid() && id !in idMap
      modifies this
      ensures Valid() && Model() == Created(old(Model()), id, pos)
      ensures r == if pos in old(positionMap) then Ok(()) else backend
    {
      CreatedKeepsInverse(Model(), id, pos);
      idMap := idMap[id := pos];
      if pos in positionMap {
        positionMap := positionMap[pos := positionMap[pos] + [id]];
        r := Ok(());
      } else {
        assert HandlesAt(positionMap, pos) + [id] == [id];
        positionMap := positionMap[pos := [id]];
        calls := calls + [Call.Create(pos)];
        r := backend;
      }
    }

    /** Unregisters a handle; the last one at its position takes the backend's capture with it. */
    method Destroy(id: Handle, backend: Result<(), CaptureError>) returns (r: Result<(), CaptureError>)
      requires Valid() && id in idMap
      modifies this
      ensures Valid() && Model() == Destroyed(old(Model()), id)
      ensures r == if old(idMap[id]) in positionMap then Ok(()) else backend
    {
      DestroyedKeepsInverse(Model(), id);
      var pos := idMap[id];
      idMap := idMap - {id};
      var remaining := Without(positionMap[pos], id);
      if remaining == [] {
        positionMap := positionMap - {pos};
        calls := calls + [Call.Destroy(pos)];
        r := backend;
      } else {
        positionMap := positionMap[pos := remaining];
        r := Ok(());
      }
    }

    method ResetWallPressState()
      modifies `capturePos, `virtualPos, `wallPressure, `virtualCursor, `pendingBeginCursor, `pendingMotion,
          `wallPressPending
      ensures WallOf() == Reset(old(WallOf()))
    {
      capturePos := None;
      virtualPos := 0.0;
      wallPressure := 0.0;
      virtualCursor := None;
      pendingBeginCursor := None;
      pendingMotion := (0.0, 0.0);
      wallPressPending := false;
    }

    /** Releases the mouse; the warp target is computed before the state it depends on is cleared. */
    method Release(host: Host)
      modifies this
      ensures Model() == Released(old(Model()), WarpTarget(host, old(WallOf())))
    {
      var warp := if capturePos.Some? then HostWarpTargetOnRelease(host, capturePos.value) else None;
      pressedKeys := {};
      ResetWallPressState();
      calls := calls + [Call.Release(warp)];
    }

    method ReleaseNoHostWarp()
      modifies this
      ensures Model() == Released(old(Model()), None)
    {
      pressedKeys := {};
      ResetWallPressState();
      calls := calls + [Call.Release(None)];
    }

    method SetReleaseThreshold(px: u32)
      modifies `releaseThreshold
      ensures WallOf() == old(WallOf()).(threshold := px)
    {
      releaseThreshold := px;
    }

    function InitialVirtualCursor(host: Host, pos: Position, cursor: Option<Pixel>): Option<Vector>
      reads this
    {
      CaptureModel.InitialVirtualCursor(host, INITIAL.(peerBounds := peerBounds), pos, cursor)
    }

    function HostWarpTargetOnRelease(host: Host, pos: Position): Option<Pixel>
      reads this
    {
      CaptureModel.HostWarpTargetOnRelease(host, INITIAL.(peerBounds := peerBounds,
          virtualCursor := virtualCursor), pos)
    }

    /** Caches the peer's geometry and, when a capture began before it was known, places the guest cursor. */
    method SetPeerBounds(host: Host, pos: Position, size: Size)
      modifies `peerBounds, `virtualCursor, `pendingMotion
      ensures WallOf() == CaptureModel.SetPeerBounds(host, old(WallOf()), pos, size)
    {
      peerBounds := peerBounds[pos := size];
      if virtualCursor.None? && capturePos == Some(pos) && pendingBeginCursor.Some? {
        SeedByBounds(host, INITIAL.(peerBounds := peerBounds), WallOf(), pos, pendingBeginCursor);
        var seeded := InitialVirtualCursor(host, pos, pendingBeginCursor);
        if seeded.Some? {
          var (sx, sy) := seeded.value;
          var (mx, my) := pendingMotion;
          virtualCursor := Some((Clamp(sx + mx, 0.0, size.0 as real), Clamp(sy + my, 0.0, size.1 as real)));
          pendingMotion := (0.0, 0.0);
        }
      }
    }

    method ClearPeerBounds(pos: Position)
      modifies `peerBounds
      ensures WallOf() == old(WallOf()).(peerBounds := old(peerBounds) - {pos})
    {
      peerBounds := peerBounds - {pos};
    }

    method SetPeerSensitivity(pos: Position, sensitivity: real)
      modifies `peerSensitivity
      ensures WallOf() == CaptureModel.SetPeerSensitivity(old(WallOf()), pos, sensitivity)
    {
      if sensitivity <= 0.0 {
        return;
      }
      peerSensitivity := peerSensitivity[pos := sensitivity];
    }

    method ClearPeerSensitivity(pos: Position)
      modifies `peerSensitivity
      ensures WallOf() == old(WallOf()).(peerSensitivity := old(peerSensitivity) - {pos})
    {
      peerSensitivity := peerSensitivity - {pos};
    }

    /** Cursor bookkeeping of one motion at the captured position. */
    method TrackCursor(pos: Position, dx: real, dy: real)
      modifies `virtualCursor, `pendingMotion
      ensures WallOf() == MoveCursor(old(WallOf()), pos, dx, dy)
    {
      if virtualCursor.Some? {
        if pos in peerBounds {
          var (vx, vy) := virtualCursor.value;
          var (peerW, peerH) := peerBounds[pos];
          virtualCursor := Some((Clamp(vx + dx, 0.0, peerW as real), Clamp(vy + dy, 0.0, peerH as real)));
        }
      } else {
        pendingMotion := (pendingMotion.0 + dx, pendingMotion.1 + dy);
      }
    }

    /** Pressure bookkeeping of one motion: overshoot at the host's edge accumulates, anything else resets it. */
    method AccumulatePressure(pos: Position, delta: real)
      requires releaseThreshold != 0
      modifies `virtualPos, `wallPressure, `wallPressPending
      ensures WallOf() == Press(old(WallOf()), pos, delta)
    {
      var proposed := virtualPos + delta;
      virtualPos := ClampTo(proposed, Extent(pos));
      if proposed < 0.0 {
        wallPressure := wallPressure + -proposed;
      } else {
        wallPressure := 0.0;
        wallPressPending := false;
      }
      if wallPressure >= releaseThreshold as real && !wallPressPending {
        wallPressPending := true;
      }
    }

    function Extent(pos: Position): (r: Option<u32>)
      reads this
      ensures r == PeerExtent(WallOf(), pos)
    {
      if pos !in peerBounds then None else Some(if Sideways(pos) then peerBounds[pos].0 else peerBounds[pos].1)
    }

    method BeginCapture(host: Host, pos: Position, cursor: Option<Pixel>)
      modifies `capturePos, `virtualPos, `wallPressure, `virtualCursor, `pendingBeginCursor, `pendingMotion
      ensures WallOf() == CaptureModel.TrackWallPress(host, old(WallOf()), pos, Begin(cursor))
    {
      SeedByBounds(host, INITIAL.(peerBounds := peerBounds), WallOf(), pos, cursor);
      capturePos := Some(pos);
      virtualPos := 0.0;
      wallPressure := 0.0;
      virtualCursor := InitialVirtualCursor(host, pos, cursor);
      pendingBeginCursor := cursor;
      pendingMotion := (0.0, 0.0);
    }

    method TrackMotion(pos: Position, dx: real, dy: real)
      requires capturePos == Some(pos)
      modifies `virtualCursor, `pendingMotion, `virtualPos, `wallPressure, `wallPressPending
      ensures WallOf() == Press(MoveCursor(old(WallOf()), pos, dx, dy), pos, ScaledDelta(old(WallOf()), pos, dx, dy))
    {
      TrackCursor(pos, dx, dy);
      if releaseThreshold == 0 {
        return;
      }
      var sensitivity := if pos in peerSensitivity then peerSensitivity[pos] else 1.0;
      AccumulatePressure(pos, EntryAxisDelta(pos, dx, dy) * sensitivity);
    }

    method TrackWallPress(host: Host, pos: Position, event: Event)
      modifies `capturePos, `virtualPos, `wallPressure, `virtualCursor, `pendingBeginCursor, `pendingMotion,
          `wallPressPending
      ensures WallOf() == CaptureModel.TrackWallPress(host, old(WallOf()), pos, event)
    {
      match event
      case Begin(cursor) => BeginCapture(host, pos, cursor);
      case Motion(dx, dy) =>
        if capturePos == Some(pos) {
          TrackMotion(pos, dx, dy);
        }
      case _ =>
    }

    /** Drains the keys forwarded as down but not up. */
    method TakePressedKeys() returns (keys: set<u32>)
      modifies `pressedKeys
      ensures keys == old(pressedKeys) && pressedKeys == {}
    {
      keys := pressedKeys;
      pressedKeys := {};
    }

    method UpdatePressedKeys(code: u32, state: byte)
      modifies this
      ensures Model() == old(Model()).(pressedKeys := KeyUpdate(old(pressedKeys), code, state))
    {
      if code <= LAST_SCANCODE {
        if state == 1 {
          pressedKeys := pressedKeys + {code};
        } else {
          pressedKeys := pressedKeys - {code};
        }
      }
    }

    /** Appends one copy of the event for each handle to the queue. */
    method Enqueue(ids: seq<Handle>, event: Event)
      modifies this
      ensures Model() == old(Model()).(pending := old(pending) + Copies(ids, event))
    {
      for i := 0 to |ids|
        invariant Model() == old(Model()).(pending := old(pending) + Copies(ids, event)[..i])
      {
        pending := pending + [(ids[i], event)];
        assert Copies(ids, event)[..i + 1] == Copies(ids, event)[..i] + [(ids[i], event)];
        assert old(pending) + Copies(ids, event)[..i + 1]
            == (old(pending) + Copies(ids, event)[..i]) + [(ids[i], event)];
      }
      assert Copies(ids, event)[..|ids|] == Copies(ids, event);
    }

    method PopFront() returns (out: Poll)
      requires pending != []
      modifies this
      ensures (Model(), out) == Popped(old(Model()))
    {
      out := Yield(pending[0]);
      pending := pending[1..];
    }

    /** Consumes one backend event: keys, cursor model, then routing to the handles at its position. */
    method RouteEvent(host: Host, pos: Position, event: Event) returns (out: Poll)
      requires pending == []
      modifies this
      ensures (Model(), out) == PollBackend(host, old(Model()), Arrived(pos, event))
    {
      if event.Key? {
        UpdatePressedKeys(event.code, event.state);
      }
      TrackWallPress(host, pos, event);
      var len := |HandlesAt(positionMap, pos)|;
      ghost var consumed := Consumed(host, old(Model()), pos, event);
      assert Model() == consumed.(pending := []);
      assert consumed.pending == Copies(HandlesAt(positionMap, pos), event);
      if len == 0 {
        out := Pending;
      } else if len == 1 {
        assert consumed.pending[1..] == [];
        out := Yield((positionMap[pos][0], event));
      } else {
        Enqueue(positionMap[pos], event);
        assert Model() == consumed;
        out := PopFront();
      }
    }

    /** One poll of the stream: queued copies first, then a deadline that elapsed, then the backend. */
    method PollNext(host: Host, elapsed: bool, arrival: Arrival) returns (out: Poll)
      modifies this
      ensures (Model(), out) == Polled(host, old(Model()), elapsed, arrival)
    {
      if pending != [] {
        out := PopFront();
        return;
      }
      if wallPressPending && elapsed {
        FireAutoRelease();
        if pending != [] {
          out := PopFront();
          return;
        }
      }
      match arrival
      case Quiet => out := Pending;
      case End => out := Finished;
      case Failure(error) => out := Failed(error);
      case Arrived(pos, event) => out := RouteEvent(host, pos, event);
    }

    method FireAutoRelease()
      requires pending == []
      modifies this
      ensures Model() == old(Model()).(wall := old(WallOf()).(pressPending := false),
               pending := FiredCopies(old(Model())))
    {
      wallPressPending := false;
      if capturePos.Some? && capturePos.value in positionMap {
        Enqueue(positionMap[capturePos.value], AutoRelease);
      }
    }

    predicate AllPressed(keys: seq<u32>)
      reads this
    {
      KeysPressed(pressedKeys, keys)
    }
  }
}
