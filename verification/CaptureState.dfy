/**
 The state of the capture wrapper as a value and its operations as functions: the two handle maps, the queue of
 event copies still to be handed out, the pressed keys, the cursor model and the calls made on the backend.
 */
module CaptureState {
  import opened Wrappers
  import opened Bytes
  import opened Positions
  import opened CaptureModel

  type Handle = u64

  /** An event copy addressed to one handle. */
  type Item = (Handle, Event)

  datatype Call = Create(pos: Position) | Destroy(pos: Position) | Release(warp: Option<Pixel>)

  datatype CaptureError = BackendFailed(code: int)

  datatype Capture = Capture(
    idMap: map<Handle, Position>,
    positionMap: map<Position, seq<Handle>>,
    pending: seq<Item>,
    pressedKeys: set<u32>,
    wall: Wall,
    calls: seq<Call>)

  const FRESH := Capture(map[], map[], [], {}, INITIAL, [])

  //
  // Handles
  //

  function HandlesAt(positionMap: map<Position, seq<Handle>>, pos: Position): seq<Handle> {
    if pos in positionMap then positionMap[pos] else []
  }

  function Without(ids: seq<Handle>, id: Handle): (r: seq<Handle>)
    ensures id !in r && forall i :: i in r <==> i in ids && i != id
    ensures |r| <= |ids|
  {
    if ids == [] then [] else
    assert ids == [ids[0]] + ids[1..];
    (if ids[0] == id then [] else [ids[0]]) + Without(ids[1..], id)
  }

  function Created(c: Capture, id: Handle, pos: Position): Capture {
    c.(idMap := c.idMap[id := pos],
    positionMap := c.positionMap[pos := HandlesAt(c.positionMap, pos) + [id]],
    calls := if pos in c.positionMap then c.calls else c.calls + [Create(pos)])
  }

  function Destroyed(c: Capture, id: Handle): Capture
    requires id in c.idMap
  {
    var pos := c.idMap[id];
    var remaining := Without(HandlesAt(c.positionMap, pos), id);
    c.(idMap := c.idMap - {id},
    positionMap := if remaining == [] then c.positionMap - {pos} else c.positionMap[pos := remaining],
    calls := if remaining == [] then c.calls + [Destroy(pos)] else c.calls)
  }

  //
  // Releases and keys
  //

  function WarpTarget(host: Host, w: Wall): Option<Pixel> {
    if w.capturePos.None? then None else HostWarpTargetOnRelease(host, w, w.capturePos.value)
  }

  function Released(c: Capture, warp: Option<Pixel>): Capture {
    c.(pressedKeys := {}, wall := Reset(c.wall), calls := c.calls + [Release(warp)])
  }

  const LAST_SCANCODE: u32 := 249

  /** Only codes that name a scancode are tracked, and every state but 1 counts as a key-up. */
  function KeyUpdate(keys: set<u32>, code: u32, state: byte): set<u32> {
    if code > LAST_SCANCODE then keys else if state == 1 then keys + {code} else keys - {code}
  }

  predicate KeysPressed(pressed: set<u32>, keys: seq<u32>) {
    forall i :: 0 <= i < |keys| ==> keys[i] in pressed
  }

  //
  // The event stream
  //

  /** What the backend's stream has to say when it is polled. */
  datatype Arrival = Quiet | End | Failure(error: CaptureError) | Arrived(pos: Position, event: Event)

  datatype Poll = Pending | Finished | Failed(error: CaptureError) | Yield(item: Item)

  /** One copy of the event for each handle, in order. */
  function Copies(ids: seq<Handle>, e: Event): (items: seq<Item>)
    ensures |items| == |ids|
    ensures forall i :: 0 <= i < |ids| ==> items[i] == (ids[i], e)
  {
    seq(|ids|, i requires 0 <= i < |ids| => (ids[i], e))
  }

  predicate Fires(c: Capture, elapsed: bool) {
    c.pending == [] && c.wall.pressPending && elapsed
  }

  /** The AutoRelease copies a fired deadline queues. */
  function FiredCopies(c: Capture): seq<Item> {
    if c.wall.capturePos.None? then [] else Copies(HandlesAt(c.positionMap, c.wall.capturePos.value), AutoRelease)
  }

  /** The state after consuming a backend event, before any copy of it is handed out. */
  function Consumed(host: Host, c: Capture, pos: Position, e: Event): Capture {
    c.(pressedKeys := if e.Key? then KeyUpdate(c.pressedKeys, e.code, e.state) else c.pressedKeys,
    wall := TrackWallPress(host, c.wall, pos, e),
    pending := c.pending + Copies(HandlesAt(c.positionMap, pos), e))
  }

  function Popped(c: Capture): (Capture, Poll)
    requires c.pending != []
  {
    (c.(pending := c.pending[1..]), Yield(c.pending[0]))
  }

  function PollBackend(host: Host, c: Capture, arrival: Arrival): (Capture, Poll)
    requires c.pending == []
  {
    match arrival
    case Quiet => (c, Pending)
    case End => (c, Finished)
    case Failure(error) => (c, Failed(error))
    case Arrived(pos, e) =>
      var c1 := Consumed(host, c, pos, e);
      if c1.pending == [] then (c1, Pending) else Popped(c1)
  }

  function Polled(host: Host, c: Capture, elapsed: bool, arrival: Arrival): (Capture, Poll) {
    if c.pending != [] then Popped(c)
    else if Fires(c, elapsed) then
      var c1 := c.(wall := c.wall.(pressPending := false), pending := FiredCopies(c));
      if c1.pending != [] then Popped(c1) else PollBackend(host, c1, arrival)
    else PollBackend(host, c, arrival)
  }

  //
  // The two maps are inverse relations
  //

  predicate NoDuplicates(ids: seq<Handle>) {
    forall i, j :: 0 <= i < j < |ids| ==> ids[i] != ids[j]
  }

  ghost predicate Inverse(idMap: map<Handle, Position>, positionMap: map<Position, seq<Handle>>) {
    && (forall id :: id in idMap ==> idMap[id] in positionMap && id in positionMap[idMap[id]])
    && (forall pos :: pos in positionMap ==> positionMap[pos] != [] && NoDuplicates(positionMap[pos]))
    && (forall pos, id :: pos in positionMap && id in positionMap[pos] ==> id in idMap && idMap[id] == pos)
  }

  /** Positions live at the backend after a further call, or None once a call created a live or destroyed a dead one. */
  function LiveStep(before: Option<set<Position>>, call: Call): Option<set<Position>> {
    if before.None? then None else
    match call
    case Create(pos) => if pos in before.value then None else Some(before.value + {pos})
    case Destroy(pos) => if pos in before.value then Some(before.value - {pos}) else None
    case Release(_) => before
  }

  function LiveAfter(calls: seq<Call>): Option<set<Position>> {
    if calls == [] then Some({}) else LiveStep(LiveAfter(calls[..|calls| - 1]), calls[|calls| - 1])
  }

  ghost predicate Consistent(c: Capture) {
    Inverse(c.idMap, c.positionMap) && LiveAfter(c.calls) == Some(c.positionMap.Keys)
  }

  lemma {:induction false} WithoutKeepsOrder(ids: seq<Handle>, id: Handle)
    requires NoDuplicates(ids)
    ensures NoDuplicates(Without(ids, id))
  {
    if ids != [] {
      WithoutKeepsOrder(ids[1..], id);
      var rest := Without(ids[1..], id);
      assert ids[0] !in ids[1..];
      assert ids[0] !in rest;
    }
  }

  lemma CallAppended(calls: seq<Call>, call: Call)
    ensures LiveAfter(calls + [call]) == LiveStep(LiveAfter(calls), call)
  {
    assert (calls + [call])[..|calls|] == calls;
  }

  lemma CreatedKeepsInverse(c: Capture, id: Handle, pos: Position)
    requires Inverse(c.idMap, c.positionMap) && id !in c.idMap
    ensures var c' := Created(c, id, pos); Inverse(c'.idMap, c'.positionMap)
  {
    var ids := HandlesAt(c.positionMap, pos);
    assert id !in ids;
    assert NoDuplicates(ids + [id]);
  }

  lemma HandlesAfterDestroy(c: Capture, id: Handle, h: Handle, pos: Position)
    requires Inverse(c.idMap, c.positionMap) && id in c.idMap
    ensures h in HandlesAt(Destroyed(c, id).positionMap, pos) <==> h in HandlesAt(c.positionMap, pos) && h != id
  {
  }

  lemma ListsAfterDestroy(c: Capture, id: Handle, pos: Position)
    requires Inverse(c.idMap, c.positionMap) && id in c.idMap && pos in Destroyed(c, id).positionMap
    ensures Destroyed(c, id).positionMap[pos] != [] && NoDuplicates(Destroyed(c, id).positionMap[pos])
  {
    assert pos in c.positionMap;
    if pos == c.idMap[id] {
      WithoutKeepsOrder(c.positionMap[pos], id);
    }
  }

  lemma DestroyedKeepsInverse(c: Capture, id: Handle)
    requires Inverse(c.idMap, c.positionMap) && id in c.idMap
    ensures var c' := Destroyed(c, id); Inverse(c'.idMap, c'.positionMap)
  {
    var ids, lists := Destroyed(c, id).idMap, Destroyed(c, id).positionMap;
    forall h | h in ids
      ensures ids[h] in lists && h in lists[ids[h]]
    {
      assert h in HandlesAt(c.positionMap, ids[h]);
      HandlesAfterDestroy(c, id, h, ids[h]);
    }
    forall pos | pos in lists
      ensures lists[pos] != [] && NoDuplicates(lists[pos])
    {
      ListsAfterDestroy(c, id, pos);
    }
    forall pos, h | pos in lists && h in lists[pos]
      ensures h in ids && ids[h] == pos
    {
      HandlesAfterDestroy(c, id, h, pos);
      assert h in HandlesAt(c.positionMap, pos);
    }
  }

  lemma CreatedStaysConsistent(c: Capture, id: Handle, pos: Position)
    requires Consistent(c) && id !in c.idMap
    ensures Consistent(Created(c, id, pos))
  {
    CreatedKeepsInverse(c, id, pos);
    CallAppended(c.calls, Create(pos));
    assert Created(c, id, pos).positionMap.Keys == c.positionMap.Keys + {pos};
    assert pos in c.positionMap ==> c.positionMap.Keys + {pos} == c.positionMap.Keys;
  }

  lemma DestroyedStaysConsistent(c: Capture, id: Handle)
    requires Consistent(c) && id in c.idMap
    ensures Consistent(Destroyed(c, id))
  {
    DestroyedKeepsInverse(c, id);
    var pos := c.idMap[id];
    CallAppended(c.calls, Destroy(pos));
    var remaining := Without(HandlesAt(c.positionMap, pos), id);
    assert (c.positionMap - {pos}).Keys == c.positionMap.Keys - {pos};
    assert c.positionMap[pos := remaining].Keys == c.positionMap.Keys;
  }

  lemma ReleasedStaysConsistent(c: Capture, warp: Option<Pixel>)
    requires Consistent(c)
    ensures Consistent(Released(c, warp))
  {
    CallAppended(c.calls, Release(warp));
    var c' := Released(c, warp);
    assert c'.idMap == c.idMap && c'.positionMap == c.positionMap;
    assert c'.calls == c.calls + [Release(warp)];
  }
}
