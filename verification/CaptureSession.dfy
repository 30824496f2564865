/**
 The capture task as functions on its state: what it does with an event handed out by the capture wrapper, with a
 message from a peer and with a request from the service, and how it says goodbye to the client it was controlling.
 `sent` records the messages offered to the connection; flush order is any enumeration of the pressed keys.
 */
module CaptureSession {
  import opened Wrappers
  import opened Bytes
  import opened Collections
  import opened Positions
  import opened CaptureModel
  import opened CaptureState
  import opened KeyLog
  import E = EmulationState

  datatype CaptureType = Default | EnterOnly

  datatype Registration = Registration(handle: Handle, pos: Position, kind: CaptureType)

  datatype Notice = CaptureBegin(handle: Handle) | ClientEntered(handle: Handle) | PeerCommitUpdated(handle: Handle)

  datatype Task = Task(
    captures: seq<Registration>,
    active: Option<Handle>,
    releaseBind: seq<u32>,
    sent: seq<Sent>,
    notices: seq<Notice>)

  function Find(captures: seq<Registration>, h: Handle): (r: Option<Registration>)
    ensures r.Some? ==> r.value in captures && r.value.handle == h
    ensures r.None? ==> forall i :: 0 <= i < |captures| ==> captures[i].handle != h
  {
    if captures == [] then None
    else if captures[0].handle == h then Some(captures[0])
    else Find(captures[1..], h)
  }

  predicate IsDefaultAt(captures: seq<Registration>, pos: Position) {
    exists i :: 0 <= i < |captures| && captures[i].pos == pos && captures[i].kind == Default
  }

  function Unregistered(captures: seq<Registration>, h: Handle): seq<Registration> {
    if captures == [] then []
    else (if captures[0].handle == h then [] else [captures[0]]) + Unregistered(captures[1..], h)
  }

  lemma UnregisteredStep(kept: seq<Registration>, captures: seq<Registration>, i: nat, h: Handle)
    requires i < |captures|
    ensures kept + Unregistered(captures[i..], h)
            == (kept + if captures[i].handle == h then [] else [captures[i]]) + Unregistered(captures[i + 1..], h)
  {
    assert captures[i..][1..] == captures[i + 1..];
  }

  /** The cursor as a fraction of the host's displays, if they have an area. */
  function NormalizedCursor(host: Host, cursor: Pixel): Option<(real, real)> {
    if host.bounds.None? || host.bounds.value.0 == 0 || host.bounds.value.1 == 0 then None
    else Some((Fraction(cursor.0 - host.origin.0, host.bounds.value.0),
               Fraction(cursor.1 - host.origin.1, host.bounds.value.1)))
  }

  /** Wire form of an event; AutoRelease never gets this far. */
  function MessageFor(e: Event, entry: Position): Msg
    requires !e.AutoRelease?
  {
    match e
    case Begin(_) => Enter(entry)
    case Motion(dx, dy) => Input(E.Motion(dx, dy))
    case Key(code, state) => Input(E.Key(code, state))
    case OtherInput(payload) => Input(E.OtherInput(payload))
  }

  function CursorMessage(host: Host, e: Event, entry: Position): seq<Msg> {
    if !e.Begin? || e.cursor.None? || NormalizedCursor(host, e.cursor.value).None? then [] else
    var (nx, ny) := NormalizedCursor(host, e.cursor.value).value;
    [CursorPos(entry, nx, ny)]
  }

  //
  // Saying goodbye
  //

  predicate CanFlush(t: Task, c: Capture, order: seq<u32>) {
    t.active.Some? ==> Enumerates(order, c.pressedKeys)
  }

  function Notified(t: Task, order: seq<u32>): Task {
    if t.active.None? then t else t.(active := None, sent := t.sent + Farewell(t.active.value, order))
  }

  /** Teardown: the active client, if any, gets its farewell, then the backend is released. */
  function TornDown(host: Host, t: Task, c: Capture, order: seq<u32>, warping: bool): (Task, Capture) {
    (Notified(t, order), Released(c, if warping then WarpTarget(host, c.wall) else None))
  }

  //
  // Events from the capture wrapper
  //

  /** An event for a Default handle: forwarded, after marking its client as the active one if it begins a capture. */
  function Forwarded(host: Host, t: Task, c: Capture, reg: Registration, e: Event, up: bool): (Task, Capture)
    requires !e.AutoRelease?
  {
    var h, entry := reg.handle, reg.pos.Opposite();
    var t1 := if e.Begin? && t.active != Some(h)
              then t.(active := Some(h), notices := t.notices + [ClientEntered(h)]) else t;
    var t2 := t1.(sent := t1.sent + [(h, MessageFor(e, entry))]);
    if !up then (t2, Released(c, WarpTarget(host, c.wall)))
    else (t2.(sent := t2.sent + SentTogether(h, CursorMessage(host, e, entry))), c)
  }

  /** Whether handling the event gets as far as looking up its handle, which panics on one that is not registered. */
  predicate LooksUp(t: Task, c: Capture, e: Event) {
    !KeysPressed(c.pressedKeys, t.releaseBind) && !e.AutoRelease?
  }

  /** `up` is whether the connection takes the forwarded message. */
  function Handled(host: Host, t: Task, c: Capture, h: Handle, e: Event, order: seq<u32>, up: bool): (Task, Capture)
    requires LooksUp(t, c, e) ==> Find(t.captures, h).Some?
  {
    if !LooksUp(t, c, e) then TornDown(host, t, c, order, true) else
    var t1 := if e.Begin? then t.(notices := t.notices + [CaptureBegin(h)]) else t;
    var reg := Find(t.captures, h).value;
    if reg.kind == EnterOnly then
      (t1, if IsDefaultAt(t.captures, reg.pos) then c else Released(c, WarpTarget(host, c.wall)))
    else Forwarded(host, t1, c, reg, e, up)
  }

  //
  // Messages from peers and requests from the service
  //

  datatype PeerMsg =
    | PeerAck
    | PeerLeave
    | PeerBounds(size: Size)
    | PeerSensitivity(factor: real)
    | PeerHello
    | PeerOther

  /** Whether a message from this client is looked at: while one is active, only its own are. */
  predicate Heeded(t: Task, h: Handle) {
    t.active.None? || t.active == Some(h)
  }

  /** Whether handling the message gets as far as looking up its client's position. */
  predicate AsksPosition(t: Task, h: Handle, m: PeerMsg) {
    Heeded(t, h) && (m.PeerBounds? || m.PeerSensitivity?)
  }

  function PeerSaid(host: Host, t: Task, c: Capture, h: Handle, m: PeerMsg, order: seq<u32>): (Task, Capture)
    requires AsksPosition(t, h, m) ==> Find(t.captures, h).Some?
  {
    if !Heeded(t, h) then (t, c) else
    match m
    case PeerLeave => TornDown(host, t, c, order, false)
    case PeerBounds(size) =>
      (t, c.(wall := CaptureModel.SetPeerBounds(host, c.wall, Find(t.captures, h).value.pos, size)))
    case PeerSensitivity(factor) =>
      (t, c.(wall := CaptureModel.SetPeerSensitivity(c.wall, Find(t.captures, h).value.pos, factor)))
    case PeerHello => (t.(notices := t.notices + [PeerCommitUpdated(h)]), c)
    case _ => (t, c)
  }

  datatype Request =
    | Reenable
    | ReleaseForHandover
    | CreateCapture(handle: Handle, pos: Position, kind: CaptureType)
    | DestroyCapture(handle: Handle)
    | SetReleaseBind(bind: seq<u32>)
    | SetReleaseThreshold(px: u32)

  /** Handles are created once and destroyed while registered, or the capture task panics. */
  predicate Admissible(t: Task, c: Capture, r: Request) {
    && (r.CreateCapture? ==> r.handle !in c.idMap)
    && (r.DestroyCapture? ==> r.handle in c.idMap && Find(t.captures, r.handle).Some?)
  }

  function Requested(host: Host, t: Task, c: Capture, r: Request, order: seq<u32>): (Task, Capture)
    requires Admissible(t, c, r)
  {
    match r
    case Reenable => (t, c)
    case ReleaseForHandover => TornDown(host, t, c, order, false)
    case CreateCapture(h, pos, kind) => (t.(captures := t.captures + [Registration(h, pos, kind)]), Created(c, h, pos))
    case DestroyCapture(h) =>
      var pos := Find(t.captures, h).value.pos;
      (t.(captures := Unregistered(t.captures, h)), Forgotten(Destroyed(c, h), pos))
    case SetReleaseBind(bind) => (t.(releaseBind := bind), c)
    case SetReleaseThreshold(px) => (t, c.(wall := c.wall.(threshold := px)))
  }

  function Forgotten(c: Capture, pos: Position): Capture {
    c.(wall := c.wall.(peerBounds := c.wall.peerBounds - {pos}, peerSensitivity := c.wall.peerSensitivity - {pos}))
  }
}
