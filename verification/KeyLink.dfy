/**
 The host's side of a link as one system: backend, capture wrapper, capture task and what has been sent to the
 clients, stepped by backend events, deadlines, peers and the service in any order. Every step is an effect of
 `KeyFlow`, so its guarantees hold over all sessions whose handle layout is sound.
 */
module KeyLink {
  import opened Wrappers
  import opened Bytes
  import opened Positions
  import opened CaptureModel
  import opened CaptureState
  import opened CaptureSession
  import opened KeyLog
  import F = KeyFlow
  import S = EmulationSession

  /**
   `at` is where the backend is capturing: from a Begin until the next release, or until the position itself is
   destroyed.
   */
  datatype Link = Link(task: Task, cap: Capture, at: Option<Position>)

  datatype Step =
    | Poll(elapsed: bool, arrival: Arrival, order: seq<u32>)
    | Peer(handle: Handle, message: PeerMsg, order: seq<u32>)
    | Service(request: Request, order: seq<u32>)

  //
  // One step
  //

  predicate Consumes(c: Capture, elapsed: bool, arrival: Arrival) {
    c.pending == [] && arrival.Arrived? && (Fires(c, elapsed) ==> FiredCopies(c) == [])
  }

  /** Where the backend is capturing once it has delivered this arrival. */
  function Captured(x: Link, elapsed: bool, arrival: Arrival): Option<Position> {
    if Consumes(x.cap, elapsed, arrival) && arrival.event.Begin? then Some(arrival.pos) else x.at
  }

  /** Calls that end the capture at a position: a release, or destroying that position. */
  predicate Ends(call: Call, at: Option<Position>) {
    call.Release? || (call.Destroy? && Some(call.pos) == at)
  }

  /** A step makes at most one call of the backend. */
  function AfterCalls(at: Option<Position>, before: seq<Call>, after: seq<Call>): Option<Position> {
    if |after| > |before| && Ends(after[|after| - 1], at) then None else at
  }

  /** The backend begins a capture only where one is created and none is under way, and emits input only there. */
  predicate Plays(x: Link, elapsed: bool, arrival: Arrival) {
    Consumes(x.cap, elapsed, arrival) ==>
      match arrival.event
      case Begin(_) => x.at.None? && arrival.pos in x.cap.positionMap
      case AutoRelease => true
      case _ => x.at == Some(arrival.pos)
  }

  predicate CanDispatch(t: Task, c: Capture, out: CaptureState.Poll, order: seq<u32>) {
    out.Yield? ==> (LooksUp(t, c, out.item.1) ==> Find(t.captures, out.item.0).Some?) && CanFlush(t, c, order)
  }

  /** The capture task handles what a poll yields, if anything, over a connection that takes every message. */
  function Dispatched(host: Host, t: Task, c: Capture, out: CaptureState.Poll, order: seq<u32>): (Task, Capture)
    requires CanDispatch(t, c, out, order)
  {
    if out.Yield? then Handled(host, t, c, out.item.0, out.item.1, order, true) else (t, c)
  }

  /** The step does not panic, and its flush order enumerates the keys pressed when it flushes. */
  predicate Runs(host: Host, x: Link, s: Step) {
    match s
    case Poll(elapsed, arrival, order) =>
      var (c1, out) := Polled(host, x.cap, elapsed, arrival);
      CanDispatch(x.task, c1, out, order)
    case Peer(h, m, order) =>
      CanFlush(x.task, x.cap, order) && (AsksPosition(x.task, h, m) ==> Find(x.task.captures, h).Some?)
    case Service(r, order) => CanFlush(x.task, x.cap, order) && Admissible(x.task, x.cap, r)
  }

  function Next(host: Host, x: Link, s: Step): Link
    requires Runs(host, x, s)
  {
    match s
    case Poll(elapsed, arrival, order) =>
      var (c1, out) := Polled(host, x.cap, elapsed, arrival);
      var (t2, c2) := Dispatched(host, x.task, c1, out, order);
      Link(t2, c2, AfterCalls(Captured(x, elapsed, arrival), x.cap.calls, c2.calls))
    case Peer(h, m, order) =>
      var (t2, c2) := PeerSaid(host, x.task, x.cap, h, m, order);
      Link(t2, c2, AfterCalls(x.at, x.cap.calls, c2.calls))
    case Service(r, order) =>
      var (t2, c2) := Requested(host, x.task, x.cap, r, order);
      Link(t2, c2, AfterCalls(x.at, x.cap.calls, c2.calls))
  }

  //
  // Sound layouts
  //

  predicate EnterOnlyHandle(captures: seq<Registration>, h: Handle) {
    Find(captures, h).Some? && Find(captures, h).value.kind == EnterOnly
  }

  /** At most one Default handle per position, and it comes first. */
  predicate DefaultsComeFirst(captures: seq<Registration>, positionMap: map<Position, seq<Handle>>) {
    forall pos, i :: pos in positionMap && 0 < i < |positionMap[pos]| ==> EnterOnlyHandle(captures, positionMap[pos][i])
  }

  /** Handles that still have a copy queued. */
  predicate Queued(pending: seq<Item>, h: Handle) {
    exists i :: 0 <= i < |pending| && pending[i].0 == h
  }

  /**
   The service keeps the layout sound: a Default capture is only added where there is none at all, no handle is
   registered again while copies for its former self are queued, and none is destroyed while its client is being
   controlled.
   */
  predicate Careful(x: Link, r: Request) {
    && (r.CreateCapture? ==> (r.kind == Default ==> r.pos !in x.cap.positionMap) && !Queued(x.cap.pending, r.handle))
    && (r.DestroyCapture? ==> x.task.active != Some(r.handle))
  }

  predicate Allowed(host: Host, x: Link, s: Step) {
    && Runs(host, x, s)
    && (s.Poll? ==> Plays(x, s.elapsed, s.arrival))
    && (s.Service? ==> Careful(x, s.request))
  }

  //
  // Reachable states
  //

  ghost predicate Registered(captures: seq<Registration>, idMap: map<Handle, Position>) {
    && (forall h: Handle :: Find(captures, h).Some? <==> h in idMap)
    && (forall h: Handle :: h in idMap ==> Find(captures, h) == Some(Find(captures, h).value.(pos := idMap[h])))
    && (forall i {:trigger captures[i]} :: 0 <= i < |captures| ==>
       Find(captures, captures[i].handle) == Some(captures[i]))
  }

  ghost predicate Layout(t: Task, c: Capture) {
    && Inverse(c.idMap, c.positionMap)
    && Registered(t.captures, c.idMap)
    && DefaultsComeFirst(t.captures, c.positionMap)
  }

  /**
   Copies still waiting are for EnterOnly handles, unless those have been destroyed since, at the position being
   captured if there is one; and there is none once an AutoRelease is queued.
   */
  ghost predicate Waiting(captures: seq<Registration>, idMap: map<Handle, Position>, pending: seq<Item>,
      at: Option<Position>) {
    forall i :: 0 <= i < |pending| ==>
      && (at.Some? ==> !pending[i].1.AutoRelease?)
      && (pending[i].0 in idMap ==>
          EnterOnlyHandle(captures, pending[i].0) && (at.Some? ==> idMap[pending[i].0] == at.value))
  }

  /** The client being controlled is the Default handle where the backend is capturing, and there is one iff it is. */
  ghost predicate Engaged(x: Link) {
    match x.at
    case None => x.task.active.None? && x.cap.pressedKeys == {}
    case Some(pos) =>
      && pos in x.cap.positionMap && x.cap.positionMap[pos] != []
      && x.task.active == Some(x.cap.positionMap[pos][0])
      && Find(x.task.captures, x.cap.positionMap[pos][0]).Some?
      && Find(x.task.captures, x.cap.positionMap[pos][0]).value.kind == Default
  }

  ghost predicate Ready(x: Link) {
    Layout(x.task, x.cap) && Waiting(x.task.captures, x.cap.idMap, x.cap.pending, x.at) && Engaged(x)
  }

  function FlowOf(t: Task, c: Capture): F.Flow {
    F.Flow(t.sent, t.active, c.pressedKeys, t.releaseBind)
  }

  /** Tearing down, whatever was queued, ends the capture with a farewell to the client being controlled. */
  lemma TearsDown(host: Host, t: Task, c: Capture, order: seq<u32>, warping: bool)
    requires Layout(t, c) && Waiting(t.captures, c.idMap, c.pending, None) && CanFlush(t, c, order)
    ensures var (t2, c2) := TornDown(host, t, c, order, warping);
            Ready(Link(t2, c2, None)) && FlowOf(t2, c2) == F.Goodbye(FlowOf(t, c), order)
  {
  }

  lemma DefaultIsFound(t: Task, c: Capture, pos: Position)
    requires Layout(t, c) && pos in c.positionMap
    ensures var first := c.positionMap[pos][0];
            && Find(t.captures, first).Some? && Find(t.captures, first).value.pos == pos
            && (IsDefaultAt(t.captures, pos) <==> Find(t.captures, first).value.kind == Default)
  {
    var first := c.positionMap[pos][0];
    assert first in c.positionMap[pos];
    var reg := Find(t.captures, first).value;
    if IsDefaultAt(t.captures, pos) {
      var i :| 0 <= i < |t.captures| && t.captures[i].pos == pos && t.captures[i].kind == Default;
      var h := t.captures[i].handle;
      assert Find(t.captures, h) == Some(t.captures[i]);
      assert h in c.positionMap[pos];
      var j :| 0 <= j < |c.positionMap[pos]| && c.positionMap[pos][j] == h;
      assert j == 0;
    }
  }

  /** Copies beyond the first are for EnterOnly handles. */
  lemma RestWaits(t: Task, c: Capture, pos: Position, e: Event)
    requires Layout(t, c) && pos in c.positionMap
    ensures Waiting(t.captures, c.idMap, Copies(c.positionMap[pos], e)[1..], if e.AutoRelease? then None else Some(pos))
  {
    var rest := Copies(c.positionMap[pos], e)[1..];
    forall i | 0 <= i < |rest|
      ensures EnterOnlyHandle(t.captures, rest[i].0) && rest[i].0 in c.idMap && c.idMap[rest[i].0] == pos
    {
      assert rest[i].0 == c.positionMap[pos][i + 1];
      assert c.positionMap[pos][i + 1] in c.positionMap[pos];
    }
  }

  //
  // What handling an event does
  //

  /** With the chord down, or on an AutoRelease, any handle's event tears the capture down. */
  lemma HandlesRelease(host: Host, t: Task, c: Capture, at: Option<Position>, h: Handle, e: Event, order: seq<u32>)
    requires Layout(t, c) && Waiting(t.captures, c.idMap, c.pending, None) && CanFlush(t, c, order)
    requires !LooksUp(t, c, e)
    ensures var (t2, c2) := Handled(host, t, c, h, e, order, true);
            && AfterCalls(at, c.calls, c2.calls) == None && Ready(Link(t2, c2, None))
            && FlowOf(t2, c2) == F.Goodbye(FlowOf(t, c), order)
  {
    TearsDown(host, t, c, order, true);
  }

  /** An event for an EnterOnly handle sends nothing, and releases the backend only where no client is controlled. */
  lemma HandlesEnterOnly(host: Host, x: Link, h: Handle, e: Event, order: seq<u32>) returns (f: F.Effect)
    requires Ready(x) && CanFlush(x.task, x.cap, order)
    requires LooksUp(x.task, x.cap, e) ==> EnterOnlyHandle(x.task.captures, h)
    requires x.at.Some? && h in x.cap.idMap ==> x.cap.idMap[h] == x.at.value
    ensures var (t2, c2) := Handled(host, x.task, x.cap, h, e, order, true);
            && Ready(Link(t2, c2, AfterCalls(x.at, x.cap.calls, c2.calls)))
            && F.Enabled(FlowOf(x.task, x.cap), f) && FlowOf(t2, c2) == F.Step(FlowOf(x.task, x.cap), f)
    ensures f.Nothing? || f == F.Release(order)
  {
    if !LooksUp(x.task, x.cap, e) {
      f := F.Release(order);
      HandlesRelease(host, x.task, x.cap, x.at, h, e, order);
    } else {
      f := F.Nothing;
      IgnoresEnterOnly(host, x, h, e, order);
    }
  }

  lemma IgnoresEnterOnly(host: Host, x: Link, h: Handle, e: Event, order: seq<u32>)
    requires Ready(x) && EnterOnlyHandle(x.task.captures, h) && LooksUp(x.task, x.cap, e)
    requires x.at.Some? && h in x.cap.idMap ==> x.cap.idMap[h] == x.at.value
    ensures var (t2, c2) := Handled(host, x.task, x.cap, h, e, order, true);
            && Ready(Link(t2, c2, AfterCalls(x.at, x.cap.calls, c2.calls)))
            && FlowOf(t2, c2) == FlowOf(x.task, x.cap)
  {
    assert h in x.cap.idMap;
    if x.at.Some? {
      DefaultIsFound(x.task, x.cap, x.at.value);
    }
  }

  lemma ForwardsBegin(host: Host, t: Task, c: Capture, pos: Position, reg: Registration, cursor: Option<Pixel>)
    requires Layout(t, c) && Waiting(t.captures, c.idMap, c.pending, Some(pos)) && pos in c.positionMap
    requires t.active.None? && c.pressedKeys == {} && t.releaseBind != []
    requires Find(t.captures, c.positionMap[pos][0]) == Some(reg) && reg.kind == Default && reg.pos == pos
    requires reg.handle == c.positionMap[pos][0]
    ensures var (t2, c2) := Forwarded(host, t, c, reg, Event.Begin(cursor), true);
            var f := F.Begin(reg.handle, pos.Opposite(), CursorMessage(host, Event.Begin(cursor), pos.Opposite()));
            && Ready(Link(t2, c2, Some(pos))) && c2 == c
            && F.Enabled(FlowOf(t, c), f) && FlowOf(t2, c2) == F.Step(FlowOf(t, c), f)
  {
  }

  lemma ForwardsInput(host: Host, t: Task, c: Capture, pos: Position, reg: Registration, e: Event)
    requires !e.Begin? && !e.AutoRelease? && Ready(Link(t, c, Some(pos)))
    requires Find(t.captures, c.positionMap[pos][0]) == Some(reg) && reg.handle == c.positionMap[pos][0]
    ensures var (t2, c2) := Forwarded(host, t, c, reg, e, true);
            && Ready(Link(t2, c2, Some(pos))) && c2 == c
            && t2 == t.(sent := t.sent + [(reg.handle, MessageFor(e, reg.pos.Opposite()))])
  {
    var s := (reg.handle, MessageFor(e, reg.pos.Opposite()));
    assert t.sent + [s] + SentTogether(reg.handle, []) == t.sent + [s];
  }

  /** A Begin is forwarded to the Default handle there, if the (empty) chord is not down; otherwise it is undone. */
  lemma HandlesBegin(host: Host, t: Task, c: Capture, pos: Position, cursor: Option<Pixel>,
      order: seq<u32>)
    returns (f: F.Effect)
    requires Layout(t, c) && t.active.None? && c.pressedKeys == {} && pos in c.positionMap && CanFlush(t, c, order)
    requires Waiting(t.captures, c.idMap, c.pending, Some(pos))
    requires Find(t.captures, c.positionMap[pos][0]).Some?
    ensures var (t2, c2) := Handled(host, t, c, c.positionMap[pos][0], Event.Begin(cursor), order, true);
            && Ready(Link(t2, c2, AfterCalls(Some(pos), c.calls, c2.calls)))
            && F.Enabled(FlowOf(t, c), f) && FlowOf(t2, c2) == F.Step(FlowOf(t, c), f)
    ensures f.Nothing? || f == F.Release(order) || f.Begin?
  {
    var first, e := c.positionMap[pos][0], Event.Begin(cursor);
    DefaultIsFound(t, c, pos);
    if KeysPressed(c.pressedKeys, t.releaseBind) {
      f := F.Release(order);
      HandlesRelease(host, t, c, Some(pos), first, e, order);
    } else if Find(t.captures, first).value.kind == EnterOnly {
      f := F.Nothing;
      UndoesBegin(host, t, c, pos, cursor, order);
    } else {
      f := F.Begin(first, pos.Opposite(), CursorMessage(host, e, pos.Opposite()));
      var t1 := t.(notices := t.notices + [CaptureBegin(first)]);
      ForwardsBegin(host, t1, c, pos, Find(t.captures, first).value, cursor);
      assert FlowOf(t1, c) == FlowOf(t, c);
    }
  }

  lemma UndoesBegin(host: Host, t: Task, c: Capture, pos: Position, cursor: Option<Pixel>, order: seq<u32>)
    requires Layout(t, c) && t.active.None? && c.pressedKeys == {} && pos in c.positionMap
    requires Waiting(t.captures, c.idMap, c.pending, Some(pos))
    requires EnterOnlyHandle(t.captures, c.positionMap[pos][0]) && !IsDefaultAt(t.captures, pos)
    requires Find(t.captures, c.positionMap[pos][0]).value.pos == pos
    requires !KeysPressed(c.pressedKeys, t.releaseBind)
    ensures var (t2, c2) := Handled(host, t, c, c.positionMap[pos][0], Event.Begin(cursor), order, true);
            && AfterCalls(Some(pos), c.calls, c2.calls) == None && Ready(Link(t2, c2, None))
            && FlowOf(t2, c2) == FlowOf(t, c)
  {
  }

  /** Input where the backend captures goes to the client being controlled, unless it completes the chord. */
  lemma HandlesInput(host: Host, t: Task, c: Capture, before: set<u32>, pos: Position, e: Event,
      order: seq<u32>)
    returns (f: F.Effect)
    requires !e.Begin? && !e.AutoRelease?
    requires c.pressedKeys == if e.Key? then KeyUpdate(before, e.code, e.state) else before
    requires Ready(Link(t, c, Some(pos))) && CanFlush(t, c, order)
    ensures var (t2, c2) := Handled(host, t, c, c.positionMap[pos][0], e, order, true);
            && Ready(Link(t2, c2, AfterCalls(Some(pos), c.calls, c2.calls)))
            && var f0 := FlowOf(t, c).(pressed := before);
            && F.Enabled(f0, f) && FlowOf(t2, c2) == F.Step(f0, f)
    ensures f.Forward? || f == F.Release(order)
            || (e.Key? && (f == F.Press(e.code, e.state) || f == F.PressThenRelease(e.code, e.state, order)))
    ensures f.PressThenRelease? <==> e.Key? && KeysPressed(c.pressedKeys, t.releaseBind)
  {
    var first := c.positionMap[pos][0];
    if KeysPressed(c.pressedKeys, t.releaseBind) {
      f := if e.Key? then F.PressThenRelease(e.code, e.state, order) else F.Release(order);
      HandlesRelease(host, t, c, Some(pos), first, e, order);
    } else {
      f := if e.Key? then F.Press(e.code, e.state) else F.Forward(MessageFor(e, pos.Opposite()));
      DefaultIsFound(t, c, pos);
      ForwardsInput(host, t, c, pos, Find(t.captures, first).value, e);
    }
  }

  //
  // Every step is an effect of the key flow
  //

  /** A key effect is a key event the backend just delivered, and ends the capture if that leaves the chord down. */
  predicate StemsFrom(f: F.Effect, x: Link, consumed: bool, arrival: Arrival)
    requires consumed ==> arrival.Arrived?
  {
    && (f.Press? || f.PressThenRelease? ==>
        consumed && arrival.event.Key? && f.code == arrival.event.code && f.state == arrival.event.state)
    && (consumed && arrival.event.Key? &&
        KeysPressed(KeyUpdate(x.cap.pressedKeys, arrival.event.code, arrival.event.state), x.task.releaseBind)
        ==> f.PressThenRelease?)
  }

  /** What the poll of an idle queue leads to. */
  lemma BackendEffect(host: Host, x: Link, arrival: Arrival, order: seq<u32>) returns (f: F.Effect)
    requires Ready(x) && x.cap.pending == []
    requires arrival.Arrived? ==>
               match arrival.event
               case Begin(_) => x.at.None? && arrival.pos in x.cap.positionMap
               case AutoRelease => true
               case _ => x.at == Some(arrival.pos)
    requires var (c1, out) := PollBackend(host, x.cap, arrival); CanDispatch(x.task, c1, out, order)
    ensures var (c1, out) := PollBackend(host, x.cap, arrival);
            var (t2, c2) := Dispatched(host, x.task, c1, out, order);
            var at := if arrival.Arrived? && arrival.event.Begin? then Some(arrival.pos) else x.at;
            && Ready(Link(t2, c2, AfterCalls(at, x.cap.calls, c2.calls)))
            && F.Enabled(FlowOf(x.task, x.cap), f) && FlowOf(t2, c2) == F.Step(FlowOf(x.task, x.cap), f)
    ensures StemsFrom(f, x, arrival.Arrived?, arrival) && !f.Rebind?
  {
    var (c1, out) := PollBackend(host, x.cap, arrival);
    if !arrival.Arrived? || HandlesAt(x.cap.positionMap, arrival.pos) == [] {
      f := F.Nothing;
    } else {
      var pos, e := arrival.pos, arrival.event;
      assert out == Yield((x.cap.positionMap[pos][0], e));
      assert c1.pending == Copies(x.cap.positionMap[pos], e)[1..];
      RestWaits(x.task, x.cap, pos, e);
      match e
      case AutoRelease =>
        f := F.Release(order);
        HandlesRelease(host, x.task, c1, x.at, x.cap.positionMap[pos][0], e, order);
      case Begin(cursor) => f := HandlesBegin(host, x.task, c1, pos, cursor, order);
      case _ => f := HandlesInput(host, x.task, c1, x.cap.pressedKeys, pos, e, order);
    }
  }

  lemma QueueEffect(host: Host, x: Link, order: seq<u32>) returns (f: F.Effect)
    requires Ready(x) && x.cap.pending != []
    requires var (c1, out) := Popped(x.cap); CanDispatch(x.task, c1, out, order)
    ensures var (c1, out) := Popped(x.cap);
            var (t2, c2) := Dispatched(host, x.task, c1, out, order);
            && Ready(Link(t2, c2, AfterCalls(x.at, x.cap.calls, c2.calls)))
            && F.Enabled(FlowOf(x.task, x.cap), f) && FlowOf(t2, c2) == F.Step(FlowOf(x.task, x.cap), f)
    ensures f.Nothing? || f == F.Release(order)
  {
    var (c1, out) := Popped(x.cap);
    f := HandlesEnterOnly(host, Link(x.task, c1, x.at), x.cap.pending[0].0, x.cap.pending[0].1, order);
  }

  lemma FiredEffect(host: Host, x: Link, order: seq<u32>, c1: Capture) returns (f: F.Effect)
    requires Ready(x) && x.cap.pending == [] && FiredCopies(x.cap) != []
    requires c1 == x.cap.(wall := x.cap.wall.(pressPending := false), pending := FiredCopies(x.cap))
    requires var (c2, out) := Popped(c1); CanDispatch(x.task, c2, out, order)
    ensures var (c2, out) := Popped(c1);
            var (t3, c3) := Dispatched(host, x.task, c2, out, order);
            && Ready(Link(t3, c3, AfterCalls(x.at, x.cap.calls, c3.calls)))
            && F.Enabled(FlowOf(x.task, x.cap), f) && FlowOf(t3, c3) == F.Step(FlowOf(x.task, x.cap), f)
    ensures f == F.Release(order)
  {
    f := F.Release(order);
    var (c2, out) := Popped(c1);
    RestWaits(x.task, x.cap, x.cap.wall.capturePos.value, AutoRelease);
    HandlesRelease(host, x.task, c2, x.at, out.item.0, AutoRelease, order);
  }

  lemma PollEffect(host: Host, x: Link, elapsed: bool, arrival: Arrival, order: seq<u32>) returns (f: F.Effect)
    requires Ready(x) && Allowed(host, x, Poll(elapsed, arrival, order))
    ensures Ready(Next(host, x, Poll(elapsed, arrival, order)))
    ensures var x' := Next(host, x, Poll(elapsed, arrival, order));
            && F.Enabled(FlowOf(x.task, x.cap), f) && FlowOf(x'.task, x'.cap) == F.Step(FlowOf(x.task, x.cap), f)
    ensures StemsFrom(f, x, Consumes(x.cap, elapsed, arrival), arrival) && !f.Rebind?
  {
    if x.cap.pending != [] {
      assert Polled(host, x.cap, elapsed, arrival) == Popped(x.cap);
      f := QueueEffect(host, x, order);
    } else if Fires(x.cap, elapsed) {
      var c1 := x.cap.(wall := x.cap.wall.(pressPending := false), pending := FiredCopies(x.cap));
      if FiredCopies(x.cap) != [] {
        assert Polled(host, x.cap, elapsed, arrival) == Popped(c1);
        f := FiredEffect(host, x, order, c1);
      } else {
        assert Polled(host, x.cap, elapsed, arrival) == PollBackend(host, c1, arrival);
        f := BackendEffect(host, Link(x.task, c1, x.at), arrival, order);
      }
    } else {
      assert Polled(host, x.cap, elapsed, arrival) == PollBackend(host, x.cap, arrival);
      f := BackendEffect(host, x, arrival, order);
    }
  }

  lemma PeerEffect(host: Host, x: Link, h: Handle, m: PeerMsg, order: seq<u32>) returns (f: F.Effect)
    requires Ready(x) && Runs(host, x, Peer(h, m, order))
    ensures Ready(Next(host, x, Peer(h, m, order)))
    ensures var x' := Next(host, x, Peer(h, m, order));
            && F.Enabled(FlowOf(x.task, x.cap), f) && FlowOf(x'.task, x'.cap) == F.Step(FlowOf(x.task, x.cap), f)
    ensures f.Nothing? || f == F.Release(order)
  {
    if Heeded(x.task, h) && m.PeerLeave? {
      f := F.Release(order);
      TearsDown(host, x.task, x.cap, order, false);
    } else {
      f := F.Nothing;
    }
  }

  /** Every handle a poll yields is registered, unless it was destroyed while a copy for it was queued. */
  lemma YieldedHandlesAreRegistered(host: Host, x: Link, elapsed: bool, arrival: Arrival)
    requires Ready(x)
    ensures var out := Polled(host, x.cap, elapsed, arrival).1;
            out.Yield? && !(x.cap.pending != [] && x.cap.pending[0].0 !in x.cap.idMap) ==>
              Find(x.task.captures, out.item.0).Some?
  {
    if x.cap.pending == [] && x.cap.wall.capturePos.Some? && x.cap.wall.capturePos.value in x.cap.positionMap {
      DefaultIsFound(x.task, x.cap, x.cap.wall.capturePos.value);
    }
    if x.cap.pending == [] && arrival.Arrived? && arrival.pos in x.cap.positionMap {
      DefaultIsFound(x.task, x.cap, arrival.pos);
    }
  }

  //
  // Requests
  //

  lemma {:induction false} FindAppended(captures: seq<Registration>, reg: Registration, h: Handle)
    ensures Find(captures + [reg], h)
            == if Find(captures, h).Some? then Find(captures, h) else if reg.handle == h then Some(reg) else None
  {
    if captures == [] {
      assert captures + [reg] == [reg];
    } else {
      FindAppended(captures[1..], reg, h);
      assert (captures + [reg])[1..] == captures[1..] + [reg];
    }
  }

  lemma {:induction false} FindUnregistered(captures: seq<Registration>, gone: Handle, h: Handle)
    ensures Find(Unregistered(captures, gone), h) == if h == gone then None else Find(captures, h)
    ensures forall r :: r in Unregistered(captures, gone) ==> r in captures && r.handle != gone
  {
    if captures != [] {
      FindUnregistered(captures[1..], gone, h);
      var rest := Unregistered(captures[1..], gone);
      if captures[0].handle != gone {
        assert ([captures[0]] + rest)[1..] == rest;
      } else {
        assert [] + rest == rest;
      }
    }
  }

  lemma CreateKeepsRegistered(captures: seq<Registration>, idMap: map<Handle, Position>, h: Handle, pos: Position,
      kind: CaptureType)
    requires Registered(captures, idMap) && h !in idMap
    ensures Registered(captures + [Registration(h, pos, kind)], idMap[h := pos])
  {
    var captures' := captures + [Registration(h, pos, kind)];
    forall g: Handle
      ensures Find(captures', g) == if g == h then Some(Registration(h, pos, kind)) else Find(captures, g)
    {
      FindAppended(captures, Registration(h, pos, kind), g);
    }
    forall i | 0 <= i < |captures'|
      ensures Find(captures', captures'[i].handle) == Some(captures'[i])
    {
      if i < |captures| {
        assert captures'[i] == captures[i];
        assert Find(captures, captures[i].handle) == Some(captures[i]);
      }
    }
  }

  lemma DestroyKeepsRegistered(captures: seq<Registration>, idMap: map<Handle, Position>, h: Handle)
    requires Registered(captures, idMap)
    ensures Registered(Unregistered(captures, h), idMap - {h})
  {
    var captures' := Unregistered(captures, h);
    forall g: Handle
      ensures Find(captures', g) == if g == h then None else Find(captures, g)
    {
      FindUnregistered(captures, h, g);
    }
    FindUnregistered(captures, h, h);
    forall i | 0 <= i < |captures'|
      ensures Find(captures', captures'[i].handle) == Some(captures'[i])
    {
      assert captures'[i] in captures;
      var j :| 0 <= j < |captures| && captures[j] == captures'[i];
      assert Find(captures, captures[j].handle) == Some(captures[j]);
    }
  }

  lemma CreateKeepsDefaultsFirst(
    captures: seq<Registration>, captures': seq<Registration>, positionMap: map<Position, seq<Handle>>,
    h: Handle, pos: Position, kind: CaptureType)
    requires DefaultsComeFirst(captures, positionMap) && (kind == Default ==> pos !in positionMap)
    requires forall g :: EnterOnlyHandle(captures, g) ==> EnterOnlyHandle(captures', g)
    requires Find(captures', h) == Some(Registration(h, pos, kind))
    ensures DefaultsComeFirst(captures', positionMap[pos := HandlesAt(positionMap, pos) + [h]])
  {
    var positionMap' := positionMap[pos := HandlesAt(positionMap, pos) + [h]];
    forall p, i | p in positionMap' && 0 < i < |positionMap'[p]|
      ensures EnterOnlyHandle(captures', positionMap'[p][i])
    {
      if p in positionMap && i < |positionMap[p]| {
        assert positionMap'[p][i] == positionMap[p][i];
        assert EnterOnlyHandle(captures, positionMap[p][i]);
      }
    }
  }

  lemma WaitingTransfers(
    captures: seq<Registration>, idMap: map<Handle, Position>,
    captures': seq<Registration>, idMap': map<Handle, Position>,
    pending: seq<Item>, at: Option<Position>)
    requires Waiting(captures, idMap, pending, at)
    requires forall i :: 0 <= i < |pending| && pending[i].0 in idMap' ==>
      && pending[i].0 in idMap && idMap'[pending[i].0] == idMap[pending[i].0]
      && (EnterOnlyHandle(captures, pending[i].0) ==> EnterOnlyHandle(captures', pending[i].0))
    ensures Waiting(captures', idMap', pending, at)
  {
  }

  lemma FindsOldAfterCreate(captures: seq<Registration>, idMap: map<Handle, Position>, h: Handle, pos: Position,
      kind: CaptureType)
    requires Registered(captures, idMap) && h !in idMap
    ensures var captures' := captures + [Registration(h, pos, kind)];
            && Find(captures', h) == Some(Registration(h, pos, kind))
            && (forall g :: EnterOnlyHandle(captures, g) ==> EnterOnlyHandle(captures', g))
            && (forall g: Handle :: g != h ==> Find(captures', g) == Find(captures, g))
  {
    var captures' := captures + [Registration(h, pos, kind)];
    forall g: Handle
      ensures Find(captures', g) == if g == h then Some(Registration(h, pos, kind)) else Find(captures, g)
    {
      FindAppended(captures, Registration(h, pos, kind), g);
    }
    forall g | EnterOnlyHandle(captures, g)
      ensures EnterOnlyHandle(captures', g)
    {
      FindAppended(captures, Registration(h, pos, kind), g);
    }
  }

  lemma CreateKeepsLayout(t: Task, c: Capture, h: Handle, pos: Position, kind: CaptureType)
    requires Layout(t, c) && h !in c.idMap && (kind == Default ==> pos !in c.positionMap)
    ensures Layout(t.(captures := t.captures + [Registration(h, pos, kind)]), Created(c, h, pos))
  {
    var captures' := t.captures + [Registration(h, pos, kind)];
    CreatedKeepsInverse(c, h, pos);
    CreateKeepsRegistered(t.captures, c.idMap, h, pos, kind);
    FindsOldAfterCreate(t.captures, c.idMap, h, pos, kind);
    CreateKeepsDefaultsFirst(t.captures, captures', c.positionMap, h, pos, kind);
  }

  lemma CreateKeepsWaiting(t: Task, c: Capture, h: Handle, pos: Position, kind: CaptureType, at: Option<Position>)
    requires Registered(t.captures, c.idMap) && h !in c.idMap && !Queued(c.pending, h)
    requires Waiting(t.captures, c.idMap, c.pending, at)
    ensures Waiting(t.captures + [Registration(h, pos, kind)], c.idMap[h := pos], c.pending, at)
  {
    FindsOldAfterCreate(t.captures, c.idMap, h, pos, kind);
    WaitingTransfers(t.captures, c.idMap, t.captures + [Registration(h, pos, kind)], c.idMap[h := pos], c.pending, at);
  }

  lemma CreateKeepsReady(x: Link, h: Handle, pos: Position, kind: CaptureType)
    requires Ready(x) && h !in x.cap.idMap && (kind == Default ==> pos !in x.cap.positionMap)
    requires !Queued(x.cap.pending, h)
    ensures Ready(Link(x.task.(captures := x.task.captures + [Registration(h, pos, kind)]),
                       Created(x.cap, h, pos), x.at))
  {
    CreateKeepsLayout(x.task, x.cap, h, pos, kind);
    CreateKeepsWaiting(x.task, x.cap, h, pos, kind, x.at);
    FindsOldAfterCreate(x.task.captures, x.cap.idMap, h, pos, kind);
    if x.at.Some? {
      var ids := x.cap.positionMap[x.at.value];
      assert ids[0] in ids;
      assert Created(x.cap, h, pos).positionMap[x.at.value][0] == ids[0];
    }
  }

  /** Removing a handle leaves the others in order, so what comes after the first came after the first before. */
  lemma WithoutKeepsFirst(ids: seq<Handle>, h: Handle)
    requires ids != []
    ensures ids[0] != h ==> Without(ids, h) != [] && Without(ids, h)[0] == ids[0]
    ensures forall i :: 0 < i < |Without(ids, h)| ==> Without(ids, h)[i] in ids[1..]
    ensures ids[0] == h && Without(ids, h) != [] ==> Without(ids, h)[0] in ids[1..]
  {
    var rest := Without(ids[1..], h);
    assert forall g :: g in rest ==> g in ids[1..];
    assert ids[0] != h ==> Without(ids, h) == [ids[0]] + rest;
    assert ids[0] == h ==> Without(ids, h) == rest;
  }

  lemma LaterIsEnterOnly(captures: seq<Registration>, positionMap: map<Position, seq<Handle>>, pos: Position, g: Handle)
    requires DefaultsComeFirst(captures, positionMap) && pos in positionMap && positionMap[pos] != []
    requires g in positionMap[pos][1..]
    ensures EnterOnlyHandle(captures, g)
  {
    var ids := positionMap[pos];
    var j :| 0 <= j < |ids[1..]| && ids[1..][j] == g;
    assert ids[j + 1] == g;
  }

  lemma DestroyKeepsDefaultsFirst(
    captures: seq<Registration>, captures': seq<Registration>, positionMap: map<Position, seq<Handle>>,
    h: Handle, pos: Position)
    requires DefaultsComeFirst(captures, positionMap) && pos in positionMap && positionMap[pos] != []
    requires forall p :: p in positionMap && p != pos ==> h !in positionMap[p]
    requires forall g :: g != h && EnterOnlyHandle(captures, g) ==> EnterOnlyHandle(captures', g)
    ensures DefaultsComeFirst(captures', positionMap[pos := Without(positionMap[pos], h)])
    ensures DefaultsComeFirst(captures', positionMap - {pos})
  {
    var remaining := Without(positionMap[pos], h);
    WithoutKeepsFirst(positionMap[pos], h);
    forall i | 0 < i < |remaining|
      ensures EnterOnlyHandle(captures', remaining[i])
    {
      LaterIsEnterOnly(captures, positionMap, pos, remaining[i]);
      assert remaining[i] in remaining;
    }
    forall p, i | p in positionMap && p != pos && 0 < i < |positionMap[p]|
      ensures EnterOnlyHandle(captures', positionMap[p][i])
    {
      assert EnterOnlyHandle(captures, positionMap[p][i]);
      assert positionMap[p][i] in positionMap[p];
    }
  }

  lemma FindsOthersAfterDestroy(captures: seq<Registration>, h: Handle)
    ensures forall g: Handle :: g != h ==> Find(Unregistered(captures, h), g) == Find(captures, g)
    ensures forall g :: g != h && EnterOnlyHandle(captures, g) ==> EnterOnlyHandle(Unregistered(captures, h), g)
  {
    forall g: Handle
      ensures g != h ==> Find(Unregistered(captures, h), g) == Find(captures, g)
    {
      FindUnregistered(captures, h, g);
    }
    forall g | g != h && EnterOnlyHandle(captures, g)
      ensures EnterOnlyHandle(Unregistered(captures, h), g)
    {
      FindUnregistered(captures, h, g);
    }
  }

  lemma DestroyKeepsLayout(t: Task, c: Capture, h: Handle)
    requires Layout(t, c) && h in c.idMap
    ensures Layout(t.(captures := Unregistered(t.captures, h)), Destroyed(c, h))
  {
    var pos := c.idMap[h];
    DestroyedKeepsInverse(c, h);
    DestroyKeepsRegistered(t.captures, c.idMap, h);
    FindsOthersAfterDestroy(t.captures, h);
    DestroyKeepsDefaultsFirst(t.captures, Unregistered(t.captures, h), c.positionMap, h, pos);
  }

  lemma DestroyKeepsHead(c: Capture, h: Handle, p: Position)
    requires h in c.idMap && p in c.positionMap && c.positionMap[p] != [] && c.positionMap[p][0] != h
    ensures var positionMap' := Destroyed(c, h).positionMap;
            p in positionMap' && positionMap'[p] != [] && positionMap'[p][0] == c.positionMap[p][0]
  {
    WithoutKeepsFirst(c.positionMap[p], h);
  }

  lemma DestroyKeepsEngaged(x: Link, h: Handle)
    requires Engaged(x) && h in x.cap.idMap && x.task.active != Some(h)
    ensures Engaged(Link(x.task.(captures := Unregistered(x.task.captures, h)), Destroyed(x.cap, h), x.at))
  {
    if x.at.Some? {
      DestroyKeepsHead(x.cap, h, x.at.value);
      FindUnregistered(x.task.captures, h, x.cap.positionMap[x.at.value][0]);
    }
  }

  lemma DestroyKeepsWaiting(t: Task, c: Capture, h: Handle, at: Option<Position>)
    requires Waiting(t.captures, c.idMap, c.pending, at)
    ensures Waiting(Unregistered(t.captures, h), c.idMap - {h}, c.pending, at)
  {
    FindsOthersAfterDestroy(t.captures, h);
    WaitingTransfers(t.captures, c.idMap, Unregistered(t.captures, h), c.idMap - {h}, c.pending, at);
  }

  lemma DestroyKeepsReady(x: Link, h: Handle)
    requires Ready(x) && h in x.cap.idMap && x.task.active != Some(h)
    ensures Ready(Link(x.task.(captures := Unregistered(x.task.captures, h)), Destroyed(x.cap, h), x.at))
  {
    DestroyKeepsEngaged(x, h);
    DestroyKeepsLayout(x.task, x.cap, h);
    DestroyKeepsWaiting(x.task, x.cap, h, x.at);
  }

  lemma ReadyForgets(x: Link, pos: Position)
    requires Ready(x)
    ensures Ready(x.(cap := Forgotten(x.cap, pos)))
  {
  }

  lemma DestroyRequestResult(host: Host, x: Link, h: Handle, order: seq<u32>)
    requires Runs(host, x, Service(DestroyCapture(h), order))
    ensures Next(host, x, Service(DestroyCapture(h), order))
            == var c' := Destroyed(x.cap, h);
               Link(x.task.(captures := Unregistered(x.task.captures, h)),
                    Forgotten(c', Find(x.task.captures, h).value.pos),
                    if x.at == Some(x.cap.idMap[h]) && x.at.value !in c'.positionMap then None else x.at)
  {
  }

  lemma CreateRequestResult(host: Host, x: Link, h: Handle, pos: Position, kind: CaptureType, order: seq<u32>)
    requires Runs(host, x, Service(CreateCapture(h, pos, kind), order))
    ensures Next(host, x, Service(CreateCapture(h, pos, kind), order))
            == Link(x.task.(captures := x.task.captures + [Registration(h, pos, kind)]), Created(x.cap, h, pos), x.at)
  {
  }

  lemma ServiceKeepsReady(host: Host, x: Link, r: Request, order: seq<u32>)
    requires Ready(x) && Runs(host, x, Service(r, order)) && Careful(x, r)
    ensures Ready(Next(host, x, Service(r, order)))
  {
    match r
    case ReleaseForHandover => TearsDown(host, x.task, x.cap, order, false);
    case CreateCapture(h, pos, kind) =>
      CreateRequestResult(host, x, h, pos, kind, order);
      CreateKeepsReady(x, h, pos, kind);
    case DestroyCapture(h) =>
      DestroyRequestResult(host, x, h, order);
      DestroyKeepsReady(x, h);
      if x.at.Some? { DestroyKeepsHead(x.cap, h, x.at.value); }
      ReadyForgets(Link(x.task.(captures := Unregistered(x.task.captures, h)), Destroyed(x.cap, h), x.at),
                   Find(x.task.captures, h).value.pos);
    case _ =>
  }

  lemma ServiceEffect(host: Host, x: Link, r: Request, order: seq<u32>) returns (f: F.Effect)
    requires Runs(host, x, Service(r, order))
    ensures var x' := Next(host, x, Service(r, order));
            && F.Enabled(FlowOf(x.task, x.cap), f) && FlowOf(x'.task, x'.cap) == F.Step(FlowOf(x.task, x.cap), f)
    ensures f.Nothing? || f == F.Release(order) || (r.SetReleaseBind? && f == F.Rebind(r.bind))
  {
    match r
    case ReleaseForHandover => f := F.Release(order);
    case SetReleaseBind(bind) => f := F.Rebind(bind);
    case _ => f := F.Nothing;
  }

  //
  // Whole sessions
  //

  ghost predicate Run(host: Host, steps: seq<Step>, states: seq<Link>) {
    && |states| == |steps| + 1
    && (exists bind :: states[0] == Link(Task([], None, bind, [], []), CaptureState.FRESH, None))
    && forall n {:trigger steps[n]} :: 0 <= n < |steps| ==>
        Allowed(host, states[n], steps[n]) && states[n + 1] == Next(host, states[n], steps[n])
  }

  /** Key events the backend delivers go down by state 1 on a code that names a scancode, and up by state 0. */
  predicate Spoken(s: Step) {
    s.Poll? && s.arrival.Arrived? && s.arrival.event.Key? ==> F.Agreed(s.arrival.event.code, s.arrival.event.state)
  }

  /** With a client controlled, the release bind is not changed so that it is fully down and some other key too. */
  predicate Considerate(x: Link, s: Step) {
    s.Service? && s.request.SetReleaseBind? && x.task.active.Some? ==> !F.Overfull(x.cap.pressedKeys, s.request.bind)
  }

  /** The backend delivers the key-up of a pressed key, and the keys still pressed are the whole chord. */
  predicate ChordsOnKeyUp(x: Link, s: Step) {
    && s.Poll? && Consumes(x.cap, s.elapsed, s.arrival) && s.arrival.event.Key? && s.arrival.event.state == 0
    && s.arrival.event.code in x.cap.pressedKeys
    && KeysPressed(KeyUpdate(x.cap.pressedKeys, s.arrival.event.code, 0), x.task.releaseBind)
  }

  function Flows(states: seq<Link>): (fs: seq<F.Flow>)
    ensures |fs| == |states|
  {
    seq(|states|, n requires 0 <= n < |states| => FlowOf(states[n].task, states[n].cap))
  }

  lemma StepEffect(host: Host, x: Link, s: Step) returns (f: F.Effect)
    requires Ready(x) && Allowed(host, x, s)
    ensures Ready(Next(host, x, s))
    ensures var x' := Next(host, x, s);
            && F.Enabled(FlowOf(x.task, x.cap), f) && FlowOf(x'.task, x'.cap) == F.Step(FlowOf(x.task, x.cap), f)
    ensures Spoken(s) ==> F.Spoken(f)
    ensures Considerate(x, s) ==> F.Considerate(FlowOf(x.task, x.cap), f)
    ensures ChordsOnKeyUp(x, s) <==> F.ChordsOnKeyUp(FlowOf(x.task, x.cap), f)
  {
    match s
    case Poll(elapsed, arrival, order) => f := PollEffect(host, x, elapsed, arrival, order);
    case Peer(h, m, order) => f := PeerEffect(host, x, h, m, order);
    case Service(r, order) =>
      ServiceKeepsReady(host, x, r, order);
      f := ServiceEffect(host, x, r, order);
  }

  /** `effects` is what the first `n` steps do to the key flow. */
  ghost predicate Mirrors(effects: seq<F.Effect>, steps: seq<Step>, states: seq<Link>, n: nat)
    requires n <= |steps| < |states|
  {
    && |effects| == n
    && F.Run(effects, Flows(states[..n + 1]))
    && (forall i :: 0 <= i < n && Spoken(steps[i]) ==> F.Spoken(effects[i]))
    && (forall i :: 0 <= i < n && Considerate(states[i], steps[i]) ==>
        F.Considerate(Flows(states[..n + 1])[i], effects[i]))
    && (forall i :: 0 <= i < n ==>
        (ChordsOnKeyUp(states[i], steps[i]) <==> F.ChordsOnKeyUp(Flows(states[..n + 1])[i], effects[i])))
  }

  lemma {:induction false} RunMirrors(host: Host, steps: seq<Step>, states: seq<Link>,
      n: nat)
    returns (effects: seq<F.Effect>)
    requires Run(host, steps, states) && n <= |steps|
    ensures Ready(states[n]) && Mirrors(effects, steps, states, n)
  {
    if n == 0 {
      effects := [];
    } else {
      var before := RunMirrors(host, steps, states, n - 1);
      assert Allowed(host, states[n - 1], steps[n - 1]);
      var f := StepEffect(host, states[n - 1], steps[n - 1]);
      effects := before + [f];
      MirrorExtends(host, before, f, steps, states, n);
    }
  }

  lemma MirrorExtends(host: Host, before: seq<F.Effect>, f: F.Effect, steps: seq<Step>, states: seq<Link>, n: nat)
    requires 0 < n <= |steps| < |states| && Mirrors(before, steps, states, n - 1)
    requires var x, x' := states[n - 1], states[n];
             && F.Enabled(FlowOf(x.task, x.cap), f) && FlowOf(x'.task, x'.cap) == F.Step(FlowOf(x.task, x.cap), f)
             && (Spoken(steps[n - 1]) ==> F.Spoken(f))
             && (Considerate(x, steps[n - 1]) ==> F.Considerate(FlowOf(x.task, x.cap), f))
             && (ChordsOnKeyUp(x, steps[n - 1]) <==> F.ChordsOnKeyUp(FlowOf(x.task, x.cap), f))
    ensures Mirrors(before + [f], steps, states, n)
  {
    var effects, flows, oldFlows := before + [f], Flows(states[..n + 1]), Flows(states[..n]);
    assert forall i :: 0 <= i < n ==> flows[i] == oldFlows[i];
    forall i | 0 <= i < n
      ensures F.Enabled(flows[i], effects[i]) && flows[i + 1] == F.Step(flows[i], effects[i])
      ensures Spoken(steps[i]) ==> F.Spoken(effects[i])
      ensures Considerate(states[i], steps[i]) ==> F.Considerate(flows[i], effects[i])
      ensures ChordsOnKeyUp(states[i], steps[i]) <==> F.ChordsOnKeyUp(flows[i], effects[i])
    {
      if i < n - 1 { assert effects[i] == before[i]; }
    }
  }

  //
  // Main results
  //

  /**
   In every reachable state, clients that are not being controlled hold nothing once they have read their
   messages; nobody is being controlled unless the backend captures, so after every release by chord,
   AutoRelease, peer Leave or handover nothing is held anywhere; and no client is left twice without having been
   entered in between.
   */
  lemma NoStuckKeys(host: Host, steps: seq<Step>, states: seq<Link>, n: nat, c: Client)
    requires Run(host, steps, states) && n <= |steps|
    ensures var x := states[n];
            && (x.task.active != Some(c) ==> Held(x.task.sent, c) == {})
            && (x.at.None? ==> x.task.active.None? && x.cap.pressedKeys == {} && Held(x.task.sent, c) == {})
            && Inside(x.task.sent, c) == Some(x.task.active == Some(c))
  {
    var effects := RunMirrors(host, steps, states, n);
    F.RunStaysSettled(effects, Flows(states[..n + 1]), n);
    assert Flows(states[..n + 1])[n] == FlowOf(states[n].task, states[n].cap);
  }

  /**
   When every key event is one both sides read the same way, the client being controlled holds exactly the keys
   pressed on the host.
   */
  lemma HeldKeysArePressed(host: Host, steps: seq<Step>, states: seq<Link>, n: nat, c: Client)
    requires Run(host, steps, states) && n <= |steps|
    requires forall i :: 0 <= i < n ==> Spoken(steps[i])
    ensures Held(states[n].task.sent, c) == if states[n].task.active == Some(c) then states[n].cap.pressedKeys else {}
  {
    var effects := RunMirrors(host, steps, states, n);
    NoStuckKeys(host, steps, states, n, c);
    F.RunStaysMatched(effects, Flows(states[..n + 1]), n);
    assert Flows(states[..n + 1])[n] == FlowOf(states[n].task, states[n].cap);
  }

  /** And then every Leave follows key-ups for all its client held and zero modifiers, so losing it sticks no key. */
  lemma LeavesAreClean(host: Host, steps: seq<Step>, states: seq<Link>, n: nat)
    requires Run(host, steps, states) && n <= |steps|
    requires forall i :: 0 <= i < n ==> Spoken(steps[i]) && Considerate(states[i], steps[i])
    ensures CleanLeaves(states[n].task.sent)
  {
    var effects := RunMirrors(host, steps, states, n);
    F.RunStaysClean(effects, Flows(states[..n + 1]), n);
    assert Flows(states[..n + 1])[n] == FlowOf(states[n].task, states[n].cap);
  }

  /** Whatever happens to the bind, the Leaves so far are clean exactly when no key-up has completed the chord. */
  lemma LeavesAreCleanExactly(host: Host, steps: seq<Step>, states: seq<Link>, n: nat)
    requires Run(host, steps, states) && n <= |steps|
    requires forall i :: 0 <= i < n ==> Spoken(steps[i])
    ensures CleanLeaves(states[n].task.sent) <==> forall i :: 0 <= i < n ==> !ChordsOnKeyUp(states[i], steps[i])
  {
    var effects := RunMirrors(host, steps, states, n);
    F.RunCleanExactlyWhenSpoken(effects, Flows(states[..n + 1]), n);
    assert Flows(states[..n + 1])[n] == FlowOf(states[n].task, states[n].cap);
  }

  /** The same at the far end: the emulator of a client that has read all it was sent holds no key it should not. */
  lemma DrainedClientHoldsOnlyPressedKeys(
    host: Host, steps: seq<Step>, states: seq<Link>, n: nat, c: Client,
    read: seq<ClientStep>, sessions: seq<S.Session>, addr: S.Address, macos: bool)
    requires Run(host, steps, states) && n <= |steps|
    requires forall i :: 0 <= i < n ==> Spoken(steps[i])
    requires ClientRun(read, sessions, addr, macos) && ReadBy(read) == SentTo(states[n].task.sent, c)
    ensures S.HeldBy(sessions[|read|], addr) <= states[n].cap.pressedKeys
    ensures states[n].task.active != Some(c) ==> S.HeldBy(sessions[|read|], addr) == {}
  {
    HeldKeysArePressed(host, steps, states, n, c);
    DrainedClientHolds(states[n].task.sent, c, read, sessions, addr, macos);
  }
}
