/**
 Destroying the capture of the client being controlled strands that client: it is never left, and what it holds stays
 held as soon as another client is entered. Every other destruction, and that one too if the client holds nothing at
 the time, keeps all continuations free of stuck keys.
 */
module KeyLinkStranding {
  import opened Wrappers
  import opened Bytes
  import opened Collections
  import opened Positions
  import opened CaptureModel
  import opened CaptureState
  import opened CaptureSession
  import opened KeyLog
  import opened KeyLink
  import opened KeyLinkLayouts
  import opened KeyLinkDestroy
  import F = KeyFlow
  import E = EmulationState

  //
  // An invariant that survives a stale active client
  //

  /** Clients other than the active one hold nothing. */
  ghost predicate OthersFree(t: Task) {
    forall c: Client :: t.active != Some(c) ==> Held(t.sent, c) == {}
  }

  /** If a client counts as active, it holds nothing. */
  ghost predicate Harmless(t: Task) {
    t.active.Some? ==> Held(t.sent, t.active.value) == {}
  }

  /** Where a Default handle is being captured its client is active; anywhere else an active client is harmless. */
  ghost predicate Poised(x: Link) {
    match x.at
    case None => Harmless(x.task)
    case Some(pos) =>
      && pos in x.cap.positionMap && x.cap.positionMap[pos] != []
      && if IsDefaultAt(x.task.captures, pos) then x.task.active == Some(x.cap.positionMap[pos][0])
         else Harmless(x.task)
  }

  ghost predicate Sound(x: Link) {
    && Layout(x.task, x.cap) && Waiting(x.task.captures, x.cap.idMap, x.cap.pending, x.at)
    && OthersFree(x.task) && Poised(x)
  }

  lemma {:induction false} KeyUpsHold(log: seq<Sent>, c: Client, order: seq<u32>, d: Client)
    requires d != c
    ensures Held(log + KeyUps(c, order), d) == Held(log, d)
  {
    if order == [] {
      assert log + KeyUps(c, order) == log;
    } else {
      var first, last := order[..|order| - 1], order[|order| - 1];
      assert order == first + [last];
      KeyUpsHold(log, c, first, d);
      F.KeyUpsSnoc(log, c, first, last);
      Appended(log + KeyUps(c, first), (c, Input(E.Key(last, 0))), d);
    }
  }

  lemma FarewellHolds(log: seq<Sent>, c: Client, order: seq<u32>, d: Client)
    ensures Held(log + Farewell(c, order), d) == if d == c then {} else Held(log, d)
  {
    var log1 := log + KeyUps(c, order);
    assert log + Farewell(c, order) == (log1 + [(c, KEYS_LIFTED)]) + [(c, Leave)];
    Appended(log1, (c, KEYS_LIFTED), d);
    Appended(log1 + [(c, KEYS_LIFTED)], (c, Leave), d);
    if d != c { KeyUpsHold(log, c, order, d); }
  }

  lemma NotifiedFreesAll(t: Task, order: seq<u32>)
    requires OthersFree(t)
    ensures OthersFree(Notified(t, order)) && Harmless(Notified(t, order))
  {
    if t.active.Some? {
      forall d: Client
        ensures Held(Notified(t, order).sent, d) == {}
      {
        FarewellHolds(t.sent, t.active.value, order, d);
      }
    }
  }

  lemma TearDownIsSound(host: Host, t: Task, c: Capture, order: seq<u32>, warping: bool)
    requires Layout(t, c) && Waiting(t.captures, c.idMap, c.pending, None) && OthersFree(t)
    ensures var (t2, c2) := TornDown(host, t, c, order, warping); Sound(Link(t2, c2, None))
  {
    NotifiedFreesAll(t, order);
  }

  /** A message and perhaps a cursor change at most what their own client holds, and only if the message is input. */
  lemma MessageHolds(log: seq<Sent>, c: Client, m: Msg, cursor: seq<Msg>, d: Client)
    requires m.Input? || m.Enter?
    requires |cursor| <= 1 && forall i :: 0 <= i < |cursor| ==> cursor[i].CursorPos?
    requires d != c || m.Enter?
    ensures Held(log + [(c, m)] + SentTogether(c, cursor), d) == Held(log, d)
  {
    var log1 := log + [(c, m)];
    Appended(log, (c, m), d);
    if cursor == [] {
      assert log1 + SentTogether(c, cursor) == log1;
    } else {
      Appended(log1, (c, cursor[0]), d);
      assert SentTogether(c, cursor) == [(c, cursor[0])];
    }
  }

  /** The event's message changes what its own client holds, and a Begin not even that. */
  lemma ForwardHolds(host: Host, t: Task, c: Capture, reg: Registration, e: Event, d: Client)
    requires !e.AutoRelease?
    ensures var (t2, c2) := Forwarded(host, t, c, reg, e, true);
            && c2 == c && t2.captures == t.captures
            && t2.active == (if e.Begin? then Some(reg.handle) else t.active)
            && (d != reg.handle || e.Begin? ==> Held(t2.sent, d) == Held(t.sent, d))
  {
    var entry := reg.pos.Opposite();
    if d != reg.handle || e.Begin? {
      MessageHolds(t.sent, reg.handle, MessageFor(e, entry), CursorMessage(host, e, entry), d);
    }
  }

  //
  // Steps
  //

  /** A copy for an EnterOnly handle, or any that is not looked up. */
  lemma EnterOnlyIsSound(host: Host, x: Link, h: Handle, e: Event, order: seq<u32>)
    requires Sound(x) && (LooksUp(x.task, x.cap, e) ==> EnterOnlyHandle(x.task.captures, h))
    requires x.at.Some? && h in x.cap.idMap ==> x.cap.idMap[h] == x.at.value
    ensures var (t2, c2) := Handled(host, x.task, x.cap, h, e, order, true);
            Sound(Link(t2, c2, AfterCalls(x.at, x.cap.calls, c2.calls)))
  {
    if !LooksUp(x.task, x.cap, e) {
      TearDownIsSound(host, x.task, x.cap, order, true);
    } else {
      assert h in x.cap.idMap;
      EnterOnlyStaysSound(host, x, h, e, order);
    }
  }

  lemma EnterOnlyStaysSound(host: Host, x: Link, h: Handle, e: Event, order: seq<u32>)
    requires Sound(x) && LooksUp(x.task, x.cap, e) && EnterOnlyHandle(x.task.captures, h)
    requires h in x.cap.idMap && (x.at.Some? ==> x.cap.idMap[h] == x.at.value)
    ensures var (t2, c2) := Handled(host, x.task, x.cap, h, e, order, true);
            Sound(Link(t2, c2, AfterCalls(x.at, x.cap.calls, c2.calls)))
  {
  }

  lemma BeginIsSound(host: Host, t: Task, c: Capture, pos: Position, cursor: Option<Pixel>, order: seq<u32>)
    requires Layout(t, c) && OthersFree(t) && Harmless(t) && pos in c.positionMap
    requires Waiting(t.captures, c.idMap, c.pending, Some(pos))
    requires Find(t.captures, c.positionMap[pos][0]).Some?
    ensures var (t2, c2) := Handled(host, t, c, c.positionMap[pos][0], Event.Begin(cursor), order, true);
            Sound(Link(t2, c2, AfterCalls(Some(pos), c.calls, c2.calls)))
  {
    var first, e := c.positionMap[pos][0], Event.Begin(cursor);
    DefaultIsFound(t, c, pos);
    if !LooksUp(t, c, e) {
      TearDownIsSound(host, t, c, order, true);
    } else if IsDefaultAt(t.captures, pos) {
      DefaultBeginIsSound(host, t.(notices := t.notices + [CaptureBegin(first)]), c, pos, cursor);
    } else {
      EnterOnlyStaysSound(host, Link(t, c, Some(pos)), first, e, order);
    }
  }

  lemma DefaultBeginIsSound(host: Host, t: Task, c: Capture, pos: Position, cursor: Option<Pixel>)
    requires Layout(t, c) && OthersFree(t) && Harmless(t) && pos in c.positionMap
    requires Waiting(t.captures, c.idMap, c.pending, Some(pos)) && IsDefaultAt(t.captures, pos)
    requires Find(t.captures, c.positionMap[pos][0]).Some?
    ensures var reg := Find(t.captures, c.positionMap[pos][0]).value;
            var (t2, c2) := Forwarded(host, t, c, reg, Event.Begin(cursor), true);
            c2 == c && Sound(Link(t2, c, Some(pos)))
  {
    var reg := Find(t.captures, c.positionMap[pos][0]).value;
    var (t2, c2) := Forwarded(host, t, c, reg, Event.Begin(cursor), true);
    ForwardHolds(host, t, c, reg, Event.Begin(cursor), 0);
    forall d: Client
      ensures Held(t2.sent, d) == {}
    {
      ForwardHolds(host, t, c, reg, Event.Begin(cursor), d);
    }
  }

  lemma InputIsSound(host: Host, t: Task, c: Capture, pos: Position, e: Event, order: seq<u32>)
    requires !e.Begin? && Sound(Link(t, c, Some(pos))) && Find(t.captures, c.positionMap[pos][0]).Some?
    ensures var (t2, c2) := Handled(host, t, c, c.positionMap[pos][0], e, order, true);
            Sound(Link(t2, c2, AfterCalls(Some(pos), c.calls, c2.calls)))
  {
    var first := c.positionMap[pos][0];
    DefaultIsFound(t, c, pos);
    if !LooksUp(t, c, e) {
      TearDownIsSound(host, t, c, order, true);
    } else if IsDefaultAt(t.captures, pos) {
      DefaultInputIsSound(host, t, c, pos, e);
    } else {
      EnterOnlyStaysSound(host, Link(t, c, Some(pos)), first, e, order);
    }
  }

  lemma DefaultInputIsSound(host: Host, t: Task, c: Capture, pos: Position, e: Event)
    requires !e.Begin? && !e.AutoRelease? && Sound(Link(t, c, Some(pos))) && IsDefaultAt(t.captures, pos)
    requires Find(t.captures, c.positionMap[pos][0]).Some?
    ensures var (t2, c2) := Forwarded(host, t, c, Find(t.captures, c.positionMap[pos][0]).value, e, true);
            c2 == c && Sound(Link(t2, c, Some(pos)))
  {
    var reg := Find(t.captures, c.positionMap[pos][0]).value;
    var (t2, c2) := Forwarded(host, t, c, reg, e, true);
    ForwardHolds(host, t, c, reg, e, 0);
    forall d: Client | t2.active != Some(d)
      ensures Held(t2.sent, d) == {}
    {
      ForwardHolds(host, t, c, reg, e, d);
    }
  }

  lemma BackendIsSound(host: Host, x: Link, arrival: Arrival, order: seq<u32>)
    requires Sound(x) && x.cap.pending == []
    requires arrival.Arrived? ==>
               match arrival.event
               case Begin(_) => x.at.None? && arrival.pos in x.cap.positionMap
               case AutoRelease => true
               case _ => x.at == Some(arrival.pos)
    requires var (c1, out) := PollBackend(host, x.cap, arrival); CanDispatch(x.task, c1, out, order)
    ensures var (c1, out) := PollBackend(host, x.cap, arrival);
            var (t2, c2) := Dispatched(host, x.task, c1, out, order);
            var at := if arrival.Arrived? && arrival.event.Begin? then Some(arrival.pos) else x.at;
            Sound(Link(t2, c2, AfterCalls(at, x.cap.calls, c2.calls)))
  {
    var (c1, out) := PollBackend(host, x.cap, arrival);
    if arrival.Arrived? && HandlesAt(x.cap.positionMap, arrival.pos) != [] {
      var pos, e := arrival.pos, arrival.event;
      assert out == Yield((x.cap.positionMap[pos][0], e));
      assert c1.pending == Copies(x.cap.positionMap[pos], e)[1..];
      ArrivalIsSound(host, x, c1, pos, e, order);
    } else {
      SameKeysSameSound(x, x.(cap := c1));
    }
  }

  lemma ArrivalIsSound(host: Host, x: Link, c1: Capture, pos: Position, e: Event, order: seq<u32>)
    requires Sound(x) && x.cap.pending == [] && pos in x.cap.positionMap && x.cap.positionMap[pos] != []
    requires match e
             case Begin(_) => x.at.None?
             case AutoRelease => true
             case _ => x.at == Some(pos)
    requires c1.pending == Copies(x.cap.positionMap[pos], e)[1..] && c1.calls == x.cap.calls
    requires c1.idMap == x.cap.idMap && c1.positionMap == x.cap.positionMap
    requires LooksUp(x.task, c1, e) ==> Find(x.task.captures, x.cap.positionMap[pos][0]).Some?
    ensures var (t2, c2) := Handled(host, x.task, c1, x.cap.positionMap[pos][0], e, order, true);
            Sound(Link(t2, c2, AfterCalls(if e.Begin? then Some(pos) else x.at, x.cap.calls, c2.calls)))
  {
    RestWaits(x.task, x.cap, pos, e);
    DefaultIsFound(x.task, x.cap, pos);
    match e
    case AutoRelease => TearDownIsSound(host, x.task, c1, order, true);
    case Begin(cursor) => BeginIsSound(host, x.task, c1, pos, cursor, order);
    case _ => InputIsSound(host, x.task, c1, pos, e, order);
  }

  lemma QueueIsSound(host: Host, x: Link, order: seq<u32>)
    requires Sound(x) && x.cap.pending != []
    requires var (c1, out) := Popped(x.cap); CanDispatch(x.task, c1, out, order)
    ensures var (c1, out) := Popped(x.cap);
            var (t2, c2) := Dispatched(host, x.task, c1, out, order);
            Sound(Link(t2, c2, AfterCalls(x.at, x.cap.calls, c2.calls)))
  {
    var (c1, out) := Popped(x.cap);
    EnterOnlyIsSound(host, Link(x.task, c1, x.at), x.cap.pending[0].0, x.cap.pending[0].1, order);
  }

  lemma FiredIsSound(host: Host, x: Link, order: seq<u32>, c1: Capture)
    requires Sound(x) && x.cap.pending == [] && FiredCopies(x.cap) != []
    requires c1 == x.cap.(wall := x.cap.wall.(pressPending := false), pending := FiredCopies(x.cap))
    requires var (c2, out) := Popped(c1); CanDispatch(x.task, c2, out, order)
    ensures var (c2, out) := Popped(c1);
            var (t3, c3) := Dispatched(host, x.task, c2, out, order);
            Sound(Link(t3, c3, AfterCalls(x.at, x.cap.calls, c3.calls)))
  {
    var (c2, out) := Popped(c1);
    RestWaits(x.task, x.cap, x.cap.wall.capturePos.value, AutoRelease);
    TearDownIsSound(host, x.task, c2, order, true);
  }

  lemma PollIsSound(host: Host, x: Link, elapsed: bool, arrival: Arrival, order: seq<u32>)
    requires Sound(x) && Allowed(host, x, Poll(elapsed, arrival, order))
    ensures Sound(Next(host, x, Poll(elapsed, arrival, order)))
  {
    if x.cap.pending != [] {
      assert Polled(host, x.cap, elapsed, arrival) == Popped(x.cap);
      QueueIsSound(host, x, order);
    } else if Fires(x.cap, elapsed) {
      var c1 := x.cap.(wall := x.cap.wall.(pressPending := false), pending := FiredCopies(x.cap));
      if FiredCopies(x.cap) != [] {
        FiredIsSound(host, x, order, c1);
      } else {
        BackendIsSound(host, Link(x.task, c1, x.at), arrival, order);
      }
    } else {
      BackendIsSound(host, x, arrival, order);
    }
  }

  lemma PeerIsSound(host: Host, x: Link, h: Handle, m: PeerMsg, order: seq<u32>)
    requires Sound(x) && Runs(host, x, Peer(h, m, order))
    ensures Sound(Next(host, x, Peer(h, m, order)))
  {
    if Heeded(x.task, h) && m.PeerLeave? {
      TearDownIsSound(host, x.task, x.cap, order, false);
    } else {
      SameKeysSameSound(x, Next(host, x, Peer(h, m, order)));
    }
  }

  lemma SameKeysSameSound(x: Link, y: Link)
    requires Sound(x) && y.at == x.at && y.task == x.task.(notices := y.task.notices)
    requires y.cap.idMap == x.cap.idMap && y.cap.positionMap == x.cap.positionMap && y.cap.pending == x.cap.pending
    ensures Sound(y)
  {
  }

  //
  // Requests
  //

  lemma CreateIsSound(x: Link, h: Handle, pos: Position, kind: CaptureType)
    requires Sound(x) && h !in x.cap.idMap && !Queued(x.cap.pending, h)
    requires kind == Default ==> pos !in x.cap.positionMap
    ensures Sound(Link(x.task.(captures := x.task.captures + [Registration(h, pos, kind)]),
                       Created(x.cap, h, pos), x.at))
  {
    CreateKeepsLayout(x.task, x.cap, h, pos, kind);
    CreateKeepsWaiting(x.task, x.cap, h, pos, kind, x.at);
    if x.at.Some? {
      CreateKeepsPoised(x, h, pos, kind);
    }
  }

  lemma CreateKeepsPoised(x: Link, h: Handle, pos: Position, kind: CaptureType)
    requires Poised(x) && x.at.Some? && (kind == Default ==> pos !in x.cap.positionMap)
    ensures Poised(Link(x.task.(captures := x.task.captures + [Registration(h, pos, kind)]),
                        Created(x.cap, h, pos), x.at))
  {
    var captures, captures' := x.task.captures, x.task.captures + [Registration(h, pos, kind)];
    DefaultAtAfterCreate(captures, Registration(h, pos, kind), x.at.value);
    assert Created(x.cap, h, pos).positionMap[x.at.value][0] == x.cap.positionMap[x.at.value][0];
  }

  lemma DefaultAtAfterCreate(captures: seq<Registration>, reg: Registration, pos: Position)
    ensures IsDefaultAt(captures + [reg], pos)
            <==> IsDefaultAt(captures, pos) || (reg.pos == pos && reg.kind == Default)
  {
    var captures' := captures + [reg];
    if IsDefaultAt(captures, pos) {
      var i :| 0 <= i < |captures| && captures[i].pos == pos && captures[i].kind == Default;
      assert captures'[i] == captures[i];
    }
    assert captures'[|captures|] == reg;
  }

  /** The request, without what the wrapper forgets about the position. */
  function AfterDestroy(x: Link, h: Handle): Link
    requires h in x.cap.idMap
  {
    Link(x.task.(captures := Unregistered(x.task.captures, h)), Destroyed(x.cap, h),
         if x.at == Some(x.cap.idMap[h]) && x.at.value !in Destroyed(x.cap, h).positionMap then None else x.at)
  }

  lemma DestroyKeepsPoised(x: Link, h: Handle)
    requires Sound(x) && h in x.cap.idMap && (x.task.active != Some(h) || Harmless(x.task))
    ensures Poised(AfterDestroy(x, h))
  {
    var y := AfterDestroy(x, h);
    DestroyKeepsLayout(x.task, x.cap, h);
    if x.at.Some? {
      var pos := x.at.value;
      DefaultIsFound(x.task, x.cap, pos);
      var first := x.cap.positionMap[pos][0];
      assert first in x.cap.positionMap[pos];
      if pos in y.cap.positionMap {
        DefaultIsFound(y.task, y.cap, pos);
        HeadAfterDestroy(x, h, pos);
      }
    }
  }

  /** Where a position survives, its first handle does too, unless it is the one destroyed. */
  lemma HeadAfterDestroy(x: Link, h: Handle, pos: Position)
    requires Layout(x.task, x.cap) && h in x.cap.idMap && pos in x.cap.positionMap
    requires pos in Destroyed(x.cap, h).positionMap
    ensures var first, first' := x.cap.positionMap[pos][0], Destroyed(x.cap, h).positionMap[pos][0];
            && (first != h ==>
                first' == first && Find(Unregistered(x.task.captures, h), first) == Find(x.task.captures, first))
            && (first == h ==> EnterOnlyHandle(Unregistered(x.task.captures, h), first'))
  {
    var first := x.cap.positionMap[pos][0];
    if first != h {
      DestroyKeepsHead(x.cap, h, pos);
      FindUnregistered(x.task.captures, h, first);
    } else {
      assert first in x.cap.positionMap[pos];
      HeadIsReplaced(x.task.captures, x.cap.positionMap, h, pos);
    }
  }

  lemma HeadIsReplaced(captures: seq<Registration>, positionMap: map<Position, seq<Handle>>, h: Handle, pos: Position)
    requires DefaultsComeFirst(captures, positionMap) && pos in positionMap && positionMap[pos] != []
    requires positionMap[pos][0] == h && Without(positionMap[pos], h) != []
    ensures EnterOnlyHandle(Unregistered(captures, h), Without(positionMap[pos], h)[0])
  {
    var first := Without(positionMap[pos], h)[0];
    WithoutKeepsFirst(positionMap[pos], h);
    LaterIsEnterOnly(captures, positionMap, pos, first);
    assert first in Without(positionMap[pos], h);
    FindUnregistered(captures, h, first);
  }

  lemma DestroyIsSound(x: Link, h: Handle)
    requires Sound(x) && h in x.cap.idMap && (x.task.active != Some(h) || Harmless(x.task))
    ensures Sound(AfterDestroy(x, h))
  {
    DestroyKeepsLayout(x.task, x.cap, h);
    DestroyKeepsWaiting(x.task, x.cap, h, x.at);
    DestroyKeepsPoised(x, h);
  }

  lemma SoundForgets(x: Link, pos: Position)
    requires Sound(x)
    ensures Sound(x.(cap := Forgotten(x.cap, pos)))
  {
  }

  lemma DestroyRequestIsSound(host: Host, x: Link, h: Handle, order: seq<u32>)
    requires Sound(x) && Runs(host, x, Service(DestroyCapture(h), order))
    requires x.task.active != Some(h) || Harmless(x.task)
    ensures Sound(Next(host, x, Service(DestroyCapture(h), order)))
  {
    DestroyRequestResult(host, x, h, order);
    DestroyIsSound(x, h);
    SoundForgets(AfterDestroy(x, h), Find(x.task.captures, h).value.pos);
  }

  lemma ServiceIsSound(host: Host, x: Link, r: Request, order: seq<u32>)
    requires Sound(x) && Runs(host, x, Service(r, order)) && Careful(x, r)
    ensures Sound(Next(host, x, Service(r, order)))
  {
    match r
    case ReleaseForHandover => TearDownIsSound(host, x.task, x.cap, order, false);
    case CreateCapture(h, pos, kind) =>
      CreateRequestResult(host, x, h, pos, kind, order);
      CreateIsSound(x, h, pos, kind);
    case DestroyCapture(h) => DestroyRequestIsSound(host, x, h, order);
    case _ =>
  }

  lemma {:induction false} PathStaysSound(host: Host, x: Link, steps: seq<Step>, states: seq<Link>, n: nat)
    requires Sound(x) && Path(host, x, steps, states) && n <= |steps|
    ensures Sound(states[n])
  {
    if n > 0 {
      PathStaysSound(host, x, steps, states, n - 1);
      PathStep(host, x, steps, states, n - 1);
      StepIsSound(host, states[n - 1], steps[n - 1]);
    }
  }

  lemma StepIsSound(host: Host, x: Link, s: Step)
    requires Sound(x) && Allowed(host, x, s)
    ensures Sound(Next(host, x, s))
  {
    match s
    case Poll(elapsed, arrival, order) => PollIsSound(host, x, elapsed, arrival, order);
    case Peer(h, m, order) => PeerIsSound(host, x, h, m, order);
    case Service(r, order) => ServiceIsSound(host, x, r, order);
  }

  lemma ReadyIsSound(x: Link)
    requires Ready(x) && F.Settled(FlowOf(x.task, x.cap))
    ensures Sound(x)
  {
    assert FlowOf(x.task, x.cap).sent == x.task.sent;
    if x.at.Some? {
      DefaultIsFound(x.task, x.cap, x.at.value);
    }
  }

  //
  // The stranded client
  //

  /**
   The client of a handle that is no longer registered still counts as active, nothing is left at its position but
   EnterOnly handles and copies for them, and no chord can come to its rescue.
   */
  ghost predicate Stranded(x: Link, h: Handle, pos: Position) {
    && Layout(x.task, x.cap) && x.task.active == Some(h) && h !in x.cap.idMap
    && !IsDefaultAt(x.task.captures, pos)
    && !KeysPressed(x.cap.pressedKeys, x.task.releaseBind)
    && (x.at.Some? ==> x.at.value == pos && pos in x.cap.positionMap)
    && forall i :: 0 <= i < |x.cap.pending| ==>
        && x.cap.pending[i].0 in x.cap.idMap && x.cap.idMap[x.cap.pending[i].0] == pos
        && !x.cap.pending[i].1.AutoRelease?
  }

  /** What the client was sent does not change. */
  predicate Forsaken(x: Link, y: Link) {
    x.task.sent == y.task.sent
  }

  lemma NoDefaultLeft(t: Task, c: Capture, pos: Position, g: Handle)
    requires Layout(t, c) && g in c.idMap && c.idMap[g] == pos && !IsDefaultAt(t.captures, pos)
    ensures EnterOnlyHandle(t.captures, g) && Find(t.captures, g).value.pos == pos
  {
    var reg := Find(t.captures, g).value;
    assert reg in t.captures && reg.pos == pos;
  }

  /** A copy for an EnterOnly handle with no Default one beside it releases the backend, without a farewell. */
  lemma PopReleases(host: Host, x: Link, order: seq<u32>)
    requires x.cap.pending != [] && EnterOnlyHandle(x.task.captures, x.cap.pending[0].0)
    requires !IsDefaultAt(x.task.captures, Find(x.task.captures, x.cap.pending[0].0).value.pos)
    requires LooksUp(x.task, x.cap, x.cap.pending[0].1) && CanFlush(x.task, x.cap, order)
    ensures Allowed(host, x, Poll(false, Quiet, order))
    ensures var y := Next(host, x, Poll(false, Quiet, order));
            && y.task == x.task.(notices := y.task.notices) && y.at.None?
            && y.cap == Released(Popped(x.cap).0, WarpTarget(host, x.cap.wall))
  {
  }

  /** The next copy goes to an EnterOnly handle, which releases the backend without a farewell. */
  lemma PopsStranded(host: Host, x: Link, h: Handle, pos: Position, order: seq<u32>)
    requires Stranded(x, h, pos) && x.cap.pending != [] && Enumerates(order, x.cap.pressedKeys)
    ensures Allowed(host, x, Poll(false, Quiet, order))
    ensures var y := Next(host, x, Poll(false, Quiet, order));
            && Stranded(y, h, pos) && Forsaken(x, y) && y.at.None?
            && y.cap.pending == x.cap.pending[1..]
            && y.cap.idMap == x.cap.idMap && y.cap.positionMap == x.cap.positionMap
  {
    NoDefaultLeft(x.task, x.cap, pos, x.cap.pending[0].0);
    PopReleases(host, x, order);
    assert KeysPressed({}, x.task.releaseBind) ==> KeysPressed(x.cap.pressedKeys, x.task.releaseBind);
  }

  lemma {:induction false} DrainsStranded(host: Host, x: Link, h: Handle, pos: Position)
    returns (steps: seq<Step>, states: seq<Link>)
    requires Stranded(x, h, pos)
    ensures Path(host, x, steps, states)
    ensures var y := states[|steps|];
            && Stranded(y, h, pos) && Forsaken(x, y) && y.cap.pending == [] && (x.at.None? ==> y.at.None?)
            && y.cap.idMap == x.cap.idMap && y.cap.positionMap == x.cap.positionMap
    decreases |x.cap.pending|
  {
    if x.cap.pending == [] {
      steps, states := [], [x];
    } else {
      var order := SomeOrder(x.cap.pressedKeys);
      var s := Poll(false, Quiet, order);
      PopsStranded(host, x, h, pos, order);
      var rest, restStates := DrainsStranded(host, Next(host, x, s), h, pos);
      Prepend(host, x, s, rest, restStates);
      steps, states := [s] + rest, [x] + restStates;
    }
  }

  /** One of the handles left at the position goes too. */
  lemma DropsStranded(host: Host, x: Link, h: Handle, pos: Position, order: seq<u32>)
    requires Stranded(x, h, pos) && x.cap.pending == [] && pos in x.cap.positionMap
    requires Enumerates(order, x.cap.pressedKeys)
    ensures var g := x.cap.positionMap[pos][0];
            && Allowed(host, x, Service(DestroyCapture(g), order))
            && var y := Next(host, x, Service(DestroyCapture(g), order));
            && Stranded(y, h, pos) && Forsaken(x, y) && y.cap.pending == []
            && y.cap.idMap == x.cap.idMap - {g}
            && |HandlesAt(y.cap.positionMap, pos)| < |x.cap.positionMap[pos]|
  {
    var g := x.cap.positionMap[pos][0];
    DefaultIsFound(x.task, x.cap, pos);
    assert g in x.cap.positionMap[pos];
    DestroyRequestResult(host, x, g, order);
    DestroyKeepsLayout(x.task, x.cap, g);
    FindUnregistered(x.task.captures, g, g);
    WithoutShrinks(x.cap.positionMap[pos], g);
  }

  lemma WithoutShrinks(ids: seq<Handle>, g: Handle)
    requires ids != [] && ids[0] == g
    ensures |Without(ids, g)| < |ids|
  {
  }

  /** So do the others, and with the last of them the position. */
  lemma {:induction false} EmptiesPosition(host: Host, x: Link, h: Handle, pos: Position)
    returns (steps: seq<Step>, states: seq<Link>)
    requires Stranded(x, h, pos) && x.cap.pending == []
    ensures Path(host, x, steps, states)
    ensures var y := states[|steps|];
            && Stranded(y, h, pos) && Forsaken(x, y) && y.cap.pending == [] && pos !in y.cap.positionMap
            && y.cap.idMap.Keys <= x.cap.idMap.Keys
    decreases |HandlesAt(x.cap.positionMap, pos)|
  {
    if pos !in x.cap.positionMap {
      steps, states := [], [x];
    } else {
      var order := SomeOrder(x.cap.pressedKeys);
      DropsStranded(host, x, h, pos, order);
      var s := Service(DestroyCapture(x.cap.positionMap[pos][0]), order);
      var rest, restStates := EmptiesPosition(host, Next(host, x, s), h, pos);
      Prepend(host, x, s, rest, restStates);
      steps, states := [s] + rest, [x] + restStates;
    }
  }

  /** A new Default capture takes the empty position, and its client is entered there. */
  lemma EntersAnother(host: Host, x: Link, h: Handle, pos: Position, spare: Handle)
    returns (steps: seq<Step>, states: seq<Link>)
    requires Stranded(x, h, pos) && x.cap.pending == [] && pos !in x.cap.positionMap
    requires spare !in x.cap.idMap && spare != h
    ensures Path(host, x, steps, states)
    ensures var z := states[|steps|].task;
            && z.active == Some(spare)
            && Held(z.sent, h) == Held(x.task.sent, h) && Inside(z.sent, h) == Inside(x.task.sent, h)
  {
    var order := SomeOrder(x.cap.pressedKeys);
    var create := Service(CreateCapture(spare, pos, Default), order);
    var begin := Poll(false, Arrived(pos, Event.Begin(None)), order);
    CreateRequestResult(host, x, spare, pos, Default, order);
    var y := Next(host, x, create);
    FindsOldAfterCreate(x.task.captures, x.cap.idMap, spare, pos, Default);
    EntersNew(host, y, pos, spare, order);
    OneStep(host, y, begin);
    Prepend(host, x, create, [begin], [y, Next(host, y, begin)]);
    steps, states := [create] + [begin], [x] + [y, Next(host, y, begin)];
    Appended(x.task.sent, (spare, Enter(pos.Opposite())), h);
  }

  lemma OneStep(host: Host, x: Link, s: Step)
    requires Allowed(host, x, s)
    ensures Path(host, x, [s], [x, Next(host, x, s)])
  {
  }

  lemma EntersNew(host: Host, y: Link, pos: Position, spare: Handle, order: seq<u32>)
    requires y.cap.pending == [] && y.at.None? && pos in y.cap.positionMap && y.cap.positionMap[pos] == [spare]
    requires Find(y.task.captures, spare) == Some(Registration(spare, pos, Default))
    requires !KeysPressed(y.cap.pressedKeys, y.task.releaseBind) && Enumerates(order, y.cap.pressedKeys)
    ensures var begin := Poll(false, Arrived(pos, Event.Begin(None)), order);
            && Allowed(host, y, begin)
            && var z := Next(host, y, begin).task;
            z.active == Some(spare) && z.sent == y.task.sent + [(spare, Enter(pos.Opposite()))]
  {
    ArrivalYields(host, y.cap, pos, Event.Begin(None));
    assert CursorMessage(host, Event.Begin(None), pos.Opposite()) == [];
    var log := y.task.sent + [(spare, Enter(pos.Opposite()))];
    assert log + SentTogether(spare, []) == log;
  }

  //
  // Exactly which destructions are harmless
  //

  /** What every reachable state of a session satisfies. */
  ghost predicate Reached(x: Link) {
    Ready(x) && F.Settled(FlowOf(x.task, x.cap))
  }

  lemma RunIsReached(host: Host, steps: seq<Step>, states: seq<Link>, n: nat)
    requires Run(host, steps, states) && n <= |steps|
    ensures Reached(states[n])
  {
    var effects := RunMirrors(host, steps, states, n);
    var flows := Flows(states[..n + 1]);
    F.RunStaysSettled(effects, flows, n);
    assert flows[n] == FlowOf(states[n].task, states[n].cap);
  }

  lemma StrandsAfterRebind(host: Host, y: Link, h: Handle, pos: Position, order: seq<u32>, up: u32)
    requires Layout(y.task, y.cap) && !IsDefaultAt(y.task.captures, pos)
    requires y.task.active == Some(h) && h !in y.cap.idMap
    requires up !in y.cap.pressedKeys && Enumerates(order, y.cap.pressedKeys)
    requires y.at.Some? ==> y.at.value == pos && pos in y.cap.positionMap
    requires forall i :: 0 <= i < |y.cap.pending| ==>
               && y.cap.pending[i].0 in y.cap.idMap && y.cap.idMap[y.cap.pending[i].0] == pos
               && !y.cap.pending[i].1.AutoRelease?
    ensures var rebind := Service(SetReleaseBind([up]), order);
            && Allowed(host, y, rebind)
            && var z := Next(host, y, rebind); Stranded(z, h, pos) && Forsaken(y, z) && z.cap == y.cap
  {
    assert [up][0] !in y.cap.pressedKeys;
  }

  /** What the request leaves behind when it takes the handle being captured. */
  lemma DestroyStrands(x: Link, h: Handle)
    requires Ready(x) && QueueRegistered(x) && x.task.active == Some(h)
    ensures x.at.Some? && h in x.cap.idMap && x.cap.idMap[h] == x.at.value
    ensures var y, pos := AfterDestroy(x, h), x.at.value;
            && Layout(y.task, y.cap) && h !in y.cap.idMap && !IsDefaultAt(y.task.captures, pos)
            && (y.at.Some? ==> y.at.value == pos && pos in y.cap.positionMap)
            && forall i :: 0 <= i < |y.cap.pending| ==>
                && y.cap.pending[i].0 in y.cap.idMap && y.cap.idMap[y.cap.pending[i].0] == pos
                && !y.cap.pending[i].1.AutoRelease?
  {
    var pos := x.at.value;
    assert x.cap.positionMap[pos][0] in x.cap.positionMap[pos];
    DestroyKeepsLayout(x.task, x.cap, h);
    DefaultIsGone(x, h, pos);
    forall i | 0 <= i < |x.cap.pending|
      ensures x.cap.pending[i].0 in x.cap.idMap && x.cap.pending[i].0 != h
      ensures x.cap.idMap[x.cap.pending[i].0] == pos && !x.cap.pending[i].1.AutoRelease?
    {
      assert EnterOnlyHandle(x.task.captures, x.cap.pending[i].0);
    }
  }

  lemma DefaultIsGone(x: Link, h: Handle, pos: Position)
    requires Ready(x) && x.at == Some(pos) && x.task.active == Some(h) && h in x.cap.idMap
    ensures !IsDefaultAt(Unregistered(x.task.captures, h), pos)
  {
    var captures' := Unregistered(x.task.captures, h);
    FindUnregistered(x.task.captures, h, h);
    forall i | 0 <= i < |captures'| && captures'[i].pos == pos
      ensures captures'[i].kind == EnterOnly
    {
      var reg := captures'[i];
      assert reg in captures';
      var j :| 0 <= j < |x.task.captures| && x.task.captures[j] == reg;
      assert Find(x.task.captures, reg.handle) == Some(reg);
      assert reg.handle in x.cap.positionMap[pos];
      var k :| 0 <= k < |x.cap.positionMap[pos]| && x.cap.positionMap[pos][k] == reg.handle;
      assert EnterOnlyHandle(x.task.captures, x.cap.positionMap[pos][k]);
    }
  }

  /** From a stranded client the session can go on to enter another without telling the first. */
  lemma GetsPassedOver(host: Host, x: Link, h: Handle, pos: Position, spare: Handle)
    returns (steps: seq<Step>, states: seq<Link>)
    requires Stranded(x, h, pos) && spare !in x.cap.idMap && spare != h
    ensures Path(host, x, steps, states)
    ensures var z := states[|steps|].task;
            && z.active == Some(spare)
            && Held(z.sent, h) == Held(x.task.sent, h) && Inside(z.sent, h) == Inside(x.task.sent, h)
  {
    var s1, x1 := DrainsStranded(host, x, h, pos);
    var s2, x2 := EmptiesPosition(host, x1[|s1|], h, pos);
    var s3, x3 := EntersAnother(host, x2[|s2|], h, pos, spare);
    Join(host, x1[|s1|], s2, x2, s3, x3);
    Join(host, x, s1, x1, s2 + s3, x2 + x3[1..]);
    steps, states := s1 + (s2 + s3), x1 + (x2 + x3[1..])[1..];
    assert states[|steps|] == x3[|s3|];
  }

  /** From there another client can be entered while this one still holds what it held and was never left. */
  lemma StrandedGetsPassedOver(host: Host, x: Link, h: Handle, order: seq<u32>, spare: Handle, up: u32)
    returns (steps: seq<Step>, states: seq<Link>)
    requires Reached(x) && QueueRegistered(x) && x.task.active == Some(h)
    requires spare !in x.cap.idMap && up !in x.cap.pressedKeys
    requires Runs(host, x, Service(DestroyCapture(h), order))
    ensures Path(host, Next(host, x, Service(DestroyCapture(h), order)), steps, states)
    ensures var z := states[|steps|].task;
            && z.active != Some(h) && Held(z.sent, h) == Held(x.task.sent, h) && Inside(z.sent, h) == Some(true)
  {
    DestroyStrands(x, h);
    DestroyRequestResult(host, x, h, order);
    var pos, y := x.at.value, Next(host, x, Service(DestroyCapture(h), order));
    var rebind := Service(SetReleaseBind([up]), order);
    StrandsAfterRebind(host, y, h, pos, order, up);
    var z := Next(host, y, rebind);
    var rest, states' := GetsPassedOver(host, z, h, pos, spare);
    Prepend(host, y, rebind, rest, states');
    steps, states := [rebind] + rest, [y] + states';
    assert states[|steps|] == states'[|rest|];
  }

  /** Every client that is not being controlled holds nothing and has been left as often as it was entered. */
  ghost predicate Orderly(x: Link) {
    F.Settled(FlowOf(x.task, x.cap))
  }

  /**
   After a capture is destroyed, no continuation of the session leaves any client with a key or without its Leave,
   exactly if its client was not the one being controlled. `spare` is any handle not in use, `up` any key not down.
   */
  lemma DestroyIsOrderlyExactly(host: Host, x: Link, h: Handle, order: seq<u32>, spare: Handle, up: u32)
    requires Reached(x) && QueueRegistered(x) && spare !in x.cap.idMap && up !in x.cap.pressedKeys
    requires Runs(host, x, Service(DestroyCapture(h), order))
    ensures (forall steps, states :: Path(host, Next(host, x, Service(DestroyCapture(h), order)), steps, states) ==>
               Orderly(states[|steps|]))
            <==> x.task.active != Some(h)
  {
    var y := Next(host, x, Service(DestroyCapture(h), order));
    if x.task.active != Some(h) {
      StepStaysSettled(host, x, Service(DestroyCapture(h), order));
      forall steps, states | Path(host, y, steps, states)
        ensures Orderly(states[|steps|])
      {
        PathStaysSettled(host, y, steps, states, |steps|);
      }
    } else {
      var steps, states := StrandedGetsPassedOver(host, x, h, order, spare, up);
      assert Path(host, y, steps, states) && !Orderly(states[|steps|]);
    }
  }

  /** And no continuation leaves a client with a key, exactly if the client held none or was not being controlled. */
  lemma DestroyIsUnstuckExactly(host: Host, x: Link, h: Handle, order: seq<u32>, spare: Handle, up: u32)
    requires Reached(x) && QueueRegistered(x) && spare !in x.cap.idMap && up !in x.cap.pressedKeys
    requires Runs(host, x, Service(DestroyCapture(h), order))
    ensures (forall steps, states :: Path(host, Next(host, x, Service(DestroyCapture(h), order)), steps, states) ==>
               Unstuck(states[|steps|]))
            <==> x.task.active != Some(h) || Held(x.task.sent, h) == {}
  {
    var y := Next(host, x, Service(DestroyCapture(h), order));
    if x.task.active != Some(h) || Held(x.task.sent, h) == {} {
      ReadyIsSound(x);
      DestroyRequestIsSound(host, x, h, order);
      forall steps, states | Path(host, y, steps, states)
        ensures Unstuck(states[|steps|])
      {
        PathStaysSound(host, y, steps, states, |steps|);
      }
    } else {
      var steps, states := StrandedGetsPassedOver(host, x, h, order, spare, up);
      assert Path(host, y, steps, states) && !Unstuck(states[|steps|]);
    }
  }
}
