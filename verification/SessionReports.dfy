/**
 What a session keeps of what it is told: each peer's screen size and sensitivity at the side that peer is registered
 on, the service's settings and captures, and the notices handed back to the service.
 */
module SessionReports {
  import opened Wrappers
  import opened Bytes
  import opened Positions
  import opened CaptureModel
  import opened CaptureState
  import opened CaptureSession
  import opened KeyLink
  import opened KeyLinkDestroy

  //
  // What a step reports
  //

  datatype Report<T> = Says(value: T) | Withdrawn | Silent

  /** The message comes from the client being controlled, or nobody is, and its client is registered at the side. */
  predicate HeardAt(x: Link, h: Handle, pos: Position) {
    (x.task.active.None? || x.task.active == Some(h)) && h in x.cap.idMap && x.cap.idMap[h] == pos
  }

  predicate DestroysAt(x: Link, s: Step, pos: Position) {
    s.Service? && s.request.DestroyCapture? && s.request.handle in x.cap.idMap && x.cap.idMap[s.request.handle] == pos
  }

  function SizeReport(x: Link, s: Step, pos: Position): Report<Size> {
    if DestroysAt(x, s, pos) then Withdrawn
    else if s.Peer? && s.message.PeerBounds? && HeardAt(x, s.handle, pos) then Says(s.message.size)
    else Silent
  }

  /** Only a positive factor says anything. */
  function SensitivityReport(x: Link, s: Step, pos: Position): Report<real> {
    if DestroysAt(x, s, pos) then Withdrawn
    else if s.Peer? && s.message.PeerSensitivity? && s.message.factor > 0.0 && HeardAt(x, s.handle, pos)
    then Says(s.message.factor)
    else Silent
  }

  function Known<T>(m: map<Position, T>, pos: Position): Option<T> {
    if pos in m then Some(m[pos]) else None
  }

  function Latest<T>(before: Option<T>, r: Report<T>): Option<T> {
    match r
    case Says(value) => Some(value)
    case Withdrawn => None
    case Silent => before
  }

  //
  // One step
  //

  /** Every side keeps its latest report, until a capture there is destroyed. */
  ghost predicate KeepsReports(x: Link, s: Step, y: Link) {
    forall pos ::
      && Known(y.cap.wall.peerBounds, pos) == Latest(Known(x.cap.wall.peerBounds, pos), SizeReport(x, s, pos))
      && Known(y.cap.wall.peerSensitivity, pos)
         == Latest(Known(x.cap.wall.peerSensitivity, pos), SensitivityReport(x, s, pos))
  }

  /** Settings and captures are the service's, as it last asked for them. */
  ghost predicate KeepsSettings(x: Link, s: Step, y: Link) {
    match s
    case Service(SetReleaseThreshold(px), _) =>
      y.cap.wall.threshold == px && y.task.releaseBind == x.task.releaseBind && SameCaptures(x, y)
    case Service(SetReleaseBind(bind), _) =>
      y.cap.wall.threshold == x.cap.wall.threshold && y.task.releaseBind == bind && SameCaptures(x, y)
    case Service(CreateCapture(h, pos, kind), _) =>
      && SameSettings(x, y) && y.cap.idMap == x.cap.idMap[h := pos]
      && |y.task.captures| == |x.task.captures| + 1 && y.task.captures[..|x.task.captures|] == x.task.captures
      && var reg := y.task.captures[|x.task.captures|]; reg.handle == h && reg.pos == pos && reg.kind == kind
    case Service(DestroyCapture(h), _) =>
      && SameSettings(x, y) && y.cap.idMap == x.cap.idMap - {h}
      && forall reg :: reg in y.task.captures <==> reg in x.task.captures && reg.handle != h
    case _ => SameSettings(x, y) && SameCaptures(x, y)
  }

  predicate SameSettings(x: Link, y: Link) {
    y.cap.wall.threshold == x.cap.wall.threshold && y.task.releaseBind == x.task.releaseBind
  }

  predicate SameCaptures(x: Link, y: Link) {
    y.cap.idMap == x.cap.idMap && y.task.captures == x.task.captures
  }

  /** A Begin reaches the capture task: the poll hands it out, and the chord is not down. */
  predicate Begins(host: Host, x: Link, s: Step) {
    s.Poll? &&
    var (c1, out) := Polled(host, x.cap, s.elapsed, s.arrival);
    out.Yield? && out.item.1.Begin? && !KeysPressed(c1.pressedKeys, x.task.releaseBind)
  }

  /** A Begin is noticed, and its client's entering too unless it was the one controlled; so is a peer's greeting. */
  predicate Notices(host: Host, x: Link, s: Step, more: seq<Notice>) {
    if Begins(host, x, s) then
      var h := Polled(host, x.cap, s.elapsed, s.arrival).1.item.0;
      var reg := Find(x.task.captures, h);
      reg.Some? &&
      if reg.value.kind == Default && x.task.active != Some(h) then more == [CaptureBegin(h), ClientEntered(h)]
      else more == [CaptureBegin(h)]
    else if s.Peer? && s.message.PeerHello? && (x.task.active.None? || x.task.active == Some(s.handle)) then
      more == [PeerCommitUpdated(s.handle)]
    else more == []
  }

  predicate SameReports(w: Wall, w': Wall) {
    && w'.peerBounds == w.peerBounds && w'.peerSensitivity == w.peerSensitivity && w'.threshold == w.threshold
  }

  lemma TrackingKeeps(host: Host, w: Wall, pos: Position, e: Event)
    ensures SameReports(w, TrackWallPress(host, w, pos, e))
  {
    if e.Motion? {
      var w1 := MoveCursor(w, pos, e.dx, e.dy);
      assert SameReports(w, w1) && SameReports(w1, Press(w1, pos, ScaledDelta(w, pos, e.dx, e.dy)));
    }
  }

  lemma BackendKeeps(host: Host, c: Capture, arrival: Arrival)
    requires c.pending == []
    ensures var c1 := PollBackend(host, c, arrival).0; SameReports(c.wall, c1.wall) && c1.idMap == c.idMap
  {
    if arrival.Arrived? {
      TrackingKeeps(host, c.wall, arrival.pos, arrival.event);
    }
  }

  lemma PolledKeeps(host: Host, c: Capture, elapsed: bool, arrival: Arrival)
    ensures var c1 := Polled(host, c, elapsed, arrival).0; SameReports(c.wall, c1.wall) && c1.idMap == c.idMap
  {
    if c.pending == [] {
      BackendKeeps(host, c, arrival);
      BackendKeeps(host, c.(wall := c.wall.(pressPending := false), pending := []), arrival);
    }
  }

  lemma HandledKeeps(host: Host, t: Task, c: Capture, h: Handle, e: Event, order: seq<u32>)
    requires LooksUp(t, c, e) ==> Find(t.captures, h).Some?
    ensures var (t2, c2) := Handled(host, t, c, h, e, order, true);
            && SameReports(c.wall, c2.wall) && c2.idMap == c.idMap
            && t2.captures == t.captures && t2.releaseBind == t.releaseBind
            && t2.notices == t.notices +
                             (if !LooksUp(t, c, e) || !e.Begin? then []
                              else if Find(t.captures, h).value.kind == Default && t.active != Some(h)
                              then [CaptureBegin(h), ClientEntered(h)] else [CaptureBegin(h)])
  {
  }

  lemma PollKeeps(host: Host, x: Link, s: Step)
    requires s.Poll? && Runs(host, x, s)
    ensures var y := Next(host, x, s);
            && KeepsReports(x, s, y) && SameSettings(x, y) && SameCaptures(x, y)
            && x.task.notices <= y.task.notices && Notices(host, x, s, y.task.notices[|x.task.notices|..])
  {
    var (c1, out) := Polled(host, x.cap, s.elapsed, s.arrival);
    PolledKeeps(host, x.cap, s.elapsed, s.arrival);
    if out.Yield? {
      HandledKeeps(host, x.task, c1, out.item.0, out.item.1, s.order);
    }
  }

  lemma RegisteredWhereMapped(x: Link, h: Handle)
    requires Mapped(x) && Find(x.task.captures, h).Some?
    ensures h in x.cap.idMap && Find(x.task.captures, h).value.pos == x.cap.idMap[h]
  {
  }

  /** A message of the client at a side, while it counts, changes what is known of that side and nothing else. */
  lemma PeerWall(host: Host, x: Link, h: Handle, m: PeerMsg, order: seq<u32>)
    requires Mapped(x) && Runs(host, x, Peer(h, m, order))
    ensures var (w, w') := (x.cap.wall, Next(host, x, Peer(h, m, order)).cap.wall);
            && w'.threshold == w.threshold
            && (if m.PeerBounds? && Heeded(x.task, h) then
                  h in x.cap.idMap && w'.peerBounds == w.peerBounds[x.cap.idMap[h] := m.size]
                else w'.peerBounds == w.peerBounds)
            && (if m.PeerSensitivity? && Heeded(x.task, h) && m.factor > 0.0 then
                  h in x.cap.idMap && w'.peerSensitivity == w.peerSensitivity[x.cap.idMap[h] := m.factor]
                else w'.peerSensitivity == w.peerSensitivity)
  {
    if Find(x.task.captures, h).Some? {
      RegisteredWhereMapped(x, h);
    }
    if AsksPosition(x.task, h, m) && m.PeerBounds? {
      BoundsAreStored(host, x.cap.wall, x.cap.idMap[h], m.size);
    }
  }

  lemma PeerTask(host: Host, x: Link, s: Step)
    requires s.Peer? && Runs(host, x, s)
    ensures var y := Next(host, x, s);
            && y.task.releaseBind == x.task.releaseBind && SameCaptures(x, y)
            && x.task.notices <= y.task.notices && Notices(host, x, s, y.task.notices[|x.task.notices|..])
  {
  }

  lemma PeerKeeps(host: Host, x: Link, s: Step)
    requires s.Peer? && Mapped(x) && Runs(host, x, s)
    ensures var y := Next(host, x, s);
            && KeepsReports(x, s, y) && SameSettings(x, y) && SameCaptures(x, y)
            && x.task.notices <= y.task.notices && Notices(host, x, s, y.task.notices[|x.task.notices|..])
  {
    PeerWall(host, x, s.handle, s.message, s.order);
    PeerTask(host, x, s);
  }

  lemma BoundsAreStored(host: Host, w: Wall, pos: Position, size: Size)
    ensures var w' := CaptureModel.SetPeerBounds(host, w, pos, size);
            && w'.peerBounds == w.peerBounds[pos := size]
            && w'.peerSensitivity == w.peerSensitivity && w'.threshold == w.threshold
  {
  }

  lemma {:induction false} UnregisteredKeepsOthers(captures: seq<Registration>, h: Handle, reg: Registration)
    ensures reg in Unregistered(captures, h) <==> reg in captures && reg.handle != h
  {
    if captures != [] {
      UnregisteredKeepsOthers(captures[1..], h, reg);
      assert captures == [captures[0]] + captures[1..];
    }
  }

  lemma DestroyForgets(host: Host, x: Link, h: Handle, order: seq<u32>)
    requires Mapped(x) && Runs(host, x, Service(DestroyCapture(h), order))
    ensures var y := Next(host, x, Service(DestroyCapture(h), order));
            && h in x.cap.idMap && SameSettings(x, y) && y.cap.idMap == x.cap.idMap - {h}
            && y.cap.wall.peerBounds == x.cap.wall.peerBounds - {x.cap.idMap[h]}
            && y.cap.wall.peerSensitivity == x.cap.wall.peerSensitivity - {x.cap.idMap[h]}
            && y.task.notices == x.task.notices
            && forall reg :: reg in y.task.captures <==> reg in x.task.captures && reg.handle != h
  {
    RegisteredWhereMapped(x, h);
    forall reg {
      UnregisteredKeepsOthers(x.task.captures, h, reg);
    }
  }

  lemma ServiceKeeps(host: Host, x: Link, s: Step)
    requires s.Service? && Mapped(x) && Runs(host, x, s)
    ensures var y := Next(host, x, s);
            KeepsReports(x, s, y) && KeepsSettings(x, s, y) && y.task.notices == x.task.notices
  {
    match s.request
    case DestroyCapture(h) =>
      DestroyForgets(host, x, h, s.order);
      WithdrawsReports(x, s, Next(host, x, s));
    case ReleaseForHandover =>
      HandoverKeeps(host, x, s.order);
      LeavesReports(x, s, Next(host, x, s));
    case _ =>
      OtherRequestsKeep(host, x, s);
      LeavesReports(x, s, Next(host, x, s));
  }

  lemma LeavesReports(x: Link, s: Step, y: Link)
    requires s.Service? && !s.request.DestroyCapture?
    requires y.cap.wall.peerBounds == x.cap.wall.peerBounds && y.cap.wall.peerSensitivity == x.cap.wall.peerSensitivity
    ensures KeepsReports(x, s, y)
  {
  }

  lemma WithdrawsReports(x: Link, s: Step, y: Link)
    requires s.Service? && s.request.DestroyCapture? && s.request.handle in x.cap.idMap
    requires y.cap.wall.peerBounds == x.cap.wall.peerBounds - {x.cap.idMap[s.request.handle]}
    requires y.cap.wall.peerSensitivity == x.cap.wall.peerSensitivity - {x.cap.idMap[s.request.handle]}
    ensures KeepsReports(x, s, y)
  {
  }

  lemma HandoverKeeps(host: Host, x: Link, order: seq<u32>)
    requires Runs(host, x, Service(ReleaseForHandover, order))
    ensures var y := Next(host, x, Service(ReleaseForHandover, order));
            && SameReports(x.cap.wall, y.cap.wall) && SameSettings(x, y) && SameCaptures(x, y)
            && y.task.notices == x.task.notices
  {
  }

  lemma OtherRequestsKeep(host: Host, x: Link, s: Step)
    requires s.Service? && !s.request.DestroyCapture? && !s.request.ReleaseForHandover? && Runs(host, x, s)
    ensures var y := Next(host, x, s);
            && y.cap.wall.peerBounds == x.cap.wall.peerBounds
            && y.cap.wall.peerSensitivity == x.cap.wall.peerSensitivity
            && KeepsSettings(x, s, y) && y.task.notices == x.task.notices
  {
  }

  //
  // Whole runs
  //

  /**
   In every session each side keeps what its own peer last reported, the settings and captures are the ones the
   service last asked for, and the service is told of every Begin and every greeting, once.
   */
  lemma SessionIsKept(host: Host, x: Link, steps: seq<Step>, states: seq<Link>, n: nat) returns (more: seq<Notice>)
    requires Mapped(x) && Execution(host, x, steps, states) && n < |steps|
    ensures KeepsReports(states[n], steps[n], states[n + 1]) && KeepsSettings(states[n], steps[n], states[n + 1])
    ensures states[n + 1].task.notices == states[n].task.notices + more
    ensures Notices(host, states[n], steps[n], more)
  {
    ExecutionStaysMapped(host, x, steps, states, n);
    match steps[n] {
      case Poll(_, _, _) => PollKeeps(host, states[n], steps[n]);
      case Peer(_, _, _) => PeerKeeps(host, states[n], steps[n]);
      case Service(_, _) => ServiceKeeps(host, states[n], steps[n]);
    }
    more := states[n + 1].task.notices[|states[n].task.notices|..];
  }

  /** The last size reported for a side, if no capture there was destroyed since. */
  function LastSize(steps: seq<Step>, states: seq<Link>, pos: Position, n: nat): Option<Size>
    requires n <= |steps| < |states|
  {
    if n == 0 then None else Latest(LastSize(steps, states, pos, n - 1), SizeReport(states[n - 1], steps[n - 1], pos))
  }

  function LastSensitivity(steps: seq<Step>, states: seq<Link>, pos: Position, n: nat): Option<real>
    requires n <= |steps| < |states|
  {
    if n == 0 then None
    else Latest(LastSensitivity(steps, states, pos, n - 1), SensitivityReport(states[n - 1], steps[n - 1], pos))
  }

  ghost predicate LatestIsKnown(steps: seq<Step>, states: seq<Link>, pos: Position, n: nat)
    requires n <= |steps| < |states|
  {
    && Known(states[n].cap.wall.peerBounds, pos) == LastSize(steps, states, pos, n)
    && Known(states[n].cap.wall.peerSensitivity, pos) == LastSensitivity(steps, states, pos, n)
  }

  /** From a session in which nothing has been reported yet, what is known is what was last reported. */
  lemma LatestReportIsKnown(host: Host, x: Link, steps: seq<Step>, states: seq<Link>, n: nat, pos: Position)
    requires Mapped(x) && Execution(host, x, steps, states) && n <= |steps|
    requires x.cap.wall.peerBounds == map[] && x.cap.wall.peerSensitivity == map[]
    ensures LatestIsKnown(steps, states, pos, n)
  {
    for i := 0 to n
      invariant LatestIsKnown(steps, states, pos, i)
    {
      var more := SessionIsKept(host, x, steps, states, i);
    }
  }
}
