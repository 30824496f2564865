/**
 When the capture task panics because it looks up a handle that is not registered: at a queued copy of an event, or at
 a geometry message of a client whose capture was destroyed. Both are stated with the exact condition, for draining the
 queue and for everything that can follow.
 */
module KeyLinkDestroy {
  import opened Wrappers
  import opened Bytes
  import opened Collections
  import opened Positions
  import opened CaptureModel
  import opened CaptureState
  import opened CaptureSession
  import opened KeyLink

  //
  // Steps that panic
  //

  /** Bounds and sensitivity reports: handling them looks up the position of their client. */
  predicate Geometry(m: PeerMsg) {
    m.PeerBounds? || m.PeerSensitivity?
  }

  /** The step looks up a handle that is not registered, or registers one twice. */
  predicate Panics(host: Host, x: Link, s: Step) {
    match s
    case Poll(elapsed, arrival, _) =>
      var (c1, out) := Polled(host, x.cap, elapsed, arrival);
      out.Yield? && LooksUp(x.task, c1, out.item.1) && Find(x.task.captures, out.item.0).None?
    case Peer(h, m, _) => AsksPosition(x.task, h, m) && Find(x.task.captures, h).None?
    case Service(r, _) => !Admissible(x.task, x.cap, r)
  }

  /** The step's flush order enumerates the keys pressed when it flushes. */
  predicate Flushes(host: Host, x: Link, s: Step) {
    match s
    case Poll(elapsed, arrival, order) =>
      var (c1, out) := Polled(host, x.cap, elapsed, arrival);
      out.Yield? ==> CanFlush(x.task, c1, order)
    case _ => CanFlush(x.task, x.cap, s.order)
  }

  lemma RunsExactly(host: Host, x: Link, s: Step)
    ensures Runs(host, x, s) <==> Flushes(host, x, s) && !Panics(host, x, s)
  {
  }

  /** The wrapper's maps are inverse and agree with the task's registrations, whatever the layout. */
  ghost predicate Mapped(x: Link) {
    Inverse(x.cap.idMap, x.cap.positionMap) && Registered(x.task.captures, x.cap.idMap)
  }

  /** Which steps panic, by the registered handles alone. */
  lemma StepPanicsExactly(host: Host, x: Link, s: Step)
    requires Mapped(x)
    ensures Panics(host, x, s) <==>
              match s
              case Poll(_, _, _) =>
                x.cap.pending != [] && x.cap.pending[0].0 !in x.cap.idMap
                && LooksUp(x.task, x.cap, x.cap.pending[0].1)
              case Peer(h, m, _) => Geometry(m) && Heeded(x.task, h) && h !in x.cap.idMap
              case Service(r, _) =>
                (r.CreateCapture? && r.handle in x.cap.idMap) || (r.DestroyCapture? && r.handle !in x.cap.idMap)
  {
    if s.Poll? && x.cap.pending == [] {
      FreshCopiesAreRegistered(host, x, s.elapsed, s.arrival);
    }
  }

  lemma FreshCopiesAreRegistered(host: Host, x: Link, elapsed: bool, arrival: Arrival)
    requires Mapped(x) && x.cap.pending == []
    ensures var (c1, out) := Polled(host, x.cap, elapsed, arrival);
            && (out.Yield? ==> Find(x.task.captures, out.item.0).Some?)
            && forall i :: 0 <= i < |c1.pending| ==> c1.pending[i].0 in x.cap.idMap
  {
    if Fires(x.cap, elapsed) && FiredCopies(x.cap) != [] {
      CopiesAreRegistered(x, x.cap.wall.capturePos.value, AutoRelease);
    } else if arrival.Arrived? {
      CopiesAreRegistered(x, arrival.pos, arrival.event);
    }
  }

  lemma CopiesAreRegistered(x: Link, pos: Position, e: Event)
    requires Mapped(x)
    ensures var copies := Copies(HandlesAt(x.cap.positionMap, pos), e);
            forall i :: 0 <= i < |copies| ==> copies[i].0 in x.cap.idMap
  {
    var ids := HandlesAt(x.cap.positionMap, pos);
    forall i | 0 <= i < |ids|
      ensures ids[i] in x.cap.idMap
    {
      assert ids[i] in ids;
    }
  }

  //
  // Draining the queue
  //

  /** The next copy in the queue makes the capture task look up a handle that is not registered. */
  predicate CopyPanics(x: Link) {
    && x.cap.pending != []
    && LooksUp(x.task, x.cap, x.cap.pending[0].1) && Find(x.task.captures, x.cap.pending[0].0).None?
  }

  /** `states` are those of polls that do nothing but hand out queued copies. */
  ghost predicate Drain(host: Host, x: Link, steps: seq<Step>, states: seq<Link>) {
    && |states| == |steps| + 1 && |steps| <= |x.cap.pending|
    && states[0] == x
    && forall n {:trigger steps[n]} :: 0 <= n < |steps| ==>
        steps[n].Poll? && Runs(host, states[n], steps[n]) && states[n + 1] == Next(host, states[n], steps[n])
  }

  /** However the queue is drained, no copy in it makes the task panic. */
  ghost predicate Survives(host: Host, x: Link) {
    forall steps, states :: Drain(host, x, steps, states) ==> !CopyPanics(states[|steps|])
  }

  /** Handling the `i`-th queued copy comes to looking up its handle: it is neither an AutoRelease nor chorded. */
  predicate LookedUp(x: Link, i: nat)
    requires i < |x.cap.pending|
  {
    && !x.cap.pending[i].1.AutoRelease?
    && x.task.releaseBind != [] && !(i == 0 && KeysPressed(x.cap.pressedKeys, x.task.releaseBind))
  }

  lemma HandledKeeps(host: Host, t: Task, c: Capture, h: Handle, e: Event, order: seq<u32>)
    requires LooksUp(t, c, e) ==> Find(t.captures, h).Some?
    ensures var (t2, c2) := Handled(host, t, c, h, e, order, true);
            && c2.pending == c.pending && t2.captures == t.captures && t2.releaseBind == t.releaseBind
            && c2.idMap == c.idMap && c2.positionMap == c.positionMap
            && (c2.pressedKeys == c.pressedKeys || c2.pressedKeys == {})
            && (KeysPressed(c.pressedKeys, t.releaseBind) ==> c2.pressedKeys == {})
  {
  }

  lemma {:induction false} DrainedSoFar(host: Host, x: Link, steps: seq<Step>, states: seq<Link>, n: nat)
    requires Drain(host, x, steps, states) && n <= |steps|
    ensures var y := states[n];
            && y.cap.pending == x.cap.pending[n..]
            && y.task.captures == x.task.captures && y.task.releaseBind == x.task.releaseBind
            && (y.cap.pressedKeys == x.cap.pressedKeys || y.cap.pressedKeys == {})
            && (n > 0 && KeysPressed(x.cap.pressedKeys, x.task.releaseBind) ==> y.cap.pressedKeys == {})
  {
    if n > 0 {
      DrainedSoFar(host, x, steps, states, n - 1);
      var y := states[n - 1];
      assert Runs(host, y, steps[n - 1]);
      var (c1, out) := Popped(y.cap);
      HandledKeeps(host, y.task, c1, out.item.0, out.item.1, steps[n - 1].order);
    }
  }

  lemma NothingIsNoChord(bind: seq<u32>)
    requires bind != []
    ensures !KeysPressed({}, bind)
  {
    var none: set<u32> := {};
    assert bind[0] !in none;
  }

  /** Whether the drain panics at the `n`-th copy depends on that copy alone. */
  lemma PanicsAt(host: Host, x: Link, steps: seq<Step>, states: seq<Link>)
    requires Drain(host, x, steps, states)
    ensures CopyPanics(states[|steps|]) <==>
              |steps| < |x.cap.pending| && LookedUp(x, |steps|) && Find(x.task.captures, x.cap.pending[|steps|].0).None?
  {
    var n, y := |steps|, states[|steps|];
    DrainedSoFar(host, x, steps, states, n);
    if n < |x.cap.pending| {
      assert y.cap.pending[0] == x.cap.pending[n];
      if x.task.releaseBind != [] {
        NothingIsNoChord(x.task.releaseBind);
      }
    }
  }

  /** The queue can be drained up to the first copy that panics. */
  lemma {:induction false} DrainsTo(host: Host, x: Link, n: nat) returns (steps: seq<Step>, states: seq<Link>)
    requires n <= |x.cap.pending|
    requires forall i :: 0 <= i < n ==> !(LookedUp(x, i) && Find(x.task.captures, x.cap.pending[i].0).None?)
    ensures Drain(host, x, steps, states) && |steps| == n
  {
    if n == 0 {
      steps, states := [], [x];
    } else {
      var before, beforeStates := DrainsTo(host, x, n - 1);
      var y := beforeStates[n - 1];
      PanicsAt(host, x, before, beforeStates);
      DrainedSoFar(host, x, before, beforeStates, n - 1);
      var order := SomeOrder(y.cap.pressedKeys);
      var s := Poll(false, Quiet, order);
      assert Runs(host, y, s);
      steps, states := before + [s], beforeStates + [Next(host, y, s)];
      forall i | 0 <= i < n
        ensures steps[i].Poll? && Runs(host, states[i], steps[i]) && states[i + 1] == Next(host, states[i], steps[i])
      {
        if i < n - 1 { assert steps[i] == before[i]; }
      }
    }
  }

  lemma SurvivesExactly(host: Host, x: Link)
    ensures Survives(host, x) <==>
              forall i ::
                0 <= i < |x.cap.pending| && Find(x.task.captures, x.cap.pending[i].0).None? ==> !LookedUp(x, i)
  {
    if forall i :: 0 <= i < |x.cap.pending| && Find(x.task.captures, x.cap.pending[i].0).None? ==> !LookedUp(x, i) {
      forall steps, states | Drain(host, x, steps, states)
        ensures !CopyPanics(states[|steps|])
      {
        PanicsAt(host, x, steps, states);
      }
    } else {
      var i :| 0 <= i < |x.cap.pending| && Find(x.task.captures, x.cap.pending[i].0).None? && LookedUp(x, i);
      var first := FirstPanic(x, i);
      var steps, states := DrainsTo(host, x, first);
      PanicsAt(host, x, steps, states);
      assert Drain(host, x, steps, states) && CopyPanics(states[|steps|]);
    }
  }

  lemma {:induction false} FirstPanic(x: Link, i: nat) returns (first: nat)
    requires i < |x.cap.pending| && LookedUp(x, i) && Find(x.task.captures, x.cap.pending[i].0).None?
    ensures first <= i && LookedUp(x, first) && Find(x.task.captures, x.cap.pending[first].0).None?
    ensures forall j :: 0 <= j < first ==> !(LookedUp(x, j) && Find(x.task.captures, x.cap.pending[j].0).None?)
    decreases i
  {
    if j: nat :| j < i && LookedUp(x, j) && Find(x.task.captures, x.cap.pending[j].0).None? {
      first := FirstPanic(x, j);
    } else {
      first := i;
    }
  }

  /** Every copy in the queue is for a handle that is still registered. */
  predicate QueueRegistered(x: Link) {
    forall i :: 0 <= i < |x.cap.pending| ==> x.cap.pending[i].0 in x.cap.idMap
  }

  /**
   After a handle is destroyed, draining the queue, with nothing else in between, panics exactly if a copy is queued
   for it that will be looked up.
   */
  lemma DrainPanicsExactly(host: Host, x: Link, h: Handle, order: seq<u32>)
    requires Ready(x) && QueueRegistered(x) && Runs(host, x, Service(DestroyCapture(h), order))
    ensures Survives(host, Next(host, x, Service(DestroyCapture(h), order)))
            <==> forall i :: 0 <= i < |x.cap.pending| && x.cap.pending[i].0 == h ==> !LookedUp(x, i)
  {
    DestroyRequestResult(host, x, h, order);
    var y := Next(host, x, Service(DestroyCapture(h), order));
    SurvivesExactly(host, y);
    FindUnregistered(x.task.captures, h, h);
    FindsOthersAfterDestroy(x.task.captures, h);
    forall i | 0 <= i < |x.cap.pending|
      ensures Find(y.task.captures, y.cap.pending[i].0).None? <==> x.cap.pending[i].0 == h
      ensures LookedUp(y, i) <==> LookedUp(x, i)
    {
      assert x.cap.pending[i].0 in x.cap.idMap;
    }
  }

  /**
   With a capture under way and the chord not down, that is: exactly if any copy at all is queued for it.
   */
  lemma DrainWhileCapturingPanicsExactly(host: Host, x: Link, h: Handle, order: seq<u32>)
    requires Ready(x) && QueueRegistered(x) && Runs(host, x, Service(DestroyCapture(h), order))
    requires x.at.Some? && !KeysPressed(x.cap.pressedKeys, x.task.releaseBind)
    ensures Survives(host, Next(host, x, Service(DestroyCapture(h), order))) <==> !Queued(x.cap.pending, h)
  {
    DrainPanicsExactly(host, x, h, order);
    forall i | 0 <= i < |x.cap.pending|
      ensures LookedUp(x, i)
    {
      assert !x.cap.pending[i].1.AutoRelease?;
    }
  }

  //
  // Everything that can follow
  //

  /** A copy other than of an AutoRelease is queued for the handle. */
  predicate InputQueued(pending: seq<Item>, h: Handle) {
    exists i :: 0 <= i < |pending| && pending[i].0 == h && !pending[i].1.AutoRelease?
  }

  /**
   What the rest of the program may do while the connections of the clients in `open` are up: geometry messages come
   over open connections, requests are admissible, and no handle is destroyed that has an open connection or queued
   input.
   */
  predicate Possible(host: Host, x: Link, s: Step, open: set<Handle>) {
    && Flushes(host, x, s)
    && match s
       case Poll(_, _, _) => true
       case Peer(h, m, _) => Geometry(m) ==> h in open
       case Service(r, _) =>
         && Admissible(x.task, x.cap, r)
         && (r.DestroyCapture? ==> r.handle !in open && !InputQueued(x.cap.pending, r.handle))
  }

  /** A run from any state of steps that do not panic. */
  ghost predicate Execution(host: Host, x: Link, steps: seq<Step>, states: seq<Link>) {
    && |states| == |steps| + 1
    && states[0] == x
    && forall n {:trigger steps[n]} :: 0 <= n < |steps| ==>
        Runs(host, states[n], steps[n]) && states[n + 1] == Next(host, states[n], steps[n])
  }

  ghost predicate Continuation(host: Host, x: Link, open: set<Handle>, steps: seq<Step>, states: seq<Link>) {
    && Execution(host, x, steps, states)
    && forall n {:trigger steps[n]} :: 0 <= n < |steps| ==> Possible(host, states[n], steps[n], open)
  }

  /** No continuation, however long, leads to a step that panics. */
  ghost predicate CrashFree(host: Host, x: Link, open: set<Handle>) {
    forall steps, states, s ::
      Continuation(host, x, open, steps, states) && Possible(host, states[|steps|], s, open) ==>
        !Panics(host, states[|steps|], s)
  }

  /** Clients with an open connection, and handles with queued input, are registered. */
  ghost predicate Reachable(x: Link, open: set<Handle>) {
    && open <= x.cap.idMap.Keys
    && forall i :: 0 <= i < |x.cap.pending| && !x.cap.pending[i].1.AutoRelease? ==> x.cap.pending[i].0 in x.cap.idMap
  }

  /** What a step makes of the registered handles. */
  function HandlesAfter(ids: set<Handle>, s: Step): set<Handle> {
    if s.Service? && s.request.CreateCapture? then ids + {s.request.handle}
    else if s.Service? && s.request.DestroyCapture? then ids - {s.request.handle}
    else ids
  }

  lemma StepStaysMapped(host: Host, x: Link, s: Step)
    requires Mapped(x) && Runs(host, x, s)
    ensures Mapped(Next(host, x, s)) && Next(host, x, s).cap.idMap.Keys == HandlesAfter(x.cap.idMap.Keys, s)
  {
    if s.Service? && s.request.CreateCapture? {
      CreateStaysMapped(host, x, s.request.handle, s.request.pos, s.request.kind, s.order);
    } else if s.Service? && s.request.DestroyCapture? {
      DestroyStaysMapped(host, x, s.request.handle, s.order);
    } else {
      OthersKeepMaps(host, x, s);
    }
  }

  lemma CreateStaysMapped(host: Host, x: Link, h: Handle, pos: Position, kind: CaptureType, order: seq<u32>)
    requires Mapped(x) && Runs(host, x, Service(CreateCapture(h, pos, kind), order))
    ensures var y := Next(host, x, Service(CreateCapture(h, pos, kind), order));
            Mapped(y) && y.cap.idMap.Keys == x.cap.idMap.Keys + {h}
  {
    CreateRequestResult(host, x, h, pos, kind, order);
    CreatedKeepsInverse(x.cap, h, pos);
    CreateKeepsRegistered(x.task.captures, x.cap.idMap, h, pos, kind);
  }

  lemma DestroyStaysMapped(host: Host, x: Link, h: Handle, order: seq<u32>)
    requires Mapped(x) && Runs(host, x, Service(DestroyCapture(h), order))
    ensures var y := Next(host, x, Service(DestroyCapture(h), order));
            Mapped(y) && y.cap.idMap.Keys == x.cap.idMap.Keys - {h} && y.cap.pending == x.cap.pending
  {
    DestroyRequestResult(host, x, h, order);
    DestroyedKeepsInverse(x.cap, h);
    DestroyKeepsRegistered(x.task.captures, x.cap.idMap, h);
  }

  lemma OthersKeepMaps(host: Host, x: Link, s: Step)
    requires Runs(host, x, s) && (s.Service? ==> !s.request.CreateCapture? && !s.request.DestroyCapture?)
    ensures var y := Next(host, x, s);
            && y.task.captures == x.task.captures
            && y.cap.idMap == x.cap.idMap && y.cap.positionMap == x.cap.positionMap
            && (!s.Poll? ==> y.cap.pending == x.cap.pending)
            && (s.Poll? ==> y.cap.pending == Polled(host, x.cap, s.elapsed, s.arrival).0.pending)
  {
    match s
    case Poll(elapsed, arrival, order) => PollKeepsMaps(host, x, elapsed, arrival, order);
    case Peer(_, _, _) =>
    case Service(_, _) =>
  }

  lemma PollKeepsMaps(host: Host, x: Link, elapsed: bool, arrival: Arrival, order: seq<u32>)
    requires Runs(host, x, Poll(elapsed, arrival, order))
    ensures var y, (c1, out) := Next(host, x, Poll(elapsed, arrival, order)), Polled(host, x.cap, elapsed, arrival);
            && y.task.captures == x.task.captures && y.cap.pending == c1.pending
            && y.cap.idMap == x.cap.idMap && y.cap.positionMap == x.cap.positionMap
  {
    var (c1, out) := Polled(host, x.cap, elapsed, arrival);
    PolledKeepsMaps(host, x.cap, elapsed, arrival);
    if out.Yield? {
      HandledKeeps(host, x.task, c1, out.item.0, out.item.1, order);
    }
  }

  lemma PolledKeepsMaps(host: Host, c: Capture, elapsed: bool, arrival: Arrival)
    ensures var c1 := Polled(host, c, elapsed, arrival).0; c1.idMap == c.idMap && c1.positionMap == c.positionMap
  {
  }

  lemma StepKeepsReachable(host: Host, x: Link, s: Step, open: set<Handle>)
    requires Mapped(x) && Reachable(x, open) && Possible(host, x, s, open)
    ensures Runs(host, x, s) && Mapped(Next(host, x, s)) && Reachable(Next(host, x, s), open)
  {
    StepPanicsExactly(host, x, s);
    RunsExactly(host, x, s);
    StepStaysMapped(host, x, s);
    match s
    case Poll(elapsed, arrival, _) => PollKeepsReachable(host, x, elapsed, arrival, s.order, open);
    case Peer(_, _, _) => OthersKeepMaps(host, x, s);
    case Service(r, order) => ServiceKeepsReachable(host, x, r, order, open);
  }

  lemma ServiceKeepsReachable(host: Host, x: Link, r: Request, order: seq<u32>, open: set<Handle>)
    requires Mapped(x) && Reachable(x, open) && Runs(host, x, Service(r, order))
    requires r.DestroyCapture? ==> r.handle !in open && !InputQueued(x.cap.pending, r.handle)
    ensures Reachable(Next(host, x, Service(r, order)), open)
  {
    match r
    case CreateCapture(h, pos, kind) => CreateRequestResult(host, x, h, pos, kind, order);
    case DestroyCapture(h) => DestroyStaysMapped(host, x, h, order);
    case _ => OthersKeepMaps(host, x, Service(r, order));
  }

  lemma PollKeepsReachable(host: Host, x: Link, elapsed: bool, arrival: Arrival, order: seq<u32>, open: set<Handle>)
    requires Mapped(x) && Reachable(x, open) && Runs(host, x, Poll(elapsed, arrival, order))
    ensures Reachable(Next(host, x, Poll(elapsed, arrival, order)), open)
  {
    PollKeepsMaps(host, x, elapsed, arrival, order);
    if x.cap.pending == [] {
      FreshCopiesAreRegistered(host, x, elapsed, arrival);
    }
  }

  lemma ContinuationStep(host: Host, x: Link, open: set<Handle>, steps: seq<Step>, states: seq<Link>, n: nat)
    requires Continuation(host, x, open, steps, states) && n < |steps|
    ensures Possible(host, states[n], steps[n], open)
    ensures Runs(host, states[n], steps[n]) && states[n + 1] == Next(host, states[n], steps[n])
  {
  }

  lemma ContinuationStaysReachable(host: Host, x: Link, open: set<Handle>, steps: seq<Step>, states: seq<Link>, n: nat)
    requires Mapped(x) && Reachable(x, open) && Continuation(host, x, open, steps, states) && n <= |steps|
    ensures Mapped(states[n]) && Reachable(states[n], open)
  {
    for i := 0 to n
      invariant Mapped(states[i]) && Reachable(states[i], open)
    {
      ContinuationStep(host, x, open, steps, states, i);
      StepKeepsReachable(host, states[i], steps[i], open);
    }
  }

  lemma Precede(host: Host, x: Link, open: set<Handle>, s: Step, steps: seq<Step>, states: seq<Link>)
    requires Runs(host, x, s) && Possible(host, x, s, open)
    requires Continuation(host, Next(host, x, s), open, steps, states)
    ensures Continuation(host, x, open, [s] + steps, [x] + states)
  {
    var steps', states' := [s] + steps, [x] + states;
    forall n | 0 <= n < |steps'|
      ensures Runs(host, states'[n], steps'[n]) && states'[n + 1] == Next(host, states'[n], steps'[n])
      ensures Possible(host, states'[n], steps'[n], open)
    {
      if n > 0 {
        assert steps'[n] == steps[n - 1];
        ContinuationStep(host, Next(host, x, s), open, steps, states, n - 1);
      }
    }
  }

  lemma DrainIsPossible(host: Host, x: Link, open: set<Handle>, steps: seq<Step>, states: seq<Link>)
    requires Drain(host, x, steps, states)
    ensures Continuation(host, x, open, steps, states)
  {
    forall n | 0 <= n < |steps|
      ensures Possible(host, states[n], steps[n], open)
    {
      RunsExactly(host, states[n], steps[n]);
    }
  }

  /** With no client controlled any more, a geometry message over an open connection finds its client gone. */
  lemma OpenConnectionCrashes(host: Host, x: Link, open: set<Handle>, h: Handle)
    requires Mapped(x) && h in open && h !in x.cap.idMap
    ensures !CrashFree(host, x, open)
  {
    var order := SomeOrder(x.cap.pressedKeys);
    var handover := Service(ReleaseForHandover, order);
    var steps, states := [handover], [x, Next(host, x, handover)];
    var s := Peer(h, PeerBounds((0, 0)), []);
    assert Continuation(host, x, open, steps, states);
    OthersKeepMaps(host, x, handover);
    StepPanicsExactly(host, states[1], s);
    assert Possible(host, states[|steps|], s, open) && Panics(host, states[|steps|], s);
  }

  /** With the bind set to a key that is up, the queue drains to the first copy for a handle that is gone. */
  lemma QueuedInputCrashes(host: Host, x: Link, open: set<Handle>, up: u32, i: nat)
    requires Mapped(x) && up !in x.cap.pressedKeys && i < |x.cap.pending|
    requires !x.cap.pending[i].1.AutoRelease? && x.cap.pending[i].0 !in x.cap.idMap
    ensures !CrashFree(host, x, open)
  {
    var order := SomeOrder(x.cap.pressedKeys);
    var rebind := Service(SetReleaseBind([up]), order);
    var z := Next(host, x, rebind);
    assert [up][0] !in z.cap.pressedKeys;
    assert LookedUp(z, i);
    SurvivesExactly(host, z);
    var drain, drained: seq<Link> :| Drain(host, z, drain, drained) && CopyPanics(drained[|drain|]);
    var order' := SomeOrder(drained[|drain|].cap.pressedKeys);
    var s := Poll(false, Quiet, order');
    DrainIsPossible(host, z, open, drain, drained);
    Precede(host, x, open, rebind, drain, drained);
    CopyPanicsNext(host, drained[|drain|], open, s);
    var steps, states := [rebind] + drain, [x] + drained;
    assert states[|steps|] == drained[|drain|];
    assert Continuation(host, x, open, steps, states);
  }

  lemma CopyPanicsNext(host: Host, x: Link, open: set<Handle>, s: Step)
    requires CopyPanics(x) && s.Poll? && Enumerates(s.order, x.cap.pressedKeys)
    ensures Possible(host, x, s, open) && Panics(host, x, s)
  {
  }

  /** Both causes together, for everything that can follow. `up` is any key that is not down. */
  lemma CrashFreeExactly(host: Host, x: Link, open: set<Handle>, up: u32)
    requires Mapped(x) && up !in x.cap.pressedKeys
    ensures CrashFree(host, x, open) <==> Reachable(x, open)
  {
    if Reachable(x, open) {
      forall steps, states, s |
          Continuation(host, x, open, steps, states) && Possible(host, states[|steps|], s, open)
        ensures !Panics(host, states[|steps|], s)
      {
        ContinuationStaysReachable(host, x, open, steps, states, |steps|);
        StepKeepsReachable(host, states[|steps|], s, open);
        RunsExactly(host, states[|steps|], s);
      }
    } else if h :| h in open && h !in x.cap.idMap {
      OpenConnectionCrashes(host, x, open, h);
    } else {
      var i :| 0 <= i < |x.cap.pending| && !x.cap.pending[i].1.AutoRelease? && x.cap.pending[i].0 !in x.cap.idMap;
      QueuedInputCrashes(host, x, open, up, i);
    }
  }

  /**
   Destroying a capture lets nothing that follows panic exactly if its client's connection is closed and no input is
   queued for it.
   */
  lemma DestroyPanicsExactly(host: Host, x: Link, h: Handle, order: seq<u32>, open: set<Handle>, up: u32)
    requires Mapped(x) && Reachable(x, open) && up !in x.cap.pressedKeys
    requires Runs(host, x, Service(DestroyCapture(h), order))
    ensures CrashFree(host, Next(host, x, Service(DestroyCapture(h), order)), open)
            <==> h !in open && !InputQueued(x.cap.pending, h)
  {
    DestroyStaysMapped(host, x, h, order);
    DestroyRequestResult(host, x, h, order);
    CrashFreeExactly(host, Next(host, x, Service(DestroyCapture(h), order)), open, up);
  }

  lemma ExecutionStep(host: Host, x: Link, steps: seq<Step>, states: seq<Link>, n: nat)
    requires Execution(host, x, steps, states) && n < |steps| && Mapped(states[n])
    ensures Mapped(states[n + 1]) && states[n + 1].cap.idMap.Keys == HandlesAfter(states[n].cap.idMap.Keys, steps[n])
  {
    StepStaysMapped(host, states[n], steps[n]);
  }

  lemma ExecutionStaysMapped(host: Host, x: Link, steps: seq<Step>, states: seq<Link>, n: nat)
    requires Mapped(x) && Execution(host, x, steps, states) && n <= |steps|
    ensures Mapped(states[n])
  {
    for i := 0 to n
      invariant Mapped(states[i])
    {
      ExecutionStep(host, x, steps, states, i);
    }
  }

  lemma {:induction false} StaysUnregistered(host: Host, x: Link, h: Handle, steps: seq<Step>, states: seq<Link>,
      n: nat)
    requires Mapped(x) && h !in x.cap.idMap && Execution(host, x, steps, states) && n <= |steps|
    requires forall i :: 0 <= i < n && steps[i].Service? && steps[i].request.CreateCapture? ==>
               steps[i].request.handle != h
    ensures Mapped(states[n]) && h !in states[n].cap.idMap
  {
    if n > 0 {
      StaysUnregistered(host, x, h, steps, states, n - 1);
      ExecutionStep(host, x, steps, states, n - 1);
    }
  }

  /**
   Until it is registered again, a message of the destroyed client panics exactly if it reports geometry and comes
   while no other client is controlled.
   */
  lemma MessagePanicsExactly(host: Host, x: Link, h: Handle, order: seq<u32>, steps: seq<Step>, states: seq<Link>,
      m: PeerMsg, order': seq<u32>)
    requires Mapped(x) && Runs(host, x, Service(DestroyCapture(h), order))
    requires Execution(host, Next(host, x, Service(DestroyCapture(h), order)), steps, states)
    requires forall i :: 0 <= i < |steps| && steps[i].Service? && steps[i].request.CreateCapture? ==>
               steps[i].request.handle != h
    ensures var z := states[|steps|];
            Panics(host, z, Peer(h, m, order')) <==>
              Geometry(m) && (z.task.active.None? || z.task.active == Some(h))
  {
    var y := Next(host, x, Service(DestroyCapture(h), order));
    DestroyStaysMapped(host, x, h, order);
    StaysUnregistered(host, y, h, steps, states, |steps|);
    StepPanicsExactly(host, states[|steps|], Peer(h, m, order'));
  }
}
