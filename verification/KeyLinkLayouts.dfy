/**
 Which handle layouts keep clients free of stuck keys: exactly those where every Default handle comes first at its
 position. With a Default handle further back, the copy of a key-down still queued for it when the capture is
 released is forwarded after the farewell.
 */
module KeyLinkLayouts {
  import opened Wrappers
  import opened Bytes
  import opened Collections
  import opened Positions
  import opened CaptureModel
  import opened CaptureState
  import opened CaptureSession
  import opened KeyLog
  import opened KeyLink
  import F = KeyFlow
  import E = EmulationState

  ghost predicate Path(host: Host, x: Link, steps: seq<Step>, states: seq<Link>) {
    && |states| == |steps| + 1
    && states[0] == x
    && forall n {:trigger steps[n]} :: 0 <= n < |steps| ==>
        Allowed(host, states[n], steps[n]) && states[n + 1] == Next(host, states[n], steps[n])
  }

  /** No client is left holding a key while it is not being controlled. */
  ghost predicate Unstuck(x: Link) {
    forall c: Client :: x.task.active != Some(c) ==> Held(x.task.sent, c) == {}
  }

  /** A session between captures: handles are registered, nothing is queued, pressed or held. */
  ghost predicate Idle(x: Link) {
    && Inverse(x.cap.idMap, x.cap.positionMap) && Registered(x.task.captures, x.cap.idMap)
    && x.cap.pending == [] && x.at.None? && x.task.active.None? && x.cap.pressedKeys == {}
    && F.Settled(FlowOf(x.task, x.cap))
  }

  //
  // Sound layouts
  //

  lemma PathStep(host: Host, x: Link, steps: seq<Step>, states: seq<Link>, n: nat)
    requires Path(host, x, steps, states) && n < |steps|
    ensures Allowed(host, states[n], steps[n]) && states[n + 1] == Next(host, states[n], steps[n])
  {
  }

  lemma StepStaysSettled(host: Host, x: Link, s: Step)
    requires Ready(x) && F.Settled(FlowOf(x.task, x.cap)) && Allowed(host, x, s)
    ensures var y := Next(host, x, s); Ready(y) && F.Settled(FlowOf(y.task, y.cap))
  {
    var f := StepEffect(host, x, s);
    F.StaysSettled(FlowOf(x.task, x.cap), f);
  }

  lemma {:induction false} PathStaysSettled(host: Host, x: Link, steps: seq<Step>, states: seq<Link>, n: nat)
    requires Ready(x) && F.Settled(FlowOf(x.task, x.cap)) && Path(host, x, steps, states) && n <= |steps|
    ensures Ready(states[n]) && F.Settled(FlowOf(states[n].task, states[n].cap))
  {
    if n > 0 {
      PathStaysSettled(host, x, steps, states, n - 1);
      PathStep(host, x, steps, states, n - 1);
      StepStaysSettled(host, states[n - 1], steps[n - 1]);
    }
  }

  lemma SoundLayoutsStayUnstuck(host: Host, x: Link, steps: seq<Step>, states: seq<Link>)
    requires Idle(x) && DefaultsComeFirst(x.task.captures, x.cap.positionMap) && Path(host, x, steps, states)
    ensures Unstuck(states[|steps|])
  {
    PathStaysSettled(host, x, steps, states, |steps|);
  }

  //
  // Unsound layouts
  //

  lemma Prepend(host: Host, x: Link, s: Step, steps: seq<Step>, states: seq<Link>)
    requires Allowed(host, x, s) && Path(host, Next(host, x, s), steps, states)
    ensures Path(host, x, [s] + steps, [x] + states)
  {
    var steps', states' := [s] + steps, [x] + states;
    forall n | 0 <= n < |steps'|
      ensures Allowed(host, states'[n], steps'[n]) && states'[n + 1] == Next(host, states'[n], steps'[n])
    {
      if n > 0 { assert steps'[n] == steps[n - 1]; }
    }
  }

  lemma {:induction false} Join(host: Host, x: Link, s1: seq<Step>, x1: seq<Link>, s2: seq<Step>, x2: seq<Link>)
    requires Path(host, x, s1, x1) && Path(host, x1[|s1|], s2, x2)
    ensures Path(host, x, s1 + s2, x1 + x2[1..])
  {
    var s, y := s1 + s2, x1 + x2[1..];
    forall n | 0 <= n < |s|
      ensures Allowed(host, y[n], s[n]) && y[n + 1] == Next(host, y[n], s[n])
    {
      if n < |s1| {
        assert s[n] == s1[n];
      } else {
        assert s[n] == s2[n - |s1|];
        assert y[n] == x2[n - |s1|];
      }
    }
  }

  /** Handling a copy that neither releases nor sits where no Default handle is leaves the wrapper alone. */
  lemma HandledQuietly(host: Host, t: Task, c: Capture, h: Handle, e: Event, order: seq<u32>)
    requires Find(t.captures, h).Some? && IsDefaultAt(t.captures, Find(t.captures, h).value.pos)
    requires !KeysPressed(c.pressedKeys, t.releaseBind) && (e.Key? || e == Event.Begin(None))
    ensures var (t2, c2) := Handled(host, t, c, h, e, order, true);
            && c2 == c && t2.captures == t.captures && t2.releaseBind == t.releaseBind
            && (e.Key? ==> t2.active == t.active)
            && (e.Key? && Find(t.captures, h).value.kind == Default ==>
               t2.sent == t.sent + [(h, Input(E.Key(e.code, e.state)))])
  {
    var reg := Find(t.captures, h).value;
    var msg := MessageFor(e, reg.pos.Opposite());
    assert CursorMessage(host, e, reg.pos.Opposite()) == [];
    assert t.sent + [(h, msg)] + SentTogether(h, []) == t.sent + [(h, msg)];
  }

  /** All queued copies are of the same event, for registered handles at a position with a Default handle. */
  ghost predicate Queue(x: Link, e: Event, pos: Position) {
    && (forall i :: 0 <= i < |x.cap.pending| ==>
        && x.cap.pending[i].1 == e && Find(x.task.captures, x.cap.pending[i].0).Some?
        && Find(x.task.captures, x.cap.pending[i].0).value.pos == pos)
    && IsDefaultAt(x.task.captures, pos) && x.cap.pressedKeys == {} && x.task.releaseBind != []
  }

  const POP: Step := Poll(false, Quiet, [])

  lemma Pops(host: Host, x: Link, e: Event, pos: Position)
    requires Queue(x, e, pos) && x.cap.pending != [] && (e.Key? || e == Event.Begin(None))
    ensures Allowed(host, x, POP)
    ensures var y := Next(host, x, POP); var h := x.cap.pending[0].0;
            && y.cap == x.cap.(pending := x.cap.pending[1..]) && y.at == x.at && Queue(y, e, pos)
            && y.task.captures == x.task.captures && y.task.releaseBind == x.task.releaseBind
            && (e.Key? ==> y.task.active == x.task.active)
            && (e.Key? && Find(x.task.captures, h).value.kind == Default
                ==> y.task.sent == x.task.sent + [(h, Input(E.Key(e.code, e.state)))])
  {
    var (c1, out) := Popped(x.cap);
    assert x.task.releaseBind[0] !in x.cap.pressedKeys;
    HandledQuietly(host, x.task, c1, x.cap.pending[0].0, e, []);
  }

  /** Handing out every queued Begin copy leaves an empty queue and the capture under way. */
  lemma {:induction false} DrainsBegins(host: Host, x: Link, pos: Position)
    returns (steps: seq<Step>, states: seq<Link>)
    requires Queue(x, Event.Begin(None), pos)
    ensures Path(host, x, steps, states)
    ensures var y := states[|steps|];
            && y.cap == x.cap.(pending := []) && y.at == x.at
            && y.task.captures == x.task.captures && y.task.releaseBind == x.task.releaseBind
    decreases |x.cap.pending|
  {
    if x.cap.pending == [] {
      steps, states := [], [x];
    } else {
      Pops(host, x, Event.Begin(None), pos);
      var y := Next(host, x, POP);
      var rest, restStates := DrainsBegins(host, y, pos);
      Prepend(host, x, POP, rest, restStates);
      steps, states := [POP] + rest, [x] + restStates;
    }
  }

  /** Handing out key copies down to the `m`-th sends that key to the `m`-th handle, if it is a Default one. */
  lemma {:induction false} DrainsKeys(host: Host, x: Link, pos: Position, code: u32,
      m: nat)
    returns (steps: seq<Step>, states: seq<Link>)
    requires Queue(x, Key(code, 1), pos) && m < |x.cap.pending|
    requires Find(x.task.captures, x.cap.pending[m].0).value.kind == Default && x.task.active.None?
    ensures Path(host, x, steps, states)
    ensures states[|steps|].task.active.None? && code in Held(states[|steps|].task.sent, x.cap.pending[m].0)
    decreases m
  {
    Pops(host, x, Key(code, 1), pos);
    var y := Next(host, x, POP);
    if m == 0 {
      steps, states := [POP], [x, y];
      Appended(x.task.sent, (x.cap.pending[0].0, Input(E.Key(code, 1))), x.cap.pending[0].0);
    } else {
      assert y.cap.pending[m - 1] == x.cap.pending[m];
      var rest, restStates := DrainsKeys(host, y, pos, code, m - 1);
      Prepend(host, x, POP, rest, restStates);
      steps, states := [POP] + rest, [x] + restStates;
    }
  }

  lemma ArrivalYields(host: Host, c: Capture, pos: Position, e: Event)
    requires c.pending == [] && pos in c.positionMap && c.positionMap[pos] != []
    ensures Polled(host, c, false, Arrived(pos, e))
            == (Consumed(host, c, pos, e).(pending := Copies(c.positionMap[pos], e)[1..]),
                Yield((c.positionMap[pos][0], e)))
  {
    assert Consumed(host, c, pos, e).pending == Copies(c.positionMap[pos], e);
  }

  /** The backend's next event, with nothing queued and no deadline elapsed, goes to the first handle there. */
  lemma Arrives(host: Host, x: Link, pos: Position, e: Event, order: seq<u32>)
    requires x.cap.pending == [] && pos in x.cap.positionMap && x.cap.positionMap[pos] != []
             && (e.Key? || e == Event.Begin(None))
    requires if e.Begin? then x.at.None? else x.at == Some(pos)
    requires var first := x.cap.positionMap[pos][0];
             Find(x.task.captures, first).Some? && IsDefaultAt(x.task.captures, Find(x.task.captures, first).value.pos)
    requires var keys := Consumed(host, x.cap, pos, e).pressedKeys;
             !KeysPressed(keys, x.task.releaseBind) && Enumerates(order, keys)
    ensures Allowed(host, x, Poll(false, Arrived(pos, e), order))
    ensures var y := Next(host, x, Poll(false, Arrived(pos, e), order));
            && y.cap == Consumed(host, x.cap, pos, e).(pending := Copies(x.cap.positionMap[pos], e)[1..])
               && y.at == Some(pos)
            && y.task.captures == x.task.captures && y.task.releaseBind == x.task.releaseBind
  {
    ArrivalYields(host, x.cap, pos, e);
    var c1 := Consumed(host, x.cap, pos, e).(pending := Copies(x.cap.positionMap[pos], e)[1..]);
    HandledQuietly(host, x.task, c1, x.cap.positionMap[pos][0], e, order);
  }

  lemma CopiesQueue(x: Link, c: Capture, e: Event, pos: Position)
    requires Inverse(c.idMap, c.positionMap) && Registered(x.task.captures, c.idMap)
    requires pos in c.positionMap && IsDefaultAt(x.task.captures, pos)
    requires x.cap.pending == Copies(c.positionMap[pos], e)[1..] && x.cap.pressedKeys == {} && x.task.releaseBind != []
    ensures Queue(x, e, pos)
  {
    forall i | 0 <= i < |x.cap.pending|
      ensures x.cap.pending[i].1 == e && Find(x.task.captures, x.cap.pending[i].0).Some?
      ensures Find(x.task.captures, x.cap.pending[i].0).value.pos == pos
    {
      assert x.cap.pending[i].0 == c.positionMap[pos][i + 1];
      assert c.positionMap[pos][i + 1] in c.positionMap[pos];
    }
  }

  /** From a Begin to an empty queue: the capture is under way and no key is pressed. */
  lemma BeginsAndDrains(host: Host, x: Link, pos: Position) returns (steps: seq<Step>, states: seq<Link>)
    requires Idle(x) && x.task.releaseBind != [] && pos in x.cap.positionMap && IsDefaultAt(x.task.captures, pos)
    ensures Path(host, x, steps, states)
    ensures var y := states[|steps|];
            && y.cap.pending == [] && y.cap.pressedKeys == {} && y.at == Some(pos)
            && y.cap.positionMap == x.cap.positionMap && y.cap.idMap == x.cap.idMap
            && y.task.captures == x.task.captures && y.task.releaseBind == x.task.releaseBind
  {
    var e := Event.Begin(None);
    FirstIsRegistered(x.task, x.cap, pos);
    assert x.task.releaseBind[0] !in x.cap.pressedKeys;
    Arrives(host, x, pos, e, []);
    var s := Poll(false, Arrived(pos, e), []);
    var y := Next(host, x, s);
    CopiesQueue(y, x.cap, e, pos);
    var rest, restStates := DrainsBegins(host, y, pos);
    Prepend(host, x, s, rest, restStates);
    steps, states := [s] + rest, [x] + restStates;
  }

  lemma FirstIsRegistered(t: Task, c: Capture, pos: Position)
    requires Inverse(c.idMap, c.positionMap) && Registered(t.captures, c.idMap) && pos in c.positionMap
    ensures Find(t.captures, c.positionMap[pos][0]).Some? && Find(t.captures, c.positionMap[pos][0]).value.pos == pos
  {
    assert c.positionMap[pos][0] in c.positionMap[pos];
  }

  /** A key that alone does not complete the release bind. */
  function HarmlessKey(bind: seq<u32>): (k: u32)
    requires bind != []
    ensures k <= LAST_SCANCODE && !KeysPressed({k}, bind)
  {
    var k := if bind[0] == 30 then 31 else 30;
    assert bind[0] !in {k};
    k
  }

  lemma HandsOver(host: Host, y: Link, order: seq<u32>)
    requires Enumerates(order, y.cap.pressedKeys)
    ensures Allowed(host, y, Service(ReleaseForHandover, order))
    ensures var z := Next(host, y, Service(ReleaseForHandover, order));
            && z.cap.pending == y.cap.pending && z.cap.pressedKeys == {}
            && z.task.active.None? && z.task.captures == y.task.captures && z.task.releaseBind == y.task.releaseBind
  {
  }

  /** Key copies queued after a release still go out, to a client that is no longer being controlled. */
  lemma LeftoverCopiesStick(host: Host, z: Link, c: Capture, pos: Position, i: nat, k: u32)
    returns (steps: seq<Step>, states: seq<Link>)
    requires Inverse(c.idMap, c.positionMap) && Registered(z.task.captures, c.idMap)
    requires pos in c.positionMap && 0 < i < |c.positionMap[pos]| && IsDefaultAt(z.task.captures, pos)
    requires Find(z.task.captures, c.positionMap[pos][i]).Some?
    requires Find(z.task.captures, c.positionMap[pos][i]).value.kind == Default
    requires z.cap.pending == Copies(c.positionMap[pos], Key(k, 1))[1..]
    requires z.cap.pressedKeys == {} && z.task.active.None? && z.task.releaseBind != []
    ensures Path(host, z, steps, states) && !Unstuck(states[|steps|])
  {
    CopiesQueue(z, c, Key(k, 1), pos);
    assert z.cap.pending[i - 1].0 == c.positionMap[pos][i];
    steps, states := DrainsKeys(host, z, pos, k, i - 1);
  }

  /** A handover while key copies are queued: the later copies go out after the farewell. */
  lemma HandsOverTooEarly(host: Host, y: Link, c: Capture, pos: Position, i: nat, k: u32)
    returns (steps: seq<Step>, states: seq<Link>)
    requires Inverse(c.idMap, c.positionMap) && Registered(y.task.captures, c.idMap)
    requires pos in c.positionMap && 0 < i < |c.positionMap[pos]| && IsDefaultAt(y.task.captures, pos)
    requires Find(y.task.captures, c.positionMap[pos][i]).Some?
    requires Find(y.task.captures, c.positionMap[pos][i]).value.kind == Default
    requires y.cap.pending == Copies(c.positionMap[pos], Key(k, 1))[1..] && y.cap.pressedKeys == {k}
             && y.task.releaseBind != []
    ensures Path(host, y, steps, states) && !Unstuck(states[|steps|])
  {
    var handover := Service(ReleaseForHandover, [k]);
    HandsOver(host, y, [k]);
    var rest, restStates := LeftoverCopiesStick(host, Next(host, y, handover), c, pos, i, k);
    Prepend(host, y, handover, rest, restStates);
    steps, states := [handover] + rest, [y] + restStates;
    assert states[|steps|] == restStates[|rest|];
  }

  /** A key pressed and a handover right after its first copy. */
  lemma ReleasesTooEarly(host: Host, x: Link, pos: Position, i: nat) returns (steps: seq<Step>, states: seq<Link>)
    requires x.cap.pending == [] && x.cap.pressedKeys == {} && x.at == Some(pos) && x.task.releaseBind != []
    requires Inverse(x.cap.idMap, x.cap.positionMap) && Registered(x.task.captures, x.cap.idMap)
    requires pos in x.cap.positionMap && 0 < i < |x.cap.positionMap[pos]|
    requires Find(x.task.captures, x.cap.positionMap[pos][i]).Some?
    requires Find(x.task.captures, x.cap.positionMap[pos][i]).value.kind == Default
    requires IsDefaultAt(x.task.captures, pos)
    ensures Path(host, x, steps, states) && !Unstuck(states[|steps|])
  {
    var k := HarmlessKey(x.task.releaseBind);
    var press := Poll(false, Arrived(pos, Key(k, 1)), [k]);
    FirstIsRegistered(x.task, x.cap, pos);
    assert Consumed(host, x.cap, pos, Key(k, 1)).pressedKeys == {k};
    Arrives(host, x, pos, Key(k, 1), [k]);
    var y := Next(host, x, press);
    var rest, restStates := HandsOverTooEarly(host, y, x.cap, pos, i, k);
    Prepend(host, x, press, rest, restStates);
    steps, states := [press] + rest, [x] + restStates;
    assert states[|steps|] == restStates[|rest|];
  }

  lemma DefaultIsAt(t: Task, c: Capture, pos: Position, i: nat)
    requires Inverse(c.idMap, c.positionMap) && Registered(t.captures, c.idMap)
    requires pos in c.positionMap && i < |c.positionMap[pos]| && !EnterOnlyHandle(t.captures, c.positionMap[pos][i])
    ensures Find(t.captures, c.positionMap[pos][i]).Some?
             && Find(t.captures, c.positionMap[pos][i]).value.kind == Default
    ensures IsDefaultAt(t.captures, pos)
  {
    var h := c.positionMap[pos][i];
    assert h in c.positionMap[pos];
    var reg := Find(t.captures, h).value;
    assert reg in t.captures && reg.pos == pos;
  }

  lemma UnsoundLayoutsGetStuck(host: Host, x: Link) returns (steps: seq<Step>, states: seq<Link>)
    requires Idle(x) && x.task.releaseBind != [] && !DefaultsComeFirst(x.task.captures, x.cap.positionMap)
    ensures Path(host, x, steps, states) && !Unstuck(states[|steps|])
  {
    var pos, i :| pos in x.cap.positionMap && 0 < i < |x.cap.positionMap[pos]|
        && !EnterOnlyHandle(x.task.captures, x.cap.positionMap[pos][i]);
    DefaultIsAt(x.task, x.cap, pos, i);
    var s1, x1 := BeginsAndDrains(host, x, pos);
    var s2, x2 := ReleasesTooEarly(host, x1[|s1|], pos, i);
    Join(host, x, s1, x1, s2, x2);
    steps, states := s1 + s2, x1 + x2[1..];
    assert states[|steps|] == x2[|s2|];
  }

  /** With a release bind set, the layouts free of stuck keys are exactly those with every Default handle first. */
  lemma SoundLayoutsExactly(host: Host, x: Link)
    requires Idle(x) && x.task.releaseBind != []
    ensures DefaultsComeFirst(x.task.captures, x.cap.positionMap)
            <==> forall steps, states :: Path(host, x, steps, states) ==> Unstuck(states[|steps|])
  {
    if DefaultsComeFirst(x.task.captures, x.cap.positionMap) {
      forall steps, states | Path(host, x, steps, states)
        ensures Unstuck(states[|steps|])
      {
        SoundLayoutsStayUnstuck(host, x, steps, states);
      }
    } else {
      var steps, states := UnsoundLayoutsGetStuck(host, x);
      assert Path(host, x, steps, states) && !Unstuck(states[|steps|]);
    }
  }
}
