/**
 The receiving side's key bookkeeping as a value: which handles exist, which keys each holds down, and what has
 been sent to the platform backend. The order in which a hash set is drained is not determined by the program,
 so it is a parameter: any enumeration of the set.
 */
module EmulationState {
  import opened Wrappers
  import opened Bytes
  import opened Collections

  /** Minted by counting up; the 64-bit counter is not modelled as wrapping. */
  type Handle = nat

  datatype Event =
    | Key(code: u32, state: byte)
    | Modifiers(depressed: u32, latched: u32, locked: u32, group: u32)
    | Motion(dx: real, dy: real)
    | Axis(value: real, momentum: bool)
    | AxisDiscrete(steps: int)
    | Clipboard
    | OtherInput(payload: nat)

  datatype Processing = Processing(naturalScroll: bool, sensitivity: real)

  const PASSTHROUGH := Processing(false, 1.0)
  const NO_MODIFIERS := Modifiers(0, 0, 0, 0)

  datatype Effect = Consume(handle: Handle, event: Event) | Create(handle: Handle) | Destroy(handle: Handle) | Terminate

  datatype Emulator = Emulator(
    handles: set<Handle>,
    pressedKeys: map<Handle, set<u32>>,
    processing: map<Handle, Processing>,
    effects: seq<Effect>)

  const FRESH := Emulator({}, map[], map[], [])

  function KeysOf(s: Emulator, h: Handle): set<u32> {
    if h in s.pressedKeys then s.pressedKeys[h] else {}
  }

  //
  // Operations
  //

  function Scaled(delta: real, factor: real): real {
    delta * factor
  }

  /** The event the backend is given for this one, unless it is swallowed; `macos` is the platform switch. */
  function Processed(pp: Processing, e: Event, macos: bool): Option<Event> {
    match e
    case Clipboard => None
    case Motion(dx, dy) =>
      Some(if pp.sensitivity != 1.0 then Motion(Scaled(dx, pp.sensitivity), Scaled(dy, pp.sensitivity)) else e)
    case Axis(value, momentum) =>
      if momentum && !macos then None else Some(if pp.naturalScroll then Axis(-value, momentum) else e)
    case AxisDiscrete(steps) => Some(if pp.naturalScroll then AxisDiscrete(-steps) else e)
    case _ => Some(e)
  }

  /** Whether a key event changes what the handle holds; an unknown handle holds nothing and takes nothing. */
  predicate Accepts(s: Emulator, h: Handle, code: u32, state: byte) {
    h in s.pressedKeys && (state == 0 <==> code in s.pressedKeys[h])
  }

  function Toggle(keys: set<u32>, code: u32, state: byte): set<u32> {
    if state == 0 then keys - {code} else keys + {code}
  }

  function Consumed(s: Emulator, e: Event, h: Handle, macos: bool): Emulator {
    var pp := if h in s.processing then s.processing[h] else PASSTHROUGH;
    match Processed(pp, e, macos)
    case None => s
    case Some(Key(code, state)) =>
      if Accepts(s, h, code, state) then
        s.(pressedKeys := s.pressedKeys[h := Toggle(s.pressedKeys[h], code, state)],
        effects := s.effects + [Consume(h, Key(code, state))])
      else s
    case Some(e') => s.(effects := s.effects + [Consume(h, e')])
  }

  function Created(s: Emulator, h: Handle): Emulator {
    if h in s.handles then s
    else s.(handles := s.handles + {h}, pressedKeys := s.pressedKeys[h := {}], effects := s.effects + [Create(h)])
  }

  function KeyUps(h: Handle, order: seq<u32>): (effects: seq<Effect>)
    ensures |effects| == |order|
    ensures forall i :: 0 <= i < |order| ==> effects[i] == Consume(h, Key(order[i], 0))
  {
    seq(|order|, i requires 0 <= i < |order| => Consume(h, Key(order[i], 0)))
  }

  /** Key-ups for everything held, then zero modifiers, even for a handle that was never created. */
  function KeysReleased(s: Emulator, h: Handle, order: seq<u32>): Emulator
    requires Enumerates(order, KeysOf(s, h))
  {
    s.(pressedKeys := if h in s.pressedKeys then s.pressedKeys[h := {}] else s.pressedKeys,
    effects := s.effects + KeyUps(h, order) + [Consume(h, NO_MODIFIERS)])
  }

  function Destroyed(s: Emulator, h: Handle, order: seq<u32>): Emulator
    requires Enumerates(order, KeysOf(s, h))
  {
    var s' := KeysReleased(s, h, order);
    if h !in s.handles then s'
    else s'.(handles := s'.handles - {h}, pressedKeys := s'.pressedKeys - {h}, processing := s'.processing - {h},
    effects := s'.effects + [Destroy(h)])
  }

  //
  // What the backend has been told about one key
  //

  /** Whether a key is down after one more effect, or None once two presses or two releases came in a row. */
  function DownStep(down: Option<bool>, e: Effect, h: Handle, k: u32): Option<bool> {
    if down.None? || !e.Consume? || e.handle != h || !e.event.Key? || e.event.code != k then down
    else if (e.event.state != 0) == down.value then None
    else Some(e.event.state != 0)
  }

  function Down(effects: seq<Effect>, h: Handle, k: u32): Option<bool> {
    if effects == [] then Some(false)
    else DownStep(Down(effects[..|effects| - 1], h, k), effects[|effects| - 1], h, k)
  }

  lemma DownAppended(effects: seq<Effect>, e: Effect, h: Handle, k: u32)
    ensures Down(effects + [e], h, k) == DownStep(Down(effects, h, k), e, h, k)
  {
    assert (effects + [e])[..|effects|] == effects;
  }

  /**
   The stream of key events per handle and key alternates, starting with a press, and the recorded sets hold
   exactly the keys whose last event was a press.
   */
  ghost predicate Faithful(s: Emulator) {
    && s.pressedKeys.Keys == s.handles
    && forall h, k :: Down(s.effects, h, k) == Some(k in KeysOf(s, h))
  }

  lemma ConsumedStaysFaithful(s: Emulator, e: Event, h: Handle, macos: bool)
    requires Faithful(s)
    ensures Faithful(Consumed(s, e, h, macos))
  {
    var s' := Consumed(s, e, h, macos);
    assert s'.pressedKeys.Keys == s.handles;
    if s'.effects != s.effects {
      forall h', k
        ensures Down(s'.effects, h', k) == Some(k in KeysOf(s', h'))
      {
        DownAppended(s.effects, s'.effects[|s.effects|], h', k);
      }
    }
  }

  lemma CreatedStaysFaithful(s: Emulator, h: Handle)
    requires Faithful(s)
    ensures Faithful(Created(s, h))
  {
    var s' := Created(s, h);
    assert s'.pressedKeys.Keys == s'.handles;
    if h !in s.handles {
      forall h', k
        ensures Down(s'.effects, h', k) == Some(k in KeysOf(s', h'))
      {
        DownAppended(s.effects, Create(h), h', k);
      }
    }
  }

  lemma {:induction false} KeyUpsRelease(effects: seq<Effect>, h: Handle, order: seq<u32>, h': Handle, k: u32,
      down: bool)
    requires forall i, j :: 0 <= i < j < |order| ==> order[i] != order[j]
    requires Down(effects, h', k) == Some(down)
    requires h' == h && k in order ==> down
    ensures Down(effects + KeyUps(h, order), h', k) == Some(down && !(h' == h && k in order))
  {
    if order == [] {
      assert effects + KeyUps(h, order) == effects;
    } else {
      var first, last := order[..|order| - 1], order[|order| - 1];
      assert order == first + [last];
      KeyUpsRelease(effects, h, first, h', k, down);
      assert effects + KeyUps(h, order) == (effects + KeyUps(h, first)) + [Consume(h, Key(last, 0))];
      DownAppended(effects + KeyUps(h, first), Consume(h, Key(last, 0)), h', k);
    }
  }

  lemma KeysReleasedStaysFaithful(s: Emulator, h: Handle, order: seq<u32>)
    requires Faithful(s) && Enumerates(order, KeysOf(s, h))
    ensures Faithful(KeysReleased(s, h, order))
  {
    var s' := KeysReleased(s, h, order);
    assert s'.pressedKeys.Keys == s.handles;
    forall h', k
      ensures Down(s'.effects, h', k) == Some(k in KeysOf(s', h'))
    {
      KeyUpsRelease(s.effects, h, order, h', k, k in KeysOf(s, h'));
      DownAppended(s.effects + KeyUps(h, order), Consume(h, NO_MODIFIERS), h', k);
    }
  }

  lemma DestroyedStaysFaithful(s: Emulator, h: Handle, order: seq<u32>)
    requires Faithful(s) && Enumerates(order, KeysOf(s, h))
    ensures Faithful(Destroyed(s, h, order)) && KeysOf(Destroyed(s, h, order), h) == {}
  {
    KeysReleasedStaysFaithful(s, h, order);
    var s1, s' := KeysReleased(s, h, order), Destroyed(s, h, order);
    assert s'.pressedKeys.Keys == s'.handles;
    if h in s.handles {
      forall h', k
        ensures Down(s'.effects, h', k) == Some(k in KeysOf(s', h'))
      {
        DownAppended(s1.effects, Destroy(h), h', k);
      }
    }
  }

  //
  // Whole runs
  //

  datatype Op =
    | Feed(event: Event, h: Handle, macos: bool)
    | Configure(h: Handle, pp: Processing)
    | Open(h: Handle)
    | ReleaseAll(h: Handle, order: seq<u32>)
    | Close(h: Handle, order: seq<u32>)

  predicate Legal(s: Emulator, op: Op) {
    op.ReleaseAll? || op.Close? ==> Enumerates(op.order, KeysOf(s, op.h))
  }

  function After(s: Emulator, op: Op): Emulator
    requires Legal(s, op)
  {
    match op
    case Feed(e, h, macos) => Consumed(s, e, h, macos)
    case Configure(h, pp) => s.(processing := s.processing[h := pp])
    case Open(h) => Created(s, h)
    case ReleaseAll(h, order) => KeysReleased(s, h, order)
    case Close(h, order) => Destroyed(s, h, order)
  }

  /** `states[n]` is the state after the first `n` operations, starting from `s`. */
  ghost predicate Path(s: Emulator, ops: seq<Op>, states: seq<Emulator>) {
    && |states| == |ops| + 1
    && states[0] == s
    && forall n {:trigger ops[n]} :: 0 <= n < |ops| ==>
        Legal(states[n], ops[n]) && states[n + 1] == After(states[n], ops[n])
  }

  ghost predicate Run(ops: seq<Op>, states: seq<Emulator>) {
    Path(FRESH, ops, states)
  }

  lemma StaysFaithful(s: Emulator, op: Op)
    requires Faithful(s) && Legal(s, op)
    ensures Faithful(After(s, op))
  {
    match op
    case Feed(e, h, macos) => ConsumedStaysFaithful(s, e, h, macos);
    case Configure(h, pp) => assert forall h' :: KeysOf(After(s, op), h') == KeysOf(s, h');
    case Open(h) => CreatedStaysFaithful(s, h);
    case ReleaseAll(h, order) => KeysReleasedStaysFaithful(s, h, order);
    case Close(h, order) => DestroyedStaysFaithful(s, h, order);
  }

  lemma {:induction false} PathStaysFaithful(s: Emulator, ops: seq<Op>, states: seq<Emulator>, n: nat)
    requires Faithful(s) && Path(s, ops, states) && n <= |ops|
    ensures Faithful(states[n])
  {
    if n > 0 {
      PathStaysFaithful(s, ops, states, n - 1);
      assert Legal(states[n - 1], ops[n - 1]);
      StaysFaithful(states[n - 1], ops[n - 1]);
    }
  }

  lemma RunStaysFaithful(ops: seq<Op>, states: seq<Emulator>, n: nat)
    requires Run(ops, states) && n <= |ops|
    ensures Faithful(states[n])
  {
    assert FRESH.pressedKeys.Keys == {};
    PathStaysFaithful(FRESH, ops, states, n);
  }

  function Presses(effects: seq<Effect>, h: Handle, k: u32, press: bool): nat {
    if effects == [] then 0
    else
      var e := effects[|effects| - 1];
      Presses(effects[..|effects| - 1], h, k, press)
      + if e.Consume? && e.handle == h && e.event.Key? && e.event.code == k
          && (e.event.state != 0) == press then 1 else 0
  }

  lemma {:induction false} AlternationBalances(effects: seq<Effect>, h: Handle, k: u32)
    requires Down(effects, h, k).Some?
    ensures Presses(effects, h, k, true) == Presses(effects, h, k, false) + if Down(effects, h, k).value then 1 else 0
  {
    if effects != [] {
      AlternationBalances(effects[..|effects| - 1], h, k);
    }
  }

  /** Once a handle is closed, the backend has seen as many releases as presses of every key of it. */
  lemma ClosedHandleIsBalanced(ops: seq<Op>, states: seq<Emulator>, n: nat, k: u32)
    requires Run(ops, states) && n < |ops| && ops[n].Close?
    ensures var effects, h := states[n + 1].effects, ops[n].h;
            && Down(effects, h, k) == Some(false)
            && Presses(effects, h, k, true) == Presses(effects, h, k, false)
  {
    RunStaysFaithful(ops, states, n);
    RunStaysFaithful(ops, states, n + 1);
    assert Legal(states[n], ops[n]);
    DestroyedStaysFaithful(states[n], ops[n].h, ops[n].order);
    assert KeysOf(states[n + 1], ops[n].h) == {};
    assert Down(states[n + 1].effects, ops[n].h, k) == Some(false);
    AlternationBalances(states[n + 1].effects, ops[n].h, k);
  }

  //
  // Handles
  //

  /** Handles alive at the backend after a further call, or None once a live one was created or a dead one destroyed. */
  function AliveStep(alive: Option<set<Handle>>, e: Effect): Option<set<Handle>> {
    if alive.None? then None else
    match e
    case Create(h) => if h in alive.value then None else Some(alive.value + {h})
    case Destroy(h) => if h in alive.value then Some(alive.value - {h}) else None
    case _ => alive
  }

  function Alive(effects: seq<Effect>): Option<set<Handle>> {
    if effects == [] then Some({}) else AliveStep(Alive(effects[..|effects| - 1]), effects[|effects| - 1])
  }

  lemma AliveAppended(effects: seq<Effect>, e: Effect)
    ensures Alive(effects + [e]) == AliveStep(Alive(effects), e)
  {
    assert (effects + [e])[..|effects|] == effects;
  }

  lemma {:induction false} KeyUpsLeaveAlive(effects: seq<Effect>, h: Handle, order: seq<u32>)
    ensures Alive(effects + KeyUps(h, order)) == Alive(effects)
  {
    if order == [] {
      assert effects + KeyUps(h, order) == effects;
    } else {
      var first, last := order[..|order| - 1], order[|order| - 1];
      KeyUpsLeaveAlive(effects, h, first);
      assert effects + KeyUps(h, order) == (effects + KeyUps(h, first)) + [Consume(h, Key(last, 0))];
      AliveAppended(effects + KeyUps(h, first), Consume(h, Key(last, 0)));
    }
  }

  lemma StepKeepsAlive(s: Emulator, op: Op)
    requires Legal(s, op) && Alive(s.effects) == Some(s.handles)
    ensures Alive(After(s, op).effects) == Some(After(s, op).handles)
  {
    match op
    case Feed(e, h, macos) => FeedKeepsAlive(s, e, h, macos);
    case Configure(_, _) =>
    case Open(h) => AliveAppended(s.effects, Create(h));
    case ReleaseAll(h, order) => ReleaseKeepsAlive(s, h, order);
    case Close(h, order) => CloseKeepsAlive(s, h, order);
  }

  lemma FeedKeepsAlive(s: Emulator, e: Event, h: Handle, macos: bool)
    ensures Alive(Consumed(s, e, h, macos).effects) == Alive(s.effects)
  {
    var s' := Consumed(s, e, h, macos);
    if s'.effects != s.effects {
      AliveAppended(s.effects, s'.effects[|s.effects|]);
    }
  }

  lemma CloseKeepsAlive(s: Emulator, h: Handle, order: seq<u32>)
    requires Enumerates(order, KeysOf(s, h)) && Alive(s.effects) == Some(s.handles)
    ensures Alive(Destroyed(s, h, order).effects) == Some(Destroyed(s, h, order).handles)
  {
    ReleaseKeepsAlive(s, h, order);
    AliveAppended(KeysReleased(s, h, order).effects, Destroy(h));
  }

  lemma ReleaseKeepsAlive(s: Emulator, h: Handle, order: seq<u32>)
    requires Enumerates(order, KeysOf(s, h))
    ensures Alive(KeysReleased(s, h, order).effects) == Alive(s.effects)
  {
    KeyUpsLeaveAlive(s.effects, h, order);
    AliveAppended(s.effects + KeyUps(h, order), Consume(h, NO_MODIFIERS));
  }

  /** The backend's create and destroy calls alternate per handle; the handles alive there are the registered ones. */
  lemma {:induction false} RunKeepsHandlesAlive(ops: seq<Op>, states: seq<Emulator>, n: nat)
    requires Run(ops, states) && n <= |ops|
    ensures Alive(states[n].effects) == Some(states[n].handles)
  {
    if n > 0 {
      RunKeepsHandlesAlive(ops, states, n - 1);
      assert Legal(states[n - 1], ops[n - 1]);
      StepKeepsAlive(states[n - 1], ops[n - 1]);
    }
  }

  //
  // Termination
  //

  /** The operations close handles only, each of the given ones once. */
  ghost predicate ClosesEach(ops: seq<Op>, handles: set<Handle>) {
    && (forall n :: 0 <= n < |ops| ==> ops[n].Close? && ops[n].h in handles)
    && (forall h :: h in handles ==> exists n :: 0 <= n < |ops| && ops[n].h == h)
  }

  lemma {:induction false} ClosedStaysClosed(s: Emulator, ops: seq<Op>, states: seq<Emulator>, n: nat, m: nat)
    requires Path(s, ops, states) && n < m <= |ops|
    requires forall i :: 0 <= i < |ops| ==> ops[i].Close?
    ensures ops[n].h !in states[m].handles && states[m].handles <= s.handles
  {
    assert Legal(states[m - 1], ops[m - 1]);
    if n < m - 1 {
      ClosedStaysClosed(s, ops, states, n, m - 1);
    } else if n > 0 {
      ClosedStaysClosed(s, ops, states, n - 1, n);
    }
  }

  /** After every handle has been closed nothing is down, and presses balance releases for every key anywhere. */
  lemma TerminationBalances(s: Emulator, ops: seq<Op>, states: seq<Emulator>, h: Handle, k: u32)
    requires Faithful(s) && Path(s, ops, states) && ClosesEach(ops, s.handles)
    ensures var end := states[|ops|]; var effects := end.effects + [Terminate];
            && end.handles == {} && end.pressedKeys == map[]
            && Presses(effects, h, k, true) == Presses(effects, h, k, false)
  {
    var end := states[|ops|];
    PathStaysFaithful(s, ops, states, |ops|);
    forall h' ensures h' !in end.handles {
      if h' in s.handles {
        var n :| 0 <= n < |ops| && ops[n].h == h';
        ClosedStaysClosed(s, ops, states, n, |ops|);
      } else if |ops| > 0 {
        ClosedStaysClosed(s, ops, states, 0, |ops|);
      }
    }
    assert end.pressedKeys.Keys == {};
    assert Down(end.effects, h, k) == Some(false);
    AlternationBalances(end.effects, h, k);
    assert (end.effects + [Terminate])[..|end.effects|] == end.effects;
  }
}
