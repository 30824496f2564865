/**
 The key-state protocol reduced to what matters for it: the messages sent, the client being controlled, the keys
 pressed on the host and the release bind. Three levels are proved over whole runs: clients that are not being
 controlled hold nothing; the one that is holds nothing that is not pressed; and a farewell lifts every held key
 before its Leave, so that a lost Leave leaves nothing behind.
 */
module KeyFlow {
  import opened Wrappers
  import opened Bytes
  import opened Collections
  import opened Positions
  import opened CaptureState
  import opened KeyLog
  import E = EmulationState

  datatype Flow = Flow(sent: seq<Sent>, active: Option<Client>, pressed: set<u32>, bind: seq<u32>)

  datatype Effect =
    | Nothing
    | Begin(client: Client, entry: Position, cursor: seq<Msg>)
    | Forward(m: Msg)
    | Press(code: u32, state: byte)
    | Release(order: seq<u32>)
    | PressThenRelease(code: u32, state: byte, order: seq<u32>)
    | Rebind(bind: seq<u32>)

  predicate Enabled(f: Flow, e: Effect) {
    match e
    case Begin(_, _, cursor) =>
      f.active.None? && f.pressed == {} && f.bind != [] && |cursor| <= 1
          && forall i :: 0 <= i < |cursor| ==> cursor[i].CursorPos?
    case Forward(m) => f.active.Some? && m.Input? && !IsKey(m) && !KeysPressed(f.pressed, f.bind)
    case Press(code, state) => f.active.Some? && !KeysPressed(KeyUpdate(f.pressed, code, state), f.bind)
    case Release(order) => f.active.Some? ==> Enumerates(order, f.pressed)
    case PressThenRelease(code, state, order) =>
      f.active.Some? && Enumerates(order, KeyUpdate(f.pressed, code, state))
          && KeysPressed(KeyUpdate(f.pressed, code, state), f.bind)
    case _ => true
  }

  function Goodbye(f: Flow, order: seq<u32>): Flow {
    f.(sent := if f.active.Some? then f.sent + Farewell(f.active.value, order) else f.sent,
    active := None, pressed := {})
  }

  function Step(f: Flow, e: Effect): Flow
    requires Enabled(f, e)
  {
    match e
    case Nothing => f
    case Begin(c, entry, cursor) =>
      f.(sent := f.sent + [(c, Enter(entry))] + SentTogether(c, cursor), active := Some(c))
    case Forward(m) => f.(sent := f.sent + [(f.active.value, m)])
    case Press(code, state) =>
      f.(sent := f.sent + [(f.active.value, Input(E.Key(code, state)))], pressed := KeyUpdate(f.pressed, code, state))
    case Release(order) => Goodbye(f, order)
    case PressThenRelease(_, _, order) => Goodbye(f, order)
    case Rebind(bind) => f.(bind := bind)
  }

  ghost predicate Run(effects: seq<Effect>, states: seq<Flow>) {
    && |states| == |effects| + 1
    && states[0].sent == [] && states[0].active.None? && states[0].pressed == {}
    && forall n {:trigger effects[n]} :: 0 <= n < |effects| ==>
        Enabled(states[n], effects[n]) && states[n + 1] == Step(states[n], effects[n])
  }

  //
  // Nothing is held outside the capture
  //

  /** Clients that are not being controlled hold nothing, and none is left without having been entered. */
  ghost predicate Settled(f: Flow) {
    forall c: Client ::
      && (f.active != Some(c) ==> Held(f.sent, c) == {})
      && Inside(f.sent, c) == Some(f.active == Some(c))
  }

  lemma MessageKeepsSettled(f: Flow, s: Sent)
    requires Settled(f) && f.active == Some(s.0) && !s.1.Enter? && !s.1.Leave?
    ensures Settled(f.(sent := f.sent + [s]))
  {
    forall c: Client
      ensures f.active != Some(c) ==> Held(f.sent + [s], c) == {}
      ensures Inside(f.sent + [s], c) == Inside(f.sent, c)
    {
      Appended(f.sent, s, c);
    }
  }

  lemma {:induction false} KeyUpsKeepSettled(f: Flow, c: Client, order: seq<u32>)
    requires Settled(f) && f.active == Some(c)
    ensures Settled(f.(sent := f.sent + KeyUps(c, order)))
    ensures Held(f.sent + KeyUps(c, order), c) == Held(f.sent, c) - (set k | k in order)
  {
    if order == [] {
      assert f.sent + KeyUps(c, order) == f.sent;
    } else {
      var first, last := order[..|order| - 1], order[|order| - 1];
      assert order == first + [last];
      KeyUpsKeepSettled(f, c, first);
      var f1, s := f.(sent := f.sent + KeyUps(c, first)), (c, Input(E.Key(last, 0)));
      MessageKeepsSettled(f1, s);
      Appended(f1.sent, s, c);
      assert f.sent + KeyUps(c, order) == f1.sent + [s];
    }
  }

  lemma GoodbyeSettles(f: Flow, order: seq<u32>)
    requires Settled(f)
    ensures Settled(Goodbye(f, order))
  {
    if f.active.Some? {
      var c := f.active.value;
      KeyUpsKeepSettled(f, c, order);
      var f1 := f.(sent := f.sent + KeyUps(c, order));
      MessageKeepsSettled(f1, (c, KEYS_LIFTED));
      var log := f1.sent + [(c, KEYS_LIFTED)];
      assert f.sent + Farewell(c, order) == log + [(c, Leave)];
      forall d: Client
        ensures Held(log + [(c, Leave)], d) == {} && Inside(log + [(c, Leave)], d) == Some(false)
      {
        Appended(log, (c, Leave), d);
        assert f.(sent := log).active != Some(d) ==> Held(log, d) == {};
      }
    }
  }

  lemma BeginSettles(f: Flow, c: Client, entry: Position, cursor: seq<Msg>)
    requires Settled(f) && Enabled(f, Begin(c, entry, cursor))
    ensures Settled(Step(f, Begin(c, entry, cursor))) && Held(Step(f, Begin(c, entry, cursor)).sent, c) == {}
  {
    var f1 := Flow(f.sent + [(c, Enter(entry))], Some(c), f.pressed, f.bind);
    forall d: Client
      ensures Held(f1.sent, d) == {} && Inside(f1.sent, d) == Some(d == c)
    {
      Appended(f.sent, (c, Enter(entry)), d);
    }
    if |cursor| == 1 {
      MessageKeepsSettled(f1, (c, cursor[0]));
      Appended(f1.sent, (c, cursor[0]), c);
      assert SentTogether(c, cursor) == [(c, cursor[0])];
    } else {
      assert f1.sent + SentTogether(c, cursor) == f1.sent;
    }
  }

  lemma StaysSettled(f: Flow, e: Effect)
    requires Settled(f) && Enabled(f, e)
    ensures Settled(Step(f, e))
  {
    match e
    case Nothing =>
    case Begin(c, entry, cursor) => BeginSettles(f, c, entry, cursor);
    case Forward(m) => MessageKeepsSettled(f, (f.active.value, m));
    case Press(code, state) => MessageKeepsSettled(f, (f.active.value, Input(E.Key(code, state))));
    case Release(order) => GoodbyeSettles(f, order);
    case PressThenRelease(_, _, order) => GoodbyeSettles(f, order);
    case Rebind(_) =>
  }

  lemma {:induction false} RunStaysSettled(effects: seq<Effect>, states: seq<Flow>, n: nat)
    requires Run(effects, states) && n <= |effects|
    ensures Settled(states[n])
  {
    if n > 0 {
      RunStaysSettled(effects, states, n - 1);
      assert Enabled(states[n - 1], effects[n - 1]);
      StaysSettled(states[n - 1], effects[n - 1]);
    }
  }

  //
  // The controlled client holds nothing that is not pressed
  //

  /** Key events on which host and client agree whether a key went down. */
  predicate Agreed(code: u32, state: byte) {
    state != 0 ==> state == 1 && code <= 249
  }

  predicate Spoken(e: Effect) {
    e.Press? || e.PressThenRelease? ==> Agreed(e.code, e.state)
  }

  ghost predicate Covered(f: Flow) {
    f.active.Some? ==> Held(f.sent, f.active.value) <= f.pressed
  }

  lemma StaysCovered(f: Flow, e: Effect)
    requires Settled(f) && Covered(f) && Enabled(f, e) && Spoken(e)
    ensures Covered(Step(f, e))
  {
    match e
    case Begin(c, entry, cursor) => BeginSettles(f, c, entry, cursor);
    case Forward(m) => Appended(f.sent, (f.active.value, m), f.active.value);
    case Press(code, state) => Appended(f.sent, (f.active.value, Input(E.Key(code, state))), f.active.value);
    case _ =>
  }

  lemma {:induction false} RunStaysCovered(effects: seq<Effect>, states: seq<Flow>, n: nat)
    requires Run(effects, states) && n <= |effects|
    requires forall i :: 0 <= i < n ==> Spoken(effects[i])
    ensures Covered(states[n])
  {
    if n > 0 {
      RunStaysCovered(effects, states, n - 1);
      RunStaysSettled(effects, states, n - 1);
      assert Enabled(states[n - 1], effects[n - 1]);
      StaysCovered(states[n - 1], effects[n - 1]);
    }
  }

  /** Host and controlled client agree on every key. */
  ghost predicate Matched(f: Flow) {
    && (f.active.Some? ==> Held(f.sent, f.active.value) == f.pressed)
    && forall k :: k in f.pressed ==> k <= LAST_SCANCODE
  }

  lemma StaysMatched(f: Flow, e: Effect)
    requires Settled(f) && Matched(f) && Enabled(f, e) && Spoken(e)
    ensures Matched(Step(f, e))
  {
    match e
    case Begin(c, entry, cursor) => BeginSettles(f, c, entry, cursor);
    case Forward(m) => Appended(f.sent, (f.active.value, m), f.active.value);
    case Press(code, state) => Appended(f.sent, (f.active.value, Input(E.Key(code, state))), f.active.value);
    case _ =>
  }

  lemma {:induction false} RunStaysMatched(effects: seq<Effect>, states: seq<Flow>, n: nat)
    requires Run(effects, states) && n <= |effects|
    requires forall i :: 0 <= i < n ==> Spoken(effects[i])
    ensures Matched(states[n])
  {
    if n > 0 {
      RunStaysMatched(effects, states, n - 1);
      RunStaysSettled(effects, states, n - 1);
      assert Enabled(states[n - 1], effects[n - 1]);
      StaysMatched(states[n - 1], effects[n - 1]);
    }
  }

  lemma {:induction false} RunTracksScancodes(effects: seq<Effect>, states: seq<Flow>, n: nat, k: u32)
    requires Run(effects, states) && n <= |effects|
    requires k in states[n].pressed
    ensures k <= LAST_SCANCODE
  {
    if n > 0 {
      assert Enabled(states[n - 1], effects[n - 1]);
      if k in states[n - 1].pressed {
        RunTracksScancodes(effects, states, n - 1, k);
      }
    }
  }

  /** Agreement is exactly what keeps the client covered: any other key event leaves it holding an unpressed key. */
  lemma CoveredExactlyWhenAgreed(effects: seq<Effect>, states: seq<Flow>, n: nat)
    requires Run(effects, states) && n < |effects| && effects[n].Press?
    requires Covered(states[n])
    ensures Covered(states[n + 1]) <==> Agreed(effects[n].code, effects[n].state)
  {
    var f, e := states[n], effects[n];
    RunStaysSettled(effects, states, n);
    assert Enabled(f, e) && states[n + 1] == Step(f, e);
    if Agreed(e.code, e.state) {
      StaysCovered(f, e);
    } else {
      Appended(f.sent, (f.active.value, Input(E.Key(e.code, e.state))), f.active.value);
      assert e.code in Held(states[n + 1].sent, f.active.value);
      if e.code in states[n + 1].pressed {
        RunTracksScancodes(effects, states, n + 1, e.code);
      }
    }
  }

  //
  // Farewells lift every key before Leave
  //

  lemma CleanAppended(log: seq<Sent>, s: Sent)
    requires CleanLeaves(log)
    requires s.1.Leave? ==> |log| > 0 && log[|log| - 1] == (s.0, KEYS_LIFTED) && Held(log, s.0) == {}
    ensures CleanLeaves(log + [s])
  {
    var log' := log + [s];
    forall i | 0 <= i < |log'|
      ensures CleanLeave(log', i)
    {
      if i < |log| {
        assert CleanLeave(log, i) && log'[..i] == log[..i];
      } else {
        assert log'[..i] == log;
      }
    }
  }

  lemma KeyUpsSnoc(log: seq<Sent>, c: Client, first: seq<u32>, last: u32)
    ensures log + KeyUps(c, first + [last]) == (log + KeyUps(c, first)) + [(c, Input(E.Key(last, 0)))]
  {
    assert KeyUps(c, first + [last]) == KeyUps(c, first) + [(c, Input(E.Key(last, 0)))];
  }

  lemma {:induction false} CleanKeyUps(log: seq<Sent>, c: Client, order: seq<u32>)
    requires CleanLeaves(log)
    ensures CleanLeaves(log + KeyUps(c, order))
  {
    if order == [] {
      assert log + KeyUps(c, order) == log;
    } else {
      var first, last := order[..|order| - 1], order[|order| - 1];
      CleanKeyUps(log, c, first);
      CleanAppended(log + KeyUps(c, first), (c, Input(E.Key(last, 0))));
      KeyUpsSnoc(log, c, first, last);
      assert first + [last] == order;
    }
  }

  /** A farewell is clean exactly when it flushes everything its client holds. */
  lemma GoodbyeCleanExactly(f: Flow, order: seq<u32>)
    requires Settled(f) && CleanLeaves(f.sent)
    ensures CleanLeaves(Goodbye(f, order).sent)
            <==> (f.active.Some? ==> Held(f.sent, f.active.value) <= (set k | k in order))
  {
    if f.active.Some? {
      var c := f.active.value;
      KeyUpsKeepSettled(f, c, order);
      CleanKeyUps(f.sent, c, order);
      var log := f.sent + KeyUps(c, order);
      CleanAppended(log, (c, KEYS_LIFTED));
      Appended(log, (c, KEYS_LIFTED), c);
      var lifted := log + [(c, KEYS_LIFTED)];
      assert f.sent + Farewell(c, order) == lifted + [(c, Leave)];
      var keys := set k | k in order;
      assert Held(lifted, c) == Held(f.sent, c) - keys;
      DifferenceIsEmpty(Held(f.sent, c), keys);
      if Held(lifted, c) == {} {
        CleanAppended(lifted, (c, Leave));
      } else {
        UncleanAppended(lifted, c);
      }
    }
  }

  lemma UncleanAppended(log: seq<Sent>, c: Client)
    requires Held(log, c) != {}
    ensures !CleanLeaves(log + [(c, Leave)])
  {
    assert (log + [(c, Leave)])[..|log|] == log;
    assert !CleanLeave(log + [(c, Leave)], |log|);
  }

  lemma CleanPrefix(log: seq<Sent>, more: seq<Sent>)
    requires CleanLeaves(log + more)
    ensures CleanLeaves(log)
  {
    forall i | 0 <= i < |log|
      ensures CleanLeave(log, i)
    {
      assert CleanLeave(log + more, i) && (log + more)[..i] == log[..i];
    }
  }

  /** The keys a farewell lifts. */
  function Flushed(f: Flow, e: Effect): set<u32> {
    if e.PressThenRelease? then KeyUpdate(f.pressed, e.code, e.state) else f.pressed
  }

  /** If the step says goodbye, everything the client holds is among the keys lifted. */
  ghost predicate LiftsAll(f: Flow, e: Effect) {
    (e.Release? || e.PressThenRelease?) && f.active.Some? ==> Held(f.sent, f.active.value) <= Flushed(f, e)
  }

  lemma StepCleanExactly(f: Flow, e: Effect)
    requires Settled(f) && CleanLeaves(f.sent) && Enabled(f, e)
    ensures CleanLeaves(Step(f, e).sent) <==> LiftsAll(f, e)
  {
    match e
    case Nothing =>
    case Rebind(_) =>
    case Begin(c, entry, cursor) =>
      CleanAppended(f.sent, (c, Enter(entry)));
      if |cursor| == 1 {
        CleanAppended(f.sent + [(c, Enter(entry))], (c, cursor[0]));
        assert SentTogether(c, cursor) == [(c, cursor[0])];
      } else {
        assert f.sent + [(c, Enter(entry))] + SentTogether(c, cursor) == f.sent + [(c, Enter(entry))];
      }
    case Forward(m) => CleanAppended(f.sent, (f.active.value, m));
    case Press(code, state) => CleanAppended(f.sent, (f.active.value, Input(E.Key(code, state))));
    case Release(order) => FlushMeets(f, order, f.pressed);
    case PressThenRelease(code, state, order) => FlushMeets(f, order, KeyUpdate(f.pressed, code, state));
  }

  lemma FlushMeets(f: Flow, order: seq<u32>, keys: set<u32>)
    requires Settled(f) && CleanLeaves(f.sent) && (f.active.Some? ==> Enumerates(order, keys))
    ensures CleanLeaves(Goodbye(f, order).sent) <==> (f.active.Some? ==> Held(f.sent, f.active.value) <= keys)
  {
    GoodbyeCleanExactly(f, order);
    assert f.active.Some? ==> (set k | k in order) == keys;
  }

  lemma StepExtends(f: Flow, e: Effect) returns (more: seq<Sent>)
    requires Enabled(f, e)
    ensures Step(f, e).sent == f.sent + more
  {
    more := Step(f, e).sent[|f.sent|..];
    if e.Begin? {
      assert f.sent + [(e.client, Enter(e.entry))] + SentTogether(e.client, e.cursor)
          == f.sent + ([(e.client, Enter(e.entry))] + SentTogether(e.client, e.cursor));
    }
  }

  /** All Leaves of a run are clean exactly when each farewell lifted everything its client held at the time. */
  lemma {:induction false} RunCleanExactly(effects: seq<Effect>, states: seq<Flow>, n: nat)
    requires Run(effects, states) && n <= |effects|
    ensures CleanLeaves(states[n].sent) <==> forall i :: 0 <= i < n ==> LiftsAll(states[i], effects[i])
  {
    if n > 0 {
      RunCleanExactly(effects, states, n - 1);
      RunStaysSettled(effects, states, n - 1);
      var f, e := states[n - 1], effects[n - 1];
      assert Enabled(f, e) && states[n] == Step(f, e);
      if CleanLeaves(f.sent) {
        StepCleanExactly(f, e);
      } else if CleanLeaves(states[n].sent) {
        var more := StepExtends(f, e);
        CleanPrefix(f.sent, more);
      }
    }
  }

  /** The one event that spoils a farewell: a held key goes up and the keys still down complete the chord. */
  predicate ChordsOnKeyUp(f: Flow, e: Effect) {
    e.PressThenRelease? && e.state == 0 && e.code in f.pressed
  }

  lemma LiftsAllExactly(f: Flow, e: Effect)
    requires Matched(f) && Enabled(f, e) && Spoken(e)
    ensures LiftsAll(f, e) <==> !ChordsOnKeyUp(f, e)
  {
  }

  /** For key events both sides read alike, all Leaves are clean exactly when no held key's going up chords. */
  lemma RunCleanExactlyWhenSpoken(effects: seq<Effect>, states: seq<Flow>, n: nat)
    requires Run(effects, states) && n <= |effects|
    requires forall i :: 0 <= i < n ==> Spoken(effects[i])
    ensures CleanLeaves(states[n].sent) <==> forall i :: 0 <= i < n ==> !ChordsOnKeyUp(states[i], effects[i])
  {
    RunCleanExactly(effects, states, n);
    forall i | 0 <= i < n
      ensures LiftsAll(states[i], effects[i]) <==> !ChordsOnKeyUp(states[i], effects[i])
    {
      RunStaysMatched(effects, states, i);
      assert Enabled(states[i], effects[i]);
      LiftsAllExactly(states[i], effects[i]);
    }
  }

  //
  // Changing the release bind
  //

  /** The bind is fully down, and so is some key outside it. */
  predicate Overfull(pressed: set<u32>, bind: seq<u32>) {
    KeysPressed(pressed, bind) && exists k :: k in pressed && k !in bind
  }

  predicate Considerate(f: Flow, e: Effect) {
    e.Rebind? && f.active.Some? ==> !Overfull(f.pressed, e.bind)
  }

  predicate Guarded(f: Flow) {
    f.active.Some? ==> !Overfull(f.pressed, f.bind)
  }

  lemma StaysGuarded(f: Flow, e: Effect)
    requires Guarded(f) && Enabled(f, e) && Considerate(f, e)
    ensures Guarded(Step(f, e))
  {
  }

  lemma GuardedKeepsClean(f: Flow, e: Effect)
    requires Guarded(f) && Matched(f) && Enabled(f, e) && Spoken(e)
    ensures !ChordsOnKeyUp(f, e)
  {
  }

  /** With every rebind considerate, every Leave of a run comes after key-ups for all that the client held. */
  lemma {:induction false} RunStaysClean(effects: seq<Effect>, states: seq<Flow>, n: nat)
    requires Run(effects, states) && n <= |effects|
    requires forall i :: 0 <= i < n ==> Spoken(effects[i]) && Considerate(states[i], effects[i])
    ensures Guarded(states[n]) && CleanLeaves(states[n].sent)
  {
    if n > 0 {
      RunStaysClean(effects, states, n - 1);
      RunStaysMatched(effects, states, n - 1);
      RunStaysSettled(effects, states, n - 1);
      var f, e := states[n - 1], effects[n - 1];
      assert Enabled(f, e) && Spoken(e) && Considerate(f, e);
      StaysGuarded(f, e);
      GuardedKeepsClean(f, e);
      LiftsAllExactly(f, e);
      StepCleanExactly(f, e);
    }
  }

  /** And inconsiderate ones are exactly those after which the very next event can spoil the farewell. */
  lemma RebindMattersExactly(f: Flow, bind: seq<u32>)
    requires f.active.Some? && Settled(f) && Matched(f) && CleanLeaves(f.sent)
    ensures Overfull(f.pressed, bind) <==> Spoils(f.(bind := bind))
  {
    var f' := f.(bind := bind);
    if Overfull(f.pressed, bind) {
      var k :| k in f.pressed && k !in bind;
      var order := SomeOrder(f.pressed - {k});
      var e := PressThenRelease(k, 0, order);
      assert Enabled(f', e);
      StepCleanExactly(f', e);
      LiftsAllExactly(f', e);
      assert SpoiledBy(f', e);
    } else if e :| SpoiledBy(f', e) {
      GuardedKeepsClean(f', e);
      LiftsAllExactly(f', e);
      StepCleanExactly(f', e);
    }
  }

  ghost predicate SpoiledBy(f: Flow, e: Effect) {
    Enabled(f, e) && Spoken(e) && !CleanLeaves(Step(f, e).sent)
  }

  /** Some next event, read alike by both sides, sends a Leave to a client that still holds a key. */
  ghost predicate Spoils(f: Flow) {
    exists e :: SpoiledBy(f, e)
  }

  /**
   Why the bind matters: with the new bind already down, the next key-up completes the chord, its own key is no
   longer among the flushed ones, and only the Leave itself releases it on the client.
   */
  lemma InconsiderateRebindLeavesAKeyToLeave() returns (effects: seq<Effect>, states: seq<Flow>)
    ensures Run(effects, states) && |effects| == 5
    ensures forall i :: 0 <= i < 5 ==> Spoken(effects[i])
    ensures states[5].active.None? && !CleanLeaves(states[5].sent)
  {
    var f0 := Flow([], None, {}, [29]);
    var f1 := BeginMoves(f0);
    var f2 := PressMoves(f1, 30);
    var f3 := PressMoves(f2, 31);
    var f4 := f3.(bind := [30]);
    var f5 := ChordMoves(f4);
    effects := [Begin(7, Left, []), Press(30, 1), Press(31, 1), Rebind([30]), PressThenRelease(31, 0, [30])];
    states := [f0, f1, f2, f3, f4, f5];
    UncleanGoodbye(f4);
  }

  lemma BeginMoves(f: Flow) returns (f': Flow)
    requires f == Flow([], None, {}, [29])
    ensures Enabled(f, Begin(7, Left, [])) && f' == Step(f, Begin(7, Left, []))
    ensures f' == Flow([(7, Enter(Left))], Some(7), {}, [29])
  {
    f' := Step(f, Begin(7, Left, []));
    assert f.sent + [(7, Enter(Left))] + SentTogether(7, []) == [(7, Enter(Left))];
  }

  lemma PressMoves(f: Flow, code: u32) returns (f': Flow)
    requires f.active.Some? && f.bind == [29] && 29 !in f.pressed && 29 < code <= LAST_SCANCODE
    ensures Enabled(f, Press(code, 1)) && f' == Step(f, Press(code, 1))
    ensures f' == f.(sent := f.sent + [(f.active.value, Input(E.Key(code, 1)))], pressed := f.pressed + {code})
  {
    assert f.bind[0] !in KeyUpdate(f.pressed, code, 1);
    f' := Step(f, Press(code, 1));
  }

  lemma ChordMoves(f: Flow) returns (f': Flow)
    requires f.active == Some(7) && f.pressed == {30, 31} && f.bind == [30]
    ensures Enabled(f, PressThenRelease(31, 0, [30])) && f' == Step(f, PressThenRelease(31, 0, [30]))
    ensures f' == Goodbye(f, [30])
  {
    assert KeyUpdate(f.pressed, 31, 0) == {30};
    f' := Goodbye(f, [30]);
  }

  lemma UncleanGoodbye(f: Flow)
    requires f.active == Some(7)
    requires f.sent == [(7, Enter(Left))] + [(7, Input(E.Key(30, 1)))] + [(7, Input(E.Key(31, 1)))]
    ensures !CleanLeaves(Goodbye(f, [30]).sent)
  {
    var before := f.sent + [(7, Input(E.Key(30, 0)))] + [(7, KEYS_LIFTED)];
    StillHeldBeforeLeave(f.sent);
    var log := Goodbye(f, [30]).sent;
    assert log == before + [(7, Leave)];
    assert log[..5] == before;
    assert !CleanLeave(log, 5);
  }

  lemma StillHeldBeforeLeave(log: seq<Sent>)
    requires log == [(7, Enter(Left)), (7, Input(E.Key(30, 1))), (7, Input(E.Key(31, 1)))]
    ensures 31 in Held(log + [(7, Input(E.Key(30, 0)))] + [(7, KEYS_LIFTED)], 7)
  {
    assert log == [(7, Enter(Left)), (7, Input(E.Key(30, 1)))] + [(7, Input(E.Key(31, 1)))];
    Appended([(7, Enter(Left)), (7, Input(E.Key(30, 1)))], (7, Input(E.Key(31, 1))), 7);
    Appended(log, (7, Input(E.Key(30, 0))), 7);
    Appended(log + [(7, Input(E.Key(30, 0)))], (7, KEYS_LIFTED), 7);
  }
}
