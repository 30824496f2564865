/**
 What the platform backend is told about input other than keys, over whole runs of the receiving side: motions scaled
 by the handle's sensitivity, scrolls turned round by its natural scroll, foreign momentum dropped, and everything
 else passed on once, unchanged and in order.
 */
module EmulationInput {
  import opened Bytes
  import opened Collections
  import opened EmulationState

  //
  // What was fed and what came out
  //

  /** Events that take the path of keys, or of the clipboard, are not looked at here. */
  predicate Plain(e: Event) {
    !e.Key? && !e.Clipboard?
  }

  predicate GotFrom(e: Effect, from: set<Handle>) {
    e.Consume? && e.handle in from && Plain(e.event)
  }

  /** The events other than keys the backend got from some handles, in order. */
  function Got(effects: seq<Effect>, from: set<Handle>): seq<Event> {
    if effects == [] then [] else
    var e := effects[|effects| - 1];
    Got(effects[..|effects| - 1], from) + if GotFrom(e, from) then [e.event] else []
  }

  /** The preferences the handle was last given, unless it was closed since. */
  function Preferences(ops: seq<Op>, states: seq<Emulator>, h: Handle, n: nat): Processing
    requires n <= |ops| <= |states|
  {
    if n == 0 then Processing(false, 1.0) else
    var op := ops[n - 1];
    if op.Configure? && op.h == h then op.pp
    else if op.Close? && op.h == h && h in states[n - 1].handles then Processing(false, 1.0)
    else Preferences(ops, states, h, n - 1)
  }

  datatype Input = Input(event: Event, pp: Processing)

  /** A momentum scroll that did not come from this platform. */
  predicate Foreign(e: Event, macos: bool) {
    e.Axis? && e.momentum && !macos
  }

  /**
   What the first `n` operations put in for a handle, each with the preferences of the moment: the plain events fed,
   but for foreign momentum, and the zero modifiers of each release of its keys.
   */
  function Fed(ops: seq<Op>, states: seq<Emulator>, h: Handle, n: nat): seq<Input>
    requires n <= |ops| <= |states|
  {
    if n == 0 then [] else
    var op := ops[n - 1];
    var pp := Preferences(ops, states, h, n - 1);
    Fed(ops, states, h, n - 1) +
    if op.Feed? && op.h == h && Plain(op.event) && !Foreign(op.event, op.macos) then [Input(op.event, pp)]
    else if (op.ReleaseAll? || op.Close?) && op.h == h then [Input(Modifiers(0, 0, 0, 0), pp)]
    else []
  }

  /** Field by field, what the backend is told of an input. */
  predicate ComesOutAs(i: Input, out: Event) {
    match i.event
    case Motion(dx, dy) => out.Motion? && out.dx == i.pp.sensitivity * dx && out.dy == i.pp.sensitivity * dy
    case Axis(value, momentum) =>
      out.Axis? && out.value == (if i.pp.naturalScroll then -value else value) && out.momentum == momentum
    case AxisDiscrete(steps) => out.AxisDiscrete? && out.steps == if i.pp.naturalScroll then -steps else steps
    case _ => out == i.event
  }

  ghost predicate AllComeOut(ins: seq<Input>, outs: seq<Event>) {
    |ins| == |outs| && forall k :: 0 <= k < |ins| ==> ComesOutAs(ins[k], outs[k])
  }

  lemma GotAppended(effects: seq<Effect>, e: Effect, from: set<Handle>)
    ensures Got(effects + [e], from) == Got(effects, from) + if GotFrom(e, from) then [e.event] else []
  {
    assert (effects + [e])[..|effects|] == effects;
  }

  lemma {:induction false} KeyUpsAreNotPlain(effects: seq<Effect>, to: Handle, order: seq<u32>, from: set<Handle>)
    ensures Got(effects + KeyUps(to, order), from) == Got(effects, from)
  {
    if order == [] {
      assert effects + KeyUps(to, order) == effects;
    } else {
      var first, last := order[..|order| - 1], order[|order| - 1];
      KeyUpsAreNotPlain(effects, to, first, from);
      assert effects + KeyUps(to, order) == (effects + KeyUps(to, first)) + [Consume(to, Key(last, 0))];
      GotAppended(effects + KeyUps(to, first), Consume(to, Key(last, 0)), from);
    }
  }

  //
  // One operation
  //

  /** The preferences looked up are those last given. */
  ghost predicate Looked(ops: seq<Op>, states: seq<Emulator>, h: Handle, n: nat)
    requires n <= |ops| < |states|
  {
    (if h in states[n].processing then states[n].processing[h] else Processing(false, 1.0))
    == Preferences(ops, states, h, n)
  }

  lemma {:induction false} PreferencesAreLookedUp(ops: seq<Op>, states: seq<Emulator>, h: Handle, n: nat)
    requires Run(ops, states) && n <= |ops|
    ensures Looked(ops, states, h, n)
  {
    if n > 0 {
      PreferencesAreLookedUp(ops, states, h, n - 1);
      assert Legal(states[n - 1], ops[n - 1]);
    }
  }

  lemma FedComesOut(s: Emulator, e: Event, h: Handle, macos: bool, from: set<Handle>, pp: Processing)
    requires pp == if h in s.processing then s.processing[h] else Processing(false, 1.0)
    ensures var before, after := Got(s.effects, from), Got(Consumed(s, e, h, macos).effects, from);
            if h in from && Plain(e) && !Foreign(e, macos)
            then |after| == |before| + 1 && after[..|before|] == before && ComesOutAs(Input(e, pp), after[|before|])
            else after == before
  {
    var s' := Consumed(s, e, h, macos);
    if s'.effects != s.effects {
      assert s'.effects == s.effects + [s'.effects[|s.effects|]];
      GotAppended(s.effects, s'.effects[|s.effects|], from);
    }
  }

  lemma ReleaseComesOut(s: Emulator, h: Handle, order: seq<u32>, from: set<Handle>)
    requires Enumerates(order, KeysOf(s, h))
    ensures Got(KeysReleased(s, h, order).effects, from)
            == Got(s.effects, from) + if h in from then [Modifiers(0, 0, 0, 0)] else []
  {
    KeyUpsAreNotPlain(s.effects, h, order, from);
    GotAppended(s.effects + KeyUps(h, order), Consume(h, NO_MODIFIERS), from);
  }

  lemma CloseComesOut(s: Emulator, h: Handle, order: seq<u32>, from: set<Handle>)
    requires Enumerates(order, KeysOf(s, h))
    ensures Got(Destroyed(s, h, order).effects, from)
            == Got(s.effects, from) + if h in from then [Modifiers(0, 0, 0, 0)] else []
  {
    ReleaseComesOut(s, h, order, from);
    GotAppended(KeysReleased(s, h, order).effects, Destroy(h), from);
  }

  //
  // Whole runs
  //

  /** After `n` operations the backend has got from the handle what was put in for it. */
  ghost predicate ComesOut(ops: seq<Op>, states: seq<Emulator>, h: Handle, n: nat)
    requires n <= |ops| < |states|
  {
    AllComeOut(Fed(ops, states, h, n), Got(states[n].effects, {h}))
  }

  /**
   What the backend gets from a handle is what was put in for it, in order, nothing lost and nothing added, each event
   changed only as the preferences of the moment say.
   */
  lemma {:induction false} InputComesOut(ops: seq<Op>, states: seq<Emulator>, h: Handle, n: nat)
    requires Run(ops, states) && n <= |ops|
    ensures ComesOut(ops, states, h, n)
  {
    for i := 0 to n
      invariant ComesOut(ops, states, h, i)
    {
      NextComesOut(ops, states, h, i);
    }
  }

  lemma NextComesOut(ops: seq<Op>, states: seq<Emulator>, h: Handle, n: nat)
    requires Run(ops, states) && n < |ops| && ComesOut(ops, states, h, n)
    ensures ComesOut(ops, states, h, n + 1)
  {
    PreferencesAreLookedUp(ops, states, h, n);
    assert Legal(states[n], ops[n]) && states[n + 1] == After(states[n], ops[n]);
    OneMoreComesOut(ops, states, h, n);
  }

  lemma OneMoreComesOut(ops: seq<Op>, states: seq<Emulator>, h: Handle, n: nat)
    requires n < |ops| < |states| && Legal(states[n], ops[n]) && states[n + 1] == After(states[n], ops[n])
    requires Looked(ops, states, h, n) && AllComeOut(Fed(ops, states, h, n), Got(states[n].effects, {h}))
    ensures AllComeOut(Fed(ops, states, h, n + 1), Got(states[n + 1].effects, {h}))
  {
    OperationComesOut(states[n], ops[n], h, Preferences(ops, states, h, n));
  }

  /** What one operation adds. */
  lemma OperationComesOut(s: Emulator, op: Op, h: Handle, pp: Processing)
    requires Legal(s, op) && pp == if h in s.processing then s.processing[h] else Processing(false, 1.0)
    ensures var before, after := Got(s.effects, {h}), Got(After(s, op).effects, {h});
            if op.Feed? && op.h == h && Plain(op.event) && !Foreign(op.event, op.macos)
            then
              |after| == |before| + 1 && after[..|before|] == before && ComesOutAs(Input(op.event, pp), after[|before|])
            else if (op.ReleaseAll? || op.Close?) && op.h == h then after == before + [Modifiers(0, 0, 0, 0)]
            else after == before
  {
    match op
    case Feed(e, of, macos) =>
      FedComesOut(s, e, of, macos, {h}, if of in s.processing then s.processing[of] else Processing(false, 1.0));
    case Configure(_, _) =>
    case Open(of) => GotAppended(s.effects, Create(of), {h});
    case ReleaseAll(of, order) => ReleaseComesOut(s, of, order, {h});
    case Close(of, order) => CloseComesOut(s, of, order, {h});
  }

  //
  // Keys
  //

  /** The operation makes the backend get this key event: it was fed as it is, or releases a key held down. */
  predicate CausesKey(s: Emulator, op: Op, h: Handle, code: u32, state: byte) {
    match op
    case Feed(e, from, _) => from == h && e.Key? && e.code == code && e.state == state
    case ReleaseAll(of, _) => of == h && state == 0 && h in s.pressedKeys && code in s.pressedKeys[h]
    case Close(of, _) => of == h && state == 0 && h in s.pressedKeys && code in s.pressedKeys[h]
    case _ => false
  }

  predicate IsKey(e: Effect) {
    e.Consume? && e.event.Key?
  }

  lemma OperationCausesKeys(s: Emulator, op: Op, i: nat)
    requires Legal(s, op) && |s.effects| <= i < |After(s, op).effects| && IsKey(After(s, op).effects[i])
    ensures var e := After(s, op).effects[i]; CausesKey(s, op, e.handle, e.event.code, e.event.state)
  {
    if op.ReleaseAll? || op.Close? {
      var r := KeysReleased(s, op.h, op.order);
      if i < |s.effects| + |op.order| {
        assert r.effects[i] == KeyUps(op.h, op.order)[i - |s.effects|];
        assert op.order[i - |s.effects|] in op.order;
      }
    }
  }

  lemma OperationKeepsEffects(s: Emulator, op: Op)
    requires Legal(s, op)
    ensures s.effects <= After(s, op).effects
  {
  }

  /** Every key event the backend got has its cause, and is as that cause has it. */
  lemma {:induction false} KeyHasItsCause(ops: seq<Op>, states: seq<Emulator>, n: nat, i: nat) returns (m: nat)
    requires Run(ops, states) && n <= |ops| && i < |states[n].effects| && IsKey(states[n].effects[i])
    ensures m < n
    ensures var e := states[n].effects[i]; CausesKey(states[m], ops[m], e.handle, e.event.code, e.event.state)
  {
    assert Legal(states[n - 1], ops[n - 1]) && states[n] == After(states[n - 1], ops[n - 1]);
    OperationKeepsEffects(states[n - 1], ops[n - 1]);
    if i < |states[n - 1].effects| {
      m := KeyHasItsCause(ops, states, n - 1, i);
    } else {
      OperationCausesKeys(states[n - 1], ops[n - 1], i);
      m := n - 1;
    }
  }

  //
  // Totals
  //

  datatype Totals = Totals(dx: real, dy: real, scroll: real, steps: int)

  function Counted(t: Totals, e: Event): Totals {
    match e
    case Motion(dx, dy) => t.(dx := t.dx + dx, dy := t.dy + dy)
    case Axis(value, _) => t.(scroll := t.scroll + value)
    case AxisDiscrete(steps) => t.(steps := t.steps + steps)
    case _ => t
  }

  /** Motion and scroll totals of some events. */
  function TotalOf(es: seq<Event>): Totals {
    if es == [] then Totals(0.0, 0.0, 0.0, 0) else Counted(TotalOf(es[..|es| - 1]), es[|es| - 1])
  }

  function EventsOf(ins: seq<Input>): (es: seq<Event>)
    ensures |es| == |ins|
  {
    seq(|ins|, k requires 0 <= k < |ins| => ins[k].event)
  }

  /** Motion scaled by the sensitivity, scroll turned round exactly if natural scroll is on. */
  predicate ScaledBy(t: Totals, t': Totals, pp: Processing) {
    && t'.dx == pp.sensitivity * t.dx && t'.dy == pp.sensitivity * t.dy
    && t'.scroll == (if pp.naturalScroll then -t.scroll else t.scroll)
    && t'.steps == if pp.naturalScroll then -t.steps else t.steps
  }

  lemma Distributes(f: real, a: real, b: real)
    ensures f * (a + b) == f * a + f * b
  {
  }

  lemma CountedScales(t: Totals, t': Totals, i: Input, out: Event)
    requires ScaledBy(t, t', i.pp) && ComesOutAs(i, out)
    ensures ScaledBy(Counted(t, i.event), Counted(t', out), i.pp)
  {
    if i.event.Motion? {
      Distributes(i.pp.sensitivity, t.dx, i.event.dx);
      Distributes(i.pp.sensitivity, t.dy, i.event.dy);
    }
  }

  lemma {:induction false} TotalsComeOut(ins: seq<Input>, outs: seq<Event>, pp: Processing)
    requires AllComeOut(ins, outs) && forall k :: 0 <= k < |ins| ==> ins[k].pp == pp
    ensures ScaledBy(TotalOf(EventsOf(ins)), TotalOf(outs), pp)
  {
    if ins != [] {
      var n := |ins| - 1;
      TotalsComeOut(ins[..n], outs[..n], pp);
      assert EventsOf(ins)[..n] == EventsOf(ins[..n]);
      CountedScales(TotalOf(EventsOf(ins[..n])), TotalOf(outs[..n]), ins[n], outs[n]);
    }
  }

  /**
   With the preferences fixed, the motion the backend gets from a handle is the sensitivity times the motion fed, and
   the scroll is the scroll fed, turned round exactly if natural scroll is on.
   */
  lemma TotalsAreScaled(ops: seq<Op>, states: seq<Emulator>, h: Handle, n: nat, pp: Processing, ins: seq<Input>)
    requires Run(ops, states) && n <= |ops| && ins == Fed(ops, states, h, n)
    requires forall k :: 0 <= k < |ins| ==> ins[k].pp == pp
    ensures ScaledBy(TotalOf(EventsOf(ins)), TotalOf(Got(states[n].effects, {h})), pp)
  {
    InputComesOut(ops, states, h, n);
    TotalsComeOut(ins, Got(states[n].effects, {h}), pp);
  }
}
