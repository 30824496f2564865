/**
 What the clients are sent, field by field: each event handed out for a client is passed on as it is, an Enter names
 the side of the client's screen that faces the host, and the cursor fractions sent with it are the cursor's own.
 */
module ForwardedInput {
  import opened Wrappers
  import opened Bytes
  import opened Collections
  import opened Positions
  import opened CaptureModel
  import opened CaptureState
  import opened CaptureSession
  import opened KeyLog
  import opened KeyLink
  import opened KeyLinkDestroy
  import E = EmulationState
  import I = EmulationInput

  //
  // One step
  //

  /** The two sides touch: a capture at the one comes in at the other. */
  predicate Across(pos: Position, side: Position) {
    (pos.Left? && side.Right?) || (pos.Right? && side.Left?) || (pos.Top? && side.Bottom?) || (pos.Bottom? && side.Top?)
  }

  predicate SameInput(e: Event, i: E.Event) {
    match e
    case Motion(dx, dy) => i.Motion? && i.dx == dx && i.dy == dy
    case Key(code, state) => i.Key? && i.code == code && i.state == state
    case OtherInput(payload) => i.OtherInput? && i.payload == payload
    case _ => false
  }

  /** The event a poll hands out for a Default handle, if neither the chord nor an AutoRelease ends the capture. */
  function Offered(host: Host, x: Link, s: Step): Option<Item> {
    if !s.Poll? then None else
    var (c1, out) := Polled(host, x.cap, s.elapsed, s.arrival);
    if !out.Yield? || KeysPressed(c1.pressedKeys, x.task.releaseBind) || out.item.1.AutoRelease? then None else
    var reg := Find(x.task.captures, out.item.0);
    if reg.Some? && reg.value.kind == Default then Some(out.item) else None
  }

  /** Where an offset lies on an extent. */
  function ClippedTo(offset: int, extent: u32): nat {
    if offset < 0 then 0 else if offset > extent then extent else offset
  }

  predicate CursorKnown(host: Host, e: Event) {
    e.Begin? && e.cursor.Some? && host.bounds.Some? && host.bounds.value.0 > 0 && host.bounds.value.1 > 0
  }

  /** Scaled to the host's displays the fractions are the cursor's offsets, clipped. */
  predicate CursorOf(host: Host, e: Event, nx: real, ny: real)
    requires CursorKnown(host, e)
  {
    var (w, h) := host.bounds.value;
    && nx * w as real == ClippedTo(e.cursor.value.0 - host.origin.0, w) as real
    && ny * h as real == ClippedTo(e.cursor.value.1 - host.origin.1, h) as real
  }

  /** What is sent for a Begin: an Enter from across, then the cursor if it is known. */
  predicate Enters(host: Host, reg: Registration, e: Event, more: seq<Sent>) {
    && |more| == (if CursorKnown(host, e) then 2 else 1)
    && more[0].0 == reg.handle && more[0].1.Enter? && Across(reg.pos, more[0].1.pos)
    && (CursorKnown(host, e) ==>
        && more[1].0 == reg.handle && more[1].1.CursorPos? && Across(reg.pos, more[1].1.pos)
        && CursorOf(host, e, more[1].1.nx, more[1].1.ny))
  }

  /** A key-up for each key, once, then zero modifiers, then the Leave. */
  predicate SaysGoodbye(c: Client, keys: set<u32>, more: seq<Sent>) {
    && |more| >= 2
    && more[|more| - 1] == (c, Leave) && more[|more| - 2] == (c, Input(E.Modifiers(0, 0, 0, 0)))
    && (forall i :: 0 <= i < |more| - 2 ==>
        && more[i].0 == c && more[i].1.Input? && more[i].1.event.Key?
        && more[i].1.event.code in keys && more[i].1.event.state == 0)
    && (forall k :: k in keys ==> exists i :: 0 <= i < |more| - 2 && more[i] == (c, Input(E.Key(k, 0))))
    && (forall i, j :: 0 <= i < j < |more| - 2 ==> more[i] != more[j])
  }

  /** The keys pressed when the step flushes. */
  function PressedAt(host: Host, x: Link, s: Step): set<u32> {
    if s.Poll? then Polled(host, x.cap, s.elapsed, s.arrival).0.pressedKeys else x.cap.pressedKeys
  }

  /** Exactly what a step sends. */
  predicate SendsExactly(host: Host, x: Link, s: Step, y: Link, more: seq<Sent>) {
    match Offered(host, x, s)
    case Some((h, e)) =>
      var reg := Find(x.task.captures, h);
      && reg.Some? && reg.value.handle == h
      && y.task.active == (if e.Begin? then Some(h) else x.task.active)
      && if e.Begin? then Enters(host, reg.value, e, more)
         else |more| == 1 && more[0].0 == h && more[0].1.Input? && SameInput(e, more[0].1.event)
    case None =>
      if more == [] then y.task.active == x.task.active
      else y.task.active.None? && x.task.active.Some?
           && SaysGoodbye(x.task.active.value, PressedAt(host, x, s), more)
  }

  lemma FarewellSaysGoodbye(c: Client, order: seq<u32>, keys: set<u32>)
    requires Enumerates(order, keys)
    ensures SaysGoodbye(c, keys, Farewell(c, order))
  {
    var more := Farewell(c, order);
    forall k | k in keys
      ensures exists i :: 0 <= i < |more| - 2 && more[i] == (c, Input(E.Key(k, 0)))
    {
      var i :| 0 <= i < |order| && order[i] == k;
      assert more[i] == KeyUps(c, order)[i];
    }
  }

  lemma FractionScales(offset: int, extent: u32)
    requires extent > 0
    ensures Fraction(offset, extent) * extent as real == ClippedTo(offset, extent) as real
  {
    if 0 < offset < extent {
      var f := offset as real / extent as real;
      assert f * extent as real == offset as real;
    }
  }

  lemma ForwardedEnters(host: Host, t: Task, c: Capture, reg: Registration, e: Event)
    requires e.Begin?
    ensures var (t2, c2) := Forwarded(host, t, c, reg, e, true);
            && t2.active == Some(reg.handle) && t.sent <= t2.sent
            && Enters(host, reg, e, t2.sent[|t.sent|..])
  {
    var t2 := Forwarded(host, t, c, reg, e, true).0;
    var first := (reg.handle, MessageFor(e, reg.pos.Opposite()));
    var cursor := SentTogether(reg.handle, CursorMessage(host, e, reg.pos.Opposite()));
    assert t2.sent == t.sent + ([first] + cursor);
    assert t2.sent[|t.sent|..] == [first] + cursor;
    if CursorKnown(host, e) {
      FractionScales(e.cursor.value.0 - host.origin.0, host.bounds.value.0);
      FractionScales(e.cursor.value.1 - host.origin.1, host.bounds.value.1);
    }
  }

  lemma ForwardedPasses(host: Host, t: Task, c: Capture, reg: Registration, e: Event)
    requires !e.Begin? && !e.AutoRelease?
    ensures var (t2, c2) := Forwarded(host, t, c, reg, e, true);
            && t2.active == t.active && t.sent <= t2.sent
            && var more := t2.sent[|t.sent|..];
            |more| == 1 && more[0].0 == reg.handle && more[0].1.Input? && SameInput(e, more[0].1.event)
  {
    assert SentTogether(reg.handle, []) == [];
  }

  lemma TornDownSends(host: Host, t: Task, c: Capture, order: seq<u32>, warping: bool)
    requires CanFlush(t, c, order)
    ensures var (t2, c2) := TornDown(host, t, c, order, warping);
            && t.sent <= t2.sent && t2.active.None?
            && if t.active.None? then t2.sent == t.sent
               else SaysGoodbye(t.active.value, c.pressedKeys, t2.sent[|t.sent|..])
  {
    if t.active.Some? {
      FarewellSaysGoodbye(t.active.value, order, c.pressedKeys);
      assert (t.sent + Farewell(t.active.value, order))[|t.sent|..] == Farewell(t.active.value, order);
    }
  }

  lemma PollSends(host: Host, x: Link, elapsed: bool, arrival: Arrival, order: seq<u32>)
    requires Runs(host, x, Poll(elapsed, arrival, order))
    ensures var s := Poll(elapsed, arrival, order);
            var y := Next(host, x, s);
            x.task.sent <= y.task.sent && SendsExactly(host, x, s, y, y.task.sent[|x.task.sent|..])
  {
    var (c1, out) := Polled(host, x.cap, elapsed, arrival);
    if out.Yield? {
      HandledSends(host, x, Poll(elapsed, arrival, order), c1, out.item.0, out.item.1);
    }
  }

  lemma HandledSends(host: Host, x: Link, s: Step, c1: Capture, h: Handle, e: Event)
    requires s.Poll? && Runs(host, x, s) && Polled(host, x.cap, s.elapsed, s.arrival) == (c1, Yield((h, e)))
    ensures var y := Next(host, x, s);
            x.task.sent <= y.task.sent && SendsExactly(host, x, s, y, y.task.sent[|x.task.sent|..])
  {
    var t := x.task;
    if !LooksUp(t, c1, e) {
      TornDownSends(host, t, c1, s.order, true);
    } else {
      var reg := Find(t.captures, h).value;
      if reg.kind == Default && e.Begin? {
        ForwardedEnters(host, t.(notices := t.notices + [CaptureBegin(h)]), c1, reg, e);
      } else if reg.kind == Default {
        ForwardedPasses(host, t, c1, reg, e);
      }
    }
  }

  lemma StepSends(host: Host, x: Link, s: Step)
    requires Runs(host, x, s)
    ensures var y := Next(host, x, s);
            x.task.sent <= y.task.sent && SendsExactly(host, x, s, y, y.task.sent[|x.task.sent|..])
  {
    match s
    case Poll(elapsed, arrival, order) => PollSends(host, x, elapsed, arrival, order);
    case Peer(h, m, order) =>
      if Heeded(x.task, h) && m.PeerLeave? {
        TornDownSends(host, x.task, x.cap, order, false);
      }
    case Service(r, order) =>
      if r.ReleaseForHandover? {
        TornDownSends(host, x.task, x.cap, order, false);
      }
  }

  //
  // Whole runs
  //

  /** Nothing has been sent yet. */
  ghost predicate Fresh(x: Link) {
    x.task.sent == []
  }

  /** The input sent to a client since it was last entered or left. */
  function Since(log: seq<Sent>, c: Client): seq<E.Event> {
    if log == [] then [] else
    var (to, m) := log[|log| - 1];
    var before := Since(log[..|log| - 1], c);
    if to != c then before
    else match m
      case Input(e) => before + [e]
      case CursorPos(_, _, _) => before
      case _ => []
  }

  /** The input handed out for a client since it was last entered or told goodbye. */
  function HandedSince(host: Host, steps: seq<Step>, states: seq<Link>, c: Client, n: nat): seq<Event>
    requires n <= |steps| < |states|
  {
    if n == 0 then [] else
    var before, x := HandedSince(host, steps, states, c, n - 1), states[n - 1];
    match Offered(host, x, steps[n - 1])
    case Some((h, e)) => if h != c then before else if e.Begin? then [] else before + [e]
    case None => if x.task.active == Some(c) && states[n].task.active.None? then [] else before
  }

  ghost predicate AllTheSame(handed: seq<Event>, sent: seq<E.Event>) {
    |handed| == |sent| && forall i :: 0 <= i < |handed| ==> SameInput(handed[i], sent[i])
  }

  lemma SinceAppended(log: seq<Sent>, s: Sent, c: Client)
    ensures Since(log + [s], c)
            == if s.0 != c || s.1.CursorPos? then Since(log, c)
               else if s.1.Input? then Since(log, c) + [s.1.event] else []
  {
    assert (log + [s])[..|log|] == log;
  }

  /** Messages to other clients do not count. */
  lemma {:induction false} SinceOthers(log: seq<Sent>, more: seq<Sent>, c: Client)
    requires forall i :: 0 <= i < |more| ==> more[i].0 != c
    ensures Since(log + more, c) == Since(log, c)
  {
    if more == [] {
      assert log + more == log;
    } else {
      var n := |more| - 1;
      SinceOthers(log, more[..n], c);
      assert log + more == (log + more[..n]) + [more[n]];
      SinceAppended(log + more[..n], more[n], c);
    }
  }

  lemma SinceGoodbye(log: seq<Sent>, to: Client, keys: set<u32>, more: seq<Sent>, c: Client)
    requires SaysGoodbye(to, keys, more)
    ensures Since(log + more, c) == if to == c then [] else Since(log, c)
  {
    if to == c {
      var n := |more| - 1;
      assert log + more == (log + more[..n]) + [more[n]];
      SinceAppended(log + more[..n], more[n], c);
    } else {
      SinceOthers(log, more, c);
    }
  }

  lemma SinceEnters(host: Host, log: seq<Sent>, reg: Registration, e: Event, more: seq<Sent>, c: Client)
    requires Enters(host, reg, e, more)
    ensures Since(log + more, c) == if reg.handle == c then [] else Since(log, c)
  {
    SinceAppended(log, more[0], c);
    if |more| == 2 {
      assert log + more == (log + [more[0]]) + [more[1]];
      SinceAppended(log + [more[0]], more[1], c);
    } else {
      assert more == [more[0]];
    }
  }

  /** One step keeps what was handed out and what was sent alike. */
  lemma StepStaysAlike(host: Host, x: Link, s: Step, y: Link, more: seq<Sent>, c: Client, handed: seq<Event>)
    requires y.task.sent == x.task.sent + more && SendsExactly(host, x, s, y, more)
    requires AllTheSame(handed, Since(x.task.sent, c))
    ensures var o := Offered(host, x, s);
            var handed' := if o.Some? then
                             if o.value.0 != c then handed else if o.value.1.Begin? then [] else handed + [o.value.1]
                           else if x.task.active == Some(c) && y.task.active.None? then [] else handed;
            AllTheSame(handed', Since(y.task.sent, c))
  {
    match Offered(host, x, s)
    case Some((h, e)) =>
      if e.Begin? {
        SinceEnters(host, x.task.sent, Find(x.task.captures, h).value, e, more, c);
      } else {
        assert more == [more[0]];
        SinceAppended(x.task.sent, more[0], c);
      }
    case None =>
      if more == [] {
        assert x.task.sent + more == x.task.sent;
      } else {
        SinceGoodbye(x.task.sent, x.task.active.value, PressedAt(host, x, s), more, c);
      }
  }

  lemma ExecutionSends(host: Host, x: Link, steps: seq<Step>, states: seq<Link>, n: nat) returns (more: seq<Sent>)
    requires Execution(host, x, steps, states) && n < |steps|
    ensures states[n + 1].task.sent == states[n].task.sent + more
    ensures SendsExactly(host, states[n], steps[n], states[n + 1], more)
  {
    StepSends(host, states[n], steps[n]);
    more := states[n + 1].task.sent[|states[n].task.sent|..];
  }

  ghost predicate PassedOn(host: Host, steps: seq<Step>, states: seq<Link>, c: Client, n: nat)
    requires n <= |steps| < |states|
  {
    AllTheSame(HandedSince(host, steps, states, c, n), Since(states[n].task.sent, c))
  }

  lemma NextIsPassedOn(host: Host, x: Link, steps: seq<Step>, states: seq<Link>, c: Client, n: nat)
    requires Execution(host, x, steps, states) && n < |steps| && PassedOn(host, steps, states, c, n)
    ensures PassedOn(host, steps, states, c, n + 1)
  {
    var more := ExecutionSends(host, x, steps, states, n);
    StepStaysAlike(host, states[n], steps[n], states[n + 1], more, c, HandedSince(host, steps, states, c, n));
  }

  /**
   At any time the input a client was sent since its Enter is the input handed out for it since that Begin, in
   order, nothing lost, nothing added, nothing changed, whatever the layout.
   */
  lemma InputIsPassedOn(host: Host, x: Link, steps: seq<Step>, states: seq<Link>, c: Client, n: nat)
    requires Execution(host, x, steps, states) && Fresh(x) && n <= |steps|
    ensures PassedOn(host, steps, states, c, n)
  {
    for i := 0 to n
      invariant PassedOn(host, steps, states, c, i)
    {
      NextIsPassedOn(host, x, steps, states, c, i);
    }
  }

  /** Total motion of some events. */
  function Motion(es: seq<Event>): (real, real) {
    if es == [] then (0.0, 0.0) else
    var (dx, dy), e := Motion(es[..|es| - 1]), es[|es| - 1];
    if e.Motion? then (dx + e.dx, dy + e.dy) else (dx, dy)
  }

  lemma {:induction false} SameMotion(handed: seq<Event>, sent: seq<E.Event>)
    requires AllTheSame(handed, sent)
    ensures Motion(handed) == (I.TotalOf(sent).dx, I.TotalOf(sent).dy)
  {
    if handed != [] {
      var n := |handed| - 1;
      SameMotion(handed[..n], sent[..n]);
      assert SameInput(handed[n], sent[n]);
    }
  }

  /** In particular the motion sent is the motion handed out. */
  lemma MotionIsConserved(host: Host, x: Link, steps: seq<Step>, states: seq<Link>, c: Client, n: nat)
    requires Execution(host, x, steps, states) && Fresh(x) && n <= |steps|
    ensures var t := I.TotalOf(Since(states[n].task.sent, c));
            Motion(HandedSince(host, steps, states, c, n)) == (t.dx, t.dy)
  {
    InputIsPassedOn(host, x, steps, states, c, n);
    SameMotion(HandedSince(host, steps, states, c, n), Since(states[n].task.sent, c));
  }

  /** Every message was sent by some step, which accounts for it. */
  lemma {:induction false} CauseOf(host: Host, x: Link, steps: seq<Step>, states: seq<Link>, n: nat, i: nat)
    returns (m: nat, more: seq<Sent>)
    requires Execution(host, x, steps, states) && Fresh(x) && n <= |steps| && i < |states[n].task.sent|
    ensures m < n && |states[m].task.sent| <= i < |states[m].task.sent + more|
    ensures states[n].task.sent[i] == (states[m].task.sent + more)[i]
    ensures states[m + 1].task.sent == states[m].task.sent + more
    ensures SendsExactly(host, states[m], steps[m], states[m + 1], more)
  {
    more := ExecutionSends(host, x, steps, states, n - 1);
    m := n - 1;
    if i < |states[n - 1].task.sent| {
      m, more := CauseOf(host, x, steps, states, n - 1, i);
    }
  }

  /**
   Every Enter was sent because a Begin was handed out for its client, and names the side across from where the client
   is registered; every cursor was sent right after one, for a Begin that knew it, and is that cursor's place on the
   host's displays.
   */
  lemma EnterHasItsBegin(host: Host, x: Link, steps: seq<Step>, states: seq<Link>, n: nat, i: nat) returns (m: nat)
    requires Execution(host, x, steps, states) && Fresh(x) && n <= |steps| && i < |states[n].task.sent|
    requires states[n].task.sent[i].1.Enter? || states[n].task.sent[i].1.CursorPos?
    ensures m < n && Offered(host, states[m], steps[m]).Some?
    ensures var ((c, message), (h, e)) := (states[n].task.sent[i], Offered(host, states[m], steps[m]).value);
            var reg := Find(states[m].task.captures, h);
            && c == h && e.Begin? && reg.Some? && Across(reg.value.pos, message.pos)
            && (message.CursorPos? ==>
                && i > 0 && states[n].task.sent[i - 1] == (c, Enter(message.pos))
                && CursorKnown(host, e) && CursorOf(host, e, message.nx, message.ny))
  {
    var more;
    m, more := CauseOf(host, x, steps, states, n, i);
    var r := i - |states[m].task.sent|;
    assert (states[m].task.sent + more)[i] == more[r];
    if Offered(host, states[m], steps[m]).Some? && r > 0 {
      SentBefore(host, x, steps, states, n, m, i, more);
    }
  }

  lemma {:induction false} SentStays(host: Host, x: Link, steps: seq<Step>, states: seq<Link>, m: nat, n: nat)
    requires Execution(host, x, steps, states) && m <= n <= |steps|
    ensures states[m].task.sent <= states[n].task.sent
  {
    if m < n {
      SentStays(host, x, steps, states, m, n - 1);
      var more := ExecutionSends(host, x, steps, states, n - 1);
    }
  }

  lemma SentBefore(host: Host, x: Link, steps: seq<Step>, states: seq<Link>, n: nat, m: nat, i: nat, more: seq<Sent>)
    requires Execution(host, x, steps, states) && m < n <= |steps|
    requires |states[m].task.sent| < i < |states[m].task.sent + more| && i < |states[n].task.sent|
    requires SendsExactly(host, states[m], steps[m], states[m + 1], more)
    requires states[m + 1].task.sent == states[m].task.sent + more
    ensures states[n].task.sent[i - 1] == more[i - 1 - |states[m].task.sent|]
  {
    SentStays(host, x, steps, states, m + 1, n);
  }
}
