/**
 The pointer across the whole link: over any session of the host and any run of a client that has read what it was sent,
 the motion its platform is told to make is the motion handed out for it on the host, scaled by its preference for the
 host, however often the client was entered, left and entered again.
 */
module LinkMotion {
  import opened Wrappers
  import opened Bytes
  import opened CaptureModel
  import opened CaptureState
  import opened KeyLog
  import opened KeyLink
  import opened KeyLinkDestroy
  import opened ForwardedInput
  import E = EmulationState
  import I = EmulationInput
  import R = ReceivedInput
  import S = EmulationSession

  /** All the input sent to a client. */
  function InputTo(log: seq<Sent>, c: Client): seq<E.Event> {
    if log == [] then [] else
    var (to, m) := log[|log| - 1];
    InputTo(log[..|log| - 1], c) + if to == c && m.Input? then [m.event] else []
  }

  /** All the motion handed out for a client. */
  function HandedMotion(host: Host, steps: seq<Step>, states: seq<Link>, c: Client, n: nat): Vector
    requires n <= |steps| < |states|
  {
    if n == 0 then (0.0, 0.0)
    else Added(HandedMotion(host, steps, states, c, n - 1), MotionOf(Offered(host, states[n - 1], steps[n - 1]), c))
  }

  function Added(u: Vector, v: Vector): Vector {
    (u.0 + v.0, u.1 + v.1)
  }

  function MotionOf(item: Option<Item>, c: Client): Vector {
    if item.Some? && item.value.0 == c && item.value.1.Motion? then (item.value.1.dx, item.value.1.dy) else (0.0, 0.0)
  }

  function TotalMotion(es: seq<E.Event>): Vector {
    (I.TotalOf(es).dx, I.TotalOf(es).dy)
  }

  function Moves(e: E.Event): Vector {
    if e.Motion? then (e.dx, e.dy) else (0.0, 0.0)
  }

  lemma TotalAppended(es: seq<E.Event>, e: E.Event)
    ensures TotalMotion(es + [e]) == Added(TotalMotion(es), Moves(e))
  {
    assert (es + [e])[..|es|] == es;
  }

  //
  // The host
  //

  lemma InputAppended(log: seq<Sent>, s: Sent, c: Client)
    ensures InputTo(log + [s], c) == if s.0 == c && s.1.Input? then InputTo(log, c) + [s.1.event] else InputTo(log, c)
  {
    assert (log + [s])[..|log|] == log;
    assert InputTo(log, c) + [] == InputTo(log, c);
  }

  predicate Still(s: Sent) {
    s.1.Input? ==> !s.1.event.Motion?
  }

  /** Messages other than motions move nothing. */
  lemma {:induction false} StillMessages(log: seq<Sent>, more: seq<Sent>, c: Client)
    requires forall i :: 0 <= i < |more| ==> Still(more[i])
    ensures TotalMotion(InputTo(log + more, c)) == TotalMotion(InputTo(log, c))
  {
    if more == [] {
      assert log + more == log;
    } else {
      var first, last := more[..|more| - 1], more[|more| - 1];
      StillMessages(log, first, c);
      assert log + more == (log + first) + [last];
      InputAppended(log + first, last, c);
      if last.0 == c && last.1.Input? {
        TotalAppended(InputTo(log + first, c), last.1.event);
      }
    }
  }

  lemma GoodbyeIsStill(c: Client, keys: set<u32>, more: seq<Sent>)
    requires SaysGoodbye(c, keys, more)
    ensures forall i :: 0 <= i < |more| ==> Still(more[i])
  {
  }

  lemma StepMoves(host: Host, x: Link, s: Step, y: Link, more: seq<Sent>, c: Client)
    requires SendsExactly(host, x, s, y, more)
    ensures TotalMotion(InputTo(x.task.sent + more, c))
            == Added(TotalMotion(InputTo(x.task.sent, c)), MotionOf(Offered(host, x, s), c))
  {
    match Offered(host, x, s)
    case Some((h, e)) =>
      if e.Begin? {
        StillMessages(x.task.sent, more, c);
      } else {
        assert more == [more[0]];
        InputAppended(x.task.sent, more[0], c);
        if h == c {
          TotalAppended(InputTo(x.task.sent, c), more[0].1.event);
        }
      }
    case None =>
      if more != [] {
        GoodbyeIsStill(x.task.active.value, PressedAt(host, x, s), more);
      }
      StillMessages(x.task.sent, more, c);
  }

  ghost predicate Moved(host: Host, steps: seq<Step>, states: seq<Link>, c: Client, n: nat)
    requires n <= |steps| < |states|
  {
    TotalMotion(InputTo(states[n].task.sent, c)) == HandedMotion(host, steps, states, c, n)
  }

  lemma SentMotionIsHandedMotion(host: Host, x: Link, steps: seq<Step>, states: seq<Link>, c: Client, n: nat)
    requires Execution(host, x, steps, states) && Fresh(x) && n <= |steps|
    ensures Moved(host, steps, states, c, n)
  {
    for i := 0 to n
      invariant Moved(host, steps, states, c, i)
    {
      var more := ExecutionSends(host, x, steps, states, i);
      StepMoves(host, states[i], steps[i], states[i + 1], more, c);
    }
  }

  //
  // The client
  //

  /** All the input received from an address. */
  function Heard(steps: seq<R.Step>, a: S.Address): seq<E.Event> {
    if steps == [] then [] else
    var before, s := Heard(steps[..|steps| - 1], a), steps[|steps| - 1];
    if s.Receive? && s.addr == a then before + [s.event] else before
  }

  lemma {:induction false} PutInMotionIsHeard(steps: seq<R.Step>, a: S.Address, n: nat)
    requires n <= |steps|
    ensures TotalMotion(I.EventsOf(R.AllPutIn(steps, a, n))) == TotalMotion(Heard(steps[..n], a))
  {
    if n > 0 {
      PutInMotionIsHeard(steps, a, n - 1);
      assert steps[..n][..n - 1] == steps[..n - 1];
      StepIsHeard(R.AllPutIn(steps, a, n - 1), Heard(steps[..n - 1], a), steps[n - 1], a,
                  R.Present(steps, a, n - 1), R.Given(steps, a, n - 1));
    }
  }

  lemma InputAdds(ins: seq<I.Input>, i: I.Input)
    ensures TotalMotion(I.EventsOf(ins + [i])) == Added(TotalMotion(I.EventsOf(ins)), Moves(i.event))
  {
    var more, es := I.EventsOf(ins + [i]), I.EventsOf(ins);
    assert more[..|ins|] == es && more == more[..|ins|] + [i.event];
    TotalAppended(I.EventsOf(ins), i.event);
  }

  lemma StepIsHeard(ins: seq<I.Input>, heard: seq<E.Event>, s: R.Step, a: S.Address, present: bool, given: E.Processing)
    requires TotalMotion(I.EventsOf(ins)) == TotalMotion(heard)
    ensures TotalMotion(I.EventsOf(ins + R.PutIn(s, a, present, given)))
            == TotalMotion(if s.Receive? && s.addr == a then heard + [s.event] else heard)
  {
    var more := R.PutIn(s, a, present, given);
    if more == [] {
      assert ins + more == ins;
    } else {
      assert more == [more[0]];
      InputAdds(ins, more[0]);
    }
    if s.Receive? && s.addr == a {
      TotalAppended(heard, s.event);
      assert more == [] ==> !s.event.Motion?;
    }
  }

  /** All the motion the client's platform was told to make for an address. */
  function ToldMotion(steps: seq<R.Step>, states: seq<S.Session>, a: S.Address): Vector
    requires |steps| < |states|
  {
    TotalMotion(I.Got(states[|steps|].emulator.effects, R.Owned(steps, states, a, |steps|)))
  }

  predicate IsScaled(told: Vector, v: Vector, sensitivity: real) {
    told.0 == sensitivity * v.0 && told.1 == sensitivity * v.1
  }

  lemma ScaledTotals(t: I.Totals, t': I.Totals, pp: E.Processing, v: Vector)
    requires I.ScaledBy(t, t', pp) && v == (t.dx, t.dy)
    ensures IsScaled((t'.dx, t'.dy), v, pp.sensitivity)
  {
    assert v.0 == t.dx && v.1 == t.dy;
  }

  lemma HeardMotionIsTold(steps: seq<R.Step>, states: seq<S.Session>, a: S.Address, pp: E.Processing)
    requires R.Run(steps, states)
    requires var ins := R.AllPutIn(steps, a, |steps|); forall k :: 0 <= k < |ins| ==> ins[k].pp == pp
    ensures IsScaled(ToldMotion(steps, states, a), TotalMotion(Heard(steps, a)), pp.sensitivity)
  {
    var ins := R.AllPutIn(steps, a, |steps|);
    R.AddressTotalsAreScaled(steps, states, a, |steps|, pp, ins);
    PutInMotionIsHeard(steps, a, |steps|);
    assert steps[..|steps|] == steps;
    ScaledTotals(I.TotalOf(I.EventsOf(ins)),
                 I.TotalOf(I.Got(states[|steps|].emulator.effects, R.Owned(steps, states, a, |steps|))), pp,
                 TotalMotion(Heard(steps, a)));
  }

  //
  // Both
  //

  /**
   A client that has read everything it was sent has its platform make exactly the motion handed out for it, scaled by
   the sensitivity it has set for the host.
   */
  lemma MotionCrossesTheLink(host: Host, x: Link, steps: seq<Step>, states: seq<Link>, c: Client,
      clientSteps: seq<R.Step>, sessions: seq<S.Session>, a: S.Address, pp: E.Processing)
    requires Execution(host, x, steps, states) && Fresh(x)
    requires R.Run(clientSteps, sessions) && Heard(clientSteps, a) == InputTo(states[|steps|].task.sent, c)
    requires var ins := R.AllPutIn(clientSteps, a, |clientSteps|); forall k :: 0 <= k < |ins| ==> ins[k].pp == pp
    ensures IsScaled(ToldMotion(clientSteps, sessions, a), HandedMotion(host, steps, states, c, |steps|),
                     pp.sensitivity)
  {
    SentMotionIsHandedMotion(host, x, steps, states, c, |steps|);
    HeardMotionIsTold(clientSteps, sessions, a, pp);
  }
}
