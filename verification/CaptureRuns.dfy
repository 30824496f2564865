/**
 Whole runs of the capture wrapper: the handle maps stay inverse and in step with the backend, every event is
 handed out once to each handle that was registered when it was consumed, in order, before the next one is
 consumed.
 */
module CaptureRuns {
  import opened Wrappers
  import opened Bytes
  import opened Positions
  import opened CaptureModel
  import opened CaptureState

  datatype Op =
    | Attach(id: Handle, pos: Position)
    | Detach(id: Handle)
    | Release(warping: bool)
    | Poll(elapsed: bool, arrival: Arrival)
    | TakeKeys
    | SetThreshold(px: u32)
    | SetBounds(pos: Position, size: Size)
    | ClearBounds(pos: Position)
    | SetSensitivity(pos: Position, factor: real)
    | ClearSensitivity(pos: Position)

  /** `create` and `destroy` panic on a handle that is, or is not, registered; callers must not do that. */
  predicate Legal(c: Capture, op: Op) {
    (op.Attach? ==> op.id !in c.idMap) && (op.Detach? ==> op.id in c.idMap)
  }

  function After(host: Host, c: Capture, op: Op): Capture
    requires Legal(c, op)
  {
    match op
    case Attach(id, pos) => Created(c, id, pos)
    case Detach(id) => Destroyed(c, id)
    case Release(warping) => Released(c, if warping then WarpTarget(host, c.wall) else None)
    case Poll(elapsed, arrival) => Polled(host, c, elapsed, arrival).0
    case TakeKeys => c.(pressedKeys := {})
    case SetThreshold(px) => c.(wall := c.wall.(threshold := px))
    case SetBounds(pos, size) => c.(wall := SetPeerBounds(host, c.wall, pos, size))
    case ClearBounds(pos) => c.(wall := c.wall.(peerBounds := c.wall.peerBounds - {pos}))
    case SetSensitivity(pos, factor) => c.(wall := SetPeerSensitivity(c.wall, pos, factor))
    case ClearSensitivity(pos) => c.(wall := c.wall.(peerSensitivity := c.wall.peerSensitivity - {pos}))
  }

  /** What the step hands to its caller: at most one event copy. */
  function Output(host: Host, c: Capture, op: Op): seq<Item> {
    if op.Poll? then Given(Polled(host, c, op.elapsed, op.arrival).1) else []
  }

  function Given(out: CaptureState.Poll): seq<Item> {
    if out.Yield? then [out.item] else []
  }

  /** The deadline fires at a poll that hands out an AutoRelease. */
  predicate DeadlineYields(c: Capture, elapsed: bool) {
    && c.wall.pressPending && elapsed
    && c.wall.capturePos.Some? && c.wall.capturePos.value in c.positionMap
    && c.positionMap[c.wall.capturePos.value] != []
  }

  /** The event copies the step puts in line, one per handle: of a fired AutoRelease or of a consumed backend event. */
  function Queued(c: Capture, op: Op): seq<Item> {
    if !op.Poll? || c.pending != [] then []
    else if DeadlineYields(c, op.elapsed) then Copies(c.positionMap[c.wall.capturePos.value], AutoRelease)
    else if op.arrival.Arrived? then Copies(HandlesAt(c.positionMap, op.arrival.pos), op.arrival.event)
    else []
  }

  ghost predicate Run(host: Host, ops: seq<Op>, states: seq<Capture>) {
    && |states| == |ops| + 1
    && states[0] == FRESH
    && forall n {:trigger ops[n]} :: 0 <= n < |ops| ==>
        Legal(states[n], ops[n]) && states[n + 1] == After(host, states[n], ops[n])
  }

  //
  // What a poll answers
  //

  /**
   The answer, from the queue, the deadline and the arrival alone. A queued copy goes first, then a fired deadline's
   AutoRelease, to the first handle of the captured position, then a backend event, to the first of its position. A
   poll with none of these ends or fails exactly when the backend does, and waits otherwise.
   */
  lemma PollAnswers(host: Host, c: Capture, elapsed: bool, arrival: Arrival)
    ensures var out := Polled(host, c, elapsed, arrival).1;
            if c.pending != [] then out == Yield(c.pending[0])
            else if DeadlineYields(c, elapsed) then
              out == Yield((c.positionMap[c.wall.capturePos.value][0], AutoRelease))
            else
              && (out.Finished? <==> arrival.End?)
              && (forall error :: out == Failed(error) <==> arrival == Failure(error))
              && (out.Pending? <==>
                  arrival.Quiet? ||
                  (arrival.Arrived? && (arrival.pos in c.positionMap ==> c.positionMap[arrival.pos] == [])))
              && (out.Yield? ==> out.item == (c.positionMap[arrival.pos][0], arrival.event))
  {
  }

  //
  // Handle maps and backend
  //

  lemma StaysConsistent(host: Host, c: Capture, op: Op)
    requires Consistent(c) && Legal(c, op)
    ensures Consistent(After(host, c, op))
  {
    match op
    case Attach(id, pos) => CreatedStaysConsistent(c, id, pos);
    case Detach(id) => DestroyedStaysConsistent(c, id);
    case Release(warping) => ReleasedStaysConsistent(c, if warping then WarpTarget(host, c.wall) else None);
    case _ => assert After(host, c, op).calls == c.calls;
  }

  /**
   In every reachable state the two maps are inverse relations without empty or duplicate lists, the backend's
   create and destroy calls alternate per position, and the positions live there are the keys of the map.
   */
  lemma {:induction false} RunStaysConsistent(host: Host, ops: seq<Op>, states: seq<Capture>, n: nat)
    requires Run(host, ops, states) && n <= |ops|
    ensures Consistent(states[n])
  {
    if n > 0 {
      RunStaysConsistent(host, ops, states, n - 1);
      assert Legal(states[n - 1], ops[n - 1]);
      StaysConsistent(host, states[n - 1], ops[n - 1]);
    } else {
      assert FRESH.positionMap.Keys == {};
    }
  }

  //
  // Fan-out
  //

  function Handed(host: Host, ops: seq<Op>, states: seq<Capture>, n: nat): seq<Item>
    requires n <= |ops| < |states|
  {
    if n == 0 then [] else Handed(host, ops, states, n - 1) + Output(host, states[n - 1], ops[n - 1])
  }

  function AllQueued(ops: seq<Op>, states: seq<Capture>, n: nat): seq<Item>
    requires n <= |ops| < |states|
  {
    if n == 0 then [] else AllQueued(ops, states, n - 1) + Queued(states[n - 1], ops[n - 1])
  }

  lemma PollConserves(host: Host, c: Capture, elapsed: bool, arrival: Arrival)
    ensures Given(Polled(host, c, elapsed, arrival).1) + Polled(host, c, elapsed, arrival).0.pending
            == c.pending + Queued(c, Poll(elapsed, arrival))
  {
    if c.pending == [] {
      BackendConserves(host, c, arrival);
      BackendConserves(host, c.(wall := c.wall.(pressPending := false), pending := []), arrival);
    }
  }

  lemma PoppedConserves(c: Capture)
    requires c.pending != []
    ensures Given(Popped(c).1) + Popped(c).0.pending == c.pending
  {
  }

  lemma ConsumedQueues(host: Host, c: Capture, pos: Position, e: Event)
    requires c.pending == []
    ensures Consumed(host, c, pos, e).pending == Copies(HandlesAt(c.positionMap, pos), e)
  {
  }

  lemma BackendConserves(host: Host, c: Capture, arrival: Arrival)
    requires c.pending == []
    ensures var (c', out) := PollBackend(host, c, arrival);
            Given(out) + c'.pending
            == if arrival.Arrived? then Copies(HandlesAt(c.positionMap, arrival.pos), arrival.event) else []
  {
    if arrival.Arrived? {
      ConsumedQueues(host, c, arrival.pos, arrival.event);
      var c1 := Consumed(host, c, arrival.pos, arrival.event);
      if c1.pending != [] { PoppedConserves(c1); }
    }
  }

  lemma StepConserves(host: Host, c: Capture, op: Op)
    requires Legal(c, op)
    ensures Output(host, c, op) + After(host, c, op).pending == c.pending + Queued(c, op)
  {
    if op.Poll? {
      PollConserves(host, c, op.elapsed, op.arrival);
    } else {
      assert After(host, c, op).pending == c.pending;
    }
  }

  /** Nothing is lost, duplicated or reordered: what was handed out, then what still waits, is what was queued. */
  lemma {:induction false} FanOutIsConserved(host: Host, ops: seq<Op>, states: seq<Capture>, n: nat)
    requires Run(host, ops, states) && n <= |ops|
    ensures Handed(host, ops, states, n) + states[n].pending == AllQueued(ops, states, n)
  {
    if n > 0 {
      FanOutIsConserved(host, ops, states, n - 1);
      var c, op := states[n - 1], ops[n - 1];
      assert Legal(c, op);
      StepConserves(host, c, op);
      Reassociate(Handed(host, ops, states, n - 1), c.pending, Queued(c, op), Output(host, c, op), states[n].pending);
    }
  }

  lemma Reassociate<T>(handed: seq<T>, waiting: seq<T>, queued: seq<T>, out: seq<T>, left: seq<T>)
    requires out + left == waiting + queued
    ensures (handed + out) + left == (handed + waiting) + queued
  {
    assert (handed + out) + left == handed + (out + left);
    assert (handed + waiting) + queued == handed + (waiting + queued);
  }

  /**
   Copies of an event are put in line only once every earlier copy has been handed out; from then until the next
   event's are, exactly its copies are handed out, one to each handle registered at its position, in list order.
   */
  lemma EventReachesEachHandleOnce(host: Host, ops: seq<Op>, states: seq<Capture>, n: nat, m: nat, pos: Position,
      e: Event)
    requires Run(host, ops, states) && n < m < |ops|
    requires Queued(states[n], ops[n]) == Copies(HandlesAt(states[n].positionMap, pos), e) != []
    requires AllQueued(ops, states, m) == AllQueued(ops, states, n + 1)
    requires Queued(states[m], ops[m]) != []
    ensures Handed(host, ops, states, m)
            == Handed(host, ops, states, n) + Copies(HandlesAt(states[n].positionMap, pos), e)
    ensures NoDuplicates(HandlesAt(states[n].positionMap, pos))
  {
    FanOutIsConserved(host, ops, states, n);
    FanOutIsConserved(host, ops, states, m);
    RunStaysConsistent(host, ops, states, n);
    assert AllQueued(ops, states, n + 1) == AllQueued(ops, states, n) + Queued(states[n], ops[n]);
    assert states[n].pending == [] && states[m].pending == [];
    assert Handed(host, ops, states, n) + [] == Handed(host, ops, states, n);
    assert Handed(host, ops, states, m) + [] == Handed(host, ops, states, m);
  }
}
