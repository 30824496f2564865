/**
 The reference machine for reassembly: all it keeps is, per open transfer id, the set of chunk indexes
 received. No bytes, no slots, no hashes. `counts` gives the number of chunks of each transfer.
 */
module ClipboardProgress {
  import opened Bytes
  import opened Collections

  const MAX_OPEN: nat := 4

  datatype Signal = Open(id: u64) | Piece(id: u64, index: nat) | Other

  datatype Event = Quiet | Refused | Delivered(id: u64)

  type Progress = map<u64, set<nat>>

  type Counts = map<u64, nat>

  ghost predicate Full(counts: Counts, id: u64, got: set<nat>) {
    id in counts && forall i: nat :: i < counts[id] ==> i in got
  }

  ghost function Step(counts: Counts, a: Progress, s: Signal): (Progress, Event) {
    match s
    case Open(id) =>
      if id in a then (a, Quiet) else if |a| >= MAX_OPEN then (a, Refused) else (a[id := {}], Quiet)
    case Piece(id, i) =>
      if id !in a then (a, Quiet)
      else if Full(counts, id, a[id] + {i}) then (a - {id}, Delivered(id))
      else (a[id := a[id] + {i}], Quiet)
    case Other => (a, Quiet)
  }

  /** A run from the empty machine: `states[n]` is the state after the first `n` signals. */
  ghost predicate Run(counts: Counts, ss: seq<Signal>, states: seq<Progress>) {
    && |states| == |ss| + 1
    && states[0] == map[]
    && forall n {:trigger ss[n]} :: 0 <= n < |ss| ==> states[n + 1] == Step(counts, states[n], ss[n]).0
  }

  ghost function EventAt(counts: Counts, ss: seq<Signal>, states: seq<Progress>, n: nat): Event
    requires n < |ss| && n < |states|
  {
    Step(counts, states[n], ss[n]).1
  }

  lemma StepGathers(counts: Counts, a: Progress, s: Signal, id: u64)
    requires id in a && Step(counts, a, s).1 != Delivered(id)
    ensures id in Step(counts, a, s).0
    ensures Step(counts, a, s).0[id] == a[id] + if s.Piece? && s.id == id then {s.index} else {}
  {
  }

  lemma EventMeaning(counts: Counts, a: Progress, s: Signal)
    ensures match Step(counts, a, s).1
            case Quiet => true
            case Refused => s.Open? && s.id !in a && |a| >= MAX_OPEN
            case Delivered(id) => s.Piece? && s.id == id && id in a && id in counts
  {
  }

  lemma StepStaysSmall(counts: Counts, a: Progress, s: Signal)
    requires |a| <= MAX_OPEN
    ensures |Step(counts, a, s).0| <= MAX_OPEN
  {
    if s.Piece? && s.id in a {
      RemoveSize(a, s.id);
    }
  }

  lemma StepBalance(counts: Counts, a: Progress, s: Signal, id: u64)
    ensures var (a', e) := Step(counts, a, s);
            (if id in a' then 1 else 0) + (if e == Delivered(id) then 1 else 0)
            == (if id in a then 1 else 0) + if s == Open(id) && id !in a && |a| < MAX_OPEN then 1 else 0
  {
  }

  lemma {:induction false} AtMostFourOpen(counts: Counts, ss: seq<Signal>, states: seq<Progress>, n: nat)
    requires Run(counts, ss, states) && n <= |ss|
    ensures |states[n]| <= MAX_OPEN
  {
    if n > 0 {
      AtMostFourOpen(counts, ss, states, n - 1);
      StepStaysSmall(counts, states[n - 1], ss[n - 1]);
    }
  }

  /** Indexes of the pieces of `id` among `ss[j..n]`. */
  ghost function Received(ss: seq<Signal>, id: u64, j: nat, n: nat): set<nat>
    requires j <= n <= |ss|
  {
    set k | j <= k < n && ss[k].Piece? && ss[k].id == id :: ss[k].index
  }

  lemma ReceivedStep(ss: seq<Signal>, id: u64, j: nat, n: nat)
    requires j <= n < |ss|
    ensures Received(ss, id, j, n + 1)
            == Received(ss, id, j, n) + if ss[n].Piece? && ss[n].id == id then {ss[n].index} else {}
  {
    var before, after := Received(ss, id, j, n), Received(ss, id, j, n + 1);
    forall i | i in after
      ensures i in before || (ss[n].Piece? && ss[n].id == id && i == ss[n].index)
    {
      var k :| j <= k < n + 1 && ss[k].Piece? && ss[k].id == id && ss[k].index == i;
    }
    assert before <= after;
  }

  /** `id` was opened at `j` and has stayed open for the first `n` signals. */
  ghost predicate OpenSince(ss: seq<Signal>, states: seq<Progress>, id: u64, j: nat, n: nat)
    requires n < |states| == |ss| + 1
  {
    && j < n && ss[j] == Open(id)
    && id !in states[j]
    && forall k :: j < k <= n ==> id in states[k]
  }

  /**
   An open id remembers exactly the pieces received since the Open that opened it: pieces that came
   before are forgotten, and a repeated Open in between changes nothing.
   */
  lemma {:induction false} OpenHistory(counts: Counts, ss: seq<Signal>, states: seq<Progress>, id: u64, n: nat)
    returns (j: nat)
    requires Run(counts, ss, states) && n <= |ss| && id in states[n]
    ensures OpenSince(ss, states, id, j, n)
    ensures states[n][id] == Received(ss, id, j, n)
  {
    if id in states[n - 1] {
      j := OpenHistory(counts, ss, states, id, n - 1);
      StaysOpen(ss, states, id, j, n - 1);
      GathersReceived(counts, ss, states, id, j, n - 1);
    } else {
      j := n - 1;
      OpensEmpty(counts, ss, states, id, j);
    }
  }

  lemma StaysOpen(ss: seq<Signal>, states: seq<Progress>, id: u64, j: nat, n: nat)
    requires n + 1 < |states| == |ss| + 1 && OpenSince(ss, states, id, j, n) && id in states[n + 1]
    ensures OpenSince(ss, states, id, j, n + 1)
  {
  }

  lemma GathersReceived(counts: Counts, ss: seq<Signal>, states: seq<Progress>, id: u64, j: nat, n: nat)
    requires Run(counts, ss, states) && j <= n < |ss| && id in states[n] && id in states[n + 1]
    requires states[n][id] == Received(ss, id, j, n)
    ensures states[n + 1][id] == Received(ss, id, j, n + 1)
  {
    ReceivedStep(ss, id, j, n);
    StepGathers(counts, states[n], ss[n], id);
  }

  lemma OpensEmpty(counts: Counts, ss: seq<Signal>, states: seq<Progress>, id: u64, n: nat)
    requires Run(counts, ss, states) && n < |ss| && id !in states[n] && id in states[n + 1]
    ensures OpenSince(ss, states, id, n, n + 1)
    ensures states[n + 1][id] == Received(ss, id, n, n + 1) == {}
  {
    assert ss[n] == Open(id);
  }

  /**
   Delivery happens at exactly the signal that completes the set: it is a piece of `id`, an Open at `j`
   opened the id, and with this piece all indexes have come since.
   */
  lemma DeliveredExactlyWhenComplete(counts: Counts, ss: seq<Signal>, states: seq<Progress>, id: u64, n: nat)
    requires Run(counts, ss, states) && n < |ss|
    ensures EventAt(counts, ss, states, n) == Delivered(id) <==>
            && ss[n].Piece? && ss[n].id == id
            && exists j: nat :: j < n && OpenSince(ss, states, id, j, n) && Full(counts, id, Received(ss, id, j, n + 1))
  {
    if ss[n].Piece? && ss[n].id == id && id in states[n] {
      var j := OpenHistory(counts, ss, states, id, n);
      ReceivedStep(ss, id, j, n);
    }
  }

  /** Opens among the first `n` signals that opened `id`: there was room and it was not open already. */
  ghost function Openings(ss: seq<Signal>, states: seq<Progress>, id: u64, n: nat): nat
    requires n < |states| == |ss| + 1
  {
    if n == 0 then 0 else
    var a := states[n - 1];
    Openings(ss, states, id, n - 1) + if ss[n - 1] == Open(id) && id !in a && |a| < MAX_OPEN then 1 else 0
  }

  /** Which of the first `n` signals delivered `id`. */
  ghost function DeliveryFlags(counts: Counts, ss: seq<Signal>, states: seq<Progress>, id: u64, n: nat): (fs: seq<bool>)
    requires n < |states| == |ss| + 1
    ensures |fs| == n
  {
    seq(n, k requires 0 <= k < n => EventAt(counts, ss, states, k) == Delivered(id))
  }

  ghost function Deliveries(counts: Counts, ss: seq<Signal>, states: seq<Progress>, id: u64, n: nat): nat
    requires n < |states| == |ss| + 1
  {
    Count(DeliveryFlags(counts, ss, states, id, n))
  }

  /** Conservation: every opening is delivered once or is still open. */
  lemma {:induction false} OpeningsAreDeliveredOnce(counts: Counts, ss: seq<Signal>, states: seq<Progress>,
      id: u64, n: nat)
    requires Run(counts, ss, states) && n <= |ss|
    ensures Openings(ss, states, id, n) == Deliveries(counts, ss, states, id, n) + if id in states[n] then 1 else 0
  {
    if n > 0 {
      OpeningsAreDeliveredOnce(counts, ss, states, id, n - 1);
      StepBalance(counts, states[n - 1], ss[n - 1], id);
      assert DeliveryFlags(counts, ss, states, id, n)[..n - 1] == DeliveryFlags(counts, ss, states, id, n - 1);
    }
  }
}
