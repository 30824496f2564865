/**
 Input seen from the address it comes from: whatever handles are minted for an address and destroyed again, the backend
 gets its input in order, each event as the address's latest preferences say.
 */
module ReceivedInput {
  import opened Wrappers
  import opened Bytes
  import opened Collections
  import opened EmulationState
  import opened EmulationSession
  import I = EmulationInput

  datatype Step =
    | Receive(event: Event, addr: Address, macos: bool)
    | Remove(addr: Address, order: seq<u32>)
    | Prefer(addr: Address, pp: Processing)

  predicate Runs(s: Session, step: Step) {
    step.Remove? ==> Enumerates(step.order, HeldBy(s, step.addr))
  }

  function Next(s: Session, step: Step): Session
    requires Runs(s, step)
  {
    match step
    case Receive(e, addr, macos) => Received(s, e, addr, macos)
    case Remove(addr, order) => Removed(s, addr, order)
    case Prefer(addr, pp) => Preferred(s, addr, pp)
  }

  ghost predicate Run(steps: seq<Step>, states: seq<Session>) {
    && |states| == |steps| + 1
    && states[0] == IDLE
    && forall n {:trigger steps[n]} :: 0 <= n < |steps| ==>
        Runs(states[n], steps[n]) && states[n + 1] == Next(states[n], steps[n])
  }

  //
  // What was put in, by the steps alone
  //

  /** Something was received from the address since it was last removed. */
  predicate Present(steps: seq<Step>, a: Address, n: nat)
    requires n <= |steps|
  {
    n > 0 &&
    if steps[n - 1].Prefer? || steps[n - 1].addr != a then Present(steps, a, n - 1) else steps[n - 1].Receive?
  }

  /** The preferences the address was last given; being removed does not take them away. */
  function Given(steps: seq<Step>, a: Address, n: nat): Processing
    requires n <= |steps|
  {
    if n == 0 then Processing(false, 1.0)
    else if steps[n - 1].Prefer? && steps[n - 1].addr == a then steps[n - 1].pp
    else Given(steps, a, n - 1)
  }

  /** What one step puts in: an event other than a key, or the zero modifiers of a removal. */
  function PutIn(step: Step, a: Address, present: bool, given: Processing): seq<I.Input> {
    match step
    case Receive(e, addr, macos) =>
      if addr == a && I.Plain(e) && !I.Foreign(e, macos) then [I.Input(e, given)] else []
    case Remove(addr, _) => if addr == a && present then [I.Input(Modifiers(0, 0, 0, 0), given)] else []
    case Prefer(_, _) => []
  }

  function AllPutIn(steps: seq<Step>, a: Address, n: nat): seq<I.Input>
    requires n <= |steps|
  {
    if n == 0 then []
    else AllPutIn(steps, a, n - 1) + PutIn(steps[n - 1], a, Present(steps, a, n - 1), Given(steps, a, n - 1))
  }

  /** The handles minted for the address so far. */
  function Owned(steps: seq<Step>, states: seq<Session>, a: Address, n: nat): set<Handle>
    requires n <= |steps| < |states|
  {
    if n == 0 then {}
    else Owned(steps, states, a, n - 1)
         + OwnedNext(states[n - 1], steps[n - 1], a, Present(steps, a, n - 1))
  }

  function OwnedNext(s: Session, step: Step, a: Address, present: bool): set<Handle> {
    if step.Receive? && step.addr == a && !present then {s.nextId} else {}
  }

  //
  // One step
  //

  function LookedUp(s: Emulator, h: Handle): Processing {
    if h in s.processing then s.processing[h] else Processing(false, 1.0)
  }

  ghost predicate OnlyMinted(s: Session) {
    && (forall h :: h in s.emulator.processing ==> h < s.nextId)
    && (forall i :: 0 <= i < |s.emulator.effects| && s.emulator.effects[i].Consume? ==>
        s.emulator.effects[i].handle < s.nextId)
  }

  /** The address's handle is its own and has its preferences. */
  ghost predicate Tracks(s: Session, a: Address, owned: set<Handle>, present: bool, given: Processing) {
    && OnlyMinted(s)
    && (a in s.handles <==> present)
    && (forall b :: b in s.handles ==> (s.handles[b] in owned <==> b == a))
    && (forall h :: h in owned ==> h < s.nextId)
    && given == (if a in s.preferences then s.preferences[a] else Processing(false, 1.0))
    && (present ==> LookedUp(s.emulator, s.handles[a]) == given)
  }

  ghost predicate AddsExactly(ins: seq<I.Input>, before: seq<Event>, after: seq<Event>) {
    && |ins| <= 1 && |after| == |before| + |ins| && after[..|before|] == before
    && forall i :: 0 <= i < |ins| ==> I.ComesOutAs(ins[i], after[|before| + i])
  }

  lemma StepStaysValid(s: Session, step: Step)
    requires Valid(s) && Runs(s, step)
    ensures Valid(Next(s, step))
  {
    match step
    case Receive(e, addr, macos) => ReceivedHolds(s, e, addr, macos, addr);
    case Remove(addr, order) => RemovedHolds(s, addr, order, addr);
    case Prefer(addr, pp) =>
      var s' := Preferred(s, addr, pp);
      assert forall h, k :: Down(s'.emulator.effects, h, k) == Some(k in KeysOf(s.emulator, h));
  }

  lemma {:induction false} FreshHandleGotNothing(effects: seq<Effect>, from: set<Handle>, h: Handle)
    requires forall i :: 0 <= i < |effects| && effects[i].Consume? ==> effects[i].handle != h
    ensures I.Got(effects, from + {h}) == I.Got(effects, from)
  {
    if effects != [] {
      FreshHandleGotNothing(effects[..|effects| - 1], from, h);
    }
  }

  function OwnedOnceAdmitted(s: Session, addr: Address, a: Address, owned: set<Handle>, present: bool): set<Handle> {
    if addr == a && !present then owned + {s.nextId} else owned
  }

  lemma MintedTracks(s: Session, addr: Address, a: Address, owned: set<Handle>, present: bool, given: Processing)
    requires Valid(s) && Tracks(s, a, owned, present, given)
    ensures Tracks(Admitted(s, addr), a, OwnedOnceAdmitted(s, addr, a, owned, present), present || addr == a, given)
  {
    var s' := Admitted(s, addr);
    assert addr !in s.handles ==> s.nextId !in s.emulator.handles && s.nextId !in s.emulator.processing;
    assert a in s.handles ==> LookedUp(s'.emulator, s'.handles[a]) == LookedUp(s.emulator, s.handles[a]);
  }

  lemma MintingGetsNothing(s: Session, addr: Address, owned: set<Handle>)
    requires Valid(s) && OnlyMinted(s)
    ensures I.Got(Admitted(s, addr).emulator.effects, owned) == I.Got(s.emulator.effects, owned)
    ensures addr !in s.handles ==>
              I.Got(Admitted(s, addr).emulator.effects, owned + {s.nextId}) == I.Got(s.emulator.effects, owned)
  {
    if addr !in s.handles {
      assert s.nextId !in s.emulator.handles;
      FreshHandleGotNothing(s.emulator.effects, owned, s.nextId);
      I.GotAppended(s.emulator.effects, Create(s.nextId), owned);
      I.GotAppended(s.emulator.effects, Create(s.nextId), owned + {s.nextId});
    }
  }

  lemma ConsumedTracks(s: Session, e: Event, addr: Address, macos: bool, a: Address, owned: set<Handle>, present: bool,
      given: Processing)
    requires Valid(s) && Tracks(s, a, owned, present, given) && addr in s.handles
    ensures var s' := s.(emulator := Consumed(s.emulator, e, s.handles[addr], macos));
            && Tracks(s', a, owned, present, given)
            && AddsExactly(PutIn(Receive(e, addr, macos), a, present, given),
                           I.Got(s.emulator.effects, owned), I.Got(s'.emulator.effects, owned))
  {
    I.FedComesOut(s.emulator, e, s.handles[addr], macos, owned, LookedUp(s.emulator, s.handles[addr]));
  }

  /** The address is admitted, then its event consumed. */
  lemma ReceivedTracks(s: Session, e: Event, addr: Address, macos: bool, a: Address, owned: set<Handle>,
      owned': set<Handle>, present: bool, given: Processing)
    requires Valid(s) && Tracks(s, a, owned, present, given)
    requires owned' == OwnedOnceAdmitted(s, addr, a, owned, present)
    ensures Tracks(Received(s, e, addr, macos), a, owned', present || addr == a, given)
    ensures AddsExactly(PutIn(Receive(e, addr, macos), a, present, given), I.Got(s.emulator.effects, owned),
                        I.Got(Received(s, e, addr, macos).emulator.effects, owned'))
  {
    var s1 := Admitted(s, addr);
    AdmittedHoldsTheSame(s, addr, addr);
    MintedTracks(s, addr, a, owned, present, given);
    assert I.Got(s1.emulator.effects, owned') == I.Got(s.emulator.effects, owned) by {
      MintingGetsNothing(s, addr, owned);
    }
    ConsumedTracks(s1, e, addr, macos, a, owned', present || addr == a, given);
  }

  lemma RemovedTracks(s: Session, step: Step, a: Address, owned: set<Handle>, present: bool, given: Processing)
    requires step.Remove? && Runs(s, step) && Valid(s) && Tracks(s, a, owned, present, given)
    ensures Tracks(Next(s, step), a, owned, present && step.addr != a, given)
    ensures AddsExactly(PutIn(step, a, present, given),
                        I.Got(s.emulator.effects, owned), I.Got(Next(s, step).emulator.effects, owned))
  {
    if step.addr in s.handles {
      I.CloseComesOut(s.emulator, s.handles[step.addr], step.order, owned);
      ClosedStaysMinted(s, s.handles[step.addr], step.order);
    }
  }

  lemma ClosedStaysMinted(s: Session, h: Handle, order: seq<u32>)
    requires OnlyMinted(s) && h < s.nextId && Enumerates(order, KeysOf(s.emulator, h))
    ensures OnlyMinted(s.(emulator := Destroyed(s.emulator, h, order)))
  {
  }

  lemma StepTracks(s: Session, step: Step, a: Address, owned: set<Handle>, present: bool, given: Processing)
    requires Runs(s, step) && Valid(s) && Tracks(s, a, owned, present, given)
    ensures var (s', owned') := (Next(s, step), owned + OwnedNext(s, step, a, present));
            && Tracks(s', a, owned', if step.Prefer? || step.addr != a then present else step.Receive?,
                      if step.Prefer? && step.addr == a then step.pp else given)
            && AddsExactly(PutIn(step, a, present, given),
                           I.Got(s.emulator.effects, owned), I.Got(s'.emulator.effects, owned'))
  {
    assert owned + {} == owned;
    match step
    case Receive(e, addr, macos) =>
      ReceivedTracks(s, e, addr, macos, a, owned, OwnedOnceAdmitted(s, addr, a, owned, present), present, given);
    case Remove(_, _) => RemovedTracks(s, step, a, owned, present, given);
    case Prefer(addr, pp) => PreferredTracks(s, addr, pp, a, owned, present, given);
  }

  lemma PreferredTracks(s: Session, addr: Address, pp: Processing, a: Address, owned: set<Handle>, present: bool,
      given: Processing)
    requires Valid(s) && Tracks(s, a, owned, present, given)
    ensures Tracks(Preferred(s, addr, pp), a, owned, present, if addr == a then pp else given)
  {
  }

  //
  // Whole runs
  //

  ghost predicate Arrives(steps: seq<Step>, states: seq<Session>, a: Address, n: nat)
    requires n <= |steps| < |states|
  {
    var owned := Owned(steps, states, a, n);
    && Valid(states[n]) && Tracks(states[n], a, owned, Present(steps, a, n), Given(steps, a, n))
    && I.AllComeOut(AllPutIn(steps, a, n), I.Got(states[n].emulator.effects, owned))
  }

  /**
   What the backend gets for an address, over all the handles it ever had, is the input received from it, in order,
   nothing lost and nothing added, changed only as its latest preferences say.
   */
  lemma AddressGetsItsInput(steps: seq<Step>, states: seq<Session>, a: Address, n: nat)
    requires Run(steps, states) && n <= |steps|
    ensures Arrives(steps, states, a, n)
  {
    assert FRESH.pressedKeys.Keys == {};
    for i := 0 to n
      invariant Arrives(steps, states, a, i)
    {
      NextArrives(steps, states, a, i);
    }
  }

  lemma NextArrives(steps: seq<Step>, states: seq<Session>, a: Address, n: nat)
    requires Run(steps, states) && n < |steps| && Arrives(steps, states, a, n)
    ensures Arrives(steps, states, a, n + 1)
  {
    assert Runs(states[n], steps[n]) && states[n + 1] == Next(states[n], steps[n]);
    var owned := Owned(steps, states, a, n);
    StepStaysValid(states[n], steps[n]);
    StepTracks(states[n], steps[n], a, owned, Present(steps, a, n), Given(steps, a, n));
    MoreComeOut(AllPutIn(steps, a, n), PutIn(steps[n], a, Present(steps, a, n), Given(steps, a, n)),
                I.Got(states[n].emulator.effects, owned),
                I.Got(states[n + 1].emulator.effects, Owned(steps, states, a, n + 1)));
  }

  lemma MoreComeOut(ins: seq<I.Input>, more: seq<I.Input>, before: seq<Event>, after: seq<Event>)
    requires I.AllComeOut(ins, before) && AddsExactly(more, before, after)
    ensures I.AllComeOut(ins + more, after)
  {
    forall k | 0 <= k < |ins + more|
      ensures I.ComesOutAs((ins + more)[k], after[k])
    {
      if k < |before| {
        assert after[k] == after[..|before|][k];
      } else {
        assert after[k] == after[|before| + (k - |before|)];
      }
    }
  }

  /**
   With the preferences fixed from the first input on, the motion the backend gets for the address is the sensitivity
   times the motion received, and the scroll is the scroll received, turned round exactly if natural scroll is on.
   */
  lemma AddressTotalsAreScaled(steps: seq<Step>, states: seq<Session>, a: Address, n: nat, pp: Processing,
      ins: seq<I.Input>)
    requires Run(steps, states) && n <= |steps| && ins == AllPutIn(steps, a, n)
    requires forall i :: 0 <= i < |ins| ==> ins[i].pp == pp
    ensures I.ScaledBy(I.TotalOf(I.EventsOf(ins)),
                       I.TotalOf(I.Got(states[n].emulator.effects, Owned(steps, states, a, n))), pp)
  {
    AddressGetsItsInput(steps, states, a, n);
    I.TotalsComeOut(ins, I.Got(states[n].emulator.effects, Owned(steps, states, a, n)), pp);
  }
}
