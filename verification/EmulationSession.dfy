/**
 The receiving side of a link: input from an address lazily mints an emulation handle for it, and the sender's
 Leave, or a second of silence, destroys that handle. Seen from one address this is nothing but a set of held keys.
 An address keeps its preferences when its handle goes; the next handle minted for it is given them again.
 */
module EmulationSession {
  import opened Wrappers
  import opened Bytes
  import opened Collections
  import opened EmulationState

  type Address = nat

  datatype Session = Session(
    emulator: Emulator,
    handles: map<Address, Handle>,
    nextId: Handle,
    preferences: map<Address, Processing>)

  const IDLE := Session(FRESH, map[], 0, map[])

  function Configured(s: Emulator, h: Handle, pp: Processing): Emulator {
    s.(processing := s.processing[h := pp])
  }

  function Minted(s: Session, addr: Address): Emulator {
    var created := Created(s.emulator, s.nextId);
    if addr in s.preferences then Configured(created, s.nextId, s.preferences[addr]) else created
  }

  function Admitted(s: Session, addr: Address): Session {
    if addr in s.handles then s
    else s.(emulator := Minted(s, addr), handles := s.handles[addr := s.nextId], nextId := s.nextId + 1)
  }

  /** New preferences reach the address's handle, if it has one, and are kept for those to come. */
  function Preferred(s: Session, addr: Address, pp: Processing): Session {
    s.(preferences := s.preferences[addr := pp],
    emulator := if addr in s.handles then Configured(s.emulator, s.handles[addr], pp) else s.emulator)
  }

  function Received(s: Session, e: Event, addr: Address, macos: bool): Session {
    var s' := Admitted(s, addr);
    s'.(emulator := Consumed(s'.emulator, e, s'.handles[addr], macos))
  }

  function HeldBy(s: Session, addr: Address): set<u32> {
    if addr in s.handles then KeysOf(s.emulator, s.handles[addr]) else {}
  }

  function Removed(s: Session, addr: Address, order: seq<u32>): Session
    requires Enumerates(order, HeldBy(s, addr))
  {
    if addr in s.handles then
      s.(emulator := Destroyed(s.emulator, s.handles[addr], order), handles := s.handles - {addr})
    else s
  }

  ghost predicate Valid(s: Session) {
    && Faithful(s.emulator)
    && (forall a :: a in s.handles ==> s.handles[a] < s.nextId && s.handles[a] in s.emulator.handles)
    && (forall a, b :: a in s.handles && b in s.handles && a != b ==> s.handles[a] != s.handles[b])
    && (forall h :: h in s.emulator.handles ==> h < s.nextId)
  }

  function AfterEvent(keys: set<u32>, e: Event): set<u32> {
    if e.Key? then Toggle(keys, e.code, e.state) else keys
  }

  lemma AdmittedHoldsTheSame(s: Session, addr: Address, other: Address)
    requires Valid(s)
    ensures Valid(Admitted(s, addr)) && HeldBy(Admitted(s, addr), other) == HeldBy(s, other)
  {
    CreatedStaysFaithful(s.emulator, s.nextId);
    var created := Created(s.emulator, s.nextId);
    assert forall h, k :: Down(Minted(s, addr).effects, h, k) == Some(k in KeysOf(created, h));
  }

  lemma ConsumedHolds(s: Emulator, e: Event, h: Handle, macos: bool, other: Handle)
    requires Faithful(s) && h in s.handles
    ensures KeysOf(Consumed(s, e, h, macos), other)
            == if other == h then AfterEvent(KeysOf(s, h), e) else KeysOf(s, other)
    ensures Consumed(s, e, h, macos).handles == s.handles
  {
    assert h in s.pressedKeys.Keys;
  }

  /** Input changes what its own address holds exactly as the events say, and nothing else. */
  lemma ReceivedHolds(s: Session, e: Event, addr: Address, macos: bool, other: Address)
    requires Valid(s)
    ensures Valid(Received(s, e, addr, macos))
    ensures HeldBy(Received(s, e, addr, macos), other)
            == if other == addr then AfterEvent(HeldBy(s, addr), e) else HeldBy(s, other)
  {
    AdmittedHoldsTheSame(s, addr, other);
    AdmittedHoldsTheSame(s, addr, addr);
    var s1 := Admitted(s, addr);
    ConsumedStaysFaithful(s1.emulator, e, s1.handles[addr], macos);
    ConsumedHolds(s1.emulator, e, s1.handles[addr], macos, s1.handles[addr]);
    if other in s1.handles {
      ConsumedHolds(s1.emulator, e, s1.handles[addr], macos, s1.handles[other]);
    }
  }

  lemma RemovedHolds(s: Session, addr: Address, order: seq<u32>, other: Address)
    requires Valid(s) && Enumerates(order, HeldBy(s, addr))
    ensures Valid(Removed(s, addr, order))
    ensures HeldBy(Removed(s, addr, order), other) == if other == addr then {} else HeldBy(s, other)
  {
    if addr in s.handles {
      DestroyedStaysFaithful(s.emulator, s.handles[addr], order);
    }
  }
}
