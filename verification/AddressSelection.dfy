/**
 One client's candidate addresses: how the candidate set is folded together from its three sources, what is kept
 about each address, and which address `Fastest` mode recommends switching to. Addresses are numbers in the order
 in which they are compared.
 */
module AddressSelection {
  import opened Wrappers
  import opened Bytes
  import opened Collections

  type Ip = nat

  type IfaceKind = byte

  datatype Addr = Addr(ip: Ip, port: u16)

  datatype Config = Config(hostname: Option<string>, fixIps: seq<Ip>, port: u16)

  datatype State = State(
    active: bool,
    activeAddr: Option<Addr>,
    ips: set<Ip>,
    dnsIps: seq<Ip>,
    discoveredIps: seq<Ip>,
    latencies: map<Ip, Option<u32>>,
    interfaces: map<Ip, IfaceKind>)

  datatype Client = Client(config: Config, state: State)

  const DEFAULT_PORT: u16 := 4252

  const BLANK := Client(Config(None, [], DEFAULT_PORT), State(false, None, {}, [], [], map[], map[]))

  function Elements(s: seq<Ip>): set<Ip> {
    set i | 0 <= i < |s| :: s[i]
  }

  //
  // Setters
  //

  function Candidates(c: Client): set<Ip> {
    Elements(c.config.fixIps) + Elements(c.state.dnsIps) + Elements(c.state.discoveredIps)
  }

  /** Refolds the candidate set and forgets what is known about addresses no longer in it. */
  function Refolded(c: Client): Client {
    var ips := Candidates(c);
    c.(state := c.state.(ips := ips,
    latencies := map ip | ip in c.state.latencies && ip in ips :: c.state.latencies[ip],
    interfaces := map ip | ip in c.state.interfaces && ip in ips :: c.state.interfaces[ip]))
  }

  datatype Op =
    | SetFixIps(ips: seq<Ip>)
    | SetDnsIps(ips: seq<Ip>)
    | SetDiscoveredIps(ips: seq<Ip>)
    | SetHostname(hostname: Option<string>)
    | SetPort(port: u16)
    | SetActiveAddr(addr: Option<Addr>)
    | SetInterfaces(kinds: map<Ip, IfaceKind>)
    | SetLatency(ip: Ip, rtt: Option<u32>)
    | SetActive(active: bool)

  function After(c: Client, op: Op): Client {
    var s := c.state;
    match op
    case SetFixIps(ips) => Refolded(c.(config := c.config.(fixIps := ips)))
    case SetDnsIps(ips) => Refolded(c.(state := s.(dnsIps := ips)))
    case SetDiscoveredIps(ips) => if s.discoveredIps != ips then Refolded(c.(state := s.(discoveredIps := ips))) else c
    case SetHostname(hostname) =>
      if c.config.hostname != hostname then
        Refolded(Client(c.config.(hostname := hostname), s.(activeAddr := None, dnsIps := [])))
      else c
    case SetPort(port) =>
      if c.config.port != port then
        Client(c.config.(port := port),
               s.(activeAddr := if s.activeAddr.Some? then Some(Addr(s.activeAddr.value.ip, port)) else None))
      else c
    case SetActiveAddr(addr) => c.(state := s.(activeAddr := addr))
    case SetInterfaces(kinds) => c.(state := s.(interfaces := map ip | ip in kinds && ip in s.ips :: kinds[ip]))
    case SetLatency(ip, rtt) => if ip in s.ips then c.(state := s.(latencies := s.latencies[ip := rtt])) else c
    case SetActive(active) => c.(state := s.(active := active))
  }

  /** The candidates are exactly the union of the three sources, and nothing is remembered about any other address. */
  ghost predicate Folded(c: Client) {
    c.state.ips == Candidates(c) && c.state.latencies.Keys <= c.state.ips && c.state.interfaces.Keys <= c.state.ips
  }

  ghost predicate Run(ops: seq<Op>, states: seq<Client>) {
    && |states| == |ops| + 1
    && Folded(states[0])
    && forall n {:trigger ops[n]} :: 0 <= n < |ops| ==> states[n + 1] == After(states[n], ops[n])
  }

  lemma StaysFolded(c: Client, op: Op)
    requires Folded(c)
    ensures Folded(After(c, op))
  {
    match op
    case SetLatency(ip, rtt) =>
      assert ip in c.state.ips ==> c.state.latencies[ip := rtt].Keys == c.state.latencies.Keys + {ip};
    case _ =>
  }

  /** Kept for the addresses that are still candidates, and for no others. */
  ghost predicate KeptFor<T>(ips: set<Ip>, before: map<Ip, T>, after: map<Ip, T>) {
    forall ip: Ip ::
      && (ip in after <==> ip in before && ip in ips)
      && (ip in after ==> after[ip] == before[ip])
  }

  /** What a setter stores, field by field; it leaves every field not named as it was. */
  ghost predicate Stores(c: Client, op: Op, c': Client) {
    var (s, s') := (c.state, c'.state);
    && c'.config.fixIps == (if op.SetFixIps? then op.ips else c.config.fixIps)
    && c'.config.hostname == (if op.SetHostname? then op.hostname else c.config.hostname)
    && c'.config.port == (if op.SetPort? then op.port else c.config.port)
    && s'.active == (if op.SetActive? then op.active else s.active)
    && s'.discoveredIps == (if op.SetDiscoveredIps? then op.ips else s.discoveredIps)
    && s'.dnsIps == (if op.SetDnsIps? then op.ips
                     else if op.SetHostname? && op.hostname != c.config.hostname then [] else s.dnsIps)
    && (match op
        case SetActiveAddr(addr) => s'.activeAddr == addr
        case SetHostname(hostname) => s'.activeAddr == if hostname == c.config.hostname then s.activeAddr else None
        case SetPort(port) =>
          if port == c.config.port || s.activeAddr.None? then s'.activeAddr == s.activeAddr
          else s'.activeAddr == Some(Addr(s.activeAddr.value.ip, port))
        case _ => s'.activeAddr == s.activeAddr)
    && (forall ip: Ip ::
          ip in s'.ips <==> ip in c'.config.fixIps || ip in s'.dnsIps || ip in s'.discoveredIps)
    && (match op
        case SetLatency(ip, rtt) => s'.latencies == if ip in s.ips then s.latencies[ip := rtt] else s.latencies
        case _ => KeptFor(s'.ips, s.latencies, s'.latencies))
    && (match op
        case SetInterfaces(kinds) => KeptFor(s'.ips, kinds, s'.interfaces)
        case _ => KeptFor(s'.ips, s.interfaces, s'.interfaces))
  }

  lemma SettersStore(c: Client, op: Op)
    requires Folded(c)
    ensures Stores(c, op, After(c, op))
  {
    StaysFolded(c, op);
    var c' := After(c, op);
    forall ip: Ip
      ensures ip in c'.state.ips <==> ip in c'.config.fixIps || ip in c'.state.dnsIps || ip in c'.state.discoveredIps
    {
      InElements(c'.config.fixIps, ip);
      InElements(c'.state.dnsIps, ip);
      InElements(c'.state.discoveredIps, ip);
    }
  }

  lemma InElements(s: seq<Ip>, ip: Ip)
    ensures ip in Elements(s) <==> ip in s
  {
  }

  /** Over any setters: each stores what it was given, and the rest stays. */
  lemma EverySetterStores(ops: seq<Op>, states: seq<Client>, n: nat)
    requires Run(ops, states) && n < |ops|
    ensures Stores(states[n], ops[n], states[n + 1])
  {
    RunStaysFolded(ops, states, n);
    SettersStore(states[n], ops[n]);
  }

  lemma {:induction false} RunStaysFolded(ops: seq<Op>, states: seq<Client>, n: nat)
    requires Run(ops, states) && n <= |ops|
    ensures Folded(states[n])
  {
    if n > 0 {
      RunStaysFolded(ops, states, n - 1);
      StaysFolded(states[n - 1], ops[n - 1]);
    }
  }

  //
  // Selection
  //

  type Latencies = map<Ip, Option<u32>>

  predicate Measured(l: Latencies, ip: Ip) {
    ip in l && l[ip].Some?
  }

  /** Reachable and, by round trip and then by address, before every other reachable one. */
  predicate Best(l: Latencies, ip: Ip) {
    Measured(l, ip) && forall other: Ip :: other in l && Measured(l, other) ==>
      l[ip].value < l[other].value || (l[ip].value == l[other].value && ip <= other)
  }

  lemma {:induction false} SomethingIsBest(l: Latencies, ips: set<Ip>) returns (best: Ip)
    requires ips != {} && forall ip: Ip :: ip in ips ==> Measured(l, ip)
    ensures best in ips && Measured(l, best)
    ensures forall other: Ip :: other in ips ==>
              && Measured(l, other)
              && (l[best].value < l[other].value || (l[best].value == l[other].value && best <= other))
    decreases |ips|
  {
    best :| best in ips;
    assert Measured(l, best);
    if ips != {best} {
      assert |ips - {best}| < |ips|;
      var rest := SomethingIsBest(l, ips - {best});
      if l[rest].value < l[best].value || (l[rest].value == l[best].value && rest <= best) {
        best := rest;
      }
    }
  }

  lemma BestExists(l: Latencies)
    requires exists ip: Ip :: ip in l && Measured(l, ip)
    ensures exists ip: Ip :: ip in l && Best(l, ip)
  {
    var ips := set ip: Ip | ip in l && Measured(l, ip);
    var some: Ip :| some in l && Measured(l, some);
    assert some in ips;
    var best := SomethingIsBest(l, ips);
    assert Best(l, best);
  }

  /** The reachable address with the lowest round trip, the smaller address on a tie. */
  function LowestLatencyAddr(l: Latencies): (r: Option<Ip>)
    ensures r.Some? ==> Best(l, r.value)
    ensures r.None? ==> forall ip: Ip :: ip in l ==> !Measured(l, ip)
  {
    if exists ip: Ip :: ip in l && Measured(l, ip) then
      BestExists(l);
      var best :| best in l && Best(l, best);
      Some(best)
    else None
  }

  const U32_MAX: u32 := 0xffff_ffff
  const MIN_ABSOLUTE_GAIN_US: u32 := 15_000

  function SaturatingDouble(us: u32): u32 {
    if 2 * us > U32_MAX then U32_MAX else 2 * us
  }

  function SaturatingSub(a: u32, b: u32): u32 {
    if a < b then 0 else a - b
  }

  function FastestUpgradeCandidate(s: State): Option<Ip> {
    if s.activeAddr.None? || !Measured(s.latencies, s.activeAddr.value.ip) then None else
    var active := s.activeAddr.value.ip;
    var best := LowestLatencyAddr(s.latencies);
    if best.None? then None else
    var activeUs, bestUs := s.latencies[active].value, s.latencies[best.value].value;
    if best.value != active && SaturatingDouble(bestUs) < activeUs
        && SaturatingSub(activeUs, bestUs) >= MIN_ABSOLUTE_GAIN_US
    then best else None
  }

  /** Twice as fast and 15 ms better, in exact arithmetic. */
  predicate SubstantiallyFaster(us: u32, activeUs: u32) {
    2 * us < activeUs && us + 15_000 <= activeUs
  }

  /**
   An upgrade is recommended exactly when some reachable candidate is substantially faster than the measured
   active path, saturating arithmetic notwithstanding; it is then the best candidate of all.
   */
  lemma UpgradeExactly(c: Client)
    requires Folded(c)
    ensures var s := c.state; var r := FastestUpgradeCandidate(s);
            && (r.Some? <==>
                && s.activeAddr.Some? && Measured(s.latencies, s.activeAddr.value.ip)
                && exists ip: Ip :: ip in s.latencies && Measured(s.latencies, ip)
                     && SubstantiallyFaster(s.latencies[ip].value, s.latencies[s.activeAddr.value.ip].value))
            && (r.Some? ==> r.value in s.ips && r.value != s.activeAddr.value.ip && Best(s.latencies, r.value)
                            && SubstantiallyFaster(s.latencies[r.value].value,
                                                   s.latencies[s.activeAddr.value.ip].value))
  {
    var s := c.state;
    if s.activeAddr.Some? && Measured(s.latencies, s.activeAddr.value.ip) {
      var best := LowestLatencyAddr(s.latencies).value;
      assert best in s.latencies.Keys;
      var activeUs := s.latencies[s.activeAddr.value.ip].value;
      if ip: Ip :| ip in s.latencies && Measured(s.latencies, ip)
                   && SubstantiallyFaster(s.latencies[ip].value, activeUs) {
        assert s.latencies[best].value <= s.latencies[ip].value;
      }
    }
  }

  //
  // Switching does not flap
  //

  /** A step of a client that follows its recommendations: a setter, or a switch to the recommended address. */
  datatype Move = Set(op: Op) | Upgrade

  function Moved(c: Client, m: Move): Client {
    match m
    case Set(op) => After(c, op)
    case Upgrade =>
      var target := FastestUpgradeCandidate(c.state);
      if target.None? then c else After(c, SetActiveAddr(Some(Addr(target.value, c.config.port))))
  }

  predicate Upgrades(c: Client, m: Move) {
    m.Upgrade? && FastestUpgradeCandidate(c.state).Some?
  }

  /** A recorded round trip is within `d` of the address's true one. */
  predicate Near(us: u32, rtt: int, d: nat) {
    rtt - d <= us <= rtt + d
  }

  ghost predicate AllNear(l: Latencies, rtt: Ip -> int, d: nat) {
    forall ip: Ip :: ip in l && Measured(l, ip) ==> Near(l[ip].value, rtt(ip), d)
  }

  /** Measurements stay near the truth, and only upgrades choose the active address. */
  ghost predicate Steady(m: Move, rtt: Ip -> int, d: nat) {
    m.Set? ==>
      && (m.op.SetLatency? && m.op.rtt.Some? ==> Near(m.op.rtt.value, rtt(m.op.ip), d))
      && !m.op.SetActiveAddr? && !m.op.SetHostname?
  }

  ghost predicate SteadyRun(moves: seq<Move>, states: seq<Client>, rtt: Ip -> int, d: nat) {
    && |states| == |moves| + 1
    && Folded(states[0]) && AllNear(states[0].state.latencies, rtt, d) && states[0].state.activeAddr.Some?
    && forall n {:trigger moves[n]} :: 0 <= n < |moves| ==>
        Steady(moves[n], rtt, d) && states[n + 1] == Moved(states[n], moves[n])
  }

  lemma SetStaysNear(c: Client, op: Op, rtt: Ip -> int, d: nat)
    requires AllNear(c.state.latencies, rtt, d) && Steady(Set(op), rtt, d)
    ensures AllNear(After(c, op).state.latencies, rtt, d)
  {
    var l, l' := c.state.latencies, After(c, op).state.latencies;
    forall ip: Ip | ip in l' && Measured(l', ip)
      ensures Near(l'[ip].value, rtt(ip), d)
    {
      if !(op.SetLatency? && op.ip == ip) {
        assert Measured(l, ip);
      }
    }
  }

  lemma SetKeepsActive(c: Client, op: Op)
    requires !op.SetActiveAddr? && !op.SetHostname? && c.state.activeAddr.Some?
    ensures var addr := After(c, op).state.activeAddr; addr.Some? && addr.value.ip == c.state.activeAddr.value.ip
  {
  }

  lemma MoveStaysSteady(c: Client, m: Move, rtt: Ip -> int, d: nat)
    requires Folded(c) && AllNear(c.state.latencies, rtt, d) && c.state.activeAddr.Some? && Steady(m, rtt, d)
    ensures var c' := Moved(c, m);
            && Folded(c') && AllNear(c'.state.latencies, rtt, d) && c'.state.activeAddr.Some?
            && (!Upgrades(c, m) ==> c'.state.activeAddr.value.ip == c.state.activeAddr.value.ip)
  {
    if m.Set? {
      StaysFolded(c, m.op);
      SetStaysNear(c, m.op, rtt, d);
      SetKeepsActive(c, m.op);
    }
  }

  lemma {:induction false} SteadyRunStays(moves: seq<Move>, states: seq<Client>, rtt: Ip -> int, d: nat, n: nat)
    requires SteadyRun(moves, states, rtt, d) && n <= |moves|
    ensures Folded(states[n]) && AllNear(states[n].state.latencies, rtt, d) && states[n].state.activeAddr.Some?
  {
    if n > 0 {
      SteadyRunStays(moves, states, rtt, d, n - 1);
      assert Steady(moves[n - 1], rtt, d);
      MoveStaysSteady(states[n - 1], moves[n - 1], rtt, d);
    }
  }

  /** With an error below half the required gain, a switch goes to an address that is truly faster. */
  lemma UpgradeIsTrulyFaster(c: Client, rtt: Ip -> int, d: nat)
    requires Folded(c) && AllNear(c.state.latencies, rtt, d) && 2 * d < MIN_ABSOLUTE_GAIN_US
    requires FastestUpgradeCandidate(c.state).Some?
    ensures rtt(FastestUpgradeCandidate(c.state).value) < rtt(c.state.activeAddr.value.ip)
  {
    UpgradeExactly(c);
    var l, best, active := c.state.latencies, FastestUpgradeCandidate(c.state).value, c.state.activeAddr.value.ip;
    assert Measured(l, best) && Measured(l, active);
    assert Near(l[best].value, rtt(best), d) && Near(l[active].value, rtt(active), d);
  }

  lemma {:induction false} StepGoesDown(moves: seq<Move>, states: seq<Client>, rtt: Ip -> int, d: nat, n: nat)
    requires SteadyRun(moves, states, rtt, d) && n < |moves| && 2 * d < MIN_ABSOLUTE_GAIN_US
    ensures states[n].state.activeAddr.Some? && states[n + 1].state.activeAddr.Some?
    ensures var before, now := states[n].state.activeAddr.value.ip, states[n + 1].state.activeAddr.value.ip;
            if Upgrades(states[n], moves[n]) then rtt(now) < rtt(before) else now == before
  {
    SteadyRunStays(moves, states, rtt, d, n);
    assert Steady(moves[n], rtt, d);
    MoveStaysSteady(states[n], moves[n], rtt, d);
    if Upgrades(states[n], moves[n]) {
      UpgradeIsTrulyFaster(states[n], rtt, d);
    }
  }

  function ActiveIps(states: seq<Client>): (ips: seq<Ip>)
    requires forall i :: 0 <= i < |states| ==> states[i].state.activeAddr.Some?
    ensures |ips| == |states| && forall i :: 0 <= i < |ips| ==> ips[i] == states[i].state.activeAddr.value.ip
  {
    seq(|states|, i requires 0 <= i < |states| => states[i].state.activeAddr.value.ip)
  }

  function Switches(moves: seq<Move>, states: seq<Client>): (ups: seq<bool>)
    requires |moves| <= |states|
    ensures |ups| == |moves| && forall i :: 0 <= i < |ups| ==> ups[i] == Upgrades(states[i], moves[i])
  {
    seq(|moves|, i requires 0 <= i < |moves| => Upgrades(states[i], moves[i]))
  }

  /** The active address changes only at switches, and then to one with a lower true round trip. */
  ghost predicate Descends(ips: seq<Ip>, ups: seq<bool>, rtt: Ip -> int) {
    && |ips| == |ups| + 1
    && forall n {:trigger ups[n]} :: 0 <= n < |ups| ==>
       if ups[n] then rtt(ips[n + 1]) < rtt(ips[n]) else ips[n + 1] == ips[n]
  }

  lemma SteadyRunDescends(moves: seq<Move>, states: seq<Client>, rtt: Ip -> int, d: nat)
    requires SteadyRun(moves, states, rtt, d) && 2 * d < MIN_ABSOLUTE_GAIN_US
    ensures forall i :: 0 <= i < |states| ==> states[i].state.activeAddr.Some?
    ensures Descends(ActiveIps(states), Switches(moves, states), rtt)
  {
    forall i | 0 <= i < |states| ensures states[i].state.activeAddr.Some? {
      SteadyRunStays(moves, states, rtt, d, i);
    }
    forall n | 0 <= n < |moves|
      ensures var before, now := states[n].state.activeAddr.value.ip, states[n + 1].state.activeAddr.value.ip;
              if Upgrades(states[n], moves[n]) then rtt(now) < rtt(before) else now == before
    {
      StepGoesDown(moves, states, rtt, d, n);
    }
  }

  lemma {:induction false} DescentIsMonotone(ips: seq<Ip>, ups: seq<bool>, rtt: Ip -> int, i: nat, n: nat)
    requires Descends(ips, ups, rtt) && i <= n <= |ups|
    ensures rtt(ips[n]) <= rtt(ips[i])
  {
    if i < n {
      DescentIsMonotone(ips, ups, rtt, i, n - 1);
      assert ups[n - 1] || !ups[n - 1];
    }
  }

  /** Each switch adds an address that was never active before. */
  lemma {:induction false} SwitchesCountAddresses(ips: seq<Ip>, ups: seq<bool>, rtt: Ip -> int)
    requires Descends(ips, ups, rtt)
    ensures |Elements(ips)| == Count(ups) + 1
  {
    if ups == [] {
      assert Elements(ips) == {ips[0]};
    } else {
      var n := |ups| - 1;
      var ips', ups' := ips[..n + 1], ups[..n];
      assert Descends(ips', ups', rtt) by {
        assert forall i :: 0 <= i < n ==> ups'[i] == ups[i];
      }
      SwitchesCountAddresses(ips', ups', rtt);
      assert ups[n] || !ups[n];
      LastElement(ips);
      if ups[n] {
        forall i | 0 <= i <= n ensures ips[i] != ips[n + 1] {
          DescentIsMonotone(ips, ups, rtt, i, n);
        }
      } else {
        assert ips'[n] in Elements(ips');
        assert Elements(ips) == Elements(ips');
      }
    }
  }

  lemma LastElement(s: seq<Ip>)
    requires s != []
    ensures Elements(s) == Elements(s[..|s| - 1]) + {s[|s| - 1]}
  {
    var s' := s[..|s| - 1];
    forall x | x in Elements(s)
      ensures x in Elements(s') + {s[|s| - 1]}
    {
      var i :| 0 <= i < |s| && s[i] == x;
      if i < |s'| { assert s'[i] == x; }
    }
    forall x | x in Elements(s')
      ensures x in Elements(s)
    {
      var i :| 0 <= i < |s'| && s'[i] == x;
      assert s[i] == x;
    }
  }

  /** No switch returns to an address that was active before. */
  lemma NoAddressIsRevisited(moves: seq<Move>, states: seq<Client>, rtt: Ip -> int, d: nat, i: nat, n: nat)
    requires SteadyRun(moves, states, rtt, d) && i <= n < |moves| && 2 * d < MIN_ABSOLUTE_GAIN_US
    requires Upgrades(states[n], moves[n])
    ensures states[i].state.activeAddr.Some? && states[n + 1].state.activeAddr.Some?
    ensures states[n + 1].state.activeAddr.value.ip != states[i].state.activeAddr.value.ip
  {
    SteadyRunDescends(moves, states, rtt, d);
    DescentIsMonotone(ActiveIps(states), Switches(moves, states), rtt, i, n);
    assert Switches(moves, states)[n];
  }

  /** A run whose addresses come from a set of `k` switches at most `k - 1` times. */
  lemma SwitchesAreBounded(moves: seq<Move>, states: seq<Client>, rtt: Ip -> int, d: nat, addresses: set<Ip>)
    requires SteadyRun(moves, states, rtt, d) && 2 * d < MIN_ABSOLUTE_GAIN_US
    requires states[0].state.activeAddr.value.ip in addresses
    requires forall i :: 0 <= i <= |moves| ==> states[i].state.ips <= addresses
    ensures Count(Switches(moves, states)) <= |addresses| - 1
  {
    SteadyRunDescends(moves, states, rtt, d);
    SwitchesCountAddresses(ActiveIps(states), Switches(moves, states), rtt);
    forall i | 0 <= i < |states| ensures states[i].state.activeAddr.value.ip in addresses {
      ActiveIsKnown(moves, states, rtt, d, addresses, i);
    }
    assert Elements(ActiveIps(states)) <= addresses;
    SubsetSize(Elements(ActiveIps(states)), addresses);
  }

  lemma {:induction false} ActiveIsKnown(moves: seq<Move>, states: seq<Client>, rtt: Ip -> int, d: nat,
      addresses: set<Ip>, n: nat)
    requires SteadyRun(moves, states, rtt, d) && n <= |moves|
    requires states[0].state.activeAddr.value.ip in addresses
    requires forall i :: 0 <= i <= |moves| ==> states[i].state.ips <= addresses
    ensures states[n].state.activeAddr.Some? && states[n].state.activeAddr.value.ip in addresses
  {
    if n > 0 {
      ActiveIsKnown(moves, states, rtt, d, addresses, n - 1);
      SteadyRunStays(moves, states, rtt, d, n - 1);
      assert Steady(moves[n - 1], rtt, d);
      MoveStaysSteady(states[n - 1], moves[n - 1], rtt, d);
      if Upgrades(states[n - 1], moves[n - 1]) {
        UpgradeExactly(states[n - 1]);
      }
    }
  }

  const LOW: Option<u32> := Some(500)
  const HIGH: Option<u32> := Some(15500)

  function TwoPaths(active: Ip, rtt10: Option<u32>, rtt20: Option<u32>): Client {
    Client(Config(None, [10, 20], DEFAULT_PORT),
           State(true, Some(Addr(active, DEFAULT_PORT)), {10, 20}, [], [], map[10 := rtt10, 20 := rtt20], map[]))
  }

  /** Each switch is followed by two fresh measurements that make the address just left look better again. */
  function FlapMove(n: nat): Move {
    match n
    case 0 => Upgrade
    case 1 => Set(SetLatency(10, LOW))
    case 2 => Set(SetLatency(20, HIGH))
    case 3 => Upgrade
    case 4 => Set(SetLatency(20, LOW))
    case _ => Set(SetLatency(10, HIGH))
  }

  function FlapState(n: nat): Client {
    match n
    case 1 => TwoPaths(20, HIGH, LOW)
    case 2 => TwoPaths(20, LOW, LOW)
    case 3 => TwoPaths(20, LOW, HIGH)
    case 4 => TwoPaths(10, LOW, HIGH)
    case 5 => TwoPaths(10, LOW, LOW)
    case _ => TwoPaths(10, HIGH, LOW)
  }

  lemma SwitchesTo(c: Client, from: Ip, to: Ip)
    requires from != to && c.state.latencies.Keys == {from, to}
    requires c.state.latencies[from] == HIGH && c.state.latencies[to] == LOW
    requires c.state.activeAddr == Some(Addr(from, c.config.port))
    ensures FastestUpgradeCandidate(c.state) == Some(to)
  {
    assert Measured(c.state.latencies, to);
  }

  lemma FlapStep(n: nat)
    requires n < 6
    ensures Moved(FlapState(n), FlapMove(n)) == FlapState(n + 1)
    ensures Upgrades(FlapState(n), FlapMove(n)) <==> n == 0 || n == 3
  {
    if n == 0 {
      SwitchesTo(FlapState(n), 10, 20);
    } else if n == 3 {
      SwitchesTo(FlapState(n), 20, 10);
    } else {
      assert Moved(FlapState(n), FlapMove(n)).state.latencies == FlapState(n + 1).state.latencies;
    }
  }

  lemma CountOfSix()
    ensures Count([true, false, false, true, false, false]) == 2
  {
    var ups := [true, false, false, true, false, false];
    assert ups[..5] == [true, false, false, true, false] && ups[..5][..4] == [true, false, false, true];
    assert [true, false, false, true][..3] == [true, false, false] && [true, false, false][..2] == [true, false];
    assert [true, false][..1] == [true] && [true][..0] == [];
    assert Count([true, false]) == 1;
    assert Count([true, false, false, true]) == 2;
  }

  lemma FlapIsSteady(d: nat)
    requires 2 * d >= MIN_ABSOLUTE_GAIN_US
    ensures Folded(FlapState(0)) && AllNear(FlapState(0).state.latencies, ip => 8000, d)
    ensures forall n: nat {:trigger FlapMove(n)} :: n < 6 ==> Steady(FlapMove(n), ip => 8000, d)
  {
    assert [10, 20][0] == 10 && [10, 20][1] == 20;
  }

  /** Once twice the error reaches the required gain, two equally fast addresses can be switched between forever. */
  lemma LargerErrorsFlap(d: nat) returns (moves: seq<Move>, states: seq<Client>)
    requires 2 * d >= MIN_ABSOLUTE_GAIN_US
    ensures SteadyRun(moves, states, ip => 8000, d)
    ensures states[|moves|] == states[0] && Count(Switches(moves, states)) == 2
    ensures Revisits(moves, states, 0, 3)
  {
    moves, states := seq(6, n requires 0 <= n < 6 => FlapMove(n)), seq(7, n requires 0 <= n < 7 => FlapState(n));
    forall n | 0 <= n < 6
      ensures states[n + 1] == Moved(states[n], moves[n])
      ensures Switches(moves, states)[n] <==> n == 0 || n == 3
    {
      FlapStep(n);
    }
    FlapIsSteady(d);
    assert Switches(moves, states) == [true, false, false, true, false, false];
    CountOfSix();
  }

  /** The switch at step `n` goes back to the address that was active in state `i`. */
  predicate Revisits(moves: seq<Move>, states: seq<Client>, i: nat, n: nat) {
    && i <= n < |moves| < |states| && Upgrades(states[n], moves[n])
    && states[i].state.activeAddr.Some? && states[n + 1].state.activeAddr.Some?
    && states[n + 1].state.activeAddr.value.ip == states[i].state.activeAddr.value.ip
  }

  ghost predicate CanFlap(d: nat) {
    exists moves, states, rtt: Ip -> int, i: nat, n: nat ::
      SteadyRun(moves, states, rtt, d) && Revisits(moves, states, i, n)
  }

  /** Selection can return to an address it left if and only if twice the error reaches the required gain. */
  lemma FlapsExactly(d: nat)
    ensures CanFlap(d) <==> 2 * d >= 15_000
  {
    if 2 * d >= MIN_ABSOLUTE_GAIN_US {
      var moves, states := LargerErrorsFlap(d);
    } else if CanFlap(d) {
      var moves, states, rtt: Ip -> int, i: nat, n: nat :|
        SteadyRun(moves, states, rtt, d) && Revisits(moves, states, i, n);
      NoAddressIsRevisited(moves, states, rtt, d, i, n);
      assert false;
    }
  }
}
