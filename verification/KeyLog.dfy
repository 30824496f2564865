/**
 What has been sent to each client, and what that makes a client hold down. Since every link is FIFO and lossless,
 a client that has read all of its messages holds exactly `Held`, whenever it read them.
 */
module KeyLog {
  import opened Wrappers
  import opened Bytes
  import opened Collections
  import opened Positions
  import E = EmulationState
  import S = EmulationSession

  type Client = u64

  datatype Msg = Enter(pos: Position) | Input(event: E.Event) | CursorPos(pos: Position, nx: real, ny: real) | Leave

  type Sent = (Client, Msg)

  const KEYS_LIFTED := Input(E.NO_MODIFIERS)

  predicate IsKey(m: Msg) {
    m.Input? && m.event.Key?
  }

  //
  // Keys held by a client that is up to date
  //

  function HeldStep(keys: set<u32>, m: Msg): set<u32> {
    match m
    case Input(e) => S.AfterEvent(keys, e)
    case Leave => {}
    case _ => keys
  }

  function Held(log: seq<Sent>, c: Client): set<u32> {
    if log == [] then {} else
    var (to, m) := log[|log| - 1];
    var before := Held(log[..|log| - 1], c);
    if to == c then HeldStep(before, m) else before
  }

  /** Whether the client has been entered and not left, or None once it was left without having been entered. */
  function Inside(log: seq<Sent>, c: Client): Option<bool> {
    if log == [] then Some(false) else
    var (to, m) := log[|log| - 1];
    var before := Inside(log[..|log| - 1], c);
    if to != c || before.None? || !(m.Enter? || m.Leave?) then before
    else if m.Enter? then Some(true)
    else if before.value then Some(false) else None
  }

  lemma Appended(log: seq<Sent>, s: Sent, c: Client)
    ensures Held(log + [s], c) == if s.0 == c then HeldStep(Held(log, c), s.1) else Held(log, c)
    ensures Inside(log + [s], c)
            == if s.0 != c || Inside(log, c).None? || !(s.1.Enter? || s.1.Leave?) then Inside(log, c)
               else if s.1.Enter? then Some(true)
               else if Inside(log, c).value then Some(false) else None
  {
    assert (log + [s])[..|log|] == log;
  }

  /** At `log[i]` a Leave is sent: the zero modifiers were just sent, and before them a key-up for all that was held. */
  ghost predicate CleanLeave(log: seq<Sent>, i: nat)
    requires i < |log|
  {
    log[i].1.Leave? ==> i > 0 && log[i - 1] == (log[i].0, KEYS_LIFTED) && Held(log[..i], log[i].0) == {}
  }

  ghost predicate CleanLeaves(log: seq<Sent>) {
    forall i :: 0 <= i < |log| ==> CleanLeave(log, i)
  }

  //
  // Releases
  //

  function KeyUps(c: Client, order: seq<u32>): (r: seq<Sent>)
    ensures |r| == |order|
    ensures forall i :: 0 <= i < |order| ==> r[i] == (c, Input(E.Key(order[i], 0)))
  {
    seq(|order|, i requires 0 <= i < |order| => (c, Input(E.Key(order[i], 0))))
  }

  function SentTogether(c: Client, ms: seq<Msg>): (r: seq<Sent>)
    ensures |r| == |ms|
  {
    seq(|ms|, i requires 0 <= i < |ms| => (c, ms[i]))
  }

  /** What a release sends: a key-up for each pressed key, zero modifiers, Leave. */
  function Farewell(c: Client, order: seq<u32>): seq<Sent> {
    KeyUps(c, order) + [(c, KEYS_LIFTED), (c, Leave)]
  }

  //
  // The client's own bookkeeping
  //

  /** The client reads the next message, or destroys the sender's handle after a second without any. */
  datatype ClientStep = Read(m: Msg, order: seq<u32>) | Silence(order: seq<u32>)

  predicate Drops(step: ClientStep) {
    step.Silence? || step.m.Leave?
  }

  ghost predicate StepsTo(s: S.Session, step: ClientStep, host: S.Address, macos: bool, s': S.Session) {
    if Drops(step) then Enumerates(step.order, S.HeldBy(s, host)) && s' == S.Removed(s, host, step.order)
    else s' == if step.m.Input? then S.Received(s, step.m.event, host, macos) else s
  }

  ghost predicate ClientRun(steps: seq<ClientStep>, states: seq<S.Session>, host: S.Address, macos: bool) {
    && |states| == |steps| + 1
    && states[0] == S.IDLE
    && forall n {:trigger steps[n]} :: 0 <= n < |steps| ==> StepsTo(states[n], steps[n], host, macos, states[n + 1])
  }

  /** What the messages read so far make the client hold; silences only ever drop keys. */
  function HeldAfter(steps: seq<ClientStep>): set<u32> {
    if steps == [] then {} else
    var before, step := HeldAfter(steps[..|steps| - 1]), steps[|steps| - 1];
    if step.Silence? then before else HeldStep(before, step.m)
  }

  lemma ClientStepHolds(s: S.Session, step: ClientStep, host: S.Address, macos: bool, s': S.Session)
    requires S.Valid(s) && StepsTo(s, step, host, macos, s')
    ensures S.Valid(s')
    ensures S.HeldBy(s', host) == if step.Silence? then {} else HeldStep(S.HeldBy(s, host), step.m)
  {
    if Drops(step) {
      S.RemovedHolds(s, host, step.order, host);
    } else if step.m.Input? {
      S.ReceivedHolds(s, step.m.event, host, macos, host);
    }
  }

  /** The client's emulator holds for the host exactly what the messages say, or less after a silence. */
  lemma {:induction false} ClientHolds(steps: seq<ClientStep>, states: seq<S.Session>, host: S.Address,
      macos: bool, n: nat)
    requires ClientRun(steps, states, host, macos) && n <= |steps|
    ensures S.Valid(states[n]) && S.HeldBy(states[n], host) <= HeldAfter(steps[..n])
    ensures (forall i :: 0 <= i < n ==> !steps[i].Silence?) ==> S.HeldBy(states[n], host) == HeldAfter(steps[..n])
  {
    if n == 0 {
      assert E.FRESH.pressedKeys.Keys == {};
    } else {
      ClientHolds(steps, states, host, macos, n - 1);
      assert StepsTo(states[n - 1], steps[n - 1], host, macos, states[n]);
      ClientStepHolds(states[n - 1], steps[n - 1], host, macos, states[n]);
      assert steps[..n][..n - 1] == steps[..n - 1];
    }
  }

  /** The messages read are those sent to this client, in order. */
  function ReadBy(steps: seq<ClientStep>): seq<Msg> {
    if steps == [] then [] else
    var before, step := ReadBy(steps[..|steps| - 1]), steps[|steps| - 1];
    if step.Silence? then before else before + [step.m]
  }

  function SentTo(log: seq<Sent>, c: Client): seq<Msg> {
    if log == [] then [] else
    var before, (to, m) := SentTo(log[..|log| - 1], c), log[|log| - 1];
    if to == c then before + [m] else before
  }

  function HeldByMessages(ms: seq<Msg>): set<u32> {
    if ms == [] then {} else HeldStep(HeldByMessages(ms[..|ms| - 1]), ms[|ms| - 1])
  }

  lemma {:induction false} ReadDecidesHeld(steps: seq<ClientStep>)
    ensures HeldAfter(steps) == HeldByMessages(ReadBy(steps))
  {
    if steps != [] {
      var before, step := steps[..|steps| - 1], steps[|steps| - 1];
      ReadDecidesHeld(before);
      if step.Read? {
        assert (ReadBy(before) + [step.m])[..|ReadBy(before)|] == ReadBy(before);
      }
    }
  }

  lemma {:induction false} SentDecidesHeld(log: seq<Sent>, c: Client)
    ensures Held(log, c) == HeldByMessages(SentTo(log, c))
  {
    if log != [] {
      var before, last := log[..|log| - 1], log[|log| - 1];
      SentDecidesHeld(before, c);
      if last.0 == c {
        assert (SentTo(before, c) + [last.1])[..|SentTo(before, c)|] == SentTo(before, c);
      }
    }
  }

  /** A client that has read everything sent to it holds what the log says, or less if it ever fell silent. */
  lemma DrainedClientHolds(
    log: seq<Sent>, c: Client, steps: seq<ClientStep>, states: seq<S.Session>, host: S.Address, macos: bool)
    requires ClientRun(steps, states, host, macos) && ReadBy(steps) == SentTo(log, c)
    ensures S.HeldBy(states[|steps|], host) <= Held(log, c)
    ensures (forall i :: 0 <= i < |steps| ==> !steps[i].Silence?) ==> S.HeldBy(states[|steps|], host) == Held(log, c)
  {
    ClientHolds(steps, states, host, macos, |steps|);
    assert steps[..|steps|] == steps;
    ReadDecidesHeld(steps);
    SentDecidesHeld(log, c);
  }
}
