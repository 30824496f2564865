/**
 Whole runs of the clipboard assembler under any schedule of honest datagrams. The assembler is shown
 to refine the reference machine of `ClipboardProgress`, from which the end-to-end theorem follows.
 */
module ClipboardSessions {
  import opened Wrappers
  import opened Bytes
  import opened Collections
  import opened ClipboardFrames
  import opened ClipboardTransfer
  import P = ClipboardProgress

  /** The payload each transfer id was used for. */
  type Book = map<u64, Payload>

  ghost predicate Sent(utf8: Utf8, book: Book) {
    forall id :: id in book ==> Sendable(book[id]) && utf8(book[id].fingerprint)
  }

  /** A frame an honest sender puts on the wire, or any acknowledgement. */
  ghost predicate HonestFrame(sha: Sha256, book: Book, f: Frame) {
    f.Ack? ||
    (f.id in book && Sendable(book[f.id]) &&
     if f.Begin? then f == BeginOf(sha, book[f.id], f.id)
     else f.index < ChunkCount(|book[f.id].content|) && f == ChunkOf(book[f.id], f.id, f.index))
  }

  /** `d` is one of the datagrams the payload encoder returns for some payload in the book. */
  ghost predicate HonestDatagram(sha: Sha256, book: Book, d: seq<byte>) {
    exists id, j :: id in book && Sendable(book[id]) && 0 <= j < |FramesOf(sha, book[id], id)|
                    && EncodeFrame(FramesOf(sha, book[id], id)[j]) == Ok(d)
  }

  /** Successive pushes from any assembler: `tables[n]` is the state after the first `n` frames. */
  ghost predicate Pushes(sha: Sha256, fs: seq<Frame>, tables: seq<Table>) {
    && |tables| == |fs| + 1
    && forall n {:trigger fs[n]} :: 0 <= n < |fs| ==> tables[n + 1] == Pushed(sha, tables[n], fs[n]).0
  }

  /** A run of `push` from the empty assembler. */
  ghost predicate Run(sha: Sha256, fs: seq<Frame>, tables: seq<Table>) {
    Pushes(sha, fs, tables) && tables[0] == map[]
  }

  function Returned(sha: Sha256, fs: seq<Frame>, tables: seq<Table>, n: nat): Outcome
    requires n < |fs| && n < |tables|
  {
    Pushed(sha, tables[n], fs[n]).1
  }

  //
  // Abstraction to the reference machine
  //

  function SignalOf(f: Frame): P.Signal {
    match f
    case Begin(id, _, _, _, _, _) => P.Open(id)
    case Chunk(id, i, _) => P.Piece(id, i)
    case Ack(_, _, _) => P.Other
  }

  ghost function CountsOf(book: Book): P.Counts {
    map id | id in book :: ChunkCount(|book[id].content|)
  }

  ghost function Filled(slots: Slots): set<nat> {
    set i: nat | i < |slots| && slots[i].Some?
  }

  ghost function ProgressOf(t: Table): P.Progress {
    map id | id in t :: Filled(t[id].slots)
  }

  /** The transfer an honest payload must come out as. */
  function TransferOf(sha: Sha256, p: Payload, id: u64): Transfer {
    Transfer(id, p.fingerprint, p.kind, p.content, sha(p.content))
  }

  ghost function OutcomeOf(sha: Sha256, book: Book, e: P.Event): Outcome {
    match e
    case Quiet => Ok(None)
    case Refused => Err(InvalidClipboardTransfer)
    case Delivered(id) => if id in book then Ok(Some(TransferOf(sha, book[id], id))) else Ok(None)
  }

  /** Slot `i` of an open transfer holds chunk `i` of its payload or nothing, and something is missing. */
  ghost predicate PendingOf(sha: Sha256, p: Payload, q: Pending) {
    && q.fingerprint == p.fingerprint && q.kind == p.kind
    && q.contentLen == |p.content| && q.hash == sha(p.content)
    && |q.slots| == ChunkCount(|p.content|)
    && !Complete(q.slots)
    && forall i :: 0 <= i < |q.slots| && q.slots[i].Some? ==> q.slots[i].value == ChunkAt(p.content, i)
  }

  ghost predicate Faithful(sha: Sha256, book: Book, t: Table) {
    forall id :: id in t ==> id in book && PendingOf(sha, book[id], t[id])
  }

  lemma FillIsFaithful(sha: Sha256, p: Payload, q: Pending, i: nat)
    requires PendingOf(sha, p, q) && i < ChunkCount(|p.content|)
    ensures var q' := Fill(q, i, ChunkAt(p.content, i));
            && q' == q.(slots := q'.slots)
            && Filled(q'.slots) == Filled(q.slots) + {i}
            && if Complete(q'.slots) then Contents(q'.slots) == Chunks(p.content) else PendingOf(sha, p, q')
  {
    var q' := Fill(q, i, ChunkAt(p.content, i));
    if Complete(q'.slots) {
      assert Contents(q'.slots) == Chunks(p.content);
    }
  }

  lemma CompleteIsFull(counts: P.Counts, id: u64, slots: Slots)
    requires id in counts && counts[id] == |slots|
    ensures Complete(slots) <==> P.Full(counts, id, Filled(slots))
  {
    if P.Full(counts, id, Filled(slots)) {
      forall i | 0 <= i < |slots|
        ensures slots[i].Some?
      {
        assert i in Filled(slots);
      }
    }
    if Complete(slots) {
      forall i: nat | i < counts[id]
        ensures i in Filled(slots)
      {
        assert slots[i].Some?;
      }
    }
  }

  lemma ProgressAfterUpdate(t: Table, id: u64, q: Pending)
    ensures ProgressOf(t[id := q]) == ProgressOf(t)[id := Filled(q.slots)]
  {
  }

  lemma ProgressAfterRemoval(t: Table, id: u64)
    ensures ProgressOf(t - {id}) == ProgressOf(t) - {id}
  {
  }

  lemma OpenedIsFaithful(sha: Sha256, p: Payload, f: Frame)
    requires Sendable(p) && f.Begin? && f == BeginOf(sha, p, f.id)
    ensures PendingOf(sha, p, Opened(f)) && Filled(Opened(f).slots) == {}
    ensures forall q: Pending :: PendingOf(sha, p, q) ==> SameTransfer(q, f)
  {
    assert Opened(f).slots[0].None?;
  }

  lemma PushBeginRefines(sha: Sha256, book: Book, t: Table, f: Frame)
    requires Faithful(sha, book, t) && HonestFrame(sha, book, f) && f.Begin?
    ensures var (t', o) := Pushed(sha, t, f);
            var (a', e) := P.Step(CountsOf(book), ProgressOf(t), SignalOf(f));
            Faithful(sha, book, t') && ProgressOf(t') == a' && o == OutcomeOf(sha, book, e)
  {
    SameKeysSize(t, ProgressOf(t));
    OpenedIsFaithful(sha, book[f.id], f);
    if f.id in t {
      assert PendingOf(sha, book[f.id], t[f.id]);
    } else {
      ProgressAfterUpdate(t, f.id, Opened(f));
    }
  }

  lemma PushChunkRefines(sha: Sha256, book: Book, t: Table, f: Frame)
    requires Faithful(sha, book, t) && HonestFrame(sha, book, f) && f.Chunk? && f.id in t
    ensures var (t', o) := Pushed(sha, t, f);
            var (a', e) := P.Step(CountsOf(book), ProgressOf(t), SignalOf(f));
            Faithful(sha, book, t') && ProgressOf(t') == a' && o == OutcomeOf(sha, book, e)
  {
    var id, p, q := f.id, book[f.id], t[f.id];
    assert PendingOf(sha, p, q);
    var q' := Fill(q, f.index, f.data);
    FillIsFaithful(sha, p, q, f.index);
    CompleteIsFull(CountsOf(book), id, q'.slots);
    if Complete(q'.slots) {
      ChunksRejoin(p.content);
      ProgressAfterRemoval(t, id);
      assert Verdict(sha, id, q') == Ok(Some(TransferOf(sha, p, id)));
    } else {
      ProgressAfterUpdate(t, id, q');
    }
  }

  /** One push of an honest frame does exactly what the reference machine does. */
  lemma PushRefines(sha: Sha256, book: Book, t: Table, f: Frame)
    requires Faithful(sha, book, t) && HonestFrame(sha, book, f)
    ensures var (t', o) := Pushed(sha, t, f);
            var (a', e) := P.Step(CountsOf(book), ProgressOf(t), SignalOf(f));
            Faithful(sha, book, t') && ProgressOf(t') == a' && o == OutcomeOf(sha, book, e)
  {
    if f.Begin? {
      PushBeginRefines(sha, book, t, f);
    } else if f.Chunk? && f.id in t {
      PushChunkRefines(sha, book, t, f);
    }
  }

  ghost function SignalsOf(fs: seq<Frame>): (ss: seq<P.Signal>)
    ensures |ss| == |fs|
  {
    seq(|fs|, n requires 0 <= n < |fs| => SignalOf(fs[n]))
  }

  ghost function ProgressesOf(tables: seq<Table>): (states: seq<P.Progress>)
    ensures |states| == |tables|
  {
    seq(|tables|, n requires 0 <= n < |tables| => ProgressOf(tables[n]))
  }

  lemma {:induction false} RunIsFaithful(sha: Sha256, book: Book, fs: seq<Frame>, tables: seq<Table>, n: nat)
    requires Run(sha, fs, tables) && n <= |fs|
    requires forall k :: 0 <= k < |fs| ==> HonestFrame(sha, book, fs[k])
    ensures Faithful(sha, book, tables[n])
  {
    if n > 0 {
      RunIsFaithful(sha, book, fs, tables, n - 1);
      PushRefines(sha, book, tables[n - 1], fs[n - 1]);
      assert tables[n] == Pushed(sha, tables[n - 1], fs[n - 1]).0;
    }
  }

  /** The refinement over every run: the same states under abstraction, the same outcome at every push. */
  lemma RunRefines(sha: Sha256, book: Book, fs: seq<Frame>, tables: seq<Table>)
    requires Run(sha, fs, tables)
    requires forall k :: 0 <= k < |fs| ==> HonestFrame(sha, book, fs[k])
    ensures P.Run(CountsOf(book), SignalsOf(fs), ProgressesOf(tables))
    ensures forall n :: 0 <= n < |fs| ==>
              Returned(sha, fs, tables, n)
              == OutcomeOf(sha, book, P.EventAt(CountsOf(book), SignalsOf(fs), ProgressesOf(tables), n))
  {
    var ss, states := SignalsOf(fs), ProgressesOf(tables);
    forall n | 0 <= n < |fs|
      ensures states[n + 1] == P.Step(CountsOf(book), states[n], ss[n]).0
      ensures Returned(sha, fs, tables, n) == OutcomeOf(sha, book, P.EventAt(CountsOf(book), ss, states, n))
    {
      RunIsFaithful(sha, book, fs, tables, n);
      PushRefines(sha, book, tables[n], fs[n]);
    }
    assert states[0] == map[];
  }

  lemma FramesAreHonest(sha: Sha256, book: Book, id: u64, j: nat)
    requires id in book && Sendable(book[id]) && j < |FramesOf(sha, book[id], id)|
    ensures HonestFrame(sha, book, FramesOf(sha, book[id], id)[j])
  {
    if j > 0 {
      assert FramesOf(sha, book[id], id)[j] == ChunkOf(book[id], id, j - 1);
    }
  }

  lemma HonestDatagramDecodes(sha: Sha256, utf8: Utf8, book: Book, d: seq<byte>)
    requires Sent(utf8, book) && HonestDatagram(sha, book, d)
    ensures DecodeFrame(utf8, d).Ok? && HonestFrame(sha, book, DecodeFrame(utf8, d).value)
  {
    var id, j :| id in book && Sendable(book[id]) && 0 <= j < |FramesOf(sha, book[id], id)|
                 && EncodeFrame(FramesOf(sha, book[id], id)[j]) == Ok(d);
    FramesAreAccepted(sha, utf8, book[id], id, j);
    FramesAreHonest(sha, book, id, j);
  }

  /** `fs` is what the decoder makes of the datagrams `ds`, none of which it rejects. */
  ghost predicate Decodes(utf8: Utf8, ds: seq<seq<byte>>, fs: seq<Frame>) {
    |fs| == |ds| && forall k :: 0 <= k < |ds| ==> DecodeFrame(utf8, ds[k]) == Ok(fs[k])
  }

  /**
   No datagram of an honest sender is ever rejected by the decoder.
   */
  lemma HonestDatagramsDecode(sha: Sha256, utf8: Utf8, book: Book, ds: seq<seq<byte>>) returns (fs: seq<Frame>)
    requires Sent(utf8, book)
    requires forall k :: 0 <= k < |ds| ==> HonestDatagram(sha, book, ds[k])
    ensures Decodes(utf8, ds, fs)
    ensures forall k :: 0 <= k < |fs| ==> HonestFrame(sha, book, fs[k])
  {
    forall k | 0 <= k < |ds|
      ensures DecodeFrame(utf8, ds[k]).Ok? && HonestFrame(sha, book, DecodeFrame(utf8, ds[k]).value)
    {
      HonestDatagramDecodes(sha, utf8, book, ds[k]);
    }
    fs := seq(|ds|, k requires 0 <= k < |ds| => DecodeFrame(utf8, ds[k]).value);
  }

  /**
   End to end. Take any payloads with distinct ids and any sequence of datagrams drawn from their
   encodings (lost, duplicated, reordered, interleaved, retransmitted at will), decode each and push it:
   every transfer returned is the payload of its id, bit for bit, and the only error is a Begin refused
   because four other transfers are open.
   */
  lemma EndToEnd(sha: Sha256, utf8: Utf8, book: Book, ds: seq<seq<byte>>, fs: seq<Frame>, tables: seq<Table>, n: nat)
    requires Sent(utf8, book) && n < |ds|
    requires forall k :: 0 <= k < |ds| ==> HonestDatagram(sha, book, ds[k])
    requires Decodes(utf8, ds, fs) && Run(sha, fs, tables)
    ensures match Returned(sha, fs, tables, n)
            case Ok(Some(t)) => fs[n].Chunk? && t.id == fs[n].id && t.id in book
                && t == TransferOf(sha, book[t.id], t.id)
            case Ok(None) => true
            case Err(_) => fs[n].Begin? && fs[n].id !in tables[n] && |tables[n]| == MAX_PENDING_CLIPBOARD_TRANSFERS
  {
    var fs' := HonestDatagramsDecode(sha, utf8, book, ds);
    assert fs' == fs;
    HonestOutcome(sha, book, fs, tables, n);
  }

  lemma HonestOutcome(sha: Sha256, book: Book, fs: seq<Frame>, tables: seq<Table>, n: nat)
    requires Run(sha, fs, tables) && n < |fs|
    requires forall k :: 0 <= k < |fs| ==> HonestFrame(sha, book, fs[k])
    ensures match Returned(sha, fs, tables, n)
            case Ok(Some(t)) => fs[n].Chunk? && t.id == fs[n].id && t.id in book
                && t == TransferOf(sha, book[t.id], t.id)
            case Ok(None) => true
            case Err(_) => fs[n].Begin? && fs[n].id !in tables[n] && |tables[n]| == MAX_PENDING_CLIPBOARD_TRANSFERS
  {
    var counts, ss, states := CountsOf(book), SignalsOf(fs), ProgressesOf(tables);
    RunRefines(sha, book, fs, tables);
    P.AtMostFourOpen(counts, ss, states, n);
    P.EventMeaning(counts, states[n], ss[n]);
    SameKeysSize(tables[n], ProgressOf(tables[n]));
    assert Returned(sha, fs, tables, n) == OutcomeOf(sha, book, P.EventAt(counts, ss, states, n));
  }

  /** The reference machine's delivery rule, for the assembler: see `ClipboardProgress`. */
  lemma DeliveredExactlyWhenComplete(sha: Sha256, book: Book, fs: seq<Frame>, tables: seq<Table>, id: u64, n: nat)
    requires Run(sha, fs, tables) && n < |fs| && id in book
    requires forall k :: 0 <= k < |fs| ==> HonestFrame(sha, book, fs[k])
    ensures var ss := SignalsOf(fs);
            Returned(sha, fs, tables, n) == Ok(Some(TransferOf(sha, book[id], id))) <==>
            && fs[n].Chunk? && fs[n].id == id
            && exists j: nat :: j < n && P.OpenSince(ss, ProgressesOf(tables), id, j, n)
                                && P.Full(CountsOf(book), id, P.Received(ss, id, j, n + 1))
  {
    RunRefines(sha, book, fs, tables);
    P.DeliveredExactlyWhenComplete(CountsOf(book), SignalsOf(fs), ProgressesOf(tables), id, n);
  }

  /** The push of frame `n` returns a transfer of `id`. */
  ghost predicate Returns(sha: Sha256, fs: seq<Frame>, tables: seq<Table>, id: u64, n: nat)
    requires n < |fs| < |tables|
  {
    var o := Returned(sha, fs, tables, n);
    o.Ok? && o.value.Some? && o.value.value.id == id
  }

  /** Which of the first `n` pushes returned a transfer of `id`. */
  ghost function ReturnFlags(sha: Sha256, fs: seq<Frame>, tables: seq<Table>, id: u64, n: nat): (flags: seq<bool>)
    requires n <= |fs| < |tables|
    ensures |flags| == n
  {
    seq(n, k requires 0 <= k < n => Returns(sha, fs, tables, id, k))
  }

  ghost function Deliveries(sha: Sha256, fs: seq<Frame>, tables: seq<Table>, id: u64, n: nat): nat
    requires n <= |fs| < |tables|
  {
    Count(ReturnFlags(sha, fs, tables, id, n))
  }

  /** A push returns a transfer of `id` exactly if the reference machine delivers the id at that step. */
  lemma ReturnedIsDelivered(sha: Sha256, book: Book, fs: seq<Frame>, tables: seq<Table>, id: u64, n: nat)
    requires Run(sha, fs, tables) && n < |fs|
    requires forall k :: 0 <= k < |fs| ==> HonestFrame(sha, book, fs[k])
    ensures Returns(sha, fs, tables, id, n)
            <==> P.EventAt(CountsOf(book), SignalsOf(fs), ProgressesOf(tables), n) == P.Delivered(id)
  {
    var t, f := tables[n], fs[n];
    RunIsFaithful(sha, book, fs, tables, n);
    PushRefines(sha, book, t, f);
    P.EventMeaning(CountsOf(book), ProgressOf(t), SignalOf(f));
    assert ProgressesOf(tables)[n] == ProgressOf(t) && SignalsOf(fs)[n] == SignalOf(f);
  }

  lemma DeliveriesAgree(sha: Sha256, book: Book, fs: seq<Frame>, tables: seq<Table>, id: u64, n: nat)
    requires Run(sha, fs, tables) && n <= |fs|
    requires forall k :: 0 <= k < |fs| ==> HonestFrame(sha, book, fs[k])
    ensures ReturnFlags(sha, fs, tables, id, n)
            == P.DeliveryFlags(CountsOf(book), SignalsOf(fs), ProgressesOf(tables), id, n)
  {
    forall k | 0 <= k < n
      ensures Returns(sha, fs, tables, id, k)
              <==> P.EventAt(CountsOf(book), SignalsOf(fs), ProgressesOf(tables), k) == P.Delivered(id)
    {
      ReturnedIsDelivered(sha, book, fs, tables, id, k);
    }
  }

  /**
   Conservation: a transfer is delivered exactly once per Begin that opened it, except that the last
   opening may still be waiting for chunks.
   */
  lemma DeliveredOncePerOpening(sha: Sha256, book: Book, fs: seq<Frame>, tables: seq<Table>, id: u64, n: nat)
    requires Run(sha, fs, tables) && n <= |fs|
    requires forall k :: 0 <= k < |fs| ==> HonestFrame(sha, book, fs[k])
    ensures P.Openings(SignalsOf(fs), ProgressesOf(tables), id, n)
            == Deliveries(sha, fs, tables, id, n) + if id in tables[n] then 1 else 0
  {
    RunRefines(sha, book, fs, tables);
    DeliveriesAgree(sha, book, fs, tables, id, n);
    P.OpeningsAreDeliveredOnce(CountsOf(book), SignalsOf(fs), ProgressesOf(tables), id, n);
  }

  //
  // Progress
  //

  ghost predicate ChunkArrives(id: u64, i: nat, fs: seq<Frame>, start: nat) {
    exists k :: start <= k < |fs| && fs[k].Chunk? && fs[k].id == id && fs[k].index == i
  }

  /** If the frame carries `id`, it is one of the frames of `p`; on other ids it may be anything. */
  ghost predicate HonestOn(sha: Sha256, p: Payload, id: u64, f: Frame) {
    f.id == id ==> HonestFrame(sha, map[id := p], f)
  }

  /** Short of delivery, an open transfer collects the chunks that come for it and ignores everything else. */
  lemma Collects(sha: Sha256, p: Payload, id: u64, t: Table, f: Frame)
    requires id in t && PendingOf(sha, p, t[id]) && HonestOn(sha, p, id, f)
    requires Pushed(sha, t, f).1 != Ok(Some(TransferOf(sha, p, id)))
    ensures var t' := Pushed(sha, t, f).0;
            && id in t' && PendingOf(sha, p, t'[id])
            && Filled(t'[id].slots) == Filled(t[id].slots) + if f.Chunk? && f.id == id then {f.index} else {}
  {
    if f.Chunk? && f.id == id {
      FillIsFaithful(sha, p, t[id], f.index);
      ChunksRejoin(p.content);
    } else if f.Begin? && f.id == id {
      OpenedIsFaithful(sha, p, f);
    }
  }

  /** The transfer is open and holds every chunk that came for it since `start`. */
  ghost predicate Collected(sha: Sha256, p: Payload, id: u64, fs: seq<Frame>, tables: seq<Table>, start: nat, n: nat)
    requires start <= n <= |fs| < |tables|
  {
    && id in tables[n] && PendingOf(sha, p, tables[n][id])
    && P.Received(SignalsOf(fs), id, start, n) <= Filled(tables[n][id].slots)
  }

  lemma CollectsNext(sha: Sha256, p: Payload, id: u64, fs: seq<Frame>, tables: seq<Table>, start: nat, n: nat)
    requires Pushes(sha, fs, tables) && start <= n < |fs| && Collected(sha, p, id, fs, tables, start, n)
    requires HonestOn(sha, p, id, fs[n]) && Returned(sha, fs, tables, n) != Ok(Some(TransferOf(sha, p, id)))
    ensures Collected(sha, p, id, fs, tables, start, n + 1)
  {
    Collects(sha, p, id, tables[n], fs[n]);
    assert tables[n + 1] == Pushed(sha, tables[n], fs[n]).0;
    P.ReceivedStep(SignalsOf(fs), id, start, n);
    assert SignalsOf(fs)[n] == SignalOf(fs[n]);
  }

  lemma CollectsAll(sha: Sha256, p: Payload, id: u64, fs: seq<Frame>, tables: seq<Table>, start: nat, n: nat)
    requires Pushes(sha, fs, tables) && start <= n <= |fs|
    requires id in tables[start] && PendingOf(sha, p, tables[start][id])
    requires forall k :: start <= k < n ==> HonestOn(sha, p, id, fs[k])
    requires forall k :: start <= k < n ==> Returned(sha, fs, tables, k) != Ok(Some(TransferOf(sha, p, id)))
    ensures Collected(sha, p, id, fs, tables, start, n)
  {
    for i := start to n
      invariant Collected(sha, p, id, fs, tables, start, i)
    {
      CollectsNext(sha, p, id, fs, tables, start, i);
    }
  }

  lemma ArrivedIsReceived(id: u64, i: nat, fs: seq<Frame>, start: nat)
    requires start <= |fs| && ChunkArrives(id, i, fs, start)
    ensures i in P.Received(SignalsOf(fs), id, start, |fs|)
  {
    var k :| start <= k < |fs| && fs[k].Chunk? && fs[k].id == id && fs[k].index == i;
    assert SignalsOf(fs)[k] == P.Piece(id, i);
  }

  /**
   An open transfer holding only chunks of its payload is delivered by any continuation that carries each of
   its chunks at least once, in any order and mixed with anything at all on other ids.
   */
  lemma OpenTransferDelivers(sha: Sha256, p: Payload, id: u64, fs: seq<Frame>, tables: seq<Table>, start: nat)
    requires Pushes(sha, fs, tables) && start <= |fs| && id in tables[start] && PendingOf(sha, p, tables[start][id])
    requires forall k :: start <= k < |fs| ==> HonestOn(sha, p, id, fs[k])
    requires forall i: nat :: i < ChunkCount(|p.content|) ==> ChunkArrives(id, i, fs, start)
    ensures exists n :: start <= n < |fs| && Returned(sha, fs, tables, n) == Ok(Some(TransferOf(sha, p, id)))
  {
    if forall n :: start <= n < |fs| ==> Returned(sha, fs, tables, n) != Ok(Some(TransferOf(sha, p, id))) {
      CollectsAll(sha, p, id, fs, tables, start, |fs|);
      var slots := tables[|fs|][id].slots;
      forall i | 0 <= i < |slots|
        ensures slots[i].Some?
      {
        assert ChunkArrives(id, i, fs, start);
        ArrivedIsReceived(id, i, fs, start);
      }
      assert Complete(slots);
      assert false;
    }
  }

  /** In a run of honest frames every open transfer is in that state. */
  lemma AllChunksDeliver(sha: Sha256, book: Book, fs: seq<Frame>, tables: seq<Table>, start: nat, id: u64)
    requires Run(sha, fs, tables) && start <= |fs| && id in tables[start]
    requires forall k :: 0 <= k < |fs| ==> HonestFrame(sha, book, fs[k])
    requires forall i: nat :: id in book && i < ChunkCount(|book[id].content|) ==> ChunkArrives(id, i, fs, start)
    ensures exists n :: start <= n < |fs| && id in book
             && Returned(sha, fs, tables, n) == Ok(Some(TransferOf(sha, book[id], id)))
  {
    RunIsFaithful(sha, book, fs, tables, start);
    forall k | start <= k < |fs|
      ensures HonestOn(sha, book[id], id, fs[k])
    {
      assert HonestFrame(sha, book, fs[k]);
    }
    OpenTransferDelivers(sha, book[id], id, fs, tables, start);
  }
}
