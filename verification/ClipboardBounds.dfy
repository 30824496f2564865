/**
 Bounds the assembler keeps whoever sends: they hold for every sequence of frames the decoder lets
 through, honest or not.
 */
module ClipboardBounds {
  import opened Wrappers
  import opened Bytes
  import opened Collections
  import opened ClipboardFrames
  import opened ClipboardTransfer
  import S = ClipboardSessions

  /** `ceil(MAX_CLIPBOARD_TRANSFER_SIZE / CLIPBOARD_CHUNK_SIZE)` */
  const MAX_SLOTS: nat := 59919

  /** An open transfer: as many slots as its declared length needs, one still empty, no oversized chunk. */
  ghost predicate PendingBounded(q: Pending) {
    && q.contentLen <= MaxClipboardSize(q.kind)
    && |q.slots| == ChunkCount(q.contentLen)
    && !Complete(q.slots)
    && forall i :: 0 <= i < |q.slots| && q.slots[i].Some? ==> |q.slots[i].value| <= CLIPBOARD_CHUNK_SIZE
  }

  ghost predicate Bounded(t: Table) {
    && |t| <= MAX_PENDING_CLIPBOARD_TRANSFERS
    && forall id :: id in t ==> PendingBounded(t[id])
  }

  lemma PushKeepsSize(sha: Sha256, t: Table, f: Frame)
    requires |t| <= MAX_PENDING_CLIPBOARD_TRANSFERS
    ensures |Pushed(sha, t, f).0| <= MAX_PENDING_CLIPBOARD_TRANSFERS
  {
    if f.Chunk? && f.id in t {
      RemoveSize(t, f.id);
    }
  }

  lemma FillKeepsBounds(q: Pending, i: nat, data: seq<byte>)
    requires PendingBounded(q) && i < |q.slots| && |data| <= CLIPBOARD_CHUNK_SIZE
    requires !Complete(Fill(q, i, data).slots)
    ensures PendingBounded(Fill(q, i, data))
  {
  }

  lemma OpenedIsBounded(utf8: Utf8, f: Frame)
    requires f.Begin? && Accepted(utf8, f)
    ensures PendingBounded(Opened(f))
  {
    assert Opened(f).slots[0].None?;
  }

  lemma PushKeepsBounds(sha: Sha256, utf8: Utf8, t: Table, f: Frame)
    requires Bounded(t) && Accepted(utf8, f)
    ensures Bounded(Pushed(sha, t, f).0)
  {
    PushKeepsSize(sha, t, f);
    if f.Begin? {
      OpenedIsBounded(utf8, f);
    } else if f.Chunk? && f.id in t && f.index < |t[f.id].slots| && !Complete(Fill(t[f.id], f.index, f.data).slots) {
      FillKeepsBounds(t[f.id], f.index, f.data);
    }
  }

  /**
   After any run of decoded datagrams: at most four transfers are open, each bounded as above, and all
   buffered chunks together fit in 4 * 59919 * 1120 bytes.
   */
  lemma {:induction false} RunStaysBounded(sha: Sha256, utf8: Utf8, ds: seq<seq<byte>>, fs: seq<Frame>,
      tables: seq<Table>, n: nat)
    requires S.Decodes(utf8, ds, fs) && S.Run(sha, fs, tables) && n <= |fs|
    ensures Bounded(tables[n]) && |tables[n]| <= 4 && StoredBytes(tables[n]) <= 4 * 59919 * 1120
  {
    if n > 0 {
      RunStaysBounded(sha, utf8, ds, fs, tables, n - 1);
      DecodeExact(utf8, ds[n - 1], fs[n - 1]);
      PushKeepsBounds(sha, utf8, tables[n - 1], fs[n - 1]);
    }
    StorageBound(tables[n]);
  }

  /** Bytes one open transfer can buffer: 1873 chunks of text, 59919 of anything else. */
  function MaxBuffered(kind: Kind): nat {
    match kind
    case Text => 1873 * 1120
    case ImagePng => 59919 * 1120
    case FilesArchive => 59919 * 1120
  }

  lemma BufferedByKind(q: Pending)
    requires PendingBounded(q)
    ensures SlotBytes(q.slots) <= MaxBuffered(q.kind)
  {
    SlotBytesBound(q.slots);
  }

  /** Per transfer, the bound depends on the kind its Begin declared. */
  lemma RunStaysBoundedByKind(sha: Sha256, utf8: Utf8, ds: seq<seq<byte>>, fs: seq<Frame>, tables: seq<Table>, n: nat,
      id: u64)
    requires S.Decodes(utf8, ds, fs) && S.Run(sha, fs, tables) && n <= |fs| && id in tables[n]
    ensures SlotBytes(tables[n][id].slots) <= MaxBuffered(tables[n][id].kind)
  {
    RunStaysBounded(sha, utf8, ds, fs, tables, n);
    BufferedByKind(tables[n][id]);
  }

  ghost function SlotBytes(slots: Slots): nat {
    if slots == [] then 0
    else SlotBytes(slots[1..]) + if slots[0].Some? then |slots[0].value| else 0
  }

  ghost function AnyId(t: Table): (id: u64)
    requires t != map[]
    ensures id in t
  {
    var id :| id in t;
    id
  }

  /** Chunk bytes held by the whole table. */
  ghost function StoredBytes(t: Table): nat
    decreases |t|
  {
    if t == map[] then 0 else
    var id := AnyId(t);
    RemoveSize(t, id);
    SlotBytes(t[id].slots) + StoredBytes(t - {id})
  }

  lemma {:induction false} SlotBytesBound(slots: Slots)
    requires forall i :: 0 <= i < |slots| && slots[i].Some? ==> |slots[i].value| <= CLIPBOARD_CHUNK_SIZE
    ensures SlotBytes(slots) <= |slots| * CLIPBOARD_CHUNK_SIZE
  {
    if slots != [] {
      SlotBytesBound(slots[1..]);
    }
  }

  lemma ChunkCountBound(len: nat, kind: Kind)
    requires len <= MaxClipboardSize(kind)
    ensures ChunkCount(len) <= MAX_SLOTS
  {
  }

  lemma OneMore(n: nat, size: nat)
    ensures (n + 1) * size == n * size + size
  {
  }

  lemma {:induction false} StorageBound(t: Table)
    requires forall id :: id in t ==> PendingBounded(t[id])
    ensures StoredBytes(t) <= |t| * (MAX_SLOTS * CLIPBOARD_CHUNK_SIZE)
    decreases |t|
  {
    if t != map[] {
      var id := AnyId(t);
      RemoveSize(t, id);
      assert PendingBounded(t[id]);
      SlotBytesBound(t[id].slots);
      ChunkCountBound(t[id].contentLen, t[id].kind);
      assert forall other :: other in t - {id} ==> PendingBounded((t - {id})[other]);
      StorageBound(t - {id});
      OneMore(|t - {id}|, MAX_SLOTS * CLIPBOARD_CHUNK_SIZE);
    }
  }

  /** The chunks received, this one among them unless its place was taken. */
  function Received(slots: Slots, index: nat, data: seq<byte>): Slots
    requires index < |slots|
  {
    if slots[index].None? then slots[index := Some(data)] else slots
  }

  /**
   What each result of `push` means, for any table and any frame: a transfer has the length and hash its
   Begin declared and closes its id; an error leaves the table alone or closes the id of a completed
   transfer that failed its check, the length before the hash; otherwise at most a chunk is added or an id
   opened empty; no other id is ever touched.
   */
  lemma PushOutcomes(sha: Sha256, t: Table, f: Frame)
    ensures var (t', o) := Pushed(sha, t, f);
            && (forall id :: id != f.id ==> (id in t' <==> id in t) && (id in t ==> t'[id] == t[id]))
            && match o
               case Ok(Some(x)) =>
                 f.Chunk? && f.id in t && f.id !in t'
                 && x.id == f.id && |x.content| == t[f.id].contentLen && sha(x.content) == x.hash == t[f.id].hash
                 && x.kind == t[f.id].kind && x.fingerprint == t[f.id].fingerprint
               case Ok(None) =>
                 (match f
                  case Begin(id, fp, kind, len, count, hash) =>
                    id in t' && t'[id].fingerprint == fp && t'[id].kind == kind && t'[id].contentLen == len
                    && t'[id].hash == hash
                    && (t' == t || (|t'[id].slots| == count && forall i :: 0 <= i < count ==> t'[id].slots[i].None?))
                  case Chunk(id, index, data) =>
                    if id !in t then t' == t
                    else index < |t[id].slots| && id in t' && !Complete(t'[id].slots)
                         && t'[id] == t[id].(slots := Received(t[id].slots, index, data))
                  case Ack(_, _, _) => t' == t)
               case Err(e) =>
                 if f.Begin? then t' == t && f.id !in t && |t| >= 4 && e == InvalidClipboardTransfer
                 else f.Chunk? && f.id in t &&
                      if f.index >= |t[f.id].slots| then t' == t && e == InvalidClipboardTransfer
                      else
                        f.id !in t' && Complete(Received(t[f.id].slots, f.index, f.data)) &&
                        var content := Joined(Contents(Received(t[f.id].slots, f.index, f.data)));
                        if |content| != t[f.id].contentLen then e == InvalidClipboardTransfer
                        else sha(content) != t[f.id].hash && e == ClipboardHashMismatch
  {
  }

  /**
   A rejected transfer can be sent again: after a length or hash mismatch the id is closed and there is
   room, so the next Begin with that id opens it afresh.
   */
  lemma RejectedTransferReopens(sha: Sha256, t: Table, f: Frame, again: Frame)
    requires Bounded(t) && f.Chunk? && f.id in t && f.index < |t[f.id].slots|
    requires Pushed(sha, t, f).1.Err?
    requires again.Begin? && again.id == f.id
    ensures f.id !in Pushed(sha, t, f).0 && |Pushed(sha, t, f).0| < MAX_PENDING_CLIPBOARD_TRANSFERS
    ensures var (t', o) := Pushed(sha, Pushed(sha, t, f).0, again);
            o == Ok(None) && f.id in t' && t'[f.id] == Opened(again)
  {
    RemoveSize(t, f.id);
  }

  /**
   And the resend is delivered, whatever else the table holds and whatever comes on other ids: from any table
   where the id is closed and there is room, its Begin followed by each of its chunks, in any order.
   */
  lemma ResendIsDelivered(sha: Sha256, p: Payload, id: u64, fs: seq<Frame>, tables: seq<Table>)
    requires S.Pushes(sha, fs, tables) && Sendable(p) && |fs| > 0 && fs[0] == BeginOf(sha, p, id)
    requires id !in tables[0] && |tables[0]| < MAX_PENDING_CLIPBOARD_TRANSFERS
    requires forall k :: 0 <= k < |fs| ==> S.HonestOn(sha, p, id, fs[k])
    requires forall i: nat :: i < ChunkCount(|p.content|) ==> S.ChunkArrives(id, i, fs, 1)
    ensures exists n :: 1 <= n < |fs| && S.Returned(sha, fs, tables, n) == Ok(Some(S.TransferOf(sha, p, id)))
  {
    S.OpenedIsFaithful(sha, p, fs[0]);
    S.OpenTransferDelivers(sha, p, id, fs, tables, 1);
  }
}
