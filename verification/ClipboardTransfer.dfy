/**
 Splitting a clipboard payload into datagrams and reassembling it: the payload encoder and the
 assembler's `push`. SHA-256 is a parameter (`sha`): nothing below depends on it being collision-free.
 */
module ClipboardTransfer {
  import opened Wrappers
  import opened Bytes
  import opened ClipboardFrames

  const MAX_PENDING_CLIPBOARD_TRANSFERS: nat := 4

  type Sha256 = seq<byte> -> Hash

  datatype Payload = Payload(kind: Kind, fingerprint: seq<byte>, content: seq<byte>)

  datatype Transfer = Transfer(id: u64, fingerprint: seq<byte>, kind: Kind, content: seq<byte>, hash: Hash)

  type Outcome = Result<Option<Transfer>, ProtocolError>

  //
  // Payload encoder
  //

  /** The size limits the encoder enforces. */
  predicate Sendable(p: Payload) {
    |p.fingerprint| <= MAX_FINGERPRINT_SIZE && |p.content| <= MaxClipboardSize(p.kind)
  }

  function Min(a: nat, b: nat): nat {
    if a <= b then a else b
  }

  /** The `i`-th element of `content.chunks(CLIPBOARD_CHUNK_SIZE)`; empty content has one empty chunk. */
  function ChunkAt(content: seq<byte>, i: nat): (chunk: seq<byte>)
    requires i < ChunkCount(|content|)
    ensures |chunk| <= CLIPBOARD_CHUNK_SIZE
  {
    content[i * CLIPBOARD_CHUNK_SIZE..Min((i + 1) * CLIPBOARD_CHUNK_SIZE, |content|)]
  }

  function BeginOf(sha: Sha256, p: Payload, id: u64): Frame
    requires Sendable(p)
  {
    Begin(id, p.fingerprint, p.kind, |p.content|, ChunkCount(|p.content|), sha(p.content))
  }

  function ChunkOf(p: Payload, id: u64, i: nat): (f: Frame)
    requires Sendable(p) && i < ChunkCount(|p.content|)
    ensures Fits(f)
  {
    Chunk(id, i, ChunkAt(p.content, i))
  }

  /** The frames of one transfer, in sending order. */
  function FramesOf(sha: Sha256, p: Payload, id: u64): (fs: seq<Frame>)
    requires Sendable(p)
    ensures |fs| == 1 + ChunkCount(|p.content|)
    ensures forall j :: 0 <= j < |fs| ==> Fits(fs[j])
  {
    [BeginOf(sha, p, id)]
    + seq(ChunkCount(|p.content|), i requires 0 <= i < ChunkCount(|p.content|) => ChunkOf(p, id, i))
  }

  function Joined(chunks: seq<seq<byte>>): seq<byte> {
    if chunks == [] then [] else Joined(chunks[..|chunks| - 1]) + chunks[|chunks| - 1]
  }

  function Chunks(content: seq<byte>): (cs: seq<seq<byte>>)
    ensures |cs| == ChunkCount(|content|)
  {
    seq(ChunkCount(|content|), i requires 0 <= i < ChunkCount(|content|) => ChunkAt(content, i))
  }

  lemma {:induction false} PrefixRejoins(content: seq<byte>, n: nat)
    requires n <= ChunkCount(|content|)
    ensures Joined(Chunks(content)[..n]) == content[..Min(n * CLIPBOARD_CHUNK_SIZE, |content|)]
  {
    if n > 0 {
      PrefixRejoins(content, n - 1);
      var cs := Chunks(content);
      assert cs[..n][..n - 1] == cs[..n - 1];
      assert cs[n - 1] == ChunkAt(content, n - 1);
    }
  }

  /** Chunk data in index order concatenates back to the content. */
  lemma ChunksRejoin(content: seq<byte>)
    ensures Joined(Chunks(content)) == content
  {
    var cs := Chunks(content);
    PrefixRejoins(content, |cs|);
    assert cs[..|cs|] == cs;
    assert content[..|content|] == content;
  }

  lemma DatagramSize(f: Frame)
    requires EncodeFrame(f).Ok?
    ensures f.Begin? ==> |EncodeFrame(f).value| == 52 + |f.fingerprint| <= 308
    ensures f.Chunk? ==> |EncodeFrame(f).value| == 15 + |f.data| <= 1135
  {
  }

  method EncodeChunks(p: Payload, id: u64) returns (datagrams: seq<seq<byte>>)
    requires Sendable(p)
    ensures |datagrams| == ChunkCount(|p.content|)
    ensures forall i :: 0 <= i < |datagrams| ==> Ok(datagrams[i]) == EncodeFrame(ChunkOf(p, id, i))
  {
    datagrams := [];
    if p.content == [] {
      var datagram := EncodeClipboardFrame(Chunk(id, 0, []));
      return [datagram.value];
    }
    var index := 0;
    while index * CLIPBOARD_CHUNK_SIZE < |p.content|
      invariant 0 <= index <= ChunkCount(|p.content|)
      invariant |datagrams| == index
      invariant forall i :: 0 <= i < |datagrams| ==> Ok(datagrams[i]) == EncodeFrame(ChunkOf(p, id, i))
    {
      var data := p.content[index * CLIPBOARD_CHUNK_SIZE..Min((index + 1) * CLIPBOARD_CHUNK_SIZE, |p.content|)];
      var datagram := EncodeClipboardFrame(Chunk(id, index, data));
      datagrams := datagrams + [datagram.value];
      index := index + 1;
    }
  }

  /** The limits in bytes: 256 for the fingerprint, 2 MiB of text, 64 MiB of anything else. */
  predicate WithinLimits(kind: Kind, fingerprint: nat, content: nat) {
    && fingerprint <= 256
    && content <= match kind
                  case Text => 2_097_152
                  case ImagePng => 67_108_864
                  case FilesArchive => 67_108_864
  }

  /** The decoder lets a Begin through only within the same limits. */
  lemma BeginsAreWithinLimits(utf8: Utf8, d: seq<byte>)
    requires DecodeFrame(utf8, d).Ok? && DecodeFrame(utf8, d).value.Begin?
    ensures var f := DecodeFrame(utf8, d).value;
            WithinLimits(f.kind, |f.fingerprint|, f.contentLen) && utf8(f.fingerprint)
  {
    DecodeExact(utf8, d, DecodeFrame(utf8, d).value);
  }

  /**
   Total within its limits: one Begin of at most 308 bytes and `ChunkCount` chunks of at most 1135,
   so the encoder's own datagram-size check never fires; outside the limits, a size error and no datagram.
   */
  method EncodeClipboardPayload(sha: Sha256, kind: Kind, fingerprint: seq<byte>, content: seq<byte>, id: u64)
    returns (r: Result<(seq<seq<byte>>, Hash), ProtocolError>)
    ensures r.Ok? <==> WithinLimits(kind, |fingerprint|, |content|)
    ensures var p := Payload(kind, fingerprint, content);
            if !Sendable(p) then r == Err(ClipboardTooLarge(|content|))
            else
              && r.Ok?
              && r.value.1 == sha(content)
              && var ds := r.value.0;
              && |ds| == 1 + ChunkCount(|content|)
              && |ds[0]| <= 308
              && (forall j :: 1 <= j < |ds| ==> |ds[j]| <= 1135)
              && (forall j :: 0 <= j < |ds| ==> Ok(ds[j]) == EncodeFrame(FramesOf(sha, p, id)[j]))
  {
    if |fingerprint| > MAX_FINGERPRINT_SIZE || |content| > MaxClipboardSize(kind) {
      return Err(ClipboardTooLarge(|content|));
    }
    var p := Payload(kind, fingerprint, content);
    var hash := sha(content);
    var begin := Begin(id, fingerprint, kind, |content|, ChunkCount(|content|), hash);
    var first := EncodeClipboardFrame(begin);
    var rest := EncodeChunks(p, id);
    DatagramSize(begin);
    forall j | 0 <= j < |rest|
      ensures |rest[j]| <= 1135
    {
      DatagramSize(ChunkOf(p, id, j));
    }
    return Ok(([first.value] + rest, hash));
  }

  /** Every frame of a sendable payload with a valid fingerprint passes the decoder's checks. */
  lemma FramesAreAccepted(sha: Sha256, utf8: Utf8, p: Payload, id: u64, j: nat)
    requires Sendable(p) && utf8(p.fingerprint) && j < |FramesOf(sha, p, id)|
    ensures var f := FramesOf(sha, p, id)[j];
            Accepted(utf8, f) && EncodeFrame(f) == Ok(Layout(f, 0)) && DecodeFrame(utf8, Layout(f, 0)) == Ok(f)
  {
    DecodeLayout(utf8, FramesOf(sha, p, id)[j], 0);
  }

  //
  // Assembler
  //

  type Slots = seq<Option<seq<byte>>>

  datatype Pending = Pending(fingerprint: seq<byte>, kind: Kind, contentLen: nat, hash: Hash, slots: Slots)

  type Table = map<u64, Pending>

  predicate Complete(slots: Slots) {
    forall i :: 0 <= i < |slots| ==> slots[i].Some?
  }

  function Contents(slots: Slots): seq<seq<byte>>
    requires Complete(slots)
  {
    seq(|slots|, i requires 0 <= i < |slots| => slots[i].value)
  }

  function Opened(f: Frame): Pending
    requires f.Begin?
  {
    Pending(f.fingerprint, f.kind, f.contentLen, f.hash, seq(f.chunkCount, _ => None))
  }

  predicate SameTransfer(p: Pending, f: Frame)
    requires f.Begin?
  {
    p.contentLen == f.contentLen && p.hash == f.hash && p.fingerprint == f.fingerprint && p.kind == f.kind
  }

  /** A slot once filled keeps its first value. */
  function Fill(p: Pending, index: nat, data: seq<byte>): Pending
    requires index < |p.slots|
  {
    if p.slots[index].Some? then p else p.(slots := p.slots[index := Some(data)])
  }

  /** The verdict on a transfer all of whose slots are filled. */
  function Verdict(sha: Sha256, id: u64, p: Pending): Outcome
    requires Complete(p.slots)
  {
    var bytes := Joined(Contents(p.slots));
    if |bytes| != p.contentLen then Err(InvalidClipboardTransfer)
    else if sha(bytes) != p.hash then Err(ClipboardHashMismatch)
    else Ok(Some(Transfer(id, p.fingerprint, p.kind, bytes, p.hash)))
  }

  /** One `push`: the new table of pending transfers and what the call returns. */
  function Pushed(sha: Sha256, t: Table, f: Frame): (Table, Outcome) {
    match f
    case Begin(id, _, _, _, _, _) =>
      if id !in t && |t| >= MAX_PENDING_CLIPBOARD_TRANSFERS then (t, Err(InvalidClipboardTransfer))
      else if id in t && SameTransfer(t[id], f) then (t, Ok(None))
      else (t[id := Opened(f)], Ok(None))
    case Chunk(id, index, data) =>
      if id !in t then (t, Ok(None))
      else if index >= |t[id].slots| then (t, Err(InvalidClipboardTransfer))
      else
        var p := Fill(t[id], index, data);
        if !Complete(p.slots) then (t[id := p], Ok(None)) else (t - {id}, Verdict(sha, id, p))
    case Ack(_, _, _) =>
      (t, Ok(None))
  }

  class ClipboardAssembler {
    var pending: Table

    constructor ()
      ensures pending == map[]
    {
      pending := map[];
    }

    method Push(sha: Sha256, frame: Frame) returns (r: Outcome)
      modifies this
      ensures (pending, r) == Pushed(sha, old(pending), frame)
    {
      match frame {
        case Begin(id, fingerprint, kind, contentLen, chunkCount, hash) =>
          if id !in pending && |pending| >= MAX_PENDING_CLIPBOARD_TRANSFERS {
            return Err(InvalidClipboardTransfer);
          }
          if id in pending && SameTransfer(pending[id], frame) {
            // retransmitted: keep the chunks already received
          } else {
            pending := pending[id := Pending(fingerprint, kind, contentLen, hash, seq(chunkCount, _ => None))];
          }
          return Ok(None);
        case Chunk(id, index, data) =>
          if id !in pending {
            return Ok(None);
          }
          var p := pending[id];
          if index >= |p.slots| {
            return Err(InvalidClipboardTransfer);
          }
          if p.slots[index].None? {
            p := p.(slots := p.slots[index := Some(data)]);
          }
          pending := pending[id := p];
          if exists i :: 0 <= i < |p.slots| && p.slots[i].None? {
            return Ok(None);
          }
          var bytes := [];
          for i := 0 to |p.slots|
            invariant bytes == Joined(Contents(p.slots)[..i])
          {
            bytes := bytes + p.slots[i].value;
            assert Contents(p.slots)[..i + 1][..i] == Contents(p.slots)[..i];
          }
          assert Contents(p.slots)[..|p.slots|] == Contents(p.slots);
          pending := pending - {id};
          assert pending == old(pending) - {id};
          if |bytes| != p.contentLen {
            return Err(InvalidClipboardTransfer);
          }
          if sha(bytes) != p.hash {
            return Err(ClipboardHashMismatch);
          }
          return Ok(Some(Transfer(id, p.fingerprint, p.kind, bytes, p.hash)));
        case Ack(_, _, _) =>
          return Ok(None);
      }
    }
  }
}
