/**
 The datagram codec of the reliable clipboard transfer: three frame kinds, an encoder that pushes
 fields into a growing buffer and a decoder that advances a cursor over an untrusted datagram.

 UTF-8 validity of a fingerprint is a parameter (`utf8`), so every statement holds for any notion
 of validity; an in-memory fingerprint is the byte sequence of a Rust `String`.
 */
module ClipboardFrames {
  import opened Wrappers
  import opened Bytes

  const MAX_CLIPBOARD_SIZE: nat := 2 * 1024 * 1024
  const MAX_CLIPBOARD_TRANSFER_SIZE: nat := 64 * 1024 * 1024
  const MAX_CLIPBOARD_DATAGRAM_SIZE: nat := 1200
  const CLIPBOARD_CHUNK_SIZE: nat := 1120
  const MAX_FINGERPRINT_SIZE: nat := 256

  // Discriminants of the event-type byte that opens every datagram.
  const CLIPBOARD_BEGIN: byte := 17
  const CLIPBOARD_CHUNK: byte := 18
  const CLIPBOARD_ACK: byte := 19
  const EVENT_TYPE_COUNT: nat := 20

  datatype ProtocolError =
    | InvalidEventId(tag: byte)
    | InvalidPosition(pos: byte)
    | ClipboardTooLarge(size: nat)
    | InvalidUtf8
    | InvalidClipboardTransfer
    | InvalidClipboardKind
    | ClipboardHashMismatch
    | BufferTooSmall

  datatype Kind = Text | ImagePng | FilesArchive

  type Hash = h: seq<byte> | |h| == 32 witness seq(32, _ => 0)

  datatype Frame =
    | Begin(id: u64, fingerprint: seq<byte>, kind: Kind, contentLen: u32, chunkCount: u32, hash: Hash)
    | Chunk(id: u64, index: u32, data: seq<byte>)
    | Ack(id: u64, hash: Hash, accepted: bool)

  type Utf8 = seq<byte> -> bool

  function MaxClipboardSize(kind: Kind): nat {
    match kind
    case Text => MAX_CLIPBOARD_SIZE
    case ImagePng | FilesArchive => MAX_CLIPBOARD_TRANSFER_SIZE
  }

  /** `len.div_ceil(CLIPBOARD_CHUNK_SIZE).max(1)` */
  function ChunkCount(len: nat): (n: nat)
    ensures n >= 1
    ensures (n - 1) * CLIPBOARD_CHUNK_SIZE <= len <= n * CLIPBOARD_CHUNK_SIZE
    ensures len > 0 ==> (n - 1) * CLIPBOARD_CHUNK_SIZE < len
  {
    if len == 0 then 1 else (len + CLIPBOARD_CHUNK_SIZE - 1) / CLIPBOARD_CHUNK_SIZE
  }

  function KindByte(kind: Kind): byte {
    match kind
    case Text => 0
    case ImagePng => 1
    case FilesArchive => 2
  }

  function KindOf(b: byte): Result<Kind, ProtocolError> {
    if b == 0 then Ok(Text) else if b == 1 then Ok(ImagePng) else if b == 2 then Ok(FilesArchive)
    else Err(InvalidClipboardKind)
  }

  function U64Bytes(n: u64): (s: seq<byte>)
    ensures |s| == 8
  {
    WidthLimits();
    ToBigEndian(n, 8)
  }

  function U32Bytes(n: u32): (s: seq<byte>)
    ensures |s| == 4
  {
    WidthLimits();
    ToBigEndian(n, 4)
  }

  function U16Bytes(n: u16): (s: seq<byte>)
    ensures |s| == 2
  {
    WidthLimits();
    ToBigEndian(n, 2)
  }

  /** The size limits under which a frame has a wire layout at all. */
  predicate Fits(f: Frame) {
    && (f.Begin? ==> |f.fingerprint| <= MAX_FINGERPRINT_SIZE)
    && (f.Chunk? ==> |f.data| <= CLIPBOARD_CHUNK_SIZE)
  }

  /** Field-by-field wire layout; `flag` is the last byte of an Ack. */
  function Layout(f: Frame, flag: byte): (b: seq<byte>)
    requires Fits(f)
    ensures f.Begin? ==> |b| == 52 + |f.fingerprint|
    ensures f.Chunk? ==> |b| == 15 + |f.data|
    ensures f.Ack? ==> |b| == 42
    ensures 0 < |b| <= MAX_CLIPBOARD_DATAGRAM_SIZE
  {
    match f
    case Begin(id, fp, kind, len, count, hash) =>
      [CLIPBOARD_BEGIN] + ([KindByte(kind)] + (U64Bytes(id) +
      (U16Bytes(|fp|) + (fp + (U32Bytes(len) + (U32Bytes(count) + hash))))))
    case Chunk(id, index, data) =>
      [CLIPBOARD_CHUNK] + (U64Bytes(id) + (U32Bytes(index) + (U16Bytes(|data|) + data)))
    case Ack(id, hash, _) =>
      [CLIPBOARD_ACK] + (U64Bytes(id) + (hash + [flag]))
  }

  /** What the decoder demands of a frame beyond its layout. */
  ghost predicate Accepted(utf8: Utf8, f: Frame) {
    && Fits(f)
    && (f.Begin? ==>
          && utf8(f.fingerprint)
          && f.contentLen <= MaxClipboardSize(f.kind)
          && f.chunkCount == ChunkCount(f.contentLen))
  }

  /**
   `b` is one of the datagrams that stand for `f`. An Ack has 256 of them only in its flag byte:
   zero for a rejection, anything else for an acceptance.
   */
  ghost predicate WireForm(utf8: Utf8, f: Frame, b: seq<byte>) {
    && Accepted(utf8, f)
    && exists flag: byte :: b == Layout(f, flag) && (f.Ack? ==> f.accepted == (flag != 0))
  }

  //
  // Encoding
  //

  function EncodeFrame(f: Frame): Result<seq<byte>, ProtocolError> {
    match f
    case Begin(_, fp, kind, len, count, _) =>
      if |fp| > MAX_FINGERPRINT_SIZE || len > MaxClipboardSize(kind) || count == 0
      then Err(InvalidClipboardTransfer) else Ok(Layout(f, 0))
    case Chunk(_, _, data) =>
      if |data| > CLIPBOARD_CHUNK_SIZE then Err(ClipboardTooLarge(|data|)) else Ok(Layout(f, 0))
    case Ack(_, _, accepted) =>
      Ok(Layout(f, if accepted then 1 else 0))
  }

  lemma Append(buf: seq<byte>, field: seq<byte>, rest: seq<byte>)
    ensures (buf + field) + rest == buf + (field + rest)
  {
  }

  /** The encoder as written: pushes into `buf` and checks the datagram size at the end. */
  method EncodeClipboardFrame(frame: Frame) returns (r: Result<seq<byte>, ProtocolError>)
    ensures r == EncodeFrame(frame)
  {
    var buf: seq<byte>;
    match frame {
      case Begin(_, fp, kind, len, count, _) =>
        if |fp| > MAX_FINGERPRINT_SIZE || len > MaxClipboardSize(kind) || count == 0 {
          return Err(InvalidClipboardTransfer);
        }
        buf := PushBegin(frame);
      case Chunk(id, index, data) =>
        if |data| > CLIPBOARD_CHUNK_SIZE {
          return Err(ClipboardTooLarge(|data|));
        }
        buf := PushChunk(frame);
      case Ack(id, hash, accepted) =>
        buf := [CLIPBOARD_ACK];
        buf := buf + U64Bytes(id);
        buf := buf + hash;
        buf := buf + [if accepted then 1 else 0];
        assert buf == Layout(frame, if accepted then 1 else 0);
    }
    if |buf| > MAX_CLIPBOARD_DATAGRAM_SIZE {
      assert false;  // the field limits above keep every datagram below this
    }
    return Ok(buf);
  }

  method PushBegin(frame: Frame) returns (buf: seq<byte>)
    requires frame.Begin? && Fits(frame)
    ensures buf == Layout(frame, 0)
  {
    var Begin(id, fp, kind, len, count, hash) := frame;
    ghost var rest5 := U32Bytes(count) + hash;
    ghost var rest4 := U32Bytes(len) + rest5;
    ghost var rest3 := fp + rest4;
    ghost var rest2 := U16Bytes(|fp|) + rest3;
    ghost var rest1 := U64Bytes(id) + rest2;
    ghost var rest0 := [KindByte(kind)] + rest1;
    buf := [CLIPBOARD_BEGIN];
    ghost var whole := buf + rest0;
    Append(buf, [KindByte(kind)], rest1);
    buf := buf + [KindByte(kind)];
    Append(buf, U64Bytes(id), rest2);
    buf := buf + U64Bytes(id);
    Append(buf, U16Bytes(|fp|), rest3);
    buf := buf + U16Bytes(|fp|);
    Append(buf, fp, rest4);
    buf := buf + fp;
    Append(buf, U32Bytes(len), rest5);
    buf := buf + U32Bytes(len);
    Append(buf, U32Bytes(count), hash);
    buf := buf + U32Bytes(count);
    buf := buf + hash;
    assert buf == whole;
  }

  method PushChunk(frame: Frame) returns (buf: seq<byte>)
    requires frame.Chunk? && Fits(frame)
    ensures buf == Layout(frame, 0)
  {
    var Chunk(id, index, data) := frame;
    ghost var rest2 := U16Bytes(|data|) + data;
    ghost var rest1 := U32Bytes(index) + rest2;
    buf := [CLIPBOARD_CHUNK];
    ghost var whole := buf + (U64Bytes(id) + rest1);
    Append(buf, U64Bytes(id), rest1);
    buf := buf + U64Bytes(id);
    Append(buf, U32Bytes(index), rest2);
    buf := buf + U32Bytes(index);
    Append(buf, U16Bytes(|data|), data);
    buf := buf + U16Bytes(|data|);
    buf := buf + data;
    assert buf == whole;
  }

  //
  // Decoding
  //

  /** The next `n` bytes of the unread input and what follows them. */
  function Take(rest: seq<byte>, n: nat): Result<(seq<byte>, seq<byte>), ProtocolError> {
    if |rest| < n then Err(BufferTooSmall) else Ok((rest[..n], rest[n..]))
  }

  function TakeUint(rest: seq<byte>, width: nat): (r: Result<(nat, seq<byte>), ProtocolError>)
    ensures r.Ok? ==> r.value.0 < Pow256(width)
  {
    var (bytes, rest') :- Take(rest, width);
    Ok((FromBigEndian(bytes), rest'))
  }

  function TakeU8(rest: seq<byte>): Result<(byte, seq<byte>), ProtocolError> {
    if rest == [] then Err(BufferTooSmall) else Ok((rest[0], rest[1..]))
  }

  function TakeU16(rest: seq<byte>): Result<(u16, seq<byte>), ProtocolError> {
    WidthLimits();
    TakeUint(rest, 2)
  }

  function TakeU32(rest: seq<byte>): Result<(u32, seq<byte>), ProtocolError> {
    WidthLimits();
    TakeUint(rest, 4)
  }

  function TakeU64(rest: seq<byte>): Result<(u64, seq<byte>), ProtocolError> {
    WidthLimits();
    TakeUint(rest, 8)
  }

  lemma TakeInverse(head: seq<byte>, tail: seq<byte>)
    ensures Take(head + tail, |head|) == Ok((head, tail))
  {
    assert (head + tail)[..|head|] == head;
    assert (head + tail)[|head|..] == tail;
  }

  lemma TakeUintInverse(n: nat, width: nat, tail: seq<byte>)
    requires n < Pow256(width)
    ensures TakeUint(ToBigEndian(n, width) + tail, width) == Ok((n, tail))
  {
    TakeInverse(ToBigEndian(n, width), tail);
    BigEndianRoundTrip(n, width);
  }

  lemma TakeU16Inverse(n: u16, tail: seq<byte>)
    ensures TakeU16(U16Bytes(n) + tail) == Ok((n, tail))
  {
    WidthLimits();
    TakeUintInverse(n, 2, tail);
  }

  lemma TakeU32Inverse(n: u32, tail: seq<byte>)
    ensures TakeU32(U32Bytes(n) + tail) == Ok((n, tail))
  {
    WidthLimits();
    TakeUintInverse(n, 4, tail);
  }

  lemma TakeU64Inverse(n: u64, tail: seq<byte>)
    ensures TakeU64(U64Bytes(n) + tail) == Ok((n, tail))
  {
    WidthLimits();
    TakeUintInverse(n, 8, tail);
  }

  lemma TakeUintSplits(rest: seq<byte>, width: nat)
    requires TakeUint(rest, width).Ok?
    ensures rest == ToBigEndian(TakeUint(rest, width).value.0, width) + TakeUint(rest, width).value.1
  {
    BigEndianUnique(rest[..width]);
    assert rest == rest[..width] + rest[width..];
  }

  lemma TakeU16Splits(rest: seq<byte>)
    requires TakeU16(rest).Ok?
    ensures rest == U16Bytes(TakeU16(rest).value.0) + TakeU16(rest).value.1
  {
    TakeUintSplits(rest, 2);
  }

  lemma TakeU32Splits(rest: seq<byte>)
    requires TakeU32(rest).Ok?
    ensures rest == U32Bytes(TakeU32(rest).value.0) + TakeU32(rest).value.1
  {
    TakeUintSplits(rest, 4);
  }

  lemma TakeU64Splits(rest: seq<byte>)
    requires TakeU64(rest).Ok?
    ensures rest == U64Bytes(TakeU64(rest).value.0) + TakeU64(rest).value.1
  {
    TakeUintSplits(rest, 8);
  }

  function DecodeBegin(utf8: Utf8, rest0: seq<byte>): Result<Frame, ProtocolError> {
    var (kindByte, rest1) :- TakeU8(rest0);
    var kind :- KindOf(kindByte);
    var (id, rest2) :- TakeU64(rest1);
    DecodeFingerprint(utf8, kind, id, rest2)
  }

  function DecodeFingerprint(utf8: Utf8, kind: Kind, id: u64, rest2: seq<byte>): Result<Frame, ProtocolError> {
    var (fpLen, rest3) :- TakeU16(rest2);
    if fpLen > MAX_FINGERPRINT_SIZE || |rest3| < fpLen then Err(InvalidClipboardTransfer) else
    var fp := rest3[..fpLen];
    if !utf8(fp) then Err(InvalidUtf8) else DecodeGeometry(kind, id, fp, rest3[fpLen..])
  }

  /** The fixed-size end of a Begin: content length, chunk count and hash. */
  function DecodeGeometry(kind: Kind, id: u64, fp: seq<byte>, rest0: seq<byte>): Result<Frame, ProtocolError> {
    var (len, rest1) :- TakeU32(rest0);
    var (count, rest2) :- TakeU32(rest1);
    var (hash, rest3) :- Take(rest2, 32);
    if rest3 != [] then Err(InvalidClipboardTransfer)
    else if len > MaxClipboardSize(kind) || count == 0 || count != ChunkCount(len) then Err(InvalidClipboardTransfer)
    else Ok(Begin(id, fp, kind, len, count, hash))
  }

  function DecodeChunk(rest0: seq<byte>): Result<Frame, ProtocolError> {
    var (id, rest1) :- TakeU64(rest0);
    var (index, rest2) :- TakeU32(rest1);
    var (len, rest3) :- TakeU16(rest2);
    if len > CLIPBOARD_CHUNK_SIZE || |rest3| != len then Err(InvalidClipboardTransfer)
    else Ok(Chunk(id, index, rest3))
  }

  function DecodeAck(rest0: seq<byte>): Result<Frame, ProtocolError> {
    var (id, rest1) :- TakeU64(rest0);
    var (hash, rest2) :- Take(rest1, 32);
    var (flag, rest3) :- TakeU8(rest2);
    if rest3 != [] then Err(InvalidClipboardTransfer) else Ok(Ack(id, hash, flag != 0))
  }

  function DecodeFrame(utf8: Utf8, b: seq<byte>): Result<Frame, ProtocolError> {
    if b == [] || |b| > MAX_CLIPBOARD_DATAGRAM_SIZE then Err(BufferTooSmall)
    else if b[0] >= EVENT_TYPE_COUNT then Err(InvalidEventId(b[0]))
    else if b[0] == CLIPBOARD_BEGIN then DecodeBegin(utf8, b[1..])
    else if b[0] == CLIPBOARD_CHUNK then DecodeChunk(b[1..])
    else if b[0] == CLIPBOARD_ACK then DecodeAck(b[1..])
    else Err(InvalidClipboardTransfer)
  }

  lemma DecodeGeometryLayout(f: Frame)
    requires f.Begin? && f.contentLen <= MaxClipboardSize(f.kind) && f.chunkCount == ChunkCount(f.contentLen)
    ensures DecodeGeometry(f.kind, f.id, f.fingerprint,
             U32Bytes(f.contentLen) + (U32Bytes(f.chunkCount) + f.hash)) == Ok(f)
  {
    TakeU32Inverse(f.contentLen, U32Bytes(f.chunkCount) + f.hash);
    TakeU32Inverse(f.chunkCount, f.hash);
    assert Take(f.hash, 32).value.0 == f.hash && Take(f.hash, 32).value.1 == [];
  }

  lemma DecodeBeginLayout(utf8: Utf8, f: Frame)
    requires f.Begin? && Accepted(utf8, f)
    ensures DecodeFrame(utf8, Layout(f, 0)) == Ok(f)
  {
    var Begin(id, fp, kind, len, count, hash) := f;
    var rest3 := U32Bytes(len) + (U32Bytes(count) + hash);
    var rest2 := fp + rest3;
    var rest1 := U16Bytes(|fp|) + rest2;
    var rest0 := U64Bytes(id) + rest1;
    TakeInverse([CLIPBOARD_BEGIN], [KindByte(kind)] + rest0);
    TakeInverse([KindByte(kind)], rest0);
    TakeU64Inverse(id, rest1);
    TakeU16Inverse(|fp|, rest2);
    TakeInverse(fp, rest3);
    DecodeGeometryLayout(f);
  }

  lemma DecodeLayout(utf8: Utf8, f: Frame, flag: byte)
    requires Accepted(utf8, f)
    ensures DecodeFrame(utf8, Layout(f, flag)) == Ok(if f.Ack? then f.(accepted := flag != 0) else f)
  {
    match f
    case Begin(_, _, _, _, _, _) =>
      DecodeBeginLayout(utf8, f);
    case Chunk(id, index, data) =>
      var rest2 := U16Bytes(|data|) + data;
      var rest1 := U32Bytes(index) + rest2;
      TakeInverse([CLIPBOARD_CHUNK], U64Bytes(id) + rest1);
      TakeU64Inverse(id, rest1);
      TakeU32Inverse(index, rest2);
      TakeU16Inverse(|data|, data);
    case Ack(id, hash, _) =>
      TakeInverse([CLIPBOARD_ACK], U64Bytes(id) + (hash + [flag]));
      TakeU64Inverse(id, hash + [flag]);
      TakeInverse(hash, [flag]);
  }

  lemma DecodedGeometry(kind: Kind, id: u64, fp: seq<byte>, rest0: seq<byte>)
    requires DecodeGeometry(kind, id, fp, rest0).Ok?
    ensures var f := DecodeGeometry(kind, id, fp, rest0).value;
            f.Begin? && rest0 == U32Bytes(f.contentLen) + (U32Bytes(f.chunkCount) + f.hash)
  {
    var rest1 := TakeU32(rest0).value.1;
    TakeU32Splits(rest0);
    TakeU32Splits(rest1);
    var (hash, rest3) := Take(TakeU32(rest1).value.1, 32).value;
    assert TakeU32(rest1).value.1 == hash + rest3 == hash;
  }

  lemma DecodedBegin(utf8: Utf8, b: seq<byte>)
    requires |b| > 0 && b[0] == CLIPBOARD_BEGIN && DecodeFrame(utf8, b).Ok?
    ensures var f := DecodeFrame(utf8, b).value; f.Begin? && Accepted(utf8, f) && b == Layout(f, 0)
  {
    var rest1 := b[2..];
    assert b[1..][1..] == rest1;
    var rest2 := TakeU64(rest1).value.1;
    var (fpLen, rest3) := TakeU16(rest2).value;
    TakeU64Splits(rest1);
    TakeU16Splits(rest2);
    DecodedGeometry(KindOf(b[1]).value, TakeU64(rest1).value.0, rest3[..fpLen], rest3[fpLen..]);
    assert rest3 == rest3[..fpLen] + rest3[fpLen..];
    assert b == [b[0]] + ([b[1]] + rest1);
  }

  lemma DecodedChunk(utf8: Utf8, b: seq<byte>)
    requires |b| > 0 && b[0] == CLIPBOARD_CHUNK && DecodeFrame(utf8, b).Ok?
    ensures var f := DecodeFrame(utf8, b).value; f.Chunk? && Accepted(utf8, f) && b == Layout(f, 0)
  {
    TakeU64Splits(b[1..]);
    var rest1 := TakeU64(b[1..]).value.1;
    TakeU32Splits(rest1);
    TakeU16Splits(TakeU32(rest1).value.1);
    assert b == [b[0]] + b[1..];
  }

  lemma DecodedAck(utf8: Utf8, b: seq<byte>)
    requires |b| > 0 && b[0] == CLIPBOARD_ACK && DecodeFrame(utf8, b).Ok?
    ensures |b| == 42
    ensures var f := DecodeFrame(utf8, b).value; f.Ack? && f.accepted == (b[41] != 0) && b == Layout(f, b[41])
  {
    TakeU64Splits(b[1..]);
    var rest1 := TakeU64(b[1..]).value.1;
    var (hash, rest2) := Take(rest1, 32).value;
    assert rest1 == hash + rest2 && rest2 == [rest2[0]];
    assert b == [b[0]] + b[1..];
    assert b == Layout(DecodeFrame(utf8, b).value, rest2[0]);
  }

  /** The decoder accepts exactly the wire forms, and reads from each the one frame it stands for. */
  lemma DecodeExact(utf8: Utf8, b: seq<byte>, f: Frame)
    ensures DecodeFrame(utf8, b) == Ok(f) <==> WireForm(utf8, f, b)
  {
    if WireForm(utf8, f, b) {
      var flag: byte :| b == Layout(f, flag) && (f.Ack? ==> f.accepted == (flag != 0));
      DecodeLayout(utf8, f, flag);
    }
    if DecodeFrame(utf8, b) == Ok(f) {
      if b[0] == CLIPBOARD_BEGIN {
        DecodedBegin(utf8, b);
      } else if b[0] == CLIPBOARD_CHUNK {
        DecodedChunk(utf8, b);
      } else {
        DecodedAck(utf8, b);
      }
    }
  }

  /**
   Round trip, with the exact condition under which the encoder's output is decoded back: the encoder
   lets any nonzero chunk count through, the decoder only the one that fits the content length.
   */
  lemma EncodeThenDecode(utf8: Utf8, f: Frame)
    requires EncodeFrame(f).Ok?
    requires f.Begin? ==> utf8(f.fingerprint)
    ensures DecodeFrame(utf8, EncodeFrame(f).value) == Ok(f)
            <==> (f.Begin? ==> f.chunkCount == ChunkCount(f.contentLen))
    ensures f.Begin? && f.chunkCount != ChunkCount(f.contentLen) ==> DecodeFrame(utf8, EncodeFrame(f).value).Err?
  {
    var b := EncodeFrame(f).value;
    if Accepted(utf8, f) {
      DecodeLayout(utf8, f, if f.Ack? && f.accepted then 1 else 0);
    } else if DecodeFrame(utf8, b).Ok? {
      DecodedBegin(utf8, b);
      SameLayoutSameCount(f, DecodeFrame(utf8, b).value);
    }
  }

  lemma SameLayoutSameCount(f: Frame, g: Frame)
    requires f.Begin? && g.Begin? && Fits(f) && Fits(g) && Layout(f, 0) == Layout(g, 0)
    ensures f.chunkCount == g.chunkCount && f.contentLen == g.contentLen
  {
    WidthLimits();
    var b, n := Layout(f, 0), |f.fingerprint|;
    assert b[12 + n..16 + n] == U32Bytes(f.contentLen) == U32Bytes(g.contentLen);
    assert b[16 + n..20 + n] == U32Bytes(f.chunkCount) == U32Bytes(g.chunkCount);
    BigEndianRoundTrip(f.contentLen, 4);
    BigEndianRoundTrip(g.contentLen, 4);
    BigEndianRoundTrip(f.chunkCount, 4);
    BigEndianRoundTrip(g.chunkCount, 4);
  }

  /** A Begin that the encoder accepts and the decoder rejects. */
  lemma WrongCountIsEncodedButRejected(utf8: Utf8, hash: Hash)
    requires utf8([])
    ensures var f := Begin(0, [], Text, 0, 2, hash);
            EncodeFrame(f).Ok? && DecodeFrame(utf8, EncodeFrame(f).value).Err?
  {
    EncodeThenDecode(utf8, Begin(0, [], Text, 0, 2, hash));
  }

  /**
   Re-encoding an accepted datagram gives it back, for Begin and Chunk byte for byte; an Ack comes back
   with its flag byte normalised to 0 or 1.
   */
  lemma DecodeThenEncode(utf8: Utf8, b: seq<byte>)
    requires DecodeFrame(utf8, b).Ok?
    ensures var f := DecodeFrame(utf8, b).value;
            EncodeFrame(f) == Ok(if f.Ack? then b[..41] + [if b[41] != 0 then 1 else 0] else b)
    ensures DecodeFrame(utf8, b).value.Ack? ==> |b| == 42
  {
    var f := DecodeFrame(utf8, b).value;
    if b[0] == CLIPBOARD_BEGIN {
      DecodedBegin(utf8, b);
    } else if b[0] == CLIPBOARD_CHUNK {
      DecodedChunk(utf8, b);
    } else {
      DecodedAck(utf8, b);
      var e := if f.accepted then 1 else 0;
      assert Layout(f, e) == Layout(f, b[41])[..41] + [e];
    }
  }

  //
  // The decoder as written, over a cursor into the whole buffer
  //

  method ReadArray(buf: seq<byte>, cursor: nat, n: nat)
    returns (r: Result<seq<byte>, ProtocolError>, next: nat)
    requires cursor <= |buf|
    ensures cursor <= next <= |buf|
    ensures r.Ok? ==> Take(buf[cursor..], n) == Ok((r.value, buf[next..])) && |r.value| == n
    ensures r.Err? ==> Take(buf[cursor..], n) == Err(r.error) && next == cursor
  {
    if |buf| < cursor + n {
      return Err(BufferTooSmall), cursor;
    }
    assert buf[cursor..][..n] == buf[cursor..cursor + n];
    return Ok(buf[cursor..cursor + n]), cursor + n;
  }

  method ReadU8(buf: seq<byte>, cursor: nat) returns (r: Result<byte, ProtocolError>, next: nat)
    requires cursor <= |buf|
    ensures cursor <= next <= |buf|
    ensures r.Ok? ==> TakeU8(buf[cursor..]) == Ok((r.value, buf[next..]))
    ensures r.Err? ==> TakeU8(buf[cursor..]) == Err(r.error)
  {
    var bytes;
    bytes, next := ReadArray(buf, cursor, 1);
    r := if bytes.Err? then Err(bytes.error) else Ok(bytes.value[0]);
  }

  method ReadU16(buf: seq<byte>, cursor: nat) returns (r: Result<u16, ProtocolError>, next: nat)
    requires cursor <= |buf|
    ensures cursor <= next <= |buf|
    ensures r.Ok? ==> TakeU16(buf[cursor..]) == Ok((r.value, buf[next..]))
    ensures r.Err? ==> TakeU16(buf[cursor..]) == Err(r.error)
  {
    WidthLimits();
    var bytes;
    bytes, next := ReadArray(buf, cursor, 2);
    r := if bytes.Err? then Err(bytes.error) else Ok(FromBigEndian(bytes.value));
  }

  method ReadU32(buf: seq<byte>, cursor: nat) returns (r: Result<u32, ProtocolError>, next: nat)
    requires cursor <= |buf|
    ensures cursor <= next <= |buf|
    ensures r.Ok? ==> TakeU32(buf[cursor..]) == Ok((r.value, buf[next..]))
    ensures r.Err? ==> TakeU32(buf[cursor..]) == Err(r.error)
  {
    WidthLimits();
    var bytes;
    bytes, next := ReadArray(buf, cursor, 4);
    r := if bytes.Err? then Err(bytes.error) else Ok(FromBigEndian(bytes.value));
  }

  method ReadU64(buf: seq<byte>, cursor: nat) returns (r: Result<u64, ProtocolError>, next: nat)
    requires cursor <= |buf|
    ensures cursor <= next <= |buf|
    ensures r.Ok? ==> TakeU64(buf[cursor..]) == Ok((r.value, buf[next..]))
    ensures r.Err? ==> TakeU64(buf[cursor..]) == Err(r.error)
  {
    WidthLimits();
    var bytes;
    bytes, next := ReadArray(buf, cursor, 8);
    r := if bytes.Err? then Err(bytes.error) else Ok(FromBigEndian(bytes.value));
  }

  method DecodeBeginAt(utf8: Utf8, buf: seq<byte>, start: nat) returns (r: Result<Frame, ProtocolError>)
    requires start <= |buf|
    ensures r == DecodeBegin(utf8, buf[start..])
  {
    var cursor := start;
    var kindByte, id;
    kindByte, cursor := ReadU8(buf, cursor);
    if kindByte.Err? { return Err(kindByte.error); }
    var kind :- KindOf(kindByte.value);
    id, cursor := ReadU64(buf, cursor);
    if id.Err? { return Err(id.error); }
    r := DecodeFingerprintAt(utf8, kind, id.value, buf, cursor);
  }

  lemma SliceOfSlice(buf: seq<byte>, i: nat, n: nat)
    requires i + n <= |buf|
    ensures buf[i..][..n] == buf[i..i + n] && buf[i..][n..] == buf[i + n..]
  {
  }

  method DecodeFingerprintAt(utf8: Utf8, kind: Kind, id: u64, buf: seq<byte>, start: nat)
    returns (r: Result<Frame, ProtocolError>)
    requires start <= |buf|
    ensures r == DecodeFingerprint(utf8, kind, id, buf[start..])
  {
    var cursor := start;
    var fpLen;
    fpLen, cursor := ReadU16(buf, cursor);
    if fpLen.Err? { return Err(fpLen.error); }
    if fpLen.value > MAX_FINGERPRINT_SIZE || |buf| < cursor + fpLen.value {
      return Err(InvalidClipboardTransfer);
    }
    var fp := buf[cursor..cursor + fpLen.value];
    SliceOfSlice(buf, cursor, fpLen.value);
    if !utf8(fp) { return Err(InvalidUtf8); }
    r := DecodeGeometryAt(kind, id, fp, buf, cursor + fpLen.value);
  }

  method DecodeGeometryAt(kind: Kind, id: u64, fp: seq<byte>, buf: seq<byte>, start: nat)
    returns (r: Result<Frame, ProtocolError>)
    requires start <= |buf|
    ensures r == DecodeGeometry(kind, id, fp, buf[start..])
  {
    var cursor := start;
    var len, count, hash;
    len, cursor := ReadU32(buf, cursor);
    if len.Err? { return Err(len.error); }
    count, cursor := ReadU32(buf, cursor);
    if count.Err? { return Err(count.error); }
    hash, cursor := ReadArray(buf, cursor, 32);
    if hash.Err? { return Err(hash.error); }
    if cursor != |buf| {
      return Err(InvalidClipboardTransfer);
    }
    if len.value > MaxClipboardSize(kind) || count.value == 0 || count.value != ChunkCount(len.value) {
      return Err(InvalidClipboardTransfer);
    }
    return Ok(Begin(id, fp, kind, len.value, count.value, hash.value));
  }

  method DecodeChunkAt(buf: seq<byte>, start: nat) returns (r: Result<Frame, ProtocolError>)
    requires start <= |buf|
    ensures r == DecodeChunk(buf[start..])
  {
    var cursor := start;
    var id, index, len;
    id, cursor := ReadU64(buf, cursor);
    if id.Err? { return Err(id.error); }
    index, cursor := ReadU32(buf, cursor);
    if index.Err? { return Err(index.error); }
    len, cursor := ReadU16(buf, cursor);
    if len.Err? { return Err(len.error); }
    if len.value > CLIPBOARD_CHUNK_SIZE || |buf| != cursor + len.value {
      return Err(InvalidClipboardTransfer);
    }
    return Ok(Chunk(id.value, index.value, buf[cursor..]));
  }

  method DecodeAckAt(buf: seq<byte>, start: nat) returns (r: Result<Frame, ProtocolError>)
    requires start <= |buf|
    ensures r == DecodeAck(buf[start..])
  {
    var cursor := start;
    var id, hash, flag;
    id, cursor := ReadU64(buf, cursor);
    if id.Err? { return Err(id.error); }
    hash, cursor := ReadArray(buf, cursor, 32);
    if hash.Err? { return Err(hash.error); }
    flag, cursor := ReadU8(buf, cursor);
    if flag.Err? { return Err(flag.error); }
    if cursor != |buf| {
      return Err(InvalidClipboardTransfer);
    }
    return Ok(Ack(id.value, hash.value, flag.value != 0));
  }

  /** Total on every datagram: each read below is guarded, so no slice is ever out of range. */
  method DecodeClipboardFrame(utf8: Utf8, buf: seq<byte>) returns (r: Result<Frame, ProtocolError>)
    ensures r == DecodeFrame(utf8, buf)
  {
    if |buf| == 0 || |buf| > MAX_CLIPBOARD_DATAGRAM_SIZE {
      return Err(BufferTooSmall);
    }
    if buf[0] >= EVENT_TYPE_COUNT {
      return Err(InvalidEventId(buf[0]));
    }
    if buf[0] == CLIPBOARD_BEGIN {
      r := DecodeBeginAt(utf8, buf, 1);
    } else if buf[0] == CLIPBOARD_CHUNK {
      r := DecodeChunkAt(buf, 1);
    } else if buf[0] == CLIPBOARD_ACK {
      r := DecodeAckAt(buf, 1);
    } else {
      r := Err(InvalidClipboardTransfer);
    }
  }
}
