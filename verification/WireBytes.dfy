/**
 The two wire formats by the numbers: which byte stands where, and which datagrams are refused for which reason. The
 formats are read here at fixed offsets, not through the tables and cursors of the codecs.
 */
module WireBytes {
  import opened Wrappers
  import opened Bytes
  import opened Positions
  import F = ClipboardFrames
  import C = EventCodec

  /** The unsigned integer stored in `width` bytes at `at`. */
  function Number(b: seq<byte>, at: nat, width: nat): (n: nat)
    requires at + width <= |b|
    ensures n < Pow256(width)
  {
    FromBigEndian(b[at..at + width])
  }

  //
  // Events
  //

  function Side(pos: Position): byte {
    match pos
    case Left => 0
    case Right => 1
    case Top => 2
    case Bottom => 3
  }

  /** Two's complement. */
  function Unsigned(n: C.i32): u32 {
    if n < 0 then 0x1_0000_0000 + n else n
  }

  /** The bytes of an event: its type, then its fields, most significant byte first. */
  function EventBytes(e: C.ProtoEvent): seq<byte>
    requires !e.Clipboard?
  {
    WidthLimits();
    match e
    case PointerMotion(time, dx, dy) => [0] + (ToBigEndian(time, 4) + (ToBigEndian(dx, 8) + ToBigEndian(dy, 8)))
    case PointerButton(time, button, state) =>
      [1] + (ToBigEndian(time, 4) + (ToBigEndian(button, 4) + ToBigEndian(state, 4)))
    case PointerAxis(time, axis, value, momentum) =>
      [2] + (ToBigEndian(time, 4) + ([axis] + (ToBigEndian(value, 8) + [if momentum then 1 else 0])))
    case PointerAxisValue120(axis, value) => [3] + ([axis] + ToBigEndian(Unsigned(value), 4))
    case KeyboardKey(time, key, state) => [4] + (ToBigEndian(time, 4) + (ToBigEndian(key, 4) + [state]))
    case KeyboardModifiers(depressed, latched, locked, group) =>
      [5] + (ToBigEndian(depressed, 4) + (ToBigEndian(latched, 4) + (ToBigEndian(locked, 4) + ToBigEndian(group, 4))))
    case Ping => [6]
    case Pong(alive) => [7] + [if alive then 1 else 0]
    case Enter(pos) => [8] + [Side(pos)]
    case Leave(serial) => [9] + ToBigEndian(serial, 4)
    case Ack(serial) => [10] + ToBigEndian(serial, 4)
    case Bounds(width, height) => [11] + (ToBigEndian(width, 4) + ToBigEndian(height, 4))
    case MotionAbsolute(x, y) => [12] + (ToBigEndian(Unsigned(x), 4) + ToBigEndian(Unsigned(y), 4))
    case CursorPos(pos, nx, ny) => [13] + ([Side(pos)] + (ToBigEndian(nx, 4) + ToBigEndian(ny, 4)))
    case Hello(magic, commit) => [14] + (magic + commit)
    case ReceiverSensitivity(sensitivity) => [15] + ToBigEndian(sensitivity, 8)
  }

  lemma OneByte(n: nat)
    requires n < 256
    ensures n < Pow256(1) && ToBigEndian(n, 1) == [n]
  {
    WidthLimits();
  }

  lemma PackOne(v: seq<nat>, w: seq<nat>)
    requires C.FitWidths(v, w) && |v| == 1
    ensures C.Pack(v, w) == ToBigEndian(v[0], w[0])
  {
    assert C.Pack(v[1..], w[1..]) == [];
  }

  lemma PackTwo(v: seq<nat>, w: seq<nat>)
    requires C.FitWidths(v, w) && |v| == 2
    ensures C.Pack(v, w) == ToBigEndian(v[0], w[0]) + ToBigEndian(v[1], w[1])
  {
    PackOne(v[1..], w[1..]);
  }

  lemma PackThree(v: seq<nat>, w: seq<nat>)
    requires C.FitWidths(v, w) && |v| == 3
    ensures C.Pack(v, w) == ToBigEndian(v[0], w[0]) + (ToBigEndian(v[1], w[1]) + ToBigEndian(v[2], w[2]))
  {
    PackTwo(v[1..], w[1..]);
  }

  lemma PackFour(v: seq<nat>, w: seq<nat>)
    requires C.FitWidths(v, w) && |v| == 4
    ensures C.Pack(v, w)
            == ToBigEndian(v[0], w[0]) + (ToBigEndian(v[1], w[1]) + (ToBigEndian(v[2], w[2]) + ToBigEndian(v[3], w[3])))
  {
    PackThree(v[1..], w[1..]);
  }

  lemma {:induction false} PackBytes(v: seq<byte>, w: seq<nat>)
    requires |v| == |w| && forall i :: 0 <= i < |w| ==> w[i] == 1
    ensures C.FitWidths(v, w) && C.Pack(v, w) == v
  {
    WidthLimits();
    if v != [] {
      OneByte(v[0]);
      PackBytes(v[1..], w[1..]);
    }
  }

  lemma PointerBytes(e: C.ProtoEvent)
    requires e.PointerMotion? || e.PointerButton? || e.PointerAxis? || e.PointerAxisValue120?
    ensures C.Wire(e) == EventBytes(e)
  {
    var v, w := C.Values(e), C.Widths(C.Tag(e));
    C.ValuesFit(e);
    match e
    case PointerMotion(_, _, _) => PackThree(v, w);
    case PointerButton(_, _, _) => PackThree(v, w);
    case PointerAxis(_, axis, _, momentum) =>
      PackFour(v, w);
      OneByte(axis);
      OneByte(if momentum then 1 else 0);
    case PointerAxisValue120(axis, _) =>
      PackTwo(v, w);
      OneByte(axis);
  }

  lemma KeyboardBytes(e: C.ProtoEvent)
    requires e.KeyboardKey? || e.KeyboardModifiers?
    ensures C.Wire(e) == EventBytes(e)
  {
    var v, w := C.Values(e), C.Widths(C.Tag(e));
    C.ValuesFit(e);
    if e.KeyboardKey? {
      PackThree(v, w);
      OneByte(e.state);
    } else {
      PackFour(v, w);
    }
  }

  lemma PositionBytes(e: C.ProtoEvent)
    requires e.Enter? || e.CursorPos?
    ensures C.Wire(e) == EventBytes(e)
  {
    var v, w := C.Values(e), C.Widths(C.Tag(e));
    C.ValuesFit(e);
    OneByte(Side(e.pos));
    if e.Enter? {
      PackOne(v, w);
    } else {
      PackThree(v, w);
    }
  }

  lemma PlainBytes(e: C.ProtoEvent)
    requires e.Ping? || e.Pong? || e.Leave? || e.Ack? || e.ReceiverSensitivity?
    ensures C.Wire(e) == EventBytes(e)
  {
    var v, w := C.Values(e), C.Widths(C.Tag(e));
    C.ValuesFit(e);
    if e.Pong? {
      OneByte(if e.alive then 1 else 0);
    }
    if !e.Ping? {
      PackOne(v, w);
    }
  }

  lemma PairBytes(e: C.ProtoEvent)
    requires e.Bounds? || e.MotionAbsolute?
    ensures C.Wire(e) == EventBytes(e)
  {
    C.ValuesFit(e);
    PackTwo(C.Values(e), C.Widths(C.Tag(e)));
  }

  /** The encoder's table of tags, widths and values lays every event out in just these bytes. */
  lemma WireIsEventBytes(e: C.ProtoEvent)
    requires !e.Clipboard?
    ensures C.Wire(e) == EventBytes(e)
  {
    match e
    case PointerMotion(_, _, _) => PointerBytes(e);
    case PointerButton(_, _, _) => PointerBytes(e);
    case PointerAxis(_, _, _, _) => PointerBytes(e);
    case PointerAxisValue120(_, _) => PointerBytes(e);
    case KeyboardKey(_, _, _) => KeyboardBytes(e);
    case KeyboardModifiers(_, _, _, _) => KeyboardBytes(e);
    case Enter(_) => PositionBytes(e);
    case CursorPos(_, _, _) => PositionBytes(e);
    case Bounds(_, _) => PairBytes(e);
    case MotionAbsolute(_, _) => PairBytes(e);
    case Hello(magic, commit) => PackBytes(magic + commit, C.Widths(14));
    case _ => PlainBytes(e);
  }

  /** Which buffers are not events, and why: an unknown type, a clipboard type, or a side beyond the fourth. */
  lemma RefusedEvents(b: C.EventBuffer)
    ensures C.Decode(b).Err? <==> b[0] > 15 || ((b[0] == 8 || b[0] == 13) && b[1] > 3)
    ensures b[0] >= 20 ==> C.Decode(b) == Err(F.InvalidEventId(b[0]))
    ensures 16 <= b[0] < 20 ==> C.Decode(b) == Err(F.BufferTooSmall)
    ensures (b[0] == 8 || b[0] == 13) && b[1] > 3 ==> C.Decode(b) == Err(F.InvalidPosition(b[1]))
  {
    C.TagFits(b[0]);
    if b[0] == 8 || b[0] == 13 {
      var w := C.Widths(b[0]);
      OneByte(b[1]);
      BigEndianRoundTrip(b[1], 1);
      assert b[1..][..1] == [b[1]];
      assert C.Unpack(b[1..], w)[0] == b[1];
    }
  }

  //
  // Clipboard datagrams
  //

  /** The smallest number of chunks of 1120 bytes that hold the content, at least one. */
  predicate RightCount(count: nat, content: nat) {
    content <= 1120 * count && (count == 1 || (count > 1 && 1120 * (count - 1) < content))
  }

  /** Why a Begin is refused, its fields read in this order. */
  function RefusedBegin(utf8: F.Utf8, b: seq<byte>): Option<F.ProtocolError>
    requires |b| >= 1
  {
    if |b| < 2 then Some(F.BufferTooSmall)
    else if b[1] > 2 then Some(F.InvalidClipboardKind)
    else if |b| < 12 then Some(F.BufferTooSmall)
    else
      var n := Number(b, 10, 2);
      if n > 256 || |b| < 12 + n then Some(F.InvalidClipboardTransfer)
      else if !utf8(b[12..12 + n]) then Some(F.InvalidUtf8)
      else if |b| < 52 + n then Some(F.BufferTooSmall)
      else if |b| > 52 + n then Some(F.InvalidClipboardTransfer)
      else
        var content, count := Number(b, 12 + n, 4), Number(b, 16 + n, 4);
        if content > (if b[1] == 0 then 2_097_152 else 67_108_864) || !RightCount(count, content)
        then Some(F.InvalidClipboardTransfer) else None
  }

  /** Why a datagram is refused, if it is. */
  function Refused(utf8: F.Utf8, b: seq<byte>): Option<F.ProtocolError> {
    if |b| == 0 || |b| > 1200 then Some(F.BufferTooSmall)
    else if b[0] >= 20 then Some(F.InvalidEventId(b[0]))
    else if b[0] == 17 then RefusedBegin(utf8, b)
    else if b[0] == 18 then
      if |b| < 15 then Some(F.BufferTooSmall)
      else if Number(b, 13, 2) > 1120 || |b| != 15 + Number(b, 13, 2) then Some(F.InvalidClipboardTransfer)
      else None
    else if b[0] == 19 then
      if |b| < 42 then Some(F.BufferTooSmall) else if |b| > 42 then Some(F.InvalidClipboardTransfer) else None
    else Some(F.InvalidClipboardTransfer)
  }

  /** The fields of a frame stand at these offsets. */
  ghost predicate StandsFor(b: seq<byte>, f: F.Frame) {
    match f
    case Begin(id, fingerprint, kind, contentLen, chunkCount, hash) =>
      var n := |fingerprint|;
      && |b| == 52 + n && b[0] == 17
      && b[1] == (match kind
                  case Text => 0
                  case ImagePng => 1
                  case FilesArchive => 2)
      && Number(b, 2, 8) == id && Number(b, 10, 2) == n && b[12..12 + n] == fingerprint
      && Number(b, 12 + n, 4) == contentLen && Number(b, 16 + n, 4) == chunkCount && b[20 + n..] == hash
    case Chunk(id, index, data) =>
      && |b| == 15 + |data| && b[0] == 18
      && Number(b, 1, 8) == id && Number(b, 9, 4) == index && Number(b, 13, 2) == |data| && b[15..] == data
    case Ack(id, hash, accepted) =>
      && |b| == 42 && b[0] == 19
      && Number(b, 1, 8) == id && b[9..41] == hash && accepted == (b[41] != 0)
  }

  lemma TakeAt(b: seq<byte>, at: nat, width: nat)
    requires at <= |b|
    ensures F.TakeUint(b[at..], width)
            == if |b| < at + width then Err(F.BufferTooSmall) else Ok((Number(b, at, width), b[at + width..]))
  {
    if at + width <= |b| {
      assert b[at..][..width] == b[at..at + width];
      assert b[at..][width..] == b[at + width..];
    }
  }

  lemma BytesAt(b: seq<byte>, at: nat, n: nat)
    requires at <= |b|
    ensures F.Take(b[at..], n)
            == if |b| < at + n then Err(F.BufferTooSmall) else Ok((b[at..at + n], b[at + n..]))
  {
    if at + n <= |b| {
      assert b[at..][..n] == b[at..at + n];
      assert b[at..][n..] == b[at + n..];
    }
  }

  lemma RightCountIsTheCeiling(count: nat, content: nat)
    ensures RightCount(count, content) <==> count == F.ChunkCount(content)
  {
  }

  /** A datagram read by its offsets. */
  ghost predicate ReadsAs(r: Result<F.Frame, F.ProtocolError>, b: seq<byte>, refused: Option<F.ProtocolError>) {
    match refused
    case Some(error) => r == Err(error)
    case None => r.Ok? && StandsFor(b, r.value)
  }

  lemma ReadChunk(utf8: F.Utf8, b: seq<byte>)
    requires 0 < |b| <= 1200 && b[0] == 18
    ensures ReadsAs(F.DecodeFrame(utf8, b), b, Refused(utf8, b))
  {
    TakeAt(b, 1, 8);
    if |b| >= 9 {
      TakeAt(b, 9, 4);
    }
    if |b| >= 13 {
      TakeAt(b, 13, 2);
    }
  }

  lemma ReadAck(utf8: F.Utf8, b: seq<byte>)
    requires 0 < |b| <= 1200 && b[0] == 19
    ensures ReadsAs(F.DecodeFrame(utf8, b), b, Refused(utf8, b))
  {
    TakeAt(b, 1, 8);
    if |b| >= 9 {
      BytesAt(b, 9, 32);
    }
  }

  lemma ReadGeometry(kind: F.Kind, id: u64, fp: seq<byte>, b: seq<byte>, at: nat)
    requires at <= |b|
    ensures var r := F.DecodeGeometry(kind, id, fp, b[at..]);
            if |b| < at + 40 then r == Err(F.BufferTooSmall)
            else if |b| > at + 40 then r == Err(F.InvalidClipboardTransfer)
            else
              var content, count := Number(b, at, 4), Number(b, at + 4, 4);
              if content > (if kind.Text? then 2_097_152 else 67_108_864) || !RightCount(count, content)
              then r == Err(F.InvalidClipboardTransfer)
              else r == Ok(F.Begin(id, fp, kind, content, count, b[at + 8..]))
  {
    TakeAt(b, at, 4);
    if |b| >= at + 4 {
      TakeAt(b, at + 4, 4);
    }
    if |b| >= at + 8 {
      BytesAt(b, at + 8, 32);
    }
    if |b| == at + 40 {
      RightCountIsTheCeiling(Number(b, at + 4, 4), Number(b, at, 4));
      assert b[at + 8..at + 40] == b[at + 8..];
    }
  }

  lemma ReadBegin(utf8: F.Utf8, b: seq<byte>)
    requires 0 < |b| <= 1200 && b[0] == 17
    ensures ReadsAs(F.DecodeFrame(utf8, b), b, Refused(utf8, b))
  {
    if |b| >= 2 {
      assert b[1..][1..] == b[2..];
      TakeAt(b, 2, 8);
    }
    if |b| >= 10 {
      TakeAt(b, 10, 2);
    }
    if |b| >= 12 && b[1] <= 2 {
      var n := Number(b, 10, 2);
      if n <= 256 && 12 + n <= |b| {
        assert b[12..][..n] == b[12..12 + n] && b[12..][n..] == b[12 + n..];
        ReadGeometry(F.KindOf(b[1]).value, Number(b, 2, 8), b[12..12 + n], b, 12 + n);
      }
    }
  }

  /** The decoder, its cursor and its order of checks, comes to reading every datagram at these offsets. */
  lemma DecodesByOffset(utf8: F.Utf8, b: seq<byte>)
    ensures ReadsAs(F.DecodeFrame(utf8, b), b, Refused(utf8, b))
  {
    if 0 < |b| <= 1200 && b[0] < 20 {
      if b[0] == 17 {
        ReadBegin(utf8, b);
      } else if b[0] == 18 {
        ReadChunk(utf8, b);
      } else if b[0] == 19 {
        ReadAck(utf8, b);
      }
    }
  }

  /** What the encoder refuses, and why; everything else it lays out at the same offsets, an Ack's flag as 0 or 1. */
  lemma EncodesByOffset(f: F.Frame)
    ensures var r := F.EncodeFrame(f);
            match f
            case Begin(_, fingerprint, kind, contentLen, chunkCount, _) =>
              if |fingerprint| > 256 || contentLen > (if kind.Text? then 2_097_152 else 67_108_864) || chunkCount == 0
              then r == Err(F.InvalidClipboardTransfer) else r.Ok? && StandsFor(r.value, f)
            case Chunk(_, _, data) =>
              if |data| > 1120 then r == Err(F.ClipboardTooLarge(|data|)) else r.Ok? && StandsFor(r.value, f)
            case Ack(_, _, accepted) =>
              r.Ok? && StandsFor(r.value, f) && r.value[41] == if accepted then 1 else 0
  {
    if F.EncodeFrame(f).Ok? {
      match f
      case Begin(_, _, _, _, _, _) => LaysOutBegin(f);
      case Chunk(_, _, _) => LaysOutChunk(f);
      case Ack(id, _, accepted) =>
        var b := F.Layout(f, if accepted then 1 else 0);
        NumberAt(b, 1, id, 8);
    }
  }

  lemma NumberAt(b: seq<byte>, at: nat, n: nat, width: nat)
    requires n < Pow256(width) && at + width <= |b| && b[at..at + width] == ToBigEndian(n, width)
    ensures Number(b, at, width) == n
  {
    BigEndianRoundTrip(n, width);
  }

  lemma LaysOutChunk(f: F.Frame)
    requires f.Chunk? && F.Fits(f)
    ensures StandsFor(F.Layout(f, 0), f)
  {
    WidthLimits();
    var b := F.Layout(f, 0);
    assert b[1..9] == F.U64Bytes(f.id) && b[9..13] == F.U32Bytes(f.index) && b[13..15] == F.U16Bytes(|f.data|);
    NumberAt(b, 1, f.id, 8);
    NumberAt(b, 9, f.index, 4);
    NumberAt(b, 13, |f.data|, 2);
  }

  lemma LaysOutBegin(f: F.Frame)
    requires f.Begin? && F.Fits(f)
    ensures StandsFor(F.Layout(f, 0), f)
  {
    WidthLimits();
    var b, n := F.Layout(f, 0), |f.fingerprint|;
    assert b[2..10] == F.U64Bytes(f.id) && b[10..12] == F.U16Bytes(n);
    assert b[12 + n..16 + n] == F.U32Bytes(f.contentLen) && b[16 + n..20 + n] == F.U32Bytes(f.chunkCount);
    NumberAt(b, 2, f.id, 8);
    NumberAt(b, 10, n, 2);
    NumberAt(b, 12 + n, f.contentLen, 4);
    NumberAt(b, 16 + n, f.chunkCount, 4);
  }
}
