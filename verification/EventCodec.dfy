/**
 The fixed-buffer codec for every event that is not a clipboard payload: a tag byte followed by
 big-endian fields in a zeroed 21-byte buffer. Floating-point fields are their bit patterns, so a
 round trip is bit for bit; signed fields are two's complement.
 */
module EventCodec {
  import opened Wrappers
  import opened Bytes
  import opened Positions
  import Frames = ClipboardFrames

  type ProtocolError = Frames.ProtocolError

  const MAX_EVENT_SIZE: nat := 1 + 4 + 2 * 8

  type i32 = x: int | -0x8000_0000 <= x < 0x8000_0000

  type Octets = s: seq<byte> | |s| == 8 witness seq(8, _ => 0)

  datatype ProtoEvent =
    | PointerMotion(time: u32, dx: u64, dy: u64)
    | PointerButton(time: u32, button: u32, buttonState: u32)
    | PointerAxis(time: u32, axis: byte, value: u64, momentum: bool)
    | PointerAxisValue120(axis: byte, value120: i32)
    | KeyboardKey(time: u32, key: u32, state: byte)
    | KeyboardModifiers(depressed: u32, latched: u32, locked: u32, group: u32)
    | Ping
    | Pong(alive: bool)
    | Enter(pos: Position)
    | Leave(serial: u32)
    | Ack(serial: u32)
    | Bounds(width: u32, height: u32)
    | MotionAbsolute(x: i32, y: i32)
    | CursorPos(pos: Position, nx: u32, ny: u32)
    | Hello(magic: Octets, commit: Octets)
    | ReceiverSensitivity(sensitivity: u64)
    | Clipboard(fingerprint: seq<byte>, content: seq<byte>)

  //
  // The wire format as data: a tag and, per tag, the widths of its fields in order
  //

  function Tag(e: ProtoEvent): byte {
    match e
    case PointerMotion(_, _, _) => 0
    case PointerButton(_, _, _) => 1
    case PointerAxis(_, _, _, _) => 2
    case PointerAxisValue120(_, _) => 3
    case KeyboardKey(_, _, _) => 4
    case KeyboardModifiers(_, _, _, _) => 5
    case Ping => 6
    case Pong(_) => 7
    case Enter(_) => 8
    case Leave(_) => 9
    case Ack(_) => 10
    case Bounds(_, _) => 11
    case MotionAbsolute(_, _) => 12
    case CursorPos(_, _, _) => 13
    case Hello(_, _) => 14
    case ReceiverSensitivity(_) => 15
    case Clipboard(_, _) => 16
  }

  const BYTES16: seq<nat> := [1, 1, 1, 1, 1, 1, 1, 1, 1, 1, 1, 1, 1, 1, 1, 1]

  function Widths(tag: byte): seq<nat> {
    if tag == 0 then [4, 8, 8]
    else if tag == 1 then [4, 4, 4]
    else if tag == 2 then [4, 1, 8, 1]
    else if tag == 3 then [1, 4]
    else if tag == 4 then [4, 4, 1]
    else if tag == 5 then [4, 4, 4, 4]
    else if tag == 7 || tag == 8 then [1]
    else if tag == 9 || tag == 10 then [4]
    else if tag == 11 || tag == 12 then [4, 4]
    else if tag == 13 then [1, 4, 4]
    else if tag == 14 then BYTES16
    else if tag == 15 then [8]
    else []
  }

  function PositionByte(p: Position): byte {
    match p
    case Left => 0
    case Right => 1
    case Top => 2
    case Bottom => 3
  }

  function PositionOf(b: nat): Result<Position, ProtocolError>
    requires b < 256
  {
    if b == 0 then Ok(Left) else if b == 1 then Ok(Right) else if b == 2 then Ok(Top) else if b == 3 then Ok(Bottom)
    else Err(Frames.InvalidPosition(b))
  }

  function BoolByte(b: bool): byte {
    if b then 1 else 0
  }

  /** `n as u32`, the bits of a signed field. */
  function BitsOf(n: i32): u32 {
    if n < 0 then n + 0x1_0000_0000 else n
  }

  function SignedOf(n: u32): i32 {
    if n >= 0x8000_0000 then n - 0x1_0000_0000 else n
  }

  /** The fields the encoder writes after the tag, in order. */
  function Values(e: ProtoEvent): seq<nat> {
    match e
    case PointerMotion(time, dx, dy) => [time, dx, dy]
    case PointerButton(time, button, state) => [time, button, state]
    case PointerAxis(time, axis, value, momentum) => [time, axis, value, BoolByte(momentum)]
    case PointerAxisValue120(axis, value) => [axis, BitsOf(value)]
    case KeyboardKey(time, key, state) => [time, key, state]
    case KeyboardModifiers(depressed, latched, locked, group) => [depressed, latched, locked, group]
    case Ping => []
    case Pong(alive) => [BoolByte(alive)]
    case Enter(pos) => [PositionByte(pos)]
    case Leave(serial) => [serial]
    case Ack(serial) => [serial]
    case Bounds(width, height) => [width, height]
    case MotionAbsolute(x, y) => [BitsOf(x), BitsOf(y)]
    case CursorPos(pos, nx, ny) => [PositionByte(pos), nx, ny]
    case Hello(magic, commit) => magic + commit
    case ReceiverSensitivity(s) => [s]
    case Clipboard(_, _) => []
  }

  ghost predicate FitWidths(values: seq<nat>, widths: seq<nat>) {
    |values| == |widths| && forall i :: 0 <= i < |values| ==> values[i] < Pow256(widths[i])
  }

  /** The event a tag and its fields stand for. */
  function Build(tag: byte, v: seq<nat>): Result<ProtoEvent, ProtocolError>
    requires FitWidths(v, Widths(tag))
  {
    WidthLimits();
    if tag >= Frames.EVENT_TYPE_COUNT then Err(Frames.InvalidEventId(tag))
    else if tag == 0 then Ok(PointerMotion(v[0], v[1], v[2]))
    else if tag == 1 then Ok(PointerButton(v[0], v[1], v[2]))
    else if tag == 2 then Ok(PointerAxis(v[0], v[1], v[2], v[3] != 0))
    else if tag == 3 then Ok(PointerAxisValue120(v[0], SignedOf(v[1])))
    else if tag == 4 then Ok(KeyboardKey(v[0], v[1], v[2]))
    else if tag == 5 then Ok(KeyboardModifiers(v[0], v[1], v[2], v[3]))
    else if tag == 6 then Ok(Ping)
    else if tag == 7 then Ok(Pong(v[0] != 0))
    else if tag == 8 then var pos :- PositionOf(v[0]); Ok(Enter(pos))
    else if tag == 9 then Ok(Leave(v[0]))
    else if tag == 10 then Ok(Ack(v[0]))
    else if tag == 11 then Ok(Bounds(v[0], v[1]))
    else if tag == 12 then Ok(MotionAbsolute(SignedOf(v[0]), SignedOf(v[1])))
    else if tag == 13 then var pos :- PositionOf(v[0]); Ok(CursorPos(pos, v[1], v[2]))
    else if tag == 14 then Ok(Hello(AsOctets(v[..8]), AsOctets(v[8..])))
    else if tag == 15 then Ok(ReceiverSensitivity(v[0]))
    else Err(Frames.BufferTooSmall)
  }

  function AsOctets(v: seq<nat>): Octets
    requires |v| == 8 && forall i :: 0 <= i < 8 ==> v[i] < 256
  {
    seq(8, i requires 0 <= i < 8 => v[i])
  }

  function Sum(widths: seq<nat>): nat {
    if widths == [] then 0 else widths[0] + Sum(widths[1..])
  }

  function Pack(values: seq<nat>, widths: seq<nat>): (b: seq<byte>)
    requires FitWidths(values, widths)
    ensures |b| == Sum(widths)
  {
    if values == [] then [] else ToBigEndian(values[0], widths[0]) + Pack(values[1..], widths[1..])
  }

  function Unpack(b: seq<byte>, widths: seq<nat>): (values: seq<nat>)
    requires Sum(widths) <= |b|
    ensures FitWidths(values, widths)
  {
    if widths == [] then [] else [FromBigEndian(b[..widths[0]])] + Unpack(b[widths[0]..], widths[1..])
  }

  lemma {:induction false} UnpackInvertsPack(values: seq<nat>, widths: seq<nat>, tail: seq<byte>)
    requires FitWidths(values, widths)
    ensures Unpack(Pack(values, widths) + tail, widths) == values
  {
    if values != [] {
      var head, rest := ToBigEndian(values[0], widths[0]), Pack(values[1..], widths[1..]);
      var b := Pack(values, widths) + tail;
      assert b[..widths[0]] == head && b[widths[0]..] == rest + tail;
      BigEndianRoundTrip(values[0], widths[0]);
      UnpackInvertsPack(values[1..], widths[1..], tail);
    }
  }

  lemma UnpackHead(b: seq<byte>, widths: seq<nat>)
    requires widths != [] && Sum(widths) <= |b|
    ensures var v := Unpack(b, widths);
            v[1..] == Unpack(b[widths[0]..], widths[1..]) && ToBigEndian(v[0], widths[0]) == b[..widths[0]]
  {
    BigEndianUnique(b[..widths[0]]);
  }

  lemma {:induction false} PackInvertsUnpack(b: seq<byte>, widths: seq<nat>)
    requires Sum(widths) <= |b|
    ensures Pack(Unpack(b, widths), widths) == b[..Sum(widths)]
  {
    if widths != [] {
      var w, n := widths[0], Sum(widths[1..]);
      PackInvertsUnpack(b[w..], widths[1..]);
      UnpackHead(b, widths);
      calc {
        Pack(Unpack(b, widths), widths);
        b[..w] + Pack(Unpack(b[w..], widths[1..]), widths[1..]);
        b[..w] + b[w..][..n];
        b[..w + n];
      }
    }
  }

  /** Every event fits: tag and fields never exceed the buffer, so no read or write splits past it. */
  lemma TagFits(tag: byte)
    ensures 1 + Sum(Widths(tag)) <= MAX_EVENT_SIZE
  {
    if tag == 14 {
      SumOfOnes(BYTES16);
    } else {
      var w := Widths(tag);
      SumUnrolls(w);
    }
  }

  lemma {:induction false} SumOfOnes(w: seq<nat>)
    requires forall i :: 0 <= i < |w| ==> w[i] == 1
    ensures Sum(w) == |w|
  {
    if w != [] {
      SumOfOnes(w[1..]);
    }
  }

  lemma SumUnrolls(w: seq<nat>)
    requires |w| <= 4
    ensures Sum(w) == (if |w| > 0 then w[0] else 0) + (if |w| > 1 then w[1] else 0)
                      + (if |w| > 2 then w[2] else 0) + (if |w| > 3 then w[3] else 0)
  {
    if |w| > 0 && |w[1..]| > 0 && |w[1..][1..]| > 0 {
      assert Sum(w[1..]) == w[1] + Sum(w[1..][1..]);
      assert Sum(w[1..][1..]) == w[2] + Sum(w[1..][1..][1..]);
    }
  }

  lemma ValuesFit(e: ProtoEvent)
    ensures FitWidths(Values(e), Widths(Tag(e)))
  {
    WidthLimits();
  }

  /** What the encoder puts on the wire. */
  function Wire(e: ProtoEvent): (b: seq<byte>)
    requires !e.Clipboard?
    ensures |b| <= MAX_EVENT_SIZE
  {
    ValuesFit(e);
    TagFits(Tag(e));
    [Tag(e)] + Pack(Values(e), Widths(Tag(e)))
  }

  type EventBuffer = b: seq<byte> | |b| == MAX_EVENT_SIZE witness seq(MAX_EVENT_SIZE, _ => 0)

  function Decode(b: EventBuffer): Result<ProtoEvent, ProtocolError> {
    TagFits(b[0]);
    Build(b[0], Unpack(b[1..], Widths(b[0])))
  }

  lemma BuildInvertsValues(e: ProtoEvent)
    requires !e.Clipboard?
    ensures FitWidths(Values(e), Widths(Tag(e))) && Build(Tag(e), Values(e)) == Ok(e)
  {
    ValuesFit(e);
    if e.Hello? {
      assert AsOctets(Values(e)[..8]) == e.magic && AsOctets(Values(e)[8..]) == e.commit;
    }
  }

  /** Bit-for-bit round trip, whatever follows the encoding in the buffer. */
  lemma DecodeInvertsEncode(e: ProtoEvent, b: EventBuffer)
    requires !e.Clipboard?
    requires b[..|Wire(e)|] == Wire(e)
    ensures Decode(b) == Ok(e)
  {
    var n, w := |Wire(e)|, Widths(Tag(e));
    BuildInvertsValues(e);
    var fields := Pack(Values(e), w);
    assert Wire(e) == [Tag(e)] + fields;
    assert b == Wire(e) + b[n..];
    assert b[0] == Tag(e) && b[1..] == fields + b[n..];
    UnpackInvertsPack(Values(e), w, b[n..]);
  }

  /** The fields that carry a boolean in their last byte. */
  predicate EndsInBool(e: ProtoEvent) {
    e.Pong? || e.PointerAxis?
  }

  lemma {:induction false} PackPrefix(v: seq<nat>, v': seq<nat>, widths: seq<nat>)
    requires FitWidths(v, widths) && FitWidths(v', widths)
    requires |v| > 0 && v[..|v| - 1] == v'[..|v| - 1] && widths[|v| - 1] == 1
    ensures Sum(widths) >= 1
    ensures Pack(v, widths)[..Sum(widths) - 1] == Pack(v', widths)[..Sum(widths) - 1]
  {
    assert v[0] == v'[0] || |v| == 1;
    if |v| > 1 {
      assert v[1..][..|v| - 2] == v[..|v| - 1][1..] && v'[1..][..|v| - 2] == v'[..|v| - 1][1..];
      assert v[0] == v[..|v| - 1][0] && v'[0] == v'[..|v| - 1][0];
      PackPrefix(v[1..], v'[1..], widths[1..]);
      assert Sum(widths) == widths[0] + Sum(widths[1..]);
      var head := ToBigEndian(v[0], widths[0]);
      assert Pack(v, widths)[..Sum(widths) - 1] == head + Pack(v[1..], widths[1..])[..Sum(widths[1..]) - 1];
      assert Pack(v', widths)[..Sum(widths) - 1] == head + Pack(v'[1..], widths[1..])[..Sum(widths[1..]) - 1];
    } else {
      assert widths[1..] == [] && Sum(widths) == 1;
    }
  }

  lemma TagIsOneByte(tag: byte)
    ensures tag < Pow256(1) && ToBigEndian(tag, 1) == [tag]
  {
    WidthLimits();
  }

  /** A last field of one byte is the last byte packed. */
  lemma {:induction false} PackLast(v: seq<nat>, widths: seq<nat>)
    requires FitWidths(v, widths) && |v| > 0 && widths[|v| - 1] == 1
    ensures Sum(widths) >= 1 && Pack(v, widths)[Sum(widths) - 1] == v[|v| - 1]
  {
    if |v| > 1 {
      PackLast(v[1..], widths[1..]);
    } else {
      WidthLimits();
      TagIsOneByte(v[0]);
      assert widths[1..] == [] && v[1..] == [];
    }
  }

  lemma ValuesInvertBuild(tag: byte, v: seq<nat>)
    requires FitWidths(v, Widths(tag)) && Build(tag, v).Ok?
    ensures var e := Build(tag, v).value;
            !e.Clipboard? && Tag(e) == tag && |Values(e)| == |v|
            && if EndsInBool(e) then
                 && |v| > 0 && Widths(tag)[|v| - 1] == 1
                 && Values(e)[..|v| - 1] == v[..|v| - 1] && Values(e)[|v| - 1] == BoolByte(v[|v| - 1] != 0)
               else Values(e) == v
  {
    WidthLimits();
    if tag == 14 {
      assert v[..8] + v[8..] == v;
    }
  }

  /** `v` came from `body`; repacking fields that agree with `v` (but for a last boolean one) gives `body` back. */
  lemma RepackedFields(v': seq<nat>, v: seq<nat>, body: seq<byte>, w: seq<nat>, butLast: bool)
    requires Sum(w) <= |body| && v == Unpack(body, w) && FitWidths(v', w)
    requires if butLast then |v| > 0 && w[|v| - 1] == 1 && v'[..|v| - 1] == v[..|v| - 1] else v' == v
    ensures if butLast then Sum(w) >= 1 && Pack(v', w)[..Sum(w) - 1] == body[..Sum(w) - 1]
            else Pack(v', w) == body[..Sum(w)]
  {
    PackInvertsUnpack(body, w);
    if butLast {
      PackPrefix(v', v, w);
      assert body[..Sum(w)][..Sum(w) - 1] == body[..Sum(w) - 1];
    }
  }

  lemma UnpackLast(v: seq<nat>, body: seq<byte>, w: seq<nat>)
    requires Sum(w) <= |body| && v == Unpack(body, w) && |v| > 0 && w[|v| - 1] == 1
    ensures Sum(w) >= 1 && body[Sum(w) - 1] == v[|v| - 1]
  {
    PackLast(v, w);
    PackInvertsUnpack(body, w);
    SlicedLast(body, Sum(w));
  }

  lemma SlicedLast(s: seq<byte>, n: nat)
    requires 0 < n <= |s|
    ensures s[..n][n - 1] == s[n - 1]
  {
  }

  lemma FieldsInvertBuild(tag: byte, w: seq<nat>, body: seq<byte>, v: seq<nat>, e: ProtoEvent)
    requires w == Widths(tag) && Sum(w) <= |body| && v == Unpack(body, w)
    requires Build(tag, v) == Ok(e)
    ensures !e.Clipboard? && Tag(e) == tag && FitWidths(Values(e), w)
    ensures EndsInBool(e) ==>
              && Sum(w) >= 1 && Pack(Values(e), w)[..Sum(w) - 1] == body[..Sum(w) - 1]
              && Pack(Values(e), w)[Sum(w) - 1] == BoolByte(body[Sum(w) - 1] != 0)
    ensures !EndsInBool(e) ==> Pack(Values(e), w) == body[..Sum(w)]
  {
    ValuesInvertBuild(tag, v);
    ValuesFit(e);
    RepackedFields(Values(e), v, body, w, EndsInBool(e));
    if EndsInBool(e) {
      PackLast(Values(e), w);
      UnpackLast(v, body, w);
    }
  }

  lemma PrependSlice(x: byte, s: seq<byte>, t: seq<byte>, n: nat)
    requires n <= |s| && n <= |t| && s[..n] == t[..n]
    ensures ([x] + s)[..n + 1] == ([x] + t)[..n + 1]
  {
    assert ([x] + s)[..n + 1] == [x] + s[..n];
    assert ([x] + t)[..n + 1] == [x] + t[..n];
  }

  /**
   The other direction: an accepted buffer starts with the encoding of the event it decodes to, up to
   the boolean byte that ends a Pong or a PointerAxis, which comes back as 1 exactly if it was not 0.
   */
  lemma EncodeInvertsDecode(b: EventBuffer)
    requires Decode(b).Ok?
    ensures var e := Decode(b).value;
            !e.Clipboard? &&
            var n := |Wire(e)|;
            if EndsInBool(e) then Wire(e)[..n - 1] == b[..n - 1] && Wire(e)[n - 1] == BoolByte(b[n - 1] != 0)
            else Wire(e) == b[..n]
  {
    TagFits(b[0]);
    var e := Decode(b).value;
    var w := Widths(b[0]);
    FieldsInvertBuild(b[0], w, b[1..], Unpack(b[1..], w), e);
    var n := if EndsInBool(e) then Sum(w) - 1 else Sum(w);
    FramedPrefix(Pack(Values(e), w), b, n);
    assert Wire(e) == [b[0]] + Pack(Values(e), w);
    assert |Wire(e)| == 1 + Sum(w);
  }

  lemma FramedPrefix(fields: seq<byte>, b: EventBuffer, n: nat)
    requires n <= |fields| && n <= |b[1..]| && fields[..n] == b[1..][..n]
    ensures ([b[0]] + fields)[..n + 1] == b[..n + 1]
  {
    assert b == [b[0]] + b[1..];
    PrependSlice(b[0], fields, b[1..], n);
  }

  /** Decoding depends only on the bytes the event occupies; the rest of the buffer is ignored. */
  lemma DecodeIgnoresPadding(b: EventBuffer, c: EventBuffer)
    requires 1 + Sum(Widths(b[0])) <= MAX_EVENT_SIZE
    requires b[..1 + Sum(Widths(b[0]))] == c[..1 + Sum(Widths(b[0]))]
    ensures Decode(b) == Decode(c)
  {
    var w := Widths(b[0]);
    assert b[0] == b[..1 + Sum(w)][0] == c[..1 + Sum(w)][0] == c[0];
    assert b[1..][..Sum(w)] == b[..1 + Sum(w)][1..];
    assert c[1..][..Sum(w)] == c[..1 + Sum(w)][1..];
    UnpackPrefix(b[1..], c[1..], w);
  }

  lemma {:induction false} UnpackPrefix(b: seq<byte>, c: seq<byte>, widths: seq<nat>)
    requires Sum(widths) <= |b| && Sum(widths) <= |c| && b[..Sum(widths)] == c[..Sum(widths)]
    ensures Unpack(b, widths) == Unpack(c, widths)
  {
    if widths != [] {
      var w, n := widths[0], Sum(widths[1..]);
      assert b[..w] == b[..Sum(widths)][..w] && c[..w] == c[..Sum(widths)][..w];
      assert b[w..][..n] == b[..Sum(widths)][w..] && c[w..][..n] == c[..Sum(widths)][w..];
      UnpackPrefix(b[w..], c[w..], widths[1..]);
    }
  }

  lemma BuildTag(tag: byte, v: seq<nat>)
    requires FitWidths(v, Widths(tag)) && Build(tag, v).Ok?
    ensures tag <= 15
  {
  }

  lemma ClipboardTag(utf8: Frames.Utf8, d: seq<byte>)
    requires |d| > 0 && Frames.DecodeFrame(utf8, d).Ok?
    ensures 17 <= d[0] <= 19
  {
  }

  /** The first byte routes a datagram: no tag is accepted by both this codec and the clipboard decoder. */
  lemma TagsAreDisjoint(utf8: Frames.Utf8, b: EventBuffer, d: seq<byte>)
    requires |d| > 0 && b[0] == d[0]
    ensures Decode(b).Err? || Frames.DecodeFrame(utf8, d).Err?
  {
    TagFits(b[0]);
    if Frames.DecodeFrame(utf8, d).Ok? {
      ClipboardTag(utf8, d);
      var v := Unpack(b[1..], Widths(b[0]));
      if Build(b[0], v).Ok? {
        BuildTag(b[0], v);
      }
    }
  }

  //
  // The encoder and decoder as written, over the buffer
  //

  /** `b` has been written up to `|written|` and is zero from there on. */
  ghost predicate Holds(buf: array<byte>, written: seq<byte>)
    reads buf
  {
    && buf.Length == MAX_EVENT_SIZE && |written| <= MAX_EVENT_SIZE
    && buf[..|written|] == written
    && forall i :: |written| <= i < buf.Length ==> buf[i] == 0
  }

  method EncodeUint(buf: array<byte>, amt: nat, n: nat, width: nat, ghost written: seq<byte>) returns (amt': nat)
    requires Holds(buf, written) && amt == |written| && amt + width <= MAX_EVENT_SIZE
    requires n < Pow256(width)
    modifies buf
    ensures amt' == amt + width
    ensures Holds(buf, written + ToBigEndian(n, width))
  {
    var src := ToBigEndian(n, width);
    for i := 0 to width
      invariant buf[..amt] == written
      invariant forall k :: 0 <= k < i ==> buf[amt + k] == src[k]
      invariant forall k :: amt + i <= k < buf.Length ==> buf[k] == 0
    {
      buf[amt + i] := src[i];
    }
    amt' := amt + width;
    assert buf[..amt'] == written + src;
  }

  method EncodeFields(buf: array<byte>, amt: nat, values: seq<nat>, widths: seq<nat>, ghost start: seq<byte>)
    returns (len: nat)
    requires FitWidths(values, widths) && Holds(buf, start) && amt == |start|
    requires amt + Sum(widths) <= MAX_EVENT_SIZE
    modifies buf
    ensures Holds(buf, start + Pack(values, widths)) && len == amt + Sum(widths)
  {
    len := amt;
    ghost var written := start;
    for i := 0 to |values|
      invariant Holds(buf, written) && len == |written|
      invariant len + Sum(widths[i..]) == amt + Sum(widths)
      invariant written + Pack(values[i..], widths[i..]) == start + Pack(values, widths)
    {
      ghost var v, w := values[i..], widths[i..];
      assert v[1..] == values[i + 1..] && w[1..] == widths[i + 1..];
      len := EncodeUint(buf, len, values[i], widths[i], written);
      written := written + ToBigEndian(values[i], widths[i]);
    }
  }

  method EncodeEvent(e: ProtoEvent) returns (buf: array<byte>, len: nat)
    requires !e.Clipboard?
    ensures fresh(buf) && buf.Length == 21 && Holds(buf, Wire(e)) && len == |Wire(e)|
    ensures Decode(buf[..]) == Ok(e)
  {
    buf := new byte[MAX_EVENT_SIZE](_ => 0);
    ValuesFit(e);
    TagFits(Tag(e));
    TagIsOneByte(Tag(e));
    len := EncodeUint(buf, 0, Tag(e), 1, []);
    assert [] + [Tag(e)] == [Tag(e)];
    len := EncodeFields(buf, len, Values(e), Widths(Tag(e)), [Tag(e)]);
    DecodeInvertsEncode(e, buf[..]);
  }

  /** Undoes `EncodeUint`: splits off the integer whose big-endian bytes come first. */
  method DecodeUint(data: seq<byte>, width: nat) returns (n: nat, rest: seq<byte>)
    requires width <= |data|
    ensures n < Pow256(width) && data == ToBigEndian(n, width) + rest
  {
    n, rest := FromBigEndian(data[..width]), data[width..];
    BigEndianUnique(data[..width]);
  }

  lemma SplitIsUnique(data: seq<byte>, width: nat, n: nat, rest: seq<byte>)
    requires n < Pow256(width) && data == ToBigEndian(n, width) + rest
    ensures n == FromBigEndian(data[..width]) && rest == data[width..]
  {
    BigEndianRoundTrip(n, width);
    assert data[..width] == ToBigEndian(n, width);
  }

  method DecodeFields(buf: seq<byte>, widths: seq<nat>) returns (values: seq<nat>)
    requires Sum(widths) <= |buf|
    ensures values == Unpack(buf, widths)
  {
    var data := buf;
    values := [];
    for i := 0 to |widths|
      invariant Sum(widths[i..]) <= |data|
      invariant |values| == i
      invariant values + Unpack(data, widths[i..]) == Unpack(buf, widths)
    {
      UnpackStep(values, data, widths, i);
      var n, rest := DecodeUint(data, widths[i]);
      SplitIsUnique(data, widths[i], n, rest);
      data, values := rest, values + [n];
    }
  }

  lemma UnpackStep(done: seq<nat>, data: seq<byte>, widths: seq<nat>, i: nat)
    requires i < |widths| && Sum(widths[i..]) <= |data|
    ensures widths[i] <= |data| && Sum(widths[i + 1..]) <= |data[widths[i]..]|
    ensures done + Unpack(data, widths[i..])
            == done + [FromBigEndian(data[..widths[i]])] + Unpack(data[widths[i]..], widths[i + 1..])
  {
    var w := widths[i..];
    assert w[1..] == widths[i + 1..];
    var rest := Unpack(data[widths[i]..], widths[i + 1..]);
    assert Unpack(data, w) == [FromBigEndian(data[..widths[i]])] + rest;
  }

  method DecodeEvent(buf: EventBuffer) returns (r: Result<ProtoEvent, ProtocolError>)
    ensures r == Decode(buf)
  {
    TagFits(buf[0]);
    var values := DecodeFields(buf[1..], Widths(buf[0]));
    r := Build(buf[0], values);
  }
}
