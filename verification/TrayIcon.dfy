/**
 Cropping the tray icon: a scan for the box around the visible pixels, a one-pixel margin, padding to a square and
 the permutation from RGBA to the ARGB order the tray expects. Sizes are unbounded integers here.
 */
module TrayIcon {
  import opened Wrappers
  import opened Bytes

  /** A rendered image: rows of four-byte pixels, each row starting `rowstride` bytes after the one before. */
  datatype Pixbuf = Pixbuf(channels: int, bitsPerSample: int, width: int, height: int, rowstride: nat,
      pixels: seq<byte>) {
    /** The buffer holds every row; the last one need not be padded to the full stride. */
    predicate Complete() {
      width > 0 && height > 0 ==> (height - 1) * rowstride + width * 4 <= |pixels|
    }

    predicate Has(x: int, y: int) {
      0 <= x < width && 0 <= y < height
    }

    function Offset(x: int, y: int): (i: nat)
      requires Complete() && Has(x, y)
      ensures i + 3 < |pixels|
    {
      RowFits(y, height - 1, rowstride);
      y * rowstride + x * 4
    }

    function Alpha(x: int, y: int): byte
      requires Complete() && Has(x, y)
    {
      pixels[Offset(x, y) + 3]
    }

    /** The pixel in tray order. */
    function Argb(x: int, y: int): Quad
      requires Complete() && Has(x, y)
    {
      var i := Offset(x, y);
      Quad(pixels[i + 3], pixels[i], pixels[i + 1], pixels[i + 2])
    }
  }

  lemma ProductIsNonNegative(a: int, b: int)
    requires a >= 0 && b >= 0
    ensures a * b >= 0
  {
  }

  lemma RowFits(y: int, last: int, rowstride: nat)
    requires 0 <= y <= last
    ensures 0 <= y * rowstride <= last * rowstride
  {
    ProductIsNonNegative(last - y, rowstride);
    ProductIsNonNegative(y, rowstride);
    assert (last - y) * rowstride == last * rowstride - y * rowstride;
  }

  datatype Quad = Quad(a: byte, r: byte, g: byte, b: byte)

  const CLEAR := Quad(0, 0, 0, 0)

  datatype Icon = Icon(width: int, height: int, data: seq<byte>)

  datatype Box = Box(minX: int, minY: int, maxX: int, maxY: int)

  const ALPHA_THRESHOLD: byte := 8

  predicate Visible(p: Pixbuf, x: int, y: int) {
    p.Complete() && p.Has(x, y) && p.Alpha(x, y) >= ALPHA_THRESHOLD
  }

  //
  // The bounding box
  //

  predicate InBox(b: Box, x: int, y: int) {
    b.minX <= x <= b.maxX && b.minY <= y <= b.maxY
  }

  /** The smallest box around the visible pixels: it holds them all and one of them touches each side. */
  ghost predicate Bounds(p: Pixbuf, b: Box) {
    && (forall x, y :: Visible(p, x, y) ==> InBox(b, x, y))
    && (exists y :: Visible(p, b.minX, y)) && (exists y :: Visible(p, b.maxX, y))
    && (exists x :: Visible(p, x, b.minY)) && (exists x :: Visible(p, x, b.maxY))
  }

  /** There is only one such box. */
  lemma BoundsAreUnique(p: Pixbuf, b: Box, b': Box)
    requires Bounds(p, b) && Bounds(p, b')
    ensures b == b'
  {
    forall b1, b2 | Bounds(p, b1) && Bounds(p, b2)
      ensures b2.minX <= b1.minX && b2.minY <= b1.minY && b1.maxX <= b2.maxX && b1.maxY <= b2.maxY
    {
      var y1 :| Visible(p, b1.minX, y1);
      var y2 :| Visible(p, b1.maxX, y2);
      var x1 :| Visible(p, x1, b1.minY);
      var x2 :| Visible(p, x2, b1.maxY);
      assert InBox(b2, b1.minX, y1) && InBox(b2, b1.maxX, y2) && InBox(b2, x1, b1.minY) && InBox(b2, x2, b1.maxY);
    }
  }

  /** Pixels the scan has passed when it stands at (`cx`, `cy`). */
  predicate Seen(p: Pixbuf, x: int, y: int, cx: int, cy: int) {
    Visible(p, x, y) && (y < cy || (y == cy && x < cx))
  }

  ghost predicate Covers(p: Pixbuf, b: Box, cx: int, cy: int) {
    forall x, y :: Seen(p, x, y, cx, cy) ==> InBox(b, x, y)
  }

  /** The box is still the empty one, or each of its sides has a visible pixel on it. */
  ghost predicate Touched(p: Pixbuf, b: Box, l: (int, int), r: (int, int), t: (int, int), d: (int, int)) {
    if b.maxX < 0 || b.maxY < 0 then b == Box(p.width, p.height, -1, -1)
    else
      && l.0 == b.minX && r.0 == b.maxX && t.1 == b.minY && d.1 == b.maxY
      && Visible(p, l.0, l.1) && Visible(p, r.0, r.1) && Visible(p, t.0, t.1) && Visible(p, d.0, d.1)
  }

  function Grown(b: Box, x: int, y: int): Box {
    Box(if x < b.minX then x else b.minX, if y < b.minY then y else b.minY,
        if x > b.maxX then x else b.maxX, if y > b.maxY then y else b.maxY)
  }

  lemma CoversNext(p: Pixbuf, b: Box, x: int, y: int)
    requires Covers(p, b, x, y)
    ensures Covers(p, if Visible(p, x, y) then Grown(b, x, y) else b, x + 1, y)
  {
    var b' := if Visible(p, x, y) then Grown(b, x, y) else b;
    forall u, v | Seen(p, u, v, x + 1, y)
      ensures InBox(b', u, v)
    {
      if !(u == x && v == y) {
        assert Seen(p, u, v, x, y);
      }
    }
  }

  lemma CoversNextRow(p: Pixbuf, b: Box, x: int, y: int)
    requires Covers(p, b, x, y) && x >= p.width
    ensures Covers(p, b, 0, y + 1)
  {
    forall u, v | Seen(p, u, v, 0, y + 1)
      ensures InBox(b, u, v)
    {
      assert Seen(p, u, v, x, y);
    }
  }

  method Widen(b: Box, x: int, y: int) returns (b': Box)
    ensures b' == Grown(b, x, y)
  {
    b' := b;
    if x < b.minX { b' := b'.(minX := x); }
    if y < b.minY { b' := b'.(minY := y); }
    if x > b.maxX { b' := b'.(maxX := x); }
    if y > b.maxY { b' := b'.(maxY := y); }
  }

  /** Scans the alpha channel for the box around the visible pixels. */
  method ScanBounds(p: Pixbuf) returns (box: Option<Box>)
    requires p.Complete()
    ensures box.None? <==> forall x, y :: !Visible(p, x, y)
    ensures box.Some? ==> Bounds(p, box.value)
  {
    var b := Box(p.width, p.height, -1, -1);
    ghost var l, r, t, d := (0, 0), (0, 0), (0, 0), (0, 0);
    var y := 0;
    while y < p.height
      invariant 0 <= y && (p.height >= 0 ==> y <= p.height)
      invariant Covers(p, b, 0, y) && Touched(p, b, l, r, t, d)
    {
      var x := 0;
      while x < p.width
        invariant 0 <= x && (p.width >= 0 ==> x <= p.width)
        invariant Covers(p, b, x, y) && Touched(p, b, l, r, t, d)
      {
        CoversNext(p, b, x, y);
        if p.pixels[p.Offset(x, y) + 3] >= ALPHA_THRESHOLD {
          l := if x < b.minX then (x, y) else l;
          r := if x > b.maxX then (x, y) else r;
          t := if y < b.minY then (x, y) else t;
          d := if y > b.maxY then (x, y) else d;
          b := Widen(b, x, y);
        }
        x := x + 1;
      }
      CoversNextRow(p, b, x, y);
      y := y + 1;
    }
    assert forall u, v :: Visible(p, u, v) ==> Seen(p, u, v, 0, y);
    assert forall u, v :: Visible(p, u, v) ==> InBox(b, u, v);
    if b.maxX < 0 || b.maxY < 0 {
      box := None;
    } else {
      assert Visible(p, b.minX, l.1) && Visible(p, b.maxX, r.1) && Visible(p, t.0, b.minY) && Visible(p, d.0, b.maxY);
      box := Some(b);
    }
  }

  //
  // The crop
  //

  /** Where the box, widened by a pixel where the image allows, is cut out and put in the square. */
  datatype Crop = Crop(x0: int, y0: int, w: int, h: int, side: int, offX: int, offY: int) {
    predicate Holds(dx: int, dy: int) {
      offX <= dx < offX + w && offY <= dy < offY + h
    }
  }

  function Max(a: int, b: int): int {
    if a < b then b else a
  }

  function Min(a: int, b: int): int {
    if a < b then a else b
  }

  function CropOf(p: Pixbuf, b: Box): Crop {
    var x0, y0 := Max(b.minX - 1, 0), Max(b.minY - 1, 0);
    var w, h := Min(b.maxX + 2, p.width) - x0, Min(b.maxY + 2, p.height) - y0;
    var side := Max(w, h);
    Crop(x0, y0, w, h, side, (side - w) / 2, (side - h) / 2)
  }

  /** A crop taken from within the image that fits its square. */
  predicate Fits(p: Pixbuf, c: Crop) {
    && 0 <= c.x0 && 0 < c.w && c.x0 + c.w <= p.width && 0 <= c.y0 && 0 < c.h && c.y0 + c.h <= p.height
    && 0 <= c.offX && c.offX + c.w <= c.side && 0 <= c.offY && c.offY + c.h <= c.side
  }

  /**
   The crop in numbers: the box and a pixel more on each side on which the image goes on, in the middle of a square
   that is as wide as the longer of its sides.
   */
  predicate CutsOut(p: Pixbuf, b: Box, c: Crop) {
    && c.x0 == (if b.minX == 0 then 0 else b.minX - 1)
    && c.y0 == (if b.minY == 0 then 0 else b.minY - 1)
    && c.x0 + c.w - 1 == (if b.maxX == p.width - 1 then b.maxX else b.maxX + 1)
    && c.y0 + c.h - 1 == (if b.maxY == p.height - 1 then b.maxY else b.maxY + 1)
    && (c.side == c.w >= c.h || c.side == c.h >= c.w)
    && 0 <= c.side - c.w - 2 * c.offX <= 1 && 0 <= c.side - c.h - 2 * c.offY <= 1
  }

  lemma CropFits(p: Pixbuf, b: Box)
    requires p.Complete() && Bounds(p, b)
    ensures Fits(p, CropOf(p, b)) && CutsOut(p, b, CropOf(p, b))
  {
    var y1 :| Visible(p, b.minX, y1);
    var x1 :| Visible(p, x1, b.minY);
    var y2 :| Visible(p, b.maxX, y2);
    var x2 :| Visible(p, x2, b.maxY);
    assert InBox(b, b.minX, y1) && InBox(b, x1, b.minY);
  }

  /** Pixel (`dx`, `dy`) of the square: the image's where the crop lies, clear around it. */
  function SquarePixel(p: Pixbuf, c: Crop, dx: int, dy: int): Quad
    requires p.Complete() && Fits(p, c)
  {
    if c.Holds(dx, dy) then p.Argb(c.x0 + dx - c.offX, c.y0 + dy - c.offY) else CLEAR
  }

  /** The square after the fill has reached column `sx` of row `sy` of the crop. */
  function FilledPixel(p: Pixbuf, c: Crop, dx: int, dy: int, sx: int, sy: int): Quad
    requires p.Complete() && Fits(p, c)
  {
    if dy - c.offY < sy || (dy - c.offY == sy && dx - c.offX < sx) then SquarePixel(p, c, dx, dy) else CLEAR
  }

  /** The `q`-th pixel of an image stored as bytes. */
  function QuadAt(data: seq<byte>, q: nat): Quad
    requires 4 * q + 3 < |data|
  {
    Quad(data[4 * q], data[4 * q + 1], data[4 * q + 2], data[4 * q + 3])
  }

  lemma RowAndColumn(q: int, side: int, dx: int, dy: int)
    requires 0 <= dx < side && 0 <= q
    ensures q == dy * side + dx <==> q / side == dy && q % side == dx
  {
    if q == dy * side + dx {
      QuotientIsUnique(q, side, dy, dx);
    }
  }

  lemma MultipleIsLarge(k: int, side: int)
    requires k != 0 && side > 0
    ensures k * side >= side || k * side <= -side
  {
    if k > 0 {
      assert (k - 1) * side >= 0;
    } else {
      assert (-k - 1) * side >= 0;
    }
  }

  lemma QuotientIsUnique(q: int, side: int, dy: int, dx: int)
    requires 0 <= dx < side && 0 <= q == dy * side + dx
    ensures q / side == dy && q % side == dx
  {
    var e, r := q / side, q % side;
    assert (e - dy) * side == dx - r;
    if e != dy { MultipleIsLarge(e - dy, side); }
  }

  lemma SlotInSquare(side: int, dx: int, dy: int)
    requires 0 <= dx < side && 0 <= dy < side
    ensures 0 <= dy * side + dx < side * side
  {
    ProductIsNonNegative(side - 1 - dy, side);
    ProductIsNonNegative(dy, side);
    assert (side - 1 - dy) * side == side * side - side - dy * side;
  }

  method PutQuad(data: array<byte>, q: nat, pixel: Quad)
    requires 4 * q + 3 < data.Length
    modifies data
    ensures QuadAt(data[..], q) == pixel
    ensures forall i :: 0 <= i < data.Length && !(4 * q <= i <= 4 * q + 3) ==> data[i] == old(data[i])
  {
    data[4 * q] := pixel.a;
    data[4 * q + 1] := pixel.r;
    data[4 * q + 2] := pixel.g;
    data[4 * q + 3] := pixel.b;
  }

  /** The fill has stored the pixels up to column `sx` of row `sy`, and nothing else. */
  ghost predicate Filled(p: Pixbuf, c: Crop, data: seq<byte>, sx: int, sy: int)
    requires p.Complete() && Fits(p, c)
  {
    && |data| == c.side * c.side * 4
    && forall q {:trigger QuadAt(data, q)} :: 0 <= q < c.side * c.side ==>
       QuadAt(data, q) == FilledPixel(p, c, q % c.side, q / c.side, sx, sy)
  }

  lemma FilledNext(p: Pixbuf, c: Crop, before: seq<byte>, data: seq<byte>, sx: int, sy: int, slot: nat)
    requires p.Complete() && Fits(p, c) && 0 <= sx < c.w && 0 <= sy < c.h
    requires Filled(p, c, before, sx, sy) && |data| == |before|
    requires slot == (c.offY + sy) * c.side + c.offX + sx && slot < c.side * c.side
    requires QuadAt(data, slot) == p.Argb(c.x0 + sx, c.y0 + sy)
    requires forall i :: 0 <= i < |data| && !(4 * slot <= i <= 4 * slot + 3) ==> data[i] == before[i]
    ensures Filled(p, c, data, sx + 1, sy)
  {
    forall q | 0 <= q < c.side * c.side
      ensures QuadAt(data, q) == FilledPixel(p, c, q % c.side, q / c.side, sx + 1, sy)
    {
      RowAndColumn(q, c.side, c.offX + sx, c.offY + sy);
      if q != slot {
        assert QuadAt(data, q) == QuadAt(before, q);
      }
    }
  }

  /** Copies the crop into the square, pixel by pixel. */
  method FillSquare(p: Pixbuf, c: Crop) returns (data: array<byte>)
    requires p.Complete() && Fits(p, c)
    ensures fresh(data) && data.Length == c.side * c.side * 4
    ensures forall q {:trigger QuadAt(data[..], q)} :: 0 <= q < c.side * c.side ==>
             QuadAt(data[..], q) == SquarePixel(p, c, q % c.side, q / c.side)
  {
    data := new byte[c.side * c.side * 4](_ => 0);
    InitiallyClear(p, c, data[..]);
    var sy := 0;
    while sy < c.h
      invariant 0 <= sy <= c.h && data.Length == c.side * c.side * 4 && fresh(data)
      invariant Filled(p, c, data[..], 0, sy)
    {
      var sx := 0;
      while sx < c.w
        invariant 0 <= sx <= c.w && data.Length == c.side * c.side * 4 && fresh(data)
        invariant Filled(p, c, data[..], sx, sy)
      {
        SlotInSquare(c.side, c.offX + sx, c.offY + sy);
        ghost var before := data[..];
        var slot := (c.offY + sy) * c.side + c.offX + sx;
        PutQuad(data, slot, p.Argb(c.x0 + sx, c.y0 + sy));
        FilledNext(p, c, before, data[..], sx, sy, slot);
        sx := sx + 1;
      }
      RowFilled(p, c, data[..], sy);
      sy := sy + 1;
    }
    AllFilled(p, c, data[..]);
  }

  lemma InitiallyClear(p: Pixbuf, c: Crop, data: seq<byte>)
    requires p.Complete() && Fits(p, c) && |data| == c.side * c.side * 4
    requires forall i :: 0 <= i < |data| ==> data[i] == 0
    ensures Filled(p, c, data, 0, 0)
  {
    forall q | 0 <= q < c.side * c.side
      ensures QuadAt(data, q) == FilledPixel(p, c, q % c.side, q / c.side, 0, 0)
    {
      assert data[4 * q] == 0 && data[4 * q + 1] == 0 && data[4 * q + 2] == 0 && data[4 * q + 3] == 0;
    }
  }

  lemma RowFilled(p: Pixbuf, c: Crop, data: seq<byte>, sy: int)
    requires p.Complete() && Fits(p, c) && Filled(p, c, data, c.w, sy)
    ensures Filled(p, c, data, 0, sy + 1)
  {
    forall q | 0 <= q < c.side * c.side
      ensures QuadAt(data, q) == FilledPixel(p, c, q % c.side, q / c.side, 0, sy + 1)
    {
    }
  }

  lemma AllFilled(p: Pixbuf, c: Crop, data: seq<byte>)
    requires p.Complete() && Fits(p, c) && Filled(p, c, data, 0, c.h)
    ensures forall q {:trigger QuadAt(data, q)} :: 0 <= q < c.side * c.side ==>
             QuadAt(data, q) == SquarePixel(p, c, q % c.side, q / c.side)
  {
  }

  /** The icon shows exactly this square. */
  ghost predicate Shows(p: Pixbuf, c: Crop, icon: Icon)
    requires p.Complete() && Fits(p, c)
  {
    && icon.width == c.side && icon.height == c.side && |icon.data| == c.side * c.side * 4
    && forall q {:trigger QuadAt(icon.data, q)} :: 0 <= q < c.side * c.side ==>
       QuadAt(icon.data, q) == SquarePixel(p, c, q % c.side, q / c.side)
  }

  /** Crops a four-channel, eight-bit image to its visible pixels; anything else, or nothing visible, gives no icon. */
  method CropToArgb(p: Pixbuf) returns (icon: Option<Icon>, ghost box: Box)
    requires p.channels == 4 && p.bitsPerSample == 8 ==> p.Complete()
    ensures icon.None? <==> p.channels != 4 || p.bitsPerSample != 8 || forall x, y :: !Visible(p, x, y)
    ensures icon.Some? ==> Bounds(p, box) && Fits(p, CropOf(p, box)) && Shows(p, CropOf(p, box), icon.value)
  {
    box := Box(0, 0, 0, 0);
    if p.channels != 4 || p.bitsPerSample != 8 {
      return None, box;
    }
    var found := ScanBounds(p);
    if found.None? {
      return None, box;
    }
    box := found.value;
    CropFits(p, found.value);
    var c := CropOf(p, found.value);
    var data := FillSquare(p, c);
    icon := Some(Icon(c.side, c.side, data[..]));
  }

  /** Where a pixel's red, green, blue and alpha are stored, and what makes it visible. */
  lemma PixelBytes(p: Pixbuf, x: int, y: int)
    requires p.Complete() && 0 <= x < p.width && 0 <= y < p.height
    ensures var from := y * p.rowstride + 4 * x;
            && 0 <= from && from + 3 < |p.pixels|
            && (Visible(p, x, y) <==> p.pixels[from + 3] >= 8)
            && p.Argb(x, y) == Quad(p.pixels[from + 3], p.pixels[from], p.pixels[from + 1], p.pixels[from + 2])
  {
    assert p.Offset(x, y) == y * p.rowstride + 4 * x;
  }

  /** Bytes `to` to `to + 3` are the alpha, red, green and blue of the pixel stored at `from`. */
  predicate Copied(pixels: seq<byte>, from: int, data: seq<byte>, to: int) {
    && 0 <= from && from + 3 < |pixels| && 0 <= to && to + 3 < |data|
    && data[to] == pixels[from + 3] && data[to + 1] == pixels[from]
    && data[to + 2] == pixels[from + 1] && data[to + 3] == pixels[from + 2]
  }

  predicate Zero(data: seq<byte>, to: int) {
    && 0 <= to && to + 3 < |data|
    && data[to] == 0 && data[to + 1] == 0 && data[to + 2] == 0 && data[to + 3] == 0
  }

  /** Byte by byte: the image's pixels where the crop lies, zeros around it. */
  lemma IconBytes(p: Pixbuf, c: Crop, icon: Icon, dx: int, dy: int)
    requires p.Complete() && Fits(p, c) && Shows(p, c, icon) && 0 <= dx < icon.width && 0 <= dy < icon.height
    ensures if c.offX <= dx < c.offX + c.w && c.offY <= dy < c.offY + c.h then
              Copied(p.pixels, (c.y0 + dy - c.offY) * p.rowstride + 4 * (c.x0 + dx - c.offX),
                     icon.data, 4 * (dy * icon.width + dx))
            else Zero(icon.data, 4 * (dy * icon.width + dx))
  {
    var q := dy * c.side + dx;
    SlotInSquare(c.side, dx, dy);
    RowAndColumn(q, c.side, dx, dy);
    assert QuadAt(icon.data, q) == SquarePixel(p, c, dx, dy);
    if c.Holds(dx, dy) {
      PixelBytes(p, c.x0 + dx - c.offX, c.y0 + dy - c.offY);
    }
  }

  /**
   Every pixel with an alpha of at least 8 is in the icon, at its place relative to the crop and away from the crop's
   rim wherever the image goes on beyond it.
   */
  lemma VisiblePixelsSurvive(p: Pixbuf, box: Box, icon: Icon, x: int, y: int)
    requires p.Complete() && Bounds(p, box) && Fits(p, CropOf(p, box)) && Shows(p, CropOf(p, box), icon)
    requires 0 <= x < p.width && 0 <= y < p.height
    ensures var from := y * p.rowstride + 4 * x;
            && 0 <= from && from + 3 < |p.pixels|
            && (p.pixels[from + 3] >= 8 ==>
                var c := CropOf(p, box);
                var dx, dy := x - c.x0 + c.offX, y - c.y0 + c.offY;
                && 0 <= dx < icon.width && 0 <= dy < icon.height
                && Copied(p.pixels, from, icon.data, 4 * (dy * icon.width + dx))
                && (x > 0 ==> x > c.x0) && (x < p.width - 1 ==> x < c.x0 + c.w - 1)
                && (y > 0 ==> y > c.y0) && (y < p.height - 1 ==> y < c.y0 + c.h - 1))
  {
    PixelBytes(p, x, y);
    if Visible(p, x, y) {
      var c := CropOf(p, box);
      assert InBox(box, x, y);
      VisibleIsHeld(p, box, x, y);
      IconBytes(p, c, icon, x - c.x0 + c.offX, y - c.y0 + c.offY);
    }
  }

  lemma VisibleIsHeld(p: Pixbuf, box: Box, x: int, y: int)
    requires p.Has(x, y) && InBox(box, x, y) && Fits(p, CropOf(p, box))
    ensures var c := CropOf(p, box);
            && c.x0 <= x < c.x0 + c.w && c.y0 <= y < c.y0 + c.h
            && (x > 0 ==> x > c.x0) && (x < p.width - 1 ==> x < c.x0 + c.w - 1)
            && (y > 0 ==> y > c.y0) && (y < p.height - 1 ==> y < c.y0 + c.h - 1)
  {
  }
}
