/**
 * The PNG-to-XImage encoder of the X11 front end: the channel shifts derived
 * from the visual's colour masks, the scaling of the PNG background colour
 * (bKGD chunk) to 8 bits, and the loops that pack decoded RGB/RGBA rows into
 * a big-endian ZPixmap buffer of 16- or 32-bit pixels.
 */
module X11Png {

  import opened CInt

  /** PNG_COLOR_TYPE_GRAY: colour type 0 of the PNG IHDR chunk. */
  const ColorTypeGray: int := 0

  /** BACKGROUND_RED, BACKGROUND_GREEN, BACKGROUND_BLUE: a transparent pixel shows black. */
  const BackgroundRed: bv8 := 0
  const BackgroundGreen: bv8 := 0
  const BackgroundBlue: bv8 := 0

  // ---------------------------------------------------------------------
  // rpng_x_msb
  // ---------------------------------------------------------------------

  /** r is the index of the highest set bit of w, or -1 when w is zero. */
  predicate IsMsb(w: int, r: int)
  {
    || (r == -1 && w == 0)
    || (0 <= r <= 31 && Pow2(r) <= w < Pow2(r + 1))
  }

  lemma Pow2Of32()
    ensures Pow2(31) == 0x8000_0000 && Pow2(32) == 0x1_0000_0000
  {
    assert Pow2(8) == 256;
    Pow2Add(8, 8);
    Pow2Add(16, 16);
  }

  /** The powers of two the bit positions of the usual colour masks need. */
  lemma Pow2Small()
    ensures Pow2(4) == 16 && Pow2(5) == 32 && Pow2(7) == 128 && Pow2(8) == 256
    ensures Pow2(10) == 1024 && Pow2(11) == 2048 && Pow2(15) == 32768 && Pow2(16) == 65536
    ensures Pow2(23) == 0x80_0000 && Pow2(24) == 0x100_0000
  {
    assert Pow2(2) == 4 && Pow2(3) == 8;
    assert Pow2(4) == 16 && Pow2(5) == 32 && Pow2(7) == 128 && Pow2(8) == 256;
    Pow2Add(8, 2);
    Pow2Add(8, 3);
    Pow2Add(8, 7);
    Pow2Add(8, 8);
    Pow2Add(16, 7);
    Pow2Add(16, 8);
  }

  /** The highest set bit of w at or below bit i (w has none above i). */
  function HighBitFrom(w: nat, i: int): (r: int)
    requires -1 <= i <= 31 && w < Pow2(i + 1)
    ensures -1 <= r <= i
    ensures IsMsb(w, r)
    decreases i + 1
  {
    if i < 0 then -1
    else if w >= Pow2(i) then i
    else HighBitFrom(w, i - 1)
  }

  /** The highest set bit of a 32-bit value, or -1 when it is zero. */
  function HighBit(w: nat): (r: int)
    requires w < 0x1_0000_0000
    ensures -1 <= r <= 31
    ensures IsMsb(w, r)
  {
    assert Pow2(32) == 0x1_0000_0000 by { Pow2Of32(); }
    HighBitFrom(w, 31)
  }

  /** Any index with the IsMsb property is the one HighBit finds. */
  lemma HighBitIs(w: nat, r: int)
    requires w < 0x1_0000_0000 && IsMsb(w, r)
    ensures HighBit(w) == r
  {
    MsbUnique(w, HighBit(w), r);
  }

  /** At most one bit index is the highest set bit: IsMsb pins the result down. */
  lemma MsbUnique(w: int, r1: int, r2: int)
    requires IsMsb(w, r1) && IsMsb(w, r2)
    ensures r1 == r2
  {
    if r1 < r2 {
      if r1 >= 0 { Pow2Monotone(r1 + 1, r2); }
    } else if r2 < r1 {
      if r2 >= 0 { Pow2Monotone(r2 + 1, r1); }
    }
  }

  /**
   * The shift loop's step: once no bit above i is set, shifting w left by
   * 31 - i stays below 2^32 and turns bit 31 on exactly when bit i of w is set.
   */
  lemma ShiftedTop(w: nat, i: int)
    requires 0 <= i <= 31 && w < Pow2(i + 1)
    ensures w * Pow2(31 - i) < 0x1_0000_0000
    ensures w * Pow2(31 - i) >= 0x8000_0000 <==> w >= Pow2(i)
  {
    var p := Pow2(31 - i);
    Pow2Add(i, 31 - i);
    Pow2Add(i + 1, 31 - i);
    Pow2Of32();
    assert Pow2(i) * p == 0x8000_0000;
    assert Pow2(i + 1) * p == 0x1_0000_0000;
    MulLe(w + 1, Pow2(i + 1), p);
    assert (w + 1) * p == w * p + p;
    if w >= Pow2(i) {
      MulLe(Pow2(i), w, p);
    } else {
      MulLe(w + 1, Pow2(i), p);
    }
  }

  /** One more left shift doubles the value: w * 2^(31-(i-1)) == 2 * (w * 2^(31-i)). */
  lemma NextShift(w: nat, i: int)
    requires 0 <= i <= 31
    ensures w * Pow2(31 - (i - 1)) == 2 * (w * Pow2(31 - i))
  {
    var p := Pow2(31 - i);
    assert Pow2(32 - i) == 2 * p;
    assert w * (2 * p) == 2 * (w * p);
  }

  /**
   * rpng_x_msb: shifts the value left until bit 31 is set, counting down from
   * 31. Only bits 0..31 can reach bit 31 within 32 shifts, so the value is
   * kept reduced to them; below 2^32, bit 31 is set exactly when the value is
   * at least 2^31.
   */
  method Msb(v: nat) returns (r: int)
    ensures r == HighBit(U32(v))
  {
    Pow2Of32();
    var w := v % 0x1_0000_0000;
    var val := w;
    r := 31;
    while r >= 0
      invariant -1 <= r <= 31
      invariant w < Pow2(r + 1)
      invariant val == w * Pow2(31 - r)
      invariant HighBitFrom(w, r) == HighBitFrom(w, 31)
    {
      ShiftedTop(w, r);
      if val >= 0x8000_0000 {
        break;
      }
      NextShift(w, r);
      val := val * 2;
      r := r - 1;
    }
  }

  // ---------------------------------------------------------------------
  // Channel shifts
  // ---------------------------------------------------------------------

  /** At depth > 16 the left shift HighBit(mask) - 7 is non-negative exactly when the mask reaches bit 7. */
  lemma LeftShiftNonNegative(mask: nat)
    requires mask < 0x1_0000_0000
    ensures HighBit(mask) - 7 >= 0 <==> mask >= 128
  {
    var m := HighBit(mask);
    Pow2Small();
    if m >= 7 {
      Pow2Monotone(7, m);
    } else if m >= 0 {
      Pow2Monotone(m + 1, 7);
    }
  }

  /** At depth 15/16 the right shift 15 - HighBit(mask) is non-negative exactly when the mask has no bit above 15. */
  lemma RightShiftNonNegative(mask: nat)
    requires mask < 0x1_0000_0000
    ensures 15 - HighBit(mask) >= 0 <==> mask < 65536
  {
    var m := HighBit(mask);
    Pow2Small();
    if m <= 15 {
      if m >= 0 { Pow2Monotone(m + 1, 16); }
    } else {
      Pow2Monotone(16, m);
    }
  }

  /**
   * The shifts line the channels up with the masks: a left-shifted 8-bit
   * sample has its top bit (bit 7) on the mask's highest bit, and a
   * right-shifted 16-bit sample has its top bit (bit 15) there.
   */
  lemma ShiftAlignsTopBit(mask: nat)
    requires mask < 0x1_0000_0000
    ensures HighBit(mask) - 7 >= 0 ==>
      Pow2(7) * Pow2(HighBit(mask) - 7) == Pow2(HighBit(mask))
    ensures 0 <= HighBit(mask) <= 15 ==>
      Pow2(HighBit(mask)) * Pow2(15 - HighBit(mask)) == Pow2(15)
  {
    var m := HighBit(mask);
    if m >= 7 { Pow2Add(7, m - 7); }
    if 0 <= m <= 15 { Pow2Add(m, 15 - m); }
  }

  /** The usual 16-bit visual, RGB565, gets right shifts 0, 5 and 11. */
  lemma Rgb565Shifts()
    ensures 15 - HighBit(0xf800) == 0
    ensures 15 - HighBit(0x07e0) == 5
    ensures 15 - HighBit(0x001f) == 11
  {
    Pow2Small();
    HighBitIs(0xf800, 15);
    HighBitIs(0x07e0, 10);
    HighBitIs(0x001f, 4);
  }

  /** The usual 24/32-bit visual, masks 0xff0000/0xff00/0xff, gets left shifts 16, 8 and 0. */
  lemma TrueColorShifts()
    ensures HighBit(0xff_0000) - 7 == 16
    ensures HighBit(0x00_ff00) - 7 == 8
    ensures HighBit(0x00_00ff) - 7 == 0
  {
    Pow2Small();
    HighBitIs(0xff_0000, 23);
    HighBitIs(0x00_ff00, 15);
    HighBitIs(0x00_00ff, 7);
  }

  // ---------------------------------------------------------------------
  // Background colour (bKGD)
  // ---------------------------------------------------------------------

  /** The raw bKGD fields libpng hands back (png_color_16): 16-bit samples. */
  datatype Bkgd = Bkgd(red: int, green: int, blue: int, gray: int)

  /** An 8-bit colour, as the three `byte` output parameters hold it. */
  datatype Rgb = Rgb(red: int, green: int, blue: int)

  predicate IsU16(v: int) { 0 <= v < 65536 }

  predicate IsByte(v: int) { 0 <= v < 256 }

  predicate BkgdOk(b: Bkgd)
  {
    IsU16(b.red) && IsU16(b.green) && IsU16(b.blue) && IsU16(b.gray)
  }

  /** The value an assignment of a non-negative int to a `byte` stores. */
  function ToByte(v: nat): (b: int)
    ensures IsByte(b)
    ensures v < 256 ==> b == v
  {
    v % 256
  }

  /**
   * x11_png_get_bgcolor, without its libpng error return (2): status 1 with
   * the outputs left as they were when there is no bKGD chunk, else status 0
   * and the background scaled to 8 bits per channel for the file's bit depth
   * and colour type (the globals bit_depth and color_type).
   */
  function GetBgColor(bkgd: Option<Bkgd>, bitDepth: int, colorType: int, prev: Rgb): (r: (int, Rgb))
    requires bkgd.Some? ==> BkgdOk(bkgd.value)
    ensures bkgd.None? <==> r.0 == 1
    ensures bkgd.None? ==> r.1 == prev
    ensures bkgd.Some? ==> r.0 == 0 && IsByte(r.1.red) && IsByte(r.1.green) && IsByte(r.1.blue)
    ensures bkgd.Some? && bitDepth != 16 && colorType == ColorTypeGray && bitDepth < 8 ==>
      r.1.red == r.1.green == r.1.blue
  {
    match bkgd
    case None => (1, prev)
    case Some(b) =>
      if bitDepth == 16 then
        (0, Rgb(b.red / 256, b.green / 256, b.blue / 256))
      else if colorType == ColorTypeGray && bitDepth < 8 then
        var v :=
          if bitDepth == 1 then (if b.gray != 0 then 255 else 0)
          else if bitDepth == 2 then ToByte((255 / 3) * b.gray)
          else ToByte((255 / 15) * b.gray);
        (0, Rgb(v, v, v))
      else
        (0, Rgb(ToByte(b.red), ToByte(b.green), ToByte(b.blue)))
  }

  /**
   * A grey background of 1, 2 or 4 bits is rescaled linearly onto 0..255,
   * g * 255 / (2^d - 1), which the PNG specification (W3C, second edition,
   * section 13.12) gives for sample depth scaling; the division is exact.
   */
  lemma GreyBackgroundIsLinear(b: Bkgd, d: nat, prev: Rgb)
    requires BkgdOk(b)
    requires d == 1 || d == 2 || d == 4
    requires b.gray < Pow2(d)
    ensures var v := b.gray * 255 / (Pow2(d) - 1);
      GetBgColor(Some(b), d, ColorTypeGray, prev) == (0, Rgb(v, v, v))
  {
    var g := b.gray;
    if d == 1 {
      assert g == 0 || g == 1;
    } else if d == 2 {
      assert Pow2(2) == 4;
      assert g == 0 || g == 1 || g == 2 || g == 3;
    } else {
      assert Pow2(4) == 16;
      assert 0 <= g < 16;
      assert g * 255 / 15 == 17 * g;
    }
  }

  /**
   * 16-bit samples keep their high byte: an 8-bit colour widened to 16 bits by
   * bit replication (v * 257) comes back unchanged, whatever the colour type.
   */
  lemma SixteenBitBackgroundRoundTrip(c: Rgb, gray: int, colorType: int, prev: Rgb)
    requires IsByte(c.red) && IsByte(c.green) && IsByte(c.blue) && IsU16(gray)
    ensures GetBgColor(Some(Bkgd(c.red * 257, c.green * 257, c.blue * 257, gray)), 16, colorType, prev) == (0, c)
  {
    assert (c.red * 257) / 256 == c.red;
    assert (c.green * 257) / 256 == c.green;
    assert (c.blue * 257) / 256 == c.blue;
  }

  /** At 8 bits per sample (and for colour images) the samples are already bytes and are kept. */
  lemma EightBitBackgroundKept(c: Rgb, gray: int, colorType: int, prev: Rgb)
    requires IsByte(c.red) && IsByte(c.green) && IsByte(c.blue) && IsU16(gray)
    ensures GetBgColor(Some(Bkgd(c.red, c.green, c.blue, gray)), 8, colorType, prev) == (0, c)
  {
  }

  // ---------------------------------------------------------------------
  // Pixel encoding
  // ---------------------------------------------------------------------

  /** The target pixel format: display depth, the three shifts, the three masks. */
  datatype Format = Format(depth: int, redShift: nat, greenShift: nat, blueShift: nat,
                           redMask: nat, greenMask: nat, blueMask: nat)
  {
    /** The formats the encoder packs, with the shift ranges the shift calculation can produce. */
    predicate Ok()
    {
      || (depth == 16 && redShift <= 16 && greenShift <= 16 && blueShift <= 16)
      || ((depth == 24 || depth == 32) && redShift <= 24 && greenShift <= 24 && blueShift <= 24)
    }

    /** Bytes per pixel: 2 at depth 16, 4 at depth 24 and 32. */
    function BytesPerPixel(): (n: nat)
      ensures depth == 16 ==> n == 2
      ensures depth != 16 ==> n == 4
    {
      if depth == 16 then 2 else 4
    }

    /** The bytes of one row of w pixels (bytes_per_line). */
    function LineBytes(w: nat): (n: nat)
    {
      BytesPerPixel() * w
    }
  }

  /**
   * The colour of the pixel whose ch samples start at offset off of the
   * decoded data: RGB as stored; RGBA kept when opaque, the background when
   * fully transparent, and otherwise each sample composited over the
   * background by `composite` (png_composite).
   */
  function PixelColor(data: seq<bv8>, off: nat, ch: nat, composite: (bv8, bv8, bv8) -> bv8): (c: (bv8, bv8, bv8))
    requires (ch == 3 || ch == 4) && off + ch <= |data|
    ensures ch == 3 || data[off + 3] == 255 ==> c == (data[off], data[off + 1], data[off + 2])
    ensures ch == 4 && data[off + 3] == 0 ==> c == (BackgroundRed, BackgroundGreen, BackgroundBlue)
  {
    if ch == 3 || data[off + 3] == 255 then (data[off], data[off + 1], data[off + 2])
    else if data[off + 3] == 0 then (BackgroundRed, BackgroundGreen, BackgroundBlue)
    else (composite(data[off], data[off + 3], BackgroundRed),
          composite(data[off + 1], data[off + 3], BackgroundGreen),
          composite(data[off + 2], data[off + 3], BackgroundBlue))
  }

  /** A 24/32-bit pixel: each 8-bit sample shifted left into place. */
  function Pixel32(c: (bv8, bv8, bv8), f: Format): (p: bv32)
    requires f.redShift <= 24 && f.greenShift <= 24 && f.blueShift <= 24
  {
    ((c.0 as bv32) << f.redShift) | ((c.1 as bv32) << f.greenShift) | ((c.2 as bv32) << f.blueShift)
  }

  /** A colour mask as the low 32 bits of the visual's (unsigned long) mask. */
  function Mask32(m: nat): (b: bv32)
  {
    U32(m) as bv32
  }

  /** Three values each cut to its mask have no bit outside the union of the masks. */
  lemma MaskedBits(x: bv32, y: bv32, z: bv32, mx: bv32, my: bv32, mz: bv32)
    ensures ((x & mx) | (y & my) | (z & mz)) & !(mx | my | mz) == 0
  {
  }

  /** A 16-bit pixel: each sample widened to 16 bits, shifted right and cut to its mask. */
  function Pixel16(c: (bv8, bv8, bv8), f: Format): (p: bv32)
    requires f.redShift <= 16 && f.greenShift <= 16 && f.blueShift <= 16
    ensures p & !(Mask32(f.redMask) | Mask32(f.greenMask) | Mask32(f.blueMask)) == 0
  {
    var r, g, b := ((c.0 as bv32) << 8) >> f.redShift, ((c.1 as bv32) << 8) >> f.greenShift,
                   ((c.2 as bv32) << 8) >> f.blueShift;
    MaskedBits(r, g, b, Mask32(f.redMask), Mask32(f.greenMask), Mask32(f.blueMask));
    (r & Mask32(f.redMask)) | (g & Mask32(f.greenMask)) | (b & Mask32(f.blueMask))
  }

  /** The low four bytes of a pixel, most significant first (MSBFirst). */
  function BigEndian4(p: bv32): (bytes: seq<bv8>)
    ensures |bytes| == 4
  {
    [((p >> 24) & 0xff) as bv8, ((p >> 16) & 0xff) as bv8, ((p >> 8) & 0xff) as bv8, (p & 0xff) as bv8]
  }

  /** The low two bytes of a pixel, most significant first (MSBFirst). */
  function BigEndian2(p: bv32): (bytes: seq<bv8>)
    ensures |bytes| == 2
  {
    [((p >> 8) & 0xff) as bv8, (p & 0xff) as bv8]
  }

  /** Reading the four bytes back as a big-endian number gives the pixel again. */
  lemma BigEndian4RoundTrip(p: bv32)
    ensures var b := BigEndian4(p);
      ((b[0] as bv32) << 24) | ((b[1] as bv32) << 16) | ((b[2] as bv32) << 8) | (b[3] as bv32) == p
  {
  }

  /** Reading the two bytes back gives the pixel's low 16 bits. */
  lemma BigEndian2RoundTrip(p: bv32)
    ensures var b := BigEndian2(p);
      ((b[0] as bv32) << 8) | (b[1] as bv32) == p & 0xffff
  {
  }

  /** The bytes of one pixel in format f. */
  function PixelBytes(f: Format, c: (bv8, bv8, bv8)): (bytes: seq<bv8>)
    requires f.Ok()
    ensures |bytes| == f.BytesPerPixel()
  {
    if f.depth == 16 then BigEndian2(Pixel16(c, f)) else BigEndian4(Pixel32(c, f))
  }

  /** A pixel colour: red, green, blue. */
  type Color = (bv8, bv8, bv8)

  /**
   * The pixel encoding of format f as a function value, which the packing
   * loops take as their parameter.
   */
  function PixelEncoder(f: Format): (enc: Color -> seq<bv8>)
    requires f.Ok()
    ensures forall c :: enc(c) == PixelBytes(f, c)
  {
    c => PixelBytes(f, c)
  }

  /** At depth 24 with shifts 16/8/0 a pixel is stored as the bytes 0, red, green, blue. */
  lemma TrueColorPixelBytes(c: (bv8, bv8, bv8), masks: (nat, nat, nat))
    ensures PixelBytes(Format(24, 16, 8, 0, masks.0, masks.1, masks.2), c) == [0, c.0, c.1, c.2]
  {
  }

  /** In RGB565 (shifts 0/5/11) a pixel keeps the top 5, 6 and 5 bits of red, green and blue. */
  lemma Rgb565Pixel(c: (bv8, bv8, bv8))
    ensures Pixel16(c, Format(16, 0, 5, 11, 0xf800, 0x07e0, 0x001f))
      == (((c.0 as bv32) >> 3) << 11) | (((c.1 as bv32) >> 2) << 5) | ((c.2 as bv32) >> 3)
  {
  }

  // ---------------------------------------------------------------------
  // Rows and images
  // ---------------------------------------------------------------------

  /** Row r < h starts at k * r and ends within h rows of k items. */
  lemma RowStart(k: nat, r: nat, h: nat)
    requires r < h
    ensures k * r + k == k * (r + 1) <= k * h
  {
    MulLe(r + 1, h, k);
  }

  /**
   * k * n as repeated addition, for the row offsets row * bytes_per_row and
   * row * bytes_per_line: the definition steps from one row to the next
   * without products, and MulIsProduct relates it to k * n.
   */
  function Mul(k: nat, n: nat): nat
    decreases n
  {
    if n == 0 then 0 else Mul(k, n - 1) + k
  }

  /** Mul is multiplication. */
  lemma {:induction false} MulIsProduct(k: nat, n: nat)
    ensures Mul(k, n) == k * n
    decreases n
  {
    if n > 0 {
      MulIsProduct(k, n - 1);
    }
  }

  /** Row r < h of k items ends within h rows: Mul(k, r) + k <= Mul(k, h). */
  lemma {:induction false} RowWithin(k: nat, r: nat, h: nat)
    requires r < h
    ensures Mul(k, r) + k <= Mul(k, h)
    decreases h
  {
    if r < h - 1 {
      RowWithin(k, r, h - 1);
    }
  }

  /** A slice inside the first part of a concatenation is a slice of that part. */
  lemma ConcatFront<T>(p: seq<T>, q: seq<T>, lo: nat, hi: nat)
    requires lo <= hi <= |p|
    ensures (p + q)[lo .. hi] == p[lo .. hi]
  {
    forall i | 0 <= i < hi - lo
      ensures (p + q)[lo .. hi][i] == p[lo .. hi][i]
    {
      assert (p + q)[lo + i] == p[lo + i];
    }
  }

  /** enc encodes every colour as bpp bytes. */
  ghost predicate Encodes(enc: Color -> seq<bv8>, bpp: nat)
  {
    forall c :: |enc(c)| == bpp
  }

  /**
   * The first n pixels of the row whose samples start at offset start of the
   * decoded data, encoded by enc and laid end to end: pixel j is read from
   * the ch samples at start + ch * j.
   */
  function RowBytes(data: seq<bv8>, start: nat, ch: nat, n: nat, bpp: nat, enc: Color -> seq<bv8>,
                    composite: (bv8, bv8, bv8) -> bv8): (bytes: seq<bv8>)
    requires (ch == 3 || ch == 4) && Encodes(enc, bpp)
    requires start + ch * n <= |data|
    ensures |bytes| == bpp * n
    decreases n
  {
    if n == 0 then []
    else
      RowBytes(data, start, ch, n - 1, bpp, enc, composite)
        + enc(PixelColor(data, start + ch * (n - 1), ch, composite))
  }

  /** Pixel j < n of a row fills bytes bpp * j up to bpp * (j + 1) of the encoded row. */
  lemma {:induction false} RowPixelLayout(data: seq<bv8>, start: nat, ch: nat, n: nat, bpp: nat,
                                          enc: Color -> seq<bv8>, composite: (bv8, bv8, bv8) -> bv8, j: nat)
    requires (ch == 3 || ch == 4) && Encodes(enc, bpp)
    requires start + ch * n <= |data| && j < n
    ensures start + ch * j + ch <= |data|
    ensures bpp * j + bpp <= bpp * n
    ensures RowBytes(data, start, ch, n, bpp, enc, composite)[bpp * j .. bpp * (j + 1)]
      == enc(PixelColor(data, start + ch * j, ch, composite))
    decreases n
  {
    RowStart(ch, j, n);
    RowStart(bpp, j, n);
    var init := RowBytes(data, start, ch, n - 1, bpp, enc, composite);
    var last := enc(PixelColor(data, start + ch * (n - 1), ch, composite));
    if j < n - 1 {
      RowPixelLayout(data, start, ch, n - 1, bpp, enc, composite, j);
      RowStart(bpp, j, n - 1);
      ConcatFront(init, last, bpp * j, bpp * (j + 1));
    } else {
      assert (init + last)[|init| ..] == last;
    }
  }

  /**
   * The first h rows of an image, encoded: row r is read from offset
   * Mul(bpr, r) of the decoded data (bytes_per_row), and the encoded rows,
   * line = bpp * w bytes each (bytes_per_line), are laid end to end.
   */
  function ImageBytes(data: seq<bv8>, bpr: nat, ch: nat, w: nat, h: nat, bpp: nat, line: nat,
                      enc: Color -> seq<bv8>, composite: (bv8, bv8, bv8) -> bv8): (bytes: seq<bv8>)
    requires (ch == 3 || ch == 4) && Encodes(enc, bpp) && line == bpp * w
    requires ch * w <= bpr && Mul(bpr, h) <= |data|
    ensures |bytes| == Mul(line, h)
    decreases h
  {
    if h == 0 then []
    else
      ImageBytes(data, bpr, ch, w, h - 1, bpp, line, enc, composite)
        + RowBytes(data, Mul(bpr, h - 1), ch, w, bpp, enc, composite)
  }

  /**
   * Row r < h of the encoded image sits at offset Mul(line, r) and is the
   * encoding of the source row at offset Mul(bpr, r).
   */
  lemma {:induction false} ImageRowLayout(data: seq<bv8>, bpr: nat, ch: nat, w: nat, h: nat, bpp: nat, line: nat,
                                          enc: Color -> seq<bv8>, composite: (bv8, bv8, bv8) -> bv8, r: nat)
    requires (ch == 3 || ch == 4) && Encodes(enc, bpp) && line == bpp * w
    requires ch * w <= bpr && Mul(bpr, h) <= |data| && r < h
    ensures Mul(bpr, r) + ch * w <= |data|
    ensures Mul(line, r) + line <= Mul(line, h)
    ensures ImageBytes(data, bpr, ch, w, h, bpp, line, enc, composite)[Mul(line, r) .. Mul(line, r) + line]
      == RowBytes(data, Mul(bpr, r), ch, w, bpp, enc, composite)
    decreases h
  {
    RowWithin(bpr, r, h);
    RowWithin(line, r, h);
    var init := ImageBytes(data, bpr, ch, w, h - 1, bpp, line, enc, composite);
    var last := RowBytes(data, Mul(bpr, h - 1), ch, w, bpp, enc, composite);
    if r < h - 1 {
      ImageRowLayout(data, bpr, ch, w, h - 1, bpp, line, enc, composite, r);
      ConcatFront(init, last, Mul(line, r), Mul(line, r) + line);
    } else {
      assert (init + last)[|init| ..] == last;
    }
  }

  /**
   * The `*src++` reads of one pixel: the colour of the ch samples at src[s..],
   * where data is the contents of src.
   */
  method ReadPixel(src: array<bv8>, ghost data: seq<bv8>, s: nat, ch: nat,
                   composite: (bv8, bv8, bv8) -> bv8) returns (c: Color)
    requires data == src[..] && (ch == 3 || ch == 4) && s + ch <= src.Length
    ensures c == PixelColor(data, s, ch, composite)
  {
    var r, g, b := src[s], src[s + 1], src[s + 2];
    if ch == 3 {
      c := (r, g, b);
    } else {
      var a := src[s + 3];
      if a == 255 {
        c := (r, g, b);
      } else if a == 0 {
        c := (BackgroundRed, BackgroundGreen, BackgroundBlue);
      } else {
        c := (composite(r, a, BackgroundRed), composite(g, a, BackgroundGreen), composite(b, a, BackgroundBlue));
      }
    }
  }

  /**
   * The `*dest++ = ...` stores of one pixel: its 2 or 4 bytes written at
   * dest[d..]; every other byte keeps its value.
   */
  method PutPixel(dest: array<bv8>, d: nat, bytes: seq<bv8>)
    requires |bytes| == 2 || |bytes| == 4
    requires d + |bytes| <= dest.Length
    modifies dest
    ensures forall k :: d <= k < d + |bytes| ==> dest[k] == bytes[k - d]
    ensures forall k :: 0 <= k < dest.Length && !(d <= k < d + |bytes|) ==> dest[k] == old(dest[k])
  {
    dest[d] := bytes[0];
    dest[d + 1] := bytes[1];
    if |bytes| == 4 {
      dest[d + 2] := bytes[2];
      dest[d + 3] := bytes[3];
    }
  }

  /**
   * One row of RGB pixels at depth 24/32: the `for (i = width; i > 0; --i)`
   * loop of x11_png_create_ximage for 3 samples per pixel, reading
   * 3 * width samples from src[srcStart..] and writing 4 * width bytes at
   * dest[destStart..]; every other byte of dest keeps its value.
   */
  method PackRowRgb32(src: array<bv8>, ghost data: seq<bv8>, srcStart: nat, dest: array<bv8>, destStart: nat,
                 width: nat, enc: Color -> seq<bv8>, composite: (bv8, bv8, bv8) -> bv8)
    requires src != dest && data == src[..] && Encodes(enc, 4)
    requires srcStart + 3 * width <= |data| && destStart + 4 * width <= dest.Length
    modifies dest
    ensures forall k :: destStart <= k < destStart + 4 * width ==>
      dest[k] == RowBytes(data, srcStart, 3, width, 4, enc, composite)[k - destStart]
    ensures forall k :: 0 <= k < dest.Length && !(destStart <= k < destStart + 4 * width) ==> dest[k] == old(dest[k])
  {
    var s: nat, d: nat := srcStart, destStart;
    var i := width;
    ghost var n := 0;
    while i > 0
      invariant n == width - i <= width
      invariant s == srcStart + 3 * n && d == destStart + 4 * n
      invariant forall k :: destStart <= k < d ==>
        dest[k] == RowBytes(data, srcStart, 3, n, 4, enc, composite)[k - destStart]
      invariant forall k :: 0 <= k < dest.Length && !(destStart <= k < d) ==> dest[k] == old(dest[k])
    {
      var c := ReadPixel(src, data, s, 3, composite);
      var bytes := enc(c);
      assert RowBytes(data, srcStart, 3, n + 1, 4, enc, composite)
        == RowBytes(data, srcStart, 3, n, 4, enc, composite) + bytes;
      PutPixel(dest, d, bytes);
      s, d, i := s + 3, d + 4, i - 1;
      n := n + 1;
    }
  }

  /**
   * One row of RGBA pixels at depth 24/32: the `for (i = width; i > 0; --i)`
   * loop of x11_png_create_ximage for 4 samples per pixel, reading
   * 4 * width samples from src[srcStart..] and writing 4 * width bytes at
   * dest[destStart..]; every other byte of dest keeps its value.
   */
  method PackRowRgba32(src: array<bv8>, ghost data: seq<bv8>, srcStart: nat, dest: array<bv8>, destStart: nat,
                 width: nat, enc: Color -> seq<bv8>, composite: (bv8, bv8, bv8) -> bv8)
    requires src != dest && data == src[..] && Encodes(enc, 4)
    requires srcStart + 4 * width <= |data| && destStart + 4 * width <= dest.Length
    modifies dest
    ensures forall k :: destStart <= k < destStart + 4 * width ==>
      dest[k] == RowBytes(data, srcStart, 4, width, 4, enc, composite)[k - destStart]
    ensures forall k :: 0 <= k < dest.Length && !(destStart <= k < destStart + 4 * width) ==> dest[k] == old(dest[k])
  {
    var s: nat, d: nat := srcStart, destStart;
    var i := width;
    ghost var n := 0;
    while i > 0
      invariant n == width - i <= width
      invariant s == srcStart + 4 * n && d == destStart + 4 * n
      invariant forall k :: destStart <= k < d ==>
        dest[k] == RowBytes(data, srcStart, 4, n, 4, enc, composite)[k - destStart]
      invariant forall k :: 0 <= k < dest.Length && !(destStart <= k < d) ==> dest[k] == old(dest[k])
    {
      var c := ReadPixel(src, data, s, 4, composite);
      var bytes := enc(c);
      assert RowBytes(data, srcStart, 4, n + 1, 4, enc, composite)
        == RowBytes(data, srcStart, 4, n, 4, enc, composite) + bytes;
      PutPixel(dest, d, bytes);
      s, d, i := s + 4, d + 4, i - 1;
      n := n + 1;
    }
  }

  /**
   * One row of RGB pixels at depth 16: the `for (i = width; i > 0; --i)`
   * loop of x11_png_create_ximage for 3 samples per pixel, reading
   * 3 * width samples from src[srcStart..] and writing 2 * width bytes at
   * dest[destStart..]; every other byte of dest keeps its value.
   */
  method PackRowRgb16(src: array<bv8>, ghost data: seq<bv8>, srcStart: nat, dest: array<bv8>, destStart: nat,
                 width: nat, enc: Color -> seq<bv8>, composite: (bv8, bv8, bv8) -> bv8)
    requires src != dest && data == src[..] && Encodes(enc, 2)
    requires srcStart + 3 * width <= |data| && destStart + 2 * width <= dest.Length
    modifies dest
    ensures forall k :: destStart <= k < destStart + 2 * width ==>
      dest[k] == RowBytes(data, srcStart, 3, width, 2, enc, composite)[k - destStart]
    ensures forall k :: 0 <= k < dest.Length && !(destStart <= k < destStart + 2 * width) ==> dest[k] == old(dest[k])
  {
    var s: nat, d: nat := srcStart, destStart;
    var i := width;
    ghost var n := 0;
    while i > 0
      invariant n == width - i <= width
      invariant s == srcStart + 3 * n && d == destStart + 2 * n
      invariant forall k :: destStart <= k < d ==>
        dest[k] == RowBytes(data, srcStart, 3, n, 2, enc, composite)[k - destStart]
      invariant forall k :: 0 <= k < dest.Length && !(destStart <= k < d) ==> dest[k] == old(dest[k])
    {
      var c := ReadPixel(src, data, s, 3, composite);
      var bytes := enc(c);
      assert RowBytes(data, srcStart, 3, n + 1, 2, enc, composite)
        == RowBytes(data, srcStart, 3, n, 2, enc, composite) + bytes;
      PutPixel(dest, d, bytes);
      s, d, i := s + 3, d + 2, i - 1;
      n := n + 1;
    }
  }

  /**
   * One row of RGBA pixels at depth 16: the `for (i = width; i > 0; --i)`
   * loop of x11_png_create_ximage for 4 samples per pixel, reading
   * 4 * width samples from src[srcStart..] and writing 2 * width bytes at
   * dest[destStart..]; every other byte of dest keeps its value.
   */
  method PackRowRgba16(src: array<bv8>, ghost data: seq<bv8>, srcStart: nat, dest: array<bv8>, destStart: nat,
                 width: nat, enc: Color -> seq<bv8>, composite: (bv8, bv8, bv8) -> bv8)
    requires src != dest && data == src[..] && Encodes(enc, 2)
    requires srcStart + 4 * width <= |data| && destStart + 2 * width <= dest.Length
    modifies dest
    ensures forall k :: destStart <= k < destStart + 2 * width ==>
      dest[k] == RowBytes(data, srcStart, 4, width, 2, enc, composite)[k - destStart]
    ensures forall k :: 0 <= k < dest.Length && !(destStart <= k < destStart + 2 * width) ==> dest[k] == old(dest[k])
  {
    var s: nat, d: nat := srcStart, destStart;
    var i := width;
    ghost var n := 0;
    while i > 0
      invariant n == width - i <= width
      invariant s == srcStart + 4 * n && d == destStart + 2 * n
      invariant forall k :: destStart <= k < d ==>
        dest[k] == RowBytes(data, srcStart, 4, n, 2, enc, composite)[k - destStart]
      invariant forall k :: 0 <= k < dest.Length && !(destStart <= k < d) ==> dest[k] == old(dest[k])
    {
      var c := ReadPixel(src, data, s, 4, composite);
      var bytes := enc(c);
      assert RowBytes(data, srcStart, 4, n + 1, 2, enc, composite)
        == RowBytes(data, srcStart, 4, n, 2, enc, composite) + bytes;
      PutPixel(dest, d, bytes);
      s, d, i := s + 4, d + 2, i - 1;
      n := n + 1;
    }
  }

  /**
   * One row of x11_png_create_ximage's packing: the loop for the image's
   * samples per pixel (3 or 4) and the display's bytes per pixel (4 at depth
   * 24/32, 2 at depth 16), writing bpp * width bytes at dest[destStart..];
   * every other byte of dest keeps its value.
   */
  method PackRow(src: array<bv8>, ghost data: seq<bv8>, srcStart: nat, dest: array<bv8>, destStart: nat,
                 ch: nat, width: nat, bpp: nat, enc: Color -> seq<bv8>, composite: (bv8, bv8, bv8) -> bv8)
    requires src != dest && data == src[..]
    requires (ch == 3 || ch == 4) && (bpp == 2 || bpp == 4) && Encodes(enc, bpp)
    requires srcStart + ch * width <= |data| && destStart + bpp * width <= dest.Length
    modifies dest
    ensures forall k :: destStart <= k < destStart + bpp * width ==>
      dest[k] == RowBytes(data, srcStart, ch, width, bpp, enc, composite)[k - destStart]
    ensures forall k :: 0 <= k < dest.Length && !(destStart <= k < destStart + bpp * width) ==> dest[k] == old(dest[k])
  {
    if bpp == 4 && ch == 3 {
      PackRowRgb32(src, data, srcStart, dest, destStart, width, enc, composite);
    } else if bpp == 4 {
      PackRowRgba32(src, data, srcStart, dest, destStart, width, enc, composite);
    } else if ch == 3 {
      PackRowRgb16(src, data, srcStart, dest, destStart, width, enc, composite);
    } else {
      PackRowRgba16(src, data, srcStart, dest, destStart, width, enc, composite);
    }
  }

  /**
   * One pass of the row loop of x11_png_create_ximage: with rows 0..row-1
   * already encoded at the front of xdata, row `row` (source offset
   * Mul(bpr, row)) is encoded at Mul(line, row), extending the encoded prefix by one
   * row.
   */
  method PackImageRow(src: array<bv8>, ghost data: seq<bv8>, bpr: nat, ch: nat, w: nat, h: nat, bpp: nat,
                      line: nat, enc: Color -> seq<bv8>, composite: (bv8, bv8, bv8) -> bv8,
                      xdata: array<bv8>, row: nat)
    requires src != xdata && data == src[..]
    requires (ch == 3 || ch == 4) && (bpp == 2 || bpp == 4) && Encodes(enc, bpp) && line == bpp * w
    requires ch * w <= bpr && Mul(bpr, h) <= |data| && row < h
    requires Mul(bpr, row) + bpr <= Mul(bpr, h) && Mul(line, row) + line <= Mul(line, h)
    requires xdata.Length == Mul(line, h)
    requires forall k :: 0 <= k < Mul(line, row) ==>
      xdata[k] == ImageBytes(data, bpr, ch, w, row, bpp, line, enc, composite)[k]
    modifies xdata
    ensures forall k :: 0 <= k < Mul(line, row) + line ==>
      xdata[k] == ImageBytes(data, bpr, ch, w, row + 1, bpp, line, enc, composite)[k]
  {
    ghost var before := ImageBytes(data, bpr, ch, w, row, bpp, line, enc, composite);
    ghost var after := ImageBytes(data, bpr, ch, w, row + 1, bpp, line, enc, composite);
    ghost var bytes := RowBytes(data, Mul(bpr, row), ch, w, bpp, enc, composite);
    assert after == before + bytes;
    var start := Mul(line, row);
    PackRow(src, data, Mul(bpr, row), xdata, start, ch, w, bpp, enc, composite);
    forall k | 0 <= k < start + line ensures xdata[k] == after[k] {
      if k < start {
        assert after[k] == before[k];
      } else {
        assert after[k] == bytes[k - start];
      }
    }
  }

  /**
   * The row loop `for (row = 0; row < height; ++row)` of
   * x11_png_create_ximage: source row r at Mul(bpr, r) (bytes_per_row), its
   * encoding at Mul(line, r) of xdata (bytes_per_line); afterwards xdata holds
   * the whole encoded image.
   */
  method PackImage(src: array<bv8>, bpr: nat, ch: nat, w: nat, h: nat, bpp: nat, line: nat,
                   enc: Color -> seq<bv8>, composite: (bv8, bv8, bv8) -> bv8, xdata: array<bv8>)
    requires src != xdata && (ch == 3 || ch == 4) && (bpp == 2 || bpp == 4) && Encodes(enc, bpp)
    requires line == bpp * w && ch * w <= bpr && Mul(bpr, h) <= src.Length
    requires xdata.Length == Mul(line, h)
    modifies xdata
    ensures xdata[..] == ImageBytes(src[..], bpr, ch, w, h, bpp, line, enc, composite)
  {
    ghost var data := src[..];
    var row := 0;
    while row < h
      invariant row <= h && Mul(bpr, row) <= Mul(bpr, h) && Mul(line, row) <= Mul(line, h)
      invariant src[..] == data
      invariant forall k :: 0 <= k < Mul(line, row) ==>
        xdata[k] == ImageBytes(data, bpr, ch, w, row, bpp, line, enc, composite)[k]
    {
      RowWithin(bpr, row, h);
      RowWithin(line, row, h);
      PackImageRow(src, data, bpr, ch, w, h, bpp, line, enc, composite, xdata, row);
      row := row + 1;
    }
    assert xdata[..] == ImageBytes(data, bpr, ch, w, h, bpp, line, enc, composite);
  }

  /**
   * The decoded image as x11_png_read_image leaves it (width, height, samples
   * per pixel, bytes per row and the row data) and the three channel shifts.
   */
  class PngImage {
    var width: nat
    var height: nat
    var channels: nat
    var bytesPerRow: nat
    var imageData: array<bv8>
    var redShift: int
    var greenShift: int
    var blueShift: int

    /** The data holds height rows of bytesPerRow bytes, each row at least width pixels long. */
    ghost predicate Valid()
      reads this
    {
      imageData.Length == Mul(bytesPerRow, height) && channels * width <= bytesPerRow
    }

    /** A decoded image with the zeroed shifts mem_zalloc leaves. */
    constructor (width: nat, height: nat, channels: nat, bytesPerRow: nat, imageData: array<bv8>)
      requires imageData.Length == bytesPerRow * height && channels * width <= bytesPerRow
      ensures Valid()
      ensures this.width == width && this.height == height && this.channels == channels
      ensures this.bytesPerRow == bytesPerRow && this.imageData == imageData
      ensures redShift == 0 && greenShift == 0 && blueShift == 0
    {
      MulIsProduct(bytesPerRow, height);
      this.width := width;
      this.height := height;
      this.channels := channels;
      this.bytesPerRow := bytesPerRow;
      this.imageData := imageData;
      redShift, greenShift, blueShift := 0, 0, 0;
    }

    /**
     * x11_png_calculate_shifts: at depth 15/16 right shifts 15 - msb(mask), at
     * depth > 16 left shifts msb(mask) - 7, shallower depths leave the shifts
     * alone; false exactly when the depth is at least 15 and a shift is negative.
     */
    method CalculateShifts(depth: int, redMask: nat, greenMask: nat, blueMask: nat) returns (ok: bool)
      modifies this`redShift, this`greenShift, this`blueShift
      ensures depth == 15 || depth == 16 ==>
        && redShift == 15 - HighBit(U32(redMask))
        && greenShift == 15 - HighBit(U32(greenMask))
        && blueShift == 15 - HighBit(U32(blueMask))
      ensures depth > 16 ==>
        && redShift == HighBit(U32(redMask)) - 7
        && greenShift == HighBit(U32(greenMask)) - 7
        && blueShift == HighBit(U32(blueMask)) - 7
      ensures depth < 15 ==>
        redShift == old(redShift) && greenShift == old(greenShift) && blueShift == old(blueShift)
      ensures ok <==> !(depth >= 15 && (redShift < 0 || greenShift < 0 || blueShift < 0))
    {
      if depth == 15 || depth == 16 {
        var r := Msb(redMask);
        var g := Msb(greenMask);
        var b := Msb(blueMask);
        redShift, greenShift, blueShift := 15 - r, 15 - g, 15 - b;
      } else if depth > 16 {
        var r := Msb(redMask);
        var g := Msb(greenMask);
        var b := Msb(blueMask);
        redShift, greenShift, blueShift := r - 7, g - 7, b - 7;
      }
      ok := !(depth >= 15 && (redShift < 0 || greenShift < 0 || blueShift < 0));
    }

    /**
     * x11_png_create_ximage: None (NULL) when the shifts are negative, the
     * depth is not 16, 24 or 32, the XImage cannot be created
     * (`ximageCreated` false) or the image does not have 3 or 4 samples per
     * pixel; otherwise a fresh buffer of 2 (depth 16) or 4 (depth 24/32)
     * bytes per pixel holding every row's encoding.
     */
    method CreateXImage(depth: int, redMask: nat, greenMask: nat, blueMask: nat,
                        ximageCreated: bool, composite: (bv8, bv8, bv8) -> bv8)
      returns (ximage: Option<array<bv8>>)
      requires Valid()
      modifies this`redShift, this`greenShift, this`blueShift
      ensures depth == 15 || depth == 16 ==>
        && redShift == 15 - HighBit(U32(redMask))
        && greenShift == 15 - HighBit(U32(greenMask))
        && blueShift == 15 - HighBit(U32(blueMask))
      ensures depth > 16 ==>
        && redShift == HighBit(U32(redMask)) - 7
        && greenShift == HighBit(U32(greenMask)) - 7
        && blueShift == HighBit(U32(blueMask)) - 7
      ensures ximage.Some? <==>
        && (depth == 16 || depth == 24 || depth == 32)
        && redShift >= 0 && greenShift >= 0 && blueShift >= 0
        && ximageCreated
        && (channels == 3 || channels == 4)
      ensures ximage.Some? ==>
        var f := Format(depth, redShift, greenShift, blueShift,
                        U32(redMask), U32(greenMask), U32(blueMask));
        && f.Ok()
        && fresh(ximage.value)
        && ximage.value.Length == f.BytesPerPixel() * width * height
        && ximage.value[..] == ImageBytes(imageData[..], bytesPerRow, channels, width, height,
                                          f.BytesPerPixel(), f.LineBytes(width),
                                          PixelEncoder(f), composite)
    {
      var ok := CalculateShifts(depth, redMask, greenMask, blueMask);
      if !ok {
        return None;
      }
      var bpp: nat;
      if depth == 24 || depth == 32 {
        bpp := 4;
      } else if depth == 16 {
        bpp := 2;
      } else {
        return None;
      }
      var bytesPerLine := Mul(bpp, width);
      var xdata := new bv8[Mul(bytesPerLine, height)];
      MulIsProduct(bpp, width);
      MulIsProduct(bytesPerLine, height);
      if !ximageCreated {
        return None;
      }
      if channels != 3 && channels != 4 {
        return None;
      }
      var f := Format(depth, redShift, greenShift, blueShift,
                      U32(redMask), U32(greenMask), U32(blueMask));
      assert f.BytesPerPixel() == bpp;
      PackImage(imageData, bytesPerRow, channels, width, height, bpp, bytesPerLine, PixelEncoder(f), composite, xdata);
      return Some(xdata);
    }
  }
}
