/**
 * The X11 helper layer: the display record and its derived fields, the
 * window, colour and font records the terms own, and the cell/pixel
 * arithmetic behind drawing text, wiping, the cursor and tiles. Xlib
 * calls are not made; what they would be given is returned instead.
 */
module X11Util {

  import opened CInt

  /** An X11 pixel value (`unsigned long`, 64 bits). */
  newtype Pixel = v: int | 0 <= v < 0x1_0000_0000_0000_0000

  /** Bitwise exclusive or of two pixel values. */
  function Xor(a: Pixel, b: Pixel): (r: Pixel)
    ensures a == b ==> r == 0
  {
    ((a as bv64) ^ (b as bv64)) as int as Pixel
  }

  /** A rectangle as handed to XFillRectangle / XDrawRectangle. */
  datatype Rect = Rect(x: int, y: int, w: int, h: int)

  predicate InS16(v: int)
  {
    -32768 <= v < 32768
  }

  /** struct x11_window: the X window handle, the inner border and the geometry, all `s16b` but the `u16b` border width. */
  class Window {
    var handle: nat
    var ox: int
    var oy: int
    var x: int
    var y: int
    var w: int
    var h: int
    var b: nat

    ghost predicate Valid()
      reads this
    {
      InS16(ox) && InS16(oy) && InS16(x) && InS16(y) && InS16(w) && InS16(h) && b < 65536
    }

    /**
     * x11_window_init on a zeroed record: the handle of the new window and
     * the geometry XGetGeometry reports are stored, the latter in the
     * 16-bit fields (wrapping); the border offsets are 0.
     */
    constructor (handle: nat, x: int, y: int, w: int, h: int, b: nat)
      ensures Valid() && this.handle == handle
      ensures this.x == S16(x) && this.y == S16(y) && this.w == S16(w) && this.h == S16(h) && this.b == b % 65536
      ensures ox == 0 && oy == 0
    {
      this.handle := handle;
      this.x, this.y, this.w, this.h := S16(x), S16(y), S16(w), S16(h);
      this.b := b % 65536;
      ox, oy := 0, 0;
    }

    /** x11_window_set_border. */
    method SetBorder(ox: int, oy: int)
      requires Valid() && InS16(ox) && InS16(oy)
      modifies this
      ensures Valid() && this.ox == ox && this.oy == oy
      ensures handle == old(handle) && x == old(x) && y == old(y) && w == old(w) && h == old(h) && b == old(b)
    {
      this.ox, this.oy := ox, oy;
    }
  }

  /** struct x11_font: the metrics the text code uses (`s16b` sizes, a byte offset). */
  class Font {
    var width: int
    var height: int
    var ascent: int
    var off: int

    constructor ()
      ensures width == 0 && height == 0 && ascent == 0 && off == 0
    {
      width, height, ascent, off := 0, 0, 0, 0;
    }

    /**
     * x11_font_prepare: the ascent is the maximum over the font set's
     * fonts (starting from 0, stored in an `s16b`), the height and width
     * are the set's maximal logical extent.
     */
    method Prepare(ascents: seq<int>, extentWidth: int, extentHeight: int)
      modifies this
      ensures ascent == MaxAscent(ascents)
      ensures height == S16(extentHeight) && width == S16(extentWidth) && off == old(off)
    {
      ascent := 0;
      var i := 0;
      while i < |ascents|
        invariant 0 <= i <= |ascents|
        invariant ascent == MaxAscent(ascents[..i]) && off == old(off)
      {
        assert ascents[..i + 1][..i] == ascents[..i];
        if ascent < ascents[i] {
          ascent := S16(ascents[i]);
        }
        i := i + 1;
      }
      assert ascents[..|ascents|] == ascents;
      height := S16(extentHeight);
      width := S16(extentWidth);
    }
  }

  /**
   * The value the ascent loop leaves, fonts taken in order: a larger
   * ascent replaces the current one, truncated to 16 bits.
   */
  function MaxAscent(ascents: seq<int>): (m: int)
    ensures InS16(m)
    ensures m >= 0 || exists k :: 0 <= k < |ascents| && m == S16(ascents[k])
    decreases |ascents|
  {
    if |ascents| == 0 then 0
    else
      var m := MaxAscent(ascents[..|ascents| - 1]);
      var a := ascents[|ascents| - 1];
      if m < a then S16(a) else m
  }

  /** When every ascent fits in 16 bits the loop computes the true maximum (0 for no fonts). */
  lemma {:induction false} MaxAscentIsMax(ascents: seq<int>)
    requires forall k :: 0 <= k < |ascents| ==> InS16(ascents[k])
    ensures MaxAscent(ascents) >= 0
    ensures forall k :: 0 <= k < |ascents| ==> ascents[k] <= MaxAscent(ascents)
    ensures MaxAscent(ascents) == 0 || exists k :: 0 <= k < |ascents| && MaxAscent(ascents) == ascents[k]
    decreases |ascents|
  {
    if |ascents| > 0 {
      var front := ascents[..|ascents| - 1];
      assert forall k :: 0 <= k < |front| ==> front[k] == ascents[k];
      MaxAscentIsMax(front);
      var m := MaxAscent(front);
      if m != 0 && MaxAscent(ascents) == m {
        var k :| 0 <= k < |front| && m == front[k];
        assert ascents[k] == m;
      }
    }
  }

  /** struct x11_term_data: the font, the window and the tile size of a term. */
  class TermData {
    var font: Font
    var win: Window
    var tileWidth: int
    var tileWidth2: int
    var tileHeight: int

    constructor (font: Font, win: Window, tileWidth: int, tileHeight: int)
      ensures this.font == font && this.win == win
      ensures this.tileWidth == tileWidth && this.tileWidth2 == tileWidth && this.tileHeight == tileHeight
    {
      this.font, this.win := font, win;
      this.tileWidth, this.tileWidth2, this.tileHeight := tileWidth, tileWidth, tileHeight;
    }
  }

  // ---------------------------------------------------------------------
  // Cells and pixels
  // ---------------------------------------------------------------------

  /** One axis of x11_pixel_to_square: the pixel's offset past the border in whole tiles, truncated toward zero. */
  function PixelToCell(p: int, border: int, tile: int): (c: int)
    requires tile > 0
    ensures p >= border ==> c >= 0 && c * tile + border <= p < c * tile + border + tile
    ensures p < border ==> c <= 0
  {
    Div(p - border, tile)
  }

  /**
   * x11_pixel_to_square: the cell under a pixel, by C's truncating
   * division, so a pixel in the left/top border (px < ox) still yields
   * column/row 0 when it is less than one cell away.
   */
  function PixelToSquare(td: TermData, px: int, py: int): (cell: (int, int))
    reads td, td.win
    requires td.tileWidth > 0 && td.tileHeight > 0
    ensures px >= td.win.ox ==>
      cell.0 >= 0 && cell.0 * td.tileWidth + td.win.ox <= px < cell.0 * td.tileWidth + td.win.ox + td.tileWidth
    ensures py >= td.win.oy ==>
      cell.1 >= 0 && cell.1 * td.tileHeight + td.win.oy <= py < cell.1 * td.tileHeight + td.win.oy + td.tileHeight
    ensures px < td.win.ox ==> cell.0 <= 0
    ensures py < td.win.oy ==> cell.1 <= 0
  {
    (PixelToCell(px, td.win.ox, td.tileWidth), PixelToCell(py, td.win.oy, td.tileHeight))
  }

  /** The pixels of cell (cx, cy) all map back to that cell. */
  lemma PixelToSquareOfCell(td: TermData, cx: int, cy: int, dx: int, dy: int)
    requires td.tileWidth > 0 && td.tileHeight > 0 && cx >= 0 && cy >= 0
    requires 0 <= dx < td.tileWidth && 0 <= dy < td.tileHeight
    ensures PixelToSquare(td, cx * td.tileWidth + td.win.ox + dx, cy * td.tileHeight + td.win.oy + dy) == (cx, cy)
  {
    DivOfCellOffset(cx, dx, td.tileWidth);
    DivOfCellOffset(cy, dy, td.tileHeight);
  }

  /** Border pixels less than a cell left of (or above) the grid truncate to column (row) 0, not -1. */
  lemma BorderPixelIsCellZero(td: TermData, px: int, py: int)
    requires td.tileWidth > 0 && td.tileHeight > 0
    requires td.win.ox - td.tileWidth < px <= td.win.ox && td.win.oy - td.tileHeight < py <= td.win.oy
    ensures PixelToSquare(td, px, py) == (0, 0)
  {
    DivSmall(px - td.win.ox, td.tileWidth);
    DivSmall(py - td.win.oy, td.tileHeight);
  }

  /** x11_draw_curs: the outline is one pixel short of the cell so that it covers exactly the cell. */
  function CursorRect(td: TermData, x: int, y: int): (r: Rect)
    reads td, td.win
    ensures r.x == x * td.tileWidth + td.win.ox && r.y == y * td.tileHeight + td.win.oy
    ensures r.x + r.w == r.x + td.tileWidth - 1 && r.y + r.h == r.y + td.tileHeight - 1
  {
    Rect(x * td.tileWidth + td.win.ox, y * td.tileHeight + td.win.oy, td.tileWidth - 1, td.tileHeight - 1)
  }

  /** x11_draw_bigcurs: the same outline, tile_width2 wide. */
  function BigCursorRect(td: TermData, x: int, y: int): (r: Rect)
    reads td, td.win
    ensures r.x == CursorRect(td, x, y).x && r.y == CursorRect(td, x, y).y && r.h == CursorRect(td, x, y).h
    ensures td.tileWidth2 == td.tileWidth ==> r == CursorRect(td, x, y)
  {
    Rect(x * td.tileWidth + td.win.ox, y * td.tileHeight + td.win.oy, td.tileWidth2 - 1, td.tileHeight - 1)
  }

  /**
   * The outline XDrawRectangle draws spans columns r.x..r.x+r.w and rows
   * r.y..r.y+r.h; every pixel of that span lies in the cursor's cell.
   */
  lemma CursorCoversItsCell(td: TermData, x: int, y: int, px: int, py: int)
    requires td.tileWidth > 0 && td.tileHeight > 0 && x >= 0 && y >= 0
    requires CursorRect(td, x, y).x <= px <= CursorRect(td, x, y).x + CursorRect(td, x, y).w
    requires CursorRect(td, x, y).y <= py <= CursorRect(td, x, y).y + CursorRect(td, x, y).h
    ensures PixelToSquare(td, px, py) == (x, y)
  {
    var r := CursorRect(td, x, y);
    PixelToSquareOfCell(td, x, y, px - r.x, py - r.y);
    assert x * td.tileWidth + td.win.ox + (px - r.x) == px;
  }

  /** One XwcDrawImageString call: a character at a pixel position (y is the baseline). */
  datatype Glyph = Glyph(x: int, y: int, c: char)

  /**
   * x11_font_text_std: -1 for a missing or empty string; otherwise the
   * background rectangle of len cells (len < 0 meaning the whole string)
   * and one glyph per cell, offset by the font's `off` and dropped to the
   * baseline.
   */
  method FontTextStd(td: TermData, x: int, y: int, str: Option<string>, len: int)
    returns (r: int, fill: Option<Rect>, glyphs: seq<Glyph>)
    requires str.Some? && len >= 0 ==> len <= |str.value|
    ensures r == -1 <==> str.None? || |str.value| == 0
    ensures r == -1 ==> fill.None? && glyphs == []
    ensures r == 0 ==>
      var n := if len < 0 then |str.value| else len;
      var left := x * td.tileWidth + td.win.ox;
      var top := y * td.tileHeight + td.win.oy;
      && fill == Some(Rect(left, top, n * td.tileWidth, td.tileHeight))
      && |glyphs| == n
      && forall i :: 0 <= i < n ==>
           glyphs[i] == Glyph(left + i * td.tileWidth + td.font.off, top + td.font.ascent, str.value[i])
  {
    if str.None? || |str.value| == 0 {
      return -1, None, [];
    }
    var s := str.value;
    var n := if len < 0 then |s| else len;
    var px := x * td.tileWidth + td.win.ox;
    var py := y * td.tileHeight + td.win.oy;
    fill := Some(Rect(px, py, n * td.tileWidth, td.tileHeight));
    py := py + td.font.ascent;
    glyphs := [];
    var i := 0;
    while i < n
      invariant 0 <= i <= n && |glyphs| == i
      invariant forall k :: 0 <= k < i ==> glyphs[k] == Glyph(px + k * td.tileWidth + td.font.off, py, s[k])
    {
      glyphs := glyphs + [Glyph(px + i * td.tileWidth + td.font.off, py, s[i])];
      i := i + 1;
    }
    r := 0;
  }

  /** x11_font_text_non: the rectangle painted where len characters (len < 0: all of str) would go. */
  function FontTextNon(td: TermData, x: int, y: int, str: string, len: int): (r: Rect)
    reads td, td.win
    ensures r.w == (if len < 0 then |str| else len) * td.tileWidth && r.h == td.tileHeight
    ensures r.x == x * td.tileWidth + td.win.ox && r.y == y * td.tileHeight + td.win.oy
  {
    var n := if len < 0 then |str| else len;
    var h := td.tileHeight;
    Rect(x * td.tileWidth + td.win.ox, y * h + td.win.oy, n * td.tileWidth, h)
  }

  /** Glyph i starts inside the i-th cell of the filled rectangle when 0 <= off < tile width. */
  lemma GlyphInsideCell(left: int, tw: int, off: int, i: int, n: int)
    requires tw > 0 && 0 <= off < tw && 0 <= i < n
    ensures left + i * tw <= left + i * tw + off < left + (i + 1) * tw
    ensures left + (i + 1) * tw <= left + n * tw
  {
    assert (i + 1) * tw == i * tw + tw;
    MulGrows(n - (i + 1) + 1, tw);
    assert n * tw == (i + 1) * tw + (n - (i + 1)) * tw;
    if n - (i + 1) > 0 {
      MulGrows(n - (i + 1), tw);
    }
  }

  // ---------------------------------------------------------------------
  // Tiles
  // ---------------------------------------------------------------------

  /**
   * x11_draw_tile as written: the tile is refused when dest+size exceeds
   * the window's POSITION (win->x, win->y). The sums are `unsigned int`
   * and the `s16b` position is converted to `unsigned int` as well.
   */
  function DrawTile(win: Window, destX: int, destY: int, width: nat, height: nat): (drawn: bool)
    reads win
    ensures drawn <==> U32(destX + width) <= U32(win.x) && U32(destY + height) <= U32(win.y)
  {
    !(U32(destX + width) > U32(win.x) || U32(destY + height) > U32(win.y))
  }

  /** The bounds check as intended: against the window's size (win->w, win->h). */
  function DrawTileIntended(win: Window, destX: int, destY: int, width: nat, height: nat): (drawn: bool)
    reads win
    ensures drawn <==> U32(destX + width) <= U32(win.w) && U32(destY + height) <= U32(win.h)
  {
    !(U32(destX + width) > U32(win.w) || U32(destY + height) > U32(win.h))
  }

  /** A main window placed at the screen origin never gets a tile drawn, whatever its size. */
  lemma DrawTileRefusesWindowAtOrigin(win: Window, destX: int, destY: int, width: nat, height: nat)
    requires win.x == 0 && win.y == 0
    requires 0 <= destX && 0 <= destY && destX + width < 0x1_0000_0000 && destY + height < 0x1_0000_0000
    requires width > 0
    ensures !DrawTile(win, destX, destY, width, height)
  {
  }

  /** The corrected check draws exactly the tiles that lie inside the window. */
  lemma DrawTileIntendedInsideWindow(win: Window, destX: int, destY: int, width: nat, height: nat)
    requires win.Valid() && win.w >= 0 && win.h >= 0
    requires 0 <= destX && 0 <= destY && destX + width < 0x1_0000_0000 && destY + height < 0x1_0000_0000
    ensures DrawTileIntended(win, destX, destY, width, height) <==> destX + width <= win.w && destY + height <= win.h
  {
  }

  // ---------------------------------------------------------------------
  // The display and its colours
  // ---------------------------------------------------------------------

  /**
   * `((pixell)1 << depth) - 1`: the low depth bits set, that is
   * 2^depth - 1 reduced modulo 2^64.
   */
  function MaxPixel(depth: nat): (zg: Pixel)
    ensures depth <= 64 ==> zg as int == Pow2(depth) - 1
  {
    Pow2Le64(depth);
    ((Pow2(depth) - 1) % 0x1_0000_0000_0000_0000) as Pixel
  }

  lemma Pow2Of64()
    ensures Pow2(64) == 0x1_0000_0000_0000_0000
  {
    assert Pow2(8) == 256;
    assert Pow2(16) == 0x1_0000 by {
      Pow2Add(8, 8);
    }
    assert Pow2(32) == 0x1_0000_0000 by {
      Pow2Add(16, 16);
    }
    Pow2Add(32, 32);
  }

  lemma Pow2Le64(n: nat)
    ensures n <= 64 ==> Pow2(n) <= 0x1_0000_0000_0000_0000
  {
    if n <= 64 {
      Pow2Monotone(n, 64);
      Pow2Of64();
    }
  }

  /** A pixel passes the `<= zg` test exactly when it fits in depth bits. */
  lemma FitsDepth(p: Pixel, depth: nat)
    requires depth <= 64
    ensures p <= MaxPixel(depth) <==> (p as int) < Pow2(depth)
  {
  }

  /** x11_display_init: what it records about the screen. */
  class Display {
    var isOpen: bool
    var depth: nat
    var altMask: bv32
    var superMask: bv32
    var customColormap: bool
    var black: Pixel
    var white: Pixel
    var bg: Pixel
    var fg: Pixel
    var zg: Pixel
    var color: bool

    constructor ()
      ensures !isOpen
    {
      isOpen := false;
      depth, altMask, superMask, customColormap := 0, 0, 0, false;
      black, white, bg, fg, zg, color := 0, 0, 0, 0, 0, false;
    }

    /**
     * Open the display and derive its fields. The X server's answers are
     * parameters: whether the display opens, its default depth, the masks
     * XKB reports for "Alt" and "Super" (None when XkbGetKeyboard fails),
     * how many 24-bit visuals XGetVisualInfo finds and the depth of the
     * first, whether XCreateColormap succeeds, and the black/white pixels.
     */
    method Init(canOpen: bool, screenDepth: nat, xkb: Option<(bv32, bv32)>,
                visualsMatched: nat, firstVisualDepth: nat, colormapOk: bool,
                blackPixel: Pixel, whitePixel: Pixel) returns (r: int)
      modifies this
      ensures r == 0 || r == -1
      ensures r == -1 <==> !canOpen || (screenDepth !in {16, 24, 32} && (visualsMatched == 0 || !colormapOk))
      ensures r == -1 ==> !isOpen
      ensures r == 0 ==>
        && isOpen
        && depth == (if screenDepth in {16, 24, 32} then screenDepth else firstVisualDepth)
        && customColormap == (screenDepth !in {16, 24, 32})
        && black == blackPixel && white == whitePixel
        && bg == black && fg == white
        && zg == MaxPixel(depth)
        && color == (depth > 1)
        && (xkb.None? ==> altMask == 8 && superMask == 64)
        && (xkb.Some? ==> altMask == xkb.value.0 && superMask == xkb.value.1)
    {
      if !canOpen {
        isOpen := false;
        return -1;
      }
      isOpen := true;
      depth := screenDepth;
      altMask := 8;     // Mod1Mask
      superMask := 64;  // Mod4Mask
      if xkb.Some? {
        altMask := xkb.value.0;
        superMask := xkb.value.1;
      }

      // x11_display_init_visual
      var visualResult := 0;
      var needColormap := false;
      if depth != 16 && depth != 24 && depth != 32 {
        if visualsMatched == 0 {
          visualResult := 2;
        } else {
          depth := firstVisualDepth;
          needColormap := true;
        }
      }
      if visualResult == 0 {
        if depth == 8 || needColormap {
          if !colormapOk {
            visualResult := 2;
          } else {
            customColormap := true;
          }
        } else {
          customColormap := false;
        }
      }
      if visualResult != 0 {
        isOpen := false;  // x11_display_nuke
        return -1;
      }

      black, white := blackPixel, whitePixel;
      bg, fg := black, white;
      zg := MaxPixel(depth);
      color := depth > 1;
      r := 0;
    }
  }

  /** The GC operations the code uses (enum x11_function). */
  datatype GcFunction = Cpy | XorOp

  function FunctionCode(f: GcFunction): (code: int)
    ensures code == 3 || code == 6
  {
    match f
    case Cpy => 3
    case XorOp => 6
  }

  /** The XGCValues handed to XCreateGC. */
  datatype Gc = Gc(op: GcFunction, foreground: Pixel, background: Pixel, stippled: bool, graphicsExposures: bool)

  /** The GC x11_color_init asks for: XOR draws bg^fg over a zero background; fill stippled iff stip != 0. */
  function GcFor(fg: Pixel, bg: Pixel, f: GcFunction, stip: int): (gc: Gc)
    ensures gc.op == f && gc.stippled == (stip != 0) && !gc.graphicsExposures
    ensures f == Cpy ==> gc.foreground == fg && gc.background == bg
    ensures f == XorOp ==> gc.foreground == Xor(bg, fg) && gc.background == 0
  {
    Gc(f, if f == XorOp then Xor(bg, fg) else fg, if f == XorOp then 0 else bg, stip != 0, false)
  }

  /** struct x11_color. */
  class Color {
    var gc: Option<Gc>
    var fg: Pixel
    var bg: Pixel
    var nuke: bool

    /** The zeroed record mem_zalloc gives. */
    constructor ()
      ensures gc.None? && fg == 0 && bg == 0 && !nuke
    {
      gc, fg, bg, nuke := None, 0, 0, false;
    }

    /**
     * x11_color_init: -1, leaving the record untouched, when either pixel
     * exceeds the display's zg; otherwise the record is wiped and holds
     * the new GC, the two pixels and nuke = true.
     */
    method Init(fg: Pixel, bg: Pixel, f: GcFunction, stip: int, zg: Pixel) returns (r: int)
      modifies this
      ensures r == 0 || r == -1
      ensures r == -1 <==> bg > zg || fg > zg
      ensures r == -1 ==> gc == old(gc) && this.fg == old(this.fg) && this.bg == old(this.bg) && nuke == old(nuke)
      ensures r == 0 ==> gc == Some(GcFor(fg, bg, f, stip)) && this.fg == fg && this.bg == bg && nuke
    {
      if bg > zg {
        return -1;
      }
      if fg > zg {
        return -1;
      }
      gc := Some(GcFor(fg, bg, f, stip));
      nuke := true;
      this.fg := fg;
      this.bg := bg;
      r := 0;
    }

    /**
     * x11_color_change_fg: -1 when fg exceeds zg; otherwise only the GC's
     * foreground changes (the record's own fg field is not updated).
     */
    method ChangeFg(fg: Pixel, zg: Pixel) returns (r: int)
      requires gc.Some?
      modifies this
      ensures r == -1 <==> fg > zg
      ensures r == -1 ==> gc == old(gc)
      ensures r == 0 ==> gc == Some(old(gc.value).(foreground := fg))
      ensures this.fg == old(this.fg) && bg == old(bg) && nuke == old(nuke)
    {
      if fg > zg {
        return -1;
      }
      gc := Some(gc.value.(foreground := fg));
      r := 0;
    }
  }

  /** x11_alloc_cursor_col: the XOR colour built from the display's fg and bg. */
  method AllocCursorColor(d: Display) returns (c: Color, r: int)
    ensures fresh(c)
    ensures r == 0 <==> d.bg <= d.zg && d.fg <= d.zg
    ensures r == 0 ==> c.gc == Some(Gc(XorOp, Xor(d.bg, d.fg), 0, false, false))
  {
    c := new Color();
    r := c.Init(d.fg, d.bg, XorOp, 0, d.zg);
  }

  // ---------------------------------------------------------------------
  // Waiting for events
  // ---------------------------------------------------------------------

  /**
   * x11_event_get. XPending is modelled by emptyPolls, the number of
   * polls that find the queue empty before one finds an event. Without
   * wait an empty queue returns 1 at once; otherwise the loop sleeps
   * 20000 microseconds per empty poll and calls idle_update whenever its
   * modulo-10 counter is 0. idleAt lists the poll iterations on which
   * idle_update ran.
   */
  method EventGet(wait: bool, emptyPolls: nat) returns (r: int, consumed: bool, idleAt: seq<nat>, slept: nat)
    ensures r == 1 <==> !wait && emptyPolls > 0
    ensures r == 1 ==> !consumed && idleAt == [] && slept == 0
    ensures r == 0 ==> consumed && slept == 20000 * emptyPolls
    ensures r == 0 ==> forall k: nat :: k in idleAt <==> k < emptyPolls && k % 10 == 0
    ensures forall a, b :: 0 <= a < b < |idleAt| ==> idleAt[a] < idleAt[b]
  {
    if !wait && emptyPolls > 0 {
      return 1, false, [], 0;
    }
    var i := 0;
    var polls := 0;
    idleAt, slept := [], 0;
    while polls < emptyPolls
      invariant 0 <= polls <= emptyPolls
      invariant i == polls % 10
      invariant slept == 20000 * polls
      invariant forall k: nat :: k in idleAt <==> k < polls && k % 10 == 0
      invariant forall a, b :: 0 <= a < b < |idleAt| ==> idleAt[a] < idleAt[b]
      invariant forall a :: 0 <= a < |idleAt| ==> idleAt[a] < polls
    {
      if i == 0 {
        idleAt := idleAt + [polls];
      }
      slept := slept + 20000;
      i := (i + 1) % 10;
      polls := polls + 1;
    }
    r, consumed := 0, true;
  }
}
