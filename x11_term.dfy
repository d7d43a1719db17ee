/**
 * The term hooks of the X11 front end: the event loop (which window an
 * event is for, mouse clicks, exposures, moves and resizes), the drawing
 * of graphical tiles, and the "extra" requests the game makes.
 */
module X11Term {

  import opened CInt
  import opened X11Util
  import opened X11Keys
  import Prefs


  /** GRAPHICS_NONE: the value of arg_graphics / use_graphics for text only. */
  const GraphicsNone: int := 0

  /** The X events check_event looks at, each with the window it was delivered to. */
  datatype Event =
    | MappingNotify
    | ButtonPress(win: nat, x: int, y: int, button: nat)
    | KeyPress(win: nat, key: KeyEvent)
    | Expose(win: nat, x: int, y: int, width: int, height: int)
    | ConfigureNotify(win: nat, x: int, y: int, width: int, height: int)
    | OtherEvent(win: nat)

  /** What handling one event asks of the game's terminal layer. */
  datatype Action =
    | NoAction
    | RefreshKeymap
    | MousePress(term: nat, x: int, y: int, button: int)
    | Key(press: Option<Keypress>)
    | RedrawSection(term: nat, x1: int, y1: int, x2: int, y2: int)
    /**
     * Term_resize of `term` to cols x rows; `resizeTo` is the size
     * x11_window_resize asks for, and `window` the term whose X window it
     * is asked of (the scan's `td`, which differs from `term` only when
     * no window matched).
     */
    | Resize(term: nat, cols: int, rows: int, resizeTo: Option<(int, int)>, window: nat)

  // ---------------------------------------------------------------------
  // Which term an event belongs to
  // ---------------------------------------------------------------------

  /**
   * What check_event reads of a term and never changes: the window's
   * handle, its inner border and the tile size.
   */
  datatype TermGeometry = TermGeometry(handle: nat, ox: int, oy: int, tileWidth: int, tileHeight: int)

  function Geometry(td: TermData): TermGeometry
    reads td, td.win
  {
    TermGeometry(td.win.handle, td.win.ox, td.win.oy, td.tileWidth, td.tileHeight)
  }

  function Geometries(terms: seq<TermData>): (g: seq<TermGeometry>)
    reads set k | 0 <= k < |terms| :: terms[k]
    reads set k | 0 <= k < |terms| :: terms[k].win
    ensures |g| == |terms| && forall k :: 0 <= k < |terms| ==> g[k] == Geometry(terms[k])
  {
    seq(|terms|, k requires 0 <= k < |terms|
                   reads if 0 <= k < |terms| then {terms[k], terms[k].win} else {} => Geometry(terms[k]))
  }

  predicate TilesPositive(g: seq<TermGeometry>)
  {
    forall k :: 0 <= k < |g| ==> g[k].tileWidth > 0 && g[k].tileHeight > 0
  }

  /** The first term from index i on whose window has handle h, if any. */
  function FirstWith(g: seq<TermGeometry>, h: nat, i: nat): (r: Option<nat>)
    requires i <= |g|
    ensures r.Some? ==> i <= r.value < |g| && g[r.value].handle == h
    ensures r.Some? ==> forall k :: i <= k < r.value ==> g[k].handle != h
    ensures r.None? ==> forall k :: i <= k < |g| ==> g[k].handle != h
    decreases |g| - i
  {
    if i == |g| then None
    else if g[i].handle == h then Some(i)
    else FirstWith(g, h, i + 1)
  }

  /**
   * The window scan of check_event as written: `window` is the first term
   * whose window has the event's handle and `td` is that term's data.
   * When none has it the loop runs out with `window` still 0 and `td`
   * left at the last term's data, so the "unknown window" test after it
   * never holds.
   */
  function Scan(g: seq<TermGeometry>, h: nat): (r: (nat, nat))
    requires |g| >= 1
    ensures r.0 < |g| && r.1 < |g|
    ensures (exists k :: 0 <= k < |g| && g[k].handle == h) ==>
      r.0 == r.1 && g[r.0].handle == h && forall k :: 0 <= k < r.0 ==> g[k].handle != h
    ensures (forall k :: 0 <= k < |g| ==> g[k].handle != h) ==> r == (0, |g| - 1)
  {
    match FirstWith(g, h, 0)
    case Some(k) => (k, k)
    case None => (0, |g| - 1)
  }

  /** The scan loop itself computes Scan. */
  method ScanWindows(terms: seq<TermData>, h: nat) returns (window: nat, tdIndex: nat)
    requires |terms| == Prefs.TermMax
    ensures (window, tdIndex) == Scan(Geometries(terms), h)
  {
    ghost var g := Geometries(terms);
    window := 0;
    var i := 0;
    while i < |terms|
      invariant 0 <= i <= |terms|
      invariant forall k :: 0 <= k < i ==> g[k].handle != h
    {
      if terms[i].win.handle == h {
        assert FirstWith(g, h, 0) == Some(i);
        return i, i;
      }
      i := i + 1;
    }
    tdIndex := |terms| - 1;
  }

  // ---------------------------------------------------------------------
  // Mouse clicks and exposures
  // ---------------------------------------------------------------------

  /** The button check_event reports: Button1..Button5 as themselves, any other as 0. */
  function ButtonCode(button: nat): (z: int)
    ensures 0 <= z <= 5
    ensures z != 0 <==> 1 <= button <= 5
    ensures z != 0 ==> z == button
  {
    if 1 <= button <= 5 then button else 0
  }

  /** The cell range an exposed rectangle asks to have redrawn (C division). */
  function ExposeSection(td: TermGeometry, ex: int, ey: int, ew: int, eh: int): (r: (int, int, int, int))
    requires td.tileWidth > 0 && td.tileHeight > 0
    ensures ew >= 0 ==> r.0 <= r.2
    ensures eh >= 0 ==> r.1 <= r.3
  {
    assert ew >= 0 ==> Div(ex - td.ox, td.tileWidth) <= Div(ex + ew - td.ox, td.tileWidth) by {
      if ew >= 0 {
        DivMonotone(ex - td.ox, ex + ew - td.ox, td.tileWidth);
      }
    }
    assert eh >= 0 ==> Div(ey - td.oy, td.tileHeight) <= Div(ey + eh - td.oy, td.tileHeight) by {
      if eh >= 0 {
        DivMonotone(ey - td.oy, ey + eh - td.oy, td.tileHeight);
      }
    }
    (PixelToCell(ex, td.ox, td.tileWidth), PixelToCell(ey, td.oy, td.tileHeight),
     PixelToCell(ex + ew, td.ox, td.tileWidth), PixelToCell(ey + eh, td.oy, td.tileHeight))
  }

  /** Every pixel of the exposed rectangle lies in a cell of the redrawn section. */
  lemma ExposeCoversRectangle(td: TermGeometry, ex: int, ey: int, ew: int, eh: int, px: int, py: int)
    requires td.tileWidth > 0 && td.tileHeight > 0
    requires ex <= px <= ex + ew && ey <= py <= ey + eh
    ensures var r := ExposeSection(td, ex, ey, ew, eh);
      r.0 <= PixelToCell(px, td.ox, td.tileWidth) <= r.2 && r.1 <= PixelToCell(py, td.oy, td.tileHeight) <= r.3
  {
    DivMonotone(ex - td.ox, px - td.ox, td.tileWidth);
    DivMonotone(px - td.ox, ex + ew - td.ox, td.tileWidth);
    DivMonotone(ey - td.oy, py - td.oy, td.tileHeight);
    DivMonotone(py - td.oy, ey + eh - td.oy, td.tileHeight);
  }

  // ---------------------------------------------------------------------
  // Moves and resizes
  // ---------------------------------------------------------------------

  /**
   * The number of cells a window dimension holds: the pixels inside the
   * two borders divided by the tile size, at least 1 and at least `least`.
   */
  function FitCells(pixels: int, border: int, tile: int, least: int): (cells: int)
    requires tile > 0
    ensures cells >= 1 && cells >= least
    ensures Div(pixels - 2 * border, tile) >= 1 && Div(pixels - 2 * border, tile) >= least ==>
      cells == Div(pixels - 2 * border, tile)
    ensures Div(pixels - 2 * border, tile) < 1 || Div(pixels - 2 * border, tile) < least ==>
      cells == (if least > 1 then least else 1)
  {
    var raw := Div(pixels - (border + border), tile);
    var atLeastOne := if raw < 1 then 1 else raw;
    if atLeastOne < least then least else atLeastOne
  }

  /** A size made of whole cells plus the borders is read back as exactly that many cells. */
  lemma FitCellsOfWholeCells(cells: int, border: int, tile: int, least: int)
    requires tile > 0 && cells >= 1 && cells >= least
    ensures FitCells(cells * tile + 2 * border, border, tile, least) == cells
  {
    DivOfCellOffset(cells, 0, tile);
    assert cells * tile + 2 * border - 2 * border == cells * tile + 0;
  }

  /**
   * The grid a ConfigureNotify of size w x h gives: cols and rows, and for
   * the main window (at least 80x24) the window size asked for when the
   * window was too small.
   */
  function ConfigureGrid(w: int, h: int, ox: int, oy: int, tw: int, th: int, main: bool): (r: (int, int, Option<(int, int)>))
    requires tw > 0 && th > 0
    ensures r.0 >= 1 && r.1 >= 1
    ensures main ==> r.0 >= 80 && r.1 >= 24
    ensures r.0 == FitCells(w, ox, tw, if main then 80 else 1) && r.1 == FitCells(h, oy, th, if main then 24 else 1)
    ensures r.2.Some? <==> main && (Div(w - 2 * ox, tw) < 80 || Div(h - 2 * oy, th) < 24)
    ensures r.2.Some? ==> r.2.value == (r.0 * tw + 2 * ox, r.1 * th + 2 * oy)
  {
    var cols := FitCells(w, ox, tw, 1);
    var rows := FitCells(h, oy, th, 1);
    if main && (cols < 80 || rows < 24) then
      var cols' := if cols < 80 then 80 else cols;
      var rows' := if rows < 24 then 24 else rows;
      (cols', rows', Some((cols' * tw + (ox + ox), rows' * th + (oy + oy))))
    else
      (cols, rows, None)
  }

  /**
   * The resize the main window asks for settles: when the window manager
   * grants the requested size, the ConfigureNotify that follows yields the
   * same grid and asks for nothing more.
   */
  lemma ResizeSettles(w: int, h: int, ox: int, oy: int, tw: int, th: int)
    requires tw > 0 && th > 0
    requires ConfigureGrid(w, h, ox, oy, tw, th, true).2.Some?
    ensures var r := ConfigureGrid(w, h, ox, oy, tw, th, true);
      var (w', h') := r.2.value;
      ConfigureGrid(w', h', ox, oy, tw, th, true) == (r.0, r.1, None)
  {
    var r := ConfigureGrid(w, h, ox, oy, tw, th, true);
    FitCellsOfWholeCells(r.0, ox, tw, 80);
    FitCellsOfWholeCells(r.1, oy, th, 24);
    FitCellsOfWholeCells(r.0, ox, tw, 1);
    FitCellsOfWholeCells(r.1, oy, th, 1);
  }

  /** An ordinary window takes any size of at least one cell as it is. */
  lemma SubwindowKeepsItsSize(cols: int, rows: int, ox: int, oy: int, tw: int, th: int)
    requires tw > 0 && th > 0 && cols >= 1 && rows >= 1
    ensures ConfigureGrid(cols * tw + 2 * ox, rows * th + 2 * oy, ox, oy, tw, th, false) == (cols, rows, None)
  {
    FitCellsOfWholeCells(cols, ox, tw, 1);
    FitCellsOfWholeCells(rows, oy, th, 1);
  }

  /**
   * check_event's ConfigureNotify case: the new position and size go into
   * the window's 16-bit fields, and the grid is computed from the stored
   * (wrapped) size.
   */
  method Configure(td: TermData, window: nat, cx: int, cy: int, cw: int, ch: int) returns (cols: int, rows: int, resizeTo: Option<(int, int)>)
    requires td.tileWidth > 0 && td.tileHeight > 0
    modifies td.win
    ensures td.win.x == S16(cx) && td.win.y == S16(cy) && td.win.w == S16(cw) && td.win.h == S16(ch)
    ensures td.win.handle == old(td.win.handle) && td.win.ox == old(td.win.ox) && td.win.oy == old(td.win.oy) && td.win.b == old(td.win.b)
    ensures (cols, rows, resizeTo) == ConfigureGrid(S16(cw), S16(ch), td.win.ox, td.win.oy, td.tileWidth, td.tileHeight, window == 0)
  {
    var ox := td.win.ox;
    var oy := td.win.oy;
    td.win.x := S16(cx);
    td.win.y := S16(cy);
    td.win.w := S16(cw);
    td.win.h := S16(ch);
    cols := Div(td.win.w - (ox + ox), td.tileWidth);
    rows := Div(td.win.h - (oy + oy), td.tileHeight);
    if cols < 1 {
      cols := 1;
    }
    if rows < 1 {
      rows := 1;
    }
    resizeTo := None;
    if window == 0 {
      var forceResize := false;
      if cols < 80 {
        cols := 80;
        forceResize := true;
      }
      if rows < 24 {
        rows := 24;
        forceResize := true;
      }
      if forceResize {
        resizeTo := Some((cols * td.tileWidth + (ox + ox), rows * td.tileHeight + (oy + oy)));
      }
    }
  }

  // ---------------------------------------------------------------------
  // The event loop
  // ---------------------------------------------------------------------

  /**
   * What check_event makes of an event it has taken, given the terms'
   * geometry: a keymap change is refreshed, a key goes to
   * react_keypress, and the rest go to the term the scan picks. A click
   * becomes a mouse press on the cell of term `window` (the term
   * Term_activate made current), with the clamped button. An exposure
   * redraws the exposed cells of the scan's `td`. A move or resize gives
   * that term the grid of its new 16-bit size, the main window raised to
   * 80x24.
   */
  function EventAction(g: seq<TermGeometry>, e: Event, altMask: bv32, superMask: bv32, policy: ModsPolicy): (a: Action)
    requires |g| == Prefs.TermMax && TilesPositive(g)
    ensures e == MappingNotify <==> a == RefreshKeymap
    ensures e.KeyPress? <==> a.Key?
    ensures e.ButtonPress? <==> a.MousePress?
    ensures e.Expose? <==> a.RedrawSection?
    ensures e.ConfigureNotify? <==> a.Resize?
    ensures a.MousePress? || a.RedrawSection? || a.Resize? ==> a.term == Scan(g, e.win).0
    ensures a.Resize? ==> a.window == Scan(g, e.win).1
  {
    match e
    case MappingNotify => RefreshKeymap
    case KeyPress(_, key) => Key(ReactKeypress(key, altMask, superMask, policy))
    case ButtonPress(h, x, y, button) =>
      var w := Scan(g, h).0;
      MousePress(w, PixelToCell(x, g[w].ox, g[w].tileWidth), PixelToCell(y, g[w].oy, g[w].tileHeight), ButtonCode(button))
    case Expose(h, x, y, width, height) =>
      var (w, t) := Scan(g, h);
      var s := ExposeSection(g[t], x, y, width, height);
      RedrawSection(w, s.0, s.1, s.2, s.3)
    case ConfigureNotify(h, _, _, width, height) =>
      var (w, t) := Scan(g, h);
      var grid := ConfigureGrid(S16(width), S16(height), g[t].ox, g[t].oy, g[t].tileWidth, g[t].tileHeight, w == 0);
      Resize(w, grid.0, grid.1, grid.2, t)
    case OtherEvent(_) => NoAction
  }

  /** A click inside cell (cx, cy) of a known window is reported on that cell of that window's term. */
  lemma ClickLandsOnItsCell(g: seq<TermGeometry>, w: nat, cx: int, cy: int, dx: int, dy: int, button: nat,
                            altMask: bv32, superMask: bv32, policy: ModsPolicy)
    requires |g| == Prefs.TermMax && TilesPositive(g) && w < |g|
    requires forall k :: 0 <= k < w ==> g[k].handle != g[w].handle
    requires cx >= 0 && cy >= 0 && 0 <= dx < g[w].tileWidth && 0 <= dy < g[w].tileHeight
    ensures EventAction(g, ButtonPress(g[w].handle, cx * g[w].tileWidth + g[w].ox + dx, cy * g[w].tileHeight + g[w].oy + dy, button),
                        altMask, superMask, policy)
         == MousePress(w, cx, cy, ButtonCode(button))
  {
    assert Scan(g, g[w].handle).0 == w;
    DivOfCellOffset(cx, dx, g[w].tileWidth);
    DivOfCellOffset(cy, dy, g[w].tileHeight);
  }

  /**
   * The main window's ConfigureNotify settles: once the window is as
   * large as the resize it asked for, the next ConfigureNotify keeps the
   * grid and asks for nothing.
   */
  lemma MainConfigureSettles(g: seq<TermGeometry>, width: int, height: int,
                             altMask: bv32, superMask: bv32, policy: ModsPolicy)
    requires |g| == Prefs.TermMax && TilesPositive(g)
    requires var a := EventAction(g, ConfigureNotify(g[0].handle, 0, 0, width, height), altMask, superMask, policy);
      a.resizeTo.Some? && InS16(a.resizeTo.value.0) && InS16(a.resizeTo.value.1)
    ensures var a := EventAction(g, ConfigureNotify(g[0].handle, 0, 0, width, height), altMask, superMask, policy);
      var (w', h') := a.resizeTo.value;
      EventAction(g, ConfigureNotify(g[0].handle, 0, 0, w', h'), altMask, superMask, policy) == Resize(0, a.cols, a.rows, None, 0)
  {
    assert Scan(g, g[0].handle) == (0, 0);
    var a := EventAction(g, ConfigureNotify(g[0].handle, 0, 0, width, height), altMask, superMask, policy);
    ResizeSettles(S16(width), S16(height), g[0].ox, g[0].oy, g[0].tileWidth, g[0].tileHeight);
  }

  /**
   * check_event. Getting the event is x11_event_get (emptyPolls empty
   * polls, then `next`); 1 means there was none to take without waiting.
   * Otherwise the event is handled as EventAction says, and a move or
   * resize stores the new position and size in the 16-bit fields of the
   * scan's term's window; nothing else changes.
   */
  method CheckEvent(terms: seq<TermData>, wait: bool, emptyPolls: nat, next: Event,
                    altMask: bv32, superMask: bv32, policy: ModsPolicy) returns (r: int, action: Action)
    requires |terms| == Prefs.TermMax && TilesPositive(Geometries(terms))
    modifies set k | 0 <= k < |terms| :: terms[k].win
    ensures r == 0 || r == 1
    ensures r == 1 <==> !wait && emptyPolls > 0
    ensures r == 1 ==> action == NoAction
    ensures r == 0 ==> action == EventAction(old(Geometries(terms)), next, altMask, superMask, policy)
    ensures Geometries(terms) == old(Geometries(terms))
    ensures r == 0 && next.ConfigureNotify? ==>
      var win := terms[Scan(old(Geometries(terms)), next.win).1].win;
      win.x == S16(next.x) && win.y == S16(next.y) && win.w == S16(next.width) && win.h == S16(next.height) &&
      win.b == old(win.b) &&
      forall k :: 0 <= k < |terms| && terms[k].win != win ==> unchanged(terms[k].win)
    ensures !(r == 0 && next.ConfigureNotify?) ==> forall k :: 0 <= k < |terms| ==> unchanged(terms[k].win)
  {
    ghost var g := Geometries(terms);
    var got, _, _, _ := EventGet(wait, emptyPolls);
    if got == 1 {
      return 1, NoAction;
    }
    r := 0;
    if next == MappingNotify {
      return 0, RefreshKeymap;
    }
    var window, tdIndex := ScanWindows(terms, next.win);
    var td := terms[tdIndex];
    match next {
      case ButtonPress(_, x, y, button) =>
        var cell := PixelToSquare(terms[window], x, y);
        action := MousePress(window, cell.0, cell.1, ButtonCode(button));
        assert g[window] == Geometry(terms[window]);
      case KeyPress(_, key) =>
        action := Key(ReactKeypress(key, altMask, superMask, policy));
      case Expose(_, x, y, width, height) =>
        var s := ExposeSection(Geometry(td), x, y, width, height);
        action := RedrawSection(window, s.0, s.1, s.2, s.3);
        assert g[tdIndex] == Geometry(td);
      case ConfigureNotify(_, x, y, width, height) =>
        assert g[tdIndex] == Geometry(td);
        var cols, rows, resizeTo := Configure(td, window, x, y, width, height);
        action := Resize(window, cols, rows, resizeTo, tdIndex);
        forall k | 0 <= k < |terms|
          ensures Geometry(terms[k]) == g[k]
        {
          assert old(Geometry(terms[k])) == g[k];
        }
        GeometriesOf(terms, g);
      case OtherEvent(_) =>
        action := NoAction;
    }
  }

  /** A sequence of geometries that agrees with every term is their geometry. */
  lemma GeometriesOf(terms: seq<TermData>, g: seq<TermGeometry>)
    requires |g| == |terms| && forall k :: 0 <= k < |terms| ==> Geometry(terms[k]) == g[k]
    ensures Geometries(terms) == g
  {
  }

  /** The click of check_event is x11_pixel_to_square on the data of term `window`. */
  lemma ClickIsPixelToSquare(terms: seq<TermData>, h: nat, x: int, y: int, button: nat,
                             altMask: bv32, superMask: bv32, policy: ModsPolicy)
    requires |terms| == Prefs.TermMax && TilesPositive(Geometries(terms))
    ensures var w := Scan(Geometries(terms), h).0;
      EventAction(Geometries(terms), ButtonPress(h, x, y, button), altMask, superMask, policy)
      == MousePress(w, PixelToSquare(terms[w], x, y).0, PixelToSquare(terms[w], x, y).1, ButtonCode(button))
  {
    var w := Scan(Geometries(terms), h).0;
    assert Geometries(terms)[w] == Geometry(terms[w]);
  }

  /**
   * TERM_XTRA_FLUSH: check_event without waiting until it reports that no
   * event is left; every pending event is handled once, in order, as
   * EventAction says for the terms' geometry, which handling events
   * never changes.
   */
  method FlushEvents(terms: seq<TermData>, pending: seq<Event>,
                     altMask: bv32, superMask: bv32, policy: ModsPolicy) returns (actions: seq<Action>)
    requires |terms| == Prefs.TermMax && TilesPositive(Geometries(terms))
    modifies set k | 0 <= k < |terms| :: terms[k].win
    ensures |actions| == |pending|
    ensures forall k :: 0 <= k < |pending| ==>
      actions[k] == EventAction(old(Geometries(terms)), pending[k], altMask, superMask, policy)
    ensures Geometries(terms) == old(Geometries(terms))
  {
    ghost var g := Geometries(terms);
    actions := [];
    var i := 0;
    while true
      invariant 0 <= i <= |pending| && |actions| == i
      invariant Geometries(terms) == g
      invariant forall k :: 0 <= k < i ==> actions[k] == EventAction(g, pending[k], altMask, superMask, policy)
      decreases |pending| - i
    {
      var emptyPolls := if i < |pending| then 0 else 1;
      var next := if i < |pending| then pending[i] else OtherEvent(0);
      var r, action := CheckEvent(terms, false, emptyPolls, next, altMask, superMask, policy);
      if r != 0 {
        break;
      }
      actions := actions + [action];
      i := i + 1;
    }
  }

  // ---------------------------------------------------------------------
  // Graphical tiles
  // ---------------------------------------------------------------------

  /** One x11_draw_tile call: source in the tile sheet, destination, size, and whether it drew. */
  datatype TileDraw = TileDraw(element: nat, srcX: int, srcY: int, destX: int, destY: int, w: int, h: int, drawn: bool)

  /** The tile sheet cell of an attr/char pair: row from the attr's, column from the char's low 7 bits. */
  function TileSource(a: int, c: int, tw: int, th: int): (src: (int, int))
    ensures 0 <= a < 128 && 0 <= c < 128 ==> src == (c * tw, a * th)
  {
    ((c % 128) * tw, (a % 128) * th)
  }

  /**
   * The draw of element i with its destination column pixel, through
   * x11_draw_tile as written or, when fixedBounds holds, through its
   * corrected bounds check.
   */
  function TileDrawAt(td: TermData, i: nat, a: int, c: int, destX: int, destY: int, tw: int, th: int,
                      fixedBounds: bool): (d: TileDraw)
    reads td, td.win
    ensures d.element == i && d.destX == destX && d.destY == destY && d.w == tw && d.h == th
    ensures (d.srcX, d.srcY) == TileSource(a, c, tw, th)
    ensures !fixedBounds ==> d.drawn == DrawTile(td.win, destX, destY, U32(tw), U32(th))
    ensures fixedBounds ==> d.drawn == DrawTileIntended(td.win, destX, destY, U32(tw), U32(th))
  {
    var src := TileSource(a, c, tw, th);
    var drawn := if fixedBounds then DrawTileIntended(td.win, destX, destY, U32(tw), U32(th))
                 else DrawTile(td.win, destX, destY, U32(tw), U32(th));
    TileDraw(i, src.0, src.1, destX, destY, tw, th, drawn)
  }

  /**
   * The loop of x11_term_pict: elements n-1 down to 0, the destination
   * starting at x2Start and moving one tile left per element; fixedBounds
   * selects the tile bounds check (see TileDrawAt).
   */
  method DrawPictRow(td: TermData, x2Start: int, y2: int, n: int, ap: seq<int>, cp: seq<int>, tw: int, th: int,
                    fixedBounds: bool)
    returns (draws: seq<TileDraw>)
    requires n <= |ap| && n <= |cp|
    ensures |draws| == (if n > 0 then n else 0)
    ensures forall k :: 0 <= k < |draws| ==>
      draws[k] == TileDrawAt(td, n - 1 - k, ap[n - 1 - k], cp[n - 1 - k], x2Start - k * tw, y2, tw, th, fixedBounds)
  {
    draws := [];
    var i := n - 1;
    var x2 := x2Start;
    while i >= 0
      invariant i < n && (n > 0 ==> i >= -1)
      invariant |draws| == (if n > 0 then n - 1 - i else 0)
      invariant x2 == x2Start - |draws| * tw
      invariant forall k :: 0 <= k < |draws| ==>
        draws[k] == TileDrawAt(td, n - 1 - k, ap[n - 1 - k], cp[n - 1 - k], x2Start - k * tw, y2, tw, th, fixedBounds)
    {
      assert x2 == x2Start - (n - 1 - i) * tw;
      draws := draws + [TileDrawAt(td, i, ap[i], cp[i], x2, y2, tw, th, fixedBounds)];
      assert (n - 1 - (i - 1)) * tw == (n - 1 - i) * tw + tw;
      i := i - 1;
      x2 := x2 - tw;
    }
  }

  /**
   * x11_term_pict as written: the destination starts at column x and
   * moves left while the elements are taken from the last, so element i
   * is drawn at column x - (n - 1 - i) instead of x + i.
   */
  method TermPict(td: TermData, x: int, y: int, n: int, ap: seq<int>, cp: seq<int>, tw: int, th: int)
    returns (draws: seq<TileDraw>)
    requires n <= |ap| && n <= |cp|
    ensures |draws| == (if n > 0 then n else 0)
    ensures forall k :: 0 <= k < |draws| ==>
      draws[k].element == n - 1 - k && draws[k].destX == (x - k) * tw && draws[k].destY == y * th
    ensures forall k :: 0 <= k < |draws| ==>
      draws[k] == TileDrawAt(td, n - 1 - k, ap[n - 1 - k], cp[n - 1 - k], (x - k) * tw, y * th, tw, th, false)
  {
    draws := DrawPictRow(td, x * tw, y * th, n, ap, cp, tw, th, false);
    forall k | 0 <= k < |draws|
      ensures x * tw - k * tw == (x - k) * tw
    {
      assert (x - k) * tw == x * tw - k * tw;
    }
  }

  /** In a row of two or more, the first element lands n - 1 columns left of x. */
  lemma TermPictFirstElementMisplaced(x: int, n: int, tw: int)
    requires n >= 2 && tw > 0
    ensures var k := n - 1; (x - k) * tw != x * tw
  {
    var k := n - 1;
    assert (x - k) * tw == x * tw - k * tw;
    MulGrows(k, tw);
  }

  /**
   * x11_term_pict as intended: start at the last column so that element i
   * lands in column x + i, each tile checked against the window's size.
   */
  method TermPictIntended(td: TermData, x: int, y: int, n: int, ap: seq<int>, cp: seq<int>, tw: int, th: int)
    returns (draws: seq<TileDraw>)
    requires n <= |ap| && n <= |cp|
    ensures |draws| == (if n > 0 then n else 0)
    ensures forall k :: 0 <= k < |draws| ==>
      var i := n - 1 - k;
      draws[k] == TileDrawAt(td, i, ap[i], cp[i], (x + i) * tw, y * th, tw, th, true)
  {
    draws := DrawPictRow(td, (x + n - 1) * tw, y * th, n, ap, cp, tw, th, true);
    forall k | 0 <= k < |draws|
      ensures (x + n - 1) * tw - k * tw == (x + (n - 1 - k)) * tw
    {
      assert (x + (n - 1 - k)) * tw == (x + n - 1) * tw - k * tw;
    }
  }

  // ---------------------------------------------------------------------
  // Extra requests and reactions
  // ---------------------------------------------------------------------

  /** The TERM_XTRA_* requests x11_term_xtra handles, and any other one. */
  datatype XtraRequest = Noise | Fresh | Bored | EventWait | Flush | Level | Clear | Delay | React | OtherRequest(code: int)

  /** What x11_term_xtra does for a request. */
  datatype XtraEffect =
    | Beep
    | FlushOutput
    | CheckEvents(wait: bool)
    | DrainEvents
    | Nothing
    | ClearWindow
    | Sleep(micros: int)
    | ReactToChanges
    | Unhandled

  /**
   * x11_term_xtra: the effect of a request and its result when it does
   * not come from check_event or the reaction (those return their own).
   * Requests it does not handle return 1; a delay sleeps 1000 v
   * microseconds, and only for positive v.
   */
  function Xtra(req: XtraRequest, v: int): (r: (XtraEffect, int))
    ensures r.1 == 1 <==> req.OtherRequest?
    ensures r.0 == Unhandled <==> req.OtherRequest?
    ensures req == Delay ==> (r.0.Sleep? <==> v > 0) && (v > 0 ==> r.0 == Sleep(1000 * v))
    ensures req == Bored ==> r.0 == CheckEvents(false)
    ensures req == EventWait ==> r.0 == CheckEvents(v != 0)
    ensures req == Level ==> r == (Nothing, 0)
  {
    match req
    case Noise => (Beep, 0)
    case Fresh => (FlushOutput, 0)
    case Bored => (CheckEvents(false), 0)
    case EventWait => (CheckEvents(v != 0), 0)
    case Flush => (DrainEvents, 0)
    case Level => (Nothing, 0)
    case Clear => (ClearWindow, 0)
    case Delay => (if v > 0 then Sleep(1000 * v) else Nothing, 0)
    case React => (ReactToChanges, 0)
    case OtherRequest(_) => (Unhandled, 1)
  }

  /**
   * x11_term_xtra_react: on a colour display the colours are re-checked;
   * when graphics are asked for, a tileset that fails to load turns them
   * off, and one that loads becomes use_graphics and gives term 0 its
   * tile size (then the visuals are reset).
   */
  method XtraReact(term0: TermData, isColor: bool, argGraphics: int, tilesetLoads: bool, tilesetWidth: int, tilesetHeight: int)
    returns (mapColors: bool, argGraphics': int, useGraphics: Option<int>, resetVisuals: bool)
    modifies term0
    ensures mapColors == isColor
    ensures argGraphics == GraphicsNone ==>
      argGraphics' == argGraphics && useGraphics.None? && !resetVisuals
    ensures argGraphics != GraphicsNone && !tilesetLoads ==>
      argGraphics' == GraphicsNone && useGraphics.None? && !resetVisuals
    ensures argGraphics != GraphicsNone && tilesetLoads ==>
      argGraphics' == argGraphics && useGraphics == Some(argGraphics) && resetVisuals &&
      term0.tileWidth == tilesetWidth && term0.tileWidth2 == tilesetWidth && term0.tileHeight == tilesetHeight
    ensures !(argGraphics != GraphicsNone && tilesetLoads) ==>
      term0.tileWidth == old(term0.tileWidth) && term0.tileWidth2 == old(term0.tileWidth2) && term0.tileHeight == old(term0.tileHeight)
    ensures term0.font == old(term0.font) && term0.win == old(term0.win)
  {
    mapColors := isColor;
    argGraphics' := argGraphics;
    useGraphics := None;
    resetVisuals := false;
    if argGraphics != GraphicsNone {
      if !tilesetLoads {
        argGraphics' := GraphicsNone;
      } else {
        useGraphics := Some(argGraphics);
        term0.tileHeight := tilesetHeight;
        term0.tileWidth := tilesetWidth;
        term0.tileWidth2 := tilesetWidth;
        resetVisuals := true;
      }
    }
  }

  /** The hooks x11_term_install_hooks sets on a term. */
  datatype Hook = XtraHook | CursHook | BigcursHook | WipeHook | TextHook | PictHook

  /** The tile hook (and higher_pict) only when graphics were asked for. */
  function InstallHooks(argGraphics: int): (r: (set<Hook>, bool))
    ensures {XtraHook, CursHook, BigcursHook, WipeHook, TextHook} <= r.0
    ensures PictHook in r.0 <==> argGraphics != GraphicsNone
    ensures r.1 <==> argGraphics != GraphicsNone
  {
    var text := {XtraHook, CursHook, BigcursHook, WipeHook, TextHook};
    if argGraphics != GraphicsNone then (text + {PictHook}, true) else (text, false)
  }
}
