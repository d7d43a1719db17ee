/**
 * The X11 front end's start-up (main-x11.c): the command line, the
 * number of windows, the font and size of each term and the window
 * manager hints, the colour table and its pixels, and the re-sync of the
 * colour table when the game changes its colours.
 */
module MainX11 {

  import opened CInt
  import opened CStr
  import opened Prefs
  import opened X11Util

  // ---------------------------------------------------------------------
  // Fonts
  // ---------------------------------------------------------------------

  /** DEFAULT_X11_FONT_0 .. DEFAULT_X11_FONT_7, and DEFAULT_X11_FONT for any other term. */
  function BuiltinFont(i: int): (f: string)
    ensures i == 0 ==> f == "10x20"
    ensures (i == 1 || i == 2) ==> f == "9x15"
    ensures 3 <= i <= 7 ==> f == "5x8"
    ensures (i < 0 || i > 7) ==> f == "9x15"
  {
    if i == 0 then "10x20"
    else if i == 1 || i == 2 then "9x15"
    else if 3 <= i <= 7 then "5x8"
    else "9x15"
  }

  /**
   * get_default_font: ANGBAND_X11_FONT_i when set, else ANGBAND_X11_FONT
   * when set, else the built-in font of the term.
   */
  function GetDefaultFont(i: int, env: string -> Option<string>): (f: string)
    ensures env(EnvName(Font, i)).Some? ==> f == env(EnvName(Font, i)).value
    ensures env(EnvName(Font, i)).None? && env("ANGBAND_X11_FONT").Some? ==> f == env("ANGBAND_X11_FONT").value
    ensures env(EnvName(Font, i)).None? && env("ANGBAND_X11_FONT").None? ==> f == BuiltinFont(i)
  {
    match env(EnvName(Font, i))
    case Some(font) => font
    case None =>
      match env("ANGBAND_X11_FONT")
      case Some(font) => font
      case None => BuiltinFont(i)
  }

  // ---------------------------------------------------------------------
  // The command line and the number of windows
  // ---------------------------------------------------------------------

  /** What init_x11 takes from its arguments. */
  datatype Args = Args(displayName: string, numTerm: int, prefsName: Option<string>, ignored: seq<string>)

  /** One argument: -d<display>, -n<count> (clamped into 1..ANGBAND_TERM_MAX), -x<file>, otherwise ignored. */
  function ApplyArg(a: Args, arg: string): (r: Args)
    ensures HasPrefix(arg, "-n") ==> 1 <= r.numTerm <= TermMax
    ensures !HasPrefix(arg, "-n") ==> r.numTerm == a.numTerm
    ensures HasPrefix(arg, "-d") ==> r.displayName == arg[2..]
    ensures !HasPrefix(arg, "-d") ==> r.displayName == a.displayName
  {
    if HasPrefix(arg, "-d") then a.(displayName := arg[2..])
    else if HasPrefix(arg, "-n") then
      var n := Atoi(arg[2..]);
      a.(numTerm := if n > TermMax then TermMax else if n < 1 then 1 else n)
    else if HasPrefix(arg, "-x") then a.(prefsName := Some(arg[2..]))
    else a.(ignored := a.ignored + [arg])
  }

  /** The arguments folded in order. */
  function ApplyArgs(a: Args, args: seq<string>): (r: Args)
    ensures (forall k :: 0 <= k < |args| ==> !HasPrefix(args[k], "-n")) ==> r.numTerm == a.numTerm
    ensures r.numTerm == a.numTerm || 1 <= r.numTerm <= TermMax
    decreases |args|
  {
    if |args| == 0 then a else ApplyArgs(ApplyArg(a, args[0]), args[1..])
  }

  /** The state before the loop: no display name, no -n seen (-1). */
  const NoArgs: Args := Args("", -1, None, [])

  /** Without -n the count stays -1; with one it is in 1..ANGBAND_TERM_MAX. */
  lemma {:induction false} ArgsTermCount(a: Args, args: seq<string>)
    requires a.numTerm == -1 || 1 <= a.numTerm <= TermMax
    ensures var r := ApplyArgs(a, args);
      (r.numTerm == -1 || 1 <= r.numTerm <= TermMax) &&
      (r.numTerm == -1 <==> a.numTerm == -1 && forall k :: 0 <= k < |args| ==> !HasPrefix(args[k], "-n"))
    decreases |args|
  {
    if |args| > 0 {
      ArgsTermCount(ApplyArg(a, args[0]), args[1..]);
      assert forall k :: 1 <= k < |args| ==> args[1..][k - 1] == args[k];
    }
  }

  /** init_x11's argument loop, from argv[1]. */
  method ParseArgs(argv: seq<string>) returns (a: Args)
    ensures |argv| <= 1 ==> a == NoArgs
    ensures |argv| > 1 ==> a == ApplyArgs(NoArgs, argv[1..])
    ensures a.numTerm == -1 || 1 <= a.numTerm <= TermMax
  {
    a := NoArgs;
    if |argv| <= 1 {
      return;
    }
    var i := 1;
    while i < |argv|
      invariant 1 <= i <= |argv|
      invariant ApplyArgs(a, argv[i..]) == ApplyArgs(NoArgs, argv[1..])
    {
      assert argv[i..][1..] == argv[i + 1..];
      a := ApplyArg(a, argv[i]);
      i := i + 1;
    }
    assert argv[|argv|..] == [];
    ArgsTermCount(NoArgs, argv[1..]);
  }

  /**
   * The number of windows init_x11 opens, as written: the -n value, or
   * else 1 raised by any positive TERM_WINS line of the settings file
   * (None when there is no file). TERM_WINS is not clamped.
   */
  function TermCount(numTerm: int, file: Option<seq<string>>): (n: int)
    ensures n >= 1 || n == numTerm
    ensures numTerm == -1 && file.None? ==> n == 1
    ensures numTerm != -1 ==> n == numTerm
  {
    if numTerm != -1 then numTerm
    else match file
      case None => 1
      case Some(lines) => ParseTermWins(1, lines)
  }

  /** A settings file asking for nine windows makes init_x11 initialise angband_term[8], one past the array. */
  lemma TermCountOverflows()
    ensures TermCount(-1, Some(["TERM_WINS=9"])) == 9 > TermMax
  {
    var line := "TERM_WINS=9";
    assert ApplyTermWinsLine(1, line) == 9 by {
      assert Itoa(9) == "9";
      assert "TERM_WINS=" + "9" == line;
      TermWinsLineSets(1, 9);
    }
    OneLineTermWins(1, line);
  }

  /** Scanning a one-line file is applying that line. */
  lemma OneLineTermWins(n: int, line: string)
    ensures ParseTermWins(n, [line]) == ApplyTermWinsLine(n, line)
  {
    assert [line][0] == line && [line][1..] == [];
  }

  /** The count with TERM_WINS clamped like -n. */
  function TermCountClamped(numTerm: int, file: Option<seq<string>>): (n: int)
    ensures 1 <= n <= TermMax
    ensures 1 <= TermCount(numTerm, file) <= TermMax ==> n == TermCount(numTerm, file)
  {
    var n := TermCount(numTerm, file);
    if n > TermMax then TermMax else if n < 1 then 1 else n
  }

  /** With the clamp every window index the init loop uses is in the array. */
  lemma TermCountClampedInRange(a: Args, args: seq<string>, file: Option<seq<string>>)
    requires a == NoArgs
    ensures 1 <= TermCountClamped(ApplyArgs(a, args).numTerm, file) <= TermMax
    ensures ApplyArgs(a, args).numTerm != -1 ==>
      TermCountClamped(ApplyArgs(a, args).numTerm, file) == TermCount(ApplyArgs(a, args).numTerm, file)
  {
    ArgsTermCount(a, args);
  }

  /** When -n is given, the settings path is never built, so term_data_init finds no file. */
  function SettingsFile(numTerm: int, file: Option<seq<string>>): (f: Option<seq<string>>)
    ensures numTerm != -1 ==> f.None?
    ensures numTerm == -1 ==> f == file
  {
    if numTerm == -1 then file else None
  }

  /**
   * The `settings` buffer after init_x11's argument pass: the built path
   * without -n, otherwise the zeroed static buffer, the empty string.
   */
  function SettingsPath(numTerm: int, builtPath: string): (path: string)
    ensures numTerm != -1 ==> path == ""
    ensures numTerm == -1 ==> path == builtPath
  {
    if numTerm == -1 then builtPath else ""
  }

  /** Under -n, save_prefs finds no file to open and writes nothing, whatever the windows. */
  lemma NoSaveUnderN(numTerm: int, builtPath: string, canWrite: bool, version: string, termWins: int,
                     slots: seq<Option<SavedTerm>>)
    requires numTerm != -1 && |slots| == TermMax
    ensures SavePrefs(SettingsPath(numTerm, builtPath), canWrite, version, termWins, slots) == NoFile
  {
  }

  // ---------------------------------------------------------------------
  // One term's settings, font and window
  // ---------------------------------------------------------------------

  /**
   * The settings term_data_init ends with: the default font and sizes,
   * then the settings file (when there is one), then the environment,
   * then the 80x24 minimum of the main window.
   */
  function TermSettings(i: int, file: Option<seq<string>>, env: string -> Option<string>): (p: TermPrefs)
    ensures i == 0 ==> p.cols >= 80 && p.rows >= 24
  {
    var p0 := Initial(GetDefaultFont(i, env));
    var p1 := match file case Some(lines) => ParseLines(p0, i, lines) case None => p0;
    var p2 := ApplyEnv(p1, i, env);
    if i == 0 then p2.(cols := if p2.cols < 80 then 80 else p2.cols, rows := if p2.rows < 24 then 24 else p2.rows)
    else p2
  }

  /** Sizes and borders are always positive and the tile size never negative; term 0 is at least 80x24. */
  lemma TermSettingsBounds(i: int, file: Option<seq<string>>, env: string -> Option<string>)
    ensures var p := TermSettings(i, file, env);
      p.cols >= 1 && p.rows >= 1 && p.ox >= 1 && p.oy >= 1 && p.tileWid >= 0 && p.tileHgt >= 0
    ensures i == 0 ==> TermSettings(i, file, env).cols >= 80 && TermSettings(i, file, env).rows >= 24
  {
  }

  /** The font chain: ANGBAND_X11_FONT_i beats everything, including a FONT_i line of the file. */
  lemma TermFontFromEnvironment(i: int, file: Option<seq<string>>, env: string -> Option<string>)
    requires env(EnvName(Font, i)).Some?
    ensures TermSettings(i, file, env).font == env(EnvName(Font, i)).value
  {
  }

  /** The environment's positive values win over the file; other values leave the file's. */
  lemma TermSettingsEnvironmentWins(i: int, file: Option<seq<string>>, env: string -> Option<string>)
    requires i != 0
    ensures var p1 := ApplyEnv(Initial(GetDefaultFont(i, env)), i, env);
      file.None? ==> TermSettings(i, file, env) == p1
    ensures EnvInt(env, EnvName(Cols, i)) > 0 ==> TermSettings(i, file, env).cols == EnvInt(env, EnvName(Cols, i))
  {
  }

  /** Without a file or environment a term keeps the built-in 80x24, border 1, at (0, 0). */
  lemma TermSettingsDefaults(i: int)
    ensures var p := TermSettings(i, None, _ => None);
      p == TermPrefs(0, 0, 80, 24, 1, 1, BuiltinFont(i), 0, 0)
  {
  }

  /** The XSizeHints term_data_init sets. */
  datatype SizeHints = SizeHints(
    usPosition: bool,
    minWidth: int, minHeight: int, maxWidth: int, maxHeight: int,
    widthInc: int, heightInc: int, baseWidth: int, baseHeight: int)

  /** What term_data_init sets up for a term, besides the X objects. */
  datatype TermSetup = TermSetup(
    prefs: TermPrefs, tileWid: int, tileHgt: int, tileWid2: int,
    keyQueue: nat, wid: int, hgt: int,
    resName: string, resClass: string, hints: SizeHints, impell: bool)

  /** `tolower` in the "C" locale. */
  function ToLower(c: char): (r: char)
    ensures 'A' <= c <= 'Z' ==> r as int == c as int + 32
    ensures !('A' <= c <= 'Z') ==> r == c
  {
    if 'A' <= c <= 'Z' then (c as int + 32) as char else c
  }

  /** The class hint's resource name: the term's name in a 20-byte buffer, first letter in lower case. */
  function ResName(name: string): (r: string)
    ensures |r| == (if |name| < 19 then |name| else 19)
    ensures |r| > 0 ==> r[0] == ToLower(name[0]) && r[1..] == name[1..|r|]
  {
    var t := Truncate(name, 19);
    if |t| == 0 then t else [ToLower(t[0])] + t[1..]
  }

  /**
   * The sizes term_data_init derives once the font is loaded: the tile is
   * the font's cell unless the settings gave a positive size, the window
   * is cols x rows tiles inside the two borders, and the hints make the
   * window resize by whole tiles between a minimum (80x24 tiles for the
   * main term, one tile otherwise) and 255x255 tiles.
   */
  function Setup(i: int, name: string, p: TermPrefs, fontWidth: int, fontHeight: int): (s: TermSetup)
    ensures s.prefs == p
    ensures s.tileWid == (if p.tileWid <= 0 then fontWidth else p.tileWid) && s.tileWid2 == s.tileWid
    ensures s.tileHgt == (if p.tileHgt <= 0 then fontHeight else p.tileHgt)
    ensures s.keyQueue == (if i == 0 then 1024 else 16)
    ensures s.wid == p.cols * s.tileWid + 2 * p.ox && s.hgt == p.rows * s.tileHgt + 2 * p.oy
    ensures s.hints.usPosition <==> p.x != 0 || p.y != 0
    ensures s.impell <==> p.x >= 0 && p.y >= 0
    ensures s.hints.widthInc == s.tileWid && s.hints.heightInc == s.tileHgt
    ensures s.hints.baseWidth == 2 * p.ox && s.hints.baseHeight == 2 * p.oy
    ensures s.resName == ResName(name) && s.resClass == "Angband"
  {
    var tw := if p.tileWid <= 0 then fontWidth else p.tileWid;
    var th := if p.tileHgt <= 0 then fontHeight else p.tileHgt;
    var least := if i == 0 then 80 else 1;
    var leastRows := if i == 0 then 24 else 1;
    var hints := SizeHints(
      p.x != 0 || p.y != 0,
      least * tw + (p.ox + p.ox), leastRows * th + (p.oy + p.oy),
      255 * tw + (p.ox + p.ox), 255 * th + (p.oy + p.oy),
      tw, th, p.ox + p.ox, p.oy + p.oy);
    TermSetup(p, tw, th, tw, if i == 0 then 1024 else 16,
              p.cols * tw + (p.ox + p.ox), p.rows * th + (p.oy + p.oy),
              ResName(name), "Angband", hints, p.x >= 0 && p.y >= 0)
  }

  /**
   * The window term_data_init opens lies within its own size hints: at
   * least the minimum, and at most the maximum exactly when it has at
   * most 255 columns (rows).
   */
  lemma SetupWithinHints(i: int, name: string, file: Option<seq<string>>, env: string -> Option<string>,
                         fontWidth: int, fontHeight: int)
    requires fontWidth > 0 && fontHeight > 0
    ensures var p := TermSettings(i, file, env);
      var s := Setup(i, name, p, fontWidth, fontHeight);
      && s.hints.minWidth <= s.wid && s.hints.minHeight <= s.hgt
      && (s.wid <= s.hints.maxWidth <==> p.cols <= 255)
      && (s.hgt <= s.hints.maxHeight <==> p.rows <= 255)
  {
    var p := TermSettings(i, file, env);
    TermSettingsBounds(i, file, env);
    var s := Setup(i, name, p, fontWidth, fontHeight);
    var least := if i == 0 then 80 else 1;
    var leastRows := if i == 0 then 24 else 1;
    MulLe(least, p.cols, s.tileWid);
    MulLe(leastRows, p.rows, s.tileHgt);
    MulLeIff(p.cols, 255, s.tileWid);
    MulLeIff(p.rows, 255, s.tileHgt);
  }

  lemma MulLeIff(a: int, b: int, t: int)
    requires t > 0
    ensures a * t <= b * t <==> a <= b
  {
    if a > b {
      MulGrows(a - b, t);
      assert a * t - b * t == (a - b) * t;
    } else {
      MulLe(a, b, t);
    }
  }

  /**
   * The first half of term_data_init: the settings file read line by
   * line, then the environment, then the 80x24 minimum of the main window.
   */
  method ReadSettings(i: int, file: Option<seq<string>>, env: string -> Option<string>) returns (p: TermPrefs)
    ensures p == TermSettings(i, file, env)
  {
    p := Initial(GetDefaultFont(i, env));
    if file.Some? {
      p := ReadTermPrefs(p, i, file.value);
    }
    p := ApplyEnv(p, i, env);
    if i == 0 {
      if p.cols < 80 {
        p := p.(cols := 80);
      }
      if p.rows < 24 {
        p := p.(rows := 24);
      }
    }
  }

  /**
   * term_data_init: the settings, then the font (None from loadFont is a
   * font that fails to load, which quits), then the window derived from
   * both. None means quit.
   */
  method TermDataInit(i: int, name: string, file: Option<seq<string>>, env: string -> Option<string>,
                      loadFont: string -> Option<(int, int)>) returns (r: Option<TermSetup>)
    ensures r.None? <==> loadFont(TermSettings(i, file, env).font).None?
    ensures r.Some? ==>
      var (fw, fh) := loadFont(TermSettings(i, file, env).font).value;
      r.value == Setup(i, name, TermSettings(i, file, env), fw, fh)
  {
    var p := ReadSettings(i, file, env);
    var metrics := loadFont(p.font);
    if metrics.None? {
      return None;
    }
    r := Some(Setup(i, name, p, metrics.value.0, metrics.value.1));
  }

  // ---------------------------------------------------------------------
  // Colours
  // ---------------------------------------------------------------------

  /** An entry of a colour table: the game's four bytes (a tag and red, green, blue). */
  datatype ColorEntry = ColorEntry(tag: int, r: int, g: int, b: int)

  predicate IsByte(v: int)
  {
    0 <= v < 256
  }

  /** `c * 257`: an 8-bit channel widened to X's 16 bits by repeating the byte. */
  function ScaleChannel(c: int): (v: int)
    requires IsByte(c)
    ensures 0 <= v < 65536
    ensures v / 256 == c && v % 256 == c
    ensures c == 0 ==> v == 0
    ensures c == 255 ==> v == 65535
  {
    c * 257
  }

  /** Widening is strictly monotone, so distinct channel values stay distinct. */
  lemma ScaleChannelMonotone(a: int, b: int)
    requires IsByte(a) && IsByte(b) && a < b
    ensures ScaleChannel(a) < ScaleChannel(b)
  {
    MulLe(a + 1, b, 257);
  }

  /**
   * create_pixel without gamma correction: the colour XAllocColor is
   * asked for (alloc stands for the X server; None is a failure, on which
   * the program quits). create_pixel returns a u32b, so the server's
   * `unsigned long` pixel comes back cut to its low 32 bits.
   */
  function CreatePixel(alloc: (int, int, int) -> Option<Pixel>, e: ColorEntry): (p: Option<Pixel>)
    requires IsByte(e.r) && IsByte(e.g) && IsByte(e.b)
    ensures var asked := alloc(ScaleChannel(e.r), ScaleChannel(e.g), ScaleChannel(e.b));
      (p.Some? <==> asked.Some?) && (p.Some? ==> p.value as int == U32(asked.value as int))
    ensures p.Some? ==> p.value < 0x1_0000_0000
    ensures e.r == 0 && e.g == 0 && e.b == 0 ==> (p.Some? <==> alloc(0, 0, 0).Some?)
    ensures e.r == 255 && e.g == 255 && e.b == 255 ==> (p.Some? <==> alloc(65535, 65535, 65535).Some?)
  {
    match alloc(ScaleChannel(e.r), ScaleChannel(e.g), ScaleChannel(e.b))
    case None => None
    case Some(v) => Some(U32(v as int) as Pixel)
  }

  predicate EntryBytes(e: ColorEntry)
  {
    IsByte(e.r) && IsByte(e.g) && IsByte(e.b)
  }

  predicate AllBytes(t: seq<ColorEntry>)
  {
    forall k :: 0 <= k < |t| ==> EntryBytes(t[k])
  }

  /** The indices below n at which two colour tables differ, in increasing order. */
  function Differing(a: seq<ColorEntry>, b: seq<ColorEntry>, n: nat): (d: seq<nat>)
    requires n <= |a| && n <= |b|
    ensures forall k :: 0 <= k < |d| ==> d[k] < n
    decreases n
  {
    if n == 0 then []
    else Differing(a, b, n - 1) + (if a[n - 1] != b[n - 1] then [n - 1] else [])
  }

  /** Differing lists exactly the differing indices, each once, in increasing order. */
  lemma {:induction false} DifferingExact(a: seq<ColorEntry>, b: seq<ColorEntry>, n: nat)
    requires n <= |a| && n <= |b|
    ensures forall j :: 0 <= j < n ==> (j in Differing(a, b, n) <==> a[j] != b[j])
    ensures forall k, l :: 0 <= k < l < |Differing(a, b, n)| ==> Differing(a, b, n)[k] < Differing(a, b, n)[l]
    decreases n
  {
    if n > 0 {
      DifferingExact(a, b, n - 1);
    }
  }

  /** One call Infoclr_change_fg(clr[index], pixel). */
  datatype FgChange = FgChange(index: nat, pixel: Pixel)

  /**
   * The colour table of this front end (color_table_x11), which
   * Term_xtra_x11_react keeps in step with the game's table.
   */
  class ColorTable {
    var table: array<ColorEntry>

    constructor (n: nat)
      ensures fresh(table) && table.Length == n
      ensures forall k :: 0 <= k < n ==> table[k] == ColorEntry(0, 0, 0, 0)
    {
      table := new ColorEntry[n](_ => ColorEntry(0, 0, 0, 0));
    }

    /**
     * Term_xtra_x11_react: on a colour display every entry that differs
     * from the game's table is copied and gets a new pixel, in index
     * order; a pixel that cannot be allocated quits, with the entries
     * before it already synced.
     */
    method React(isColor: bool, game: seq<ColorEntry>, alloc: (int, int, int) -> Option<Pixel>)
      returns (quit: bool, changes: seq<FgChange>)
      requires |game| == table.Length && AllBytes(game)
      modifies table
      ensures !isColor ==> !quit && changes == [] && table[..] == old(table[..])
      ensures !quit && isColor ==> table[..] == game
      ensures !quit && isColor ==>
        var d := Differing(old(table[..]), game, |game|);
        |changes| == |d| &&
        forall k :: 0 <= k < |d| ==> changes[k].index == d[k] && Some(changes[k].pixel) == CreatePixel(alloc, game[d[k]])
      ensures quit ==> isColor && exists j :: 0 <= j < |game| && old(table[j]) != game[j] && CreatePixel(alloc, game[j]).None?
    {
      quit, changes := false, [];
      if !isColor {
        return;
      }
      ghost var before := table[..];
      var i := 0;
      while i < table.Length
        invariant 0 <= i <= table.Length && table.Length == |before|
        invariant forall k :: 0 <= k < i ==> table[k] == game[k]
        invariant forall k :: i <= k < table.Length ==> table[k] == before[k]
        invariant |changes| == |Differing(before, game, i)|
        invariant forall k :: 0 <= k < |changes| ==>
          changes[k].index == Differing(before, game, i)[k] &&
          Some(changes[k].pixel) == CreatePixel(alloc, game[changes[k].index])
      {
        if table[i] != game[i] {
          table[i] := game[i];
          var pixel := CreatePixel(alloc, game[i]);
          if pixel.None? {
            return true, changes;
          }
          changes := changes + [FgChange(i, pixel.value)];
        }
        i := i + 1;
      }
      assert table[..] == game;
    }
  }

  /** BG_BLACK, BG_SAME, BG_DARK: the three background variants of each colour. */
  const BgMax: nat := 3

  /** The allocated pixel of a colour, or 0 when it cannot be allocated. */
  function PixelOr0(alloc: (int, int, int) -> Option<Pixel>, e: ColorEntry): (p: Pixel)
    requires EntryBytes(e)
    ensures CreatePixel(alloc, e).Some? ==> Some(p) == CreatePixel(alloc, e)
  {
    match CreatePixel(alloc, e)
    case Some(p) => p
    case None => 0
  }

  /** Which third of the colour range an index is in, and its colour. */
  lemma Variant(i: nat, m: nat)
    requires m > 0 && i < BgMax * m
    ensures i < m ==> i / m == 0 && i % m == i
    ensures m <= i < 2 * m ==> i / m == 1 && i % m == i - m
    ensures 2 * m <= i ==> i / m == 2 && i % m == i - 2 * m
  {
    var q, r := i / m, i % m;
    assert i == q * m + r && 0 <= r < m;
    if q >= 3 {
      MulLe(3, q, m);
    } else if q < 0 {
      assert false;
    }
    assert q == 0 || q == 1 || q == 2;
    if q == 1 {
      assert i == m + r;
    } else if q == 2 {
      assert i == 2 * m + r;
    }
  }

  /** One Infoclr_init_data(clr[i], fg, bg, CPY, 0) call. */
  datatype ClrInit = ClrInit(fg: Pixel, bg: Pixel)

  /** The colour pair init_x11 gives clr[i] on a monochrome display: white on black, black for clr[0]. */
  function MonoInit(i: nat, black: Pixel, white: Pixel): (c: ClrInit)
    ensures c.bg == black && (c.fg == black <==> i == 0 || white == black)
  {
    ClrInit(if i == 0 then black else white, black)
  }

  /**
   * The colour pair of clr[i] on a colour display, when its pixels were
   * allocated: the colour i mod MAX_COLORS on black, on itself, or on the
   * COLOUR_SHADE colour, by background variant i / MAX_COLORS.
   */
  function ColorInitOf(i: nat, m: nat, fg: Pixel, shadePixel: Pixel, black: Pixel): (c: ClrInit)
    requires m > 0 && i < BgMax * m
    ensures c.fg == fg
    ensures i < m ==> c.bg == black
    ensures m <= i < 2 * m ==> c.bg == fg
    ensures 2 * m <= i ==> c.bg == shadePixel
  {
    // the background variant i / MAX_COLORS is 0, 1 or 2 (see Variant)
    ClrInit(fg, if i < m then black else if i < 2 * m then fg else shadePixel)
  }

  /** The pair clr[i] gets on a display of either kind, once its pixels are allocated. */
  function ExpectedInit(i: nat, game: seq<ColorEntry>, shade: nat, isColor: bool,
                        black: Pixel, white: Pixel, alloc: (int, int, int) -> Option<Pixel>): (c: ClrInit)
    requires |game| > 0 && i < BgMax * |game| && shade < |game| && AllBytes(game)
    ensures !isColor ==> c.bg == black
    ensures isColor ==> c.fg == PixelOr0(alloc, game[i % |game|])
    ensures isColor && i < |game| ==> c.bg == black
  {
    if isColor then ColorInitOf(i, |game|, PixelOr0(alloc, game[i % |game|]), PixelOr0(alloc, game[shade]), black)
    else MonoInit(i, black, white)
  }

  /**
   * The colour pair of clr[i] on a colour display: create_pixel for the
   * colour i mod MAX_COLORS and, for the dark variant, for COLOUR_SHADE.
   * quit is a failed allocation.
   */
  method ColorPair(i: nat, m: nat, entry: ColorEntry, shadeEntry: ColorEntry, black: Pixel,
                   alloc: (int, int, int) -> Option<Pixel>) returns (quit: bool, c: ClrInit)
    requires m > 0 && i < BgMax * m && EntryBytes(entry) && EntryBytes(shadeEntry)
    ensures quit <==> CreatePixel(alloc, entry).None? || (i / m == 2 && CreatePixel(alloc, shadeEntry).None?)
    ensures !quit ==> c == ColorInitOf(i, m, PixelOr0(alloc, entry), PixelOr0(alloc, shadeEntry), black)
  {
    c := ClrInit(black, black);
    var pixel := CreatePixel(alloc, entry);
    if pixel.None? {
      return true, c;
    }
    var back := black;
    if i / m == 1 {
      back := pixel.value;
    } else if i / m == 2 {
      var shadePixel := CreatePixel(alloc, shadeEntry);
      if shadePixel.None? {
        return true, c;
      }
      back := shadePixel.value;
    }
    quit, c := false, ClrInit(pixel.value, back);
  }

  /**
   * init_x11's colour loop over MAX_COLORS * BG_MAX colours: the front
   * end's table becomes the game's, and clr[i] gets a foreground and a
   * background pixel as above (from the entries just copied into the
   * table). Any failed allocation quits.
   */
  method InitColors(colors: ColorTable, game: seq<ColorEntry>, shade: nat, isColor: bool,
                    black: Pixel, white: Pixel, alloc: (int, int, int) -> Option<Pixel>)
    returns (quit: bool, inits: seq<ClrInit>)
    requires |game| == colors.table.Length && |game| > 0 && shade < |game| && AllBytes(game)
    modifies colors.table
    ensures !quit ==> colors.table[..] == game && |inits| == BgMax * |game|
    ensures !quit && !isColor ==> forall i :: 0 <= i < |inits| ==> inits[i] == MonoInit(i, black, white)
    ensures !quit && isColor ==> forall j :: 0 <= j < |game| ==> CreatePixel(alloc, game[j]).Some?
    ensures !quit && isColor ==> forall i :: 0 <= i < |inits| ==>
      inits[i] == ColorInitOf(i, |game|, PixelOr0(alloc, game[i % |game|]), PixelOr0(alloc, game[shade]), black)
    ensures quit ==> isColor && exists j :: 0 <= j < |game| && CreatePixel(alloc, game[j]).None?
  {
    var m := |game|;
    quit, inits := false, [];
    var i := 0;
    while i < BgMax * m
      invariant 0 <= i <= BgMax * m && |inits| == i && colors.table.Length == m
      invariant forall k :: 0 <= k < m && k < i ==> colors.table[k] == game[k]
      invariant isColor ==> forall k :: 0 <= k < m && k < i ==> CreatePixel(alloc, game[k]).Some?
      invariant forall k :: 0 <= k < i ==> inits[k] == ExpectedInit(k, game, shade, isColor, black, white, alloc)
    {
      Variant(i, m);
      var j := i % m;
      colors.table[j] := game[j];
      var c := MonoInit(i, black, white);
      if isColor {
        var failed;
        failed, c := ColorPair(i, m, game[j], game[shade], black, alloc);
        if failed {
          return true, inits;
        }
      }
      inits := inits + [c];
      i := i + 1;
    }
  }
}
