/**
 * The X11 settings file (x11-settings.prf): the per-window line parser of
 * term_data_init, the environment overrides that follow it, the
 * TERM_WINS scan of init_x11 and the writer save_prefs. The file is a
 * sequence of lines as file_getl delivers them.
 */
module Prefs {

  import opened CInt
  import opened CStr

  /** The per-window settings, in the order term_data_init tests them. */
  datatype Key = AtX | AtY | Cols | Rows | IBoX | IBoY | Font | TileWidth | TileHeight

  function KeyName(k: Key): (s: string)
    ensures |s| >= 5 && s[|s| - 1] == '_' && '=' !in s
  {
    match k
    case AtX => "AT_X_"
    case AtY => "AT_Y_"
    case Cols => "COLS_"
    case Rows => "ROWS_"
    case IBoX => "IBOX_"
    case IBoY => "IBOY_"
    case Font => "FONT_"
    case TileWidth => "TILE_WIDTH_"
    case TileHeight => "TILE_HEIGHT_"
  }

  /** The command the parser looks for for window i, as strnfmt("%s%d") writes it. */
  function Cmd(k: Key, i: int): (s: string)
    ensures HasPrefix(s, KeyName(k)) && |s| > |KeyName(k)|
    ensures 0 <= i < 10 ==> s == KeyName(k) + [DigitChar(i)] && '=' !in s
  {
    KeyName(k) + Itoa(i)
  }

  /** What term_data_init collects for one window before it opens the font. */
  datatype TermPrefs = TermPrefs(
    x: int, y: int, cols: int, rows: int, ox: int, oy: int,
    font: string, tileWid: int, tileHgt: int)

  /** The locals' initial values: position 0,0, 80x24 cells, border 1, the default font, zeroed tile size. */
  function Initial(defaultFont: string): (p: TermPrefs)
    ensures p.cols == 80 && p.rows == 24 && p.ox == 1 && p.oy == 1
    ensures p.x == 0 && p.y == 0 && p.tileWid == 0 && p.tileHgt == 0 && p.font == defaultFont
  {
    TermPrefs(0, 0, 80, 24, 1, 1, defaultFont, 0, 0)
  }

  /** Lines the parsers skip: empty, starting with white space, or a '#' comment. */
  predicate Skipped(line: string)
  {
    |line| == 0 || IsSpace(line[0]) || line[0] == '#'
  }

  /** `str = strstr(buf, "="); (str != NULL) ? atoi(str + 1) : -1` */
  function ValueAfterEq(line: string): (v: int)
    ensures FindChar(line, '=').None? ==> v == -1
  {
    match FindChar(line, '=')
    case None => -1
    case Some(k) => Atoi(line[k + 1..])
  }

  /** my_strcpy into a buffer of n + 1 bytes: at most n characters survive. */
  function Truncate(s: string, n: nat): (r: string)
    ensures |r| <= n && r <= s
    ensures |s| <= n ==> r == s
    ensures |s| > n ==> |r| == n
  {
    if |s| <= n then s else s[..n]
  }

  /** The line mentions none of window i's commands. */
  predicate NoCommand(line: string, i: int)
  {
    forall k: Key :: !HasPrefix(line, Cmd(k, i))
  }

  /** The window's six numeric sizes that are only ever replaced by positive values. */
  predicate PositiveOrSame(r: TermPrefs, p: TermPrefs)
  {
    && (r.cols == p.cols || r.cols > 0) && (r.rows == p.rows || r.rows > 0)
    && (r.ox == p.ox || r.ox > 0) && (r.oy == p.oy || r.oy > 0)
    && (r.tileWid == p.tileWid || r.tileWid > 0) && (r.tileHgt == p.tileHgt || r.tileHgt > 0)
  }

  /** The settings in the order term_data_init tests (and save_prefs writes) them. */
  const Keys: seq<Key> := [AtX, AtY, Cols, Rows, IBoX, IBoY, Font, TileWidth, TileHeight]

  /** Where setting k stands in the parser's order. */
  function KeyIndex(k: Key): (n: nat)
    ensures n < |Keys| && Keys[n] == k
  {
    match k
    case AtX => 0
    case AtY => 1
    case Cols => 2
    case Rows => 3
    case IBoX => 4
    case IBoY => 5
    case Font => 6
    case TileWidth => 7
    case TileHeight => 8
  }

  /**
   * The branch for setting k: the position takes the value after '=' (-1
   * without one), the sizes take it only when positive, and the font takes
   * the text after '=' cut to the 256-byte buffer.
   */
  function Assign(p: TermPrefs, k: Key, line: string): (r: TermPrefs)
    ensures PositiveOrSame(r, p)
    ensures r.font == p.font || |r.font| <= 255
    ensures k == AtX ==> r == p.(x := ValueAfterEq(line))
    ensures k == AtY ==> r == p.(y := ValueAfterEq(line))
    ensures k == Cols ==> r == p.(cols := if ValueAfterEq(line) > 0 then ValueAfterEq(line) else p.cols)
    ensures k == Rows ==> r == p.(rows := if ValueAfterEq(line) > 0 then ValueAfterEq(line) else p.rows)
    ensures k == IBoX ==> r == p.(ox := if ValueAfterEq(line) > 0 then ValueAfterEq(line) else p.ox)
    ensures k == IBoY ==> r == p.(oy := if ValueAfterEq(line) > 0 then ValueAfterEq(line) else p.oy)
    ensures k == TileWidth ==> r == p.(tileWid := if ValueAfterEq(line) > 0 then ValueAfterEq(line) else p.tileWid)
    ensures k == TileHeight ==> r == p.(tileHgt := if ValueAfterEq(line) > 0 then ValueAfterEq(line) else p.tileHgt)
    ensures k == Font && FindChar(line, '=').None? ==> r == p
    ensures k == Font && FindChar(line, '=').Some? ==>
      r == p.(font := Truncate(line[FindChar(line, '=').value + 1..], 255))
  {
    match k
    case Font =>
      (match FindChar(line, '=')
       case None => p
       case Some(e) => p.(font := Truncate(line[e + 1..], 255)))
    case _ =>
      var v := ValueAfterEq(line);
      match k
      case AtX => p.(x := v)
      case AtY => p.(y := v)
      case Cols => if v > 0 then p.(cols := v) else p
      case Rows => if v > 0 then p.(rows := v) else p
      case IBoX => if v > 0 then p.(ox := v) else p
      case IBoY => if v > 0 then p.(oy := v) else p
      case TileWidth => if v > 0 then p.(tileWid := v) else p
      case TileHeight => if v > 0 then p.(tileHgt := v) else p
  }

  /**
   * term_data_init's chain of `if (prefix(buf, cmd)) { ...; continue; }`
   * tests over the settings ks, in order: the first command the line starts
   * with selects its branch.
   */
  function ApplyKeys(p: TermPrefs, i: int, line: string, ks: seq<Key>): (r: TermPrefs)
    ensures NoCommand(line, i) ==> r == p
    ensures PositiveOrSame(r, p)
    ensures r.font == p.font || |r.font| <= 255
    decreases |ks|
  {
    if |ks| == 0 then p
    else if HasPrefix(line, Cmd(ks[0], i)) then Assign(p, ks[0], line)
    else ApplyKeys(p, i, line, ks[1..])
  }

  /** One pass of term_data_init's read loop over a line for window i. */
  function ApplyLine(p: TermPrefs, i: int, line: string): (r: TermPrefs)
    ensures Skipped(line) || NoCommand(line, i) ==> r == p
    ensures PositiveOrSame(r, p)
    ensures r.font == p.font || |r.font| <= 255
  {
    if Skipped(line) then p else ApplyKeys(p, i, line, Keys)
  }

  /** The settings after reading every line in order. */
  function ParseLines(p: TermPrefs, i: int, lines: seq<string>): (r: TermPrefs)
    ensures PositiveOrSame(r, p)
    decreases |lines|
  {
    if |lines| == 0 then p else ParseLines(ApplyLine(p, i, lines[0]), i, lines[1..])
  }

  /** term_data_init's `while (file_getl(...))` loop over the settings file. */
  method ReadTermPrefs(p0: TermPrefs, i: int, lines: seq<string>) returns (p: TermPrefs)
    ensures p == ParseLines(p0, i, lines)
  {
    p := p0;
    var n := 0;
    while n < |lines|
      invariant 0 <= n <= |lines|
      invariant ParseLines(p, i, lines[n..]) == ParseLines(p0, i, lines)
    {
      assert lines[n..][1..] == lines[n + 1..];
      p := ApplyLine(p, i, lines[n]);
      n := n + 1;
    }
  }

  /** The name of the environment variable that overrides setting k of window i. */
  function EnvName(k: Key, i: int): (s: string)
    ensures HasPrefix(s, "ANGBAND_X11_")
  {
    "ANGBAND_X11_" + Cmd(k, i)
  }

  /** `str = getenv(name); (str != NULL) ? atoi(str) : -1` */
  function EnvInt(env: string -> Option<string>, name: string): (v: int)
    ensures env(name).None? ==> v == -1
    ensures env(name).Some? ==> v == Atoi(env(name).value)
  {
    match env(name)
    case None => -1
    case Some(s) => Atoi(s)
  }

  /** A numeric setting after its variable name: the variable's value when positive, else the old setting. */
  predicate Overridden(env: string -> Option<string>, name: string, before: int, after: int)
  {
    if EnvInt(env, name) > 0 then after == EnvInt(env, name) else after == before
  }

  /** `val = get_env_num(name); if (val > 0) setting = val;` */
  function Override(env: string -> Option<string>, name: string, prev: int): (v: int)
    ensures Overridden(env, name, prev, v)
    ensures v == prev || v > 0
  {
    var e := EnvInt(env, name);
    if e > 0 then e else prev
  }

  /**
   * The environment overrides after the file: the six numeric settings
   * only when the variable's value is positive, the font whenever the
   * variable exists; the tile size has no variable.
   */
  function ApplyEnv(p: TermPrefs, i: int, env: string -> Option<string>): (r: TermPrefs)
    ensures Overridden(env, EnvName(AtX, i), p.x, r.x) && Overridden(env, EnvName(AtY, i), p.y, r.y)
    ensures Overridden(env, EnvName(Cols, i), p.cols, r.cols) && Overridden(env, EnvName(Rows, i), p.rows, r.rows)
    ensures Overridden(env, EnvName(IBoX, i), p.ox, r.ox) && Overridden(env, EnvName(IBoY, i), p.oy, r.oy)
    ensures env(EnvName(Font, i)).Some? ==> r.font == env(EnvName(Font, i)).value
    ensures env(EnvName(Font, i)).None? ==> r.font == p.font
    ensures r.tileWid == p.tileWid && r.tileHgt == p.tileHgt
    ensures PositiveOrSame(r, p) && (r.x == p.x || r.x > 0) && (r.y == p.y || r.y > 0)
  {
    TermPrefs(
      Override(env, EnvName(AtX, i), p.x),
      Override(env, EnvName(AtY, i), p.y),
      Override(env, EnvName(Cols, i), p.cols),
      Override(env, EnvName(Rows, i), p.rows),
      Override(env, EnvName(IBoX, i), p.ox),
      Override(env, EnvName(IBoY, i), p.oy),
      match env(EnvName(Font, i)) case Some(f) => f case None => p.font,
      p.tileWid, p.tileHgt)
  }

  /** One pass of init_x11's scan for TERM_WINS: a positive value replaces the count. */
  function ApplyTermWinsLine(n: int, line: string): (r: int)
    ensures !HasPrefix(line, "TERM_WINS") ==> r == n
    ensures r == n || r > 0
  {
    if Skipped(line) then n
    else if HasPrefix(line, "TERM_WINS") then
      var v := ValueAfterEq(line); if v > 0 then v else n
    else n
  }

  function ParseTermWins(n: int, lines: seq<string>): (r: int)
    ensures r == n || r > 0
    decreases |lines|
  {
    if |lines| == 0 then n else ParseTermWins(ApplyTermWinsLine(n, lines[0]), lines[1..])
  }

  /** init_x11's read loop: the window count starts at 1 and the file may raise it. */
  method ReadTermWins(lines: seq<string>) returns (n: int)
    ensures n == ParseTermWins(1, lines) && n >= 1
  {
    n := 1;
    var k := 0;
    while k < |lines|
      invariant 0 <= k <= |lines|
      invariant ParseTermWins(n, lines[k..]) == ParseTermWins(1, lines)
    {
      assert lines[k..][1..] == lines[k + 1..];
      n := ApplyTermWinsLine(n, lines[k]);
      k := k + 1;
    }
  }

  /** What save_prefs reads from one window: whether it is mapped, and its settings. */
  datatype SavedTerm = SavedTerm(mapped: bool, prefs: TermPrefs)

  /** `key_i=value` as file_putf writes it. */
  function Line(k: Key, i: int, value: string): (r: string)
    ensures |r| == |Cmd(k, i)| + 1 + |value|
    ensures r[..|Cmd(k, i)|] == Cmd(k, i) && r[|Cmd(k, i)|] == '=' && r[|Cmd(k, i)| + 1..] == value
  {
    Cmd(k, i) + "=" + value
  }

  /** The text save_prefs writes after `key_i=`: %d of the number, or the font name. */
  function KeyValue(p: TermPrefs, k: Key): (v: string)
    ensures k == Font ==> v == p.font
    ensures k != Font ==> |v| >= 1 && '=' !in v
  {
    match k
    case AtX => Itoa(p.x)
    case AtY => Itoa(p.y)
    case Cols => Itoa(p.cols)
    case Rows => Itoa(p.rows)
    case IBoX => Itoa(p.ox)
    case IBoY => Itoa(p.oy)
    case Font => p.font
    case TileWidth => Itoa(p.tileWid)
    case TileHeight => Itoa(p.tileHgt)
  }

  /** The block save_prefs writes for window i: a heading, one line per setting, a blank line. */
  function Block(i: int, p: TermPrefs): (b: seq<string>)
    ensures |b| == 11 && b[0] == "# Term " + Itoa(i) && b[10] == ""
    ensures forall n :: 1 <= n < 10 ==> b[n] == Line(Keys[n - 1], i, KeyValue(p, Keys[n - 1]))
  {
    ["# Term " + Itoa(i)] + seq(9, n requires 0 <= n < 9 => Line(Keys[n], i, KeyValue(p, Keys[n]))) + [""]
  }

  /** The blocks for windows start.. in order; a window is written when its mapped flag equals writeMapped. */
  function SaveBlocks(terms: seq<SavedTerm>, start: nat, writeMapped: bool): (b: seq<string>)
    ensures start >= |terms| ==> b == []
    decreases |terms| - start
  {
    if start >= |terms| then []
    else
      (if terms[start].mapped == writeMapped then Block(start, terms[start].prefs) else [])
      + SaveBlocks(terms, start + 1, writeMapped)
  }

  /** The heading file_putf writes: version comment, blank, window count, blank. */
  function Header(version: string, termWins: int): (h: seq<string>)
    ensures |h| == 4 && h[2] == "TERM_WINS=" + Itoa(termWins)
  {
    ["# " + version + " X11 settings", "", "TERM_WINS=" + Itoa(termWins), ""]
  }

  /** ANGBAND_TERM_MAX: the size of the game's angband_term array. */
  const TermMax: nat := 8

  /**
   * How save_prefs ends: no file opened, the whole file written, or the
   * lines written before it reads through the empty slot `at` of
   * angband_term.
   */
  datatype SaveResult = NoFile | Saved(lines: seq<string>) | Crashed(written: seq<string>, at: nat)

  /**
   * file_open(settings, MODE_WRITE): init_x11 builds the path only when
   * no -n was given, and opening the empty path fails; otherwise the file
   * system answers canWrite.
   */
  predicate WriteOpens(settings: string, canWrite: bool)
  {
    settings != "" && canWrite
  }

  /** The number of leading slots of angband_term that hold a term. */
  function FilledSlots(slots: seq<Option<SavedTerm>>): (n: nat)
    ensures n <= |slots| && forall j :: 0 <= j < n ==> slots[j].Some?
    ensures n < |slots| ==> slots[n].None?
  {
    if |slots| == 0 || slots[0].None? then 0 else 1 + FilledSlots(slots[1..])
  }

  /** The terms held by the first n slots. */
  function TermsOf(slots: seq<Option<SavedTerm>>, n: nat): (terms: seq<SavedTerm>)
    requires n <= |slots| && forall j :: 0 <= j < n ==> slots[j].Some?
    ensures |terms| == n && forall j :: 0 <= j < n ==> terms[j] == slots[j].value
  {
    seq(n, j requires 0 <= j < n => slots[j].value)
  }

  /**
   * save_prefs as written. When the file opens: the heading, then for
   * i = 0 .. ANGBAND_TERM_MAX - 1 the block of each window that is NOT
   * mapped (`if (mapped_flag) continue`). angband_term[i]->data is read
   * before that test, so the first empty slot ends the run with the lines
   * written so far.
   */
  function SavePrefs(settings: string, canWrite: bool, version: string, termWins: int,
                     slots: seq<Option<SavedTerm>>): (r: SaveResult)
    requires |slots| == TermMax
    ensures r.NoFile? <==> !WriteOpens(settings, canWrite)
    ensures r.Saved? <==> WriteOpens(settings, canWrite) && forall j :: 0 <= j < |slots| ==> slots[j].Some?
    ensures r.Saved? ==> r.lines == Header(version, termWins) + SaveBlocks(TermsOf(slots, |slots|), 0, false)
    ensures r.Crashed? ==> r.at < |slots| && slots[r.at].None? && (forall j :: 0 <= j < r.at ==> slots[j].Some?)
    ensures r.Crashed? ==> r.written == Header(version, termWins) + SaveBlocks(TermsOf(slots, r.at), 0, false)
  {
    if !WriteOpens(settings, canWrite) then NoFile
    else
      var n := FilledSlots(slots);
      var out := Header(version, termWins) + SaveBlocks(TermsOf(slots, n), 0, false);
      if n == |slots| then Saved(out) else Crashed(out, n)
  }

  /**
   * save_prefs with its loop bounded by term_windows_open, as hook_quit's
   * loop is: only the windows that exist are visited, and their number is
   * the TERM_WINS written. The windows saved are still the unmapped ones.
   */
  function SavePrefsBounded(settings: string, canWrite: bool, version: string, open: seq<SavedTerm>): (r: SaveResult)
    ensures r.NoFile? <==> !WriteOpens(settings, canWrite)
    ensures !r.Crashed?
    ensures r.Saved? ==> r.lines == Header(version, |open|) + SaveBlocks(open, 0, false)
  {
    if !WriteOpens(settings, canWrite) then NoFile
    else Saved(Header(version, |open|) + SaveBlocks(open, 0, false))
  }

  /**
   * save_prefs as intended: the loop bounded by term_windows_open, and
   * the windows that are open (mapped) are the ones saved.
   */
  function SavePrefsIntended(settings: string, canWrite: bool, version: string, open: seq<SavedTerm>): (r: SaveResult)
    ensures r.NoFile? <==> !WriteOpens(settings, canWrite)
    ensures !r.Crashed?
    ensures r.Saved? ==> r.lines == Header(version, |open|) + SaveBlocks(open, 0, true)
  {
    if !WriteOpens(settings, canWrite) then NoFile
    else Saved(Header(version, |open|) + SaveBlocks(open, 0, true))
  }

  // ---------------------------------------------------------------------
  // Lemmas: the file save_prefs writes is the file term_data_init reads.
  // ---------------------------------------------------------------------

  /**
   * A window's settings that survive the write-and-read unchanged: positive
   * sizes, and a font name that fits the buffer and holds no newline (which
   * would split its FONT_i line in the file).
   */
  predicate Savable(p: TermPrefs)
  {
    p.cols > 0 && p.rows > 0 && p.ox > 0 && p.oy > 0 && p.tileWid > 0 && p.tileHgt > 0
    && |p.font| <= 255 && '\n' !in p.font
  }

  /** Reading a + b is reading a, then b from where a left off. */
  lemma {:induction false} ParseLinesAppend(p: TermPrefs, i: int, a: seq<string>, b: seq<string>)
    ensures ParseLines(p, i, a + b) == ParseLines(ParseLines(p, i, a), i, b)
    decreases |a|
  {
    if |a| > 0 {
      assert (a + b)[0] == a[0];
      assert (a + b)[1..] == a[1..] + b;
      ParseLinesAppend(ApplyLine(p, i, a[0]), i, a[1..], b);
    } else {
      assert a + b == b;
    }
  }

  /** Ignorable lines leave window i's settings as they were. */
  lemma {:induction false} ParseIgnored(p: TermPrefs, i: int, lines: seq<string>)
    requires Ignorable(lines, i)
    ensures ParseLines(p, i, lines) == p
    decreases |lines|
  {
    if |lines| > 0 {
      ParseIgnored(p, i, lines[1..]);
    }
  }

  /** Two key names always disagree at some index below both lengths. */
  lemma NamesDisagree(k1: Key, k2: Key) returns (n: nat)
    requires k1 != k2
    ensures n < |KeyName(k1)| && n < |KeyName(k2)| && KeyName(k1)[n] != KeyName(k2)[n]
  {
    if KeyName(k1)[0] != KeyName(k2)[0] {
      n := 0;
    } else if KeyName(k1)[3] != KeyName(k2)[3] {
      n := 3;
    } else {
      n := 5;
    }
  }

  /** The characters of a line that starts with window i's command for k: the key name, then the digit. */
  lemma CmdChars(k: Key, i: int, rest: string, n: nat)
    requires 0 <= i < 10 && n <= |KeyName(k)|
    ensures n < |KeyName(k)| ==> (Cmd(k, i) + rest)[n] == KeyName(k)[n]
    ensures n == |KeyName(k)| ==> (Cmd(k, i) + rest)[n] == DigitChar(i)
  {
  }

  /** A string's characters below the length of a prefix are the prefix's. */
  lemma PrefixChar(s: string, t: string, n: nat)
    requires HasPrefix(s, t) && n < |t|
    ensures s[n] == t[n]
  {
    assert s[..|t|][n] == s[n];
  }

  /**
   * The command names of windows 0..9 are unambiguous: a line written for
   * setting k2 of window j starts with window i's command for k only when
   * k == k2 and i == j.
   */
  lemma CommandsUnambiguous(k: Key, i: int, k2: Key, j: int, rest: string)
    requires 0 <= i < 10 && 0 <= j < 10
    requires HasPrefix(Cmd(k2, j) + rest, Cmd(k, i))
    ensures k == k2 && i == j
  {
    var line := Cmd(k2, j) + rest;
    var c := Cmd(k, i);
    assert c + [] == c;
    if k != k2 {
      var n := NamesDisagree(k, k2);
      PrefixChar(line, c, n);
      CmdChars(k2, j, rest, n);
      CmdChars(k, i, [], n);
    } else {
      var m := |KeyName(k)|;
      PrefixChar(line, c, m);
      CmdChars(k2, j, rest, m);
      CmdChars(k, i, [], m);
    }
  }

  /** strstr(line, "=") on `name=value` when the name holds no '='. */
  lemma FindAfterName(name: string, value: string)
    requires '=' !in name
    ensures FindChar(name + "=" + value, '=') == Some(|name|)
    ensures (name + "=" + value)[|name| + 1..] == value
  {
    var line := name + "=" + value;
    assert line[|name|] == '=';
    assert forall n :: 0 <= n < |name| ==> line[n] == name[n];
  }

  /** The line save_prefs writes for setting k of window i: the command, then '=' and the value. */
  lemma LineShape(k: Key, i: int, value: string)
    ensures Line(k, i, value) == Cmd(k, i) + ("=" + value)
  {
    assert Cmd(k, i) + "=" + value == Cmd(k, i) + ("=" + value);
  }

  /** A line written for setting k2 of window j does not start with any other window's or setting's command. */
  lemma NotOthersCommand(k: Key, i: int, k2: Key, j: int, rest: string)
    requires 0 <= i < 10 && 0 <= j < 10 && (k != k2 || i != j)
    ensures !HasPrefix(Cmd(k2, j) + rest, Cmd(k, i))
  {
    if HasPrefix(Cmd(k2, j) + rest, Cmd(k, i)) {
      CommandsUnambiguous(k, i, k2, j, rest);
    }
  }

  /** A line written for window j is neither skipped nor a command of any other window i. */
  lemma LineOfOtherWindow(k2: Key, i: int, j: int, value: string)
    requires 0 <= i < 10 && 0 <= j < 10 && i != j
    ensures NoCommand(Line(k2, j, value), i) && !Skipped(Line(k2, j, value))
  {
    LineShape(k2, j, value);
    forall k: Key ensures !HasPrefix(Line(k2, j, value), Cmd(k, i)) {
      NotOthersCommand(k, i, k2, j, "=" + value);
    }
    assert Line(k2, j, value)[0] == KeyName(k2)[0];
  }

  /** A line written for window i starts with its own command and is not skipped. */
  lemma OwnLineStarts(k: Key, i: int, value: string)
    requires 0 <= i < 10
    ensures HasPrefix(Line(k, i, value), Cmd(k, i)) && !Skipped(Line(k, i, value))
  {
    var line := Line(k, i, value);
    assert line[0] == KeyName(k)[0];
    assert line[..|Cmd(k, i)|] == Cmd(k, i);
  }

  /** A line written for setting k of window i starts with no other setting's command of that window. */
  lemma OwnLineOnlyOwn(k: Key, i: int, value: string)
    requires 0 <= i < 10
    ensures forall k2: Key :: k2 != k ==> !HasPrefix(Line(k, i, value), Cmd(k2, i))
  {
    LineShape(k, i, value);
    forall k2: Key | k2 != k ensures !HasPrefix(Line(k, i, value), Cmd(k2, i)) {
      NotOthersCommand(k2, i, k, i, "=" + value);
    }
  }

  /** When only setting k's command matches the line, the chain takes k's branch. */
  lemma {:induction false} ApplyKeysOnly(p: TermPrefs, i: int, line: string, ks: seq<Key>, k: Key)
    requires k in ks && HasPrefix(line, Cmd(k, i))
    requires forall k2: Key :: k2 != k ==> !HasPrefix(line, Cmd(k2, i))
    ensures ApplyKeys(p, i, line, ks) == Assign(p, k, line)
    decreases |ks|
  {
    if ks[0] != k {
      assert k in ks[1..];
      ApplyKeysOnly(p, i, line, ks[1..], k);
    }
  }

  /** A line of window i's block reaches the branch for its own setting, which reads the text after '='. */
  lemma ApplyOwnLine(p: TermPrefs, k: Key, i: int, value: string)
    requires 0 <= i < 10
    ensures ApplyLine(p, i, Line(k, i, value)) == Assign(p, k, Line(k, i, value))
    ensures FindChar(Line(k, i, value), '=') == Some(|Cmd(k, i)|)
    ensures Line(k, i, value)[|Cmd(k, i)| + 1..] == value
    ensures ValueAfterEq(Line(k, i, value)) == Atoi(value)
  {
    OwnLineStarts(k, i, value);
    OwnLineOnlyOwn(k, i, value);
    var n := KeyIndex(k);
    ApplyKeysOnly(p, i, Line(k, i, value), Keys, k);
    assert Line(k, i, value) == Cmd(k, i) + "=" + value;
    FindAfterName(Cmd(k, i), value);
  }

  /** Setting k of q already holds p's value. */
  predicate FieldAgrees(q: TermPrefs, p: TermPrefs, k: Key)
  {
    match k
    case AtX => q.x == p.x
    case AtY => q.y == p.y
    case Cols => q.cols == p.cols
    case Rows => q.rows == p.rows
    case IBoX => q.ox == p.ox
    case IBoY => q.oy == p.oy
    case Font => q.font == p.font
    case TileWidth => q.tileWid == p.tileWid
    case TileHeight => q.tileHgt == p.tileHgt
  }

  /** What reading back setting k's line does: that one field takes p's value, the others stay. */
  function CopyField(q: TermPrefs, p: TermPrefs, k: Key): (r: TermPrefs)
    ensures FieldAgrees(r, p, k)
    ensures forall k2 :: FieldAgrees(q, p, k2) ==> FieldAgrees(r, p, k2)
  {
    match k
    case AtX => q.(x := p.x)
    case AtY => q.(y := p.y)
    case Cols => q.(cols := p.cols)
    case Rows => q.(rows := p.rows)
    case IBoX => q.(ox := p.ox)
    case IBoY => q.(oy := p.oy)
    case Font => q.(font := p.font)
    case TileWidth => q.(tileWid := p.tileWid)
    case TileHeight => q.(tileHgt := p.tileHgt)
  }

  /** Reading back the line written for setting k of a savable p copies exactly that setting. */
  lemma ApplyWrittenLine(q: TermPrefs, p: TermPrefs, k: Key, i: int)
    requires 0 <= i < 10 && Savable(p)
    ensures ApplyLine(q, i, Line(k, i, KeyValue(p, k))) == CopyField(q, p, k)
  {
    ApplyOwnLine(q, k, i, KeyValue(p, k));
    match k
    case AtX => AtoiItoa(p.x);
    case AtY => AtoiItoa(p.y);
    case Cols => AtoiItoa(p.cols);
    case Rows => AtoiItoa(p.rows);
    case IBoX => AtoiItoa(p.ox);
    case IBoY => AtoiItoa(p.oy);
    case Font =>
    case TileWidth => AtoiItoa(p.tileWid);
    case TileHeight => AtoiItoa(p.tileHgt);
  }

  /** One step of reading a block: line n of the block, then the rest. */
  lemma ParseStep(q: TermPrefs, i: int, b: seq<string>, n: nat)
    requires n < |b|
    ensures ParseLines(q, i, b[n..]) == ParseLines(ApplyLine(q, i, b[n]), i, b[n + 1..])
  {
    assert b[n..][0] == b[n];
    assert b[n..][1..] == b[n + 1..];
  }

  /** Reading back window i's own block restores exactly the settings that were written. */
  lemma BlockRoundTrip(p0: TermPrefs, i: int, p: TermPrefs)
    requires 0 <= i < 10 && Savable(p)
    ensures ParseLines(p0, i, Block(i, p)) == p
  {
    var b := Block(i, p);
    assert Skipped(b[0]);
    ParseStep(p0, i, b, 0);
    assert b[0..] == b;
    var q := p0;
    var n := 1;
    while n < 10
      invariant 1 <= n <= 10
      invariant ParseLines(p0, i, b) == ParseLines(q, i, b[n..])
      invariant forall m :: 0 <= m < n - 1 ==> FieldAgrees(q, p, Keys[m])
    {
      ParseStep(q, i, b, n);
      assert b[n] == Line(Keys[n - 1], i, KeyValue(p, Keys[n - 1]));
      ApplyWrittenLine(q, p, Keys[n - 1], i);
      var q' := CopyField(q, p, Keys[n - 1]);
      forall m | 0 <= m < n ensures FieldAgrees(q', p, Keys[m]) {
        if m < n - 1 {
          assert FieldAgrees(q, p, Keys[m]);
        }
      }
      q, n := q', n + 1;
    }
    assert b[10..] == [""];
    ParseStep(q, i, b, 10);
    assert b[11..] == [];
    assert FieldAgrees(q, p, Keys[0]) && FieldAgrees(q, p, Keys[1]) && FieldAgrees(q, p, Keys[2]);
    assert FieldAgrees(q, p, Keys[3]) && FieldAgrees(q, p, Keys[4]) && FieldAgrees(q, p, Keys[5]);
    assert FieldAgrees(q, p, Keys[6]) && FieldAgrees(q, p, Keys[7]) && FieldAgrees(q, p, Keys[8]);
  }

  /** Lines after which window i's settings are as they were: comments, blanks and lines for other windows. */
  predicate Ignorable(lines: seq<string>, i: int)
    decreases |lines|
  {
    |lines| == 0 || ((Skipped(lines[0]) || NoCommand(lines[0], i)) && Ignorable(lines[1..], i))
  }

  /** Lines each skipped or free of window i's commands are ignorable together. */
  lemma {:induction false} IgnorableLines(lines: seq<string>, i: int)
    requires forall n :: 0 <= n < |lines| ==> Skipped(lines[n]) || NoCommand(lines[n], i)
    ensures Ignorable(lines, i)
    decreases |lines|
  {
    if |lines| > 0 {
      IgnorableLines(lines[1..], i);
    }
  }

  /** Ignorable runs of lines stay ignorable when concatenated. */
  lemma {:induction false} IgnorableAppend(a: seq<string>, b: seq<string>, i: int)
    requires Ignorable(a, i) && Ignorable(b, i)
    ensures Ignorable(a + b, i)
    decreases |a|
  {
    if |a| > 0 {
      assert (a + b)[0] == a[0];
      assert (a + b)[1..] == a[1..] + b;
      IgnorableAppend(a[1..], b, i);
    } else {
      assert a + b == b;
    }
  }

  /** Every line of another window's block is a comment, a blank or a command for that window. */
  lemma BlockIgnorable(i: int, j: int, p: TermPrefs)
    requires 0 <= i < 10 && 0 <= j < 10 && i != j
    ensures Ignorable(Block(j, p), i)
  {
    var b := Block(j, p);
    assert Skipped(b[0]) && Skipped(b[10]);
    forall n | 0 <= n < |b| ensures Skipped(b[n]) || NoCommand(b[n], i) {
      if 1 <= n <= 9 {
        LineOfOtherWindow(Keys[n - 1], i, j, KeyValue(p, Keys[n - 1]));
      }
    }
    IgnorableLines(b, i);
  }

  /** Another window's block leaves window i's settings alone. */
  lemma OtherBlockIgnored(q: TermPrefs, i: int, j: int, p: TermPrefs)
    requires 0 <= i < 10 && 0 <= j < 10 && i != j
    ensures ParseLines(q, i, Block(j, p)) == q
  {
    BlockIgnorable(i, j, p);
    ParseIgnored(q, i, Block(j, p));
  }

  /** Only window i's block, if it was written, decides what window i reads back. */
  lemma SaveBlocksRoundTrip(p0: TermPrefs, i: int, terms: seq<SavedTerm>, start: nat, w: bool)
    requires 0 <= i < 10 && |terms| <= 10
    requires forall j :: 0 <= j < |terms| && terms[j].mapped == w ==> Savable(terms[j].prefs)
    ensures ParseLines(p0, i, SaveBlocks(terms, start, w))
         == if start <= i < |terms| && terms[i].mapped == w then terms[i].prefs else p0
  {
    if start <= i < |terms| {
      var pre := EarlierBlocks(i, terms, start, w);
      ParseLinesAppend(p0, i, pre, SaveBlocks(terms, i, w));
      ParseIgnored(p0, i, pre);
      OwnBlockDecides(p0, i, terms, w);
    } else {
      LaterBlocksIgnorable(i, terms, start, w);
      ParseIgnored(p0, i, SaveBlocks(terms, start, w));
    }
  }

  /** The blocks of windows start..i-1 come before window i's and are all ignorable for it. */
  lemma {:induction false} EarlierBlocks(i: int, terms: seq<SavedTerm>, start: nat, w: bool) returns (pre: seq<string>)
    requires start <= i < |terms| <= 10
    ensures SaveBlocks(terms, start, w) == pre + SaveBlocks(terms, i, w)
    ensures Ignorable(pre, i)
    decreases i - start
  {
    if start == i {
      pre := [];
      assert pre + SaveBlocks(terms, i, w) == SaveBlocks(terms, i, w);
    } else {
      var rest := EarlierBlocks(i, terms, start + 1, w);
      pre := PrependEarlierBlock(i, terms, start, w, rest);
    }
  }

  /** One more block before window i's: the ignorable prefix grows by that block. */
  lemma PrependEarlierBlock(i: int, terms: seq<SavedTerm>, start: nat, w: bool, rest: seq<string>) returns (pre: seq<string>)
    requires start < i < |terms| <= 10
    requires SaveBlocks(terms, start + 1, w) == rest + SaveBlocks(terms, i, w)
    requires Ignorable(rest, i)
    ensures SaveBlocks(terms, start, w) == pre + SaveBlocks(terms, i, w)
    ensures Ignorable(pre, i)
  {
    var head := if terms[start].mapped == w then Block(start, terms[start].prefs) else [];
    if terms[start].mapped == w {
      BlockIgnorable(i, start, terms[start].prefs);
    }
    IgnorableAppend(head, rest, i);
    pre := head + rest;
    assert SaveBlocks(terms, start, w) == head + SaveBlocks(terms, start + 1, w);
    AppendAssoc(head, rest, SaveBlocks(terms, i, w));
  }

  /** Concatenation of line sequences is associative. */
  lemma AppendAssoc(a: seq<string>, b: seq<string>, c: seq<string>)
    ensures a + (b + c) == (a + b) + c
  {
  }

  /** Window i's own block (when written) sets its settings, and the blocks after it leave them. */
  lemma OwnBlockDecides(p0: TermPrefs, i: int, terms: seq<SavedTerm>, w: bool)
    requires 0 <= i < |terms| <= 10 && i < 10
    requires terms[i].mapped == w ==> Savable(terms[i].prefs)
    ensures ParseLines(p0, i, SaveBlocks(terms, i, w)) == if terms[i].mapped == w then terms[i].prefs else p0
  {
    var head := if terms[i].mapped == w then Block(i, terms[i].prefs) else [];
    var tail := SaveBlocks(terms, i + 1, w);
    assert SaveBlocks(terms, i, w) == head + tail;
    ParseLinesAppend(p0, i, head, tail);
    var mid := ParseLines(p0, i, head);
    if terms[i].mapped == w {
      BlockRoundTrip(p0, i, terms[i].prefs);
    } else {
      assert head == [];
    }
    LaterBlocksIgnorable(i, terms, i + 1, w);
    ParseIgnored(mid, i, tail);
  }

  /** Blocks of windows other than i (those after i, or all of them when there is no window i) are ignorable for window i. */
  lemma {:induction false} LaterBlocksIgnorable(i: int, terms: seq<SavedTerm>, start: nat, w: bool)
    requires 0 <= i < 10 && |terms| <= 10 && (start > i || |terms| <= i)
    ensures Ignorable(SaveBlocks(terms, start, w), i)
    decreases |terms| - start
  {
    if start < |terms| {
      LaterBlocksIgnorable(i, terms, start + 1, w);
      PrependOtherBlock(i, terms, start, w);
    }
  }

  /** Putting another window's block (or nothing) in front keeps the blocks ignorable for window i. */
  lemma PrependOtherBlock(i: int, terms: seq<SavedTerm>, start: nat, w: bool)
    requires 0 <= i < 10 && start < |terms| <= 10 && start != i
    requires Ignorable(SaveBlocks(terms, start + 1, w), i)
    ensures Ignorable(SaveBlocks(terms, start, w), i)
  {
    var head := if terms[start].mapped == w then Block(start, terms[start].prefs) else [];
    if terms[start].mapped == w {
      BlockIgnorable(i, start, terms[start].prefs);
    }
    IgnorableAppend(head, SaveBlocks(terms, start + 1, w), i);
  }

  /** The heading save_prefs writes (comment, blanks, TERM_WINS) sets none of window i's settings. */
  lemma HeaderIgnored(p: TermPrefs, i: int, version: string, termWins: int)
    requires 0 <= i < 10
    ensures ParseLines(p, i, Header(version, termWins)) == p
  {
    var h := Header(version, termWins);
    assert NoCommand(h[2], i) by {
      assert h[2][0] == 'T' && h[2][1] == 'E';
      forall k: Key ensures !HasPrefix(h[2], Cmd(k, i)) {
        CmdNotTe(h[2], k, i);
      }
    }
    assert h[0][0] == '#' && h[1] == "" && h[3] == "";
    IgnorableLines(h, i);
    ParseIgnored(p, i, h);
  }

  /**
   * Reading back a heading followed by the blocks of the windows whose
   * mapped flag is w: window i gets its saved settings when its block was
   * written, otherwise the settings the reader started from.
   */
  lemma SavedLinesRoundTrip(p0: TermPrefs, i: int, version: string, termWins: int, terms: seq<SavedTerm>, w: bool)
    requires 0 <= i < 10 && |terms| <= 10
    requires forall j :: 0 <= j < |terms| && terms[j].mapped == w ==> Savable(terms[j].prefs)
    ensures ParseLines(p0, i, Header(version, termWins) + SaveBlocks(terms, 0, w))
         == if i < |terms| && terms[i].mapped == w then terms[i].prefs else p0
  {
    ParseLinesAppend(p0, i, Header(version, termWins), SaveBlocks(terms, 0, w));
    HeaderIgnored(p0, i, version, termWins);
    SaveBlocksRoundTrip(p0, i, terms, 0, w);
  }

  /**
   * Reading back the file save_prefs writes when all ANGBAND_TERM_MAX
   * windows exist: window i gets its saved settings when its block was
   * written (here: when the window was NOT mapped), otherwise the
   * settings the reader started from.
   */
  lemma SavePrefsRoundTrip(p0: TermPrefs, i: int, settings: string, canWrite: bool, version: string, termWins: int,
                           slots: seq<Option<SavedTerm>>)
    requires |slots| == TermMax && 0 <= i < TermMax && WriteOpens(settings, canWrite)
    requires forall j :: 0 <= j < |slots| ==> slots[j].Some?
    requires forall j :: 0 <= j < |slots| && !slots[j].value.mapped ==> Savable(slots[j].value.prefs)
    ensures var r := SavePrefs(settings, canWrite, version, termWins, slots);
      r.Saved? && ParseLines(p0, i, r.lines) == if !slots[i].value.mapped then slots[i].value.prefs else p0
  {
    SavedLinesRoundTrip(p0, i, version, termWins, TermsOf(slots, |slots|), false);
  }

  /**
   * As written, save_prefs never finishes when fewer than ANGBAND_TERM_MAX
   * windows were opened (init_x11 fills the slots 0 .. n - 1): it stops at
   * slot n, after the heading and the blocks of the windows before it.
   */
  lemma SavePrefsStopsAtFirstEmptySlot(settings: string, canWrite: bool, version: string, termWins: int,
                                       slots: seq<Option<SavedTerm>>, n: nat)
    requires |slots| == TermMax && 1 <= n < TermMax && WriteOpens(settings, canWrite)
    requires forall j :: 0 <= j < |slots| ==> (slots[j].Some? <==> j < n)
    ensures var r := SavePrefs(settings, canWrite, version, termWins, slots);
      r.Crashed? && r.at == n && r.written == Header(version, termWins) + SaveBlocks(TermsOf(slots, n), 0, false)
  {
    var m := FilledSlots(slots);
    assert slots[n].None?;
    assert m < |slots| && slots[m].None?;
  }

  /** As written, a mapped main window (when all windows exist) has its settings lost. */
  lemma MappedWindowNotSaved(p0: TermPrefs, settings: string, canWrite: bool, version: string, termWins: int,
                             slots: seq<Option<SavedTerm>>)
    requires |slots| == TermMax && WriteOpens(settings, canWrite)
    requires forall j :: 0 <= j < |slots| ==> slots[j].Some?
    requires slots[0].value.mapped
    requires forall j :: 0 <= j < |slots| && !slots[j].value.mapped ==> Savable(slots[j].value.prefs)
    ensures var r := SavePrefs(settings, canWrite, version, termWins, slots);
      r.Saved? && ParseLines(p0, 0, r.lines) == p0
  {
    SavePrefsRoundTrip(p0, 0, settings, canWrite, version, termWins, slots);
  }

  /**
   * The writer bounded by term_windows_open always completes its file:
   * every window reads back its own settings when it was saved, and
   * init_x11 reads back the number of windows.
   */
  lemma SavePrefsBoundedRoundTrip(p0: TermPrefs, i: int, settings: string, canWrite: bool, version: string,
                                  open: seq<SavedTerm>)
    requires 1 <= |open| <= TermMax && 0 <= i < TermMax && WriteOpens(settings, canWrite)
    requires forall j :: 0 <= j < |open| && !open[j].mapped ==> Savable(open[j].prefs)
    ensures var r := SavePrefsBounded(settings, canWrite, version, open);
      && r.Saved?
      && ParseLines(p0, i, r.lines) == (if i < |open| && !open[i].mapped then open[i].prefs else p0)
      && ParseTermWins(1, r.lines) == |open|
  {
    SavedLinesRoundTrip(p0, i, version, |open|, open, false);
    TermWinsAfterHeader(version, |open|, open, false);
  }

  /** The intended writer: every open window gets back exactly what it had, and the window count too. */
  lemma SavePrefsIntendedRoundTrip(p0: TermPrefs, i: int, settings: string, canWrite: bool, version: string,
                                   open: seq<SavedTerm>)
    requires 0 <= i < |open| <= TermMax && WriteOpens(settings, canWrite) && open[i].mapped
    requires forall j :: 0 <= j < |open| && open[j].mapped ==> Savable(open[j].prefs)
    ensures var r := SavePrefsIntended(settings, canWrite, version, open);
      r.Saved? && ParseLines(p0, i, r.lines) == open[i].prefs && ParseTermWins(1, r.lines) == |open|
  {
    SavedLinesRoundTrip(p0, i, version, |open|, open, true);
    TermWinsAfterHeader(version, |open|, open, true);
  }

  // TERM_WINS round trip

  /** Lines that do not start with TERM_WINS leave the window count alone. */
  lemma {:induction false} TermWinsIgnored(n: int, lines: seq<string>)
    requires forall k :: 0 <= k < |lines| ==> !HasPrefix(lines[k], "TERM_WINS")
    ensures ParseTermWins(n, lines) == n
    decreases |lines|
  {
    if |lines| > 0 {
      TermWinsIgnored(n, lines[1..]);
    }
  }

  /** The first two characters of a settings line are those of its key name. */
  lemma LineHead(k: Key, i: int, value: string)
    ensures Line(k, i, value)[0] == KeyName(k)[0] && Line(k, i, value)[1] == KeyName(k)[1]
  {
    var line, c, name := Line(k, i, value), Cmd(k, i), KeyName(k);
    assert line[0] == line[..|c|][0] && line[1] == line[..|c|][1];
    assert c[0] == c[..|name|][0] && c[1] == c[..|name|][1];
  }

  /** No key name starts with "TE", as "TERM_WINS" does. */
  lemma NameNotTe(k: Key)
    ensures KeyName(k)[0] != 'T' || KeyName(k)[1] != 'E'
  {
  }

  /** A line starting with "TE" starts with no window's command. */
  lemma CmdNotTe(t: string, k: Key, i: int)
    requires |t| >= 2 && t[0] == 'T' && t[1] == 'E'
    ensures !HasPrefix(t, Cmd(k, i))
  {
    var c, name := Cmd(k, i), KeyName(k);
    NameNotTe(k);
    assert c[0] == c[..|name|][0] && c[1] == c[..|name|][1];
    assert |c| <= |t| ==> t[..|c|][0] == t[0] && t[..|c|][1] == t[1];
  }

  /** No line of a window block starts with TERM_WINS. */
  lemma LineNotTermWins(k: Key, i: int, value: string)
    ensures !HasPrefix(Line(k, i, value), "TERM_WINS")
  {
    var line := Line(k, i, value);
    LineHead(k, i, value);
    NameNotTe(k);
    if |line| >= 9 {
      var t := "TERM_WINS";
      assert t[0] == 'T' && t[1] == 'E';
      assert line[..9][0] == line[0] && line[..9][1] == line[1];
    }
  }

  /** No line of a whole window block starts with TERM_WINS. */
  lemma BlockHasNoTermWins(i: int, p: TermPrefs)
    ensures forall k :: 0 <= k < 11 ==> !HasPrefix(Block(i, p)[k], "TERM_WINS")
  {
    var b := Block(i, p);
    assert b[0][0] == '#';
    if |b[0]| >= 9 {
      assert b[0][..9][0] == b[0][0];
    }
    forall k | 0 <= k < 11 ensures !HasPrefix(b[k], "TERM_WINS") {
      if 1 <= k <= 9 {
        LineNotTermWins(Keys[k - 1], i, KeyValue(p, Keys[k - 1]));
      }
    }
  }

  /** The window blocks save_prefs writes hold no TERM_WINS line. */
  lemma {:induction false} SaveBlocksHaveNoTermWins(terms: seq<SavedTerm>, start: nat, w: bool)
    ensures forall k :: 0 <= k < |SaveBlocks(terms, start, w)| ==> !HasPrefix(SaveBlocks(terms, start, w)[k], "TERM_WINS")
    decreases |terms| - start
  {
    if start < |terms| {
      SaveBlocksHaveNoTermWins(terms, start + 1, w);
      BlockHasNoTermWins(start, terms[start].prefs);
    }
  }

  /** Scanning a + b for TERM_WINS is scanning a, then b. */
  lemma {:induction false} ParseTermWinsAppend(n: int, a: seq<string>, b: seq<string>)
    ensures ParseTermWins(n, a + b) == ParseTermWins(ParseTermWins(n, a), b)
    decreases |a|
  {
    if |a| > 0 {
      assert (a + b)[0] == a[0];
      assert (a + b)[1..] == a[1..] + b;
      ParseTermWinsAppend(ApplyTermWinsLine(n, a[0]), a[1..], b);
    } else {
      assert a + b == b;
    }
  }

  /** The line `TERM_WINS=%d` save_prefs writes raises the count to its value when that is positive. */
  lemma TermWinsLineSets(n: int, v: int)
    ensures ApplyTermWinsLine(n, "TERM_WINS=" + Itoa(v)) == if v > 0 then v else n
  {
    var line := "TERM_WINS=" + Itoa(v);
    assert "TERM_WINS" + "=" + Itoa(v) == line;
    assert HasPrefix(line, "TERM_WINS") && !Skipped(line) by {
      assert line[..9] == "TERM_WINS";
    }
    FindAfterName("TERM_WINS", Itoa(v));
    AtoiItoa(v);
  }

  /** The heading's TERM_WINS line sets the count when it is positive; its other lines are ignored. */
  lemma HeaderSetsTermWins(version: string, termWins: int)
    ensures ParseTermWins(1, Header(version, termWins)) == if termWins > 0 then termWins else 1
  {
    var h := Header(version, termWins);
    var n3 := if termWins > 0 then termWins else 1;
    assert ApplyTermWinsLine(1, h[0]) == 1 by {
      assert h[0][0] == '#';
    }
    TermWinsLineSets(1, termWins);
    assert h[1] == "" && h[3] == "";
    assert h[1..][1..] == h[2..] && h[2..][1..] == h[3..] && h[3..][1..] == [];
    calc {
      ParseTermWins(1, h);
      ParseTermWins(1, h[1..]);
      ParseTermWins(1, h[2..]);
      ParseTermWins(n3, h[3..]);
      ParseTermWins(n3, []);
    }
  }

  /**
   * init_x11 reads back the window count save_prefs wrote (when it is
   * positive), whichever windows it saved, and also from the lines written
   * before an empty slot stopped it.
   */
  lemma TermWinsRoundTrip(settings: string, canWrite: bool, version: string, termWins: int, slots: seq<Option<SavedTerm>>)
    requires |slots| == TermMax
    ensures var r := SavePrefs(settings, canWrite, version, termWins, slots);
      (r.Saved? ==> ParseTermWins(1, r.lines) == if termWins > 0 then termWins else 1) &&
      (r.Crashed? ==> ParseTermWins(1, r.written) == if termWins > 0 then termWins else 1)
  {
    var r := SavePrefs(settings, canWrite, version, termWins, slots);
    if r.Saved? {
      TermWinsAfterHeader(version, termWins, TermsOf(slots, |slots|), false);
    } else if r.Crashed? {
      TermWinsAfterHeader(version, termWins, TermsOf(slots, r.at), false);
    }
  }

  /** The heading followed by any selection of window blocks yields the heading's count. */
  lemma TermWinsAfterHeader(version: string, termWins: int, terms: seq<SavedTerm>, w: bool)
    ensures ParseTermWins(1, Header(version, termWins) + SaveBlocks(terms, 0, w)) == if termWins > 0 then termWins else 1
  {
    var h := Header(version, termWins);
    var rest := SaveBlocks(terms, 0, w);
    ParseTermWinsAppend(1, h, rest);
    HeaderSetsTermWins(version, termWins);
    SaveBlocksHaveNoTermWins(terms, 0, w);
    TermWinsIgnored(ParseTermWins(1, h), rest);
  }
}
