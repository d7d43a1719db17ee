# Angband's X11 front end, modelled in Dafny

This project models the logic of the X11 port of Angband below its Xlib and libpng calls:

- **Quark table.** The game's string interning table (`src/z-quark.c`): a growable array of (string, hash) slots. Slot 0 is reserved, each string is stored once, and the storage doubles when full.
- **Start-up (`src/main-x11.c`).**
  - The command line (`-d`, `-n`, `-x`).
  - The `TERM_WINS` window count.
  - The per-window settings file `x11-settings.prf`: the parser in `term_data_init`, the environment overrides after it and the writer `save_prefs`.
  - The default-font chain.
  - The 80x24 minimum of the main window, and the window size and window-manager hints derived from the font.
  - The colour table: its initial pixels and its re-sync in `Term_xtra_x11_react`.
- **Term hooks (`src/x11-term.c`).**
  - The keysym table `map_keysym` and the keypress handler.
  - The event handler `check_event`: which window an event is for, mouse buttons, exposures, and moves and resizes.
  - Graphical tiles (`x11_term_pict`), the `TERM_XTRA_*` dispatch and the hook installer.
- **Helpers (`src/x11-util.c`).**
  - The window, font, colour and display records.
  - The pixel/cell arithmetic and the text, wipe and cursor rectangles.
  - The `zg` pixel bound and the XOR GC rule.
  - The tile bounds check and the idle counter of the event poll.
- **Pixel encoder (`src/x11-png.c`).**
  - The highest-set-bit routine and the channel shifts.
  - The scaling of the bKGD background colour. This follows section 11.3.5.1 (bKGD) and section 13.12 (sample depth rescaling) of the W3C PNG specification, second edition.
  - The loops that pack RGB/RGBA rows into MSB-first 16- or 32-bit XImage buffers.

Xlib, libpng, the game's terminal layer, the clock and the file system are not called. What the code would pass to them is returned instead, and what they answer is taken as a parameter.

Modules:

- `CInt` (`cint.dfy`): `Option`, C's truncating division, and the `s16b`/`u32b` wrap-around.
- `CStr` (`cstr.dfy`): `isspace`, `prefix`, `strstr(s, "=")`, `atoi` and `%d`.
- `Quark` (`quark.dfy`).
- `Prefs` (`prefs.dfy`): the settings file.
- `MainX11` (`main_x11.dfy`).
- `X11Keys` (`keys.dfy`): keysyms.
- `X11Util` (`x11_util.dfy`).
- `X11Term` (`x11_term.dfy`).
- `X11Png` (`x11_png.dfy`).

Some code the model depends on lives in the game's headers, which are not part of this model. The model takes these values:

- `ANGBAND_TERM_MAX` is taken as 8.
- `MAX_COLORS` and `COLOUR_SHADE` are parameters.
- The X keysym values come from the X11 standard's `keysymdef.h`.
- `KC_*` key codes are a datatype. `KC_MOD_*` modifiers are a set.

Where the source's comments or its evident intent and the code disagree, the model follows the code:

- `save_prefs` skips the windows whose `mapped_flag` is set. `Prefs.SavePrefs` models that, and "Findings" has the consequence.
- `save_prefs` visits all ANGBAND_TERM_MAX slots of `angband_term`, although `init_x11` fills only the first `num_term`. `Prefs.SavePrefs` ends at the first empty slot with the lines written so far ("Findings").
- Under `-n` the `settings` buffer stays empty, so `save_prefs` opens no file and writes nothing (`MainX11.NoSaveUnderN`).
- A `TERM_WINS` line is not clamped the way `-n` is.
- When `-n` is given, the settings path is never built, and `term_data_init` then reads no file at all (`MainX11.SettingsFile`).
- `-x` sets `x11_prefs`, which nothing reads: the settings path is always built from the fixed name `x11-settings.prf`.
- The "unknown window" test of `check_event` can never fire. After a scan that finds nothing, `window` is 0 and `td` is the last term's data (`X11Term.Scan`). A click is then converted with term 0's data, the term `Term_activate` made current, while an exposure or a resize uses the last term's.
- `x11_color_change_fg` changes only the GC's foreground, not the record's `fg` field.
- `create_pixel` quits on a failed allocation. Both colour loops model that as `quit`.

## Model

| member | source | states |
|---|---|---|
| CInt.Div | src/x11-util.c:108-112 | C's `/` for a positive divisor: the quotient truncated toward zero, bracketed by multiples of the divisor on each side of zero |
| CInt.S16 | src/x11-term.c:512-515 | storing an `int` into an `s16b` field gives the value congruent modulo 2^16 in -32768..32767; values already in range are kept |
| CInt.U32 | src/x11-util.c:1005-1006 | conversion to a 32-bit unsigned type: the value modulo 2^32; values already in range are kept |
| CStr.FindChar | src/main-x11.c:892 | `strstr(buf, "=")`: the index of the first '=' with none before it, or None exactly when the line has none |
| CStr.SkipSpaces | src/main-x11.c:893 | atoi's skipping of leading white space: a suffix of the input, everything dropped is white space, and what remains does not start with it |
| CStr.DigitRun | src/main-x11.c:893 | atoi's digits: the longest leading run of decimal digits |
| CStr.Atoi | src/main-x11.c:893 | atoi: 0 when no sign or digit follows the white space, and negative only after a '-' |
| CStr.Itoa | src/main-x11.c:775-799 | `%d`: one or more digits, after a '-' for a negative number |
| CStr.AtoiItoa | src/main-x11.c:775-799 | atoi reads back exactly the number that `%d` wrote, negative numbers included |
| Quark.QuarkTable.constructor | src/z-quark.c:30-32 | the static initial state: count 1, nothing allocated |
| Quark.QuarkTable.Init | src/z-quark.c:65-69 | quarks_init: 16 zeroed slots, count 1, no strings |
| Quark.QuarkTable.Str | src/z-quark.c:60-63 | quark_str: NULL for id 0 and for ids at or past the count, otherwise the string with that id |
| Quark.QuarkTable.Find | src/z-quark.c:38-46 | the scan from id 1 finds the id of s exactly when s is stored |
| Quark.QuarkTable.Grow | src/z-quark.c:48-51 | a full table doubles its capacity, keeping every used slot and the table invariant |
| Quark.QuarkTable.Add | src/z-quark.c:36-58 | quark_add: an id >= 1 whose string is s. A stored string returns its own id and leaves the table unchanged. A new string gets the old count as id, the count grows by one and the capacity doubles exactly when it was full. Existing slots never change and strings stay distinct |
| Quark.QuarkTable.Free | src/z-quark.c:71-80 | quarks_free frees every stored string once, in id order, and never slot 0 |
| Quark.InternTwice | src/z-quark.c:36-69 | after quarks_init, adding a string twice yields id 1 both times, and a second distinct string gets id 2 |
| Prefs.KeyName | src/main-x11.c:889-993 | the nine command names end in '_' and hold no '=' |
| Prefs.Cmd | src/main-x11.c:889 | `strnfmt(cmd, "KEY_%d", i)`: the key name followed by the window's digit, for windows 0..9 |
| Prefs.Initial | src/main-x11.c:828-835 | term_data_init's starting values: position 0,0, 80x24 cells, border 1, the default font, tile size 0 |
| Prefs.ValueAfterEq | src/main-x11.c:892-893 | `atoi(str + 1)` after the first '=', or -1 when there is none |
| Prefs.Truncate | src/main-x11.c:971 | my_strcpy into the 256-byte font buffer: a name of at most 255 characters is kept whole, a longer one is cut to exactly its first 255 |
| Prefs.KeyIndex | src/main-x11.c:888-1004 | each setting's place in the order of the tests |
| Prefs.Assign | src/main-x11.c:888-1004 | one branch of the parser: AT_X/AT_Y take the value (-1 without '='). COLS, ROWS, IBOX, IBOY and TILE_* take it only when positive. FONT takes the text after '=', cut to 255 characters, and is unchanged without '=' |
| Prefs.ApplyKeys | src/main-x11.c:888-1004 | the chain of prefix tests: a line matching none of window i's commands changes nothing, and sizes are only replaced by positive values |
| Prefs.Skipped | src/main-x11.c:876-886 | the lines both parsers skip: empty, starting with white space, or starting with '#' |
| Prefs.ApplyLine | src/main-x11.c:874-886 | empty lines, lines starting with white space and '#' comments are skipped |
| Prefs.ParseLines | src/main-x11.c:869-1005 | reading a whole file keeps the six sizes either unchanged or positive |
| Prefs.ReadTermPrefs | src/main-x11.c:865-1008 | the `while (file_getl(...))` loop computes the fold of the lines in order |
| Prefs.EnvName | src/main-x11.c:1016 | the variable names are ANGBAND_X11_ followed by the command |
| Prefs.EnvInt | src/main-x11.c:1016-1018 | `getenv` then `atoi`, -1 when the variable is unset |
| Prefs.Override | src/main-x11.c:1016-1022 | a positive environment value replaces the setting, any other leaves it |
| Prefs.ApplyEnv | src/main-x11.c:1011-1075 | position, cols, rows and borders are overridden only by positive values. The font is overridden whenever the variable exists. The tile size has no variable |
| Prefs.ApplyTermWinsLine | src/main-x11.c:1337-1363 | a TERM_WINS line with a positive value sets the count; every other line leaves it |
| Prefs.ParseTermWins | src/main-x11.c:1333-1364 | the count after the scan is the starting count or some positive value |
| Prefs.ReadTermWins | src/main-x11.c:1321-1369 | init_x11's read loop starts at 1, computes the fold over the lines, and never goes below 1 |
| Prefs.KeyValue | src/main-x11.c:775-799 | the text after `key_i=`: the font name for FONT, otherwise the `%d` text of the number, which holds no '=' |
| Prefs.Line | src/main-x11.c:775-799 | a written line is the command, '=', then the value |
| Prefs.Block | src/main-x11.c:761-802 | a window's block: the "# Term i" heading, the nine settings in the parser's order, a blank line |
| Prefs.SaveBlocks | src/main-x11.c:752-803 | the blocks of the selected windows, in window order |
| Prefs.Header | src/main-x11.c:745-749 | the version comment, a blank line, `TERM_WINS=n`, a blank line |
| Prefs.FilledSlots | src/main-x11.c:1462-1466 | the number of leading slots of angband_term that hold a term: all before it are filled, the one at it is empty |
| Prefs.TermsOf | src/main-x11.c:752-757 | the terms `angband_term[i]->data` yields for the first n slots, in slot order |
| Prefs.SavePrefs | src/main-x11.c:736-807 | save_prefs as written: no file exactly when file_open fails (always for the empty path left under -n). With all ANGBAND_TERM_MAX slots filled, the heading and then the blocks of the windows whose mapped flag is NOT set. Otherwise it stops at the first empty slot, after the heading and the blocks of the windows before it |
| Prefs.SavePrefsBounded | src/main-x11.c:1243 | the corrected loop, bounded by term_windows_open like hook_quit's: never stops early, and writes the heading with the number of windows, then the blocks of the unmapped ones |
| Prefs.SavePrefsIntended | src/main-x11.c:752-759 | the writer with both corrections: bounded by term_windows_open, saving the mapped windows |
| Prefs.ParseLinesAppend | src/main-x11.c:869-1005 | reading a + b is reading a, then b |
| Prefs.ParseIgnored | src/main-x11.c:874-1004 | lines that are skipped or carry none of window i's commands leave its settings alone |
| Prefs.IgnorableLines | src/main-x11.c:874-1004 | lines that are each skipped or free of window i's commands form an ignorable run |
| Prefs.IgnorableAppend | src/main-x11.c:874-1004 | ignorable runs stay ignorable when concatenated |
| Prefs.NamesDisagree | src/main-x11.c:889-993 | two different command names differ at an index within both |
| Prefs.CommandsUnambiguous | src/main-x11.c:889-993 | for windows 0..9, a written line starts with window i's command for k only when it was written for that same window and setting |
| Prefs.FindAfterName | src/main-x11.c:892-893 | in `name=value` with no '=' in the name, strstr finds the '=' right after the name and atoi reads the value |
| Prefs.LineOfOtherWindow | src/main-x11.c:775-799 | a line written for window j is not skipped and holds no command of another window i |
| Prefs.OwnLineStarts | src/main-x11.c:775-799 | a line written for window i starts with its own command |
| Prefs.OwnLineOnlyOwn | src/main-x11.c:889-993 | a line written for setting k of window i starts with no other setting's command of window i, so the chain cannot take an earlier branch |
| Prefs.ApplyKeysOnly | src/main-x11.c:888-1004 | when only setting k's command matches, the chain takes k's branch |
| Prefs.ApplyOwnLine | src/main-x11.c:888-1004 | a written line reaches its own branch, and the value after '=' is atoi of the written text |
| Prefs.CopyField | src/main-x11.c:888-1004 | reading back one setting's line copies that field and keeps every field that already agreed |
| Prefs.ApplyWrittenLine | src/main-x11.c:775-799 | for positive sizes and a font of at most 255 characters, re-reading a written line copies exactly that setting |
| Prefs.BlockRoundTrip | src/main-x11.c:761-802 | re-reading window i's own block restores exactly the saved settings, whatever the reader started from |
| Prefs.BlockIgnorable | src/main-x11.c:761-802 | the block of another window is an ignorable run for window i |
| Prefs.OtherBlockIgnored | src/main-x11.c:761-802 | another window's block leaves window i's settings alone |
| Prefs.SaveBlocksRoundTrip | src/main-x11.c:752-803 | after all the blocks, window i has its own saved settings when its block was written, otherwise the settings it started with |
| Prefs.EarlierBlocks | src/main-x11.c:752-803 | the blocks before window i's form an ignorable prefix of the output |
| Prefs.PrependEarlierBlock | src/main-x11.c:752-803 | one more block before window i's keeps that prefix ignorable |
| Prefs.OwnBlockDecides | src/main-x11.c:752-803 | window i's block, if written, sets its settings, and the blocks after it leave them |
| Prefs.LaterBlocksIgnorable | src/main-x11.c:752-803 | the blocks of windows after i are ignorable for window i |
| Prefs.PrependOtherBlock | src/main-x11.c:752-803 | putting another window's block in front keeps the rest ignorable |
| Prefs.HeaderIgnored | src/main-x11.c:745-749 | the heading sets none of window i's settings |
| Prefs.SavedLinesRoundTrip | src/main-x11.c:745-803 | reading back a heading and the blocks of the windows with mapped flag w gives window i its saved settings when its block was written, otherwise the starting settings |
| Prefs.SavePrefsRoundTrip | src/main-x11.c:736-807 | with all ANGBAND_TERM_MAX windows present and the file open, save_prefs completes, and reading its file back gives window i its saved settings when it was not mapped, otherwise the starting settings |
| Prefs.SavePrefsStopsAtFirstEmptySlot | src/main-x11.c:752-757 | as written, with n < ANGBAND_TERM_MAX windows opened, save_prefs stops at slot n, after the heading and the blocks of windows 0..n-1 |
| Prefs.MappedWindowNotSaved | src/main-x11.c:757-759 | as written, with all windows present and the main window mapped, the file reads back the main window's starting settings: what it had is lost |
| Prefs.SavePrefsBoundedRoundTrip | src/main-x11.c:736-807 | the bounded writer always completes its file. Each unmapped window reads back its settings, every other window its starting settings, and init_x11 reads back the number of windows |
| Prefs.SavePrefsIntendedRoundTrip | src/main-x11.c:736-807 | with both corrections, every mapped window reads back exactly what it had, and the number of windows comes back too |
| Prefs.TermWinsIgnored | src/main-x11.c:1337-1363 | lines not starting with TERM_WINS leave the count alone |
| Prefs.LineHead | src/main-x11.c:775-799 | a written line starts with its key name's first two characters |
| Prefs.NameNotTe | src/main-x11.c:889-993 | no command name starts with "TE" |
| Prefs.CmdNotTe | src/main-x11.c:889-993 | a line starting with "TE" matches no window command |
| Prefs.LineNotTermWins | src/main-x11.c:775-799 | no setting line starts with TERM_WINS |
| Prefs.BlockHasNoTermWins | src/main-x11.c:761-802 | no line of a window block starts with TERM_WINS |
| Prefs.SaveBlocksHaveNoTermWins | src/main-x11.c:752-803 | no line of the window blocks starts with TERM_WINS |
| Prefs.ParseTermWinsAppend | src/main-x11.c:1333-1364 | scanning a + b for TERM_WINS is scanning a, then b |
| Prefs.TermWinsLineSets | src/main-x11.c:748-749 | re-reading the written `TERM_WINS=%d` line sets the count to the value when it is positive |
| Prefs.HeaderSetsTermWins | src/main-x11.c:745-749 | the heading alone yields the written count when it is positive, otherwise 1 |
| Prefs.TermWinsRoundTrip | src/main-x11.c:1321-1369 | init_x11 reads back the count save_prefs wrote (when it is positive), from a complete file and from the lines written before an empty slot stopped it |
| Prefs.TermWinsAfterHeader | src/main-x11.c:736-807 | the heading followed by any selection of window blocks yields the heading's count |
| MainX11.BuiltinFont | src/main-x11.c:118-126 | the built-in fonts: 10x20 for term 0, 9x15 for terms 1 and 2, 5x8 for terms 3..7, 9x15 for any other |
| MainX11.GetDefaultFont | src/main-x11.c:222-265 | ANGBAND_X11_FONT_i when set, else ANGBAND_X11_FONT when set, else the built-in font |
| MainX11.ApplyArg | src/main-x11.c:1294-1318 | `-d` sets the display name. `-n` sets a count clamped into 1..ANGBAND_TERM_MAX. Other arguments leave the count alone |
| MainX11.ArgsTermCount | src/main-x11.c:1294-1318 | after all the arguments the count is -1 exactly when no `-n` was given, and otherwise lies in 1..ANGBAND_TERM_MAX |
| MainX11.ApplyArgs | src/main-x11.c:1294-1318 | the arguments in order: without a `-n` argument the count is kept, otherwise it lies in 1..ANGBAND_TERM_MAX |
| MainX11.ParseArgs | src/main-x11.c:1293-1318 | the argument loop from argv[1] computes that fold and keeps the count in range |
| MainX11.TermCount | src/main-x11.c:1321-1369 | the number of windows: the -n value, otherwise 1 raised by any positive TERM_WINS line |
| MainX11.TermCountOverflows | src/main-x11.c:1353-1358 | a settings file holding `TERM_WINS=9` makes the count 9, beyond ANGBAND_TERM_MAX |
| MainX11.OneLineTermWins | src/main-x11.c:1333-1364 | scanning a one-line file applies that line |
| MainX11.TermCountClamped | src/main-x11.c:1302-1307 | the corrected count, clamped like -n: in 1..ANGBAND_TERM_MAX, and the unclamped count when that is in range |
| MainX11.TermCountClampedInRange | src/main-x11.c:1302-1307 | with TERM_WINS clamped like -n, every window the init loop opens is in the array, and an explicit -n is unchanged |
| MainX11.SettingsFile | src/main-x11.c:1321-1331 | the settings path is built only without -n, so with -n term_data_init finds no file |
| MainX11.SettingsPath | src/main-x11.c:165 | the `settings` buffer: the built path without -n, the zeroed (empty) buffer with -n |
| MainX11.NoSaveUnderN | src/main-x11.c:741-743 | under -n save_prefs opens no file and writes nothing, whatever the windows |
| MainX11.TermSettings | src/main-x11.c:828-1086 | the settings term_data_init ends with; term 0 has at least 80 columns and 24 rows |
| MainX11.TermSettingsBounds | src/main-x11.c:828-1086 | a term's cols, rows and borders are always positive and its tile size never negative; term 0 has at least 80 columns and 24 rows |
| MainX11.TermFontFromEnvironment | src/main-x11.c:1070-1075 | ANGBAND_X11_FONT_i wins over FONT_i lines of the file |
| MainX11.TermSettingsEnvironmentWins | src/main-x11.c:1011-1075 | without a file the settings are the environment applied to the defaults, and a positive ANGBAND_X11_COLS_i value is the final cols |
| MainX11.TermSettingsDefaults | src/main-x11.c:828-835 | with no file and no environment a term is 80x24 at (0, 0) with border 1 and its built-in font |
| MainX11.ToLower | src/main-x11.c:1140 | tolower in the "C" locale |
| MainX11.ResName | src/main-x11.c:1139-1140 | the class hint's resource name: the term's name cut to 19 characters, first letter in lower case |
| MainX11.Setup | src/main-x11.c:1096-1197 | the tile size, key queue size and window size. The size hints: position flag, resize steps by whole tiles, base size. The class "Angband" and the move flag |
| MainX11.SetupWithinHints | src/main-x11.c:1159-1184 | the window opened lies within its own size hints: at least the minimum, and at most the maximum exactly when it has at most 255 columns (rows) |
| MainX11.MulLeIff | src/main-x11.c:1159-1175 | scaling by a positive tile size preserves and reflects the order of cell counts |
| MainX11.ReadSettings | src/main-x11.c:862-1086 | the default font, the file, the environment, then the 80x24 minimum, in that order |
| MainX11.TermDataInit | src/main-x11.c:822-1197 | term_data_init quits exactly when the chosen font fails to load; otherwise the window is the one derived from the settings and the font's cell size |
| MainX11.ScaleChannel | src/main-x11.c:203-205 | `c * 257`: an 8-bit channel widened to 16 bits by repeating the byte, 0 to 0 and 255 to 65535 |
| MainX11.ScaleChannelMonotone | src/main-x11.c:203-205 | widening keeps distinct channel values distinct and ordered |
| MainX11.CreatePixel | src/main-x11.c:175-216 | create_pixel asks XAllocColor for the widened channels. It fails exactly when the allocation fails, and otherwise returns the allocated pixel cut to its low 32 bits by the u32b return type |
| MainX11.PixelOr0 | src/main-x11.c:208-216 | the pixel XAllocColor returns for a colour when it succeeds |
| MainX11.Differing | src/main-x11.c:620-626 | the indices at which the two colour tables differ, below the bound |
| MainX11.DifferingExact | src/main-x11.c:620-626 | Differing lists exactly the differing indices, each once, in increasing order |
| MainX11.ColorTable.constructor | src/main-x11.c:159 | the zeroed static table |
| MainX11.ColorTable.React | src/main-x11.c:616-649 | Term_xtra_x11_react: on a monochrome display nothing changes. On a colour display the table becomes the game's, and exactly the differing entries get a new pixel, in index order. A failed allocation quits at a differing entry |
| MainX11.Variant | src/main-x11.c:1413 | the index's background variant i / MAX_COLORS and colour i % MAX_COLORS for the three thirds |
| MainX11.MonoInit | src/main-x11.c:1399-1457 | monochrome: white on black, and black on black for colour 0 |
| MainX11.ColorInitOf | src/main-x11.c:1413-1453 | on a colour display colour i is drawn on black, on itself or on COLOUR_SHADE, by its background variant |
| MainX11.ColorPair | src/main-x11.c:1405-1453 | the pixels of index i: quits exactly when its colour, or for the dark variant COLOUR_SHADE, cannot be allocated; otherwise the pair above |
| MainX11.ExpectedInit | src/main-x11.c:1399-1457 | the pair clr[i] is meant to get: on black when monochrome; on a colour display the colour i mod MAX_COLORS, on black for the first third |
| MainX11.InitColors | src/main-x11.c:1384-1459 | the colour loop: the table becomes the game's and every index gets its monochrome or colour pair. A failed allocation quits, and only on a colour display |
| X11Keys.IsKeypadKey | src/x11-term.c:109-275 | XK_KP_Space through XK_KP_Equal, the keysyms that add KC_MOD_KEYPAD |
| X11Keys.IsSpecialKey | src/x11-util.h:244 | keysyms at or above 0xff00 |
| X11Keys.IsModifierKey | src/x11-term.c:380-382 | the pure modifier keysyms, which produce no keypress |
| X11Keys.MapKeysym | src/x11-term.c:23-354 | only special, non-modifier keysyms map to a key. KC_MOD_KEYPAD is added exactly for the mapped keypad keysyms, and no modifier is removed. Only keypad keysyms map to characters |
| X11Keys.KeypadDigits | src/x11-term.c:108-168 | XK_KP_0..XK_KP_9 give '0'..'9' with KC_MOD_KEYPAD |
| X11Keys.FunctionKeys | src/x11-term.c:277-350 | XK_F1..XK_F15 give KC_F1..KC_F15 |
| X11Keys.Latin1Unmapped | src/x11-term.c:23-354 | keysyms below 0xff00 are not in the table and keep the modifiers |
| X11Keys.MapKeysymIgnoresMods | src/x11-term.c:23-354 | whether and to what a keysym maps does not depend on the modifiers passed in |
| X11Keys.ByteCode | src/x11-term.c:400 | `keycode_t code = buf[0]`: ASCII bytes as themselves, high bytes sign-extended to 32 bits |
| X11Keys.ReactKeypress | src/x11-term.c:359-412 | a lone modifier key yields nothing. Alt and Meta follow the display masks. A mapped key is sent with its code, plus Control and Shift whenever held. Otherwise the first byte is sent exactly when there was text and the keysym is not special, with Control/Shift only where MODS_INCLUDE_* allows |
| X11Term.FirstWith | src/x11-term.c:439-451 | the first term from index i whose window has the handle, or none when no later term has it |
| X11Term.Scan | src/x11-term.c:439-457 | check_event's scan: the first term with the event's window as both `window` and `td`. With none, `window` is 0 and `td` the last term, so the unknown-window test cannot fire |
| X11Term.ScanWindows | src/x11-term.c:439-451 | the scan loop computes Scan |
| X11Term.Geometries | src/x11-term.c:439-532 | what check_event reads of each term: window handle, inner border, tile size |
| X11Term.ButtonCode | src/x11-term.c:462-468 | Button1..Button5 are passed through, any other button as 0 |
| X11Term.ExposeSection | src/x11-term.c:488-499 | the cell range of an exposure, x11_pixel_to_square's truncating division on each corner; non-empty for a non-negative size |
| X11Term.ExposeCoversRectangle | src/x11-term.c:487-498 | every exposed pixel lies in a cell of the redrawn section |
| X11Term.FitCells | src/x11-term.c:515-532 | cells = (pixels - 2 border) / tile, raised to at least 1 and to the minimum |
| X11Term.FitCellsOfWholeCells | src/x11-term.c:515-523 | a size of whole cells plus the borders reads back as exactly that many cells |
| X11Term.ConfigureGrid | src/x11-term.c:503-555 | cols and rows at least 1 (80x24 for window 0). A resize is asked for only by window 0, exactly when the raise changed a value, to the size of the raised grid |
| X11Term.ResizeSettles | src/x11-term.c:534-550 | when the requested resize is granted, the next ConfigureNotify gives the same grid and asks for nothing |
| X11Term.SubwindowKeepsItsSize | src/x11-term.c:515-523 | a window other than the main one keeps any grid of at least one cell |
| X11Term.Configure | src/x11-term.c:503-555 | the window's position and size are stored in its 16-bit fields, the borders are kept, and the grid is computed from the stored size |
| X11Term.EventAction | src/x11-term.c:425-564 | what check_event makes of a taken event: a keymap refresh, react_keypress for a key. A click is a mouse press on the cell of term `window` with the clamped button. An exposure redraws the cells of the scan's `td`, a configure gives that term the grid of its 16-bit size (80x24 for window 0), with any resize request going to that `td`'s window. Each is for term `window` |
| X11Term.ClickLandsOnItsCell | src/x11-term.c:457-474 | a click inside cell (cx, cy) of a known window is reported on that cell of that window's term |
| X11Term.MainConfigureSettles | src/x11-term.c:505-555 | when the main window is given the size check_event asked for, the next ConfigureNotify keeps its grid and asks for nothing |
| X11Term.CheckEvent | src/x11-term.c:417-564 | 1, with nothing done, exactly when not waiting and nothing is pending. Otherwise the action EventAction gives. A configure stores S16 of the new position and size in the scan's term's window and touches no other window; other events change nothing. The terms' geometry is unchanged |
| X11Term.ClickIsPixelToSquare | src/x11-term.c:471-473 | the click's cell is x11_pixel_to_square on the data of term `window` (`Term->data` after Term_activate) |
| X11Term.FlushEvents | src/x11-term.c:748-755 | TERM_XTRA_FLUSH handles every pending event once, in order, the k-th giving EventAction of the k-th event over the unchanged geometry |
| X11Term.TileSource | src/x11-term.c:693-701 | the tile sheet cell: column from the char's low 7 bits, row from the attr's |
| X11Term.TileDrawAt | src/x11-term.c:703-710 | one x11_draw_tile call: source cell, destination, size and the bounds check's answer |
| X11Term.DrawPictRow | src/x11-term.c:692-711 | the loop draws elements n-1 down to 0, the destination moving one tile left per element |
| X11Term.TermPict | src/x11-term.c:669-716 | x11_term_pict as written: element i is drawn at column x - (n - 1 - i), row y, with no border offset |
| X11Term.TermPictFirstElementMisplaced | src/x11-term.c:688-692 | in a row of two or more, element 0 is not drawn at column x |
| X11Term.TermPictIntended | src/x11-term.c:669-716 | the corrected drawing: element i at column x + i, each tile checked against the window's size |
| X11Term.Xtra | src/x11-term.c:721-784 | the dispatch: unhandled requests return 1. A delay sleeps 1000 v microseconds only for positive v. BORED polls without waiting, EVENT waits when v != 0, LEVEL does nothing |
| X11Term.XtraReact | src/x11-term.c:583-620 | a tileset that fails to load turns graphics off. One that loads becomes use_graphics and gives term 0 its tile size. Without graphics nothing changes |
| X11Term.InstallHooks | src/x11-term.c:796-810 | text hooks always. The tile hook and higher_pict exactly when graphics were asked for |
| X11Util.Window.constructor | src/x11-util.c:404-436 | x11_window_init: the handle and the reported geometry, wrapped to 16 bits, border offsets 0 |
| X11Util.Window.SetBorder | src/x11-util.c:456-462 | x11_window_set_border sets the two offsets and nothing else |
| X11Util.Font.Prepare | src/x11-util.c:688-711 | the ascent is the loop's maximum; height and width are the 16-bit logical extents |
| X11Util.MaxAscent | src/x11-util.c:698-704 | the ascent loop's result is an `s16b` and either non-negative or one of the ascents |
| X11Util.MaxAscentIsMax | src/x11-util.c:698-704 | when every ascent fits in 16 bits the loop computes the true maximum (0 for an empty set) |
| X11Util.TermData.constructor | src/main-x11.c:1096-1106 | a term's record with both tile widths equal |
| X11Util.PixelToCell | src/x11-util.c:108-112 | one axis of x11_pixel_to_square: from the border on, the cell whose span holds the pixel; before the border, at most 0 |
| X11Util.PixelToSquare | src/x11-util.c:108-112 | the cell under a pixel: inside the grid, the cell whose span contains it; left of or above the border, at most 0 |
| X11Util.PixelToSquareOfCell | src/x11-util.c:108-112 | every pixel of a cell maps back to that cell |
| X11Util.BorderPixelIsCellZero | src/x11-util.c:108-112 | pixels less than a cell into the border truncate to cell 0, not -1 |
| X11Util.CursorRect | src/x11-util.c:117-128 | the cursor outline starts at the cell's corner and is one pixel short of the tile |
| X11Util.BigCursorRect | src/x11-util.c:133-144 | the big cursor is the same outline tile_width2 wide, the plain one when both widths agree |
| X11Util.CursorCoversItsCell | src/x11-util.c:117-128 | every pixel the outline spans lies in the cursor's cell |
| X11Util.FontTextStd | src/x11-util.c:803-856 | -1 exactly for a missing or empty string. Otherwise the background is len tiles wide at the cell's corner, and glyph i sits at x + i·tw + off on the baseline |
| X11Util.FontTextNon | src/x11-util.c:861-900 | the wipe rectangle: len tiles by one tile at the cell's corner |
| X11Util.GlyphInsideCell | src/x11-util.c:817-849 | with 0 <= off < tile width, glyph i starts inside cell i of the filled rectangle |
| X11Util.DrawTile | src/x11-util.c:995-1022 | x11_draw_tile as written draws exactly when dest + size does not exceed the window's position, in unsigned arithmetic |
| X11Util.DrawTileRefusesWindowAtOrigin | src/x11-util.c:1005-1008 | a window at the screen origin never gets a tile drawn |
| X11Util.DrawTileIntended | src/x11-util.c:1005-1008 | the corrected test: dest + size within the window's size `w`, `h`, in unsigned arithmetic |
| X11Util.DrawTileIntendedInsideWindow | src/x11-util.c:1005-1008 | the corrected check draws exactly the tiles that fit inside the window's size |
| X11Util.MaxPixel | src/x11-util.c:246 | zg = 2^depth - 1 for depths up to 64 |
| X11Util.Pow2Of64 | src/x11-util.c:246 | 2^64 is the range of `unsigned long` pixels |
| X11Util.Pow2Le64 | src/x11-util.c:246 | 2^depth is at most 2^64 for depth <= 64 |
| X11Util.FitsDepth | src/x11-util.c:601-607 | a pixel passes the `<= zg` test exactly when it fits in depth bits |
| X11Util.Display.Init | src/x11-util.c:188-252 | fails exactly when the display does not open, or when the depth is not 16/24/32 and no 24-bit visual or colormap is found. On success: the depth, the colormap flag, Alt/Super masks (Mod1/Mod4 without XKB), bg black, fg white, zg = 2^depth - 1, colour iff depth > 1 |
| X11Util.FunctionCode | src/x11-util.c:590-657 | the GC functions used are GXcopy and GXxor |
| X11Util.GcFor | src/x11-util.c:621-653 | the GC values: XOR draws bg^fg on a zero background, copy draws fg on bg; stippled iff stip != 0 |
| X11Util.Color.constructor | src/x11-util.c:590-657 | the zeroed record |
| X11Util.Color.Init | src/x11-util.c:590-657 | -1, leaving the record untouched, exactly when fg or bg exceeds zg; otherwise the GC, both pixels and nuke = true |
| X11Util.Color.ChangeFg | src/x11-util.c:665-676 | -1 exactly when fg exceeds zg; otherwise only the GC's foreground changes |
| X11Util.Xor | src/x11-util.c:93-97 | `bg ^ fg` on pixels: 0 for equal pixels |
| X11Util.AllocCursorColor | src/x11-util.c:93-97 | the cursor colour is the XOR of the display's fg and bg, refused when either exceeds zg |
| X11Util.EventGet | src/x11-util.c:775-798 | without waiting and with nothing pending, 1 and nothing consumed. Otherwise one event is consumed after 20 ms per empty poll, and idle_update runs on exactly the polls 0, 10, 20, … |
| X11Png.HighBitFrom | src/x11-png.c:413-426 | the highest set bit at or below bit i |
| X11Png.HighBit | src/x11-png.c:413-426 | the highest set bit of a 32-bit value, -1 for zero |
| X11Png.HighBitIs | src/x11-png.c:413-426 | any index with the highest-bit property is HighBit's answer |
| X11Png.MsbUnique | src/x11-png.c:413-426 | at most one index is the highest set bit |
| X11Png.ShiftedTop | src/x11-png.c:418-423 | a step of the shift loop: bit 31 is set exactly when bit i of the value is |
| X11Png.NextShift | src/x11-png.c:423 | each left shift doubles the shifted value |
| X11Png.Msb | src/x11-png.c:413-426 | rpng_x_msb returns the highest set bit of the value's low 32 bits, -1 when they are zero |
| X11Png.LeftShiftNonNegative | src/x11-png.c:440-454 | at depth > 16 a shift is non-negative exactly when the mask reaches bit 7 |
| X11Png.RightShiftNonNegative | src/x11-png.c:434-454 | at depth 15/16 a shift is non-negative exactly when the mask has no bit above 15 |
| X11Png.ShiftAlignsTopBit | src/x11-png.c:428-455 | the shifts put a sample's top bit on the mask's top bit |
| X11Png.Rgb565Shifts | src/x11-png.c:434-438 | an RGB565 visual gets right shifts 0, 5 and 11 |
| X11Png.TrueColorShifts | src/x11-png.c:440-444 | masks 0xff0000/0xff00/0xff get left shifts 16, 8 and 0 |
| X11Png.PngImage.constructor | src/x11-png.c:80-98 | a decoded image whose rows fit bytes_per_row, with zeroed shifts |
| X11Png.PngImage.CalculateShifts | src/x11-png.c:428-455 | right shifts 15 - msb at depth 15/16, left shifts msb - 7 above 16, untouched below. False exactly when the depth is >= 15 and a shift is negative |
| X11Png.ToByte | src/x11-png.c:288-296 | assigning to a `byte` keeps the low 8 bits |
| X11Png.GetBgColor | src/x11-png.c:242-300 | 1 with the outputs untouched exactly when there is no bKGD chunk. Otherwise 0 and three bytes, equal for low-depth grey |
| X11Png.GreyBackgroundIsLinear | src/x11-png.c:284-292 | grey at 1, 2 or 4 bits becomes g·255/(2^d - 1), exactly |
| X11Png.SixteenBitBackgroundRoundTrip | src/x11-png.c:280-283 | 16-bit samples give their high byte, so v·257 comes back as v |
| X11Png.EightBitBackgroundKept | src/x11-png.c:293-297 | 8-bit samples are kept |
| X11Png.Format.BytesPerPixel | src/x11-png.c:476-484 | 2 bytes at depth 16, 4 at depth 24/32 |
| X11Png.Format.LineBytes | src/x11-png.c:545-546 | a row of w pixels is bytes-per-pixel · w bytes |
| X11Png.Pixel32 | src/x11-png.c:556-558 | `(r << rs) \| (g << gs) \| (b << bs)` |
| X11Png.Mask32 | src/x11-png.c:619-621 | a mask's low 32 bits |
| X11Png.MaskedBits | src/x11-png.c:619-621 | the packed 16-bit pixel has no bit outside the union of the masks |
| X11Png.Pixel16 | src/x11-png.c:612-621 | each sample widened to 16 bits, shifted right, and cut to its mask |
| X11Png.BigEndian4 | src/x11-png.c:559-562 | the four MSB-first bytes of a pixel |
| X11Png.BigEndian2 | src/x11-png.c:624-625 | the two MSB-first bytes of a pixel |
| X11Png.BigEndian4RoundTrip | src/x11-png.c:559-562 | reading the four bytes back gives the pixel |
| X11Png.BigEndian2RoundTrip | src/x11-png.c:624-625 | reading the two bytes back gives the pixel's low 16 bits |
| X11Png.PixelBytes | src/x11-png.c:541-663 | the bytes of one pixel: 4 at depth 24/32, 2 at depth 16 |
| X11Png.PixelEncoder | src/x11-png.c:541-663 | the format's encoder produces bytes-per-pixel bytes for every colour |
| X11Png.TrueColorPixelBytes | src/x11-png.c:556-562 | at shifts 16/8/0 a pixel is stored as 0, red, green, blue |
| X11Png.Rgb565Pixel | src/x11-png.c:612-625 | in RGB565 a pixel keeps the top 5, 6 and 5 bits of red, green and blue |
| X11Png.RowStart | src/x11-png.c:545-546 | row r < h of k bytes starts at k·r and ends within the buffer |
| X11Png.MulIsProduct | src/x11-png.c:545-546 | the row offsets are products |
| X11Png.RowWithin | src/x11-png.c:545-546 | row r < h ends within h rows |
| X11Png.RowBytes | src/x11-png.c:551-662 | the encoding of one row: bytes-per-pixel bytes for each of its pixels |
| X11Png.RowPixelLayout | src/x11-png.c:551-599 | pixel j of a row fills bytes bpp·j up to bpp·(j+1) of the row's encoding |
| X11Png.ImageBytes | src/x11-png.c:541-663 | the encoding of the whole image: bytes_per_line · h bytes, row after row |
| X11Png.ImageRowLayout | src/x11-png.c:545-546 | row r of the image sits at r·bytes_per_line and encodes the source row at r·bytes_per_row |
| X11Png.PixelColor | src/x11-png.c:566-588 | the colour of one source pixel: as stored for RGB or alpha 255, the black background for alpha 0, composited otherwise |
| X11Png.ReadPixel | src/x11-png.c:566-588 | the `*src++` reads of one pixel: as stored when opaque (or RGB), the black background when transparent, composited otherwise |
| X11Png.PutPixel | src/x11-png.c:595-598 | the `*dest++` stores of one pixel write its bytes and nothing else |
| X11Png.PackRowRgb32 | src/x11-png.c:551-563 | an RGB row at depth 24/32: 4 bytes per pixel, the rest of the buffer untouched |
| X11Png.PackRowRgba32 | src/x11-png.c:564-599 | an RGBA row at depth 24/32, with the alpha cases |
| X11Png.PackRowRgb16 | src/x11-png.c:610-626 | an RGB row at depth 16: 2 bytes per pixel |
| X11Png.PackRowRgba16 | src/x11-png.c:627-661 | an RGBA row at depth 16, with the alpha cases |
| X11Png.PackRow | src/x11-png.c:549-662 | the row loop's body chooses the loop for the channel count and depth, and writes exactly that row's bytes |
| X11Png.PackImageRow | src/x11-png.c:606-608 | one row pass extends the encoded prefix by that row |
| X11Png.PackImage | src/x11-png.c:541-663 | the row loop leaves the whole buffer equal to the image's encoding |
| X11Png.PngImage.CreateXImage | src/x11-png.c:457-673 | NULL exactly for negative shifts, a depth other than 16/24/32, a failed XImage, or a channel count other than 3/4. Otherwise a fresh 2·w·h or 4·w·h byte buffer holding every row's encoding |

## Left out

- Xlib itself is not modelled. That covers opening the display, creating windows, GCs, fonts and images, XPutImage, XNextEvent/XPending, XLookupString and XkbGetKeyboard. What they answer enters as parameters: `canOpen`, the visual search results, `xkb`, `alloc`, `loadFont`, `emptyPolls`, the event.
- libpng decoding (`x11_png_read_init`, `x11_png_read_image`, `x11_png_read_cleanup`) and its setjmp error return (status 2 of `x11_png_get_bgcolor`) are not modelled. These are foreign library calls. `png_composite` for partial alpha is a function parameter, because its definition is in png.h.
- Floating-point gamma correction (`ANGBAND_X11_GAMMA`, `build_gamma_table`, the display exponent) is left out: it uses floating point and helpers outside this model. `MainX11.CreatePixel` is create_pixel without gamma.
- File I/O and getenv are left out. The settings file is a sequence of lines, the environment a function from names to optional values, and the lines' 1024-byte buffer limit is not modelled.
- Real sleeping and the clock are left out. `usleep` is recorded as a microsecond count, and idle_update as the list of iterations on which it ran.
- `Term_*`, `plog`, `quit` and `reset_visuals` are the game's: effects are returned as values (`Action`, `XtraEffect`, `quit` results).
- `MAX_COLORS`, `COLOUR_SHADE`, `KC_*`, `MODS_INCLUDE_*` and `djb2_hash` come from the game's headers, which are not part of this model. They are parameters or datatypes.
- Prefs.SavePrefs: file_open is taken to fail on the empty path left in `settings` under -n, and otherwise to succeed exactly when `canWrite` holds. The dereference of a NULL slot is modelled as `Crashed`, with the lines written before it. What the C program does after that point is not modelled.
- Memory allocation failures and the `*_nuke` functions are left out. Allocation is assumed to succeed.
- CStr.Atoi: integer overflow, which is undefined in C, is not modelled. The value is unbounded.
- X11Png.PngImage.CreateXImage: takes the XImage's bytes_per_line as bytes-per-pixel · width. The source notes that a depth-24 visual may use 3 bytes per pixel. The size product `4 * width * height` is not checked for overflow.
- X11Png.Mask32: the visual's `unsigned long` masks are taken to their low 32 bits; the packed pixel's stored bytes do not depend on the higher bits.
- Quark.QuarkTable.Init: modelled on the initial state only (count 1, nothing stored), as quarks_init is called once at start-up.
- Quark.QuarkTable.Grow: mem_realloc leaves the new slots uninitialised. The model gives them a placeholder and states nothing about them.
- MainX11.InitColors: `BG_SAME` calls create_pixel a second time for the same colour. The model takes that call to return the same pixel as the first.
- X11Term.ScanWindows: all ANGBAND_TERM_MAX terms are taken as present. With fewer windows, the source would dereference a missing term when the event's window is not found.
- X11Term.CheckEvent: the key event's result is the keypress value; which term is active while the game receives it (`Term_activate`) is not tracked.
- The older X11 helper layer in `main-x11.c` (its own `CheckEvent`, `react_keypress`, text and wipe hooks) is not modelled separately. It differs from the `x11-term.c` check_event modelled here in two ways. It handles MapNotify and UnmapNotify (src/main-x11.c:512-524), which set and clear `Term->mapped_flag`; that upkeep is not modelled, and `SavedTerm.mapped` is taken as an input to save_prefs. Its scan remembers a window only on a match (src/main-x11.c:427-441), so it ignores events for unknown windows, unlike `X11Term.Scan`. Only its ConfigureNotify grid shares `X11Term.ConfigureGrid`.
- hook_quit (src/main-x11.c:1233-1276) is not modelled: it calls save_prefs and frees the first `term_windows_open` terms. Only its loop bound enters, as the bound of `Prefs.SavePrefsBounded`.
- `x11_display_update`, `x11_display_do_beep`, the window name, mask, map, raise and move calls, and the `x11_display_*` accessors are pure Xlib plumbing.

## Findings

| source | as written | input that shows it | evidently intended | confidence | as-written member | corrected member |
|---|---|---|---|---|---|---|
| src/x11-term.c:688-711 | the destination starts at column x and moves left while the elements are taken from the last, so element i lands at column x - (n - 1 - i) | n = 2 at column 5: element 1 is drawn at column 5, element 0 at column 4 | element i drawn at column x + i | not executed; high | X11Term.TermPict, X11Term.TermPictFirstElementMisplaced | X11Term.TermPictIntended |
| src/x11-util.c:1005-1008 | the bounds test compares dest + size with the window's position `win->x`, `win->y` | a main window at screen position (0, 0) and a tile of size 8x8 at (0, 0): refused, whatever the window's size | compare with the window's size `win->w`, `win->h` | not executed; high | X11Util.DrawTile, X11Util.DrawTileRefusesWindowAtOrigin | X11Util.DrawTileIntendedInsideWindow |
| src/main-x11.c:752-757 | the loop runs to ANGBAND_TERM_MAX and reads `angband_term[i]->data`, while init_x11 fills only the first num_term slots | the default start (no -n, no TERM_WINS line): the heading is written (and term 0's block if it is not mapped), then slot 1 is NULL and is dereferenced | loop to term_windows_open, as hook_quit does at 1243 | not executed; medium | Prefs.SavePrefs, Prefs.SavePrefsStopsAtFirstEmptySlot | Prefs.SavePrefsBounded, Prefs.SavePrefsBoundedRoundTrip |
| src/main-x11.c:757-759 | `if (mapped_flag) continue` saves only the windows that are not mapped | `TERM_WINS=8` in the settings file and no -n, so all eight windows exist, and the main window mapped: no `# Term 0` block is written and its size is lost on the next start | skip the windows that are not mapped | not executed; medium | Prefs.SavePrefs, Prefs.MappedWindowNotSaved | Prefs.SavePrefsIntended, Prefs.SavePrefsIntendedRoundTrip |
| src/main-x11.c:1353-1358 | a positive TERM_WINS value is taken as the window count without the clamp `-n` gets | a settings file with `TERM_WINS=9`: the init loop at 1462-1467 reaches angband_term[8], one past the array | clamp the count into 1..ANGBAND_TERM_MAX | not executed; high | MainX11.TermCount, MainX11.TermCountOverflows | MainX11.TermCountClampedInRange |
