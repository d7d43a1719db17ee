/**
 * Keyboard input of the X11 terms: the translation of X keysyms into the
 * game's key codes and modifier set (map_keysym), and the keypress
 * handler that decides what reaches the game's key queue.
 */
module X11Keys {

  import opened CInt

  /** The game key codes the keysym table produces (KC_*, ARROW_*, ESCAPE and plain characters). */
  datatype GameKey =
    | Backspace | Tab | Enter | Escape | Delete | Home
    | Left | Up | Right | Down | PageUp | PageDown | End | Insert
    | Pause | Break | Begin
    | F(n: nat)
    | Char(c: char)

  /** The KC_MOD_* bits, as a set. */
  datatype Modifier = Control | Shift | Alt | Meta | Keypad

  /** IsKeypadKey of the X11 library: XK_KP_Space through XK_KP_Equal. */
  predicate IsKeypadKey(ks: nat)
  {
    0xff80 <= ks <= 0xffbd
  }

  /** IsSpecialKey: every function and keypad keysym. */
  predicate IsSpecialKey(ks: nat)
  {
    ks >= 0xff00
  }

  /**
   * IsModifierKey of the X11 library: Shift_L..Hyper_R, ISO_Lock through
   * ISO_Level5_Lock, Mode_switch and Num_Lock.
   */
  predicate IsModifierKey(ks: nat)
  {
    (0xffe1 <= ks <= 0xffee) || (0xfe01 <= ks <= 0xfe13) || ks == 0xff7e || ks == 0xff7f
  }

  /**
   * map_keysym: the game key for a keysym (None for the 0 that unlisted
   * keysyms give) and the modifiers with KC_MOD_KEYPAD added when the
   * keysym is one of the keypad's.
   */
  function MapKeysym(ks: nat, mods: set<Modifier>): (r: (Option<GameKey>, set<Modifier>))
    ensures r.1 == (if r.0.Some? && IsKeypadKey(ks) then mods + {Keypad} else mods)
    ensures r.0.Some? ==> IsSpecialKey(ks) && !IsModifierKey(ks)
    ensures r.0.Some? && !IsKeypadKey(ks) ==> !r.0.value.Char?
  {
    match ks
    case 0xff08 => (Some(Backspace), mods)                 // XK_BackSpace
    case 0xff09 => (Some(Tab), mods)                       // XK_Tab
    case 0xff0d => (Some(Enter), mods)                     // XK_Return
    case 0xff1b => (Some(Escape), mods)                    // XK_Escape
    case 0xffff => (Some(Delete), mods)                    // XK_Delete
    case 0xff50 => (Some(Home), mods)                      // XK_Home
    case 0xff51 => (Some(Left), mods)                      // XK_Left
    case 0xff52 => (Some(Up), mods)                        // XK_Up
    case 0xff53 => (Some(Right), mods)                     // XK_Right
    case 0xff54 => (Some(Down), mods)                      // XK_Down
    case 0xff55 => (Some(PageUp), mods)                    // XK_Page_Up
    case 0xff56 => (Some(PageDown), mods)                  // XK_Page_Down
    case 0xff57 => (Some(End), mods)                       // XK_End
    case 0xff63 => (Some(Insert), mods)                    // XK_Insert
    case 0xff13 => (Some(Pause), mods)                     // XK_Pause
    case 0xff6b => (Some(Break), mods)                     // XK_Break
    case 0xffb0 => (Some(Char('0')), mods + {Keypad})      // XK_KP_0
    case 0xffb1 => (Some(Char('1')), mods + {Keypad})      // XK_KP_1
    case 0xffb2 => (Some(Char('2')), mods + {Keypad})      // XK_KP_2
    case 0xffb3 => (Some(Char('3')), mods + {Keypad})      // XK_KP_3
    case 0xffb4 => (Some(Char('4')), mods + {Keypad})      // XK_KP_4
    case 0xffb5 => (Some(Char('5')), mods + {Keypad})      // XK_KP_5
    case 0xffb6 => (Some(Char('6')), mods + {Keypad})      // XK_KP_6
    case 0xffb7 => (Some(Char('7')), mods + {Keypad})      // XK_KP_7
    case 0xffb8 => (Some(Char('8')), mods + {Keypad})      // XK_KP_8
    case 0xffb9 => (Some(Char('9')), mods + {Keypad})      // XK_KP_9
    case 0xffae => (Some(Char('.')), mods + {Keypad})      // XK_KP_Decimal
    case 0xffaf => (Some(Char('/')), mods + {Keypad})      // XK_KP_Divide
    case 0xffaa => (Some(Char('*')), mods + {Keypad})      // XK_KP_Multiply
    case 0xffad => (Some(Char('-')), mods + {Keypad})      // XK_KP_Subtract
    case 0xffab => (Some(Char('+')), mods + {Keypad})      // XK_KP_Add
    case 0xff8d => (Some(Enter), mods + {Keypad})          // XK_KP_Enter
    case 0xffbd => (Some(Char('=')), mods + {Keypad})      // XK_KP_Equal
    case 0xff9f => (Some(Delete), mods + {Keypad})         // XK_KP_Delete
    case 0xff95 => (Some(Home), mods + {Keypad})           // XK_KP_Home
    case 0xff96 => (Some(Left), mods + {Keypad})           // XK_KP_Left
    case 0xff97 => (Some(Up), mods + {Keypad})             // XK_KP_Up
    case 0xff98 => (Some(Right), mods + {Keypad})          // XK_KP_Right
    case 0xff99 => (Some(Down), mods + {Keypad})           // XK_KP_Down
    case 0xff9a => (Some(PageUp), mods + {Keypad})         // XK_KP_Page_Up
    case 0xff9b => (Some(PageDown), mods + {Keypad})       // XK_KP_Page_Down
    case 0xff9c => (Some(End), mods + {Keypad})            // XK_KP_End
    case 0xff9e => (Some(Insert), mods + {Keypad})         // XK_KP_Insert
    case 0xff9d => (Some(Begin), mods + {Keypad})          // XK_KP_Begin
    case 0xffbe => (Some(F(1)), mods)                      // XK_F1
    case 0xffbf => (Some(F(2)), mods)                      // XK_F2
    case 0xffc0 => (Some(F(3)), mods)                      // XK_F3
    case 0xffc1 => (Some(F(4)), mods)                      // XK_F4
    case 0xffc2 => (Some(F(5)), mods)                      // XK_F5
    case 0xffc3 => (Some(F(6)), mods)                      // XK_F6
    case 0xffc4 => (Some(F(7)), mods)                      // XK_F7
    case 0xffc5 => (Some(F(8)), mods)                      // XK_F8
    case 0xffc6 => (Some(F(9)), mods)                      // XK_F9
    case 0xffc7 => (Some(F(10)), mods)                     // XK_F10
    case 0xffc8 => (Some(F(11)), mods)                     // XK_F11
    case 0xffc9 => (Some(F(12)), mods)                     // XK_F12
    case 0xffca => (Some(F(13)), mods)                     // XK_F13
    case 0xffcb => (Some(F(14)), mods)                     // XK_F14
    case 0xffcc => (Some(F(15)), mods)                     // XK_F15
    case _ => (None, mods)
  }

  /** The keypad digits arrive as the characters '0'..'9', flagged with KC_MOD_KEYPAD. */
  lemma KeypadDigits(d: nat, mods: set<Modifier>)
    requires d < 10
    ensures MapKeysym(0xffb0 + d, mods) == (Some(Char(('0' as int + d) as char)), mods + {Keypad})
  {
  }

  /** XK_F1..XK_F15 are consecutive keysyms and map to KC_F1..KC_F15. */
  lemma FunctionKeys(n: nat, mods: set<Modifier>)
    requires 1 <= n <= 15
    ensures MapKeysym(0xffbe + n - 1, mods) == (Some(F(n)), mods)
  {
  }

  /** Latin-1 keysyms (the ordinary characters) are not in the table: they go through the byte path. */
  lemma Latin1Unmapped(ks: nat, mods: set<Modifier>)
    requires ks < 0xff00
    ensures MapKeysym(ks, mods) == (None, mods)
  {
  }

  /** The fields of an XKeyEvent the handler reads, with XLookupString's answer. */
  datatype KeyEvent = KeyEvent(state: bv32, keysym: nat, count: nat, firstByte: bv8)

  /** What is handed to Term_keypress: a table key or the raw (sign-extended) first byte. */
  datatype KeyCode = Mapped(key: GameKey) | Code(value: nat)

  datatype Keypress = Keypress(code: KeyCode, mods: set<Modifier>)

  const ShiftMask: bv32 := 1
  const ControlMask: bv32 := 4

  /** `keycode_t code = buf[0]`: the signed `char` widened to a 32-bit unsigned code. */
  function ByteCode(b: bv8): (code: nat)
    ensures code < 0x1_0000_0000
    ensures b < 0x80 ==> code == b as int
    ensures b >= 0x80 ==> code >= 0xffff_ff80
  {
    U32(if b < 0x80 then b as int else b as int - 256)
  }

  /** The predicates MODS_INCLUDE_CONTROL / MODS_INCLUDE_SHIFT of the game, which are not part of this model. */
  datatype ModsPolicy = ModsPolicy(includeControl: nat -> bool, includeShift: nat -> bool)

  /**
   * react_keypress. Alt and Meta come from the display's masks; a lone
   * modifier key produces nothing; a keysym in the table gets Control and
   * Shift whenever they are held; any other keysym that is not special and
   * produced text sends its first byte, with Control/Shift only when the
   * game's policy keeps them for that code.
   */
  function ReactKeypress(ev: KeyEvent, altMask: bv32, superMask: bv32, policy: ModsPolicy): (r: Option<Keypress>)
    ensures IsModifierKey(ev.keysym) ==> r.None?
    ensures r.Some? ==>
      && (Alt in r.value.mods <==> ev.state & altMask != 0)
      && (Meta in r.value.mods <==> ev.state & superMask != 0)
      && (Keypad in r.value.mods <==> r.value.code.Mapped? && IsKeypadKey(ev.keysym))
    ensures !IsModifierKey(ev.keysym) && MapKeysym(ev.keysym, {}).0.Some? ==>
      && r.Some? && r.value.code == Mapped(MapKeysym(ev.keysym, {}).0.value)
      && (Control in r.value.mods <==> ev.state & ControlMask != 0)
      && (Shift in r.value.mods <==> ev.state & ShiftMask != 0)
    ensures !IsModifierKey(ev.keysym) && MapKeysym(ev.keysym, {}).0.None? ==>
      && (r.Some? <==> ev.count != 0 && !IsSpecialKey(ev.keysym))
      && (r.Some? ==> r.value.code == Code(ByteCode(ev.firstByte)))
      && (r.Some? ==> (Control in r.value.mods <==> ev.state & ControlMask != 0 && policy.includeControl(ByteCode(ev.firstByte))))
      && (r.Some? ==> (Shift in r.value.mods <==> ev.state & ShiftMask != 0 && policy.includeShift(ByteCode(ev.firstByte))))
  {
    var mc := ev.state & ControlMask != 0;
    var ms := ev.state & ShiftMask != 0;
    var mo := ev.state & altMask != 0;
    var mx := ev.state & superMask != 0;
    var mods := (if mo then {Alt} else {}) + (if mx then {Meta} else {});
    if IsModifierKey(ev.keysym) then None
    else
      MapKeysymIgnoresMods(ev.keysym, mods, {});
      var (ch, mods') := MapKeysym(ev.keysym, mods);
      if ch.Some? then
        Some(Keypress(Mapped(ch.value),
                      mods' + (if mc then {Control} else {}) + (if ms then {Shift} else {})))
      else if ev.count != 0 && !IsSpecialKey(ev.keysym) then
        var code := ByteCode(ev.firstByte);
        Some(Keypress(Code(code),
                      mods' + (if mc && policy.includeControl(code) then {Control} else {})
                            + (if ms && policy.includeShift(code) then {Shift} else {})))
      else None
  }

  /** Whether a keysym is in the table does not depend on the modifiers handed in. */
  lemma MapKeysymIgnoresMods(ks: nat, m1: set<Modifier>, m2: set<Modifier>)
    ensures MapKeysym(ks, m1).0 == MapKeysym(ks, m2).0
  {
  }
}
