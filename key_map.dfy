/**
 * Translation of Android key events into the XKB keycodes, keysyms and
 * modifier flags that WPE Platform expects (AndroidKeyMap.h).
 *
 * The numeric values of the Android NDK keycodes (`AKEYCODE_*`, `AMETA_*`),
 * the Linux input event codes (`KEY_*`), the xkbcommon keysyms (`XKB_KEY_*`)
 * and the WPE modifier flags are those of the platform headers the source
 * includes; they are written out below under their own names.
 */
module KeyMap {
  import opened Wrappers

  // Android NDK keycodes (android/keycodes.h).
  const AKEYCODE_A := 29
  const AKEYCODE_B := 30
  const AKEYCODE_C := 31
  const AKEYCODE_D := 32
  const AKEYCODE_E := 33
  const AKEYCODE_F := 34
  const AKEYCODE_G := 35
  const AKEYCODE_H := 36
  const AKEYCODE_I := 37
  const AKEYCODE_J := 38
  const AKEYCODE_K := 39
  const AKEYCODE_L := 40
  const AKEYCODE_M := 41
  const AKEYCODE_N := 42
  const AKEYCODE_O := 43
  const AKEYCODE_P := 44
  const AKEYCODE_Q := 45
  const AKEYCODE_R := 46
  const AKEYCODE_S := 47
  const AKEYCODE_T := 48
  const AKEYCODE_U := 49
  const AKEYCODE_V := 50
  const AKEYCODE_W := 51
  const AKEYCODE_X := 52
  const AKEYCODE_Y := 53
  const AKEYCODE_Z := 54
  const AKEYCODE_0 := 7
  const AKEYCODE_1 := 8
  const AKEYCODE_2 := 9
  const AKEYCODE_3 := 10
  const AKEYCODE_4 := 11
  const AKEYCODE_5 := 12
  const AKEYCODE_6 := 13
  const AKEYCODE_7 := 14
  const AKEYCODE_8 := 15
  const AKEYCODE_9 := 16
  const AKEYCODE_ENTER := 66
  const AKEYCODE_DEL := 67
  const AKEYCODE_FORWARD_DEL := 112
  const AKEYCODE_ESCAPE := 111
  const AKEYCODE_TAB := 61
  const AKEYCODE_SPACE := 62
  const AKEYCODE_DPAD_UP := 19
  const AKEYCODE_DPAD_DOWN := 20
  const AKEYCODE_DPAD_LEFT := 21
  const AKEYCODE_DPAD_RIGHT := 22
  const AKEYCODE_MOVE_HOME := 122
  const AKEYCODE_MOVE_END := 123
  const AKEYCODE_PAGE_UP := 92
  const AKEYCODE_PAGE_DOWN := 93
  const AKEYCODE_INSERT := 124
  const AKEYCODE_SHIFT_LEFT := 59
  const AKEYCODE_SHIFT_RIGHT := 60
  const AKEYCODE_CTRL_LEFT := 113
  const AKEYCODE_CTRL_RIGHT := 114
  const AKEYCODE_ALT_LEFT := 57
  const AKEYCODE_ALT_RIGHT := 58
  const AKEYCODE_META_LEFT := 117
  const AKEYCODE_META_RIGHT := 118
  const AKEYCODE_CAPS_LOCK := 115
  const AKEYCODE_F1 := 131
  const AKEYCODE_F2 := 132
  const AKEYCODE_F3 := 133
  const AKEYCODE_F4 := 134
  const AKEYCODE_F5 := 135
  const AKEYCODE_F6 := 136
  const AKEYCODE_F7 := 137
  const AKEYCODE_F8 := 138
  const AKEYCODE_F9 := 139
  const AKEYCODE_F10 := 140
  const AKEYCODE_F11 := 141
  const AKEYCODE_F12 := 142
  const AKEYCODE_MINUS := 69
  const AKEYCODE_EQUALS := 70
  const AKEYCODE_LEFT_BRACKET := 71
  const AKEYCODE_RIGHT_BRACKET := 72
  const AKEYCODE_BACKSLASH := 73
  const AKEYCODE_SEMICOLON := 74
  const AKEYCODE_APOSTROPHE := 75
  const AKEYCODE_GRAVE := 68
  const AKEYCODE_COMMA := 55
  const AKEYCODE_PERIOD := 56
  const AKEYCODE_SLASH := 76

  // Linux input event codes (linux/input-event-codes.h).
  const KEY_A := 30
  const KEY_B := 48
  const KEY_C := 46
  const KEY_D := 32
  const KEY_E := 18
  const KEY_F := 33
  const KEY_G := 34
  const KEY_H := 35
  const KEY_I := 23
  const KEY_J := 36
  const KEY_K := 37
  const KEY_L := 38
  const KEY_M := 50
  const KEY_N := 49
  const KEY_O := 24
  const KEY_P := 25
  const KEY_Q := 16
  const KEY_R := 19
  const KEY_S := 31
  const KEY_T := 20
  const KEY_U := 22
  const KEY_V := 47
  const KEY_W := 17
  const KEY_X := 45
  const KEY_Y := 21
  const KEY_Z := 44
  const KEY_0 := 11
  const KEY_1 := 2
  const KEY_2 := 3
  const KEY_3 := 4
  const KEY_4 := 5
  const KEY_5 := 6
  const KEY_6 := 7
  const KEY_7 := 8
  const KEY_8 := 9
  const KEY_9 := 10
  const KEY_ENTER := 28
  const KEY_BACKSPACE := 14
  const KEY_DELETE := 111
  const KEY_ESC := 1
  const KEY_TAB := 15
  const KEY_SPACE := 57
  const KEY_UP := 103
  const KEY_DOWN := 108
  const KEY_LEFT := 105
  const KEY_RIGHT := 106
  const KEY_HOME := 102
  const KEY_END := 107
  const KEY_PAGEUP := 104
  const KEY_PAGEDOWN := 109
  const KEY_INSERT := 110
  const KEY_LEFTSHIFT := 42
  const KEY_RIGHTSHIFT := 54
  const KEY_LEFTCTRL := 29
  const KEY_RIGHTCTRL := 97
  const KEY_LEFTALT := 56
  const KEY_RIGHTALT := 100
  const KEY_LEFTMETA := 125
  const KEY_RIGHTMETA := 126
  const KEY_CAPSLOCK := 58
  const KEY_F1 := 59
  const KEY_F2 := 60
  const KEY_F3 := 61
  const KEY_F4 := 62
  const KEY_F5 := 63
  const KEY_F6 := 64
  const KEY_F7 := 65
  const KEY_F8 := 66
  const KEY_F9 := 67
  const KEY_F10 := 68
  const KEY_F11 := 87
  const KEY_F12 := 88
  const KEY_MINUS := 12
  const KEY_EQUAL := 13
  const KEY_LEFTBRACE := 26
  const KEY_RIGHTBRACE := 27
  const KEY_BACKSLASH := 43
  const KEY_SEMICOLON := 39
  const KEY_APOSTROPHE := 40
  const KEY_GRAVE := 41
  const KEY_COMMA := 51
  const KEY_DOT := 52
  const KEY_SLASH := 53

  // xkbcommon keysyms (xkbcommon/xkbcommon-keysyms.h).
  const XKB_KEY_Return := 0xff0d
  const XKB_KEY_BackSpace := 0xff08
  const XKB_KEY_Delete := 0xffff
  const XKB_KEY_Escape := 0xff1b
  const XKB_KEY_Tab := 0xff09
  const XKB_KEY_Up := 0xff52
  const XKB_KEY_Down := 0xff54
  const XKB_KEY_Left := 0xff51
  const XKB_KEY_Right := 0xff53
  const XKB_KEY_Home := 0xff50
  const XKB_KEY_End := 0xff57
  const XKB_KEY_Page_Up := 0xff55
  const XKB_KEY_Page_Down := 0xff56
  const XKB_KEY_Insert := 0xff63
  const XKB_KEY_Shift_L := 0xffe1
  const XKB_KEY_Shift_R := 0xffe2
  const XKB_KEY_Control_L := 0xffe3
  const XKB_KEY_Control_R := 0xffe4
  const XKB_KEY_Alt_L := 0xffe9
  const XKB_KEY_Alt_R := 0xffea
  const XKB_KEY_Meta_L := 0xffe7
  const XKB_KEY_Meta_R := 0xffe8
  const XKB_KEY_Caps_Lock := 0xffe5
  const XKB_KEY_F1 := 0xffbe
  const XKB_KEY_F2 := 0xffbf
  const XKB_KEY_F3 := 0xffc0
  const XKB_KEY_F4 := 0xffc1
  const XKB_KEY_F5 := 0xffc2
  const XKB_KEY_F6 := 0xffc3
  const XKB_KEY_F7 := 0xffc4
  const XKB_KEY_F8 := 0xffc5
  const XKB_KEY_F9 := 0xffc6
  const XKB_KEY_F10 := 0xffc7
  const XKB_KEY_F11 := 0xffc8
  const XKB_KEY_F12 := 0xffc9

  /** The offset between a Linux input code and the XKB keycode of the same key. */
  const XkbOffset := 8

  /** `androidToXkbKeycode`: the XKB keycode of an Android key, or 0 when the key is not mapped. */
  function AndroidToXkbKeycode(androidKeyCode: int): (r: nat)
    ensures r == 0 || XkbOffset < r < 256 + XkbOffset
  {
    if androidKeyCode == AKEYCODE_A then KEY_A + XkbOffset
    else if androidKeyCode == AKEYCODE_B then KEY_B + XkbOffset
    else if androidKeyCode == AKEYCODE_C then KEY_C + XkbOffset
    else if androidKeyCode == AKEYCODE_D then KEY_D + XkbOffset
    else if androidKeyCode == AKEYCODE_E then KEY_E + XkbOffset
    else if androidKeyCode == AKEYCODE_F then KEY_F + XkbOffset
    else if androidKeyCode == AKEYCODE_G then KEY_G + XkbOffset
    else if androidKeyCode == AKEYCODE_H then KEY_H + XkbOffset
    else if androidKeyCode == AKEYCODE_I then KEY_I + XkbOffset
    else if androidKeyCode == AKEYCODE_J then KEY_J + XkbOffset
    else if androidKeyCode == AKEYCODE_K then KEY_K + XkbOffset
    else if androidKeyCode == AKEYCODE_L then KEY_L + XkbOffset
    else if androidKeyCode == AKEYCODE_M then KEY_M + XkbOffset
    else if androidKeyCode == AKEYCODE_N then KEY_N + XkbOffset
    else if androidKeyCode == AKEYCODE_O then KEY_O + XkbOffset
    else if androidKeyCode == AKEYCODE_P then KEY_P + XkbOffset
    else if androidKeyCode == AKEYCODE_Q then KEY_Q + XkbOffset
    else if androidKeyCode == AKEYCODE_R then KEY_R + XkbOffset
    else if androidKeyCode == AKEYCODE_S then KEY_S + XkbOffset
    else if androidKeyCode == AKEYCODE_T then KEY_T + XkbOffset
    else if androidKeyCode == AKEYCODE_U then KEY_U + XkbOffset
    else if androidKeyCode == AKEYCODE_V then KEY_V + XkbOffset
    else if androidKeyCode == AKEYCODE_W then KEY_W + XkbOffset
    else if androidKeyCode == AKEYCODE_X then KEY_X + XkbOffset
    else if androidKeyCode == AKEYCODE_Y then KEY_Y + XkbOffset
    else if androidKeyCode == AKEYCODE_Z then KEY_Z + XkbOffset
    else if androidKeyCode == AKEYCODE_0 then KEY_0 + XkbOffset
    else if androidKeyCode == AKEYCODE_1 then KEY_1 + XkbOffset
    else if androidKeyCode == AKEYCODE_2 then KEY_2 + XkbOffset
    else if androidKeyCode == AKEYCODE_3 then KEY_3 + XkbOffset
    else if androidKeyCode == AKEYCODE_4 then KEY_4 + XkbOffset
    else if androidKeyCode == AKEYCODE_5 then KEY_5 + XkbOffset
    else if androidKeyCode == AKEYCODE_6 then KEY_6 + XkbOffset
    else if androidKeyCode == AKEYCODE_7 then KEY_7 + XkbOffset
    else if androidKeyCode == AKEYCODE_8 then KEY_8 + XkbOffset
    else if androidKeyCode == AKEYCODE_9 then KEY_9 + XkbOffset
    else if androidKeyCode == AKEYCODE_ENTER then KEY_ENTER + XkbOffset
    else if androidKeyCode == AKEYCODE_DEL then KEY_BACKSPACE + XkbOffset
    else if androidKeyCode == AKEYCODE_FORWARD_DEL then KEY_DELETE + XkbOffset
    else if androidKeyCode == AKEYCODE_ESCAPE then KEY_ESC + XkbOffset
    else if androidKeyCode == AKEYCODE_TAB then KEY_TAB + XkbOffset
    else if androidKeyCode == AKEYCODE_SPACE then KEY_SPACE + XkbOffset
    else if androidKeyCode == AKEYCODE_DPAD_UP then KEY_UP + XkbOffset
    else if androidKeyCode == AKEYCODE_DPAD_DOWN then KEY_DOWN + XkbOffset
    else if androidKeyCode == AKEYCODE_DPAD_LEFT then KEY_LEFT + XkbOffset
    else if androidKeyCode == AKEYCODE_DPAD_RIGHT then KEY_RIGHT + XkbOffset
    else if androidKeyCode == AKEYCODE_MOVE_HOME then KEY_HOME + XkbOffset
    else if androidKeyCode == AKEYCODE_MOVE_END then KEY_END + XkbOffset
    else if androidKeyCode == AKEYCODE_PAGE_UP then KEY_PAGEUP + XkbOffset
    else if androidKeyCode == AKEYCODE_PAGE_DOWN then KEY_PAGEDOWN + XkbOffset
    else if androidKeyCode == AKEYCODE_INSERT then KEY_INSERT + XkbOffset
    else if androidKeyCode == AKEYCODE_SHIFT_LEFT then KEY_LEFTSHIFT + XkbOffset
    else if androidKeyCode == AKEYCODE_SHIFT_RIGHT then KEY_RIGHTSHIFT + XkbOffset
    else if androidKeyCode == AKEYCODE_CTRL_LEFT then KEY_LEFTCTRL + XkbOffset
    else if androidKeyCode == AKEYCODE_CTRL_RIGHT then KEY_RIGHTCTRL + XkbOffset
    else if androidKeyCode == AKEYCODE_ALT_LEFT then KEY_LEFTALT + XkbOffset
    else if androidKeyCode == AKEYCODE_ALT_RIGHT then KEY_RIGHTALT + XkbOffset
    else if androidKeyCode == AKEYCODE_META_LEFT then KEY_LEFTMETA + XkbOffset
    else if androidKeyCode == AKEYCODE_META_RIGHT then KEY_RIGHTMETA + XkbOffset
    else if androidKeyCode == AKEYCODE_CAPS_LOCK then KEY_CAPSLOCK + XkbOffset
    else if androidKeyCode == AKEYCODE_F1 then KEY_F1 + XkbOffset
    else if androidKeyCode == AKEYCODE_F2 then KEY_F2 + XkbOffset
    else if androidKeyCode == AKEYCODE_F3 then KEY_F3 + XkbOffset
    else if androidKeyCode == AKEYCODE_F4 then KEY_F4 + XkbOffset
    else if androidKeyCode == AKEYCODE_F5 then KEY_F5 + XkbOffset
    else if androidKeyCode == AKEYCODE_F6 then KEY_F6 + XkbOffset
    else if androidKeyCode == AKEYCODE_F7 then KEY_F7 + XkbOffset
    else if androidKeyCode == AKEYCODE_F8 then KEY_F8 + XkbOffset
    else if androidKeyCode == AKEYCODE_F9 then KEY_F9 + XkbOffset
    else if androidKeyCode == AKEYCODE_F10 then KEY_F10 + XkbOffset
    else if androidKeyCode == AKEYCODE_F11 then KEY_F11 + XkbOffset
    else if androidKeyCode == AKEYCODE_F12 then KEY_F12 + XkbOffset
    else if androidKeyCode == AKEYCODE_MINUS then KEY_MINUS + XkbOffset
    else if androidKeyCode == AKEYCODE_EQUALS then KEY_EQUAL + XkbOffset
    else if androidKeyCode == AKEYCODE_LEFT_BRACKET then KEY_LEFTBRACE + XkbOffset
    else if androidKeyCode == AKEYCODE_RIGHT_BRACKET then KEY_RIGHTBRACE + XkbOffset
    else if androidKeyCode == AKEYCODE_BACKSLASH then KEY_BACKSLASH + XkbOffset
    else if androidKeyCode == AKEYCODE_SEMICOLON then KEY_SEMICOLON + XkbOffset
    else if androidKeyCode == AKEYCODE_APOSTROPHE then KEY_APOSTROPHE + XkbOffset
    else if androidKeyCode == AKEYCODE_GRAVE then KEY_GRAVE + XkbOffset
    else if androidKeyCode == AKEYCODE_COMMA then KEY_COMMA + XkbOffset
    else if androidKeyCode == AKEYCODE_PERIOD then KEY_DOT + XkbOffset
    else if androidKeyCode == AKEYCODE_SLASH then KEY_SLASH + XkbOffset
    else 0
  }

  /**
   * The reverse table: the Android key that produces a given Linux input code.
   * It is written independently of `AndroidToXkbKeycode`, and the lemma below
   * checks the two tables against each other.
   */
  function LinuxCodeToAndroid(linuxCode: int): Option<int>
  {
    if linuxCode == KEY_ESC then Some(AKEYCODE_ESCAPE)
    else if linuxCode == KEY_1 then Some(AKEYCODE_1)
    else if linuxCode == KEY_2 then Some(AKEYCODE_2)
    else if linuxCode == KEY_3 then Some(AKEYCODE_3)
    else if linuxCode == KEY_4 then Some(AKEYCODE_4)
    else if linuxCode == KEY_5 then Some(AKEYCODE_5)
    else if linuxCode == KEY_6 then Some(AKEYCODE_6)
    else if linuxCode == KEY_7 then Some(AKEYCODE_7)
    else if linuxCode == KEY_8 then Some(AKEYCODE_8)
    else if linuxCode == KEY_9 then Some(AKEYCODE_9)
    else if linuxCode == KEY_0 then Some(AKEYCODE_0)
    else if linuxCode == KEY_MINUS then Some(AKEYCODE_MINUS)
    else if linuxCode == KEY_EQUAL then Some(AKEYCODE_EQUALS)
    else if linuxCode == KEY_BACKSPACE then Some(AKEYCODE_DEL)
    else if linuxCode == KEY_TAB then Some(AKEYCODE_TAB)
    else if linuxCode == KEY_Q then Some(AKEYCODE_Q)
    else if linuxCode == KEY_W then Some(AKEYCODE_W)
    else if linuxCode == KEY_E then Some(AKEYCODE_E)
    else if linuxCode == KEY_R then Some(AKEYCODE_R)
    else if linuxCode == KEY_T then Some(AKEYCODE_T)
    else if linuxCode == KEY_Y then Some(AKEYCODE_Y)
    else if linuxCode == KEY_U then Some(AKEYCODE_U)
    else if linuxCode == KEY_I then Some(AKEYCODE_I)
    else if linuxCode == KEY_O then Some(AKEYCODE_O)
    else if linuxCode == KEY_P then Some(AKEYCODE_P)
    else if linuxCode == KEY_LEFTBRACE then Some(AKEYCODE_LEFT_BRACKET)
    else if linuxCode == KEY_RIGHTBRACE then Some(AKEYCODE_RIGHT_BRACKET)
    else if linuxCode == KEY_ENTER then Some(AKEYCODE_ENTER)
    else if linuxCode == KEY_LEFTCTRL then Some(AKEYCODE_CTRL_LEFT)
    else if linuxCode == KEY_A then Some(AKEYCODE_A)
    else if linuxCode == KEY_S then Some(AKEYCODE_S)
    else if linuxCode == KEY_D then Some(AKEYCODE_D)
    else if linuxCode == KEY_F then Some(AKEYCODE_F)
    else if linuxCode == KEY_G then Some(AKEYCODE_G)
    else if linuxCode == KEY_H then Some(AKEYCODE_H)
    else if linuxCode == KEY_J then Some(AKEYCODE_J)
    else if linuxCode == KEY_K then Some(AKEYCODE_K)
    else if linuxCode == KEY_L then Some(AKEYCODE_L)
    else if linuxCode == KEY_SEMICOLON then Some(AKEYCODE_SEMICOLON)
    else if linuxCode == KEY_APOSTROPHE then Some(AKEYCODE_APOSTROPHE)
    else if linuxCode == KEY_GRAVE then Some(AKEYCODE_GRAVE)
    else if linuxCode == KEY_LEFTSHIFT then Some(AKEYCODE_SHIFT_LEFT)
    else if linuxCode == KEY_BACKSLASH then Some(AKEYCODE_BACKSLASH)
    else if linuxCode == KEY_Z then Some(AKEYCODE_Z)
    else if linuxCode == KEY_X then Some(AKEYCODE_X)
    else if linuxCode == KEY_C then Some(AKEYCODE_C)
    else if linuxCode == KEY_V then Some(AKEYCODE_V)
    else if linuxCode == KEY_B then Some(AKEYCODE_B)
    else if linuxCode == KEY_N then Some(AKEYCODE_N)
    else if linuxCode == KEY_M then Some(AKEYCODE_M)
    else if linuxCode == KEY_COMMA then Some(AKEYCODE_COMMA)
    else if linuxCode == KEY_DOT then Some(AKEYCODE_PERIOD)
    else if linuxCode == KEY_SLASH then Some(AKEYCODE_SLASH)
    else if linuxCode == KEY_RIGHTSHIFT then Some(AKEYCODE_SHIFT_RIGHT)
    else if linuxCode == KEY_LEFTALT then Some(AKEYCODE_ALT_LEFT)
    else if linuxCode == KEY_SPACE then Some(AKEYCODE_SPACE)
    else if linuxCode == KEY_CAPSLOCK then Some(AKEYCODE_CAPS_LOCK)
    else if linuxCode == KEY_F1 then Some(AKEYCODE_F1)
    else if linuxCode == KEY_F2 then Some(AKEYCODE_F2)
    else if linuxCode == KEY_F3 then Some(AKEYCODE_F3)
    else if linuxCode == KEY_F4 then Some(AKEYCODE_F4)
    else if linuxCode == KEY_F5 then Some(AKEYCODE_F5)
    else if linuxCode == KEY_F6 then Some(AKEYCODE_F6)
    else if linuxCode == KEY_F7 then Some(AKEYCODE_F7)
    else if linuxCode == KEY_F8 then Some(AKEYCODE_F8)
    else if linuxCode == KEY_F9 then Some(AKEYCODE_F9)
    else if linuxCode == KEY_F10 then Some(AKEYCODE_F10)
    else if linuxCode == KEY_F11 then Some(AKEYCODE_F11)
    else if linuxCode == KEY_F12 then Some(AKEYCODE_F12)
    else if linuxCode == KEY_RIGHTCTRL then Some(AKEYCODE_CTRL_RIGHT)
    else if linuxCode == KEY_RIGHTALT then Some(AKEYCODE_ALT_RIGHT)
    else if linuxCode == KEY_HOME then Some(AKEYCODE_MOVE_HOME)
    else if linuxCode == KEY_UP then Some(AKEYCODE_DPAD_UP)
    else if linuxCode == KEY_PAGEUP then Some(AKEYCODE_PAGE_UP)
    else if linuxCode == KEY_LEFT then Some(AKEYCODE_DPAD_LEFT)
    else if linuxCode == KEY_RIGHT then Some(AKEYCODE_DPAD_RIGHT)
    else if linuxCode == KEY_END then Some(AKEYCODE_MOVE_END)
    else if linuxCode == KEY_DOWN then Some(AKEYCODE_DPAD_DOWN)
    else if linuxCode == KEY_PAGEDOWN then Some(AKEYCODE_PAGE_DOWN)
    else if linuxCode == KEY_INSERT then Some(AKEYCODE_INSERT)
    else if linuxCode == KEY_DELETE then Some(AKEYCODE_FORWARD_DEL)
    else if linuxCode == KEY_LEFTMETA then Some(AKEYCODE_META_LEFT)
    else if linuxCode == KEY_RIGHTMETA then Some(AKEYCODE_META_RIGHT)
    else None
  }

  /** Every mapped Android key is recovered from its XKB keycode: no two keys share a keycode. */
  lemma XkbKeycodeRoundTrip(androidKeyCode: int)
    requires AndroidToXkbKeycode(androidKeyCode) != 0
    ensures LinuxCodeToAndroid(AndroidToXkbKeycode(androidKeyCode) - XkbOffset) == Some(androidKeyCode)
  {
    if androidKeyCode < 40 {
      XkbKeycodeRoundTripBelow40(androidKeyCode);
    } else if androidKeyCode < 70 {
      XkbKeycodeRoundTripBelow70(androidKeyCode);
    } else {
      XkbKeycodeRoundTripFrom70(androidKeyCode);
    }
  }

  /** The round trip for the keys whose codes are below 40. */
  lemma XkbKeycodeRoundTripBelow40(androidKeyCode: int)
    requires androidKeyCode < 40 && AndroidToXkbKeycode(androidKeyCode) != 0
    ensures LinuxCodeToAndroid(AndroidToXkbKeycode(androidKeyCode) - XkbOffset) == Some(androidKeyCode)
  {
  }

  /** The round trip for the keys whose codes are in 40..69. */
  lemma XkbKeycodeRoundTripBelow70(androidKeyCode: int)
    requires 40 <= androidKeyCode < 70 && AndroidToXkbKeycode(androidKeyCode) != 0
    ensures LinuxCodeToAndroid(AndroidToXkbKeycode(androidKeyCode) - XkbOffset) == Some(androidKeyCode)
  {
  }

  /** The round trip for the keys whose codes are 70 or more. */
  lemma XkbKeycodeRoundTripFrom70(androidKeyCode: int)
    requires 70 <= androidKeyCode && AndroidToXkbKeycode(androidKeyCode) != 0
    ensures LinuxCodeToAndroid(AndroidToXkbKeycode(androidKeyCode) - XkbOffset) == Some(androidKeyCode)
  {
  }

  lemma XkbKeycodeInjective(k1: int, k2: int)
    requires AndroidToXkbKeycode(k1) != 0
    requires AndroidToXkbKeycode(k1) == AndroidToXkbKeycode(k2)
    ensures k1 == k2
  {
    XkbKeycodeRoundTrip(k1);
    XkbKeycodeRoundTrip(k2);
  }

  /** The `switch` of `androidToKeysym`: the keysym of a non-printing key, when it has one. */
  function SpecialKeysym(androidKeyCode: int): (r: Option<nat>)
    ensures r.Some? ==> 0xff00 <= r.value <= 0xffff
  {
    if androidKeyCode == AKEYCODE_ENTER then Some(XKB_KEY_Return)
    else if androidKeyCode == AKEYCODE_DEL then Some(XKB_KEY_BackSpace)
    else if androidKeyCode == AKEYCODE_FORWARD_DEL then Some(XKB_KEY_Delete)
    else if androidKeyCode == AKEYCODE_ESCAPE then Some(XKB_KEY_Escape)
    else if androidKeyCode == AKEYCODE_TAB then Some(XKB_KEY_Tab)
    else if androidKeyCode == AKEYCODE_DPAD_UP then Some(XKB_KEY_Up)
    else if androidKeyCode == AKEYCODE_DPAD_DOWN then Some(XKB_KEY_Down)
    else if androidKeyCode == AKEYCODE_DPAD_LEFT then Some(XKB_KEY_Left)
    else if androidKeyCode == AKEYCODE_DPAD_RIGHT then Some(XKB_KEY_Right)
    else if androidKeyCode == AKEYCODE_MOVE_HOME then Some(XKB_KEY_Home)
    else if androidKeyCode == AKEYCODE_MOVE_END then Some(XKB_KEY_End)
    else if androidKeyCode == AKEYCODE_PAGE_UP then Some(XKB_KEY_Page_Up)
    else if androidKeyCode == AKEYCODE_PAGE_DOWN then Some(XKB_KEY_Page_Down)
    else if androidKeyCode == AKEYCODE_INSERT then Some(XKB_KEY_Insert)
    else if androidKeyCode == AKEYCODE_SHIFT_LEFT then Some(XKB_KEY_Shift_L)
    else if androidKeyCode == AKEYCODE_SHIFT_RIGHT then Some(XKB_KEY_Shift_R)
    else if androidKeyCode == AKEYCODE_CTRL_LEFT then Some(XKB_KEY_Control_L)
    else if androidKeyCode == AKEYCODE_CTRL_RIGHT then Some(XKB_KEY_Control_R)
    else if androidKeyCode == AKEYCODE_ALT_LEFT then Some(XKB_KEY_Alt_L)
    else if androidKeyCode == AKEYCODE_ALT_RIGHT then Some(XKB_KEY_Alt_R)
    else if androidKeyCode == AKEYCODE_META_LEFT then Some(XKB_KEY_Meta_L)
    else if androidKeyCode == AKEYCODE_META_RIGHT then Some(XKB_KEY_Meta_R)
    else if androidKeyCode == AKEYCODE_CAPS_LOCK then Some(XKB_KEY_Caps_Lock)
    else if androidKeyCode == AKEYCODE_F1 then Some(XKB_KEY_F1)
    else if androidKeyCode == AKEYCODE_F2 then Some(XKB_KEY_F2)
    else if androidKeyCode == AKEYCODE_F3 then Some(XKB_KEY_F3)
    else if androidKeyCode == AKEYCODE_F4 then Some(XKB_KEY_F4)
    else if androidKeyCode == AKEYCODE_F5 then Some(XKB_KEY_F5)
    else if androidKeyCode == AKEYCODE_F6 then Some(XKB_KEY_F6)
    else if androidKeyCode == AKEYCODE_F7 then Some(XKB_KEY_F7)
    else if androidKeyCode == AKEYCODE_F8 then Some(XKB_KEY_F8)
    else if androidKeyCode == AKEYCODE_F9 then Some(XKB_KEY_F9)
    else if androidKeyCode == AKEYCODE_F10 then Some(XKB_KEY_F10)
    else if androidKeyCode == AKEYCODE_F11 then Some(XKB_KEY_F11)
    else if androidKeyCode == AKEYCODE_F12 then Some(XKB_KEY_F12)
    else None
  }

  /**
   * `androidToKeysym`: printable ASCII is its own keysym; otherwise the keysym
   * of a special key; otherwise the Unicode character when positive, else 0.
   */
  function AndroidToKeysym(androidKeyCode: int, unicodeChar: int): (r: nat)
    ensures 0x20 <= unicodeChar <= 0x7f ==> r == unicodeChar
    ensures !(0x20 <= unicodeChar <= 0x7f) && SpecialKeysym(androidKeyCode).Some? ==> r == SpecialKeysym(androidKeyCode).value
    ensures !(0x20 <= unicodeChar <= 0x7f) && SpecialKeysym(androidKeyCode).None? ==>
              r == (if unicodeChar > 0 then unicodeChar else 0)
  {
    if 0x20 <= unicodeChar <= 0x7f then unicodeChar
    else match SpecialKeysym(androidKeyCode)
      case Some(sym) => sym
      case None => if unicodeChar > 0 then unicodeChar else 0
  }

  /** The reverse of the special-key table, written independently. */
  function KeysymToAndroid(keysym: int): Option<int>
  {
    if keysym == XKB_KEY_BackSpace then Some(AKEYCODE_DEL)
    else if keysym == XKB_KEY_Tab then Some(AKEYCODE_TAB)
    else if keysym == XKB_KEY_Return then Some(AKEYCODE_ENTER)
    else if keysym == XKB_KEY_Escape then Some(AKEYCODE_ESCAPE)
    else if keysym == XKB_KEY_Home then Some(AKEYCODE_MOVE_HOME)
    else if keysym == XKB_KEY_Left then Some(AKEYCODE_DPAD_LEFT)
    else if keysym == XKB_KEY_Up then Some(AKEYCODE_DPAD_UP)
    else if keysym == XKB_KEY_Right then Some(AKEYCODE_DPAD_RIGHT)
    else if keysym == XKB_KEY_Down then Some(AKEYCODE_DPAD_DOWN)
    else if keysym == XKB_KEY_Page_Up then Some(AKEYCODE_PAGE_UP)
    else if keysym == XKB_KEY_Page_Down then Some(AKEYCODE_PAGE_DOWN)
    else if keysym == XKB_KEY_End then Some(AKEYCODE_MOVE_END)
    else if keysym == XKB_KEY_Insert then Some(AKEYCODE_INSERT)
    else if keysym == XKB_KEY_F1 then Some(AKEYCODE_F1)
    else if keysym == XKB_KEY_F2 then Some(AKEYCODE_F2)
    else if keysym == XKB_KEY_F3 then Some(AKEYCODE_F3)
    else if keysym == XKB_KEY_F4 then Some(AKEYCODE_F4)
    else if keysym == XKB_KEY_F5 then Some(AKEYCODE_F5)
    else if keysym == XKB_KEY_F6 then Some(AKEYCODE_F6)
    else if keysym == XKB_KEY_F7 then Some(AKEYCODE_F7)
    else if keysym == XKB_KEY_F8 then Some(AKEYCODE_F8)
    else if keysym == XKB_KEY_F9 then Some(AKEYCODE_F9)
    else if keysym == XKB_KEY_F10 then Some(AKEYCODE_F10)
    else if keysym == XKB_KEY_F11 then Some(AKEYCODE_F11)
    else if keysym == XKB_KEY_F12 then Some(AKEYCODE_F12)
    else if keysym == XKB_KEY_Shift_L then Some(AKEYCODE_SHIFT_LEFT)
    else if keysym == XKB_KEY_Shift_R then Some(AKEYCODE_SHIFT_RIGHT)
    else if keysym == XKB_KEY_Control_L then Some(AKEYCODE_CTRL_LEFT)
    else if keysym == XKB_KEY_Control_R then Some(AKEYCODE_CTRL_RIGHT)
    else if keysym == XKB_KEY_Caps_Lock then Some(AKEYCODE_CAPS_LOCK)
    else if keysym == XKB_KEY_Meta_L then Some(AKEYCODE_META_LEFT)
    else if keysym == XKB_KEY_Meta_R then Some(AKEYCODE_META_RIGHT)
    else if keysym == XKB_KEY_Alt_L then Some(AKEYCODE_ALT_LEFT)
    else if keysym == XKB_KEY_Alt_R then Some(AKEYCODE_ALT_RIGHT)
    else if keysym == XKB_KEY_Delete then Some(AKEYCODE_FORWARD_DEL)
    else None
  }

  /** No two special keys share a keysym. */
  lemma SpecialKeysymRoundTrip(androidKeyCode: int)
    requires SpecialKeysym(androidKeyCode).Some?
    ensures KeysymToAndroid(SpecialKeysym(androidKeyCode).value) == Some(androidKeyCode)
  {
  }

  /** Every key that has a special keysym also has an XKB keycode, so key events for it carry both. */
  lemma SpecialKeysHaveKeycodes(androidKeyCode: int)
    requires SpecialKeysym(androidKeyCode).Some?
    ensures AndroidToXkbKeycode(androidKeyCode) != 0
  {
  }

  /** For a non-printing character, a special key's keysym never collides with a printable one. */
  lemma SpecialKeysymNotPrintable(androidKeyCode: int, unicodeChar: int)
    requires !(0x20 <= unicodeChar <= 0x7f) && SpecialKeysym(androidKeyCode).Some?
    ensures AndroidToKeysym(androidKeyCode, unicodeChar) >= 0xff00
  {
  }

  // Android meta-state flags (android/input.h).
  const AMETA_SHIFT_ON: bv32 := 0x01
  const AMETA_ALT_ON: bv32 := 0x02
  const AMETA_CTRL_ON: bv32 := 0x1000
  const AMETA_META_ON: bv32 := 0x10000
  const AMETA_CAPS_LOCK_ON: bv32 := 0x100000

  // WPE Platform keyboard modifier flags (WPEModifiers).
  const WPE_MODIFIER_KEYBOARD_CONTROL: bv32 := 1
  const WPE_MODIFIER_KEYBOARD_SHIFT: bv32 := 2
  const WPE_MODIFIER_KEYBOARD_ALT: bv32 := 4
  const WPE_MODIFIER_KEYBOARD_META: bv32 := 8
  const WPE_MODIFIER_KEYBOARD_CAPS_LOCK: bv32 := 16

  function SetIf(mods: bv32, cond: bool, flag: bv32): bv32
  {
    if cond then mods | flag else mods
  }

  /**
   * `androidToWpeModifiers`: each WPE modifier is set exactly when its Android
   * meta flag is set, and nothing else is set.
   */
  function AndroidToWpeModifiers(metaState: bv32): (r: bv32)
    ensures (r & WPE_MODIFIER_KEYBOARD_CONTROL != 0) <==> (metaState & AMETA_CTRL_ON != 0)
    ensures (r & WPE_MODIFIER_KEYBOARD_SHIFT != 0) <==> (metaState & AMETA_SHIFT_ON != 0)
    ensures (r & WPE_MODIFIER_KEYBOARD_ALT != 0) <==> (metaState & AMETA_ALT_ON != 0)
    ensures (r & WPE_MODIFIER_KEYBOARD_META != 0) <==> (metaState & AMETA_META_ON != 0)
    ensures (r & WPE_MODIFIER_KEYBOARD_CAPS_LOCK != 0) <==> (metaState & AMETA_CAPS_LOCK_ON != 0)
    ensures r & !0x1f == 0
  {
    var mods: bv32 := 0;
    var mods := SetIf(mods, metaState & AMETA_CTRL_ON != 0, WPE_MODIFIER_KEYBOARD_CONTROL);
    var mods := SetIf(mods, metaState & AMETA_SHIFT_ON != 0, WPE_MODIFIER_KEYBOARD_SHIFT);
    var mods := SetIf(mods, metaState & AMETA_ALT_ON != 0, WPE_MODIFIER_KEYBOARD_ALT);
    var mods := SetIf(mods, metaState & AMETA_META_ON != 0, WPE_MODIFIER_KEYBOARD_META);
    SetIf(mods, metaState & AMETA_CAPS_LOCK_ON != 0, WPE_MODIFIER_KEYBOARD_CAPS_LOCK)
  }

  /** Translating two meta states pressed together is the union of their translations. */
  lemma ModifiersDistributeOverUnion(a: bv32, b: bv32)
    ensures AndroidToWpeModifiers(a | b) == AndroidToWpeModifiers(a) | AndroidToWpeModifiers(b)
  {
  }
}
