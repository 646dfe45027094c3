/**
 * What the input layers ask of the enigo crate: the buttons and keys it
 * knows and the calls made to it, recorded in order as effects. The
 * injection itself belongs to the operating system and is not modelled.
 */
module Enigo {
  /** enigo's mouse buttons, as far as the application uses them. */
  datatype Button = Left | Right | Middle

  /** enigo's keys, as far as the application uses them. */
  datatype Key =
    | Unicode(c: char)
    | Return | Tab | Backspace | Delete | Escape
    | UpArrow | DownArrow | LeftArrow | RightArrow
    | Shift | Control | Alt | Meta
    | F1 | F2 | F3 | F4 | F5 | F6 | F7 | F8 | F9 | F10 | F11 | F12
    | Home | End | PageUp | PageDown

  /** One call into enigo: an absolute move, a button or key going down or up, a vertical scroll, typed text. */
  datatype Effect =
    | MoveTo(x: int, y: int)
    | ButtonDown(button: Button)
    | ButtonUp(button: Button)
    | KeyDown(key: Key)
    | KeyUp(key: Key)
    | ScrollBy(amount: int)
    | TypeText(text: string)

  const I32Min: int := -0x8000_0000
  const I32Max: int := 0x7FFF_FFFF

  /** Rust's `as i32` from a float: truncation toward zero, saturating at the bounds. */
  function TruncReal(v: real): (n: int)
    ensures v >= 0.0 ==> n as real <= v < n as real + 1.0
    ensures v < 0.0 ==> n as real - 1.0 < v <= n as real
  {
    if v >= 0.0 then v.Floor else -((-v).Floor)
  }

  function ClampI32(n: int): (r: int)
    ensures I32Min <= r <= I32Max
    ensures I32Min <= n <= I32Max ==> r == n
  {
    if n < I32Min then I32Min else if n > I32Max then I32Max else n
  }

  /**
   * A coordinate scaled by the mouse acceleration and cast back to i32:
   * truncated toward zero and kept in the i32 range; with acceleration 1
   * an i32 coordinate is unchanged.
   */
  function Scale(v: int, acceleration: real): (r: int)
    ensures I32Min <= r <= I32Max
    ensures acceleration == 1.0 && I32Min <= v <= I32Max ==> r == v
    ensures v >= 0 && acceleration >= 0.0 ==> r >= 0
  {
    ClampI32(TruncReal(v as real * acceleration))
  }
}

/**
 * The basic input manager (`InputManager`): string-typed events from the
 * client dispatched to enigo, with the button, scroll and key names
 * parsed here.
 */
module Input {
  import opened Text
  import opened Enigo

  datatype InputConfig = InputConfig(
    enableMouse: bool,
    enableKeyboard: bool,
    mouseAcceleration: real,
    keyboardRepeatDelayMs: nat)

  /** InputConfig::default. */
  const DefaultConfig: InputConfig := InputConfig(true, true, 1.0, 100)

  const MouseEventNames: set<string> := {"mouse_move", "mouse_click", "mouse_scroll"}
  const KeyEventNames: set<string> := {"key_press", "key_type"}

  // ------------------------------------------------------------- key names

  predicate IsLowerAscii(c: char) { 'a' <= c <= 'z' }

  /**
   * The key-name table of parse_key, keyed by the lower-cased name: the
   * letters and digits stand for themselves, then the named keys.
   */
  function KeyName(l: string): (k: Option<Key>)
    ensures |l| == 1 ==> (k.Some? <==> IsLowerAscii(l[0]) || IsDigit(l[0]))
    ensures |l| == 1 && k.Some? ==> k.value == Unicode(l[0])
  {
    if |l| == 1 && (IsLowerAscii(l[0]) || IsDigit(l[0])) then Some(Unicode(l[0]))
    else if l == "space" then Some(Unicode(' '))
    else if l == "enter" || l == "return" then Some(Return)
    else if l == "tab" then Some(Tab)
    else if l == "backspace" then Some(Backspace)
    else if l == "delete" then Some(Delete)
    else if l == "escape" || l == "esc" then Some(Escape)
    else if l == "up" then Some(UpArrow)
    else if l == "down" then Some(DownArrow)
    else if l == "left" then Some(LeftArrow)
    else if l == "right" then Some(RightArrow)
    else if l == "shift" then Some(Shift)
    else if l == "ctrl" || l == "control" then Some(Control)
    else if l == "alt" then Some(Alt)
    else if l == "meta" || l == "cmd" || l == "super" then Some(Meta)
    else if l == "f1" then Some(F1)
    else if l == "f2" then Some(F2)
    else if l == "f3" then Some(F3)
    else if l == "f4" then Some(F4)
    else if l == "f5" then Some(F5)
    else if l == "f6" then Some(F6)
    else if l == "f7" then Some(F7)
    else if l == "f8" then Some(F8)
    else if l == "f9" then Some(F9)
    else if l == "f10" then Some(F10)
    else if l == "f11" then Some(F11)
    else if l == "f12" then Some(F12)
    else if l == "home" then Some(Home)
    else if l == "end" then Some(End)
    else if l == "pageup" then Some(PageUp)
    else if l == "pagedown" then Some(PageDown)
    else None
  }

  function UnknownKeyError(keyStr: string): string
  {
    "Unknown key: " + keyStr
  }

  /**
   * A key string resolved through a name table: the table entry for its
   * lower-cased form, else the character itself when the string is one
   * byte long, else an error. parse_key and convert_key share this shape
   * and differ only in the table.
   */
  function LookupKey(table: string -> Option<Key>, keyStr: string): Result<Key>
  {
    match table(ToLower(keyStr))
    case Some(k) => Ok(k)
    case None =>
      if Utf8Len(keyStr) == 1 then Ok(Unicode(keyStr[0])) else Err(UnknownKeyError(keyStr))
  }

  lemma LowerCharIdempotent(c: char)
    ensures LowerChar(LowerChar(c)) == LowerChar(c)
    ensures LowerChar(c) as int < 0x80 <==> c as int < 0x80
  {
  }

  lemma ToLowerIdempotent(s: string)
    ensures ToLower(ToLower(s)) == ToLower(s)
  {
    forall i | 0 <= i < |s|
      ensures ToLower(ToLower(s))[i] == ToLower(s)[i]
    {
      LowerCharIdempotent(s[i]);
    }
  }

  /**
   * parse_key: the table is matched case-insensitively; a string of one
   * byte that is not in it becomes that character; anything else is an
   * "Unknown key" error. A single ASCII letter resolves to its lower case.
   */
  function ParseKey(keyStr: string): (r: Result<Key>)
    ensures r.Err? <==> KeyName(ToLower(keyStr)).None? && Utf8Len(keyStr) != 1
    ensures r.Err? ==> r.error == UnknownKeyError(keyStr)
    ensures KeyName(ToLower(keyStr)).Some? ==> r == Ok(KeyName(ToLower(keyStr)).value)
    ensures Utf8Len(keyStr) == 1 ==> r == Ok(Unicode(LowerChar(keyStr[0])))
  {
    Utf8LenOne(keyStr);
    LookupKey(KeyName, keyStr)
  }

  /** parse_key ignores case: a name and its lower-cased form resolve alike. */
  lemma ParseKeyIgnoresCase(keyStr: string)
    ensures ParseKey(ToLower(keyStr)).Ok? <==> ParseKey(keyStr).Ok?
    ensures ParseKey(keyStr).Ok? ==> ParseKey(ToLower(keyStr)) == ParseKey(keyStr)
  {
    ToLowerIdempotent(keyStr);
    Utf8LenOne(keyStr);
    Utf8LenOne(ToLower(keyStr));
    if |keyStr| == 1 {
      LowerCharIdempotent(keyStr[0]);
    }
  }

  // ------------------------------------------------------------- buttons and scrolling

  /** The click button: "left", "right" or "middle"; any other text means the left button. */
  function ParseButton(data: string): (b: Button)
    ensures b == Right <==> data == "right"
    ensures b == Middle <==> data == "middle"
    ensures b == Left <==> data != "right" && data != "middle"
  {
    if data == "left" then Left
    else if data == "right" then Right
    else if data == "middle" then Middle
    else Left
  }

  /** An i32 parse of the amount, 1 when it does not parse. */
  function ScrollAmount(rest: string): (n: int)
    ensures I32Min <= n <= I32Max
    ensures ParseSigned(rest, I32Max).None? ==> n == 1
  {
    match ParseSigned(rest, I32Max)
    case Some(v) => v
    case None => 1
  }

  /**
   * The scroll direction and amount: "up" then an amount scrolls up,
   * "down" then an amount scrolls down, anything else gives (0, 0).
   */
  function ParseScroll(data: string): (r: (int, int))
    ensures r.0 == 1 <==> StartsWith(data, "up")
    ensures r.0 == -1 <==> StartsWith(data, "down")
    ensures r.0 == 0 <==> !StartsWith(data, "up") && !StartsWith(data, "down")
    ensures r.0 == 0 ==> r.1 == 0
    ensures r.0 != 0 ==> I32Min <= r.1 <= I32Max
  {
    if StartsWith(data, "up") then
      assert data[0] == data[..2][0] == 'u';
      (1, ScrollAmount(data[2..]))
    else if StartsWith(data, "down") then (-1, ScrollAmount(data[4..]))
    else (0, 0)
  }

  /** send_mouse_scroll: one vertical scroll by direction times amount, or none. */
  function ScrollEffects(data: string): seq<Effect>
  {
    var (direction, amount) := ParseScroll(data);
    if direction != 0 then [ScrollBy(direction * amount)] else []
  }

  /** "up<n>" scrolls by n and "down<n>" by -n; "up" and "down" alone scroll by one; other text does not scroll. */
  lemma ScrollText(n: nat, other: string)
    requires n <= I32Max
    requires !StartsWith(other, "up") && !StartsWith(other, "down")
    ensures ScrollEffects("up" + NatToString(n)) == [ScrollBy(n)]
    ensures ScrollEffects("down" + NatToString(n)) == [ScrollBy(-(n as int))]
    ensures ScrollEffects("up") == [ScrollBy(1)] && ScrollEffects("down") == [ScrollBy(-1)]
    ensures ScrollEffects(other) == []
  {
    ScrollUp(n);
    ScrollDown(n);
    ScrollBare();
  }

  lemma ScrollUp(n: nat)
    requires n <= I32Max
    ensures ScrollEffects("up" + NatToString(n)) == [ScrollBy(n)]
  {
    var d := NatToString(n);
    NatToStringValue(n);
    assert ParseSigned(d, I32Max) == Some(n);
    var u := "up" + d;
    assert u[..2] == "up" && u[2..] == d;
  }

  lemma ScrollDown(n: nat)
    requires n <= I32Max
    ensures ScrollEffects("down" + NatToString(n)) == [ScrollBy(-(n as int))]
  {
    var d := NatToString(n);
    var w := "down" + d;
    assert w[4..] == d;
    assert StartsWith(w, "down") && !StartsWith(w, "up") by {
      assert w[..4] == "down" && w[0] == 'd';
    }
    assert ParseSigned(d, I32Max) == Some(n) by { NatToStringValue(n); }
    assert ParseScroll(w) == (-1, n);
  }

  lemma ScrollBare()
    ensures ScrollEffects("up") == [ScrollBy(1)] && ScrollEffects("down") == [ScrollBy(-1)]
  {
    assert "up"[2..] == [];
    assert "down"[4..] == [];
  }

  // ------------------------------------------------------------- dispatch

  /** send_mouse_move: one absolute move to the scaled coordinates. */
  function MoveEffects(config: InputConfig, x: int, y: int): seq<Effect>
  {
    [MoveTo(Scale(x, config.mouseAcceleration), Scale(y, config.mouseAcceleration))]
  }

  /**
   * send_input: what one event asks of enigo. Mouse events are skipped
   * when the mouse is disabled and key events when the keyboard is; an
   * unknown event type is ignored; the only error is a key name
   * parse_key cannot resolve, and then nothing is sent.
   */
  function SendInputEffects(config: InputConfig, x: int, y: int, eventType: string, data: string): (r: Result<seq<Effect>>)
    ensures r.Err? <==> eventType == "key_press" && config.enableKeyboard && ParseKey(data).Err?
    ensures r.Err? ==> r.error == UnknownKeyError(data)
    ensures eventType !in MouseEventNames && eventType !in KeyEventNames ==> r == Ok([])
    ensures eventType in MouseEventNames && !config.enableMouse ==> r == Ok([])
    ensures eventType in KeyEventNames && !config.enableKeyboard ==> r == Ok([])
    ensures eventType == "mouse_click" && config.enableMouse ==>
      r == Ok(MoveEffects(config, x, y) + [ButtonDown(ParseButton(data)), ButtonUp(ParseButton(data))])
    ensures eventType == "key_press" && config.enableKeyboard && ParseKey(data).Ok? ==>
      r == Ok([KeyDown(ParseKey(data).value), KeyUp(ParseKey(data).value)])
  {
    if eventType == "mouse_move" then
      Ok(if config.enableMouse then MoveEffects(config, x, y) else [])
    else if eventType == "mouse_click" then
      var b := ParseButton(data);
      Ok(if config.enableMouse then MoveEffects(config, x, y) + [ButtonDown(b), ButtonUp(b)] else [])
    else if eventType == "mouse_scroll" then
      Ok(if config.enableMouse then ScrollEffects(data) else [])
    else if eventType == "key_press" then
      if !config.enableKeyboard then Ok([])
      else match ParseKey(data)
        case Err(e) => Err(e)
        case Ok(k) => Ok([KeyDown(k), KeyUp(k)])
    else if eventType == "key_type" then
      Ok(if config.enableKeyboard then [TypeText(data)] else [])
    else
      Ok([])
  }

  /** The input manager: its configuration and the calls made to enigo so far. */
  class InputManager {
    var config: InputConfig
    var effects: seq<Effect>

    constructor()
      ensures config == DefaultConfig && effects == []
    {
      config := DefaultConfig;
      effects := [];
    }

    /** send_input: the event's calls are made, or on a key-name error none are. */
    method SendInput(x: int, y: int, eventType: string, data: string) returns (r: Result<()>)
      modifies this
      ensures config == old(config)
      ensures var e := SendInputEffects(config, x, y, eventType, data);
        (e.Err? ==> r == Err(e.error) && effects == old(effects))
        && (e.Ok? ==> r == Ok(()) && effects == old(effects) + e.value)
    {
      var e := SendInputEffects(config, x, y, eventType, data);
      if e.Err? {
        return Err(e.error);
      }
      effects := effects + e.value;
      return Ok(());
    }

    method UpdateConfig(newConfig: InputConfig) returns (r: Result<()>)
      modifies this
      ensures r == Ok(()) && config == newConfig && effects == old(effects)
    {
      config := newConfig;
      return Ok(());
    }

    method GetConfig() returns (r: InputConfig)
      ensures r == config
    {
      r := config;
    }

    /** is_input_available always answers yes. */
    method IsInputAvailable() returns (b: bool)
      ensures b
    {
      b := true;
    }
  }
}
