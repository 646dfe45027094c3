/**
 * The enhanced input manager (`EnhancedInputManager`): typed mouse and
 * keyboard events turned into enigo calls, with the mouse state (last
 * position, the last click, pressed buttons, a drag in progress) and the
 * keyboard state (pressed keys, modifiers, the last key time).
 *
 * Instants are millisecond counts supplied by the caller; the calls made
 * to enigo are recorded in order as effects.
 */
module EnhancedInput {
  import opened Text
  import opened Enigo
  import Input
  import Tiling

  datatype MouseEventType = Move | Press | Release | Click | DoubleClick | Scroll | Drag

  datatype MouseButtonType = LeftButton | RightButton | MiddleButton | X1 | X2

  datatype KeyboardEventType = KeyDownEvent | KeyUpEvent | KeyPressEvent | TextInputEvent

  datatype KeyModifier = Ctrl | AltModifier | ShiftModifier | MetaModifier | Super

  /** The modifiers of a mouse event are carried but never read. */
  datatype MouseEvent = MouseEvent(
    x: int, y: int,
    eventType: MouseEventType,
    button: Option<MouseButtonType>,
    delta: Option<int>,
    modifiers: seq<KeyModifier>)

  /** The key code is carried but never read. */
  datatype KeyboardEvent = KeyboardEvent(
    eventType: KeyboardEventType,
    key: Option<string>,
    keyCode: Option<nat>,
    text: Option<string>,
    modifiers: seq<KeyModifier>)

  datatype InputConfig = InputConfig(
    enableMouse: bool,
    enableKeyboard: bool,
    mouseAcceleration: real,
    doubleClickSpeedMs: nat,
    keyRepeatDelayMs: nat,
    keyRepeatRateMs: nat,
    smoothMouseMovement: bool)

  /** InputConfig::default. */
  const DefaultConfig: InputConfig := InputConfig(true, true, 1.0, 500, 250, 33, true)

  datatype DragState = DragState(
    startPosition: (int, int),
    currentPosition: (int, int),
    button: MouseButtonType,
    startedAtMs: nat)

  /** The pressed-button map only ever holds `true`, so it is a set. */
  datatype MouseState = MouseState(
    lastPosition: (int, int),
    lastClickTimeMs: Option<nat>,
    lastClickPosition: Option<(int, int)>,
    pressedButtons: set<MouseButtonType>,
    dragState: Option<DragState>)

  /** The pressed-key map only ever holds `true`, so it is a set of the key names as received. */
  datatype KeyboardState = KeyboardState(
    pressedKeys: set<string>,
    activeModifiers: seq<KeyModifier>,
    lastKeyTimeMs: Option<nat>)

  const InitialMouse: MouseState := MouseState((0, 0), None, None, {}, None)
  const InitialKeyboard: KeyboardState := KeyboardState({}, [], None)

  datatype InputStats = InputStats(
    mousePosition: (int, int),
    pressedMouseButtons: nat,
    pressedKeys: nat,
    isDragging: bool,
    activeModifiers: seq<KeyModifier>)

  // ------------------------------------------------------------- conversions

  /** convert_mouse_button: the two extra buttons fall back to the left one. */
  function ToEnigoButton(b: MouseButtonType): (e: Button)
    ensures e == Left <==> b in {LeftButton, X1, X2}
    ensures e == Right <==> b == RightButton
    ensures e == Middle <==> b == MiddleButton
  {
    match b
    case LeftButton => Left
    case RightButton => Right
    case MiddleButton => Middle
    case X1 => Left
    case X2 => Left
  }

  /** The key a modifier presses: Meta and Super are the same key. */
  function ModifierKey(m: KeyModifier): (k: Key)
    ensures k in {Control, Alt, Shift, Meta}
    ensures k == Meta <==> m in {MetaModifier, Super}
  {
    match m
    case Ctrl => Control
    case AltModifier => Alt
    case ShiftModifier => Shift
    case MetaModifier => Meta
    case Super => Meta
  }

  /** convert_key's table: parse_key's, plus the "arrowup"-style names for the arrow keys. */
  function EnhancedKeyName(l: string): (k: Option<Key>)
    ensures Input.KeyName(l).Some? ==> k == Input.KeyName(l)
    ensures |l| == 1 ==> k == Input.KeyName(l)
  {
    match Input.KeyName(l)
    case Some(k) => Some(k)
    case None =>
      if l == "arrowup" then Some(UpArrow)
      else if l == "arrowdown" then Some(DownArrow)
      else if l == "arrowleft" then Some(LeftArrow)
      else if l == "arrowright" then Some(RightArrow)
      else None
  }

  /**
   * convert_key: the table is matched case-insensitively; a string of one
   * byte that is not in it becomes that character; anything else is an
   * "Unknown key" error.
   */
  function ConvertKey(keyStr: string): (r: Result<Key>)
    ensures r.Err? <==> EnhancedKeyName(ToLower(keyStr)).None? && Utf8Len(keyStr) != 1
    ensures r.Err? ==> r.error == Input.UnknownKeyError(keyStr)
    ensures EnhancedKeyName(ToLower(keyStr)).Some? ==> r == Ok(EnhancedKeyName(ToLower(keyStr)).value)
    ensures Utf8Len(keyStr) == 1 ==> r == Ok(Unicode(LowerChar(keyStr[0])))
  {
    Utf8LenOne(keyStr);
    Input.LookupKey(EnhancedKeyName, keyStr)
  }

  /**
   * convert_key accepts every name parse_key accepts and resolves it to
   * the same key; it also accepts the "arrow…" names, which parse_key
   * rejects.
   */
  lemma ConvertKeyExtendsParseKey(keyStr: string)
    ensures Input.ParseKey(keyStr).Ok? ==> ConvertKey(keyStr) == Input.ParseKey(keyStr)
    ensures ConvertKey("ArrowUp") == Ok(UpArrow) && Input.ParseKey("ArrowUp").Err?
  {
    Utf8LenOne(keyStr);
    ArrowUpName();
  }

  lemma ArrowUpName()
    ensures ConvertKey("ArrowUp") == Ok(UpArrow) && Input.ParseKey("ArrowUp").Err?
  {
    assert ToLower("ArrowUp") == "arrowup";
    assert Utf8Len("ArrowUp") != 1 by { Utf8LenOne("ArrowUp"); }
  }

  // ------------------------------------------------------------- the mouse

  /** The elapsed milliseconds between two instants, zero when `now` is not later. */
  function Elapsed(sinceMs: nat, nowMs: nat): nat
  {
    if nowMs >= sinceMs then nowMs - sinceMs else 0
  }

  /**
   * A click is a double click when a previous click is recorded, less
   * than double_click_speed ms ago and less than 5 pixels away (squared
   * distance below 25).
   */
  predicate IsDoubleClick(config: InputConfig, m: MouseState, x: int, y: int, nowMs: nat)
  {
    m.lastClickTimeMs.Some? && m.lastClickPosition.Some?
    && Elapsed(m.lastClickTimeMs.value, nowMs) < config.doubleClickSpeedMs
    && (x - m.lastClickPosition.value.0) * (x - m.lastClickPosition.value.0)
       + (y - m.lastClickPosition.value.1) * (y - m.lastClickPosition.value.1) < 25
  }

  function ClickEffects(x: int, y: int, b: MouseButtonType): seq<Effect>
  {
    [MoveTo(x, y), ButtonDown(ToEnigoButton(b)), ButtonUp(ToEnigoButton(b))]
  }

  /** handle_mouse_double_click: a move, then two press-release pairs. */
  function DoubleClickEffects(x: int, y: int, b: MouseButtonType): (e: seq<Effect>)
    ensures |e| == 5 && e[0] == MoveTo(x, y)
    ensures e[1] == e[3] == ButtonDown(ToEnigoButton(b)) && e[2] == e[4] == ButtonUp(ToEnigoButton(b))
  {
    ClickEffects(x, y, b) + [ButtonDown(ToEnigoButton(b)), ButtonUp(ToEnigoButton(b))]
  }

  /** Division truncating toward zero, as an f64 product cast to i32 rounds. */
  function TruncDiv(n: int, d: nat): int
    requires d > 0
  {
    if n >= 0 then n / d else -((-n) / d)
  }

  function Abs(n: int): nat { if n < 0 then -n else n }

  function Max(a: nat, b: nat): nat { if a >= b then a else b }

  /** The number of intermediate moves of a smooth move: a tenth of the longer axis distance, at least one. */
  function SmoothSteps(from: (int, int), to: (int, int)): (s: nat)
    ensures s >= 1
  {
    Max(Max(Abs(to.0 - from.0), Abs(to.1 - from.1)) / 10, 1)
  }

  /** The i-th point of a smooth move, i of `steps`: the fraction i/steps of the way, truncated toward the start. */
  function SmoothPoint(from: (int, int), to: (int, int), steps: nat, i: nat): (int, int)
    requires steps > 0
  {
    (from.0 + TruncDiv((to.0 - from.0) * i, steps), from.1 + TruncDiv((to.1 - from.1) * i, steps))
  }

  /** The moves of a smooth move from the last position to the target. */
  function SmoothPath(from: (int, int), to: (int, int)): seq<Effect>
  {
    var steps := SmoothSteps(from, to);
    seq(steps, k requires 0 <= k < steps =>
      MoveTo(SmoothPoint(from, to, steps, k + 1).0, SmoothPoint(from, to, steps, k + 1).1))
  }

  lemma MulDivCancel(a: nat, d: nat)
    requires d > 0
    ensures (a * d) / d == a
  {
    Tiling.DivUnique(a * d, d, a, 0);
  }

  /** For 0 <= i <= d, the share (a * i) / d of a lies between 0 and a. */
  lemma MulDivBounds(a: nat, i: nat, d: nat)
    requires 0 < d && i <= d
    ensures 0 <= (a * i) / d <= a
  {
    var q := (a * i) / d;
    assert q * d <= a * i;
    Tiling.MulLe(i, d, a);
    if q > a {
      Tiling.MulLe(a + 1, q, d);
    }
  }

  lemma TruncDivBounds(n: int, i: nat, d: nat)
    requires 0 < d && i <= d
    ensures n >= 0 ==> 0 <= TruncDiv(n * i, d) <= n
    ensures n < 0 ==> n <= TruncDiv(n * i, d) <= 0
    ensures i == d ==> TruncDiv(n * i, d) == n
  {
    if n >= 0 {
      MulDivBounds(n, i, d);
      if i == d {
        MulDivCancel(n, d);
      }
    } else {
      assert -(n * i) == (-n) * i;
      MulDivBounds(-n, i, d);
      if i == d {
        MulDivCancel(-n, d);
      }
    }
  }

  /**
   * A smooth move makes SmoothSteps moves, each within the rectangle
   * spanned by the start and the target, and the last lands exactly on
   * the target.
   */
  lemma SmoothPathFacts(from: (int, int), to: (int, int))
    ensures |SmoothPath(from, to)| == SmoothSteps(from, to)
    ensures SmoothPath(from, to)[|SmoothPath(from, to)| - 1] == MoveTo(to.0, to.1)
    ensures forall k :: 0 <= k < |SmoothPath(from, to)| ==>
      Between(SmoothPath(from, to)[k].x, from.0, to.0) && Between(SmoothPath(from, to)[k].y, from.1, to.1)
  {
    var steps := SmoothSteps(from, to);
    var path := SmoothPath(from, to);
    TruncDivBounds(to.0 - from.0, steps, steps);
    TruncDivBounds(to.1 - from.1, steps, steps);
    forall k | 0 <= k < |path|
      ensures Between(path[k].x, from.0, to.0) && Between(path[k].y, from.1, to.1)
    {
      TruncDivBounds(to.0 - from.0, k + 1, steps);
      TruncDivBounds(to.1 - from.1, k + 1, steps);
    }
  }

  predicate Between(v: int, a: int, b: int)
  {
    (a <= v <= b) || (b <= v <= a)
  }

  /** The moves handle_mouse_move makes, computed step by step as the source does. */
  method SmoothMoves(from: (int, int), to: (int, int)) returns (moves: seq<Effect>)
    ensures moves == SmoothPath(from, to)
  {
    var steps := SmoothSteps(from, to);
    moves := [];
    var i := 1;
    while i <= steps
      invariant 1 <= i <= steps + 1
      invariant moves == SmoothPath(from, to)[..i - 1]
    {
      var p := SmoothPoint(from, to, steps, i);
      moves := moves + [MoveTo(p.0, p.1)];
      i := i + 1;
    }
  }

  /** The target of a move: the event's coordinates scaled by the acceleration. */
  function MoveTarget(config: InputConfig, x: int, y: int): (int, int)
  {
    (Scale(x, config.mouseAcceleration), Scale(y, config.mouseAcceleration))
  }

  /**
   * handle_mouse_event, for every event but a smooth move: the new mouse
   * state and the calls made. A disabled mouse, or an event without the
   * button or delta its type needs, changes nothing.
   */
  function MouseStep(config: InputConfig, m: MouseState, e: MouseEvent, nowMs: nat): (r: (MouseState, seq<Effect>))
    requires !(config.enableMouse && e.eventType == Move && config.smoothMouseMovement)
  {
    if !config.enableMouse then (m, [])
    else match e.eventType
      case Move =>
        var t := MoveTarget(config, e.x, e.y);
        (m.(lastPosition := t), [MoveTo(t.0, t.1)])
      case Press =>
        if e.button.None? then (m, [])
        else
          (m.(pressedButtons := m.pressedButtons + {e.button.value}, lastPosition := (e.x, e.y)),
           [MoveTo(e.x, e.y), ButtonDown(ToEnigoButton(e.button.value))])
      case Release =>
        if e.button.None? then (m, [])
        else
          var b := e.button.value;
          var drag := if m.dragState.Some? && m.dragState.value.button == b then None else m.dragState;
          (m.(pressedButtons := m.pressedButtons - {b}, dragState := drag), [ButtonUp(ToEnigoButton(b))])
      case Click =>
        if e.button.None? then (m, [])
        else if IsDoubleClick(config, m, e.x, e.y, nowMs) then (m, DoubleClickEffects(e.x, e.y, e.button.value))
        else
          (m.(lastClickTimeMs := Some(nowMs), lastClickPosition := Some((e.x, e.y)), lastPosition := (e.x, e.y)),
           ClickEffects(e.x, e.y, e.button.value))
      case DoubleClick =>
        if e.button.None? then (m, []) else (m, DoubleClickEffects(e.x, e.y, e.button.value))
      case Scroll =>
        if e.delta.None? then (m, []) else (m, [ScrollBy(if e.delta.value > 0 then 3 else -3)])
      case Drag =>
        if e.button.None? then (m, [])
        else
          var drag :=
            if m.dragState.None? then DragState(m.lastPosition, (e.x, e.y), e.button.value, nowMs)
            else m.dragState.value.(currentPosition := (e.x, e.y));
          (m.(dragState := Some(drag), lastPosition := (e.x, e.y)), [MoveTo(e.x, e.y)])
  }

  /** With the mouse disabled, no event changes the state or reaches enigo. */
  lemma DisabledMouseIgnored(config: InputConfig, m: MouseState, e: MouseEvent, nowMs: nat)
    requires !config.enableMouse
    ensures MouseStep(config, m, e, nowMs) == (m, [])
  {
  }

  /** Press adds the button and moves the recorded position; release removes it and ends a drag only of that button. */
  lemma PressRelease(config: InputConfig, m: MouseState, x: int, y: int, b: MouseButtonType, nowMs: nat)
    requires config.enableMouse
    ensures var p := MouseStep(config, m, MouseEvent(x, y, Press, Some(b), None, []), nowMs).0;
      b in p.pressedButtons && p.pressedButtons - {b} == m.pressedButtons - {b}
      && p.lastPosition == (x, y) && p.dragState == m.dragState
    ensures var q := MouseStep(config, m, MouseEvent(x, y, Release, Some(b), None, []), nowMs).0;
      b !in q.pressedButtons && q.pressedButtons + {b} == m.pressedButtons + {b}
      && q.lastPosition == m.lastPosition
      && (q.dragState.None? <==> m.dragState.None? || m.dragState.value.button == b)
      && (q.dragState.Some? ==> q.dragState == m.dragState)
  {
  }

  /**
   * A click is doubled exactly when IsDoubleClick holds. A double click
   * leaves the recorded click as it was; a single one records its time
   * and place.
   */
  lemma ClickRule(config: InputConfig, m: MouseState, x: int, y: int, b: MouseButtonType, nowMs: nat)
    requires config.enableMouse
    ensures var (m', e) := MouseStep(config, m, MouseEvent(x, y, Click, Some(b), None, []), nowMs);
      (IsDoubleClick(config, m, x, y, nowMs) ==> m' == m && e == DoubleClickEffects(x, y, b))
      && (!IsDoubleClick(config, m, x, y, nowMs) ==>
            m'.lastClickTimeMs == Some(nowMs) && m'.lastClickPosition == Some((x, y))
            && m'.lastPosition == (x, y) && e == ClickEffects(x, y, b))
  {
  }

  /** Two clicks at the same place within the double-click time: the second is a double click. */
  lemma SecondClickDoubles(config: InputConfig, m: MouseState, x: int, y: int, b: MouseButtonType, t1: nat, t2: nat)
    requires config.enableMouse && !IsDoubleClick(config, m, x, y, t1)
    requires t1 <= t2 < t1 + config.doubleClickSpeedMs
    ensures var m1 := MouseStep(config, m, MouseEvent(x, y, Click, Some(b), None, []), t1).0;
      IsDoubleClick(config, m1, x, y, t2)
      && MouseStep(config, m1, MouseEvent(x, y, Click, Some(b), None, []), t2).1 == DoubleClickEffects(x, y, b)
  {
  }

  /** A scroll always moves by three notches: up for a positive delta, down otherwise (zero included). */
  lemma ScrollNotches(config: InputConfig, m: MouseState, x: int, y: int, delta: int, nowMs: nat)
    requires config.enableMouse
    ensures MouseStep(config, m, MouseEvent(x, y, Scroll, None, Some(delta), []), nowMs)
       == (m, [ScrollBy(if delta > 0 then 3 else -3)])
    ensures MouseStep(config, m, MouseEvent(x, y, Scroll, None, Some(0), []), nowMs).1 == [ScrollBy(-3)]
  {
  }

  /**
   * The first drag event starts a drag at the previous position; later
   * ones only move its current position. Either way the recorded
   * position becomes the event's.
   */
  lemma DragRule(config: InputConfig, m: MouseState, x: int, y: int, b: MouseButtonType, nowMs: nat)
    requires config.enableMouse
    ensures var m' := MouseStep(config, m, MouseEvent(x, y, Drag, Some(b), None, []), nowMs).0;
      m'.lastPosition == (x, y) && m'.dragState.Some? && m'.dragState.value.currentPosition == (x, y)
      && (m.dragState.None? ==>
            m'.dragState.value.startPosition == m.lastPosition && m'.dragState.value.button == b
            && m'.dragState.value.startedAtMs == nowMs)
      && (m.dragState.Some? ==>
            m'.dragState.value.startPosition == m.dragState.value.startPosition
            && m'.dragState.value.button == m.dragState.value.button)
  {
  }

  // ------------------------------------------------------------- the keyboard

  /** apply_modifiers: every modifier of the event pressed in order; none is ever released. */
  function ModifierPresses(mods: seq<KeyModifier>): (e: seq<Effect>)
    ensures |e| == |mods|
    ensures forall i :: 0 <= i < |mods| ==> e[i] == KeyDown(ModifierKey(mods[i]))
  {
    seq(|mods|, i requires 0 <= i < |mods| => KeyDown(ModifierKey(mods[i])))
  }

  /** The presses apply_modifiers makes, one per loop turn. */
  method ApplyModifiers(mods: seq<KeyModifier>) returns (presses: seq<Effect>)
    ensures presses == ModifierPresses(mods)
  {
    presses := [];
    for i := 0 to |mods|
      invariant presses == ModifierPresses(mods[..i])
    {
      presses := presses + [KeyDown(ModifierKey(mods[i]))];
    }
    assert mods[..|mods|] == mods;
  }

  /**
   * handle_keyboard_event: the outcome, the new keyboard state and the
   * calls made. A disabled keyboard changes nothing. Otherwise the
   * event's modifiers are pressed first, so they stay pressed even when
   * the key then fails to convert, which leaves the state as it was.
   */
  function KeyStep(config: InputConfig, k: KeyboardState, e: KeyboardEvent, nowMs: nat)
    : (r: (Result<()>, KeyboardState, seq<Effect>))
  {
    if !config.enableKeyboard then (Ok(()), k, [])
    else
      var mods := ModifierPresses(e.modifiers);
      match e.eventType
      case TextInputEvent =>
        if e.text.None? then (Ok(()), k, mods) else (Ok(()), k, mods + [TypeText(e.text.value)])
      case _ =>
        if e.key.None? then (Ok(()), k, mods)
        else
          var name := e.key.value;
          match ConvertKey(name)
          case Err(msg) => (Err(msg), k, mods)
          case Ok(key) =>
            match e.eventType
            case KeyDownEvent =>
              (Ok(()), k.(pressedKeys := k.pressedKeys + {name}, lastKeyTimeMs := Some(nowMs)), mods + [KeyDown(key)])
            case KeyUpEvent =>
              (Ok(()), k.(pressedKeys := k.pressedKeys - {name}), mods + [KeyUp(key)])
            case KeyPressEvent =>
              (Ok(()), k, mods + [KeyDown(key), KeyUp(key)])
  }

  /** With the keyboard disabled, no event changes the state or reaches enigo. */
  lemma DisabledKeyboardIgnored(config: InputConfig, k: KeyboardState, e: KeyboardEvent, nowMs: nat)
    requires !config.enableKeyboard
    ensures KeyStep(config, k, e, nowMs) == (Ok(()), k, [])
  {
  }

  /**
   * No keyboard event touches the active modifiers; every event begins by
   * pressing its modifiers, and the only key any event releases is its own
   * converted key, so a modifier pressed for an event stays pressed.
   */
  lemma ModifiersNeverReleased(config: InputConfig, k: KeyboardState, e: KeyboardEvent, nowMs: nat)
    ensures var (_, k', effects) := KeyStep(config, k, e, nowMs);
      k'.activeModifiers == k.activeModifiers
      && (config.enableKeyboard ==> effects[..|e.modifiers|] == ModifierPresses(e.modifiers))
      && forall i :: 0 <= i < |effects| && effects[i].KeyUp? ==>
        e.eventType in {KeyUpEvent, KeyPressEvent} && e.key.Some? && ConvertKey(e.key.value) == Ok(effects[i].key)
  {
  }

  /**
   * A key that converts is added to the pressed keys by KeyDown (under the
   * name it was sent with) and removed by KeyUp; a key that does not
   * convert is an error and leaves the keyboard state unchanged.
   */
  lemma KeyDownUp(config: InputConfig, k: KeyboardState, name: string, mods: seq<KeyModifier>, nowMs: nat)
    requires config.enableKeyboard
    ensures var (r, k', _) := KeyStep(config, k, KeyboardEvent(KeyDownEvent, Some(name), None, None, mods), nowMs);
      (ConvertKey(name).Ok? ==> r == Ok(()) && k'.pressedKeys == k.pressedKeys + {name} && k'.lastKeyTimeMs == Some(nowMs))
      && (ConvertKey(name).Err? ==> r == Err(ConvertKey(name).error) && k' == k)
    ensures var (r, k', _) := KeyStep(config, k, KeyboardEvent(KeyUpEvent, Some(name), None, None, mods), nowMs);
      (ConvertKey(name).Ok? ==> r == Ok(()) && k'.pressedKeys == k.pressedKeys - {name})
      && (ConvertKey(name).Err? ==> r == Err(ConvertKey(name).error) && k' == k)
  {
  }

  // ------------------------------------------------------------- the manager

  class EnhancedInputManager {
    var config: InputConfig
    var mouse: MouseState
    var keyboard: KeyboardState
    var effects: seq<Effect>

    /** The active modifiers are never set, so they stay empty. */
    ghost predicate Valid()
      reads this
    {
      keyboard.activeModifiers == []
    }

    /** EnhancedInputManager::new: the default configuration, the origin, nothing pressed. */
    constructor()
      ensures config == DefaultConfig && mouse == InitialMouse && keyboard == InitialKeyboard && effects == []
      ensures Valid()
    {
      config := DefaultConfig;
      mouse := InitialMouse;
      keyboard := InitialKeyboard;
      effects := [];
    }

    /**
     * handle_mouse_event: always succeeds; a smooth move goes through the
     * intermediate moves and ends at the target, everything else is
     * MouseStep.
     */
    method HandleMouseEvent(e: MouseEvent, nowMs: nat) returns (r: Result<()>)
      requires Valid()
      modifies this
      ensures Valid() && r == Ok(()) && config == old(config) && keyboard == old(keyboard)
      ensures config.enableMouse && e.eventType == Move && config.smoothMouseMovement ==>
        var t := MoveTarget(config, e.x, e.y);
        mouse == old(mouse).(lastPosition := t) && effects == old(effects) + SmoothPath(old(mouse).lastPosition, t)
      ensures !(config.enableMouse && e.eventType == Move && config.smoothMouseMovement) ==>
        mouse == MouseStep(config, old(mouse), e, nowMs).0 && effects == old(effects) + MouseStep(config, old(mouse), e, nowMs).1
    {
      if config.enableMouse && e.eventType == Move && config.smoothMouseMovement {
        var t := MoveTarget(config, e.x, e.y);
        var moves := SmoothMoves(mouse.lastPosition, t);
        effects := effects + moves;
        mouse := mouse.(lastPosition := t);
      } else {
        var step := MouseStep(config, mouse, e, nowMs);
        mouse := step.0;
        effects := effects + step.1;
      }
      return Ok(());
    }

    /** handle_keyboard_event: KeyStep applied to the keyboard state and the effects. */
    method HandleKeyboardEvent(e: KeyboardEvent, nowMs: nat) returns (r: Result<()>)
      requires Valid()
      modifies this
      ensures Valid() && config == old(config) && mouse == old(mouse)
      ensures var (res, k, sent) := KeyStep(config, old(keyboard), e, nowMs);
        r == res && keyboard == k && effects == old(effects) + sent
    {
      var step := KeyStep(config, keyboard, e, nowMs);
      r := step.0;
      keyboard := step.1;
      effects := effects + step.2;
    }

    method UpdateConfig(newConfig: InputConfig) returns (r: Result<()>)
      modifies this
      ensures r == Ok(()) && config == newConfig
      ensures mouse == old(mouse) && keyboard == old(keyboard) && effects == old(effects)
    {
      config := newConfig;
      return Ok(());
    }

    method GetConfig() returns (r: InputConfig)
      ensures r == config
    {
      r := config;
    }

    /** get_input_stats: the position, how many buttons and keys are down, whether a drag is on, and no modifiers. */
    function GetInputStats(): (s: InputStats)
      reads this
      requires Valid()
      ensures s.mousePosition == mouse.lastPosition && s.isDragging == mouse.dragState.Some?
      ensures s.pressedMouseButtons == |mouse.pressedButtons| && s.pressedKeys == |keyboard.pressedKeys|
      ensures s.activeModifiers == []
    {
      InputStats(mouse.lastPosition, |mouse.pressedButtons|, |keyboard.pressedKeys|, mouse.dragState.Some?,
                 keyboard.activeModifiers)
    }
  }
}
