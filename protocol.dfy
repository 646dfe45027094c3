/**
 * The wire protocol: the message envelope (`ProtocolMessage`), the
 * enumerations with the names they carry on the wire, the payload records
 * and their JSON form, the protocol constants and the error codes.
 *
 * A message id (a v4 UUID) and a timestamp (chrono's RFC 3339 rendering)
 * are supplied by the caller.
 */
module Protocol {
  import opened Text

  /** The serde_json value a payload is turned into; an object is a map from member names, as serde_json's is. */
  datatype Json =
    | JNull
    | JBool(b: bool)
    | JNumber(n: int)
    | JString(s: string)
    | JArray(items: seq<Json>)
    | JObject(members: map<string, Json>)

  /** A UTC instant as serde writes it: its RFC 3339 text. */
  datatype Timestamp = Timestamp(text: string)

  /** The member called `key`, if the value is an object that has one. */
  function Field(j: Json, key: string): Option<Json>
  {
    if j.JObject? && key in j.members then Some(j.members[key]) else None
  }

  // ------------------------------------------------------------- enumerations

  datatype MessageType =
    | AuthRequest | AuthResponse
    | ScreenFrameRequest | ScreenFrame | ScreenInfo
    | InputEvent | InputAck
    | Heartbeat | ConnectionStatus | Error
    | FileTransferRequest | FileTransferData | FileTransferComplete

  /** The snake_case wire name of a message type. */
  function MessageTypeName(t: MessageType): string
  {
    match t
    case AuthRequest => "auth_request"
    case AuthResponse => "auth_response"
    case ScreenFrameRequest => "screen_frame_request"
    case ScreenFrame => "screen_frame"
    case ScreenInfo => "screen_info"
    case InputEvent => "input_event"
    case InputAck => "input_ack"
    case Heartbeat => "heartbeat"
    case ConnectionStatus => "connection_status"
    case Error => "error"
    case FileTransferRequest => "file_transfer_request"
    case FileTransferData => "file_transfer_data"
    case FileTransferComplete => "file_transfer_complete"
  }

  /** Reading a message type back from its wire name; any other text is rejected. */
  function ParseMessageType(s: string): (r: Option<MessageType>)
    ensures r.Some? ==> MessageTypeName(r.value) == s
  {
    if s == "auth_request" then Some(AuthRequest)
    else if s == "auth_response" then Some(AuthResponse)
    else if s == "screen_frame_request" then Some(ScreenFrameRequest)
    else if s == "screen_frame" then Some(ScreenFrame)
    else if s == "screen_info" then Some(ScreenInfo)
    else if s == "input_event" then Some(InputEvent)
    else if s == "input_ack" then Some(InputAck)
    else if s == "heartbeat" then Some(Heartbeat)
    else if s == "connection_status" then Some(ConnectionStatus)
    else if s == "error" then Some(Error)
    else if s == "file_transfer_request" then Some(FileTransferRequest)
    else if s == "file_transfer_data" then Some(FileTransferData)
    else if s == "file_transfer_complete" then Some(FileTransferComplete)
    else None
  }

  /** Every message type reads back from its name, so distinct types have distinct names. */
  lemma MessageTypeRoundTrip(t: MessageType, u: MessageType)
    ensures ParseMessageType(MessageTypeName(t)) == Some(t)
    ensures MessageTypeName(t) == MessageTypeName(u) ==> t == u
  {
    assert ParseMessageType(MessageTypeName(u)) == Some(u);
  }

  datatype ImageFormat = Jpeg | Png | Raw | H264 | H265

  /** The lowercase wire name of an image format. */
  function ImageFormatName(f: ImageFormat): string
  {
    match f
    case Jpeg => "jpeg"
    case Png => "png"
    case Raw => "raw"
    case H264 => "h264"
    case H265 => "h265"
  }

  function ParseImageFormat(s: string): (r: Option<ImageFormat>)
    ensures r.Some? ==> ImageFormatName(r.value) == s
  {
    if s == "jpeg" then Some(Jpeg)
    else if s == "png" then Some(Png)
    else if s == "raw" then Some(Raw)
    else if s == "h264" then Some(H264)
    else if s == "h265" then Some(H265)
    else None
  }

  lemma ImageFormatRoundTrip(f: ImageFormat, g: ImageFormat)
    ensures ParseImageFormat(ImageFormatName(f)) == Some(f)
    ensures ImageFormatName(f) == ImageFormatName(g) ==> f == g
  {
    assert ParseImageFormat(ImageFormatName(g)) == Some(g);
  }

  datatype InputEventType = MouseMove | MouseClick | MouseRelease | MouseScroll | KeyPress | KeyRelease | KeyType

  /** The snake_case wire name of an input event type. */
  function InputEventTypeName(t: InputEventType): string
  {
    match t
    case MouseMove => "mouse_move"
    case MouseClick => "mouse_click"
    case MouseRelease => "mouse_release"
    case MouseScroll => "mouse_scroll"
    case KeyPress => "key_press"
    case KeyRelease => "key_release"
    case KeyType => "key_type"
  }

  function ParseInputEventType(s: string): (r: Option<InputEventType>)
    ensures r.Some? ==> InputEventTypeName(r.value) == s
  {
    if s == "mouse_move" then Some(MouseMove)
    else if s == "mouse_click" then Some(MouseClick)
    else if s == "mouse_release" then Some(MouseRelease)
    else if s == "mouse_scroll" then Some(MouseScroll)
    else if s == "key_press" then Some(KeyPress)
    else if s == "key_release" then Some(KeyRelease)
    else if s == "key_type" then Some(KeyType)
    else None
  }

  lemma InputEventTypeRoundTrip(t: InputEventType, u: InputEventType)
    ensures ParseInputEventType(InputEventTypeName(t)) == Some(t)
    ensures InputEventTypeName(t) == InputEventTypeName(u) ==> t == u
  {
    assert ParseInputEventType(InputEventTypeName(u)) == Some(u);
  }

  datatype MouseButton = Left | Right | Middle | X1 | X2

  /** The lowercase wire name of a mouse button. */
  function MouseButtonName(b: MouseButton): string
  {
    match b
    case Left => "left"
    case Right => "right"
    case Middle => "middle"
    case X1 => "x1"
    case X2 => "x2"
  }

  function ParseMouseButton(s: string): (r: Option<MouseButton>)
    ensures r.Some? ==> MouseButtonName(r.value) == s
  {
    if s == "left" then Some(Left)
    else if s == "right" then Some(Right)
    else if s == "middle" then Some(Middle)
    else if s == "x1" then Some(X1)
    else if s == "x2" then Some(X2)
    else None
  }

  lemma MouseButtonRoundTrip(b: MouseButton, c: MouseButton)
    ensures ParseMouseButton(MouseButtonName(b)) == Some(b)
    ensures MouseButtonName(b) == MouseButtonName(c) ==> b == c
  {
    assert ParseMouseButton(MouseButtonName(c)) == Some(c);
  }

  datatype KeyModifier = Ctrl | Alt | Shift | Meta | Super

  /** The lowercase wire name of a key modifier. */
  function KeyModifierName(m: KeyModifier): string
  {
    match m
    case Ctrl => "ctrl"
    case Alt => "alt"
    case Shift => "shift"
    case Meta => "meta"
    case Super => "super"
  }

  function ParseKeyModifier(s: string): (r: Option<KeyModifier>)
    ensures r.Some? ==> KeyModifierName(r.value) == s
  {
    if s == "ctrl" then Some(Ctrl)
    else if s == "alt" then Some(Alt)
    else if s == "shift" then Some(Shift)
    else if s == "meta" then Some(Meta)
    else if s == "super" then Some(Super)
    else None
  }

  lemma KeyModifierRoundTrip(m: KeyModifier, n: KeyModifier)
    ensures ParseKeyModifier(KeyModifierName(m)) == Some(m)
    ensures KeyModifierName(m) == KeyModifierName(n) ==> m == n
  {
    assert ParseKeyModifier(KeyModifierName(n)) == Some(n);
  }

  datatype ConnectionQuality = Excellent | Good | Fair | Poor | Disconnected

  /** The lowercase wire name of a connection quality. */
  function ConnectionQualityName(q: ConnectionQuality): string
  {
    match q
    case Excellent => "excellent"
    case Good => "good"
    case Fair => "fair"
    case Poor => "poor"
    case Disconnected => "disconnected"
  }

  function ParseConnectionQuality(s: string): (r: Option<ConnectionQuality>)
    ensures r.Some? ==> ConnectionQualityName(r.value) == s
  {
    if s == "excellent" then Some(Excellent)
    else if s == "good" then Some(Good)
    else if s == "fair" then Some(Fair)
    else if s == "poor" then Some(Poor)
    else if s == "disconnected" then Some(Disconnected)
    else None
  }

  lemma ConnectionQualityRoundTrip(q: ConnectionQuality, p: ConnectionQuality)
    ensures ParseConnectionQuality(ConnectionQualityName(q)) == Some(q)
    ensures ConnectionQualityName(q) == ConnectionQualityName(p) ==> q == p
  {
    assert ParseConnectionQuality(ConnectionQualityName(p)) == Some(p);
  }

  // ------------------------------------------------------------- constants

  const ProtocolVersion: string := "1.0.0"
  const MaxMessageSize: nat := 10 * 1024 * 1024
  const HeartbeatIntervalSeconds: nat := 30
  const ConnectionTimeoutSeconds: nat := 60

  const ErrorAuthenticationFailed: nat := 1001
  const ErrorUnauthorized: nat := 1002
  const ErrorInvalidMessage: nat := 2001
  const ErrorScreenCaptureFailed: nat := 3001
  const ErrorInputInjectionFailed: nat := 3002
  const ErrorNetworkError: nat := 4001
  const ErrorInternalError: nat := 5001

  const ErrorCodes: seq<nat> := [ErrorAuthenticationFailed, ErrorUnauthorized, ErrorInvalidMessage,
                                 ErrorScreenCaptureFailed, ErrorInputInjectionFailed, ErrorNetworkError,
                                 ErrorInternalError]

  /** The seven error codes are pairwise distinct, and each fits a u32. */
  lemma ErrorCodesDistinct()
    ensures |ErrorCodes| == 7
    ensures forall i, j :: 0 <= i < j < |ErrorCodes| ==> ErrorCodes[i] != ErrorCodes[j]
    ensures forall i :: 0 <= i < |ErrorCodes| ==> ErrorCodes[i] < 0x1_0000_0000
  {
  }

  // ------------------------------------------------------------- payload records

  datatype Region = Region(x: int, y: int, width: nat, height: nat)

  datatype ScreenFrameData = ScreenFrameData(
    width: nat, height: nat, format: ImageFormat, data: seq<Byte>, timestamp: Timestamp,
    sequenceNumber: nat, isKeyframe: bool, changedRegions: Option<seq<Region>>)

  datatype InputEventData = InputEventData(
    eventType: InputEventType,
    x: Option<int>, y: Option<int>,
    button: Option<MouseButton>,
    key: Option<string>,
    modifiers: Option<seq<KeyModifier>>,
    timestamp: Timestamp)

  datatype ClientInfo = ClientInfo(name: string, version: string, platform: string, capabilities: seq<string>)

  datatype ErrorMessage = ErrorMessage(code: nat, message: string, details: Option<Json>)

  datatype ProtocolMessage = ProtocolMessage(id: string, messageType: MessageType, data: Json, timestamp: Timestamp)

  function OptionJson<T>(o: Option<T>, f: T -> Json): Json
  {
    if o.Some? then f(o.value) else JNull
  }

  function StringsJson(ss: seq<string>): (j: Json)
    ensures j.JArray? && |j.items| == |ss| && forall i :: 0 <= i < |ss| ==> j.items[i] == JString(ss[i])
  {
    JArray(seq(|ss|, i requires 0 <= i < |ss| => JString(ss[i])))
  }

  function RegionJson(r: Region): Json
  {
    JObject(map["x" := JNumber(r.x), "y" := JNumber(r.y), "width" := JNumber(r.width), "height" := JNumber(r.height)])
  }

  /** A ScreenFrame as serde writes it: the pixel bytes as an array of numbers, no regions as null. */
  function ScreenFrameJson(f: ScreenFrameData): Json
  {
    JObject(map[
      "width" := JNumber(f.width),
      "height" := JNumber(f.height),
      "format" := JString(ImageFormatName(f.format)),
      "data" := JArray(seq(|f.data|, i requires 0 <= i < |f.data| => JNumber(f.data[i] as int))),
      "timestamp" := JString(f.timestamp.text),
      "sequence_number" := JNumber(f.sequenceNumber),
      "is_keyframe" := JBool(f.isKeyframe),
      "changed_regions" :=
        if f.changedRegions.Some? then
          JArray(seq(|f.changedRegions.value|, i requires 0 <= i < |f.changedRegions.value| =>
            RegionJson(f.changedRegions.value[i])))
        else JNull])
  }

  /** An InputEvent as serde writes it: absent options are null. */
  function InputEventJson(e: InputEventData): Json
  {
    JObject(map[
      "event_type" := JString(InputEventTypeName(e.eventType)),
      "x" := OptionJson(e.x, (v: int) => JNumber(v)),
      "y" := OptionJson(e.y, (v: int) => JNumber(v)),
      "button" := OptionJson(e.button, (b: MouseButton) => JString(MouseButtonName(b))),
      "key" := OptionJson(e.key, (k: string) => JString(k)),
      "modifiers" :=
        if e.modifiers.Some? then
          JArray(seq(|e.modifiers.value|, i requires 0 <= i < |e.modifiers.value| =>
            JString(KeyModifierName(e.modifiers.value[i]))))
        else JNull,
      "timestamp" := JString(e.timestamp.text)])
  }

  /** The capabilities both sides announce. */
  const Capabilities: seq<string> := ["screen_capture", "input_forwarding", "file_transfer"]

  const ClientName: string := "AnyViewer"

  // ------------------------------------------------------------- message constructors

  /** ProtocolMessage::new: the type and payload as given, with a fresh id and the current time. */
  function NewMessage(id: string, messageType: MessageType, data: Json, now: Timestamp): (m: ProtocolMessage)
    ensures m.messageType == messageType && m.data == data && m.id == id && m.timestamp == now
  {
    ProtocolMessage(id, messageType, data, now)
  }

  /**
   * auth_request: the credentials given, and a client description naming
   * AnyViewer, the package version, the platform and three capabilities.
   */
  function AuthRequestMessage(id: string, username: Option<string>, password: Option<string>, token: Option<string>,
                              version: string, platform: string, now: Timestamp): (m: ProtocolMessage)
    ensures m.messageType == AuthRequest
    ensures Field(m.data, "username") == Some(OptionJson(username, (s: string) => JString(s)))
    ensures Field(m.data, "password") == Some(OptionJson(password, (s: string) => JString(s)))
    ensures Field(m.data, "token") == Some(OptionJson(token, (s: string) => JString(s)))
    ensures Field(m.data, "client_info").Some?
    ensures var c := Field(m.data, "client_info").value;
      Field(c, "name") == Some(JString(ClientName)) && Field(c, "capabilities") == Some(StringsJson(Capabilities))
  {
    var info := JObject(map["name" := JString(ClientName), "version" := JString(version), "platform" := JString(platform),
                            "capabilities" := StringsJson(Capabilities)]);
    NewMessage(id, AuthRequest, JObject(map[
      "username" := OptionJson(username, (s: string) => JString(s)),
      "password" := OptionJson(password, (s: string) => JString(s)),
      "token" := OptionJson(token, (s: string) => JString(s)),
      "client_info" := info]), now)
  }

  /** auth_response: the outcome given, and the three server capabilities. */
  function AuthResponseMessage(id: string, success: bool, error: Option<string>, sessionToken: Option<string>,
                               now: Timestamp): (m: ProtocolMessage)
    ensures m.messageType == AuthResponse
    ensures Field(m.data, "success") == Some(JBool(success))
    ensures Field(m.data, "error") == Some(OptionJson(error, (s: string) => JString(s)))
    ensures Field(m.data, "session_token") == Some(OptionJson(sessionToken, (s: string) => JString(s)))
    ensures Field(m.data, "server_capabilities") == Some(StringsJson(Capabilities))
  {
    NewMessage(id, AuthResponse, JObject(map[
      "success" := JBool(success),
      "error" := OptionJson(error, (s: string) => JString(s)),
      "session_token" := OptionJson(sessionToken, (s: string) => JString(s)),
      "server_capabilities" := StringsJson(Capabilities)]), now)
  }

  function ScreenFrameMessage(id: string, frame: ScreenFrameData, now: Timestamp): (m: ProtocolMessage)
    ensures m.messageType == ScreenFrame && m.data == ScreenFrameJson(frame)
  {
    NewMessage(id, ScreenFrame, ScreenFrameJson(frame), now)
  }

  function InputEventMessage(id: string, event: InputEventData, now: Timestamp): (m: ProtocolMessage)
    ensures m.messageType == InputEvent && m.data == InputEventJson(event)
  {
    NewMessage(id, InputEvent, InputEventJson(event), now)
  }

  /** error: an Error message whose payload carries the code, the text and the details (null when absent). */
  function ErrorMessageOf(id: string, code: nat, message: string, details: Option<Json>, now: Timestamp)
    : (m: ProtocolMessage)
    ensures m.messageType == Error
    ensures Field(m.data, "code") == Some(JNumber(code))
    ensures Field(m.data, "message") == Some(JString(message))
    ensures Field(m.data, "details") == Some(if details.Some? then details.value else JNull)
  {
    NewMessage(id, Error, JObject(map[
      "code" := JNumber(code),
      "message" := JString(message),
      "details" := OptionJson(details, (d: Json) => d)]), now)
  }

  /**
   * heartbeat: a Heartbeat message carrying the current time and protocol
   * version 1.0.0. The source reads the clock twice, once for the payload and
   * once for the message; one instant `now` stands for both here.
   */
  function HeartbeatMessage(id: string, now: Timestamp): (m: ProtocolMessage)
    ensures m.messageType == Heartbeat && m.timestamp == now
    ensures Field(m.data, "version") == Some(JString("1.0.0"))
    ensures Field(m.data, "timestamp") == Some(JString(now.text))
  {
    NewMessage(id, Heartbeat, JObject(map["timestamp" := JString(now.text), "version" := JString(ProtocolVersion)]), now)
  }

  // ------------------------------------------------------------- input event constructors

  /** InputEvent::mouse_move: the coordinates, and no button, key or modifiers. */
  function MouseMoveEvent(x: int, y: int, now: Timestamp): (e: InputEventData)
    ensures e.eventType == MouseMove && e.x == Some(x) && e.y == Some(y)
    ensures e.button.None? && e.key.None? && e.modifiers.None?
  {
    InputEventData(MouseMove, Some(x), Some(y), None, None, None, now)
  }

  /** InputEvent::mouse_click: as mouse_move, with the button set. */
  function MouseClickEvent(x: int, y: int, button: MouseButton, now: Timestamp): (e: InputEventData)
    ensures e.eventType == MouseClick && e.button == Some(button)
    ensures e.(eventType := MouseMove, button := None) == MouseMoveEvent(x, y, now)
  {
    InputEventData(MouseClick, Some(x), Some(y), Some(button), None, None, now)
  }

  /** InputEvent::key_press: the key and modifiers, and no coordinates or button. */
  function KeyPressEvent(key: string, modifiers: Option<seq<KeyModifier>>, now: Timestamp): (e: InputEventData)
    ensures e.eventType == KeyPress && e.key == Some(key) && e.modifiers == modifiers
    ensures e.x.None? && e.y.None? && e.button.None?
  {
    InputEventData(KeyPress, None, None, None, Some(key), modifiers, now)
  }

  /** InputEvent::key_type: the text travels in the key field, with no modifiers. */
  function KeyTypeEvent(text: string, now: Timestamp): (e: InputEventData)
    ensures e.eventType == KeyType && e.key == Some(text)
    ensures e.x.None? && e.y.None? && e.button.None? && e.modifiers.None?
  {
    InputEventData(KeyType, None, None, None, Some(text), None, now)
  }

  /** The wire form of a mouse move carries its coordinates and null for the button, key and modifiers. */
  lemma MouseMoveWire(x: int, y: int, now: Timestamp)
    ensures var j := InputEventJson(MouseMoveEvent(x, y, now));
      Field(j, "event_type") == Some(JString("mouse_move"))
      && Field(j, "x") == Some(JNumber(x)) && Field(j, "y") == Some(JNumber(y))
      && Field(j, "button") == Some(JNull) && Field(j, "key") == Some(JNull) && Field(j, "modifiers") == Some(JNull)
  {
  }
}
