/**
 * The pure parts of the application's command handlers: the permission,
 * compression and connection-type names the front end sends, the address
 * a direct connection uses, the reply to it, and the connection-status
 * strings.
 */
module AppCommands {
  import opened Text
  import Permissions
  import Streaming
  import ConnectionManager
  import Metrics

  // ------------------------------------------------------------- permissions

  /** The name the front end uses for a permission. */
  function PermissionName(p: Permissions.Permission): string
  {
    match p
    case ScreenView => "screen_view"
    case InputControl => "input_control"
    case FileTransfer => "file_transfer"
    case Clipboard => "clipboard"
    case AudioAccess => "audio_access"
    case SystemInfo => "system_info"
  }

  /** The permission a name stands for; any other name stands for none. */
  function PermissionByName(name: string): (r: Option<Permissions.Permission>)
    ensures r.Some? ==> PermissionName(r.value) == name
  {
    if name == "screen_view" then Some(Permissions.ScreenView)
    else if name == "input_control" then Some(Permissions.InputControl)
    else if name == "file_transfer" then Some(Permissions.FileTransfer)
    else if name == "clipboard" then Some(Permissions.Clipboard)
    else if name == "audio_access" then Some(Permissions.AudioAccess)
    else if name == "system_info" then Some(Permissions.SystemInfo)
    else None
  }

  /** The six names map to the six permissions, one to one. */
  lemma PermissionNameRoundTrip(p: Permissions.Permission, q: Permissions.Permission)
    ensures PermissionByName(PermissionName(p)) == Some(p)
    ensures PermissionName(p) == PermissionName(q) ==> p == q
  {
    assert PermissionByName(PermissionName(q)) == Some(q);
  }

  /**
   * The permissions a list of names asks for, in order: known names are
   * converted and unknown names silently dropped.
   */
  function PermissionsByNames(names: seq<string>): (r: seq<Permissions.Permission>)
    ensures |r| <= |names|
    ensures forall p :: p in r <==> PermissionName(p) in names
  {
    if names == [] then []
    else
      var rest := PermissionsByNames(names[1..]);
      assert forall p :: PermissionName(p) in names <==> PermissionName(p) == names[0] || PermissionName(p) in names[1..];
      match PermissionByName(names[0])
      case None =>
        assert forall p :: PermissionName(p) != names[0] by {
          forall p ensures PermissionName(p) != names[0] { PermissionNameRoundTrip(p, p); }
        }
        rest
      case Some(p) =>
        assert forall q :: PermissionName(q) == names[0] ==> q == p by {
          forall q ensures PermissionName(q) == names[0] ==> q == p { PermissionNameRoundTrip(q, p); }
        }
        [p] + rest
  }

  /** Names the front end does not know change nothing, wherever they appear. */
  lemma {:induction false} UnknownNamesDropped(a: seq<string>, unknown: string, b: seq<string>)
    requires PermissionByName(unknown).None?
    ensures PermissionsByNames(a + [unknown] + b) == PermissionsByNames(a + b)
    decreases |a|
  {
    if a == [] {
      assert [unknown] + b == ([unknown] + b);
      assert (a + [unknown] + b)[1..] == b;
      assert a + b == b;
    } else {
      assert (a + [unknown] + b)[0] == a[0];
      assert (a + [unknown] + b)[1..] == a[1..] + [unknown] + b;
      assert (a + b)[0] == a[0];
      assert (a + b)[1..] == a[1..] + b;
      UnknownNamesDropped(a[1..], unknown, b);
    }
  }

  /**
   * check_permission answered from the grants of a permission manager: an
   * unknown name is refused without looking at any grant; a known one is
   * answered from the grants. The code as written passes the grants of a
   * manager created for the call (CheckPermissionAsWritten); the intended
   * command passes the application's.
   */
  function CheckPermissionCommand(grants: Permissions.Grants, connectionId: string, name: string, now: nat): (b: bool)
    ensures PermissionByName(name).None? ==> !b
    ensures b <==>
      PermissionByName(name).Some? && connectionId in grants && Permissions.Unexpired(grants[connectionId], now)
      && PermissionByName(name).value in grants[connectionId].permissions
  {
    match PermissionByName(name)
    case None => false
    case Some(p) => Permissions.HasPermission(grants, connectionId, p, now)
  }

  /** check_permission as written: it asks a permission manager created for the call, which holds no grant. */
  function CheckPermissionAsWritten(connectionId: string, name: string, now: nat): (b: bool)
    ensures !b
  {
    CheckPermissionCommand(map[], connectionId, name, now)
  }

  /** As written, no permission ever checks as granted, even one granted a moment before. */
  lemma CheckPermissionNeverGrants(g: Permissions.PermissionGrant, connectionId: string, now: nat)
    requires g.connectionId == connectionId && Permissions.ScreenView in g.permissions && Permissions.Unexpired(g, now)
    ensures !CheckPermissionAsWritten(connectionId, "screen_view", now)
    ensures CheckPermissionCommand(map[connectionId := g], connectionId, "screen_view", now)
  {
  }

  const DefaultDenyReason: string := "Access denied"

  /** respond_to_permission_request: the response built from the form; a denial without a reason gets "Access denied". */
  function PermissionResponseOf(granted: bool, names: seq<string>, durationMinutes: Option<nat>,
                                denyReason: Option<string>): (r: Permissions.PermissionResponse)
    ensures granted ==> r.Granted? && r.permissions == PermissionsByNames(names) && r.durationMinutes == durationMinutes
    ensures !granted ==> r.Denied? && r.reason == if denyReason.Some? then denyReason.value else DefaultDenyReason
  {
    if granted then Permissions.Granted(PermissionsByNames(names), durationMinutes)
    else Permissions.Denied(denyReason.UnwrapOr(DefaultDenyReason))
  }

  // ------------------------------------------------------------- streaming

  function CompressionName(t: Streaming.CompressionType): string
  {
    match t
    case JPEG => "jpeg"
    case WebP => "webp"
    case H264 => "h264"
    case VP8 => "vp8"
    case AV1 => "av1"
  }

  /** update_streaming_config: the compression named, and JPEG for any name it does not know. */
  function CompressionByName(name: string): (t: Streaming.CompressionType)
    ensures t != Streaming.JPEG ==> CompressionName(t) == name
    ensures name !in {"jpeg", "webp", "h264", "vp8", "av1"} ==> t == Streaming.JPEG
  {
    if name == "jpeg" then Streaming.JPEG
    else if name == "webp" then Streaming.WebP
    else if name == "h264" then Streaming.H264
    else if name == "vp8" then Streaming.VP8
    else if name == "av1" then Streaming.AV1
    else Streaming.JPEG
  }

  lemma CompressionNameRoundTrip(t: Streaming.CompressionType)
    ensures CompressionByName(CompressionName(t)) == t
  {
  }

  // ------------------------------------------------------------- metrics

  /** record_connection_metrics: "relay" is a relayed connection and anything else a direct one. */
  function MetricsConnectionType(name: string): (t: Metrics.ConnectionType)
    ensures t == Metrics.Relay <==> name == "relay"
  {
    if name == "p2p" then Metrics.P2P
    else if name == "relay" then Metrics.Relay
    else Metrics.P2P
  }

  // ------------------------------------------------------------- direct connections

  const DefaultPort: string := "7878"

  /** connect_to_ip: an address with a ':' is used as given; otherwise the port (7878 by default) is appended. */
  function FullAddress(ip: string, port: Option<string>): (a: string)
    ensures ':' in ip ==> a == ip
    ensures ':' !in ip ==> a == ip + ":" + port.UnwrapOr(DefaultPort)
  {
    if ':' in ip then ip else ip + ":" + port.UnwrapOr(DefaultPort)
  }

  /** For a bare host and a port without ':', the address splits at ':' back into the two. */
  lemma FullAddressSplits(ip: string, port: Option<string>)
    requires ':' !in ip && ':' !in port.UnwrapOr(DefaultPort)
    ensures Split(FullAddress(ip, port), ':') == [ip, port.UnwrapOr(DefaultPort)]
  {
    var p := port.UnwrapOr(DefaultPort);
    assert Join([ip, p], [':']) == ip + ":" + p by {
      assert Join([p], [':']) == p;
    }
    SplitJoin([ip, p], ':');
  }

  datatype ServerInfo = ServerInfo(version: string, capabilities: seq<string>, encryptionEnabled: bool)

  datatype ConnectionResponse = ConnectionResponse(success: bool, sessionId: string, serverInfo: Option<ServerInfo>,
                                                   error: Option<string>)

  /**
   * The reply connect_to_ip gives for any address: success, the new
   * session id, version 1.0.0 with encryption and three capabilities, no
   * error. Nothing is actually dialled.
   */
  function ConnectToIpResponse(sessionId: string): (r: ConnectionResponse)
    ensures r.success && r.sessionId == sessionId && r.error.None?
    ensures r.serverInfo == Some(ServerInfo("1.0.0", ["screen_capture", "input_forwarding", "file_transfer"], true))
  {
    ConnectionResponse(true, sessionId,
      Some(ServerInfo("1.0.0", ["screen_capture", "input_forwarding", "file_transfer"], true)), None)
  }

  // ------------------------------------------------------------- connection status

  /** get_connection_status: the status as the front end reads it. */
  function StatusString(s: ConnectionManager.ConnectionStatus): string
  {
    match s
    case Disconnected => "disconnected"
    case Connecting => "connecting"
    case Connected(kind) => if kind == ConnectionManager.P2P then "connected_p2p" else "connected_relay"
    case Failed(reason) => "failed:" + reason
  }

  /** Reading a status string back. */
  function ParseStatusString(s: string): (r: Option<ConnectionManager.ConnectionStatus>)
    ensures r.Some? ==> StatusString(r.value) == s
  {
    if s == "disconnected" then Some(ConnectionManager.Disconnected)
    else if s == "connecting" then Some(ConnectionManager.Connecting)
    else if s == "connected_p2p" then Some(ConnectionManager.Connected(ConnectionManager.P2P))
    else if s == "connected_relay" then Some(ConnectionManager.Connected(ConnectionManager.Relay))
    else if StartsWith(s, "failed:") then Some(ConnectionManager.Failed(s[7..]))
    else None
  }

  /** Every status reads back from its string, so distinct statuses give distinct strings. */
  lemma StatusStringRoundTrip(s: ConnectionManager.ConnectionStatus, t: ConnectionManager.ConnectionStatus)
    ensures ParseStatusString(StatusString(s)) == Some(s)
    ensures StatusString(s) == StatusString(t) ==> s == t
  {
    StatusReads(s);
    StatusReads(t);
  }

  lemma StatusReads(s: ConnectionManager.ConnectionStatus)
    ensures ParseStatusString(StatusString(s)) == Some(s)
  {
    if s.Failed? {
      var str := "failed:" + s.reason;
      assert str[..7] == "failed:" && str[7..] == s.reason;
      assert str != "disconnected" && str != "connecting" by { assert str[0] == 'f'; }
      assert str != "connected_p2p" && str != "connected_relay" by { assert str[0] == 'f'; }
    }
  }
}
