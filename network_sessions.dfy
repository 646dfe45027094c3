/**
 * The session table of the network manager (`NetworkManager`): a host
 * session recorded when the server starts, a client session recorded
 * (or overwritten) on every connect, removal on disconnect, and the
 * counts reported as statistics. Starting the server is an input; the
 * fresh session UUID is supplied by the caller; instants are milliseconds.
 */
module NetworkSessions {
  import opened Text

  datatype NetworkConfig = NetworkConfig(
    serverPort: nat,
    maxConnections: nat,
    enableEncryption: bool,
    relayServerUrl: Option<string>)

  const DefaultConfig: NetworkConfig := NetworkConfig(7878, 10, true, None)

  datatype SessionInfo = SessionInfo(id: string, clientAddress: string, connectedAt: nat, isHost: bool)

  datatype ServerInfo = ServerInfo(version: string, capabilities: seq<string>, encryptionEnabled: bool)

  datatype ConnectionResponse = ConnectionResponse(
    success: bool,
    sessionId: string,
    serverInfo: Option<ServerInfo>,
    error: Option<string>)

  datatype NetworkStats = NetworkStats(
    activeConnections: nat,
    totalSessions: nat,
    bytesSent: nat,
    bytesReceived: nat,
    uptime: nat)

  type Sessions = map<string, SessionInfo>

  ghost predicate KeyedById(m: Sessions) { forall k :: k in m ==> m[k].id == k }

  const SimulatedServer: ServerInfo :=
    ServerInfo("1.0.0", ["screen_capture", "input_forwarding", "file_transfer"], true)

  /** The session a started host server records. */
  function HostSession(id: string, now: nat): (s: SessionInfo)
    ensures s.id == id && s.isHost && s.clientAddress == "0.0.0.0" && s.connectedAt == now
  { SessionInfo(id, "0.0.0.0", now, true) }

  /** The session table after connect_to_host: insert or overwrite the client session. */
  function AfterConnect(m: Sessions, id: string, now: nat): (r: Sessions)
    ensures id in r && r[id] == SessionInfo(id, "remote", now, false)
    ensures forall k :: k != id ==> (k in r <==> k in m) && (k in m ==> r[k] == m[k])
  { m[id := SessionInfo(id, "remote", now, false)] }

  /** connect_to_host's reply: always a success echoing the requested id. */
  function ConnectReply(id: string): (r: ConnectionResponse)
    ensures r.success && r.sessionId == id && r.error.None?
    ensures r.serverInfo == Some(SimulatedServer)
  { ConnectionResponse(true, id, Some(SimulatedServer), None) }

  // ----------------------------------------------------------- properties

  /** Connecting is never refused: no operation compares the table with max_connections. */
  lemma NoConnectionLimit(m: Sessions, config: NetworkConfig, id: string, now: nat)
    requires |m| >= config.maxConnections && id !in m
    ensures |AfterConnect(m, id, now)| > config.maxConnections
    ensures ConnectReply(id).success
  {
    assert AfterConnect(m, id, now).Keys == m.Keys + {id};
  }

  /** Reconnecting with a known id overwrites its entry and does not grow the table. */
  lemma ReconnectOverwrites(m: Sessions, id: string, now: nat)
    requires id in m
    ensures |AfterConnect(m, id, now)| == |m|
    ensures !AfterConnect(m, id, now)[id].isHost
  {
    assert AfterConnect(m, id, now).Keys == m.Keys;
  }

  // --------------------------------------------------------------- manager

  class NetworkManager {
    var config: NetworkConfig
    var activeSessions: Sessions

    ghost predicate Valid()
      reads this
    { KeyedById(activeSessions) }

    constructor ()
      ensures Valid() && config == DefaultConfig && activeSessions == map[]
    {
      config := DefaultConfig;
      activeSessions := map[];
    }

    /** start_host_server; `sessionId` stands for the fresh UUID, `serverStart` for binding the port. */
    method StartHostServer(serverStart: Result<()>, sessionId: string, now: nat) returns (r: Result<string>)
      requires Valid()
      requires sessionId !in activeSessions
      modifies this
      ensures Valid() && config == old(config)
      ensures serverStart.Err? ==> r == Err(serverStart.error) && activeSessions == old(activeSessions)
      ensures serverStart.Ok? ==> (r == Ok(sessionId)
        && activeSessions == old(activeSessions)[sessionId := HostSession(sessionId, now)])
    {
      if serverStart.Err? {
        return Err(serverStart.error);
      }
      activeSessions := activeSessions[sessionId := HostSession(sessionId, now)];
      r := Ok(sessionId);
    }

    method ConnectToHost(sessionId: string, now: nat) returns (r: Result<ConnectionResponse>)
      requires Valid()
      modifies this
      ensures Valid() && config == old(config)
      ensures r == Ok(ConnectReply(sessionId))
      ensures activeSessions == AfterConnect(old(activeSessions), sessionId, now)
    {
      activeSessions := activeSessions[sessionId := SessionInfo(sessionId, "remote", now, false)];
      r := Ok(ConnectReply(sessionId));
    }

    /** disconnect_session: removes the id if present; succeeds either way. */
    method DisconnectSession(sessionId: string) returns (r: Result<()>)
      requires Valid()
      modifies this
      ensures Valid() && config == old(config)
      ensures r.Ok? && activeSessions == old(activeSessions) - {sessionId}
    {
      activeSessions := activeSessions - {sessionId};
      r := Ok(());
    }

    method GetActiveSessions() returns (r: seq<SessionInfo>)
      ensures |r| == |activeSessions|
      ensures forall s :: s in r <==> s in activeSessions.Values
    {
      r := MapValues(activeSessions);
    }

    method UpdateConfig(c: NetworkConfig) returns (r: Result<()>)
      modifies this
      ensures r.Ok? && config == c && activeSessions == old(activeSessions)
    {
      config := c;
      r := Ok(());
    }

    /** get_network_stats: both counts are the table size, byte counters are 0; `nowSecs` is the Unix time. */
    method GetNetworkStats(nowSecs: nat) returns (s: NetworkStats)
      ensures s.activeConnections == |activeSessions| && s.totalSessions == |activeSessions|
      ensures s.bytesSent == 0 && s.bytesReceived == 0 && s.uptime == nowSecs
    {
      var sessions := GetActiveSessions();
      s := NetworkStats(|sessions|, |sessions|, 0, 0, nowSecs);
    }
  }
}
