/**
 * The connection manager (`ConnectionManager`): the status machine that
 * tries a direct (P2P) path first and, when that fails and fallback is
 * allowed, the relay server. Each attempt of the P2P manager or the relay
 * client is an input (its `Result`); the status field is overwritten step
 * by step, and every overwrite is also sent as a StatusChanged event once
 * the event channel exists.
 */
module ConnectionManager {
  import opened Text

  datatype ConnectionConfig = ConnectionConfig(
    p2pEnabled: bool,
    relayEnabled: bool,
    autoFallbackToRelay: bool,
    connectionTimeoutSeconds: nat)

  const DefaultConfig: ConnectionConfig := ConnectionConfig(true, true, true, 30)

  datatype ConnectionType = P2P | Relay

  datatype ConnectionStatus =
    | Disconnected
    | Connecting
    | Connected(kind: ConnectionType)
    | Failed(reason: string)

  /** What the P2P manager reports for an outgoing connection. */
  datatype P2PStatus = PeerDisconnected | PeerConnecting | PeerConnected | PeerFailed

  datatype ConnectionEvent =
    | StatusChanged(status: ConnectionStatus)
    | ConnectionRequest(fromId: string, deviceName: string, requiresPermission: bool)
    | DataReceived(dataFromId: string, dataType: string, data: seq<Byte>)
    | Error(message: string)

  /** The relay client's events as seen by the hosting listener task. */
  datatype RelayEvent =
    | RelayConnected
    | RegistrationSuccess(assignedId: string)
    | RelayConnectionRequest(targetConnectionId: string, clientName: string)
    | RelayError(error: string)
    | RelayOther

  const HostFailure: string := "Failed to establish any connection (P2P and Relay)"
  const ConnectFailure: string := "Failed to establish connection via P2P or Relay"
  const NoIdMessage: string := "No connection ID generated"

  /** One operation: its result and the statuses it set, in order. */
  datatype Run<T> = Run(result: Result<T>, updates: seq<ConnectionStatus>)

  /**
   * start_hosting as a function of the manager's configuration and the
   * outcomes of the P2P host attempt and of the relay connect and register
   * calls. A relay success leaves the status Connecting: the listener
   * task moves it to Connected(Relay) on RegistrationSuccess.
   */
  function Hosting(config: ConnectionConfig, currentId: Option<string>, hasP2P: bool, hasRelay: bool,
                   p2pHost: Result<()>, relayConnect: Result<()>, relayRegister: Result<()>): Run<string>
  {
    if currentId.None? then Run(Err(NoIdMessage), [Connecting])
    else
      var p2pTried := config.p2pEnabled && hasP2P;
      if p2pTried && p2pHost.Ok? then Run(Ok(currentId.value), [Connecting, Connected(P2P)])
      else if p2pTried && !config.autoFallbackToRelay then Run(Err(p2pHost.error), [Connecting])
      else if config.relayEnabled && hasRelay then
        if relayConnect.Err? then Run(Err(relayConnect.error), [Connecting])
        else if relayRegister.Err? then Run(Err(relayRegister.error), [Connecting])
        else Run(Ok(currentId.value), [Connecting])
      else Run(Err(HostFailure), [Connecting, Failed(HostFailure)])
  }

  /**
   * connect_to_host as a function of the configuration and the outcomes
   * of the P2P attempt and the relay calls. A P2P status other than
   * Connected or Failed falls through to the relay whatever the fallback
   * setting.
   */
  function ConnectingToHost(config: ConnectionConfig, currentId: Option<string>, hasP2P: bool, hasRelay: bool,
                            p2pConnect: Result<P2PStatus>, relayIsConnected: bool, relayConnect: Result<()>,
                            relayRegister: Result<()>, relayConnectPeer: Result<()>): Run<()>
  {
    var p2pTried := config.p2pEnabled && hasP2P;
    if p2pTried && p2pConnect == Ok(PeerConnected) then Run(Ok(()), [Connecting, Connected(P2P)])
    else if p2pTried && p2pConnect == Ok(PeerFailed) && !config.autoFallbackToRelay then
      Run(Err("P2P connection failed"), [Connecting])
    else if p2pTried && p2pConnect.Err? && !config.autoFallbackToRelay then
      Run(Err(p2pConnect.error), [Connecting])
    else if config.relayEnabled && hasRelay then
      if !relayIsConnected && relayConnect.Err? then Run(Err(relayConnect.error), [Connecting])
      else if !relayIsConnected && currentId.None? then Run(Err(NoIdMessage), [Connecting])
      else if !relayIsConnected && relayRegister.Err? then Run(Err(relayRegister.error), [Connecting])
      else if relayConnectPeer.Err? then Run(Err(relayConnectPeer.error), [Connecting])
      else Run(Ok(()), [Connecting, Connected(Relay)])
    else Run(Err(ConnectFailure), [Connecting, Failed(ConnectFailure)])
  }

  /** send_screen_frame / send_input_event: only a Connected status may send. */
  function SendOutcome(status: ConnectionStatus, hasRelay: bool, relaySend: Result<()>, what: string): (r: Result<()>)
    ensures !status.Connected? ==> r == Err("No active connection to send " + what)
    ensures status == Connected(P2P) ==> r == Ok(())
    ensures status == Connected(Relay) ==> r == (if hasRelay then relaySend else Ok(()))
  {
    match status
      case Connected(P2P) => Ok(())
      case Connected(Relay) => if hasRelay then relaySend else Ok(())
      case _ => Err("No active connection to send " + what)
  }

  function StatusEvents(updates: seq<ConnectionStatus>): (r: seq<ConnectionEvent>)
    ensures |r| == |updates|
    ensures forall i :: 0 <= i < |updates| ==> r[i] == StatusChanged(updates[i])
  { if updates == [] then [] else [StatusChanged(updates[0])] + StatusEvents(updates[1..]) }

  /** Announcing a and then b after the events e appends exactly the events of [a, b]. */
  lemma AnnouncedPair(e: seq<ConnectionEvent>, a: ConnectionStatus, b: ConnectionStatus)
    ensures e + StatusEvents([a]) == e + [StatusChanged(a)]
    ensures e + [StatusChanged(a)] + [StatusChanged(b)] == e + StatusEvents([a, b])
  {
    assert [a, b][1..] == [b];
    ConcatAssoc(e, [StatusChanged(a)], [StatusChanged(b)]);
  }

  // ----------------------------------------------------------- properties

  /** Hosting always sets Connecting first; it fails without a generated id. */
  lemma HostingStartsConnecting(config: ConnectionConfig, id: Option<string>, hasP2P: bool, hasRelay: bool,
                                p2pHost: Result<()>, rc: Result<()>, rr: Result<()>)
    ensures var run := Hosting(config, id, hasP2P, hasRelay, p2pHost, rc, rr);
      run.updates != [] && run.updates[0] == Connecting
      && (id.None? ==> run.result == Err(NoIdMessage) && run.updates == [Connecting])
      && (run.result.Ok? ==> id.Some? && run.result.value == id.value)
  {
  }

  /** A P2P host success gives Connected(P2P), and the relay outcomes play no part. */
  lemma HostingP2PWins(config: ConnectionConfig, id: string, hasRelay: bool,
                       rc1: Result<()>, rr1: Result<()>, rc2: Result<()>, rr2: Result<()>)
    requires config.p2pEnabled
    ensures Hosting(config, Some(id), true, hasRelay, Ok(()), rc1, rr1)
         == Hosting(config, Some(id), true, hasRelay, Ok(()), rc2, rr2)
         == Run(Ok(id), [Connecting, Connected(P2P)])
  {
  }

  /** Without fallback, a P2P failure is returned at once and the relay is never consulted. */
  lemma HostingNoFallback(config: ConnectionConfig, id: string, hasRelay: bool, e: string,
                          rc1: Result<()>, rr1: Result<()>, rc2: Result<()>, rr2: Result<()>)
    requires config.p2pEnabled && !config.autoFallbackToRelay
    ensures Hosting(config, Some(id), true, hasRelay, Err(e), rc1, rr1)
         == Hosting(config, Some(id), true, hasRelay, Err(e), rc2, rr2)
         == Run(Err(e), [Connecting])
  {
  }

  /**
   * Status after hosting: Failed exactly when neither path was available
   * or succeeded, Connected(P2P) exactly on a P2P success; an error of a
   * relay call leaves it Connecting.
   */
  lemma HostingFinalStatus(config: ConnectionConfig, id: string, hasP2P: bool, hasRelay: bool,
                           p2pHost: Result<()>, rc: Result<()>, rr: Result<()>)
    ensures var run := Hosting(config, Some(id), hasP2P, hasRelay, p2pHost, rc, rr);
      var last := run.updates[|run.updates| - 1];
      (last == Connected(P2P) <==> config.p2pEnabled && hasP2P && p2pHost.Ok?)
      && (last.Failed? <==> run.updates == [Connecting, Failed(HostFailure)])
      && (last.Failed? <==> (!(config.p2pEnabled && hasP2P && p2pHost.Ok?)
                           && !(config.p2pEnabled && hasP2P && !config.autoFallbackToRelay)
                           && !(config.relayEnabled && hasRelay)))
      && (last.Failed? ==> run.result == Err(HostFailure))
  {
  }

  /** Connecting to a host: P2P success gives Connected(P2P); without fallback a P2P failure is final. */
  lemma ConnectP2POutcomes(config: ConnectionConfig, id: Option<string>, hasRelay: bool, conn: bool,
                           rc: Result<()>, rr: Result<()>, rp: Result<()>)
    requires config.p2pEnabled
    ensures ConnectingToHost(config, id, true, hasRelay, Ok(PeerConnected), conn, rc, rr, rp)
            == Run(Ok(()), [Connecting, Connected(P2P)])
    ensures !config.autoFallbackToRelay ==>
      ConnectingToHost(config, id, true, hasRelay, Ok(PeerFailed), conn, rc, rr, rp)
      == Run(Err("P2P connection failed"), [Connecting])
  {
  }

  /**
   * A P2P attempt still in progress is not a failure and falls through to
   * the relay even without fallback; with every relay call succeeding the
   * result is Connected(Relay).
   */
  lemma ConnectPendingFallsThrough(config: ConnectionConfig, id: string, conn: bool, pending: P2PStatus)
    requires config.p2pEnabled && config.relayEnabled
    requires pending == PeerConnecting || pending == PeerDisconnected
    ensures ConnectingToHost(config, Some(id), true, true, Ok(pending), conn, Ok(()), Ok(()), Ok(()))
            == Run(Ok(()), [Connecting, Connected(Relay)])
  {
  }

  /** When the relay is not available and P2P did not connect, connect_to_host ends Failed. */
  lemma ConnectFailsWithoutPaths(config: ConnectionConfig, id: Option<string>, hasP2P: bool,
                                 p2p: Result<P2PStatus>, conn: bool, rc: Result<()>, rr: Result<()>, rp: Result<()>)
    requires !(config.p2pEnabled && hasP2P && p2p == Ok(PeerConnected))
    requires !(config.p2pEnabled && hasP2P && !config.autoFallbackToRelay && (p2p.Err? || p2p == Ok(PeerFailed)))
    ensures ConnectingToHost(config, id, hasP2P, false, p2p, conn, rc, rr, rp)
            == Run(Err(ConnectFailure), [Connecting, Failed(ConnectFailure)])
  {
  }

  // --------------------------------------------------------------- manager

  class ConnectionManager {
    var config: ConnectionConfig
    var currentConnectionId: Option<string>
    /** Whether a P2P manager, a relay client and the event channel exist. */
    var hasP2P: bool
    var hasRelay: bool
    var hasSender: bool
    var status: ConnectionStatus
    var events: seq<ConnectionEvent>

    constructor ()
      ensures config == DefaultConfig && currentConnectionId == None
      ensures !hasP2P && !hasRelay && !hasSender
      ensures status == Disconnected && events == []
    {
      config := DefaultConfig;
      currentConnectionId := None;
      hasP2P, hasRelay, hasSender := false, false, false;
      status := Disconnected;
      events := [];
    }

    function Announced(updates: seq<ConnectionStatus>): seq<ConnectionEvent>
      reads this
    { if hasSender then events + StatusEvents(updates) else events }

    /** update_status: overwrite the status and announce it. */
    method UpdateStatus(s: ConnectionStatus)
      modifies this
      ensures status == s && events == if hasSender then old(events) + [StatusChanged(s)] else old(events)
      ensures config == old(config) && currentConnectionId == old(currentConnectionId)
      ensures hasP2P == old(hasP2P) && hasRelay == old(hasRelay) && hasSender == old(hasSender)
    {
      status := s;
      if hasSender {
        events := events + [StatusChanged(s)];
      }
    }

    /**
     * initialize: install the event channel, take the generated id (the
     * generator's result is an input), then create the P2P manager (its
     * discovery start is an input) and the relay client as configured.
     */
    method Initialize(generated: Result<string>, p2pDiscovery: Result<()>) returns (r: Result<()>)
      modifies this
      ensures hasSender && status == old(status) && events == old(events) && config == old(config)
      ensures generated.Err? ==> (r == Err(generated.error) && currentConnectionId == old(currentConnectionId)
        && hasP2P == old(hasP2P) && hasRelay == old(hasRelay))
      ensures generated.Ok? ==> currentConnectionId == Some(generated.value)
      ensures generated.Ok? && config.p2pEnabled && p2pDiscovery.Err? ==>
        r == Err(p2pDiscovery.error) && hasP2P == old(hasP2P) && hasRelay == old(hasRelay)
      ensures generated.Ok? && !(config.p2pEnabled && p2pDiscovery.Err?) ==>
        r.Ok? && hasP2P == (old(hasP2P) || config.p2pEnabled) && hasRelay == (old(hasRelay) || config.relayEnabled)
    {
      hasSender := true;
      if generated.Err? {
        return Err(generated.error);
      }
      currentConnectionId := Some(generated.value);
      if config.p2pEnabled {
        if p2pDiscovery.Err? {
          return Err(p2pDiscovery.error);
        }
        hasP2P := true;
      }
      if config.relayEnabled {
        hasRelay := true;
      }
      r := Ok(());
    }

    method StartHosting(p2pHost: Result<()>, relayConnect: Result<()>, relayRegister: Result<()>) returns (r: Result<string>)
      modifies this
      ensures var run := old(Hosting(config, currentConnectionId, hasP2P, hasRelay, p2pHost, relayConnect, relayRegister));
        r == run.result && status == run.updates[|run.updates| - 1] && events == old(Announced(run.updates))
      ensures config == old(config) && currentConnectionId == old(currentConnectionId)
      ensures hasP2P == old(hasP2P) && hasRelay == old(hasRelay) && hasSender == old(hasSender)
    {
      AnnouncedPair(events, Connecting, Connected(P2P));
      AnnouncedPair(events, Connecting, Failed(HostFailure));
      UpdateStatus(Connecting);
      if currentConnectionId.None? {
        return Err(NoIdMessage);
      }
      var id := currentConnectionId.value;
      var established := false;
      if config.p2pEnabled && hasP2P {
        if p2pHost.Ok? {
          UpdateStatus(Connected(P2P));
          established := true;
        } else if !config.autoFallbackToRelay {
          return Err(p2pHost.error);
        }
      }
      if !established && config.relayEnabled && hasRelay {
        if relayConnect.Err? {
          return Err(relayConnect.error);
        }
        if relayRegister.Err? {
          return Err(relayRegister.error);
        }
        established := true;
      }
      if !established {
        UpdateStatus(Failed(HostFailure));
        return Err(HostFailure);
      }
      r := Ok(id);
    }

    method ConnectToHost(target: string, p2pConnect: Result<P2PStatus>, relayIsConnected: bool,
                         relayConnect: Result<()>, relayRegister: Result<()>, relayConnectPeer: Result<()>)
      returns (r: Result<()>)
      modifies this
      ensures var run := old(ConnectingToHost(config, currentConnectionId, hasP2P, hasRelay, p2pConnect,
                                         relayIsConnected, relayConnect, relayRegister, relayConnectPeer));
        r == run.result && status == run.updates[|run.updates| - 1] && events == old(Announced(run.updates))
      ensures config == old(config) && currentConnectionId == old(currentConnectionId)
      ensures hasP2P == old(hasP2P) && hasRelay == old(hasRelay) && hasSender == old(hasSender)
    {
      AnnouncedPair(events, Connecting, Connected(P2P));
      AnnouncedPair(events, Connecting, Connected(Relay));
      AnnouncedPair(events, Connecting, Failed(ConnectFailure));
      UpdateStatus(Connecting);
      var established := false;
      if config.p2pEnabled && hasP2P {
        match p2pConnect {
          case Ok(PeerConnected) =>
            UpdateStatus(Connected(P2P));
            established := true;
          case Ok(PeerFailed) =>
            if !config.autoFallbackToRelay {
              return Err("P2P connection failed");
            }
          case Ok(_) =>
          case Err(e) =>
            if !config.autoFallbackToRelay {
              return Err(e);
            }
        }
      }
      if !established && config.relayEnabled && hasRelay {
        if !relayIsConnected {
          if relayConnect.Err? {
            return Err(relayConnect.error);
          }
          if currentConnectionId.None? {
            return Err(NoIdMessage);
          }
          if relayRegister.Err? {
            return Err(relayRegister.error);
          }
        }
        if relayConnectPeer.Err? {
          return Err(relayConnectPeer.error);
        }
        UpdateStatus(Connected(Relay));
        established := true;
      }
      if !established {
        UpdateStatus(Failed(ConnectFailure));
        return Err(ConnectFailure);
      }
      r := Ok(());
    }

    /** disconnect: errors of the sub-disconnects are only logged; the status always ends Disconnected. */
    method Disconnect() returns (r: Result<()>)
      modifies this
      ensures r.Ok? && status == Disconnected && events == old(Announced([Disconnected]))
      ensures config == old(config) && currentConnectionId == old(currentConnectionId)
      ensures hasP2P == old(hasP2P) && hasRelay == old(hasRelay) && hasSender == old(hasSender)
    {
      UpdateStatus(Disconnected);
      r := Ok(());
    }

    method SendScreenFrame(frame: seq<Byte>, relaySend: Result<()>) returns (r: Result<()>)
      ensures r == SendOutcome(status, hasRelay, relaySend, "screen frame")
      ensures r.Ok? ==> status.Connected?
    {
      r := SendOutcome(status, hasRelay, relaySend, "screen frame");
    }

    method SendInputEvent(relaySend: Result<()>) returns (r: Result<()>)
      ensures r == SendOutcome(status, hasRelay, relaySend, "input event")
      ensures r.Ok? ==> status.Connected?
    {
      r := SendOutcome(status, hasRelay, relaySend, "input event");
    }

    /** The hosting listener task, one relay event at a time. */
    method HandleRelayEvent(e: RelayEvent)
      modifies this
      ensures e.RegistrationSuccess? ==> status == Connected(Relay) && events == old(Announced([Connected(Relay)]))
      ensures e.RelayConnectionRequest? ==> (status == old(status)
        && events == (if hasSender then old(events) + [ConnectionRequest(e.targetConnectionId, e.clientName, true)] else old(events)))
      ensures e.RelayError? ==> (status == old(status)
        && events == (if hasSender then old(events) + [Error(e.error)] else old(events)))
      ensures (e.RelayConnected? || e.RelayOther?) ==> status == old(status) && events == old(events)
      ensures config == old(config) && currentConnectionId == old(currentConnectionId)
      ensures hasP2P == old(hasP2P) && hasRelay == old(hasRelay) && hasSender == old(hasSender)
    {
      match e {
        case RegistrationSuccess(_) =>
          UpdateStatus(Connected(Relay));
        case RelayConnectionRequest(target, name) =>
          if hasSender {
            events := events + [ConnectionRequest(target, name, true)];
          }
        case RelayError(msg) =>
          if hasSender {
            events := events + [Error(msg)];
          }
        case _ =>
      }
    }

    method GetConnectionId() returns (r: Option<string>)
      ensures r == currentConnectionId
    {
      r := currentConnectionId;
    }

    method UpdateConfig(c: ConnectionConfig) returns (r: Result<()>)
      modifies this
      ensures r.Ok? && config == c
      ensures currentConnectionId == old(currentConnectionId) && status == old(status) && events == old(events)
      ensures hasP2P == old(hasP2P) && hasRelay == old(hasRelay) && hasSender == old(hasSender)
    {
      config := c;
      r := Ok(());
    }

    /** get_available_peers: only the P2P manager's peers; a failed lookup gives none. */
    method GetAvailablePeers(discovered: Result<seq<string>>) returns (peers: seq<string>)
      ensures peers == (if hasP2P && discovered.Ok? then discovered.value else [])
    {
      peers := [];
      if hasP2P && discovered.Ok? {
        peers := peers + discovered.value;
      }
    }
  }
}
