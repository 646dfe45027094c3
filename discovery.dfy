/**
 * The LAN peer directory of `NetworkDiscovery`: devices heard on the UDP
 * discovery port, keyed by device id, at most one per IP address, swept
 * after 30 seconds of silence. The sockets are left out: a received
 * datagram is handed to `HandleMessage`, and messages the service sends
 * are appended to `outbox`. Instants are milliseconds.
 */
module Discovery {
  import opened Text

  const DiscoveryPort: nat := 7879
  const BroadcastIntervalMs: nat := 5_000
  const DeviceTimeoutMs: nat := 30_000

  datatype MessageType = Announce | Response | Goodbye | ConnectionRequest | ConnectionResponse

  datatype ConnectionRequestData = ConnectionRequestData(
    requestId: string,
    requesterDeviceId: string,
    requesterName: string,
    requesterIp: string,
    requestedPermissions: seq<string>,
    message: Option<string>)

  datatype DeviceInfo = DeviceInfo(
    deviceId: string,
    deviceName: string,
    deviceType: string,
    version: string,
    capabilities: seq<string>,
    serverPort: nat,
    ipAddress: string)

  datatype SocketAddr = SocketAddr(host: string, port: nat)

  datatype DiscoveredDevice = DiscoveredDevice(info: DeviceInfo, lastSeen: nat, address: SocketAddr)

  datatype DiscoveryMessage = DiscoveryMessage(
    messageType: MessageType,
    deviceInfo: DeviceInfo,
    timestamp: nat,
    connectionRequest: Option<ConnectionRequestData>)

  /** A datagram the service sends: to everyone, or to one address. */
  datatype Outgoing = Broadcast(msg: DiscoveryMessage) | Unicast(msg: DiscoveryMessage, to: SocketAddr)

  type Directory = map<string, DiscoveredDevice>

  /** The local device description built by `new`; `id` is the fresh UUID, `ip` the detected address. */
  function LocalDeviceInfo(id: string, name: string, serverPort: nat, ip: string): (d: DeviceInfo)
    ensures d.deviceId == id && d.deviceName == name && d.serverPort == serverPort && d.ipAddress == ip
    ensures d.deviceType == "AnyViewer" && d.version == "1.0.0"
    ensures d.capabilities == ["screen_capture", "input_forwarding", "file_transfer"]
  {
    DeviceInfo(id, name, "AnyViewer", "1.0.0", ["screen_capture", "input_forwarding", "file_transfer"], serverPort, ip)
  }

  /** Messages from our own device id or our own IP are ignored. */
  predicate IsFromSelf(local: DeviceInfo, msg: DiscoveryMessage)
  {
    msg.deviceInfo.deviceId == local.deviceId || msg.deviceInfo.ipAddress == local.ipAddress
  }

  /** Every record is stored under its own device id. */
  ghost predicate KeyedByDeviceId(m: Directory)
  {
    forall k :: k in m ==> m[k].info.deviceId == k
  }

  /** No two records share an IP address. */
  ghost predicate DistinctIps(m: Directory)
  {
    forall k1, k2 :: k1 in m && k2 in m && k1 != k2 ==> m[k1].info.ipAddress != m[k2].info.ipAddress
  }

  ghost predicate WellFormed(m: Directory)
  {
    KeyedByDeviceId(m) && DistinctIps(m)
  }

  /** add_discovered_device: drop every record with the sender's IP, then insert the sender. */
  function WithDevice(m: Directory, info: DeviceInfo, now: nat, addr: SocketAddr): (r: Directory)
    ensures info.deviceId in r && r[info.deviceId] == DiscoveredDevice(info, now, addr)
    ensures forall k :: k in r && k != info.deviceId ==> k in m && r[k] == m[k] && m[k].info.ipAddress != info.ipAddress
    ensures forall k :: k in m && k != info.deviceId && m[k].info.ipAddress != info.ipAddress ==> k in r
  {
    var kept := map k | k in m && m[k].info.ipAddress != info.ipAddress :: m[k];
    kept[info.deviceId := DiscoveredDevice(info, now, addr)]
  }

  /** Age of a record; a last_seen in the future counts as zero (`unwrap_or_default`). */
  function Age(now: nat, lastSeen: nat): (a: nat)
    ensures lastSeen <= now ==> a + lastSeen == now
    ensures lastSeen > now ==> a == 0
  { if lastSeen <= now then now - lastSeen else 0 }

  /** The cleanup task's retain: keep records younger than 30 seconds. */
  function Fresh(m: Directory, now: nat): (r: Directory)
    ensures forall k :: k in r <==> k in m && Age(now, m[k].lastSeen) < DeviceTimeoutMs
    ensures forall k :: k in r ==> r[k] == m[k]
  { map k | k in m && Age(now, m[k].lastSeen) < DeviceTimeoutMs :: m[k] }

  // ----------------------------------------------------------- properties

  /** A cleanup pass sends a device list exactly when some record had been silent for the timeout. */
  lemma CleanupSendsIffStale(m: Directory, now: nat)
    ensures |Fresh(m, now)| != |m| <==> exists k :: k in m && Age(now, m[k].lastSeen) >= DeviceTimeoutMs
  {
    var r := Fresh(m, now);
    assert r.Keys <= m.Keys;
    if k :| k in m && Age(now, m[k].lastSeen) >= DeviceTimeoutMs {
      assert k !in r.Keys;
      SubsetCard(r.Keys, m.Keys - {k});
    } else {
      assert r.Keys == m.Keys;
    }
  }

  /** Inserting a device keeps ids as keys and keeps IP addresses distinct. */
  lemma WithDevicePreserves(m: Directory, info: DeviceInfo, now: nat, addr: SocketAddr)
    requires WellFormed(m)
    ensures WellFormed(WithDevice(m, info, now, addr))
  {
    var r := WithDevice(m, info, now, addr);
    forall k1, k2 | k1 in r && k2 in r && k1 != k2
      ensures r[k1].info.ipAddress != r[k2].info.ipAddress
    {
      if k1 != info.deviceId && k2 != info.deviceId {
        assert r[k1] == m[k1] && r[k2] == m[k2];
      }
    }
  }

  /** The sweep keeps exactly the recently seen devices, also those seen "in the future". */
  lemma FreshKeepsFuture(m: Directory, now: nat, k: string)
    requires k in m && m[k].lastSeen > now
    ensures k in Fresh(m, now)
  {
  }

  lemma FreshPreserves(m: Directory, now: nat)
    requires WellFormed(m)
    ensures WellFormed(Fresh(m, now))
  {
  }

  /**
   * In a directory keyed by device id, the record found by searching the
   * values for a device id is the one stored under that key.
   */
  lemma FindByDeviceId(m: Directory, target: string)
    requires KeyedByDeviceId(m)
    ensures (exists d :: d in m.Values && d.info.deviceId == target) <==> target in m
    ensures forall d :: d in m.Values && d.info.deviceId == target ==> d == m[target]
  {
    if target in m {
      assert m[target] in m.Values;
    }
  }

  /** The `retain` loop of the cleanup task, one record at a time. */
  method RetainFresh(m: Directory, now: nat) returns (r: Directory)
    ensures r == Fresh(m, now)
  {
    r := m;
    var todo := m.Keys;
    while todo != {}
      invariant todo <= m.Keys
      invariant forall k :: k in r <==> k in m && (k in todo || Age(now, m[k].lastSeen) < DeviceTimeoutMs)
      invariant forall k :: k in r ==> r[k] == m[k]
      decreases |todo|
    {
      var k :| k in todo;
      if !(Age(now, r[k].lastSeen) < DeviceTimeoutMs) {
        r := r - {k};
      }
      todo := todo - {k};
    }
  }

  // --------------------------------------------------------------- service

  class NetworkDiscovery {
    const deviceInfo: DeviceInfo
    var devices: Directory
    var isRunning: bool
    /** Whether `with_connection_request_sender` installed a forwarding channel. */
    var hasRequestSender: bool
    /** Connection requests forwarded on connection_request_tx. */
    var forwardedRequests: seq<ConnectionRequestData>
    /** Datagrams sent. */
    var outbox: seq<Outgoing>
    /** Device lists sent on device_updates_tx, each in no particular order. */
    var deviceUpdates: seq<set<DiscoveredDevice>>

    ghost predicate Valid()
      reads this
    {
      WellFormed(devices)
    }

    /** `new`; `id` stands for the fresh UUID and `ip` for the detected local address. */
    constructor (name: string, serverPort: nat, id: string, ip: string)
      ensures Valid()
      ensures deviceInfo == LocalDeviceInfo(id, name, serverPort, ip)
      ensures devices == map[] && !isRunning && !hasRequestSender
      ensures forwardedRequests == [] && outbox == [] && deviceUpdates == []
    {
      deviceInfo := LocalDeviceInfo(id, name, serverPort, ip);
      devices := map[];
      isRunning := false;
      hasRequestSender := false;
      forwardedRequests := [];
      outbox := [];
      deviceUpdates := [];
    }

    method WithConnectionRequestSender()
      modifies this
      ensures hasRequestSender
      ensures devices == old(devices) && isRunning == old(isRunning)
      ensures forwardedRequests == old(forwardedRequests) && outbox == old(outbox)
      ensures deviceUpdates == old(deviceUpdates)
    {
      hasRequestSender := true;
    }

    /** start: a no-op when already running; otherwise raises the flag (the tasks are left out). */
    method Start() returns (r: Result<()>)
      modifies this
      ensures r.Ok? && isRunning
      ensures devices == old(devices) && hasRequestSender == old(hasRequestSender)
      ensures forwardedRequests == old(forwardedRequests) && outbox == old(outbox)
      ensures deviceUpdates == old(deviceUpdates)
    {
      if isRunning {
        return Ok(());
      }
      isRunning := true;
      r := Ok(());
    }

    /** stop: a no-op when not running; otherwise broadcasts Goodbye and clears the directory. */
    method Stop(now: nat) returns (r: Result<()>)
      requires Valid()
      modifies this
      ensures Valid()
      ensures r.Ok? && !isRunning
      ensures !old(isRunning) ==> devices == old(devices) && outbox == old(outbox)
      ensures old(isRunning) ==>
        (devices == map[] && outbox == old(outbox) + [Broadcast(DiscoveryMessage(Goodbye, deviceInfo, now / 1000, None))])
      ensures hasRequestSender == old(hasRequestSender) && forwardedRequests == old(forwardedRequests)
      ensures deviceUpdates == old(deviceUpdates)
    {
      if !isRunning {
        return Ok(());
      }
      isRunning := false;
      outbox := outbox + [Broadcast(DiscoveryMessage(Goodbye, deviceInfo, now / 1000, None))];
      devices := map[];
      r := Ok(());
    }

    /** get_discovered_devices: every stored record, with no staleness filter. */
    method GetDiscoveredDevices() returns (r: seq<DiscoveredDevice>)
      requires Valid()
      ensures |r| == |devices|
      ensures forall d :: d in r <==> d in devices.Values
    {
      r := MapValues(devices);
    }

    /**
     * send_connection_request: looks the target up among the stored records;
     * `sendOk` is the outcome of the UDP send.
     */
    method SendConnectionRequest(target: string, data: ConnectionRequestData, now: nat, sendOk: bool)
      returns (r: Result<()>)
      requires Valid()
      modifies this
      ensures devices == old(devices) && isRunning == old(isRunning)
      ensures hasRequestSender == old(hasRequestSender) && forwardedRequests == old(forwardedRequests)
      ensures deviceUpdates == old(deviceUpdates)
      ensures target !in devices ==> r == Err("Target device not found: " + target) && outbox == old(outbox)
      ensures target in devices ==>
        ((r.Ok? <==> sendOk) && outbox == old(outbox)
         + [Unicast(DiscoveryMessage(ConnectionRequest, deviceInfo, now / 1000, Some(data)), devices[target].address)])
    {
      FindByDeviceId(devices, target);
      if target !in devices {
        return Err("Target device not found: " + target);
      }
      var device := devices[target];
      outbox := outbox + [Unicast(DiscoveryMessage(ConnectionRequest, deviceInfo, now / 1000, Some(data)), device.address)];
      if !sendOk {
        return Err("Failed to send UDP datagram");
      }
      r := Ok(());
    }

    /** One iteration of the UDP listener: dispatch a decoded datagram from `from`. */
    method HandleMessage(msg: DiscoveryMessage, from: SocketAddr, now: nat)
      requires Valid()
      modifies this
      ensures Valid()
      ensures isRunning == old(isRunning) && hasRequestSender == old(hasRequestSender)
      ensures deviceUpdates == old(deviceUpdates)
      ensures !isRunning || IsFromSelf(deviceInfo, msg) ==>
        devices == old(devices) && outbox == old(outbox) && forwardedRequests == old(forwardedRequests)
      ensures isRunning && !IsFromSelf(deviceInfo, msg) ==> match msg.messageType
        case Announce =>
          devices == WithDevice(old(devices), msg.deviceInfo, now, from)
          && outbox == old(outbox) + [Unicast(DiscoveryMessage(Response, deviceInfo, now / 1000, None), from)]
          && forwardedRequests == old(forwardedRequests)
        case Response =>
          devices == WithDevice(old(devices), msg.deviceInfo, now, from)
          && outbox == old(outbox) && forwardedRequests == old(forwardedRequests)
        case ConnectionRequest =>
          devices == old(devices) && outbox == old(outbox)
          && forwardedRequests == old(forwardedRequests)
             + (if msg.connectionRequest.Some? && hasRequestSender then [msg.connectionRequest.value] else [])
        case ConnectionResponse =>
          devices == old(devices) && outbox == old(outbox) && forwardedRequests == old(forwardedRequests)
        case Goodbye =>
          devices == old(devices) - {msg.deviceInfo.deviceId}
          && outbox == old(outbox) && forwardedRequests == old(forwardedRequests)
    {
      if !isRunning || IsFromSelf(deviceInfo, msg) {
        return;
      }
      match msg.messageType {
        case Announce =>
          outbox := outbox + [Unicast(DiscoveryMessage(Response, deviceInfo, now / 1000, None), from)];
          WithDevicePreserves(devices, msg.deviceInfo, now, from);
          devices := WithDevice(devices, msg.deviceInfo, now, from);
        case Response =>
          WithDevicePreserves(devices, msg.deviceInfo, now, from);
          devices := WithDevice(devices, msg.deviceInfo, now, from);
        case ConnectionRequest =>
          if msg.connectionRequest.Some? && hasRequestSender {
            forwardedRequests := forwardedRequests + [msg.connectionRequest.value];
          }
        case ConnectionResponse =>
        case Goodbye =>
          devices := devices - {msg.deviceInfo.deviceId};
      }
    }

    /**
     * One pass of the cleanup task: remove the records silent for 30 seconds
     * or more, and when that removed any, send the remaining devices on
     * device_updates_tx.
     */
    method Cleanup(now: nat)
      requires Valid()
      modifies this
      ensures Valid()
      ensures devices == Fresh(old(devices), now)
      ensures isRunning == old(isRunning) && hasRequestSender == old(hasRequestSender)
      ensures forwardedRequests == old(forwardedRequests) && outbox == old(outbox)
      ensures |devices| != |old(devices)| ==> deviceUpdates == old(deviceUpdates) + [devices.Values]
      ensures |devices| == |old(devices)| ==> deviceUpdates == old(deviceUpdates)
    {
      var beforeCount := |devices|;
      FreshPreserves(devices, now);
      devices := RetainFresh(devices, now);
      if beforeCount != |devices| {
        deviceUpdates := deviceUpdates + [devices.Values];
      }
    }
  }
}
