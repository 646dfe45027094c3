/**
 * The permission manager (`PermissionManager`): pending permission
 * requests keyed by request id, active grants keyed by connection id,
 * whitelist auto-grant, a concurrent-grant limit, partial revocation,
 * expiry-aware checks and the periodic sweep. Instants are milliseconds;
 * request ids come from the caller in place of a fresh UUID; the event
 * channel is the sequence `events` of messages sent on it.
 */
module Permissions {
  import opened Text

  const MinuteMs: nat := 60_000
  /** Every new request expires five minutes after it is made. */
  const RequestExpiryMs: nat := 5 * MinuteMs

  datatype Permission = ScreenView | InputControl | FileTransfer | Clipboard | AudioAccess | SystemInfo

  datatype DeviceInfo = DeviceInfo(name: string, os: string, version: string, ipAddress: Option<string>)

  datatype PermissionRequest = PermissionRequest(
    id: string,
    connectionId: string,
    deviceName: string,
    deviceInfo: DeviceInfo,
    requestedPermissions: seq<Permission>,
    requestedAt: nat,
    expiresAt: nat)

  datatype PermissionResponse =
    | Granted(permissions: seq<Permission>, durationMinutes: Option<nat>)
    | Denied(reason: string)
    | Expired

  datatype PermissionGrant = PermissionGrant(
    connectionId: string,
    permissions: seq<Permission>,
    grantedAt: nat,
    expiresAt: Option<nat>,
    deviceInfo: DeviceInfo)

  datatype PermissionEvent =
    | RequestReceived(request: PermissionRequest)
    | RequestResponded(requestId: string, response: PermissionResponse)
    | PermissionRevoked(connectionId: string, revoked: seq<Permission>)
    | PermissionExpired(expiredConnection: string)
    | SecurityAlert(message: string)

  datatype PermissionConfig = PermissionConfig(
    requirePermissionForScreenView: bool,
    requirePermissionForInputControl: bool,
    requirePermissionForFileTransfer: bool,
    autoDenyAfterMinutes: nat,
    maxConcurrentConnections: nat,
    enableWhitelist: bool,
    whitelistedDevices: seq<string>,
    defaultSessionDurationMinutes: Option<nat>)

  datatype PermissionStats = PermissionStats(
    activeConnections: nat,
    pendingRequests: nat,
    totalGrantedSessions: nat,
    totalDeniedRequests: nat)

  const DefaultConfig: PermissionConfig :=
    PermissionConfig(true, true, true, 5, 3, false, [], Some(60))

  type Pending = map<string, PermissionRequest>
  type Grants = map<string, PermissionGrant>

  ghost predicate PendingKeyed(p: Pending) { forall k :: k in p ==> p[k].id == k }
  ghost predicate GrantsKeyed(g: Grants) { forall k :: k in g ==> g[k].connectionId == k }

  /** A whitelisted entry names either the connection id or the device name. */
  predicate IsWhitelisted(config: PermissionConfig, connectionId: string, deviceName: string)
  {
    exists i :: 0 <= i < |config.whitelistedDevices|
      && (config.whitelistedDevices[i] == connectionId || config.whitelistedDevices[i] == deviceName)
  }

  /** The grant grant_permission_internal builds: expiry = now + duration, or none. */
  function NewGrant(connectionId: string, device: DeviceInfo, permissions: seq<Permission>,
                    duration: Option<nat>, now: nat): (g: PermissionGrant)
    ensures g.connectionId == connectionId && g.permissions == permissions && g.deviceInfo == device
    ensures g.grantedAt == now
    ensures g.expiresAt.None? <==> duration.None?
    ensures duration.Some? ==> g.expiresAt.value == now + duration.value * MinuteMs
  {
    PermissionGrant(connectionId, permissions, now,
      match duration case None => None case Some(mins) => Some(now + mins * MinuteMs),
      device)
  }

  /** Grants after grant_permission_internal: insert or replace under the connection id. */
  function WithGrant(g: Grants, connectionId: string, device: DeviceInfo, permissions: seq<Permission>,
                     duration: Option<nat>, now: nat): (r: Grants)
    ensures connectionId in r && r[connectionId] == NewGrant(connectionId, device, permissions, duration, now)
    ensures forall k :: k != connectionId ==> (k in r <==> k in g) && (k in g ==> r[k] == g[k])
  { g[connectionId := NewGrant(connectionId, device, permissions, duration, now)] }

  predicate Unexpired(grant: PermissionGrant, now: nat)
  { grant.expiresAt.None? || now <= grant.expiresAt.value }

  /** check_permission. */
  function HasPermission(g: Grants, connectionId: string, p: Permission, now: nat): bool
  {
    if connectionId !in g then false
    else if g[connectionId].expiresAt.Some? && now > g[connectionId].expiresAt.value then false
    else p in g[connectionId].permissions
  }

  /** The list left by `retain(|p| !revoked.contains(p))`. */
  function Without(ps: seq<Permission>, revoked: seq<Permission>): (r: seq<Permission>)
    ensures forall p :: p in r <==> p in ps && p !in revoked
    ensures |r| <= |ps|
  {
    if ps == [] then []
    else (if ps[0] in revoked then [] else [ps[0]]) + Without(ps[1..], revoked)
  }

  /** Grants after revoke_permissions. */
  function Revoked(g: Grants, connectionId: string, which: Option<seq<Permission>>): (r: Grants)
    ensures forall k :: k != connectionId ==> (k in r <==> k in g) && (k in g ==> r[k] == g[k])
    ensures which.None? ==> connectionId !in r
    ensures which.Some? && connectionId in g ==>
      (connectionId in r <==> Without(g[connectionId].permissions, which.value) != [])
    ensures which.Some? && connectionId in r ==> (connectionId in g &&
      r[connectionId] == g[connectionId].(permissions := Without(g[connectionId].permissions, which.value)))
    ensures connectionId !in g ==> r == g
  {
    match which
      case None => g - {connectionId}
      case Some(ps) =>
        if connectionId !in g then g
        else
          var left := Without(g[connectionId].permissions, ps);
          if left == [] then g - {connectionId}
          else g[connectionId := g[connectionId].(permissions := left)]
  }

  /** The sweep of pending requests: drop those with now > expires_at. */
  function SweptPending(p: Pending, now: nat): (r: Pending)
    ensures forall k :: k in r <==> k in p && now <= p[k].expiresAt
    ensures forall k :: k in r ==> r[k] == p[k]
  { map k | k in p && !(now > p[k].expiresAt) :: p[k] }

  predicate GrantExpired(grant: PermissionGrant, now: nat)
  { grant.expiresAt.Some? && now > grant.expiresAt.value }

  /** The sweep of grants: drop those with an expiry in the past. */
  function SweptGrants(g: Grants, now: nat): (r: Grants)
    ensures forall k :: k in r <==> k in g && !GrantExpired(g[k], now)
    ensures forall k :: k in r ==> r[k] == g[k]
  { map k | k in g && !GrantExpired(g[k], now) :: g[k] }

  function ExpiredConnections(g: Grants, now: nat): set<string>
  { set k | k in g && GrantExpired(g[k], now) }

  // ----------------------------------------------------------- properties

  /** check_permission holds iff a grant exists, is unexpired and lists the permission. */
  lemma HasPermissionIff(g: Grants, c: string, p: Permission, now: nat)
    ensures HasPermission(g, c, p, now) <==> c in g && Unexpired(g[c], now) && p in g[c].permissions
  {
  }

  /**
   * Right after a grant, a permission checks true exactly when it is in
   * the granted list and the duration (if any) has not run out.
   */
  lemma CheckAfterGrant(g: Grants, c: string, device: DeviceInfo, ps: seq<Permission>,
                        duration: Option<nat>, now: nat, p: Permission, later: nat)
    ensures HasPermission(WithGrant(g, c, device, ps, duration, now), c, p, later)
      <==> p in ps && (duration.None? || later <= now + duration.value * MinuteMs)
  {
    var r := WithGrant(g, c, device, ps, duration, now);
    assert r[c] == NewGrant(c, device, ps, duration, now);
  }

  /** After revoking a list, none of its permissions checks true; the others are unaffected. */
  lemma CheckAfterRevoke(g: Grants, c: string, revoked: seq<Permission>, p: Permission, now: nat)
    ensures p in revoked ==> !HasPermission(Revoked(g, c, Some(revoked)), c, p, now)
    ensures p !in revoked ==> HasPermission(Revoked(g, c, Some(revoked)), c, p, now) == HasPermission(g, c, p, now)
  {
    if c in g {
      var left := Without(g[c].permissions, revoked);
      if left != [] {
        assert Revoked(g, c, Some(revoked))[c].permissions == left;
      }
    }
  }

  /** Revoking everything leaves no permission for that connection. */
  lemma CheckAfterRevokeAll(g: Grants, c: string, p: Permission, now: nat)
    ensures !HasPermission(Revoked(g, c, None), c, p, now)
  {
  }

  /** The sweep never removes an indefinite grant, and removes a timed one once it has lapsed. */
  lemma SweepKeepsIndefinite(g: Grants, c: string, now: nat)
    requires c in g
    ensures g[c].expiresAt.None? ==> c in SweptGrants(g, now)
    ensures g[c].expiresAt.Some? && now > g[c].expiresAt.value ==> c !in SweptGrants(g, now)
  {
  }

  /** Sweeping grants agrees with check_permission: what survives still answers as before. */
  lemma SweepAgreesWithCheck(g: Grants, c: string, p: Permission, now: nat)
    ensures HasPermission(SweptGrants(g, now), c, p, now) == HasPermission(g, c, p, now)
  {
  }

  /** The sweep of a map of grants, one key at a time; also returns the swept connection ids. */
  method RemoveExpiredGrants(g: Grants, now: nat) returns (r: Grants, expired: seq<string>)
    ensures r == SweptGrants(g, now)
    ensures forall c :: c in expired <==> c in ExpiredConnections(g, now)
    ensures |expired| == |ExpiredConnections(g, now)|
  {
    r := g;
    expired := [];
    var todo := g.Keys;
    ghost var seen: set<string> := {};
    while todo != {}
      invariant todo <= g.Keys && seen == g.Keys - todo
      invariant forall k :: k in r <==> k in g && (k in todo || !GrantExpired(g[k], now))
      invariant forall k :: k in r ==> r[k] == g[k]
      invariant forall c :: c in expired <==> c in ExpiredAmong(g, now, seen)
      invariant |expired| == |ExpiredAmong(g, now, seen)|
      decreases |todo|
    {
      var k :| k in todo;
      ExpiredAmongAdd(g, now, seen, k);
      if GrantExpired(r[k], now) {
        r := r - {k};
        expired := expired + [k];
      }
      todo := todo - {k};
      seen := seen + {k};
    }
    assert ExpiredAmong(g, now, seen) == ExpiredConnections(g, now);
  }

  /** The connections among `keys` whose grant has expired. */
  ghost function ExpiredAmong(g: Grants, now: nat, keys: set<string>): set<string>
  { set c | c in keys && c in g && GrantExpired(g[c], now) }

  /** Visiting one more key adds it to the expired set exactly when its grant has expired. */
  lemma ExpiredAmongAdd(g: Grants, now: nat, keys: set<string>, k: string)
    requires k in g && k !in keys
    ensures GrantExpired(g[k], now) ==>
      ExpiredAmong(g, now, keys + {k}) == ExpiredAmong(g, now, keys) + {k}
      && |ExpiredAmong(g, now, keys + {k})| == |ExpiredAmong(g, now, keys)| + 1
    ensures !GrantExpired(g[k], now) ==> ExpiredAmong(g, now, keys + {k}) == ExpiredAmong(g, now, keys)
  {
    assert k !in ExpiredAmong(g, now, keys);
  }

  /** The sweep of pending requests, one key at a time. */
  method RemoveExpiredRequests(p: Pending, now: nat) returns (r: Pending)
    ensures r == SweptPending(p, now)
  {
    r := p;
    var todo := p.Keys;
    while todo != {}
      invariant todo <= p.Keys
      invariant forall k :: k in r <==> k in p && (k in todo || now <= p[k].expiresAt)
      invariant forall k :: k in r ==> r[k] == p[k]
      decreases |todo|
    {
      var k :| k in todo;
      if now > r[k].expiresAt {
        r := r - {k};
      }
      todo := todo - {k};
    }
  }

  function ExpiredEvents(ids: seq<string>): (r: seq<PermissionEvent>)
    ensures |r| == |ids|
    ensures forall i :: 0 <= i < |ids| ==> r[i] == PermissionExpired(ids[i])
  { if ids == [] then [] else [PermissionExpired(ids[0])] + ExpiredEvents(ids[1..]) }

  // --------------------------------------------------------------- manager

  class PermissionManager {
    var config: PermissionConfig
    var pending: Pending
    var grants: Grants
    /** Whether `initialize` has installed the event channel. */
    var hasSender: bool
    var events: seq<PermissionEvent>

    ghost predicate Valid()
      reads this
    {
      PendingKeyed(pending) && GrantsKeyed(grants)
    }

    /** The events a step adds: nothing until `initialize` has run. */
    function Emit(es: seq<PermissionEvent>): seq<PermissionEvent>
      reads this
    { if hasSender then events + es else events }

    constructor ()
      ensures Valid()
      ensures config == DefaultConfig && pending == map[] && grants == map[]
      ensures !hasSender && events == []
    {
      config := DefaultConfig;
      pending := map[];
      grants := map[];
      hasSender := false;
      events := [];
    }

    /** initialize: installs the event channel (the sweep task is `Cleanup`). */
    method Initialize()
      modifies this
      ensures hasSender
      ensures config == old(config) && pending == old(pending) && grants == old(grants) && events == old(events)
    {
      hasSender := true;
    }

    /**
     * request_permission. `requestId` stands for the fresh UUID. A
     * whitelisted device is granted at once, regardless of the limit.
     */
    method RequestPermission(connectionId: string, device: DeviceInfo, requested: seq<Permission>,
                             requestId: string, now: nat) returns (r: Result<string>)
      requires Valid()
      requires requestId !in pending
      modifies this
      ensures Valid()
      ensures config == old(config) && hasSender == old(hasSender)
      ensures config.enableWhitelist && IsWhitelisted(config, connectionId, device.name) ==>
        r == Ok(connectionId) && pending == old(pending) && events == old(events)
        && grants == WithGrant(old(grants), connectionId, device, requested, config.defaultSessionDurationMinutes, now)
      ensures !(config.enableWhitelist && IsWhitelisted(config, connectionId, device.name)) ==>
        if |old(grants)| >= config.maxConcurrentConnections then
          r == Err("Maximum concurrent connections exceeded")
          && pending == old(pending) && grants == old(grants) && events == old(events)
        else
          var req := PermissionRequest(requestId, connectionId, device.name, device, requested, now, now + RequestExpiryMs);
          r == Ok(requestId) && grants == old(grants)
          && pending == old(pending)[requestId := req]
          && events == old(Emit([RequestReceived(req)]))
    {
      if config.enableWhitelist && IsWhitelisted(config, connectionId, device.name) {
        grants := WithGrant(grants, connectionId, device, requested, config.defaultSessionDurationMinutes, now);
        return Ok(connectionId);
      }
      if |grants| >= config.maxConcurrentConnections {
        return Err("Maximum concurrent connections exceeded");
      }
      var req := PermissionRequest(requestId, connectionId, device.name, device, requested, now, now + RequestExpiryMs);
      pending := pending[requestId := req];
      events := Emit([RequestReceived(req)]);
      r := Ok(requestId);
    }

    /**
     * respond_to_request: the request is removed first; a late answer
     * grants nothing and is reported as Expired.
     */
    method RespondToRequest(requestId: string, response: PermissionResponse, now: nat) returns (r: Result<()>)
      requires Valid()
      modifies this
      ensures Valid()
      ensures config == old(config) && hasSender == old(hasSender)
      ensures pending == old(pending) - {requestId}
      ensures requestId !in old(pending) ==>
        r == Err("Permission request not found: " + requestId) && grants == old(grants) && events == old(events)
      ensures requestId in old(pending) ==> (r.Ok? &&
        var req := old(pending)[requestId];
        if now > req.expiresAt then
          grants == old(grants) && events == old(Emit([RequestResponded(requestId, Expired)]))
        else
          events == old(Emit([RequestResponded(requestId, response)]))
          && grants == (match response
                          case Granted(ps, duration) => WithGrant(old(grants), req.connectionId, req.deviceInfo, ps, duration, now)
                          case _ => old(grants)))
    {
      if requestId !in pending {
        return Err("Permission request not found: " + requestId);
      }
      var req := pending[requestId];
      pending := pending - {requestId};
      if now > req.expiresAt {
        events := Emit([RequestResponded(requestId, Expired)]);
        return Ok(());
      }
      match response {
        case Granted(ps, duration) =>
          grants := WithGrant(grants, req.connectionId, req.deviceInfo, ps, duration, now);
        case Denied(_) =>
        case Expired =>
      }
      events := Emit([RequestResponded(requestId, response)]);
      r := Ok(());
    }

    /** check_permission. */
    method CheckPermission(connectionId: string, p: Permission, now: nat) returns (b: bool)
      ensures b <==> connectionId in grants && Unexpired(grants[connectionId], now)
                     && p in grants[connectionId].permissions
    {
      if connectionId !in grants {
        return false;
      }
      var grant := grants[connectionId];
      if grant.expiresAt.Some? && now > grant.expiresAt.value {
        return false;
      }
      b := p in grant.permissions;
    }

    /** revoke_permissions: always succeeds; an unknown connection is a no-op. */
    method RevokePermissions(connectionId: string, which: Option<seq<Permission>>) returns (r: Result<()>)
      requires Valid()
      modifies this
      ensures Valid()
      ensures r.Ok?
      ensures config == old(config) && pending == old(pending) && hasSender == old(hasSender)
      ensures grants == Revoked(old(grants), connectionId, which)
      ensures connectionId in old(grants) ==> events == old(Emit([PermissionRevoked(connectionId,
        match which case Some(ps) => ps case None => grants[connectionId].permissions)]))
      ensures connectionId !in old(grants) ==> events == old(events)
    {
      if connectionId !in grants {
        return Ok(());
      }
      var grant := grants[connectionId];
      match which {
        case Some(ps) =>
          var left := Without(grant.permissions, ps);
          if left == [] {
            grants := grants - {connectionId};
          } else {
            grants := grants[connectionId := grant.(permissions := left)];
          }
          events := Emit([PermissionRevoked(connectionId, ps)]);
        case None =>
          grants := grants - {connectionId};
          events := Emit([PermissionRevoked(connectionId, grant.permissions)]);
      }
      r := Ok(());
    }

    method GetActiveGrants() returns (r: seq<PermissionGrant>)
      ensures |r| == |grants|
      ensures forall g :: g in r <==> g in grants.Values
    {
      r := MapValues(grants);
    }

    method GetPendingRequests() returns (r: seq<PermissionRequest>)
      ensures |r| == |pending|
      ensures forall q :: q in r <==> q in pending.Values
    {
      r := MapValues(pending);
    }

    method UpdateConfig(c: PermissionConfig) returns (r: Result<()>)
      modifies this
      ensures r.Ok? && config == c
      ensures pending == old(pending) && grants == old(grants) && events == old(events) && hasSender == old(hasSender)
    {
      config := c;
      r := Ok(());
    }

    /**
     * One pass of the sweep task: expired requests and lapsed grants are
     * removed, and one PermissionExpired event per removed grant is sent.
     */
    method Cleanup(now: nat)
      requires Valid()
      modifies this
      ensures Valid()
      ensures config == old(config) && hasSender == old(hasSender)
      ensures pending == SweptPending(old(pending), now)
      ensures grants == SweptGrants(old(grants), now)
      ensures !hasSender ==> events == old(events)
      ensures hasSender ==> (|events| == |old(events)| + |ExpiredConnections(old(grants), now)|
        && events[..|old(events)|] == old(events)
        && forall e :: e in events[|old(events)|..] <==>
             exists c :: c in ExpiredConnections(old(grants), now) && e == PermissionExpired(c))
    {
      pending := RemoveExpiredRequests(pending, now);
      var expired;
      grants, expired := RemoveExpiredGrants(grants, now);
      ghost var before := events;
      var added := ExpiredEvents(expired);
      events := Emit(added);
      if hasSender {
        assert events[|before|..] == added;
        forall e | e in added
          ensures exists c :: c in ExpiredConnections(old(grants), now) && e == PermissionExpired(c)
        {
          var i :| 0 <= i < |added| && added[i] == e;
          assert expired[i] in expired;
        }
        forall e | exists c :: c in ExpiredConnections(old(grants), now) && e == PermissionExpired(c)
          ensures e in added
        {
          var c :| c in ExpiredConnections(old(grants), now) && e == PermissionExpired(c);
          var i :| 0 <= i < |expired| && expired[i] == c;
          assert added[i] == e;
        }
      }
    }

    method GetPermissionStats() returns (s: PermissionStats)
      ensures s.activeConnections == |grants| && s.pendingRequests == |pending|
      ensures s.totalGrantedSessions == 0 && s.totalDeniedRequests == 0
    {
      s := PermissionStats(|grants|, |pending|, 0, 0);
    }
  }
}
