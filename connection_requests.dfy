/**
 * The connection-request ledger (`ConnectionRequestManager`): requests
 * waiting for the local user's answer, keyed by request id, each with a
 * fixed one-minute expiry. Instants are milliseconds supplied by the
 * caller; request ids come from the caller in place of a fresh UUID.
 * The two notification channels are modelled as the sequences of
 * messages sent on them.
 */
module ConnectionRequests {
  import opened Text
  import Discovery

  /** request_timeout: one minute. */
  const RequestTimeoutMs: nat := 60_000

  datatype IncomingRequest = IncomingRequest(
    requestId: string,
    requesterDeviceId: string,
    requesterName: string,
    requesterIp: string,
    requestedPermissions: seq<string>,
    message: Option<string>,
    timestamp: nat)

  datatype RequestResponse = RequestResponse(
    requestId: string,
    accepted: bool,
    grantedPermissions: seq<string>,
    sessionDurationMinutes: Option<nat>,
    denialReason: Option<string>)

  datatype PendingRequest = PendingRequest(request: IncomingRequest, expiresAt: nat)

  datatype RequestStats = RequestStats(
    pendingRequests: nat,
    totalRequestsToday: nat,
    acceptedRequestsToday: nat,
    deniedRequestsToday: nat)

  type Ledger = map<string, PendingRequest>

  /** Every entry is stored under its own request id. */
  ghost predicate KeyedById(m: Ledger)
  {
    forall k :: k in m ==> m[k].request.requestId == k
  }

  /** The entry a new request creates at time `now`. */
  function NewPending(request: IncomingRequest): (p: PendingRequest)
    ensures p.request == request
    ensures p.expiresAt == request.timestamp + 60_000
  { PendingRequest(request, request.timestamp + RequestTimeoutMs) }

  /** Ledger after storing `request` under `id` (HashMap insert: overwrites). */
  function Stored(m: Ledger, id: string, request: IncomingRequest): (r: Ledger)
    ensures id in r && r[id].request == request
    ensures r[id].expiresAt == request.timestamp + RequestTimeoutMs
    ensures forall k :: k != id ==> (k in r <==> k in m)
    ensures forall k :: k in m && k != id ==> r[k] == m[k]
    ensures id !in m ==> |r| == |m| + 1
    ensures id in m ==> |r| == |m|
  { m[id := NewPending(request)] }

  /** Outcome of respond_to_request: the answer forwarded to the requester, or an error. */
  function RespondOutcome(m: Ledger, id: string, accepted: bool, granted: seq<string>,
                          duration: Option<nat>, reason: Option<string>): (r: Result<RequestResponse>)
    ensures r.Err? <==> id !in m
    ensures r.Ok? ==> r.value == RequestResponse(id, accepted, granted, duration, reason)
  {
    if id in m then Ok(RequestResponse(id, accepted, granted, duration, reason))
    else Err("Request not found or expired: " + id)
  }

  /** Ledger after a removal by id (respond and cancel both remove first). */
  function Removed(m: Ledger, id: string): (r: Ledger)
    ensures id !in r
    ensures forall k :: k != id ==> (k in r <==> k in m) && (k in m ==> r[k] == m[k])
    ensures id !in m ==> r == m
    ensures id in m ==> |r| == |m| - 1
  { m - {id} }

  /** Outcome of cancel_request. */
  function CancelOutcome(m: Ledger, id: string): (r: Result<()>)
    ensures r.Ok? <==> id in m
  { if id in m then Ok(()) else Err("Request not found: " + id) }

  /** The periodic sweep: retain only entries with now < expires_at. */
  function Swept(m: Ledger, now: nat): (r: Ledger)
    ensures forall k :: k in r <==> k in m && now < m[k].expiresAt
    ensures forall k :: k in r ==> r[k] == m[k]
  { map k | k in m && now < m[k].expiresAt :: m[k] }

  /** The requests a ledger holds (the values of the map, order unspecified). */
  ghost function Requests(m: Ledger): set<IncomingRequest>
  {
    set k | k in m :: m[k].request
  }

  // ----------------------------------------------------------- properties

  /** Because respond removes the entry, a second respond or a cancel fails. */
  lemma RespondTwiceFails(m: Ledger, id: string, accepted: bool, granted: seq<string>,
                          duration: Option<nat>, reason: Option<string>)
    requires RespondOutcome(m, id, accepted, granted, duration, reason).Ok?
    ensures RespondOutcome(Removed(m, id), id, accepted, granted, duration, reason).Err?
    ensures CancelOutcome(Removed(m, id), id).Err?
    ensures RespondOutcome(Removed(m, id), id, accepted, granted, duration, reason).error == "Request not found or expired: " + id
  {
  }

  /** A request stored at `now` survives every sweep before one minute has passed, and no sweep after. */
  lemma StoredSurvivesSweep(m: Ledger, id: string, request: IncomingRequest, later: nat)
    ensures id in Swept(Stored(m, id, request), later) <==> later < request.timestamp + RequestTimeoutMs
  {
  }

  /** A sweep never adds entries and keeps the by-id keying. */
  lemma SweepKeepsKeying(m: Ledger, now: nat)
    requires KeyedById(m)
    ensures KeyedById(Swept(m, now))
    ensures Swept(m, now).Keys <= m.Keys
    ensures |Swept(m, now)| <= |m|
  {
    assert Swept(m, now).Keys <= m.Keys;
    SubsetCard(Swept(m, now).Keys, m.Keys);
  }

  /**
   * With keys equal to request ids, distinct entries hold distinct
   * requests, so the pending list has exactly one item per entry.
   */
  lemma {:induction false} KeyedRequestsCount(m: Ledger)
    requires KeyedById(m)
    ensures |Requests(m)| == |m|
    decreases |m|
  {
    if m != map[] {
      var k :| k in m;
      var rest := m - {k};
      KeyedRequestsCount(rest);
      forall q | q in Requests(m) ensures q in Requests(rest) + {m[k].request} {
        var j :| j in m && m[j].request == q;
        if j != k { assert rest[j].request == q; }
      }
      assert Requests(m) == Requests(rest) + {m[k].request};
      assert m[k].request !in Requests(rest);
    }
  }

  /** The `retain` of the cleanup task, one entry at a time. */
  method RetainUnexpired(m: Ledger, now: nat) returns (r: Ledger)
    ensures r == Swept(m, now)
  {
    r := m;
    var todo := m.Keys;
    while todo != {}
      invariant todo <= m.Keys
      invariant forall k :: k in r <==> k in m && (k in todo || now < m[k].expiresAt)
      invariant forall k :: k in r ==> r[k] == m[k]
      decreases |todo|
    {
      var k :| k in todo;
      if !(now < r[k].expiresAt) {
        r := r - {k};
      }
      todo := todo - {k};
    }
  }

  // --------------------------------------------------------------- manager

  class ConnectionRequestManager {
    var pending: Ledger
    /** Messages sent on request_updates_tx. */
    var requestUpdates: seq<IncomingRequest>
    /** Messages sent on response_updates_tx. */
    var responseUpdates: seq<RequestResponse>

    ghost predicate Valid()
      reads this
    {
      KeyedById(pending)
    }

    constructor ()
      ensures Valid() && pending == map[] && requestUpdates == [] && responseUpdates == []
    {
      pending := map[];
      requestUpdates := [];
      responseUpdates := [];
    }

    /** create_connection_request; `id` stands for the fresh UUID. */
    method CreateConnectionRequest(id: string, deviceId: string, name: string, ip: string,
                                   permissions: seq<string>, message: Option<string>, now: nat)
      returns (r: Result<string>)
      requires Valid()
      requires id !in pending
      modifies this
      ensures Valid()
      ensures r == Ok(id)
      ensures pending == Stored(old(pending), id, IncomingRequest(id, deviceId, name, ip, permissions, message, now))
      ensures requestUpdates == old(requestUpdates) + [pending[id].request]
      ensures responseUpdates == old(responseUpdates)
    {
      var request := IncomingRequest(id, deviceId, name, ip, permissions, message, now);
      pending := pending[id := NewPending(request)];
      requestUpdates := requestUpdates + [request];
      r := Ok(id);
    }

    /** respond_to_request: remove first, then forward the answer verbatim. */
    method RespondToRequest(id: string, accepted: bool, granted: seq<string>,
                            duration: Option<nat>, reason: Option<string>)
      returns (r: Result<()>)
      requires Valid()
      modifies this
      ensures Valid()
      ensures pending == Removed(old(pending), id)
      ensures var outcome := RespondOutcome(old(pending), id, accepted, granted, duration, reason);
        (r.Ok? <==> outcome.Ok?)
        && (outcome.Err? ==> r.error == outcome.error && responseUpdates == old(responseUpdates))
        && (outcome.Ok? ==> responseUpdates == old(responseUpdates) + [outcome.value])
      ensures requestUpdates == old(requestUpdates)
    {
      var found := id in pending;
      pending := pending - {id};
      if !found {
        r := Err("Request not found or expired: " + id);
        return;
      }
      var response := RequestResponse(id, accepted, granted, duration, reason);
      responseUpdates := responseUpdates + [response];
      r := Ok(());
    }

    /** get_pending_requests: one item per entry, exactly the stored requests. */
    method GetPendingRequests() returns (r: seq<IncomingRequest>)
      requires Valid()
      ensures |r| == |pending|
      ensures forall q :: q in r <==> q in Requests(pending)
    {
      var todo := pending.Keys;
      r := [];
      while todo != {}
        invariant todo <= pending.Keys
        invariant |r| + |todo| == |pending|
        invariant forall q :: q in r <==> exists k :: k in pending && k !in todo && pending[k].request == q
        decreases |todo|
      {
        var k :| k in todo;
        r := r + [pending[k].request];
        todo := todo - {k};
      }
    }

    /** cancel_request: succeeds iff the id was pending; removes only it. */
    method CancelRequest(id: string) returns (r: Result<()>)
      requires Valid()
      modifies this
      ensures Valid()
      ensures r == CancelOutcome(old(pending), id)
      ensures pending == Removed(old(pending), id)
      ensures requestUpdates == old(requestUpdates) && responseUpdates == old(responseUpdates)
    {
      r := CancelOutcome(pending, id);
      pending := pending - {id};
    }

    /** handle_incoming_discovery_request: keyed by the remote-supplied id, overwriting. */
    method HandleIncomingDiscoveryRequest(data: Discovery.ConnectionRequestData, now: nat)
      returns (r: Result<()>)
      requires Valid()
      modifies this
      ensures Valid()
      ensures r.Ok?
      ensures pending == Stored(old(pending), data.requestId,
        IncomingRequest(data.requestId, data.requesterDeviceId, data.requesterName,
                        data.requesterIp, data.requestedPermissions, data.message, now))
      ensures requestUpdates == old(requestUpdates) + [pending[data.requestId].request]
      ensures responseUpdates == old(responseUpdates)
    {
      var request := IncomingRequest(data.requestId, data.requesterDeviceId, data.requesterName,
                                     data.requesterIp, data.requestedPermissions, data.message, now);
      pending := pending[data.requestId := NewPending(request)];
      requestUpdates := requestUpdates + [request];
      r := Ok(());
    }

    /** One pass of the cleanup task: retain the entries with now < expires_at. */
    method Cleanup(now: nat)
      requires Valid()
      modifies this
      ensures Valid()
      ensures pending == Swept(old(pending), now)
      ensures requestUpdates == old(requestUpdates) && responseUpdates == old(responseUpdates)
    {
      SweepKeepsKeying(pending, now);
      pending := RetainUnexpired(pending, now);
    }

    /** get_stats: only the pending count is tracked; the daily counters are 0. */
    method GetStats() returns (s: RequestStats)
      ensures s.pendingRequests == |pending|
      ensures s.totalRequestsToday == 0 && s.acceptedRequestsToday == 0 && s.deniedRequestsToday == 0
    {
      s := RequestStats(|pending|, 0, 0, 0);
    }
  }
}
