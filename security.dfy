/**
 * The security manager (`SecurityManager`): the authentication-attempt log
 * with its 15-minute failure rate limit, credential validity, the
 * session-key registry with its inactivity sweep, and the byte framing of
 * encrypted payloads (a 12-byte nonce followed by the AEAD output). The
 * cipher itself and the random nonce and key bytes are inputs; instants
 * are milliseconds.
 */
module Security {
  import opened Text

  const MinuteMs: nat := 60_000
  /** Failures older than this no longer count towards the limit. */
  const RateWindowMs: nat := 15 * MinuteMs
  /** The log keeps only this many newest attempts. */
  const MaxLoggedAttempts: nat := 1000
  const NonceLen: nat := 12

  datatype SecurityConfig = SecurityConfig(
    enableEncryption: bool,
    keySize: nat,
    /** seconds */
    sessionTimeout: nat,
    maxFailedAttempts: nat)

  const DefaultConfig: SecurityConfig := SecurityConfig(true, 2048, 3600, 5)

  datatype SessionKey = SessionKey(id: string, aesKey: seq<Byte>, createdAt: nat, lastUsed: nat)

  datatype AuthAttempt = AuthAttempt(clientId: string, timestamp: nat, success: bool)

  datatype ClientCredentials =
    | Password(username: string, password: string)
    | Token(token: string)

  datatype SecurityStats = SecurityStats(
    activeSessions: nat,
    totalAuthAttempts: nat,
    successfulAuthentications: nat,
    failedAuthentications: nat,
    encryptionEnabled: bool)

  /** The demo validity rule: every field of the credential non-empty. */
  predicate CredentialsValid(c: ClientCredentials)
  {
    match c
      case Password(u, p) => u != [] && p != []
      case Token(t) => t != []
  }

  /** A failure of `client` inside the window ending at `now` (strictly newer than now − 15 min). */
  predicate RecentFailure(a: AuthAttempt, client: string, now: nat)
  {
    a.clientId == client && !a.success && a.timestamp as int > now as int - RateWindowMs as int
  }

  function RecentFailures(log: seq<AuthAttempt>, client: string, now: nat): (n: nat)
    ensures n <= |log|
  {
    if log == [] then 0
    else (if RecentFailure(log[0], client, now) then 1 else 0) + RecentFailures(log[1..], client, now)
  }

  predicate IsRateLimited(log: seq<AuthAttempt>, client: string, now: nat, config: SecurityConfig)
  {
    RecentFailures(log, client, now) >= config.maxFailedAttempts
  }

  /** record_auth_attempt: push, then drain from the front down to the newest 1000. */
  function Recorded(log: seq<AuthAttempt>, a: AuthAttempt): (r: seq<AuthAttempt>)
    ensures |r| == if |log| + 1 > MaxLoggedAttempts then MaxLoggedAttempts else |log| + 1
    ensures r != [] && r[|r| - 1] == a
    ensures r == (log + [a])[|log| + 1 - |r|..]
  {
    var l := log + [a];
    if |l| > MaxLoggedAttempts then l[|l| - MaxLoggedAttempts..] else l
  }

  function CountSuccessful(log: seq<AuthAttempt>): nat
  { if log == [] then 0 else (if log[0].success then 1 else 0) + CountSuccessful(log[1..]) }

  function CountFailed(log: seq<AuthAttempt>): nat
  { if log == [] then 0 else (if log[0].success then 0 else 1) + CountFailed(log[1..]) }

  /** Sessions kept by the sweep: last_used strictly after now − timeout. */
  function SweptSessions(m: map<string, SessionKey>, now: nat, timeoutMs: nat): (r: map<string, SessionKey>)
    ensures forall k :: k in r <==> k in m && m[k].lastUsed as int > now as int - timeoutMs as int
    ensures forall k :: k in r ==> r[k] == m[k]
  { map k | k in m && m[k].lastUsed as int > now as int - timeoutMs as int :: m[k] }

  /** The authenticated cipher, as a pair of functions of (key, nonce, input). */
  datatype Aead = Aead(seal: (seq<Byte>, seq<Byte>, seq<Byte>) -> Result<seq<Byte>>,
                       open: (seq<Byte>, seq<Byte>, seq<Byte>) -> Result<seq<Byte>>)

  /** Opening what was sealed under the same key and nonce gives the plaintext back. */
  ghost predicate Correct(c: Aead)
  {
    forall k, n, d :: c.seal(k, n, d).Ok? ==> c.open(k, n, c.seal(k, n, d).value) == Ok(d)
  }

  /** encrypt_data: look the key up, seal, and prepend the nonce. */
  function EncryptFrame(m: map<string, SessionKey>, id: string, nonce: seq<Byte>, data: seq<Byte>, c: Aead): (r: Result<seq<Byte>>)
    ensures id !in m ==> r == Err("Session key not found: " + id)
    ensures r.Ok? ==> id in m && c.seal(m[id].aesKey, nonce, data).Ok?
                      && r.value == nonce + c.seal(m[id].aesKey, nonce, data).value
  {
    if id !in m then Err("Session key not found: " + id)
    else match c.seal(m[id].aesKey, nonce, data)
      case Err(e) => Err("Encryption failed: " + e)
      case Ok(ct) => Ok(nonce + ct)
  }

  /** decrypt_data: the length check comes before the key lookup; split at byte 12. */
  function DecryptFrame(m: map<string, SessionKey>, id: string, frame: seq<Byte>, c: Aead): (r: Result<seq<Byte>>)
    ensures |frame| < NonceLen ==> r == Err("Invalid encrypted data length")
    ensures |frame| >= NonceLen && id !in m ==> r == Err("Session key not found: " + id)
    ensures r.Ok? ==> |frame| >= NonceLen && id in m
                      && c.open(m[id].aesKey, frame[..NonceLen], frame[NonceLen..]) == r
  {
    if |frame| < NonceLen then Err("Invalid encrypted data length")
    else if id !in m then Err("Session key not found: " + id)
    else match c.open(m[id].aesKey, frame[..NonceLen], frame[NonceLen..])
      case Err(e) => Err("Decryption failed: " + e)
      case Ok(d) => Ok(d)
  }

  // ----------------------------------------------------------- properties

  lemma {:induction false} RecentFailuresAppend(a: seq<AuthAttempt>, b: seq<AuthAttempt>, client: string, now: nat)
    ensures RecentFailures(a + b, client, now) == RecentFailures(a, client, now) + RecentFailures(b, client, now)
    decreases |a|
  {
    if a == [] {
      assert a + b == b;
    } else {
      assert (a + b)[1..] == a[1..] + b;
      RecentFailuresAppend(a[1..], b, client, now);
    }
  }

  /**
   * A rejected attempt can only raise a client's failure count: the entry
   * the 1000-bound may drop is outweighed by the failure just added. So a
   * rate-limited client stays limited while it keeps trying.
   */
  lemma FailureKeepsLimit(log: seq<AuthAttempt>, client: string, now: nat, config: SecurityConfig)
    requires |log| <= MaxLoggedAttempts
    ensures RecentFailures(Recorded(log, AuthAttempt(client, now, false)), client, now)
            >= RecentFailures(log, client, now)
    ensures IsRateLimited(log, client, now, config) ==>
            IsRateLimited(Recorded(log, AuthAttempt(client, now, false)), client, now, config)
  {
    var a := AuthAttempt(client, now, false);
    var l := log + [a];
    var r := Recorded(log, a);
    FailureCounts(log, client, now);
    var drop := |log| + 1 - |r|;
    assert r == l[drop..];
    assert drop == 0 || drop == 1;
    if drop == 1 {
      assert r == l[1..];
    } else {
      assert r == l;
    }
  }

  /** A new failure adds one to the count, and dropping the oldest entry takes at most one away. */
  lemma FailureCounts(log: seq<AuthAttempt>, client: string, now: nat)
    ensures var l := log + [AuthAttempt(client, now, false)];
      RecentFailures(l, client, now) == RecentFailures(log, client, now) + 1
      && RecentFailures(l[1..], client, now) >= RecentFailures(log, client, now)
  {
    var a := AuthAttempt(client, now, false);
    var l := log + [a];
    RecentFailuresAppend(log, [a], client, now);
    assert RecentFailures([a], client, now) == 1;
  }

  lemma {:induction false} CountsPartition(log: seq<AuthAttempt>)
    ensures CountSuccessful(log) + CountFailed(log) == |log|
  {
    if log != [] { CountsPartition(log[1..]); }
  }

  /** Sealing then opening a frame under the same session gives back the data. */
  lemma FrameRoundTrip(m: map<string, SessionKey>, id: string, nonce: seq<Byte>, data: seq<Byte>, c: Aead)
    requires Correct(c) && |nonce| == NonceLen
    requires EncryptFrame(m, id, nonce, data, c).Ok?
    ensures DecryptFrame(m, id, EncryptFrame(m, id, nonce, data, c).value, c) == Ok(data)
  {
    var frame := EncryptFrame(m, id, nonce, data, c).value;
    var ct := c.seal(m[id].aesKey, nonce, data).value;
    assert frame[..NonceLen] == nonce && frame[NonceLen..] == ct;
  }

  /** The sweep of the session map, one key at a time. */
  method RetainActive(m: map<string, SessionKey>, now: nat, timeoutMs: nat) returns (r: map<string, SessionKey>)
    ensures r == SweptSessions(m, now, timeoutMs)
  {
    r := m;
    var todo := m.Keys;
    while todo != {}
      invariant todo <= m.Keys
      invariant forall k :: k in r <==> k in m && (k in todo || m[k].lastUsed as int > now as int - timeoutMs as int)
      invariant forall k :: k in r ==> r[k] == m[k]
      decreases |todo|
    {
      var k :| k in todo;
      if !(r[k].lastUsed as int > now as int - timeoutMs as int) {
        r := r - {k};
      }
      todo := todo - {k};
    }
  }

  /** The two filter-counts of get_security_stats, in one pass. */
  method CountOutcomes(log: seq<AuthAttempt>) returns (successful: nat, failed: nat)
    ensures successful == CountSuccessful(log) && failed == CountFailed(log)
    ensures successful + failed == |log|
  {
    successful, failed := 0, 0;
    var i := |log|;
    while i > 0
      invariant 0 <= i <= |log|
      invariant successful == CountSuccessful(log[i..]) && failed == CountFailed(log[i..])
    {
      i := i - 1;
      assert log[i..][1..] == log[i + 1..];
      if log[i].success {
        successful := successful + 1;
      } else {
        failed := failed + 1;
      }
    }
    assert log[0..] == log;
    CountsPartition(log);
  }

  // --------------------------------------------------------------- manager

  class SecurityManager {
    var config: SecurityConfig
    var sessionKeys: map<string, SessionKey>
    var authAttempts: seq<AuthAttempt>

    ghost predicate Valid()
      reads this
    {
      |authAttempts| <= MaxLoggedAttempts
      && forall k :: k in sessionKeys ==> sessionKeys[k].id == k
    }

    constructor ()
      ensures Valid()
      ensures config == DefaultConfig && sessionKeys == map[] && authAttempts == []
    {
      config := DefaultConfig;
      sessionKeys := map[];
      authAttempts := [];
    }

    /** create_session_key: `sessionId` stands for the fresh UUID, `key` for the 32 random bytes. */
    method CreateSessionKey(clientId: string, sessionId: string, key: seq<Byte>, now: nat) returns (r: Result<string>)
      requires Valid()
      requires sessionId !in sessionKeys && |key| == 32
      modifies this
      ensures Valid()
      ensures r == Ok(sessionId)
      ensures sessionKeys == old(sessionKeys)[sessionId := SessionKey(sessionId, key, now, now)]
      ensures config == old(config) && authAttempts == old(authAttempts)
    {
      sessionKeys := sessionKeys[sessionId := SessionKey(sessionId, key, now, now)];
      r := Ok(sessionId);
    }

    method EncryptData(sessionId: string, nonce: seq<Byte>, data: seq<Byte>, c: Aead) returns (r: Result<seq<Byte>>)
      requires |nonce| == NonceLen
      ensures r == EncryptFrame(sessionKeys, sessionId, nonce, data, c)
      ensures r.Ok? ==> |r.value| >= NonceLen && r.value[..NonceLen] == nonce
    {
      r := EncryptFrame(sessionKeys, sessionId, nonce, data, c);
    }

    method DecryptData(sessionId: string, frame: seq<Byte>, c: Aead) returns (r: Result<seq<Byte>>)
      ensures r == DecryptFrame(sessionKeys, sessionId, frame, c)
    {
      r := DecryptFrame(sessionKeys, sessionId, frame, c);
    }

    /**
     * authenticate_client: a rate-limited client is refused and another
     * failure is logged; otherwise the credential decides, and is logged.
     */
    method AuthenticateClient(clientId: string, credentials: ClientCredentials, now: nat) returns (r: Result<bool>)
      requires Valid()
      modifies this
      ensures Valid()
      ensures r.Ok?
      ensures IsRateLimited(old(authAttempts), clientId, now, config) ==>
        !r.value && authAttempts == Recorded(old(authAttempts), AuthAttempt(clientId, now, false))
      ensures !IsRateLimited(old(authAttempts), clientId, now, config) ==>
        r.value == CredentialsValid(credentials)
        && authAttempts == Recorded(old(authAttempts), AuthAttempt(clientId, now, r.value))
      ensures config == old(config) && sessionKeys == old(sessionKeys)
    {
      if IsRateLimited(authAttempts, clientId, now, config) {
        authAttempts := Recorded(authAttempts, AuthAttempt(clientId, now, false));
        return Ok(false);
      }
      var valid := CredentialsValid(credentials);
      authAttempts := Recorded(authAttempts, AuthAttempt(clientId, now, valid));
      r := Ok(valid);
    }

    /** cleanup_expired_sessions: keep sessions used within the timeout. */
    method CleanupExpiredSessions(now: nat) returns (r: Result<()>)
      requires Valid()
      modifies this
      ensures Valid()
      ensures r.Ok?
      ensures sessionKeys == SweptSessions(old(sessionKeys), now, config.sessionTimeout * 1000)
      ensures config == old(config) && authAttempts == old(authAttempts)
    {
      sessionKeys := RetainActive(sessionKeys, now, config.sessionTimeout * 1000);
      r := Ok(());
    }

    /** update_session_activity: an unknown id is a silent no-op. */
    method UpdateSessionActivity(sessionId: string, now: nat) returns (r: Result<()>)
      requires Valid()
      modifies this
      ensures Valid()
      ensures r.Ok?
      ensures sessionId !in old(sessionKeys) ==> sessionKeys == old(sessionKeys)
      ensures sessionId in old(sessionKeys) ==>
        sessionKeys == old(sessionKeys)[sessionId := old(sessionKeys)[sessionId].(lastUsed := now)]
      ensures config == old(config) && authAttempts == old(authAttempts)
    {
      if sessionId in sessionKeys {
        sessionKeys := sessionKeys[sessionId := sessionKeys[sessionId].(lastUsed := now)];
      }
      r := Ok(());
    }

    /** revoke_session: removes only the given id; an unknown id succeeds. */
    method RevokeSession(sessionId: string) returns (r: Result<()>)
      requires Valid()
      modifies this
      ensures Valid()
      ensures r.Ok?
      ensures sessionKeys == old(sessionKeys) - {sessionId}
      ensures config == old(config) && authAttempts == old(authAttempts)
    {
      sessionKeys := sessionKeys - {sessionId};
      r := Ok(());
    }

    method GetSecurityStats() returns (s: SecurityStats)
      ensures s.activeSessions == |sessionKeys| && s.totalAuthAttempts == |authAttempts|
      ensures s.successfulAuthentications == CountSuccessful(authAttempts)
      ensures s.failedAuthentications == CountFailed(authAttempts)
      ensures s.successfulAuthentications + s.failedAuthentications == s.totalAuthAttempts
      ensures s.encryptionEnabled == config.enableEncryption
    {
      var ok, failed := CountOutcomes(authAttempts);
      s := SecurityStats(|sessionKeys|, |authAttempts|, ok, failed, config.enableEncryption);
    }

    method UpdateConfig(c: SecurityConfig) returns (r: Result<()>)
      requires Valid()
      modifies this
      ensures Valid()
      ensures r.Ok? && config == c
      ensures sessionKeys == old(sessionKeys) && authAttempts == old(authAttempts)
    {
      config := c;
      r := Ok(());
    }
  }
}
