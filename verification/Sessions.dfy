/**
 Refresh-session rotation: the session table and the three operations that touch it.

 Each operation is one database transaction, taken as atomic. A token verifies if and only if it
 was issued and has not expired.
 */
module Sessions {
  import opened Common

  /** A freshly drawn UUID: any non-empty string. */
  type Uuid = s: string | s != "" witness "0"

  datatype Row = Row(user: string, expiresAt: Time, revoked: bool, device: Option<string>, lastSeenIp: Option<string>)

  type Rows = map<string, Row>

  datatype TokenType = ACCESS | REFRESH

  datatype Token = Token(sub: string, kind: TokenType, jti: string, exp: Time)

  datatype Ids = Ids(access: Uuid, refresh: Uuid, device: Uuid)

  datatype Result =
    | Issued(access: Token, refresh: Token, device: string)
    | LoggedOut
    | AuthError
    | ServerError

  // ---------------------------------------------------------------------------
  // The operations, as functions of the table
  // ---------------------------------------------------------------------------

  /** Python's `device_id or fallback`: the empty string counts as absent. */
  function Or(device: Option<string>, fallback: string): string {
    if device.Some? && device.value != "" then device.value else fallback
  }

  predicate IsActive(rows: Rows, jti: string, now: Time) {
    jti in rows && !rows[jti].revoked && now < rows[jti].expiresAt
  }

  function Revoke(rows: Rows, jti: string): Rows {
    if jti in rows then rows[jti := rows[jti].(revoked := true)] else rows
  }

  /** Inserting a session whose key exists violates the primary key and fails the transaction. */
  function IssueTokens(rows: Rows, user: string, device: Option<string>, ids: Ids, now: Time,
                       accessTtl: Time, refreshTtl: Time)
    : Option<(Rows, Result)>
  {
    if ids.refresh in rows then None else
    var d := Or(device, ids.device);
    Some((rows[ids.refresh := Row(user, now + refreshTtl, false, Some(d), None)],
          Issued(Token(user, ACCESS, ids.access, now + accessTtl),
                 Token(user, REFRESH, ids.refresh, now + refreshTtl), d)))
  }

  datatype Config = Config(accessTtl: Time, refreshTtl: Time)

  function Commit(rows: Rows, outcome: Option<(Rows, Result)>): (Rows, Result) {
    if outcome.Some? then outcome.value else (rows, ServerError)
  }

  /** `user` is `None` if the e-mail is unknown or the password wrong. */
  function LoginEffect(cfg: Config, rows: Rows, user: Option<string>, ids: Ids, now: Time): (Rows, Result) {
    if user.None? then (rows, AuthError) else
    Commit(rows, IssueTokens(rows, user.value, Some(ids.device), ids, now, cfg.accessTtl, cfg.refreshTtl))
  }

  function TouchIp(rows: Rows, jti: string, ip: Option<string>): Rows {
    if jti in rows && ip.Some? && ip.value != "" && jti != ""
    then rows[jti := rows[jti].(lastSeenIp := ip)] else rows
  }

  /** `t` is `None` if the signature or audience of the presented token is wrong. */
  function RefreshEffect(cfg: Config, rows: Rows, t: Option<Token>, device: Option<string>, ip: Option<string>,
                         ids: Ids, now: Time)
    : (Rows, Result)
  {
    if t.None? || t.value.exp < now || t.value.kind != REFRESH || !IsActive(rows, t.value.jti, now)
    then (rows, AuthError) else
    var jti := t.value.jti;
    var stored := rows[jti].device;
    if stored.Some? && device.Some? && stored != device then (rows, AuthError) else
    var bound := if stored.Some? && stored.value != "" then stored else device;
    Commit(rows, IssueTokens(Revoke(TouchIp(rows, jti, ip), jti), t.value.sub, bound, ids, now,
                             cfg.accessTtl, cfg.refreshTtl))
  }

  /** Any verifiable token will do; its session, if there is one, is revoked. */
  function LogoutEffect(rows: Rows, t: Option<Token>, now: Time): (Rows, Result) {
    if t.None? || t.value.exp < now then (rows, AuthError) else (Revoke(rows, t.value.jti), LoggedOut)
  }

  // ---------------------------------------------------------------------------
  // The repository and the service
  // ---------------------------------------------------------------------------

  class SessionRepository {
    var rows: Rows

    constructor ()
      ensures rows == map[]
    {
      rows := map[];
    }

    method Create(user: string, jti: string, expiresAt: Time, device: string) returns (ok: bool)
      modifies this
      ensures ok == (jti !in old(rows))
      ensures rows == if ok then old(rows)[jti := Row(user, expiresAt, false, Some(device), None)] else old(rows)
    {
      ok := jti !in rows;
      if ok {
        rows := rows[jti := Row(user, expiresAt, false, Some(device), None)];
      }
    }

    method UpdateLastSeenIp(jti: string, ip: string)
      modifies this
      ensures rows == if jti in old(rows) then old(rows)[jti := old(rows)[jti].(lastSeenIp := Some(ip))] else old(rows)
    {
      if jti in rows {
        rows := rows[jti := rows[jti].(lastSeenIp := Some(ip))];
      }
    }

    method RevokeSession(jti: string)
      modifies this
      ensures rows == Revoke(old(rows), jti)
    {
      if jti in rows {
        rows := rows[jti := rows[jti].(revoked := true)];
      }
    }
  }

  class AuthService {
    const sessions: SessionRepository
    const cfg: Config

    constructor (sessions: SessionRepository, cfg: Config)
      ensures this.sessions == sessions && this.cfg == cfg
    {
      this.sessions, this.cfg := sessions, cfg;
    }

    method Issue(user: string, device: Option<string>, ids: Ids, now: Time) returns (r: Result)
      modifies sessions
      ensures (sessions.rows, r) ==
              Commit(old(sessions.rows),
                     IssueTokens(old(sessions.rows), user, device, ids, now, cfg.accessTtl, cfg.refreshTtl))
    {
      var d := Or(device, ids.device);
      var access := Token(user, ACCESS, ids.access, now + cfg.accessTtl);
      var refresh := Token(user, REFRESH, ids.refresh, now + cfg.refreshTtl);
      var ok := sessions.Create(user, ids.refresh, now + cfg.refreshTtl, d);
      r := if ok then Issued(access, refresh, d) else ServerError;
    }

    method Login(user: Option<string>, ids: Ids, now: Time) returns (r: Result)
      modifies sessions
      ensures (sessions.rows, r) == LoginEffect(cfg, old(sessions.rows), user, ids, now)
    {
      if user.None? {
        return AuthError;
      }
      r := Issue(user.value, Some(ids.device), ids, now);
    }

    /** A failed insert rolls the whole request back. */
    method Refresh(t: Option<Token>, device: Option<string>, ip: Option<string>, ids: Ids, now: Time)
      returns (r: Result)
      modifies sessions
      ensures (sessions.rows, r) == RefreshEffect(cfg, old(sessions.rows), t, device, ip, ids, now)
    {
      if t.None? || t.value.exp < now || t.value.kind != REFRESH {
        return AuthError;
      }
      var jti := t.value.jti;
      if !IsActive(sessions.rows, jti, now) {
        return AuthError;
      }
      var stored := sessions.rows[jti].device;
      if stored.Some? && device.Some? && stored != device {
        return AuthError;
      }
      var before := sessions.rows;
      if ip.Some? && ip.value != "" && jti != "" {
        sessions.UpdateLastSeenIp(jti, ip.value);
      }
      sessions.RevokeSession(jti);
      r := Issue(t.value.sub, if stored.Some? && stored.value != "" then stored else device, ids, now);
      if r == ServerError {
        sessions.rows := before;
      }
    }

    method Logout(t: Option<Token>, now: Time) returns (r: Result)
      modifies sessions
      ensures (sessions.rows, r) == LogoutEffect(old(sessions.rows), t, now)
    {
      if t.None? || t.value.exp < now {
        return AuthError;
      }
      sessions.RevokeSession(t.value.jti);
      r := LoggedOut;
    }
  }
}
