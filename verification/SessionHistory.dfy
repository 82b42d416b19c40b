/**
 Safety of the rotation over every sequence of logins, refreshes and logouts.

 Bookkeeping beside the table: which login each session descends from, and which tokens exist.
 */
module SessionHistory {
  import opened Common
  import opened Sessions

  datatype State = State(rows: Rows, origin: map<string, string>, issued: set<Token>)

  const START := State(map[], map[], {})

  datatype Event =
    | Login(user: Option<string>, ids: Ids, now: Time)
    | Refresh(token: Token, device: Option<string>, ip: Option<string>, ids: Ids, now: Time)
    | Logout(token: Token, now: Time)

  /** A token that was never issued does not verify. */
  function Verified(s: State, t: Token): Option<Token> {
    if t in s.issued then Some(t) else None
  }

  function Effect(cfg: Config, s: State, e: Event): (Rows, Result) {
    match e
    case Login(user, ids, now) => LoginEffect(cfg, s.rows, user, ids, now)
    case Refresh(t, device, ip, ids, now) => RefreshEffect(cfg, s.rows, Verified(s, t), device, ip, ids, now)
    case Logout(t, now) => LogoutEffect(s.rows, Verified(s, t), now)
  }

  /** A new session belongs to its own login, or to the login of the session it replaces. */
  function Step(cfg: Config, s: State, e: Event): State {
    var (rows, r) := Effect(cfg, s, e);
    if r.Issued? then
      var root := if e.Refresh? && e.token.jti in s.origin then s.origin[e.token.jti] else r.refresh.jti;
      State(rows, s.origin[r.refresh.jti := root], s.issued + {r.access, r.refresh})
    else s.(rows := rows)
  }

  function Run(cfg: Config, s: State, h: seq<Event>): State {
    if h == [] then s else Step(cfg, Run(cfg, s, h[..|h| - 1]), h[|h| - 1])
  }

  /** The session exists and is not revoked; it may have expired. */
  predicate Live(s: State, jti: string) {
    jti in s.rows && !s.rows[jti].revoked
  }

  ghost predicate OneLivePerLogin(s: State) {
    forall a, b {:trigger Live(s, a), Live(s, b)} ::
      Live(s, a) && Live(s, b) && a in s.origin && b in s.origin && s.origin[a] == s.origin[b] ==> a == b
  }

  /** No session of the login `root` is left to refresh. */
  ghost predicate Dead(s: State, root: string) {
    forall jti :: Live(s, jti) && jti in s.origin ==> s.origin[jti] != root
  }

  /** Everything a session inherits from the login it descends from. */
  ghost predicate Inherits(s: State, jti: string) {
    && jti in s.rows
    && jti in s.origin
    && s.origin[jti] in s.rows
    && s.origin[jti] in s.origin && s.origin[s.origin[jti]] == s.origin[jti]
    && s.rows[jti].user == s.rows[s.origin[jti]].user
    && s.rows[jti].device == s.rows[s.origin[jti]].device
    && s.rows[jti].device.Some? && s.rows[jti].device.value != ""
  }

  ghost predicate Families(s: State) {
    && s.origin.Keys == s.rows.Keys
    && forall jti {:trigger Inherits(s, jti)} :: jti in s.rows ==> Inherits(s, jti)
  }

  ghost predicate TokensMatch(s: State) {
    forall t <- s.issued :: t.kind == REFRESH ==>
      t.jti in s.rows && s.rows[t.jti].user == t.sub && s.rows[t.jti].expiresAt == t.exp
  }

  ghost predicate Inv(s: State) {
    OneLivePerLogin(s) && Families(s) && TokensMatch(s)
  }

  function Retired(s: State, jti: string, ip: Option<string>): State {
    s.(rows := Revoke(TouchIp(s.rows, jti, ip), jti))
  }

  lemma InvRetired(s: State, jti: string, ip: Option<string>)
    requires Inv(s)
    ensures Inv(Retired(s, jti, ip))
    ensures forall a :: Live(Retired(s, jti, ip), a) <==> Live(s, a) && a != jti
  {
    var s' := Retired(s, jti, ip);
    assert s'.rows.Keys == s.rows.Keys;
    assert forall a <- s.rows :: s'.rows[a].user == s.rows[a].user && s'.rows[a].device == s.rows[a].device;
    forall a
      ensures Live(s', a) <==> Live(s, a) && a != jti
    {
    }
    assert Families(s') by {
      forall a | a in s'.rows
        ensures Inherits(s', a)
      {
        assert Inherits(s, a);
      }
    }
  }

  function Extended(s: State, jti: string, root: string, row: Row, tokens: set<Token>): State {
    State(s.rows[jti := row], s.origin[jti := root], s.issued + tokens)
  }

  lemma InvExtended(s: State, jti: string, root: string, row: Row, access: Token, refresh: Token)
    requires Inv(s) && jti !in s.rows && row.device.Some? && row.device.value != ""
    requires root == jti || (root in s.rows && s.origin[root] == root && Dead(s, root)
                             && s.rows[root].user == row.user && s.rows[root].device == row.device)
    requires access.kind == ACCESS
    requires refresh.jti == jti && refresh.sub == row.user && refresh.exp == row.expiresAt
    ensures Inv(Extended(s, jti, root, row, {access, refresh}))
  {
    var s' := Extended(s, jti, root, row, {access, refresh});
    assert Families(s') by {
      forall a | a in s'.rows
        ensures Inherits(s', a)
      {
        if a != jti {
          assert Inherits(s, a);
        }
      }
    }
    forall a | Live(s', a) && a != jti
      ensures Live(s, a) && s'.origin[a] == s.origin[a] != root
    {
      assert Inherits(s, a);
    }
    assert OneLivePerLogin(s');
  }

  lemma InvStep(cfg: Config, s: State, e: Event)
    requires Inv(s)
    ensures Inv(Step(cfg, s, e))
  {
    var s' := Step(cfg, s, e);
    var (rows, r) := Effect(cfg, s, e);
    match e {
      case Login(user, ids, now) =>
        if r.Issued? {
          InvExtended(s, ids.refresh, ids.refresh, rows[ids.refresh], r.access, r.refresh);
        }
      case Logout(t, now) =>
        InvRetired(s, t.jti, None);
      case Refresh(t, device, ip, ids, now) =>
        if r.Issued? {
          assert Inherits(s, t.jti) && Live(s, t.jti);
          InvRetired(s, t.jti, ip);
          InvExtended(Retired(s, t.jti, ip), ids.refresh, s.origin[t.jti], rows[ids.refresh], r.access, r.refresh);
        }
    }
  }

  /** At every point of every history: each login has at most one session that is not revoked, and
      all its sessions share one user and one device. */
  lemma {:induction false} RotationInvariant(cfg: Config, h: seq<Event>)
    ensures Inv(Run(cfg, START, h))
  {
    if h != [] {
      RotationInvariant(cfg, h[..|h| - 1]);
      InvStep(cfg, Run(cfg, START, h[..|h| - 1]), h[|h| - 1]);
    }
  }

  // ---------------------------------------------------------------------------
  // One-time use
  // ---------------------------------------------------------------------------

  predicate Succeeds(cfg: Config, s: State, e: Event) {
    Effect(cfg, s, e).1.Issued?
  }

  predicate RevokedIn(s: State, jti: string) {
    jti in s.rows && s.rows[jti].revoked
  }

  lemma {:induction false} RevokedForGood(cfg: Config, s: State, h: seq<Event>, jti: string)
    requires RevokedIn(s, jti)
    ensures RevokedIn(Run(cfg, s, h), jti)
  {
    if h != [] {
      RevokedForGood(cfg, s, h[..|h| - 1], jti);
    }
  }

  lemma {:induction false} RunSplit(cfg: Config, s: State, g: seq<Event>, h: seq<Event>)
    ensures Run(cfg, s, g + h) == Run(cfg, Run(cfg, s, g), h)
  {
    if h == [] {
      assert g + h == g;
    } else {
      assert (g + h)[..|g + h| - 1] == g + h[..|h| - 1];
      RunSplit(cfg, s, g, h[..|h| - 1]);
    }
  }

  /** A refresh token is accepted at most once, whoever presents it and whatever happens between. */
  lemma TokenWorksOnce(cfg: Config, s: State, h: seq<Event>, first: Event, again: Event)
    requires first.Refresh? && again.Refresh? && first.token.jti == again.token.jti
    requires Succeeds(cfg, s, first)
    ensures !Succeeds(cfg, Run(cfg, Step(cfg, s, first), h), again)
  {
    RevokedForGood(cfg, Step(cfg, s, first), h, first.token.jti);
  }

  /** The device of the login a session descends from. */
  function LoginDevice(s: State, jti: string): Option<string> {
    if jti in s.origin && s.origin[jti] in s.rows then s.rows[s.origin[jti]].device else None
  }

  /** Exactly when a refresh succeeds: the token is a refresh token somebody was given, it has not
      expired, its session is not revoked, the device, if named, is the one of the login, and the new
      session's key is free. */
  lemma RefreshSucceedsExactly(cfg: Config, s: State, e: Event)
    requires Inv(s) && e.Refresh?
    ensures Succeeds(cfg, s, e) <==>
              && e.token in s.issued && e.token.kind == REFRESH && e.now < e.token.exp
              && Live(s, e.token.jti)
              && (e.device.Some? ==> e.device == LoginDevice(s, e.token.jti))
              && e.ids.refresh !in s.rows
  {
    if e.token in s.issued && e.token.kind == REFRESH {
      assert Inherits(s, e.token.jti);
    }
    assert (Revoke(TouchIp(s.rows, e.token.jti, e.ip), e.token.jti)).Keys == s.rows.Keys;
  }

  // ---------------------------------------------------------------------------
  // What each operation does
  // ---------------------------------------------------------------------------

  /** A login succeeds exactly with the right credentials and a free key. It gives out an access and a refresh
      token of that user and adds one live session, which belongs to its own login; all else is as before. A
      refused login changes nothing. */
  lemma LoginSucceedsExactly(cfg: Config, s: State, user: Option<string>, ids: Ids, now: Time)
    ensures var e := Login(user, ids, now);
            var s', r := Step(cfg, s, e), Effect(cfg, s, e).1;
            && (Succeeds(cfg, s, e) <==> user.Some? && ids.refresh !in s.rows)
            && (r.AuthError? <==> user.None?)
            && (!Succeeds(cfg, s, e) ==> s' == s)
            && (Succeeds(cfg, s, e) ==>
                  && r.access == Token(user.value, ACCESS, ids.access, now + cfg.accessTtl)
                  && r.refresh == Token(user.value, REFRESH, ids.refresh, now + cfg.refreshTtl)
                  && r.device == ids.device
                  && s'.rows == s.rows[ids.refresh := Row(user.value, now + cfg.refreshTtl, false,
                                                          Some(ids.device), None)]
                  && s'.origin == s.origin[ids.refresh := ids.refresh]
                  && s'.issued == s.issued + {r.access, r.refresh}
                  && Live(s', ids.refresh))
  {
  }

  /** The row a refresh uses up: revoked, with the client's address if one is given. */
  function UsedUp(row: Row, ip: Option<string>): Row {
    Row(row.user, row.expiresAt, true, row.device, if ip.Some? && ip.value != "" then ip else row.lastSeenIp)
  }

  /** A refresh that succeeds gives out tokens of the session's user for the device of its login, revokes the
      session it used and adds one to the same login; a refused one changes nothing. */
  lemma RefreshRotates(cfg: Config, s: State, e: Event)
    requires Inv(s) && e.Refresh?
    ensures var s', r := Step(cfg, s, e), Effect(cfg, s, e).1;
            var jti := e.token.jti;
            && (!Succeeds(cfg, s, e) ==> s' == s)
            && (Succeeds(cfg, s, e) ==>
                  && jti in s.rows && jti in s.origin && LoginDevice(s, jti) == Some(r.device)
                  && r.access == Token(s.rows[jti].user, ACCESS, e.ids.access, e.now + cfg.accessTtl)
                  && r.refresh == Token(s.rows[jti].user, REFRESH, e.ids.refresh, e.now + cfg.refreshTtl)
                  && s'.origin == s.origin[e.ids.refresh := s.origin[jti]]
                  && s'.issued == s.issued + {r.access, r.refresh}
                  && s'.rows == s.rows[jti := UsedUp(s.rows[jti], if jti == "" then None else e.ip)]
                                      [e.ids.refresh := Row(s.rows[jti].user, e.now + cfg.refreshTtl, false,
                                                            Some(r.device), None)])
  {
    if Succeeds(cfg, s, e) {
      assert Inherits(s, e.token.jti);
    }
  }

  /** A logout with a token that verifies revokes the session of that token, if there is one, and changes nothing
      else; any other logout is refused and changes nothing at all. */
  lemma LogoutRevokes(cfg: Config, s: State, t: Token, now: Time)
    ensures var e := Logout(t, now);
            var s', r := Step(cfg, s, e), Effect(cfg, s, e).1;
            && r == (if t in s.issued && now <= t.exp then LoggedOut else AuthError)
            && s' == if t in s.issued && now <= t.exp && t.jti in s.rows
                     then s.(rows := s.rows[t.jti := s.rows[t.jti].(revoked := true)]) else s
  {
  }

  // ---------------------------------------------------------------------------
  // The end of a login
  // ---------------------------------------------------------------------------

  lemma DeadStep(cfg: Config, s: State, e: Event, root: string)
    requires Inv(s) && root in s.rows && Dead(s, root)
    ensures root in Step(cfg, s, e).rows && Dead(Step(cfg, s, e), root)
  {
    var s' := Step(cfg, s, e);
    forall jti | Live(s', jti) && jti in s'.origin
      ensures s'.origin[jti] != root
    {
      if Live(s, jti) {
        assert s'.origin[jti] == s.origin[jti];
      } else if e.Refresh? {
        assert Live(s, e.token.jti);
      }
    }
  }

  lemma {:induction false} DeadForGood(cfg: Config, s: State, h: seq<Event>, root: string)
    requires Inv(s) && root in s.rows && Dead(s, root)
    ensures Inv(Run(cfg, s, h)) && root in Run(cfg, s, h).rows && Dead(Run(cfg, s, h), root)
  {
    if h != [] {
      var past := h[..|h| - 1];
      DeadForGood(cfg, s, past, root);
      DeadStep(cfg, Run(cfg, s, past), h[|h| - 1], root);
      InvStep(cfg, Run(cfg, s, past), h[|h| - 1]);
    }
  }

  /** Logging out with a token that verifies ends the login exactly when the token belongs to the
      login's one live session, or the login was over already; and then no refresh of any of its
      sessions succeeds ever again. */
  lemma LogoutEndsLogin(cfg: Config, s: State, t: Token, now: Time, root: string)
    requires Inv(s) && root in s.rows && t in s.issued && now <= t.exp
    ensures Dead(Step(cfg, s, Logout(t, now)), root)
            <==> Dead(s, root) || (Live(s, t.jti) && s.origin[t.jti] == root)
  {
    var s' := Step(cfg, s, Logout(t, now));
    assert forall jti :: Live(s', jti) <==> Live(s, jti) && jti != t.jti;
    if Live(s, t.jti) && s.origin[t.jti] == root {
      assert Dead(s', root);
    } else if !Dead(s, root) {
      var jti :| Live(s, jti) && jti in s.origin && s.origin[jti] == root;
      assert Live(s', jti);
    }
  }

  lemma NoRefreshAfterEnd(cfg: Config, s: State, h: seq<Event>, root: string, e: Event)
    requires Inv(s) && root in s.rows && Dead(s, root)
    requires e.Refresh? && e.token.jti in Run(cfg, s, h).origin && Run(cfg, s, h).origin[e.token.jti] == root
    ensures !Succeeds(cfg, Run(cfg, s, h), e)
  {
    DeadForGood(cfg, s, h, root);
  }
}
