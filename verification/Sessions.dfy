/** Token issuance, rotation, replay detection, logout, password reset and password change, one request at a
    time: what each request does to the tables, and the request bodies that do it. */
module Sessions {
  import opened Prelude
  import opened Tables

  datatype AuthError =
    | InvalidCredentials
    | InvalidResetToken
    | IntegrityError   // a unique or foreign key refused the commit, which rolls everything back

  /** A raw refresh token handed to the client. */
  datatype Issued = Issued(raw: string, remember: bool)

  // ---------------------------------------------------------------- what each request does

  /** create_user_tokens in its own transaction, after authentication. */
  function Login(db: Db, user: UserId, remember: bool, token: string, now: Time): (Db, Result<Issued, AuthError>) {
    if user !in db.users || HashToken(token) in db.live then (db, Err(IntegrityError))
    else (db.(live := db.live[HashToken(token) := NewRow(user, remember, now)]), Ok(Issued(token, remember)))
  }

  /** An unexpired used token: somebody presents a token that was consumed before. */
  predicate IsReplay(db: Db, raw: string, now: Time) {
    HashToken(raw) in db.used && db.used[HashToken(raw)].expires > now
  }

  predicate MayRotate(db: Db, raw: string, now: Time) {
    var d := HashToken(raw);
    && !IsReplay(db, raw, now)
    && d in db.live
    && db.live[d].expires >= now
    && db.live[d].user in db.users
    && db.users[db.live[d].user].active
  }

  function Rotated(db: Db, raw: string, token: string, now: Time): Db
    requires HashToken(raw) in db.live
  {
    var d, row := HashToken(raw), db.live[HashToken(raw)];
    db.(live := (db.live - {d})[HashToken(token) := NewRow(row.user, row.remember, now)],
        used := db.used[d := UsedRow(row.user, row.expires)])
  }

  function Refresh(db: Db, raw: string, token: string, now: Time): (Db, Result<Issued, AuthError>) {
    var d := HashToken(raw);
    if MayRotate(db, raw, now) then
      if HashToken(token) in db.live - {d} then (db, Err(IntegrityError))
      else (Rotated(db, raw, token, now), Ok(Issued(token, db.live[d].remember)))
    else if IsReplay(db, raw, now) then
      (db.(live := WithoutUser(db.live, db.used[d].user)), Err(InvalidCredentials))
    else
      (db.(live := db.live - {d}), Err(InvalidCredentials))
  }

  function Logout(db: Db, cookie: Option<string>): (Db, Result<(), AuthError>) {
    if cookie.None? || cookie.value == "" || HashToken(cookie.value) !in db.live then (db, Ok(()))
    else
      var d := HashToken(cookie.value);
      if d in db.used || db.live[d].user !in db.users then (db, Err(IntegrityError))
      else (db.(live := db.live - {d}, used := db.used[d := UsedRow(db.live[d].user, db.live[d].expires)]), Ok(()))
  }

  const RESET_TTL: Time := HOUR
  const RESET_WINDOW: Time := HOUR
  const RESET_MAX := 3

  /** The user's reset tokens minted after `since`. */
  function ResetsSince(resets: map<Digest, ResetRow>, user: UserId, since: Time): set<Digest> {
    set d | d in resets && resets[d].user == user && resets[d].created > since
  }

  /** The clock is read for the window at `now` and again for the new row at `mintedAt`. */
  function RequestReset(db: Db, user: UserId, token: string, now: Time, mintedAt: Time): (Db, Result<bool, AuthError>) {
    if user !in db.users || |ResetsSince(db.resets, user, now - RESET_WINDOW)| >= RESET_MAX then (db, Ok(false))
    else if HashToken(token) in db.resets then (db, Err(IntegrityError))
    else (db.(resets := db.resets[HashToken(token) := ResetRow(user, mintedAt, mintedAt + RESET_TTL, false)]), Ok(true))
  }

  predicate ResetUsable(db: Db, raw: string, now: Time) {
    var d := HashToken(raw);
    d in db.resets && db.resets[d].user in db.users && !db.resets[d].used && db.resets[d].expires >= now
  }

  function ResetPassword(db: Db, raw: string, password: string, now: Time): (Db, Result<UserId, AuthError>) {
    if !ResetUsable(db, raw, now) then (db, Err(InvalidResetToken))
    else
      var d := HashToken(raw);
      var user := db.resets[d].user;
      (Db(db.users[user := db.users[user].(password := password)], WithoutUser(db.live, user), db.used,
          db.resets[d := db.resets[d].(used := true)]),
       Ok(user))
  }

  /** The rows that a password change leaves: everyone else's, and the caller's own cookie. */
  function KeepingCookie(live: map<Digest, LiveRow>, user: UserId, cookie: Option<string>): map<Digest, LiveRow> {
    map d | d in live && (live[d].user != user || (cookie.Some? && cookie.value != "" && d == HashToken(cookie.value)))
      :: live[d]
  }

  function ChangePassword(db: Db, user: UserId, current: string, password: string, cookie: Option<string>)
    : (Db, Result<(), AuthError>)
  {
    if user !in db.users || db.users[user].password != current then (db, Err(InvalidCredentials))
    else
      (db.(users := db.users[user := db.users[user].(password := password)],
           live := KeepingCookie(db.live, user, cookie)),
       Ok(()))
  }

  // ---------------------------------------------------------------- the requests

  /** The committed tables. A request works on copies, its session; committing writes them back, and a rollback
      forgets them. A write that must survive the rollback is made to the tables at once. */
  class AuthDatabase {
    var users: map<UserId, User>
    var live: map<Digest, LiveRow>
    var used: map<Digest, UsedRow>
    var resets: map<Digest, ResetRow>

    ghost function State(): Db
      reads this
    {
      Db(users, live, used, resets)
    }

    constructor ()
      ensures State() == Db(map[], map[], map[], map[])
    {
      users, live, used, resets := map[], map[], map[], map[];
    }

    /** Its own committed session. */
    method DeleteRefreshToken(d: Digest)
      modifies this`live
      ensures live == old(live) - {d}
    {
      live := live - {d};
    }

    /** Its own committed session. */
    method NukeUserRefreshTokens(user: UserId)
      modifies this`live
      ensures live == WithoutUser(old(live), user)
    {
      live := map d | d in live && live[d].user != user :: live[d];
    }

    method LoginRequest(user: UserId, remember: bool, token: string, now: Time) returns (r: Result<Issued, AuthError>)
      modifies this
      ensures (State(), r) == Login(old(State()), user, remember, token, now)
    {
      var sessionLive := live;
      var hashed := HashToken(token);
      var ttl := if remember then 30 * DAY else DAY;
      if user !in users || hashed in sessionLive {
        return Err(IntegrityError);
      }
      sessionLive := sessionLive[hashed := LiveRow(user, now + ttl, remember)];
      live := sessionLive;
      r := Ok(Issued(token, remember));
    }

    method RefreshUserTokens(raw: string, token: string, now: Time) returns (r: Result<Issued, AuthError>)
      modifies this
      ensures (State(), r) == Refresh(old(State()), raw, token, now)
    {
      var sessionLive, sessionUsed := live, used;
      var d := HashToken(raw);
      if d in sessionUsed {
        var record := sessionUsed[d];
        if record.expires > now {
          NukeUserRefreshTokens(record.user);
          return Err(InvalidCredentials);
        }
        sessionUsed := sessionUsed - {d};
      }
      if d !in sessionLive {
        assert live - {d} == live;
        return Err(InvalidCredentials);
      }
      var row := sessionLive[d];
      if row.expires < now {
        DeleteRefreshToken(d);
        return Err(InvalidCredentials);
      }
      if row.user !in users || !users[row.user].active {
        DeleteRefreshToken(d);
        return Err(InvalidCredentials);
      }
      if d in sessionUsed {
        return Err(IntegrityError);
      }
      sessionUsed := sessionUsed[d := UsedRow(row.user, row.expires)];
      sessionLive := sessionLive - {d};
      var hashed := HashToken(token);
      var ttl := if row.remember then 30 * DAY else DAY;
      if hashed in sessionLive {
        return Err(IntegrityError);
      }
      sessionLive := sessionLive[hashed := LiveRow(row.user, now + ttl, row.remember)];
      live, used := sessionLive, sessionUsed;
      assert used == old(used)[d := UsedRow(row.user, row.expires)];
      r := Ok(Issued(token, row.remember));
    }

    method LogoutUser(cookie: Option<string>) returns (r: Result<(), AuthError>)
      modifies this
      ensures (State(), r) == Logout(old(State()), cookie)
    {
      if cookie.Some? && cookie.value != "" {
        var d := HashToken(cookie.value);
        if d in live {
          var row := live[d];
          if d in used || row.user !in users {
            return Err(IntegrityError);
          }
          used := used[d := UsedRow(row.user, row.expires)];
          live := live - {d};
        }
      }
      r := Ok(());
    }

    method RequestPasswordReset(user: UserId, token: string, now: Time, mintedAt: Time) returns (r: Result<bool, AuthError>)
      modifies this
      ensures (State(), r) == RequestReset(old(State()), user, token, now, mintedAt)
    {
      if user !in users {
        return Ok(false);
      }
      var recent := set d | d in resets && resets[d].user == user && resets[d].created > now - RESET_WINDOW;
      if |recent| >= RESET_MAX {
        return Ok(false);
      }
      if HashToken(token) in resets {
        return Err(IntegrityError);
      }
      resets := resets[HashToken(token) := ResetRow(user, mintedAt, mintedAt + RESET_TTL, false)];
      r := Ok(true);
    }

    method ResetPasswordRequest(raw: string, password: string, now: Time) returns (r: Result<UserId, AuthError>)
      modifies this
      ensures (State(), r) == ResetPassword(old(State()), raw, password, now)
    {
      var d := HashToken(raw);
      if d !in resets || resets[d].user !in users {
        return Err(InvalidResetToken);
      }
      var record := resets[d];
      if record.used {
        return Err(InvalidResetToken);
      }
      if record.expires < now {
        return Err(InvalidResetToken);
      }
      users := users[record.user := users[record.user].(password := password)];
      resets := resets[d := record.(used := true)];
      live := map t | t in live && live[t].user != record.user :: live[t];
      r := Ok(record.user);
    }

    method ChangeUserPassword(user: UserId, current: string, password: string, cookie: Option<string>)
        returns (r: Result<(), AuthError>)
      modifies this
      ensures (State(), r) == ChangePassword(old(State()), user, current, password, cookie)
    {
      if user !in users || users[user].password != current {
        return Err(InvalidCredentials);
      }
      users := users[user := users[user].(password := password)];
      if cookie.Some? && cookie.value != "" {
        live := map d | d in live && !(live[d].user == user && d != HashToken(cookie.value)) :: live[d];
      } else {
        live := map d | d in live && live[d].user != user :: live[d];
      }
      assert live == KeepingCookie(old(live), user, cookie);
      r := Ok(());
    }
  }
}
