/** What holds over every run of serialized authentication requests. */
module SessionRuns {
  import opened Prelude
  import opened Tables
  import S = Sessions

  datatype Event =
    | Login(user: UserId, remember: bool, token: string, at: Time)
    | Refresh(raw: string, token: string, at: Time)
    | Logout(cookie: Option<string>, at: Time)
    | RequestReset(user: UserId, token: string, at: Time, mintedAt: Time)
    | ResetPassword(raw: string, password: string, at: Time)
    | ChangePassword(user: UserId, current: string, password: string, cookie: Option<string>, at: Time)
    | AddUser(user: UserId, account: User, at: Time)
    | SetActive(user: UserId, active: bool, at: Time)
    | DeleteUser(user: UserId, at: Time)

  /** How a refresh token came to be: `lineage` is the token of the login it descends from. */
  datatype Mint = Mint(lineage: Digest, user: UserId, remember: bool, at: Time)

  datatype ResetMint = ResetMint(user: UserId, at: Time)

  /** The tables, and what history remembers: every refresh and reset token ever minted, and every user id. */
  datatype World = World(db: Db, minted: map<Digest, Mint>, resetMints: map<Digest, ResetMint>,
                         known: set<UserId>, clock: Time)

  const START := World(Db(map[], map[], map[], map[]), map[], map[], {}, 0)

  /** Foreign keys with ON DELETE CASCADE. */
  function Deleted(db: Db, user: UserId): Db {
    Db(db.users - {user}, WithoutUser(db.live, user),
       map d | d in db.used && db.used[d].user != user :: db.used[d],
       map d | d in db.resets && db.resets[d].user != user :: db.resets[d])
  }

  function MintedBy(w: World, db: Db, lineage: Digest, token: string, at: Time): map<Digest, Mint>
    requires HashToken(token) in db.live
  {
    var row := db.live[HashToken(token)];
    w.minted[HashToken(token) := Mint(lineage, row.user, row.remember, at)]
  }

  function Step(w: World, e: Event): World {
    match e
    case Login(user, remember, token, at) =>
      var (db, r) := S.Login(w.db, user, remember, token, at);
      w.(db := db, clock := at, minted := if r.Ok? then MintedBy(w, db, HashToken(token), token, at) else w.minted)
    case Refresh(raw, token, at) =>
      var (db, r) := S.Refresh(w.db, raw, token, at);
      var d := HashToken(raw);
      var lineage := if d in w.minted then w.minted[d].lineage else d;
      w.(db := db, clock := at, minted := if r.Ok? then MintedBy(w, db, lineage, token, at) else w.minted)
    case Logout(cookie, at) => w.(db := S.Logout(w.db, cookie).0, clock := at)
    case RequestReset(user, token, at, mintedAt) =>
      var (db, r) := S.RequestReset(w.db, user, token, at, mintedAt);
      w.(db := db, clock := mintedAt,
         resetMints := if r == Ok(true) then w.resetMints[HashToken(token) := ResetMint(user, mintedAt)] else w.resetMints)
    case ResetPassword(raw, password, at) => w.(db := S.ResetPassword(w.db, raw, password, at).0, clock := at)
    case ChangePassword(user, current, password, cookie, at) =>
      w.(db := S.ChangePassword(w.db, user, current, password, cookie).0, clock := at)
    case AddUser(user, account, at) =>
      w.(db := w.db.(users := w.db.users[user := account]), known := w.known + {user}, clock := at)
    case SetActive(user, active, at) =>
      if user !in w.db.users then w.(clock := at)
      else w.(db := w.db.(users := w.db.users[user := w.db.users[user].(active := active)]), clock := at)
    case DeleteUser(user, at) => w.(db := Deleted(w.db, user), clock := at)
  }

  /** The clock does not go back, tokens are drawn fresh, and a user id is given out once. */
  predicate Admissible(w: World, e: Event) {
    && e.at >= w.clock
    && (e.Login? || e.Refresh? ==> HashToken(e.token) !in w.minted)
    && (e.RequestReset? ==> HashToken(e.token) !in w.resetMints && e.mintedAt >= e.at)
    && (e.AddUser? ==> e.user !in w.known)
  }

  function Run(w: World, events: seq<Event>): World
    decreases |events|
  {
    if events == [] then w else Run(Step(w, events[0]), events[1..])
  }

  predicate AdmissibleRun(w: World, events: seq<Event>)
    decreases |events|
  {
    events != [] ==> Admissible(w, events[0]) && AdmissibleRun(Step(w, events[0]), events[1..])
  }

  // ---------------------------------------------------------------- the invariant

  /** A live row is what its mint says: the expiry is the token's own issue time plus the TTL its flag chose. */
  ghost predicate RowMatches(w: World, d: Digest)
    requires d in w.db.live
  {
    d in w.minted && w.db.live[d] == NewRow(w.minted[d].user, w.minted[d].remember, w.minted[d].at)
  }

  ghost predicate UsedMatches(w: World, d: Digest)
    requires d in w.db.used
  {
    d in w.minted && w.db.used[d] == UsedRow(w.minted[d].user, w.minted[d].at + Ttl(w.minted[d].remember))
  }

  /** A token keeps the user and the flag of the login it descends from. */
  ghost predicate MintMatches(w: World, d: Digest)
    requires d in w.minted
  {
    var root := w.minted[d].lineage;
    && root in w.minted && w.minted[root].lineage == root
    && w.minted[root].user == w.minted[d].user && w.minted[root].remember == w.minted[d].remember
  }

  ghost predicate ResetMatches(w: World, d: Digest)
    requires d in w.resetMints
  {
    w.resetMints[d].at <= w.clock && w.resetMints[d].user in w.known
    && (w.resetMints[d].user in w.db.users ==>
      d in w.db.resets && w.db.resets[d].user == w.resetMints[d].user && w.db.resets[d].created == w.resetMints[d].at)
  }

  ghost predicate Inv(w: World) {
    && (forall d :: d in w.db.live ==> RowMatches(w, d) && d !in w.db.used)
    && (forall d :: d in w.db.used ==> UsedMatches(w, d))
    && (forall d :: d in w.minted ==> MintMatches(w, d))
    && (forall c, d :: c in w.db.live && d in w.db.live && w.minted[c].lineage == w.minted[d].lineage ==> c == d)
    && (forall d :: d in w.db.live ==> w.db.live[d].user in w.db.users)
    && w.db.users.Keys <= w.known
  }

  ghost predicate ResetRowMatches(w: World, d: Digest)
    requires d in w.db.resets
  {
    var row := w.db.resets[d];
    d in w.resetMints && w.resetMints[d] == ResetMint(row.user, row.created) && row.expires == row.created + S.RESET_TTL
  }

  ghost predicate ResetInv(w: World) {
    && (forall d :: d in w.db.resets ==> ResetRowMatches(w, d))
    && (forall d :: d in w.resetMints ==> ResetMatches(w, d))
    && w.db.users.Keys <= w.known
  }

  ghost predicate Submap<R>(a: map<Digest, R>, b: map<Digest, R>) {
    forall d :: d in a ==> d in b && a[d] == b[d]
  }

  /** Rows may go away. */
  lemma ShrinkKeepsInv(w: World, v: World)
    requires Inv(w) && v.minted == w.minted && v.db.users.Keys <= v.known
    requires Submap(v.db.live, w.db.live) && Submap(v.db.used, w.db.used)
    requires forall d :: d in v.db.live ==> v.db.live[d].user in v.db.users
    ensures Inv(v)
  {
    forall d | d in v.db.live ensures RowMatches(v, d) && d !in v.db.used {
      assert RowMatches(w, d);
    }
    forall d | d in v.db.used ensures UsedMatches(v, d) {
      assert UsedMatches(w, d);
    }
    forall d | d in v.minted ensures MintMatches(v, d) {
      assert MintMatches(w, d);
    }
  }

  /** A row may move from the live to the used table. */
  lemma ConsumeKeepsInv(w: World, v: World, d: Digest)
    requires Inv(w) && v.minted == w.minted && v.db.users.Keys <= v.known && d in w.db.live
    requires v.db.live == w.db.live - {d} && v.db.users == w.db.users
    requires v.db.used == w.db.used[d := UsedRow(w.db.live[d].user, w.db.live[d].expires)]
    ensures Inv(v)
  {
    assert RowMatches(w, d);
    forall c | c in v.db.live ensures RowMatches(v, c) && c !in v.db.used {
      assert RowMatches(w, c);
    }
    forall c | c in v.db.used ensures UsedMatches(v, c) {
      assert c != d ==> UsedMatches(w, c);
    }
    forall c | c in v.minted ensures MintMatches(v, c) {
      assert MintMatches(w, c);
    }
  }

  /** A fresh token may enter a lineage that has no live one. */
  lemma MintKeepsInv(w: World, v: World, d: Digest, m: Mint)
    requires Inv(w) && v.db.users.Keys <= v.known && d !in w.minted
    requires v.minted == w.minted[d := m] && v.db.used == w.db.used
    requires v.db.users == w.db.users && m.user in w.db.users
    requires v.db.live == w.db.live[d := NewRow(m.user, m.remember, m.at)]
    requires if m.lineage == d then true
      else m.lineage in w.minted && w.minted[m.lineage] == Mint(m.lineage, m.user, m.remember, w.minted[m.lineage].at)
    requires forall c :: c in w.db.live ==> w.minted[c].lineage != m.lineage
    ensures Inv(v)
  {
    hide RowMatches, UsedMatches, MintMatches;
    MintKeepsRows(w, v, d, m);
    MintKeepsLineages(w, v, d, m);
    forall b, c | b in v.db.live && c in v.db.live && v.minted[b].lineage == v.minted[c].lineage ensures b == c {
      assert SameLineage(v, b, c);
    }
  }

  predicate SameLineage(w: World, c: Digest, d: Digest) {
    c in w.minted && d in w.minted && w.minted[c].lineage == w.minted[d].lineage
  }

  lemma MintKeepsLineages(w: World, v: World, d: Digest, m: Mint)
    requires Inv(w) && d !in w.minted && v.minted == w.minted[d := m]
    requires v.db.live == w.db.live[d := NewRow(m.user, m.remember, m.at)]
    requires if m.lineage == d then true
      else m.lineage in w.minted && w.minted[m.lineage] == Mint(m.lineage, m.user, m.remember, w.minted[m.lineage].at)
    requires forall c :: c in w.db.live ==> w.minted[c].lineage != m.lineage
    ensures forall c :: c in v.minted ==> MintMatches(v, c)
    ensures forall b, c :: b in v.db.live && c in v.db.live && SameLineage(v, b, c) ==> b == c
  {
    hide UsedMatches;
    forall c | c in v.minted ensures MintMatches(v, c) {
      assert c != d ==> MintMatches(w, c);
    }
    forall b, c | b in v.db.live && c in v.db.live && SameLineage(v, b, c) ensures b == c {
      assert b != d ==> RowMatches(w, b);
      assert c != d ==> RowMatches(w, c);
    }
  }

  lemma MintKeepsRows(w: World, v: World, d: Digest, m: Mint)
    requires Inv(w) && d !in w.minted && v.minted == w.minted[d := m] && v.db.used == w.db.used
    requires v.db.live == w.db.live[d := NewRow(m.user, m.remember, m.at)]
    ensures forall c :: c in v.db.live ==> RowMatches(v, c) && c in v.minted && c !in v.db.used
    ensures forall c :: c in v.db.used ==> UsedMatches(v, c)
  {
    hide MintMatches;
    forall c | c in v.db.live ensures RowMatches(v, c) && c !in v.db.used {
      assert c != d ==> RowMatches(w, c);
      assert c in v.db.used ==> UsedMatches(w, c);
    }
    forall c | c in v.db.used ensures UsedMatches(v, c) {
      assert UsedMatches(w, c);
    }
  }

  lemma LoginKeepsInv(w: World, e: Event)
    requires Inv(w) && Admissible(w, e) && e.Login?
    ensures Inv(Step(w, e))
  {
    var d, v := HashToken(e.token), Step(w, e);
    if d in v.db.live && d !in w.db.live {
      forall c | c in w.db.live ensures w.minted[c].lineage != d {
        assert RowMatches(w, c) && MintMatches(w, c);
      }
      MintKeepsInv(w, v, d, Mint(d, e.user, e.remember, e.at));
    } else {
      assert d in w.db.live ==> RowMatches(w, d);
      ShrinkKeepsInv(w, v);
    }
  }

  /** A rotation is a consumption followed by a mint in the same lineage. */
  lemma RefreshKeepsInv(w: World, e: Event)
    requires Inv(w) && Admissible(w, e) && e.Refresh?
    ensures Inv(Step(w, e))
  {
    var d, v := HashToken(e.raw), Step(w, e);
    if S.Refresh(w.db, e.raw, e.token, e.at).1.Ok? {
      assert RowMatches(w, d) && MintMatches(w, d);
      var row, root := w.db.live[d], w.minted[d].lineage;
      var u := w.(db := w.db.(live := w.db.live - {d}, used := w.db.used[d := UsedRow(row.user, row.expires)]));
      ConsumeKeepsInv(w, u, d);
      assert MintMatches(w, root);
      MintKeepsInv(u, v, HashToken(e.token), Mint(root, row.user, row.remember, e.at));
    } else {
      ShrinkKeepsInv(w, v);
    }
  }

  lemma LogoutKeepsInv(w: World, e: Event)
    requires Inv(w) && Admissible(w, e) && e.Logout?
    ensures Inv(Step(w, e))
  {
    hide RowMatches, UsedMatches, MintMatches;
    var v := Step(w, e);
    if v.db.live == w.db.live {
      ShrinkKeepsInv(w, v);
    } else {
      ConsumeKeepsInv(w, v, HashToken(e.cookie.value));
    }
  }

  predicate IsQuiet(e: Event) {
    !e.Login? && !e.Refresh? && !e.Logout?
  }

  /** The other requests mint nothing and move nothing. */
  lemma QuietOnlyShrinks(w: World, e: Event)
    requires IsQuiet(e) && w.db.users.Keys <= w.known
    requires forall d :: d in w.db.live ==> w.db.live[d].user in w.db.users
    ensures var v := Step(w, e);
      && v.minted == w.minted && v.db.users.Keys <= v.known
      && Submap(v.db.live, w.db.live) && Submap(v.db.used, w.db.used)
      && forall d :: d in v.db.live ==> v.db.live[d].user in v.db.users
  {
    hide S.Refresh, S.Login, S.Logout, S.ResetsSince, MintedBy, S.ResetPassword, S.ChangePassword;
    if e.ResetPassword? || e.ChangePassword? {
      PasswordOnlyShrinks(w, e);
    }
  }

  lemma PasswordOnlyShrinks(w: World, e: Event)
    requires e.ResetPassword? || e.ChangePassword?
    ensures var v := Step(w, e);
      v.minted == w.minted && v.known == w.known && v.db.users.Keys == w.db.users.Keys && v.db.used == w.db.used
      && Submap(v.db.live, w.db.live)
  {
    hide S.Refresh, S.Login, S.Logout, S.RequestReset, MintedBy, Deleted;
  }

  lemma StepKeepsInv(w: World, e: Event)
    requires Inv(w) && Admissible(w, e)
    ensures Inv(Step(w, e))
  {
    if IsQuiet(e) {
      hide RowMatches, UsedMatches, MintMatches, Step;
      QuietOnlyShrinks(w, e);
      ShrinkKeepsInv(w, Step(w, e));
    } else {
      hide Inv, Step, Admissible;
      match e
      case Login(_, _, _, _) => LoginKeepsInv(w, e);
      case Refresh(_, _, _) => RefreshKeepsInv(w, e);
      case Logout(_, _) => LogoutKeepsInv(w, e);
    }
  }

  lemma {:induction false} RunKeepsInv(w: World, events: seq<Event>)
    requires Inv(w) && AdmissibleRun(w, events)
    ensures Inv(Run(w, events))
    decreases |events|
  {
    if events != [] {
      StepKeepsInv(w, events[0]);
      RunKeepsInv(Step(w, events[0]), events[1..]);
    }
  }

  // ---------------------------------------------------------------- lineages

  /** After any run: no hash is both live and used; a live token's user exists; a lineage has at most one live token;
      and a live token has the user and the flag of its lineage's login, and expires 30 days after its own issue if
      the flag is set and one day after it if not. */
  lemma LiveTokensAfterAnyRun(events: seq<Event>)
    requires AdmissibleRun(START, events)
    ensures var w := Run(START, events);
      && w.db.live.Keys !! w.db.used.Keys
      && w.db.live.Keys <= w.minted.Keys
      && (forall d :: d in w.db.live ==> w.db.live[d].user in w.db.users)
      && (forall c, d :: c in w.db.live && d in w.db.live && w.minted[c].lineage == w.minted[d].lineage ==> c == d)
      && (forall d :: d in w.db.live ==>
            && w.minted[d].lineage in w.minted
            && w.db.live[d].user == w.minted[w.minted[d].lineage].user
            && w.db.live[d].remember == w.minted[w.minted[d].lineage].remember
            && w.db.live[d].expires == w.minted[d].at + (if w.db.live[d].remember then 30 else 1) * 24 * 60 * 60 * 1000000)
  {
    RunKeepsInv(START, events);
    var w := Run(START, events);
    forall d | d in w.db.live
      ensures d in w.minted && w.minted[d].lineage in w.minted
      ensures w.db.live[d].user == w.minted[w.minted[d].lineage].user
      ensures w.db.live[d].remember == w.minted[w.minted[d].lineage].remember
      ensures w.db.live[d].expires == w.minted[d].at + (if w.db.live[d].remember then 30 else 1) * 24 * 60 * 60 * 1000000
    {
      assert RowMatches(w, d) && MintMatches(w, d);
    }
  }

  /** So in every reachable state a live token of an active user refreshes up to exactly that moment. */
  lemma LiveTokenRefreshesUntilItsEnd(events: seq<Event>, raw: string, token: string, now: Time)
    requires AdmissibleRun(START, events)
    requires HashToken(raw) in Run(START, events).db.live && HashToken(token) !in Run(START, events).minted
    ensures var w, d := Run(START, events), HashToken(raw);
      && d in w.minted && w.db.live[d].user in w.db.users
      && var end := w.minted[d].at + (if w.db.live[d].remember then 30 else 1) * 24 * 60 * 60 * 1000000;
      (w.db.users[w.db.live[d].user].active ==>
        S.Refresh(w.db, raw, token, now).1 == if now <= end then Ok(S.Issued(token, w.db.live[d].remember)) else Err(S.InvalidCredentials))
  {
    RunKeepsInv(START, events);
    LiveTokensAfterAnyRun(events);
    var w := Run(START, events);
    hide Run, AdmissibleRun;
    RefreshIssuesIff(w, raw, token, now);
    RefusedAnswers(w.db, raw, token, now);
  }

  lemma RefusedAnswers(db: Db, raw: string, token: string, now: Time)
    ensures S.Refresh(db, raw, token, now).1.Err? ==>
      S.Refresh(db, raw, token, now).1 == Err(if S.MayRotate(db, raw, now) then S.IntegrityError else S.InvalidCredentials)
    ensures S.Refresh(db, raw, token, now).1.Ok? ==>
      HashToken(raw) in db.live && S.Refresh(db, raw, token, now).1 == Ok(S.Issued(token, db.live[HashToken(raw)].remember))
  {
  }

  // ---------------------------------------------------------------- one refresh, one logout

  /** When a refresh issues a pair: the token is live, not expired, and its user is active. A token that is
      live is never in the used table, so the replay check cannot stand in the way. */
  lemma RefreshIssuesIff(w: World, raw: string, token: string, now: Time)
    requires Inv(w) && HashToken(token) !in w.minted
    ensures var d, row := HashToken(raw), w.db.live;
      S.Refresh(w.db, raw, token, now).1.Ok? <==>
      d in row && row[d].expires >= now && row[d].user in w.db.users && w.db.users[row[d].user].active
  {
    FreshIsNowhere(w, HashToken(token));
  }

  lemma FreshIsNowhere(w: World, d: Digest)
    requires Inv(w) && d !in w.minted
    ensures d !in w.db.live && d !in w.db.used
  {
    assert d in w.db.live ==> RowMatches(w, d);
    assert d in w.db.used ==> UsedMatches(w, d);
  }

  /** A login and every rotation after it hand out a token that is stored for the user and the flag of the login, or
      of the token that was presented. It is valid for 30 days with the flag and for one day without: a refresh with
      it is accepted up to that moment, for as long as the user stays active and nobody revokes it, and refused
      after it. */
  lemma IssuedTokenRefreshes(w: World, e: Event, again: string, now: Time)
    requires Inv(w) && Admissible(w, e) && (e.Login? || e.Refresh?)
    requires if e.Login? then e.user in w.db.users && w.db.users[e.user].active
      else S.Refresh(w.db, e.raw, e.token, e.at).1.Ok?
    requires HashToken(again) !in Step(w, e).minted
    ensures var v, d := Step(w, e), HashToken(e.token);
      var user := if e.Login? then e.user else w.db.live[HashToken(e.raw)].user;
      var remember := if e.Login? then e.remember else w.db.live[HashToken(e.raw)].remember;
      var end := e.at + (if remember then 30 else 1) * 24 * 60 * 60 * 1000000;
      && (if e.Login? then S.Login(w.db, e.user, e.remember, e.token, e.at).1 else S.Refresh(w.db, e.raw, e.token, e.at).1)
           == Ok(S.Issued(e.token, remember))
      && d in v.db.live && v.db.live[d] == LiveRow(user, end, remember)
      && S.Refresh(v.db, e.token, again, now).1 == (if now <= end then Ok(S.Issued(again, remember)) else Err(S.InvalidCredentials))
  {
    var v := Step(w, e);
    FreshIsNowhere(w, HashToken(e.token));
    StepKeepsInv(w, e);
    RefreshIssuesIff(v, e.token, again, now);
  }

  /** What a refresh that issues a pair leaves: the old hash used, the new one live for the same user and flag,
      every other row as it was. */
  lemma RefreshMovesOneToken(w: World, raw: string, token: string, now: Time)
    requires Inv(w) && HashToken(token) !in w.minted && S.Refresh(w.db, raw, token, now).1.Ok?
    ensures var db, before, d, n := S.Refresh(w.db, raw, token, now).0, w.db, HashToken(raw), HashToken(token);
      && d !in db.live && d in db.used && n in db.live && n !in db.used && n !in before.live
      && db.live[n].user == before.live[d].user && db.live[n].remember == before.live[d].remember
      && db.used[d].user == before.live[d].user && db.used[d].expires == before.live[d].expires
      && db.live - {n} == before.live - {d} && db.used - {d} == before.used
      && db.users == before.users && db.resets == before.resets
  {
    var db, d, n := S.Refresh(w.db, raw, token, now).0, HashToken(raw), HashToken(token);
    assert S.MayRotate(w.db, raw, now) && db == S.Rotated(w.db, raw, token, now);
    FreshIsNowhere(w, n);
    hide S.Refresh, S.MayRotate;
    assert n !in w.db.live && n !in w.db.used && d !in w.db.used && n != d by {
      assert RowMatches(w, d);
    }
    hide Inv;
    assert db.live - {n} == w.db.live - {d};
  }

  /** A used hash never issues a pair. Before its expiry the user is left with no live token, although the
      request rolls back, and nothing else changes; after it nothing changes at all, so the used row that the
      request meant to delete is still there. */
  lemma UsedTokenNeverIssues(w: World, raw: string, token: string, now: Time)
    requires Inv(w) && HashToken(raw) in w.db.used
    ensures var (db, r), d := S.Refresh(w.db, raw, token, now), HashToken(raw);
      && r == Err(S.InvalidCredentials)
      && db.used == w.db.used && db.users == w.db.users && db.resets == w.db.resets
      && (w.db.used[d].expires <= now ==> db.live == w.db.live)
      && (w.db.used[d].expires > now ==>
            && (forall c :: c in db.live ==> db.live[c].user != w.db.used[d].user)
            && (forall c :: c in w.db.live && w.db.live[c].user != w.db.used[d].user ==> c in db.live && db.live[c] == w.db.live[c]))
  {
    assert w.db.live - {HashToken(raw)} == w.db.live;
  }

  /** A login stores one row for an existing user under a hash that is not stored yet; otherwise a key refuses it and
      nothing changes. A rotation onto a stored hash is refused in the same way. */
  lemma LoginExactly(db: Db, user: UserId, remember: bool, token: string, now: Time)
    ensures var (after, r), d := S.Login(db, user, remember, token, now), HashToken(token);
      && (r.Ok? <==> user in db.users && d !in db.live)
      && (r.Err? ==> r == Err(S.IntegrityError) && after == db)
      && (r.Ok? ==>
            && r == Ok(S.Issued(token, remember))
            && after.live == db.live[d := LiveRow(user, now + (if remember then 30 else 1) * 24 * 60 * 60 * 1000000, remember)]
            && after == db.(live := after.live))
    ensures forall raw :: S.MayRotate(db, raw, now) && HashToken(token) in db.live && raw != token ==>
      S.Refresh(db, raw, token, now) == (db, Err(S.IntegrityError))
  {
  }

  /** When a key refuses a logout or a request for a reset, in any tables, reachable or not; nothing changes then. */
  lemma KeysRefuseExactly(db: Db, cookie: string, user: UserId, token: string, now: Time, mintedAt: Time)
    ensures var (after, r), d := S.Logout(db, Some(cookie)), HashToken(cookie);
      && (r == Err(S.IntegrityError) <==> cookie != "" && d in db.live && (d in db.used || db.live[d].user !in db.users))
      && (r == Ok(()) || (r == Err(S.IntegrityError) && after == db))
    ensures var (after, r) := S.RequestReset(db, user, token, now, mintedAt);
      var recent := set d | d in db.resets && db.resets[d].user == user && db.resets[d].created > now - 60 * 60 * 1000000;
      && (r == Err(S.IntegrityError) <==> user in db.users && |recent| < 3 && HashToken(token) in db.resets)
      && (r.Err? ==> r == Err(S.IntegrityError) && after == db)
  {
    assert S.ResetsSince(db.resets, user, now - S.RESET_WINDOW)
      == set d | d in db.resets && db.resets[d].user == user && db.resets[d].created > now - 60 * 60 * 1000000;
  }

  /** What every other refusal leaves: a live token that expired, or whose user is gone or not active, loses its own
      row and nobody another; a hash that is neither live nor used changes nothing. */
  lemma RefusedTokenGoesAlone(w: World, raw: string, token: string, now: Time)
    requires Inv(w) && HashToken(token) !in w.minted && HashToken(raw) !in w.db.used
    requires S.Refresh(w.db, raw, token, now).1.Err?
    ensures var (db, r), d := S.Refresh(w.db, raw, token, now), HashToken(raw);
      && r == Err(S.InvalidCredentials)
      && db.used == w.db.used && db.users == w.db.users && db.resets == w.db.resets
      && (forall c :: c in db.live <==> c in w.db.live && c != d)
      && (forall c :: c in db.live ==> db.live[c] == w.db.live[c])
      && (d in w.db.live ==>
            w.db.live[d].expires < now || w.db.live[d].user !in w.db.users || !w.db.users[w.db.live[d].user].active)
  {
    FreshIsNowhere(w, HashToken(token));
  }

  /** A logout never fails. With a live cookie it moves exactly that row to the used table, with its user and its
      expiry; without one it changes nothing. */
  lemma LogoutMovesOneToken(w: World, cookie: Option<string>)
    requires Inv(w)
    ensures var (db, r) := S.Logout(w.db, cookie);
      && r == Ok(())
      && db.users == w.db.users && db.resets == w.db.resets
      && (cookie.None? || cookie.value == "" || HashToken(cookie.value) !in w.db.live ==> db == w.db)
      && (cookie.Some? && cookie.value != "" && HashToken(cookie.value) in w.db.live ==>
            var d := HashToken(cookie.value);
            && d !in db.live && d in db.used && d !in w.db.used
            && db.used[d] == UsedRow(w.db.live[d].user, w.db.live[d].expires)
            && db.live == w.db.live - {d} && db.used - {d} == w.db.used)
  {
    if cookie.Some? && cookie.value != "" && HashToken(cookie.value) in w.db.live {
      var d := HashToken(cookie.value);
      assert RowMatches(w, d);
      assert w.db.used[d := UsedRow(w.db.live[d].user, w.db.live[d].expires)] - {d} == w.db.used;
    }
  }

  /** A logout with a live cookie consumes it, and the next use of it is a replay. */
  lemma LogoutConsumes(w: World, cookie: string, token: string, now: Time)
    requires Inv(w) && cookie != "" && HashToken(cookie) in w.db.live && w.db.live[HashToken(cookie)].expires > now
    ensures var (db, r), user := S.Logout(w.db, Some(cookie)), w.db.live[HashToken(cookie)].user;
      && r == Ok(())
      && db.live == w.db.live - {HashToken(cookie)}
      && S.Refresh(db, cookie, token, now).1 == Err(S.InvalidCredentials)
      && S.Refresh(db, cookie, token, now).0.live == WithoutUser(db.live, user)
  {
  }

  // ---------------------------------------------------------------- revocation

  ghost predicate Dead(w: World, d: Digest) {
    d in w.minted && d !in w.db.live
  }

  lemma StepKeepsDead(w: World, e: Event, d: Digest)
    requires Admissible(w, e) && Dead(w, d)
    ensures Dead(Step(w, e), d)
  {
  }

  lemma {:induction false} RunKeepsDead(w: World, events: seq<Event>, d: Digest)
    requires AdmissibleRun(w, events) && Dead(w, d)
    ensures Dead(Run(w, events), d)
    decreases |events|
  {
    if events != [] {
      StepKeepsDead(w, events[0], d);
      RunKeepsDead(Step(w, events[0]), events[1..], d);
    }
  }

  /** A minted token that is not live is refused in every later run. */
  lemma DeadIsRefusedForever(w: World, events: seq<Event>, raw: string, token: string, now: Time)
    requires AdmissibleRun(w, events) && Dead(w, HashToken(raw))
    ensures S.Refresh(Run(w, events).db, raw, token, now).1 == Err(S.InvalidCredentials)
  {
    RunKeepsDead(w, events, HashToken(raw));
  }

  /** After a password reset, every refresh token issued to that user before is refused in all later runs. */
  lemma ResetRevokesEverySession(w: World, reset: Event, events: seq<Event>, raw: string, token: string, now: Time)
    requires Inv(w) && reset.ResetPassword? && Admissible(w, reset) && AdmissibleRun(Step(w, reset), events)
    requires S.ResetUsable(w.db, reset.raw, reset.at)
    requires HashToken(raw) in w.minted && w.minted[HashToken(raw)].user == w.db.resets[HashToken(reset.raw)].user
    ensures S.Refresh(Run(Step(w, reset), events).db, raw, token, now).1 == Err(S.InvalidCredentials)
  {
    assert HashToken(raw) in w.db.live ==> RowMatches(w, HashToken(raw));
    DeadIsRefusedForever(Step(w, reset), events, raw, token, now);
  }

  /** After a replay was noticed, so is every token that the user held then. */
  lemma ReplayRevokesEverySession(w: World, replay: Event, events: seq<Event>, raw: string, token: string, now: Time)
    requires Inv(w) && replay.Refresh? && Admissible(w, replay) && AdmissibleRun(Step(w, replay), events)
    requires S.IsReplay(w.db, replay.raw, replay.at)
    requires HashToken(raw) in w.minted && w.minted[HashToken(raw)].user == w.db.used[HashToken(replay.raw)].user
    ensures S.Refresh(Run(Step(w, replay), events).db, raw, token, now).1 == Err(S.InvalidCredentials)
  {
    assert HashToken(raw) in w.db.live ==> RowMatches(w, HashToken(raw));
    DeadIsRefusedForever(Step(w, replay), events, raw, token, now);
  }

  /** After a password change exactly the caller's own token is left to the user, if it was live and theirs;
      other users keep theirs, and every other token of the user is refused in all later runs. */
  lemma ChangeKeepsOnlyTheCallersSession(w: World, change: Event, events: seq<Event>, raw: string, token: string, now: Time)
    requires Inv(w) && change.ChangePassword? && Admissible(w, change) && AdmissibleRun(Step(w, change), events)
    requires change.user in w.db.users && w.db.users[change.user].password == change.current
    ensures var after, own := Step(w, change).db.live,
        if change.cookie.Some? && change.cookie.value != "" then {HashToken(change.cookie.value)} else {};
      forall d :: d in after <==> d in w.db.live && (w.db.live[d].user != change.user || d in own)
    ensures HashToken(raw) in w.minted && w.minted[HashToken(raw)].user == change.user && change.cookie != Some(raw) ==>
      S.Refresh(Run(Step(w, change), events).db, raw, token, now).1 == Err(S.InvalidCredentials)
  {
    if HashToken(raw) in w.minted && w.minted[HashToken(raw)].user == change.user && change.cookie != Some(raw) {
      assert HashToken(raw) in w.db.live ==> RowMatches(w, HashToken(raw));
      DeadIsRefusedForever(Step(w, change), events, raw, token, now);
    }
  }

  // ---------------------------------------------------------------- reset tokens

  /** The reset tokens ever minted for the user in the hour after `from`. */
  ghost function MintedWithin(w: World, user: UserId, from: Time): set<Digest> {
    set d | d in w.resetMints && w.resetMints[d].user == user && from < w.resetMints[d].at <= from + 60 * 60 * 1000000
  }

  ghost predicate WindowsHold(w: World) {
    forall user, from :: |MintedWithin(w, user, from)| <= S.RESET_MAX
  }

  /** Sessions leave users and reset rows alone. */
  lemma SameResets(db: Db, e: Event)
    ensures e.Login? ==>
      var t := S.Login(db, e.user, e.remember, e.token, e.at).0; t.resets == db.resets && t.users == db.users
    ensures e.Refresh? ==> var t := S.Refresh(db, e.raw, e.token, e.at).0; t.resets == db.resets && t.users == db.users
    ensures e.Logout? ==> var t := S.Logout(db, e.cookie).0; t.resets == db.resets && t.users == db.users
  {
  }

  /** What a step may do to reset rows: mint one, mark some used, or delete those of a deleted user. */
  ghost predicate ResetsMoveOn(w: World, v: World) {
    && w.clock <= v.clock && w.known <= v.known
    && (forall d :: d in v.db.resets && d in w.db.resets ==> v.db.resets[d] == w.db.resets[d].(used := v.db.resets[d].used))
    && (forall d :: d in w.resetMints ==> d in v.resetMints && v.resetMints[d] == w.resetMints[d])
    && (forall d :: d in v.resetMints && d !in w.resetMints ==>
          && d in v.db.resets && v.resetMints[d] == ResetMint(v.db.resets[d].user, v.db.resets[d].created)
          && v.resetMints[d].user in v.db.users && v.resetMints[d].at <= v.clock)
    && (forall d :: d in v.db.resets && d !in w.db.resets ==>
          d in v.resetMints && v.resetMints[d].user == v.db.resets[d].user && v.resetMints[d].at == v.db.resets[d].created
          && v.db.resets[d].expires == v.db.resets[d].created + S.RESET_TTL)
    && (forall d :: d in w.db.resets && w.db.resets[d].user in v.db.users ==> d in v.db.resets)
    && (forall u :: u in v.db.users ==> u in w.db.users || u !in w.known)
  }

  lemma RequestMovesResets(w: World, e: Event)
    requires ResetInv(w) && Admissible(w, e) && e.RequestReset?
    ensures ResetsMoveOn(w, Step(w, e))
  {
    assert HashToken(e.token) in w.db.resets ==> ResetRowMatches(w, HashToken(e.token));
  }

  lemma OtherMovesResets(w: World, e: Event)
    requires ResetInv(w) && Admissible(w, e) && !e.RequestReset?
    ensures ResetsMoveOn(w, Step(w, e))
  {
    hide ResetMatches, ResetRowMatches, S.Login, S.Refresh, S.Logout;
    SameResets(w.db, e);
  }

  lemma StepKeepsResetInv(w: World, e: Event)
    requires ResetInv(w) && Admissible(w, e)
    ensures ResetInv(Step(w, e))
  {
    var v := Step(w, e);
    KnownStays(w, e);
    hide Step;
    if e.RequestReset? {
      RequestMovesResets(w, e);
    } else {
      OtherMovesResets(w, e);
    }
    forall d | d in v.resetMints ensures ResetMatches(v, d) {
      assert d in w.resetMints ==> ResetMatches(w, d);
    }
    forall d | d in v.db.resets ensures ResetRowMatches(v, d) {
      assert d in w.db.resets ==> ResetRowMatches(w, d);
    }
  }

  lemma KnownStays(w: World, e: Event)
    requires w.db.users.Keys <= w.known
    ensures Step(w, e).db.users.Keys <= Step(w, e).known
  {
  }

  /** The rows of a window that the new row falls into were all among those the request counted. */
  lemma CountedBefore(w: World, e: Event, from: Time)
    requires ResetInv(w) && Admissible(w, e) && e.RequestReset?
    requires e.user in w.db.users && e.mintedAt <= from + S.RESET_WINDOW
    requires |S.ResetsSince(w.db.resets, e.user, e.at - S.RESET_WINDOW)| < S.RESET_MAX
    ensures |MintedWithin(w, e.user, from)| < S.RESET_MAX
  {
    var before, counted := MintedWithin(w, e.user, from), S.ResetsSince(w.db.resets, e.user, e.at - S.RESET_WINDOW);
    forall c | c in before ensures c in counted {
      assert ResetMatches(w, c);
    }
    SubsetSize(before, counted);
  }

  lemma OneMoreInTheWindow(w: World, v: World, d: Digest, m: ResetMint, user: UserId, from: Time)
    requires d !in w.resetMints && v.resetMints == w.resetMints[d := m]
    ensures MintedWithin(v, user, from) == MintedWithin(w, user, from) + if m.user == user && from < m.at <= from + S.RESET_WINDOW then {d} else {}
  {
  }

  lemma ResetKeepsWindows(w: World, e: Event, user: UserId, from: Time)
    requires ResetInv(w) && Admissible(w, e) && e.RequestReset?
    requires |MintedWithin(w, user, from)| <= S.RESET_MAX
    ensures |MintedWithin(Step(w, e), user, from)| <= S.RESET_MAX
  {
    hide MintedWithin, ResetInv;
    var v := Step(w, e);
    if S.RequestReset(w.db, e.user, e.token, e.at, e.mintedAt).1 == Ok(true) {
      OneMoreInTheWindow(w, v, HashToken(e.token), ResetMint(e.user, e.mintedAt), user, from);
      if e.user == user && from < e.mintedAt <= from + S.RESET_WINDOW {
        CountedBefore(w, e, from);
      }
    } else {
      SameWindows(w, v, user, from);
    }
  }

  lemma SameWindows(w: World, v: World, user: UserId, from: Time)
    requires v.resetMints == w.resetMints
    ensures MintedWithin(v, user, from) == MintedWithin(w, user, from)
  {
  }

  lemma StepKeepsWindows(w: World, e: Event)
    requires ResetInv(w) && WindowsHold(w) && Admissible(w, e)
    ensures WindowsHold(Step(w, e))
  {
    hide MintedWithin, ResetInv;
    forall user, from ensures |MintedWithin(Step(w, e), user, from)| <= S.RESET_MAX {
      assert |MintedWithin(w, user, from)| <= S.RESET_MAX;
      if e.RequestReset? {
        ResetKeepsWindows(w, e, user, from);
      } else {
        SameWindows(w, Step(w, e), user, from);
      }
    }
  }

  lemma {:induction false} WindowsHoldFrom(w: World, events: seq<Event>)
    requires ResetInv(w) && WindowsHold(w) && AdmissibleRun(w, events)
    ensures ResetInv(Run(w, events)) && WindowsHold(Run(w, events))
    decreases |events|
  {
    if events != [] {
      StepKeepsResetInv(w, events[0]);
      StepKeepsWindows(w, events[0]);
      WindowsHoldFrom(Step(w, events[0]), events[1..]);
    }
  }

  /** Over any run, no half-open hour, wherever it starts, holds more than three reset tokens of one user. */
  lemma ResetLimitOnEveryWindow(events: seq<Event>, user: UserId, from: Time)
    requires AdmissibleRun(START, events)
    ensures |MintedWithin(Run(START, events), user, from)| <= 3
  {
    forall u, f ensures |MintedWithin(START, u, f)| <= S.RESET_MAX {
      assert MintedWithin(START, u, f) == {};
    }
    WindowsHoldFrom(START, events);
  }

  /** A request mints exactly when fewer than three tokens were minted for the user in the hour before it. */
  lemma ResetMintsIff(w: World, e: Event)
    requires ResetInv(w) && Admissible(w, e) && e.RequestReset?
    ensures S.RequestReset(w.db, e.user, e.token, e.at, e.mintedAt).1 == Ok(true) <==>
      e.user in w.db.users && |MintedWithin(w, e.user, e.at - 60 * 60 * 1000000)| < 3
  {
    var d := HashToken(e.token);
    assert d in w.db.resets ==> ResetRowMatches(w, d);
    if e.user in w.db.users {
      var counted, minted := S.ResetsSince(w.db.resets, e.user, e.at - S.RESET_WINDOW), MintedWithin(w, e.user, e.at - 60 * 60 * 1000000);
      forall c ensures c in counted <==> c in minted {
        assert c in w.db.resets ==> ResetRowMatches(w, c);
        assert c in w.resetMints ==> ResetMatches(w, c);
      }
      assert counted == minted;
    }
  }

  ghost predicate Spent(w: World, d: Digest) {
    d in w.resetMints && (d in w.db.resets ==> w.db.resets[d].used)
  }

  lemma StepKeepsSpent(w: World, e: Event, d: Digest)
    requires Admissible(w, e) && Spent(w, d)
    ensures Spent(Step(w, e), d)
  {
    hide S.Login, S.Refresh, S.Logout;
    SameResets(w.db, e);
  }

  lemma {:induction false} RunKeepsSpent(w: World, events: seq<Event>, d: Digest)
    requires AdmissibleRun(w, events) && Spent(w, d)
    ensures Spent(Run(w, events), d)
    decreases |events|
  {
    hide Spent, Step, Admissible;
    if events != [] {
      StepKeepsSpent(w, events[0], d);
      RunKeepsSpent(Step(w, events[0]), events[1..], d);
    }
  }

  /** A reset link works once: after it was used it is refused in every later run. */
  lemma ResetLinkWorksOnce(w: World, reset: Event, events: seq<Event>, password: string, now: Time)
    requires reset.ResetPassword? && Admissible(w, reset) && AdmissibleRun(Step(w, reset), events)
    requires S.ResetUsable(w.db, reset.raw, reset.at) && HashToken(reset.raw) in w.resetMints
    ensures S.ResetPassword(Run(Step(w, reset), events).db, reset.raw, password, now).1 == Err(S.InvalidResetToken)
  {
    RunKeepsSpent(Step(w, reset), events, HashToken(reset.raw));
  }

  // ---------------------------------------------------------------- passwords

  /** What a request for a reset leaves: one unused row for the user that expires an hour after it was made, or
      nothing. */
  lemma ResetRequestAddsOneRow(w: World, e: Event)
    requires ResetInv(w) && Admissible(w, e) && e.RequestReset?
    ensures var (db, r), d := S.RequestReset(w.db, e.user, e.token, e.at, e.mintedAt), HashToken(e.token);
      && (r == Ok(true) || r == Ok(false))
      && (r == Ok(false) ==> db == w.db)
      && (r == Ok(true) ==>
            && d !in w.db.resets && d in db.resets && db.resets - {d} == w.db.resets
            && db.resets[d] == ResetRow(e.user, e.mintedAt, e.mintedAt + 60 * 60 * 1000000, false)
            && db.users == w.db.users && db.live == w.db.live && db.used == w.db.used)
  {
    var d := HashToken(e.token);
    assert d in w.db.resets ==> ResetRowMatches(w, d);
    if d !in w.db.resets {
      assert w.db.resets[d := ResetRow(e.user, e.mintedAt, e.mintedAt + S.RESET_TTL, false)] - {d} == w.db.resets;
    }
  }

  /** A reset is accepted exactly when its link was mailed to a user who still exists, was not used, and was mailed
      at most an hour ago. An accepted one stores exactly the given password, uses up the link and ends every
      session of the user; a refused one changes nothing. */
  lemma ResetPasswordExactly(w: World, e: Event)
    requires ResetInv(w) && e.ResetPassword?
    ensures var (db, r), d := S.ResetPassword(w.db, e.raw, e.password, e.at), HashToken(e.raw);
      && (r.Ok? <==>
            && d in w.resetMints && w.resetMints[d].user in w.db.users
            && !w.db.resets[d].used && e.at <= w.resetMints[d].at + 60 * 60 * 1000000)
      && (r.Err? ==> r == Err(S.InvalidResetToken) && db == w.db)
      && (r.Ok? ==>
            var user := w.resetMints[d].user;
            && r == Ok(user)
            && db.users.Keys == w.db.users.Keys
            && db.users[user] == User(w.db.users[user].active, e.password)
            && (forall u :: u in db.users && u != user ==> db.users[u] == w.db.users[u])
            && db.resets.Keys == w.db.resets.Keys
            && db.resets[d] == w.db.resets[d].(used := true)
            && (forall c :: c in db.resets && c != d ==> db.resets[c] == w.db.resets[c])
            && (forall c :: c in db.live <==> c in w.db.live && w.db.live[c].user != user)
            && (forall c :: c in db.live ==> db.live[c] == w.db.live[c])
            && db.used == w.db.used)
  {
    var d := HashToken(e.raw);
    assert d in w.db.resets ==> ResetRowMatches(w, d);
    assert d in w.resetMints ==> ResetMatches(w, d);
  }

  /** A change is accepted exactly when the current password is the stored one. An accepted one stores exactly the new
      one and deletes the user's rows but the cookie's; a refused one changes nothing. */
  lemma ChangePasswordExactly(db: Db, user: UserId, current: string, password: string, cookie: Option<string>)
    ensures var (after, r) := S.ChangePassword(db, user, current, password, cookie);
      && (r.Ok? <==> user in db.users && db.users[user].password == current)
      && (r.Err? ==> r == Err(S.InvalidCredentials) && after == db)
      && (r.Ok? ==>
            && after.users.Keys == db.users.Keys
            && after.users[user] == User(db.users[user].active, password)
            && (forall u :: u in after.users && u != user ==> after.users[u] == db.users[u])
            && (forall d :: d in after.live <==>
                  d in db.live && (db.live[d].user != user || (cookie.Some? && cookie.value != "" && d == HashToken(cookie.value))))
            && (forall d :: d in after.live ==> after.live[d] == db.live[d])
            && after.used == db.used && after.resets == db.resets)
  {
  }

  /** The event sets, or ends, a password of the user. */
  predicate SetsPassword(w: World, e: Event, user: UserId) {
    match e
    case ResetPassword(raw, password, at) => S.ResetPassword(w.db, raw, password, at).1 == Ok(user)
    case ChangePassword(u, current, password, cookie, _) => u == user && S.ChangePassword(w.db, u, current, password, cookie).1.Ok?
    case AddUser(u, _, _) => u == user
    case DeleteUser(u, _) => u == user
    case _ => false
  }

  predicate NobodySets(w: World, events: seq<Event>, user: UserId)
    decreases |events|
  {
    events != [] ==> !SetsPassword(w, events[0], user) && NobodySets(Step(w, events[0]), events[1..], user)
  }

  predicate HasPassword(w: World, user: UserId, password: string) {
    user in w.db.users && w.db.users[user].password == password
  }

  lemma StepKeepsPassword(w: World, e: Event, user: UserId, password: string)
    requires HasPassword(w, user, password) && !SetsPassword(w, e, user)
    ensures HasPassword(Step(w, e), user, password)
  {
    hide S.Login, S.Refresh, S.Logout;
    SameResets(w.db, e);
  }

  lemma {:induction false} RunKeepsPassword(w: World, events: seq<Event>, user: UserId, password: string)
    requires HasPassword(w, user, password) && NobodySets(w, events, user)
    ensures HasPassword(Run(w, events), user, password)
    decreases |events|
  {
    hide HasPassword, SetsPassword, Step;
    if events != [] {
      StepKeepsPassword(w, events[0], user, password);
      RunKeepsPassword(Step(w, events[0]), events[1..], user, password);
    }
  }

  /** The password that was set last is the user's, over every run of other requests: a change is accepted with it,
      and with nothing else. */
  lemma LastPasswordCounts(w: World, set_: Event, events: seq<Event>, user: UserId, current: string, password: string, cookie: Option<string>)
    requires (set_.ResetPassword? || set_.ChangePassword?) && SetsPassword(w, set_, user)
    requires NobodySets(Step(w, set_), events, user)
    ensures S.ChangePassword(Run(Step(w, set_), events).db, user, current, password, cookie).1.Ok? <==> current == set_.password
  {
    PasswordIsSet(w, set_, user);
    RunKeepsPassword(Step(w, set_), events, user, set_.password);
    ChangePasswordExactly(Run(Step(w, set_), events).db, user, current, password, cookie);
  }

  lemma PasswordIsSet(w: World, e: Event, user: UserId)
    requires (e.ResetPassword? || e.ChangePassword?) && SetsPassword(w, e, user)
    ensures HasPassword(Step(w, e), user, e.password)
  {
  }
}
