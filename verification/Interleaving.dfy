/** Concurrent refreshes and logouts, cut into the phases between which other transactions may commit: the
    reads, each of which sees what is committed at that moment, the writes in sessions of their own, and the
    final commit, where the keys are checked. */
module Interleaving {
  import opened Prelude
  import opened Tables
  import S = Sessions
  import R = SessionRuns

  datatype Outcome =
    | Rotated(raw: string, remember: bool)
    | LoggedOut
    | Refused
    | Conflict   // a key refused the commit, which was rolled back

  /** How far a request has come. `dropsUsed`: its session holds an uncommitted delete of the expired used row. */
  datatype Phase =
    | Begun
    | NotAReplay(dropsUsed: bool)
    | SawRow(dropsUsed: bool, row: LiveRow)
    | SawUser(dropsUsed: bool, row: LiveRow)
    | Nuking(user: UserId)
    | CleaningUp
    | Done(outcome: Outcome)

  datatype Request = Request(raw: string, logout: bool, phase: Phase)

  datatype System = System(db: Db, requests: map<nat, Request>,
                           // what history remembers
                           minted: map<Digest, R.Mint>, consumed: seq<Digest>, known: set<UserId>)

  const START := System(Db(map[], map[], map[], map[]), map[], map[], [], {})

  datatype Label =
    | Begin(rid: nat, raw: string, logout: bool)
    | Advance(rid: nat, token: string, now: Time)
    | Login(user: UserId, remember: bool, token: string, now: Time)
    | Revoke(gone: set<Digest>)   // any other committed delete of refresh tokens
    | AddUser(user: UserId, account: User)
    | SetActive(user: UserId, active: bool)
    | DeleteUser(user: UserId)

  // ---------------------------------------------------------------- one phase

  /** Any phase but the last: the tables after it, and the request's next phase. */
  function Phased(db: Db, q: Request, now: Time): (Db, Phase)
    requires !q.phase.SawUser?
  {
    var d := HashToken(q.raw);
    match q.phase
    case Begun =>
      if q.logout then (db, NotAReplay(false))
      else if d !in db.used then (db, NotAReplay(false))
      else if db.used[d].expires > now then (db, Nuking(db.used[d].user))
      else (db, NotAReplay(true))
    case NotAReplay(dropsUsed) =>
      if d !in db.live then (db, Done(if q.logout then LoggedOut else Refused))
      else if q.logout then (db, SawUser(dropsUsed, db.live[d]))
      else if db.live[d].expires < now then (db, CleaningUp)
      else (db, SawRow(dropsUsed, db.live[d]))
    case SawRow(dropsUsed, row) =>
      if row.user !in db.users || !db.users[row.user].active then (db, CleaningUp)
      else (db, SawUser(dropsUsed, row))
    case Nuking(user) => (db.(live := WithoutUser(db.live, user)), Done(Refused))
    case CleaningUp => (db.(live := db.live - {d}), Done(Refused))
    case Done(_) => (db, q.phase)
  }

  /** The used table that the session's own delete leaves. */
  function UsedInSession(db: Db, q: Request): map<Digest, UsedRow>
    requires q.phase.SawUser?
  {
    if q.phase.dropsUsed then db.used - {HashToken(q.raw)} else db.used
  }

  /** The unique keys of the two tables and the foreign keys to the user. */
  predicate CommitAccepted(db: Db, q: Request, token: string)
    requires q.phase.SawUser?
  {
    var d := HashToken(q.raw);
    && d !in UsedInSession(db, q)
    && q.phase.row.user in db.users
    && (q.logout || HashToken(token) !in db.live - {d})
  }

  /** The delete of a live row that is already gone matches no row and is let through. */
  function Committed(db: Db, q: Request, token: string, now: Time): Db
    requires q.phase.SawUser?
  {
    var d, row := HashToken(q.raw), q.phase.row;
    var left := db.live - {d};
    db.(used := UsedInSession(db, q)[d := UsedRow(row.user, row.expires)],
        live := if q.logout then left else left[HashToken(token) := NewRow(row.user, row.remember, now)])
  }

  /** The request's next phase, whichever it is in: the tables after it and how far the request has come. */
  function Moved(db: Db, q: Request, token: string, now: Time): (Db, Phase) {
    if !q.phase.SawUser? then Phased(db, q, now)
    else if !CommitAccepted(db, q, token) then (db, Done(Conflict))
    else (Committed(db, q, token, now), Done(if q.logout then LoggedOut else Rotated(token, q.phase.row.remember)))
  }

  predicate Commits(db: Db, q: Request, token: string) {
    q.phase.SawUser? && CommitAccepted(db, q, token)
  }

  function AdvanceStep(s: System, rid: nat, token: string, now: Time): System
    requires rid in s.requests
  {
    var q := s.requests[rid];
    var (db, phase) := Moved(s.db, q, token, now);
    var t := s.(db := db, requests := s.requests[rid := q.(phase := phase)]);
    if !Commits(s.db, q, token) then t
    else
      var d := HashToken(q.raw);
      var lineage := if d in s.minted then s.minted[d].lineage else d;
      t.(consumed := s.consumed + [d],
         minted := if q.logout then s.minted
           else s.minted[HashToken(token) := R.Mint(lineage, q.phase.row.user, q.phase.row.remember, now)])
  }

  function Step(s: System, l: Label): System {
    match l
    case Begin(rid, raw, logout) => s.(requests := s.requests[rid := Request(raw, logout, Begun)])
    case Advance(rid, token, now) =>
      if rid in s.requests then AdvanceStep(s, rid, token, now) else s
    case Login(user, remember, token, now) =>
      var (db, r) := S.Login(s.db, user, remember, token, now);
      s.(db := db, minted := if r.Ok? then s.minted[HashToken(token) := R.Mint(HashToken(token), user, remember, now)] else s.minted)
    case Revoke(gone) => s.(db := s.db.(live := s.db.live - gone))
    case AddUser(user, account) =>
      s.(db := s.db.(users := s.db.users[user := account]), known := s.known + {user})
    case SetActive(user, active) =>
      if user !in s.db.users then s
      else s.(db := s.db.(users := s.db.users[user := s.db.users[user].(active := active)]))
    case DeleteUser(user) => s.(db := R.Deleted(s.db, user))
  }

  /** Tokens are drawn fresh; a request's and a user's id is given out once. */
  predicate Admissible(s: System, l: Label) {
    && (l.Begin? ==> l.rid !in s.requests)
    && (l.Advance? || l.Login? ==> HashToken(l.token) !in s.minted)
    && (l.AddUser? ==> l.user !in s.known)
  }

  function Run(s: System, labels: seq<Label>): System
    decreases |labels|
  {
    if labels == [] then s else Run(Step(s, labels[0]), labels[1..])
  }

  predicate AdmissibleRun(s: System, labels: seq<Label>)
    decreases |labels|
  {
    labels != [] ==> Admissible(s, labels[0]) && AdmissibleRun(Step(s, labels[0]), labels[1..])
  }

  // ---------------------------------------------------------------- the phases refine the request

  function ToOutcome(r: Result<S.Issued, S.AuthError>): Outcome {
    match r
    case Ok(issued) => Rotated(issued.raw, issued.remember)
    case Err(e) => if e == S.IntegrityError then Conflict else Refused
  }

  /** Four phases, alone. */
  function Alone(db: Db, q: Request, token: string, now: Time, phases: nat): (Db, Phase)
    decreases phases
  {
    if phases == 0 then (db, q.phase)
    else
      var (db', phase) := Moved(db, q, token, now);
      Alone(db', q.(phase := phase), token, now, phases - 1)
  }

  lemma DoneStaysDone(db: Db, q: Request, token: string, now: Time, phases: nat)
    requires q.phase.Done?
    ensures Alone(db, q, token, now, phases) == (db, q.phase)
  {
    assert q.(phase := q.phase) == q;
  }

  lemma AloneFromRow(db: Db, raw: string, token: string, now: Time, drops: bool)
    requires var d := HashToken(raw); drops == (d in db.used) && (d in db.used ==> db.used[d].expires <= now)
    requires HashToken(raw) in db.live && db.live[HashToken(raw)].expires >= now
    ensures var q, (db', r) := Request(raw, false, SawRow(drops, db.live[HashToken(raw)])), S.Refresh(db, raw, token, now);
      Alone(db, q, token, now, 2) == (db', Done(ToOutcome(r)))
  {
    var d := HashToken(raw);
    var row := db.live[d];
    var q := Request(raw, false, SawRow(drops, row));
    var (db1, phase1) := Moved(db, q, token, now);
    var q1 := q.(phase := phase1);
    var (db2, phase2) := Moved(db1, q1, token, now);
    assert Alone(db, q, token, now, 2) == Alone(db1, q1, token, now, 1) == (db2, phase2);
    if phase1.SawUser? {
      assert UsedInSession(db, q1)[d := UsedRow(row.user, row.expires)] == db.used[d := UsedRow(row.user, row.expires)];
    }
  }

  lemma AloneIsRefresh(db: Db, raw: string, token: string, now: Time)
    ensures var (db', r) := S.Refresh(db, raw, token, now);
      Alone(db, Request(raw, false, Begun), token, now, 4) == (db', Done(ToOutcome(r)))
  {
    var d := HashToken(raw);
    var q := Request(raw, false, Begun);
    var (db1, phase1) := Moved(db, q, token, now);
    var q1 := q.(phase := phase1);
    assert Alone(db, q, token, now, 4) == Alone(db1, q1, token, now, 3);
    var (db2, phase2) := Moved(db1, q1, token, now);
    var q2 := q1.(phase := phase2);
    assert Alone(db1, q1, token, now, 3) == Alone(db2, q2, token, now, 2);
    if phase2.Done? {
      assert d !in db.live ==> db.live - {d} == db.live;
      DoneStaysDone(db2, q2, token, now, 2);
    } else if phase2.SawRow? {
      AloneFromRow(db, raw, token, now, phase2.dropsUsed);
    } else {
      var (db3, phase3) := Moved(db2, q2, token, now);
      assert Alone(db2, q2, token, now, 2) == Alone(db3, q2.(phase := phase3), token, now, 1);
      DoneStaysDone(db3, q2.(phase := phase3), token, now, 1);
    }
  }

  lemma {:induction false} AdvancesRunAlone(s: System, rid: nat, token: string, now: Time, phases: nat)
    requires rid in s.requests
    ensures var t, (db, phase) := Run(s, seq(phases, _ => Advance(rid, token, now))), Alone(s.db, s.requests[rid], token, now, phases);
      rid in t.requests && t.db == db && t.requests[rid].phase == phase
    decreases phases
  {
    if phases > 0 {
      var labels := seq(phases, _ => Advance(rid, token, now));
      assert labels[1..] == seq(phases - 1, _ => Advance(rid, token, now));
      AdvancesRunAlone(Step(s, labels[0]), rid, token, now, phases - 1);
    }
  }

  /** With nothing in between, the four phases of a refresh do what the whole request does. */
  lemma PhasesRefineRefresh(s: System, rid: nat, raw: string, token: string, now: Time)
    ensures var t := Run(Step(s, Begin(rid, raw, false)), seq(4, _ => Advance(rid, token, now)));
      var (db, r) := S.Refresh(s.db, raw, token, now);
      rid in t.requests && t.db == db && t.requests[rid].phase == Done(ToOutcome(r))
  {
    AdvancesRunAlone(Step(s, Begin(rid, raw, false)), rid, token, now, 4);
    AloneIsRefresh(s.db, raw, token, now);
  }

  lemma AloneIsLogout(db: Db, raw: string, token: string, now: Time)
    requires raw != ""
    ensures var (db', r) := S.Logout(db, Some(raw));
      Alone(db, Request(raw, true, Begun), token, now, 3) == (db', Done(if r.Ok? then LoggedOut else Conflict))
  {
    var q := Request(raw, true, Begun);
    var q1 := q.(phase := NotAReplay(false));
    assert Alone(db, q, token, now, 3) == Alone(db, q1, token, now, 2);
    var (db2, phase2) := Moved(db, q1, token, now);
    assert Alone(db, q1, token, now, 2) == Alone(db2, q1.(phase := phase2), token, now, 1);
    if phase2.Done? {
      DoneStaysDone(db2, q1.(phase := phase2), token, now, 1);
    }
  }

  lemma PhasesRefineLogout(s: System, rid: nat, raw: string, token: string, now: Time)
    requires raw != ""
    ensures var t := Run(Step(s, Begin(rid, raw, true)), seq(3, _ => Advance(rid, token, now)));
      var (db, r) := S.Logout(s.db, Some(raw));
      rid in t.requests && t.db == db && t.requests[rid].phase == Done(if r.Ok? then LoggedOut else Conflict)
  {
    AdvancesRunAlone(Step(s, Begin(rid, raw, true)), rid, token, now, 3);
    AloneIsLogout(s.db, raw, token, now);
  }

  // ---------------------------------------------------------------- the invariant

  ghost predicate Consumed(s: System, d: Digest) {
    d in s.consumed
  }

  /** A consumed hash is never live again, and stays in the used table for as long as its user exists. */
  ghost predicate ConsumedMatches(s: System, d: Digest)
    requires Consumed(s, d)
  {
    d in s.minted && d !in s.db.live && (s.minted[d].user in s.db.users ==> d in s.db.used)
  }

  ghost predicate LiveMatches(s: System, d: Digest)
    requires d in s.db.live
  {
    d in s.minted && s.db.live[d] == NewRow(s.minted[d].user, s.minted[d].remember, s.minted[d].at)
  }

  ghost predicate UsedMatches(s: System, d: Digest)
    requires d in s.db.used
  {
    Consumed(s, d) && d in s.minted && s.db.used[d].user == s.minted[d].user
  }

  /** A request that read a live row read one that was not consumed before, unless it is consumed by now. */
  ghost predicate RequestMatches(s: System, rid: nat)
    requires rid in s.requests
  {
    var q := s.requests[rid];
    var d := HashToken(q.raw);
    && (q.phase.NotAReplay? && q.phase.dropsUsed ==> Consumed(s, d))
    && (q.phase.SawRow? || q.phase.SawUser? ==>
          && !q.phase.dropsUsed
          && d in s.minted
          && q.phase.row == NewRow(s.minted[d].user, s.minted[d].remember, s.minted[d].at))
  }

  ghost predicate LineageMatches(s: System, d: Digest)
    requires d in s.minted
  {
    var root := s.minted[d].lineage;
    && root in s.minted && s.minted[root].lineage == root
    && s.minted[root].user == s.minted[d].user && s.minted[root].remember == s.minted[d].remember
  }

  ghost predicate Unspent(s: System, d: Digest) {
    d in s.minted && !Consumed(s, d)
  }

  ghost predicate Inv(s: System) {
    && (forall d :: Consumed(s, d) ==> ConsumedMatches(s, d))
    && (forall d :: d in s.db.used ==> UsedMatches(s, d))
    && (forall d :: d in s.db.live ==> LiveMatches(s, d))
    && (forall rid :: rid in s.requests ==> RequestMatches(s, rid))
    && (forall d :: d in s.minted ==> LineageMatches(s, d))
    && (forall c, d :: Unspent(s, c) && Unspent(s, d) && s.minted[c].lineage == s.minted[d].lineage ==> c == d)
    && s.db.users.Keys <= s.known
    && (forall d :: d in s.minted ==> s.minted[d].user in s.known)
    && Distinct(s.consumed)
  }

  // ---------------------------------------------------------------- every step keeps it

  /** Live rows may go away, and used rows with their user. */
  lemma ShrinkKeepsInv(s: System, t: System)
    requires Inv(s) && t.minted == s.minted && t.consumed == s.consumed && s.known <= t.known
    requires R.Submap(t.db.live, s.db.live) && R.Submap(t.db.used, s.db.used) && t.db.users.Keys <= t.known
    requires forall d :: Consumed(t, d) && d in s.minted && s.minted[d].user in t.db.users ==> d in t.db.used
    requires forall rid :: rid in t.requests ==> RequestMatches(t, rid)
    ensures Inv(t)
  {
    forall d | Consumed(t, d) ensures ConsumedMatches(t, d) {
      assert ConsumedMatches(s, d);
    }
    forall d | d in t.db.used ensures UsedMatches(t, d) {
      assert UsedMatches(s, d);
    }
    forall d | d in t.db.live ensures LiveMatches(t, d) {
      assert LiveMatches(s, d);
    }
    forall d | d in t.minted ensures LineageMatches(t, d) {
      assert LineageMatches(s, d);
    }
    forall c, d | Unspent(t, c) && Unspent(t, d) && t.minted[c].lineage == t.minted[d].lineage ensures c == d {
      assert Unspent(s, c) && Unspent(s, d);
    }
  }

  lemma RequestsStillMatch(s: System, t: System)
    requires forall rid :: rid in s.requests ==> RequestMatches(s, rid)
    requires forall d :: Consumed(s, d) ==> Consumed(t, d)
    requires forall d :: d in s.minted ==> d in t.minted && t.minted[d] == s.minted[d]
    requires t.requests == s.requests
    ensures forall rid :: rid in t.requests ==> RequestMatches(t, rid)
  {
    forall rid | rid in t.requests ensures RequestMatches(t, rid) {
      assert RequestMatches(s, rid);
    }
  }

  /** A token that was not consumed before is consumed. */
  lemma ConsumeKeepsInv(s: System, t: System, d: Digest, row: UsedRow)
    requires Inv(s) && d in s.minted && row.user == s.minted[d].user && !Consumed(s, d)
    requires t.minted == s.minted && t.known == s.known && t.requests == s.requests && t.db.users == s.db.users
    requires t.consumed == s.consumed + [d] && t.db.live == s.db.live - {d}
    requires t.db.used == s.db.used[d := row]
    ensures Inv(t)
  {
    hide ConsumedMatches, UsedMatches, LiveMatches, LineageMatches, RequestMatches, Unspent, Consumed, Distinct;
    ConsumedOneMore(s, t, d);
    ConsumeKeepsConsumed(s, t, d, row);
    ConsumeKeepsTables(s, t, d, row);
    SameMintsKeepLineages(s, t);
    DistinctAppend(s.consumed, d, s);
    RequestsStillMatch(s, t);
  }

  /** With the same tokens minted, more consumed leaves fewer unspent. */
  lemma SameMintsKeepLineages(s: System, t: System)
    requires t.minted == s.minted && forall d :: Consumed(s, d) ==> Consumed(t, d)
    requires forall d :: d in s.minted ==> LineageMatches(s, d)
    requires forall c, d :: Unspent(s, c) && Unspent(s, d) && s.minted[c].lineage == s.minted[d].lineage ==> c == d
    ensures forall d :: d in t.minted ==> LineageMatches(t, d)
    ensures forall c, d :: Unspent(t, c) && Unspent(t, d) && t.minted[c].lineage == t.minted[d].lineage ==> c == d
  {
    hide Consumed;
    forall d | d in t.minted ensures LineageMatches(t, d) {
      assert LineageMatches(s, d);
    }
    forall c, d | Unspent(t, c) && Unspent(t, d) && t.minted[c].lineage == t.minted[d].lineage ensures c == d {
      assert Unspent(s, c) && Unspent(s, d);
    }
  }

  lemma ConsumedOneMore(s: System, t: System, d: Digest)
    requires t.consumed == s.consumed + [d]
    ensures forall c :: Consumed(t, c) <==> Consumed(s, c) || c == d
  {
  }

  lemma DistinctAppend(log: seq<Digest>, d: Digest, s: System)
    requires Distinct(log) && log == s.consumed && !Consumed(s, d)
    ensures Distinct(log + [d])
  {
  }

  lemma ConsumeKeepsConsumed(s: System, t: System, d: Digest, row: UsedRow)
    requires d in s.minted && t.minted == s.minted && t.db.users == s.db.users
    requires t.db.live == s.db.live - {d} && t.db.used == s.db.used[d := row]
    requires forall c :: Consumed(t, c) <==> Consumed(s, c) || c == d
    requires forall c :: Consumed(s, c) ==> ConsumedMatches(s, c)
    ensures forall c :: Consumed(t, c) ==> ConsumedMatches(t, c)
  {
    hide Consumed;
    forall c | Consumed(t, c) ensures ConsumedMatches(t, c) {
      assert c != d ==> ConsumedMatches(s, c);
    }
  }

  lemma ConsumeKeepsTables(s: System, t: System, d: Digest, row: UsedRow)
    requires d in s.minted && row.user == s.minted[d].user && t.minted == s.minted
    requires t.db.live == s.db.live - {d} && t.db.used == s.db.used[d := row]
    requires forall c :: Consumed(t, c) <==> Consumed(s, c) || c == d
    requires forall c :: c in s.db.live ==> LiveMatches(s, c)
    requires forall c :: c in s.db.used ==> UsedMatches(s, c)
    ensures forall c :: c in t.db.live ==> LiveMatches(t, c)
    ensures forall c :: c in t.db.used ==> UsedMatches(t, c)
  {
    hide Consumed;
    forall c | c in t.db.live ensures LiveMatches(t, c) {
      assert LiveMatches(s, c);
    }
    forall c | c in t.db.used ensures UsedMatches(t, c) {
      assert c != d ==> UsedMatches(s, c);
    }
  }

  /** A fresh token enters a lineage that has no unspent one. */
  lemma MintKeepsInv(s: System, t: System, d: Digest, m: R.Mint)
    requires Inv(s) && d !in s.minted && m.user in s.db.users
    requires t.minted == s.minted[d := m] && t.known == s.known && t.requests == s.requests && t.db.users == s.db.users
    requires t.consumed == s.consumed && t.db.live == s.db.live[d := NewRow(m.user, m.remember, m.at)]
    requires t.db.used == s.db.used
    requires if m.lineage == d then true
      else m.lineage in s.minted && s.minted[m.lineage] == R.Mint(m.lineage, m.user, m.remember, s.minted[m.lineage].at)
    requires forall c :: Unspent(s, c) ==> s.minted[c].lineage != m.lineage
    ensures Inv(t)
  {
    hide ConsumedMatches, UsedMatches, LiveMatches, LineageMatches, RequestMatches, Unspent, Distinct;
    MintKeepsRows(s, t, d, m);
    MintKeepsLineages(s, t, d, m);
    SameConsumed(s, t);
    RequestsStillMatch(s, t);
  }

  lemma MintKeepsLineages(s: System, t: System, d: Digest, m: R.Mint)
    requires Inv(s) && d !in s.minted && t.minted == s.minted[d := m] && t.consumed == s.consumed
    requires if m.lineage == d then true
      else m.lineage in s.minted && s.minted[m.lineage] == R.Mint(m.lineage, m.user, m.remember, s.minted[m.lineage].at)
    requires forall c :: Unspent(s, c) ==> s.minted[c].lineage != m.lineage
    ensures forall c :: c in t.minted ==> LineageMatches(t, c)
    ensures forall b, c :: Unspent(t, b) && Unspent(t, c) && t.minted[b].lineage == t.minted[c].lineage ==> b == c
  {
    SameConsumed(s, t);
    hide ConsumedMatches, UsedMatches, LiveMatches, RequestMatches, Distinct, Consumed;
    forall c | c in t.minted ensures LineageMatches(t, c) {
      assert c != d ==> LineageMatches(s, c);
    }
    forall b, c | Unspent(t, b) && Unspent(t, c) && t.minted[b].lineage == t.minted[c].lineage ensures b == c {
      assert b != d ==> Unspent(s, b);
      assert c != d ==> Unspent(s, c);
    }
  }

  lemma SameConsumed(s: System, t: System)
    requires t.consumed == s.consumed
    ensures forall c :: Consumed(t, c) == Consumed(s, c)
  {
  }

  lemma MintKeepsRows(s: System, t: System, d: Digest, m: R.Mint)
    requires d !in s.minted && t.minted == s.minted[d := m] && t.consumed == s.consumed
    requires t.db.live == s.db.live[d := NewRow(m.user, m.remember, m.at)] && t.db.used == s.db.used && t.db.users == s.db.users
    requires forall c :: Consumed(s, c) ==> ConsumedMatches(s, c)
    requires forall c :: c in s.db.live ==> LiveMatches(s, c)
    requires forall c :: c in s.db.used ==> UsedMatches(s, c)
    ensures forall c :: Consumed(t, c) ==> ConsumedMatches(t, c)
    ensures forall c :: c in t.db.live ==> LiveMatches(t, c)
    ensures forall c :: c in t.db.used ==> UsedMatches(t, c)
  {
    SameConsumed(s, t);
    hide Consumed;
    forall c | Consumed(t, c) ensures ConsumedMatches(t, c) {
      assert ConsumedMatches(s, c);
    }
    forall c | c in t.db.used ensures UsedMatches(t, c) {
      assert UsedMatches(s, c);
    }
    forall c | c in t.db.live ensures LiveMatches(t, c) {
      assert c != d ==> LiveMatches(s, c);
    }
  }

  lemma LoginKeepsInv(s: System, l: Label)
    requires Inv(s) && Admissible(s, l) && l.Login?
    ensures Inv(Step(s, l))
  {
    var d, t := HashToken(l.token), Step(s, l);
    if S.Login(s.db, l.user, l.remember, l.token, l.now).1.Ok? {
      forall c | Unspent(s, c) ensures s.minted[c].lineage != d {
        assert LineageMatches(s, c);
      }
      MintKeepsInv(s, t, d, R.Mint(d, l.user, l.remember, l.now));
    }
  }

  /** The unique key on the used hash is what makes a commit find its token unconsumed. */
  lemma CommitFindsUnconsumed(s: System, rid: nat, token: string)
    requires Inv(s) && rid in s.requests && Commits(s.db, s.requests[rid], token)
    ensures var q := s.requests[rid];
      Unspent(s, HashToken(q.raw)) && UsedInSession(s.db, q) == s.db.used
  {
    var d := HashToken(s.requests[rid].raw);
    assert RequestMatches(s, rid);
    assert Consumed(s, d) ==> ConsumedMatches(s, d);
  }

  lemma CommitKeepsInv(s: System, rid: nat, token: string, now: Time)
    requires Inv(s) && rid in s.requests && HashToken(token) !in s.minted && Commits(s.db, s.requests[rid], token)
    ensures Inv(AdvanceStep(s, rid, token, now))
  {
    var q, t := s.requests[rid], AdvanceStep(s, rid, token, now);
    var d, row := HashToken(q.raw), q.phase.row;
    CommitFindsUnconsumed(s, rid, token);
    assert RequestMatches(s, rid);
    var r := s.(requests := t.requests);
    forall i | i in r.requests ensures RequestMatches(r, i) {
      assert i != rid ==> RequestMatches(s, i);
    }
    forall c | Consumed(r, c) && c in r.minted && r.minted[c].user in r.db.users ensures c in r.db.used {
      assert Consumed(s, c) && ConsumedMatches(s, c);
    }
    ShrinkKeepsInv(s, r);
    var u := r.(consumed := s.consumed + [d],
      db := r.db.(live := r.db.live - {d}, used := r.db.used[d := UsedRow(row.user, row.expires)]));
    ConsumeKeepsInv(r, u, d, UsedRow(row.user, row.expires));
    if q.logout {
      assert t == u;
    } else {
      assert LineageMatches(s, d);
      assert LineageMatches(s, s.minted[d].lineage);
      forall c | Unspent(u, c) ensures u.minted[c].lineage != s.minted[d].lineage {
        assert Consumed(u, d);
        assert Consumed(s, c) ==> Consumed(u, c);
        assert Unspent(s, c);
      }
      MintKeepsInv(u, t, HashToken(token), R.Mint(s.minted[d].lineage, row.user, row.remember, now));
    }
  }

  /** A phase before the commit only deletes live rows, and what the request read still matches history. */
  lemma PhaseReadsHistory(s: System, rid: nat, token: string, now: Time)
    requires Inv(s) && rid in s.requests && !Commits(s.db, s.requests[rid], token)
    ensures RequestMatches(AdvanceStep(s, rid, token, now), rid)
  {
    hide LineageMatches, Unspent, Distinct, Consumed;
    var q, t := s.requests[rid], AdvanceStep(s, rid, token, now);
    var d := HashToken(q.raw);
    assert RequestMatches(s, rid);
    SameConsumed(s, t);
    assert Consumed(s, d) ==> ConsumedMatches(s, d);
    assert d in s.db.live ==> LiveMatches(s, d);
    assert d in s.db.used ==> UsedMatches(s, d);
  }

  lemma PhaseOnlyDeletes(s: System, rid: nat, token: string, now: Time)
    requires rid in s.requests && !Commits(s.db, s.requests[rid], token)
    ensures var t := AdvanceStep(s, rid, token, now);
      && R.Submap(t.db.live, s.db.live) && t.db.used == s.db.used && t.db.users == s.db.users
      && t.minted == s.minted && t.consumed == s.consumed && t.known == s.known
      && t.requests.Keys == s.requests.Keys && t.requests - {rid} == s.requests - {rid}
  {
    hide Committed, CommitAccepted;
  }

  lemma PhaseKeepsInv(s: System, rid: nat, token: string, now: Time)
    requires Inv(s) && rid in s.requests && !Commits(s.db, s.requests[rid], token)
    ensures Inv(AdvanceStep(s, rid, token, now))
  {
    hide AdvanceStep;
    var t := AdvanceStep(s, rid, token, now);
    PhaseOnlyDeletes(s, rid, token, now);
    PhaseReadsHistory(s, rid, token, now);
    forall i | i in t.requests ensures RequestMatches(t, i) {
      if i != rid {
        assert i in s.requests - {rid} && i in t.requests - {rid};
        assert t.requests[i] == s.requests[i];
        assert RequestMatches(s, i);
        assert Consumed(t, HashToken(t.requests[i].raw)) == Consumed(s, HashToken(t.requests[i].raw));
      }
    }
    forall c | Consumed(t, c) && c in s.minted && s.minted[c].user in t.db.users ensures c in t.db.used {
      assert Consumed(s, c) && ConsumedMatches(s, c);
    }
    ShrinkKeepsInv(s, t);
  }

  lemma OtherKeepsInv(s: System, l: Label)
    requires Inv(s) && Admissible(s, l) && !l.Advance? && !l.Login?
    ensures Inv(Step(s, l))
  {
    hide Step;
    var t := Step(s, l);
    OtherOnlyDeletes(s, l);
    SameConsumed(s, t);
    OtherKeepsRequests(s, l);
    OtherKeepsUsed(s, l);
    ShrinkKeepsInv(s, t);
  }

  predicate IsOther(l: Label) {
    !l.Advance? && !l.Login?
  }

  lemma OtherOnlyDeletes(s: System, l: Label)
    requires s.db.users.Keys <= s.known && IsOther(l)
    ensures var t := Step(s, l);
      && t.minted == s.minted && t.consumed == s.consumed && s.known <= t.known
      && R.Submap(t.db.live, s.db.live) && R.Submap(t.db.used, s.db.used) && t.db.users.Keys <= t.known
  {
  }

  lemma OtherKeepsRequests(s: System, l: Label)
    requires forall rid :: rid in s.requests ==> RequestMatches(s, rid)
    requires IsOther(l)
    ensures var t := Step(s, l); forall rid :: rid in t.requests ==> RequestMatches(t, rid)
  {
    var t := Step(s, l);
    assert t.minted == s.minted && t.consumed == s.consumed;
    SameConsumed(s, t);
    hide Consumed;
    forall i | i in t.requests ensures RequestMatches(t, i) {
      assert i in s.requests ==> RequestMatches(s, i);
    }
  }

  /** A new user has no consumed token yet, and a deleted one's are no longer asked for. */
  lemma OtherKeepsUsed(s: System, l: Label)
    requires Inv(s) && Admissible(s, l) && IsOther(l)
    ensures var t := Step(s, l);
      forall c :: Consumed(s, c) && c in s.minted && s.minted[c].user in t.db.users ==> c in t.db.used
  {
    hide LineageMatches, Unspent, Distinct, LiveMatches, RequestMatches;
    var t := Step(s, l);
    forall c | Consumed(s, c) && c in s.minted && s.minted[c].user in t.db.users ensures c in t.db.used {
      assert ConsumedMatches(s, c);
      assert c in s.db.used ==> UsedMatches(s, c);
    }
  }

  lemma StepKeepsInv(s: System, l: Label)
    requires Inv(s) && Admissible(s, l)
    ensures Inv(Step(s, l))
  {
    hide Inv;
    if l.Login? {
      LoginKeepsInv(s, l);
    } else if !l.Advance? {
      OtherKeepsInv(s, l);
    } else if l.rid in s.requests {
      if Commits(s.db, s.requests[l.rid], l.token) {
        CommitKeepsInv(s, l.rid, l.token, l.now);
      } else {
        PhaseKeepsInv(s, l.rid, l.token, l.now);
      }
    }
  }

  lemma {:induction false} RunKeepsInv(s: System, labels: seq<Label>)
    requires Inv(s) && AdmissibleRun(s, labels)
    ensures Inv(Run(s, labels))
    decreases |labels|
  {
    hide Inv;
    if labels != [] {
      StepKeepsInv(s, labels[0]);
      RunKeepsInv(Step(s, labels[0]), labels[1..]);
    }
  }

  // ---------------------------------------------------------------- single use

  /** The request handed out a new pair for its token. */
  ghost predicate Succeeded(s: System, rid: nat) {
    rid in s.requests && s.requests[rid].phase.Done? && s.requests[rid].phase.outcome.Rotated?
  }

  ghost predicate SingleUse(s: System) {
    && (forall rid :: Succeeded(s, rid) ==> Consumed(s, HashToken(s.requests[rid].raw)))
    && (forall q, r :: Succeeded(s, q) && Succeeded(s, r) && s.requests[q].raw == s.requests[r].raw ==> q == r)
  }

  /** Only a commit makes a request succeed. */
  lemma SuccessIsACommit(s: System, l: Label, rid: nat)
    requires Admissible(s, l) && Succeeded(Step(s, l), rid)
    ensures rid in s.requests && Step(s, l).requests[rid].raw == s.requests[rid].raw
    ensures Succeeded(s, rid) || (l.Advance? && l.rid == rid && Commits(s.db, s.requests[rid], l.token))
  {
  }

  lemma ConsumptionsStay(s: System, l: Label)
    ensures s.consumed <= Step(s, l).consumed
  {
  }

  lemma CommitConsumes(s: System, rid: nat, token: string, now: Time)
    requires rid in s.requests && Commits(s.db, s.requests[rid], token)
    ensures Consumed(AdvanceStep(s, rid, token, now), HashToken(s.requests[rid].raw))
  {
    var t := AdvanceStep(s, rid, token, now);
    assert t.consumed[|t.consumed| - 1] == HashToken(s.requests[rid].raw);
  }

  lemma StepKeepsSingleUse(s: System, l: Label)
    requires Inv(s) && SingleUse(s) && Admissible(s, l)
    ensures SingleUse(Step(s, l))
  {
    hide Step, Inv, AdvanceStep, Commits;
    var t := Step(s, l);
    ConsumptionsStay(s, l);
    forall rid | Succeeded(t, rid) ensures Consumed(t, HashToken(t.requests[rid].raw)) {
      SuccessIsACommit(s, l, rid);
      if Succeeded(s, rid) {
        assert Consumed(s, HashToken(s.requests[rid].raw));
      } else {
        CommitConsumes(s, rid, l.token, l.now);
        AdvanceIsItsStep(s, l);
      }
    }
    forall q, r | Succeeded(t, q) && Succeeded(t, r) && t.requests[q].raw == t.requests[r].raw ensures q == r {
      SuccessIsACommit(s, l, q);
      SuccessIsACommit(s, l, r);
      if !Succeeded(s, q) {
        CommitFindsUnconsumed(s, q, l.token);
      } else if !Succeeded(s, r) {
        CommitFindsUnconsumed(s, r, l.token);
      }
    }
  }

  lemma AdvanceIsItsStep(s: System, l: Label)
    requires l.Advance? && l.rid in s.requests
    ensures Step(s, l) == AdvanceStep(s, l.rid, l.token, l.now)
  {
  }

  lemma {:induction false} RunKeepsSingleUse(s: System, labels: seq<Label>)
    requires Inv(s) && SingleUse(s) && AdmissibleRun(s, labels)
    ensures SingleUse(Run(s, labels))
    decreases |labels|
  {
    hide Inv, SingleUse;
    if labels != [] {
      StepKeepsInv(s, labels[0]);
      StepKeepsSingleUse(s, labels[0]);
      RunKeepsSingleUse(Step(s, labels[0]), labels[1..]);
    }
  }

  /** Over every interleaving of the phases of any number of refreshes and logouts with each other, with logins
      and with deletes of users and sessions: no refresh token ever produces two successful rotations. */
  lemma NoTokenRotatedTwice(labels: seq<Label>, q: nat, r: nat)
    requires AdmissibleRun(START, labels)
    requires var t := Run(START, labels); Succeeded(t, q) && Succeeded(t, r) && t.requests[q].raw == t.requests[r].raw
    ensures q == r
  {
    RunKeepsSingleUse(START, labels);
  }

  /** Nor is one consumed twice by a rotation and a logout, or by two logouts: the log of consumptions repeats
      nothing. A consumed token is not live again, and its hash is in the used table while its user exists. */
  lemma NoTokenConsumedTwice(labels: seq<Label>)
    requires AdmissibleRun(START, labels)
    ensures var t := Run(START, labels);
      && Distinct(t.consumed)
      && (forall d :: d in t.consumed ==>
            d in t.minted && d !in t.db.live && (t.minted[d].user in t.db.users ==> d in t.db.used))
  {
    RunKeepsInv(START, labels);
    var t := Run(START, labels);
    forall d | d in t.consumed
      ensures d in t.minted && d !in t.db.live && (t.minted[d].user in t.db.users ==> d in t.db.used)
    {
      assert Consumed(t, d) && ConsumedMatches(t, d);
    }
  }

  /** A login's lineage stays a chain under every interleaving: at most one of its tokens is unspent, so at most
      one is live, and a live one has the login's user and flag and, from its own issue, 30 days with the flag and one
      day without. */
  lemma LineagesStayChains(labels: seq<Label>)
    requires AdmissibleRun(START, labels)
    ensures var t := Run(START, labels);
      && t.db.live.Keys !! t.db.used.Keys
      && t.db.live.Keys <= t.minted.Keys
      && (forall c, d :: c in t.minted && d in t.minted && c !in t.consumed && d !in t.consumed && c != d ==>
            t.minted[c].lineage != t.minted[d].lineage)
      && (forall d :: d in t.db.live ==>
            && d !in t.consumed
            && t.minted[d].lineage in t.minted
            && t.db.live[d].user == t.minted[t.minted[d].lineage].user
            && t.db.live[d].remember == t.minted[t.minted[d].lineage].remember
            && t.db.live[d].expires == t.minted[d].at + (if t.db.live[d].remember then 30 else 1) * 24 * 60 * 60 * 1000000)
  {
    RunKeepsInv(START, labels);
    var t := Run(START, labels);
    forall d | d in t.db.live
      ensures d in t.minted && d !in t.consumed && t.minted[d].lineage in t.minted && d !in t.db.used
      ensures t.db.live[d].user == t.minted[t.minted[d].lineage].user
      ensures t.db.live[d].remember == t.minted[t.minted[d].lineage].remember
      ensures t.db.live[d].expires == t.minted[d].at + (if t.db.live[d].remember then 30 else 1) * 24 * 60 * 60 * 1000000
    {
      assert LiveMatches(t, d) && LineageMatches(t, d);
      assert Consumed(t, d) ==> ConsumedMatches(t, d);
      assert d in t.db.used ==> UsedMatches(t, d);
    }
    forall c, d | c in t.minted && d in t.minted && c !in t.consumed && d !in t.consumed && c != d
      ensures t.minted[c].lineage != t.minted[d].lineage
    {
      assert Unspent(t, c) && Unspent(t, d);
    }
  }
}
