/** Activation links: candidate registration and resend, company registration and approval, and activation. */
module Activation {
  import opened Prelude
  import opened Tables

  const CANDIDATE_TTL: Time := 2 * HOUR
  const COMPANY_TTL: Time := 48 * HOUR
  const RESEND_WINDOW: Time := HOUR
  const RESEND_LIMIT := 1

  datatype Role = Candidate | Company | Admin

  datatype Account = Account(email: string, role: Role, active: bool, password: string)

  datatype Link = Link(user: UserId, created: Time, expires: Time, used: bool, fullName: Option<string>)

  datatype Profile = Profile(user: Option<UserId>, fullName: string, consentAt: Option<Time>)

  /** `byEmail` is the unique index on the accounts' normalized email; profiles are keyed by theirs. */
  datatype Store = Store(users: map<UserId, Account>, byEmail: map<string, UserId>, links: map<Digest, Link>,
                         profiles: map<string, Profile>)

  datatype ActivationError =
    | ConsentRequired
    | EmailAlreadyExists
    | NotFound
    | NotPending
    | SeveralRows      // the single-row read found more than one
    | InvalidLink
    | LinkExpired
    | IntegrityError   // a unique key refused the commit

  // ---------------------------------------------------------------- what each request does

  function Unused(links: map<Digest, Link>, user: UserId): set<Digest> {
    set d | d in links && links[d].user == user && !links[d].used
  }

  function WithoutUnused(links: map<Digest, Link>, user: UserId): map<Digest, Link> {
    map d | d in links && !(links[d].user == user && !links[d].used) :: links[d]
  }

  function FindUser(s: Store, email: string): Option<UserId> {
    if email in s.byEmail && s.byEmail[email] in s.users then Some(s.byEmail[email]) else None
  }

  /** A new link; the request answers with the raw token that the deferred email carries. */
  function Mint(s: Store, user: UserId, ttl: Time, name: Option<string>, token: string, at: Time)
    : (Store, Result<Option<string>, ActivationError>)
  {
    if HashToken(token) in s.links then (s, Err(IntegrityError))
    else (s.(links := s.links[HashToken(token) := Link(user, at, at + ttl, false, name)]), Ok(Some(token)))
  }

  function RegisterCandidate(s: Store, email: string, password: string, name: string, accepted: bool,
      newId: UserId, token: string, at: Time): (Store, Result<Option<string>, ActivationError>)
  {
    var existing := FindUser(s, email);
    if !accepted then (s, Err(ConsentRequired))
    else if existing.Some? && (s.users[existing.value].active || s.users[existing.value].role != Candidate) then
      (s, Err(EmailAlreadyExists))
    else
      var user := if existing.Some? then existing.value else newId;
      var prepared :=
        if existing.Some? then
          s.(users := s.users[user := s.users[user].(password := password)], links := WithoutUnused(s.links, user))
        else
          s.(users := s.users[user := Account(email, Candidate, false, password)], byEmail := s.byEmail[email := user]);
      var (after, r) := Mint(prepared, user, CANDIDATE_TTL, Some(name), token, at);
      if r.Ok? then (after, r) else (s, r)
  }

  function RegisterCompany(s: Store, email: string, password: string, newId: UserId)
    : (Store, Result<Option<string>, ActivationError>)
  {
    if FindUser(s, email).Some? then (s, Err(EmailAlreadyExists))
    else
      (s.(users := s.users[newId := Account(email, Company, false, password)], byEmail := s.byEmail[email := newId]),
       Ok(None))
  }

  function LinksSince(links: map<Digest, Link>, user: UserId, since: Time): set<Digest> {
    set d | d in links && links[d].user == user && links[d].created > since
  }

  /** The name on the most recent unused link. */
  ghost predicate IsLatestName(links: map<Digest, Link>, user: UserId, name: Option<string>) {
    if Unused(links, user) == {} then name == None
    else exists d :: d in Unused(links, user) && links[d].fullName == name && IsNewest(links, Unused(links, user), d)
  }

  ghost predicate IsNewest(links: map<Digest, Link>, among: set<Digest>, d: Digest)
    requires among <= links.Keys && d in links
  {
    forall c :: c in among ==> links[c].created <= links[d].created
  }

  predicate ResendApplies(s: Store, email: string, now: Time) {
    var user := FindUser(s, email);
    && user.Some?
    && s.users[user.value].role == Candidate
    && !s.users[user.value].active
    && |LinksSince(s.links, user.value, now - RESEND_WINDOW)| < RESEND_LIMIT
  }

  /** `prior` is the name on the most recent unused link. The clock is read for the window at `now` and again for
      the new row at `mintedAt`. */
  function Resend(s: Store, email: string, prior: Option<string>, token: string, now: Time, mintedAt: Time)
    : (Store, Result<Option<string>, ActivationError>)
  {
    if !ResendApplies(s, email, now) then (s, Ok(None))
    else
      var user := FindUser(s, email).value;
      var (after, r) := Mint(s.(links := WithoutUnused(s.links, user)), user, CANDIDATE_TTL, prior, token, mintedAt);
      if r.Ok? then (after, r) else (s, r)
  }

  function ApproveCompany(s: Store, user: UserId, token: string, at: Time): (Store, Result<Option<string>, ActivationError>) {
    if user !in s.users then (s, Err(NotFound))
    else if s.users[user].role != Company || s.users[user].active then (s, Err(NotPending))
    else if |Unused(s.links, user)| > 1 then (s, Err(SeveralRows))
    else
      var (after, r) := Mint(s.(links := WithoutUnused(s.links, user)), user, COMPANY_TTL, None, token, at);
      if r.Ok? then (after, r) else (s, r)
  }

  /** The part before the first '@', or all of it. */
  function EmailPrefix(email: string): string {
    if email == "" || email[0] == '@' then "" else [email[0]] + EmailPrefix(email[1..])
  }

  /** The unique key on a profile's user: the profile of another email carries it. */
  predicate UserIsTaken(profiles: map<string, Profile>, email: string, user: UserId) {
    exists e :: e in profiles && e != email && profiles[e].user == Some(user)
  }

  /** The candidate's profile is linked if one with the email exists, else made. */
  function Linked(profiles: map<string, Profile>, email: string, user: UserId, name: Option<string>, now: Time): map<string, Profile> {
    if email in profiles then profiles[email := profiles[email].(user := Some(user), consentAt := Some(now))]
    else
      var fullName := if name.Some? && name.value != "" then name.value else EmailPrefix(email);
      profiles[email := Profile(Some(user), fullName, Some(now))]
  }

  function Activate(s: Store, raw: string, now: Time): (Store, Result<UserId, ActivationError>) {
    var d := HashToken(raw);
    if d !in s.links || s.links[d].user !in s.users || s.links[d].used then (s, Err(InvalidLink))
    else if s.links[d].expires < now then (s, Err(LinkExpired))
    else if s.users[s.links[d].user].role == Candidate && UserIsTaken(s.profiles, s.users[s.links[d].user].email, s.links[d].user) then
      (s, Err(IntegrityError))
    else
      var link := s.links[d];
      var account := s.users[link.user];
      (Store(s.users[link.user := account.(active := true)], s.byEmail, s.links[d := link.(used := true)],
          if account.role == Candidate then Linked(s.profiles, account.email, link.user, link.fullName, now) else s.profiles),
       Ok(link.user))
  }

  /** An admin's change of a company's contact address is one of its login email. */
  function ChangeCompanyEmail(s: Store, user: UserId, email: string): (Store, Result<(), ActivationError>) {
    if user !in s.users || s.users[user].role != Company then (s, Err(NotFound))
    else if s.users[user].email == email then (s, Ok(()))
    else if FindUser(s, email).Some? then (s, Err(EmailAlreadyExists))
    else
      (s.(users := s.users[user := s.users[user].(email := email)],
          byEmail := (s.byEmail - {s.users[user].email})[email := user]),
       Ok(()))
  }

  /** The links cascade; a profile stays, unlinked. */
  function DeleteUser(s: Store, user: UserId): Store {
    Store(s.users - {user},
      map e | e in s.byEmail && s.byEmail[e] != user :: s.byEmail[e],
      map d | d in s.links && s.links[d].user != user :: s.links[d],
      map e | e in s.profiles :: if s.profiles[e].user == Some(user) then s.profiles[e].(user := None) else s.profiles[e])
  }

  // ---------------------------------------------------------------- the requests

  class Accounts {
    var users: map<UserId, Account>
    var byEmail: map<string, UserId>
    var links: map<Digest, Link>
    var profiles: map<string, Profile>

    ghost function State(): Store
      reads this
    {
      Store(users, byEmail, links, profiles)
    }

    constructor ()
      ensures State() == Store(map[], map[], map[], map[])
    {
      users, byEmail, links, profiles := map[], map[], map[], map[];
    }

    /** One row at a time. */
    method DeleteStaleTokens(user: UserId)
      modifies this`links
      ensures links == WithoutUnused(old(links), user)
    {
      var stale := Unused(links, user);
      while stale != {}
        invariant stale == Unused(links, user)
        invariant WithoutUnused(links, user) == WithoutUnused(old(links), user)
        decreases |stale|
      {
        var d :| d in stale;
        links := links - {d};
        stale := stale - {d};
      }
      assert forall d :: d in links && links[d].user == user && !links[d].used ==> d in Unused(links, user);
      assert links == WithoutUnused(links, user);
    }

    method LatestUnusedFullName(user: UserId) returns (name: Option<string>)
      ensures IsLatestName(links, user, name)
    {
      var unused := Unused(links, user);
      if unused == {} {
        return None;
      }
      var newest :| newest in unused;
      var left := unused - {newest};
      while left != {}
        invariant newest in unused && left <= unused
        invariant IsNewest(links, unused - left, newest)
        decreases |left|
      {
        var d :| d in left;
        if links[d].created > links[newest].created {
          newest := d;
        }
        left := left - {d};
      }
      name := links[newest].fullName;
    }

    method RegisterCandidateRequest(email: string, password: string, name: string, accepted: bool,
        newId: UserId, token: string, at: Time) returns (r: Result<Option<string>, ActivationError>)
      modifies this
      ensures (State(), r) == RegisterCandidate(old(State()), email, password, name, accepted, newId, token, at)
    {
      if !accepted {
        return Err(ConsentRequired);
      }
      var existing := email in byEmail && byEmail[email] in users;
      if existing && users[byEmail[email]].active {
        return Err(EmailAlreadyExists);
      }
      if existing && users[byEmail[email]].role != Candidate {
        return Err(EmailAlreadyExists);
      }
      var before := (users, byEmail, links);
      var user := newId;
      if existing {
        user := byEmail[email];
        users := users[user := users[user].(password := password)];
        DeleteStaleTokens(user);
      } else {
        users := users[user := Account(email, Candidate, false, password)];
        byEmail := byEmail[email := user];
      }
      if HashToken(token) in links {
        users, byEmail, links := before.0, before.1, before.2;
        return Err(IntegrityError);
      }
      links := links[HashToken(token) := Link(user, at, at + CANDIDATE_TTL, false, Some(name))];
      r := Ok(Some(token));
    }

    method RegisterCompanyUser(email: string, password: string, newId: UserId) returns (r: Result<Option<string>, ActivationError>)
      modifies this`users, this`byEmail
      ensures (State(), r) == RegisterCompany(old(State()), email, password, newId)
    {
      if email in byEmail && byEmail[email] in users {
        return Err(EmailAlreadyExists);
      }
      users := users[newId := Account(email, Company, false, password)];
      byEmail := byEmail[email := newId];
      r := Ok(None);
    }

    method ResendCandidateActivation(email: string, token: string, now: Time, mintedAt: Time)
        returns (r: Result<Option<string>, ActivationError>)
      modifies this
      ensures exists prior ::
        && (ResendApplies(old(State()), email, now) ==> IsLatestName(old(links), FindUser(old(State()), email).value, prior))
        && (State(), r) == Resend(old(State()), email, prior, token, now, mintedAt)
    {
      if email !in byEmail || byEmail[email] !in users {
        assert !ResendApplies(State(), email, now);
        r := Ok(None);
        assert (State(), r) == Resend(old(State()), email, None, token, now, mintedAt);
        return;
      }
      var user := byEmail[email];
      r := Ok(None);
      assert !ResendApplies(State(), email, now) ==> (State(), r) == Resend(old(State()), email, None, token, now, mintedAt);
      if users[user].role != Candidate || users[user].active {
        return;
      }
      if |LinksSince(links, user, now - RESEND_WINDOW)| >= RESEND_LIMIT {
        return;
      }
      var prior := LatestUnusedFullName(user);
      var before := links;
      DeleteStaleTokens(user);
      if HashToken(token) in links {
        links := before;
        r := Err(IntegrityError);
        assert (State(), r) == Resend(old(State()), email, prior, token, now, mintedAt);
        return;
      }
      links := links[HashToken(token) := Link(user, mintedAt, mintedAt + CANDIDATE_TTL, false, prior)];
      r := Ok(Some(token));
      assert (State(), r) == Resend(old(State()), email, prior, token, now, mintedAt);
    }

    method ApproveCompanyRequest(user: UserId, token: string, at: Time) returns (r: Result<Option<string>, ActivationError>)
      modifies this
      ensures (State(), r) == ApproveCompany(old(State()), user, token, at)
    {
      if user !in users {
        return Err(NotFound);
      }
      if users[user].role != Company {
        return Err(NotPending);
      }
      if users[user].active {
        return Err(NotPending);
      }
      var stale, before := Unused(links, user), links;
      if |stale| > 1 {
        return Err(SeveralRows);
      }
      if stale != {} {
        var d :| d in stale;
        Singleton(stale, d);
        links := links - {d};
      }
      assert forall d :: d in before && before[d].user == user && !before[d].used ==> d in stale;
      assert links == WithoutUnused(before, user);
      if HashToken(token) in links {
        links := before;
        return Err(IntegrityError);
      }
      links := links[HashToken(token) := Link(user, at, at + COMPANY_TTL, false, None)];
      r := Ok(Some(token));
    }

    method ActivateUser(raw: string, now: Time) returns (r: Result<UserId, ActivationError>)
      modifies this
      ensures (State(), r) == Activate(old(State()), raw, now)
    {
      var d := HashToken(raw);
      if d !in links || links[d].user !in users {
        return Err(InvalidLink);
      }
      var link := links[d];
      if link.used {
        return Err(InvalidLink);
      }
      if link.expires < now {
        return Err(LinkExpired);
      }
      var account := users[link.user];
      if account.role == Candidate {
        var linked := LinkOrCreateProfile(account.email, link.user, link.fullName, now);
        if !linked {
          return Err(IntegrityError);
        }
      }
      users := users[link.user := account.(active := true)];
      links := links[d := link.(used := true)];
      r := Ok(link.user);
    }

    /** The flush refuses a user that another profile carries. */
    method LinkOrCreateProfile(email: string, user: UserId, name: Option<string>, now: Time) returns (ok: bool)
      modifies this`profiles
      ensures ok == !UserIsTaken(old(profiles), email, user)
      ensures profiles == if ok then Linked(old(profiles), email, user, name, now) else old(profiles)
    {
      if exists e :: e in profiles && e != email && profiles[e].user == Some(user) {
        return false;
      }
      if email in profiles {
        profiles := profiles[email := profiles[email].(user := Some(user), consentAt := Some(now))];
      } else {
        var fullName := EmailPrefix(email);
        if name.Some? && name.value != "" {
          fullName := name.value;
        }
        profiles := profiles[email := Profile(Some(user), fullName, Some(now))];
      }
      ok := true;
    }

    method UpdateCompanyEmail(user: UserId, email: string) returns (r: Result<(), ActivationError>)
      modifies this`users, this`byEmail
      ensures (State(), r) == ChangeCompanyEmail(old(State()), user, email)
    {
      if user !in users || users[user].role != Company {
        return Err(NotFound);
      }
      var before := users[user].email;
      if before != email {
        if email in byEmail && byEmail[email] in users {
          return Err(EmailAlreadyExists);
        }
        users := users[user := users[user].(email := email)];
        byEmail := (byEmail - {before})[email := user];
      }
      r := Ok(());
    }
  }
}
