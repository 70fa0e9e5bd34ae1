/** What holds of activation links over every run of serialized requests. */
module ActivationRuns {
  import opened Prelude
  import opened Tables
  import A = Activation
  import Lockout

  datatype Event =
    | RegisterCandidate(email: string, password: string, name: string, accepted: bool, newId: UserId, token: string, at: Time)
    | RegisterCompany(email: string, password: string, newId: UserId, at: Time)
    | Resend(email: string, prior: Option<string>, token: string, at: Time, mintedAt: Time)
    | ApproveCompany(user: UserId, token: string, at: Time)
    | Activate(raw: string, at: Time)
    | DeleteUser(user: UserId, at: Time)
    | ChangeCompanyEmail(user: UserId, newEmail: string, at: Time)
    // changes of profiles made elsewhere in the program
    | AddProfile(email: string, name: string, at: Time)
    | MoveProfile(email: string, newEmail: string, at: Time)
    | DropProfile(email: string, at: Time)
    | LinkProfile(email: string, user: UserId, at: Time)

  datatype Mint = Mint(user: UserId, at: Time)

  /** The store, and what history remembers: every link ever minted, the newest of each user, the name each
      candidate last registered with, and every user id. */
  datatype World = World(store: A.Store, minted: map<Digest, Mint>, newest: map<UserId, Digest>,
                         names: map<UserId, string>, known: set<UserId>, clock: Time)

  const START := World(A.Store(map[], map[], map[], map[]), map[], map[], map[], {}, 0)

  /** Enters the link that a request mailed. */
  function Recorded(w: World, after: A.Store, r: Result<Option<string>, A.ActivationError>, end: Time): World {
    if r.Ok? && r.value.Some? && HashToken(r.value.value) in after.links then
      var d := HashToken(r.value.value);
      var link := after.links[d];
      w.(store := after, minted := w.minted[d := Mint(link.user, link.created)], newest := w.newest[link.user := d], clock := end)
    else w.(store := after, clock := end)
  }

  function Step(w: World, e: Event): World {
    match e
    case RegisterCandidate(email, password, name, accepted, newId, token, at) =>
      var (after, r) := A.RegisterCandidate(w.store, email, password, name, accepted, newId, token, at);
      var v := Recorded(w, after, r, at);
      if r.Ok? && HashToken(token) in after.links then
        v.(names := w.names[after.links[HashToken(token)].user := name], known := w.known + {newId})
      else v
    case RegisterCompany(email, password, newId, at) =>
      var (after, r) := A.RegisterCompany(w.store, email, password, newId);
      Recorded(w, after, r, at).(known := w.known + {newId})
    case Resend(email, prior, token, at, mintedAt) =>
      var (after, r) := A.Resend(w.store, email, prior, token, at, mintedAt);
      Recorded(w, after, r, mintedAt)
    case ApproveCompany(user, token, at) =>
      var (after, r) := A.ApproveCompany(w.store, user, token, at);
      Recorded(w, after, r, at)
    case Activate(raw, at) => w.(store := A.Activate(w.store, raw, at).0, clock := at)
    case DeleteUser(user, at) => w.(store := A.DeleteUser(w.store, user), clock := at)
    case ChangeCompanyEmail(user, newEmail, at) => w.(store := A.ChangeCompanyEmail(w.store, user, newEmail).0, clock := at)
    case _ => w.(store := w.store.(profiles := ProfilesAfter(w.store.profiles, e)), clock := e.at)
  }

  /** An anonymous application makes an unlinked profile; an admin moves one to a free address; profiles are deleted
      and purged; a signed-in application links the account. */
  function ProfilesAfter(profiles: map<string, A.Profile>, e: Event): map<string, A.Profile> {
    match e
    case AddProfile(email, name, at) => if email in profiles then profiles else profiles[email := A.Profile(None, name, Some(at))]
    case MoveProfile(email, newEmail, _) =>
      if email in profiles && newEmail !in profiles then (profiles - {email})[newEmail := profiles[email]] else profiles
    case DropProfile(email, _) => profiles - {email}
    case LinkProfile(email, user, _) =>
      if email in profiles && profiles[email].user.None? && !A.UserIsTaken(profiles, email, user) then
        profiles[email := profiles[email].(user := Some(user))]
      else profiles
    case _ => profiles
  }

  /** The clock does not go back, tokens are drawn fresh, a user id is given out once, and a resend reads the name
      on the most recent unused link, and only active users sign in. */
  ghost predicate Admissible(w: World, e: Event) {
    && e.at >= w.clock
    && (e.RegisterCandidate? || e.Resend? || e.ApproveCompany? ==> HashToken(e.token) !in w.minted)
    && (e.RegisterCandidate? || e.RegisterCompany? ==> e.newId !in w.known)
    && (e.Resend? ==> e.mintedAt >= e.at)
    && (e.LinkProfile? ==> e.user in w.store.users && w.store.users[e.user].active)
    && (e.Resend? && A.ResendApplies(w.store, e.email, e.at) ==>
          A.IsLatestName(w.store.links, A.FindUser(w.store, e.email).value, e.prior))
  }

  function Run(w: World, events: seq<Event>): World
    decreases |events|
  {
    if events == [] then w else Run(Step(w, events[0]), events[1..])
  }

  ghost predicate AdmissibleRun(w: World, events: seq<Event>)
    decreases |events|
  {
    events != [] ==> Admissible(w, events[0]) && AdmissibleRun(Step(w, events[0]), events[1..])
  }

  // ---------------------------------------------------------------- the invariant

  function TtlOf(role: A.Role): Time {
    if role == A.Candidate then A.CANDIDATE_TTL else A.COMPANY_TTL
  }

  /** A stored link is what was minted. An unused one is its user's newest, its user is not active yet, and a
      candidate's carries the registered name; a used one has an active user. */
  ghost predicate LinkMatches(w: World, d: Digest)
    requires d in w.store.links
  {
    var link := w.store.links[d];
    && d in w.minted && w.minted[d] == Mint(link.user, link.created)
    && link.user in w.store.users
    && link.user in w.newest
    && link.expires == link.created + TtlOf(w.store.users[link.user].role)
    && (link.used <==> !(w.newest[link.user] == d && !w.store.users[link.user].active))
    && (!link.used && w.store.users[link.user].role == A.Candidate ==>
          link.user in w.names && link.fullName == Some(w.names[link.user]))
  }

  /** The newest link of a user is in the table for as long as the user is. */
  ghost predicate NewestMatches(w: World, user: UserId)
    requires user in w.newest
  {
    var d := w.newest[user];
    && d in w.minted && w.minted[d].user == user && w.minted[d].at <= w.clock
    && (user in w.store.users ==> d in w.store.links)
  }

  ghost predicate MintMatches(w: World, d: Digest)
    requires d in w.minted
  {
    var user := w.minted[d].user;
    && user in w.known && user in w.newest && w.newest[user] in w.minted
    && w.minted[d].at <= w.minted[w.newest[user]].at
  }

  ghost predicate UserMatches(w: World, user: UserId)
    requires user in w.store.users
  {
    && user in w.known
    && w.store.users[user].email in w.store.byEmail && w.store.byEmail[w.store.users[user].email] == user
    && (w.store.users[user].role == A.Candidate ==> user in w.newest)
  }

  /** A profile is linked to a user who was given an id, and who is active if still there; nobody has two. */
  ghost predicate ProfileMatches(w: World, e: string)
    requires e in w.store.profiles
  {
    var user := w.store.profiles[e].user;
    user.Some? ==>
      && user.value in w.known
      && (user.value in w.store.users ==> w.store.users[user.value].active)
  }

  ghost predicate ProfilesMatch(w: World) {
    && (forall e :: e in w.store.profiles ==> ProfileMatches(w, e))
    && (forall e, f :: SameUser(w.store.profiles, e, f) ==> e == f)
  }

  predicate SameUser(profiles: map<string, A.Profile>, e: string, f: string) {
    e in profiles && f in profiles && profiles[e].user.Some? && profiles[e].user == profiles[f].user
  }

  ghost predicate LinkInv(w: World) {
    && (forall d :: d in w.store.links ==> LinkMatches(w, d))
    && (forall user :: user in w.newest ==> NewestMatches(w, user))
    && (forall d :: d in w.minted ==> MintMatches(w, d))
    && (forall user :: user in w.store.users ==> UserMatches(w, user))
    && (forall e :: e in w.store.byEmail ==> w.store.byEmail[e] in w.store.users && w.store.users[w.store.byEmail[e]].email == e)
  }

  ghost predicate Inv(w: World) {
    LinkInv(w) && ProfilesMatch(w)
  }

  // ---------------------------------------------------------------- every step keeps it

  /** The accounts agree but for passwords and the presence of `user`. */
  ghost predicate SameAccounts(w: World, v: World, user: UserId) {
    && (forall u :: u in w.store.users ==>
          && u in v.store.users
          && v.store.users[u].role == w.store.users[u].role
          && v.store.users[u].active == w.store.users[u].active)
    && (forall u :: u in v.store.users ==> u in w.store.users || u == user)
    && w.known <= v.known
    && (forall u :: u in w.names && u != user ==> u in v.names && v.names[u] == w.names[u])
  }

  ghost predicate AccountsMatch(v: World) {
    && (forall u :: u in v.store.users ==> UserMatches(v, u))
    && (forall e :: e in v.store.byEmail ==> v.store.byEmail[e] in v.store.users && v.store.users[v.store.byEmail[e]].email == e)
  }

  ghost predicate Mints(w: World, v: World, d: Digest, link: A.Link) {
    && d !in w.minted && !link.used && link.created >= w.clock && v.clock == link.created
    && v.store.links == A.WithoutUnused(w.store.links, link.user)[d := link]
    && v.minted == w.minted[d := Mint(link.user, link.created)]
    && v.newest == w.newest[link.user := d]
    && link.user in v.store.users
    && !v.store.users[link.user].active
    && link.expires == link.created + TtlOf(v.store.users[link.user].role)
    && (v.store.users[link.user].role == A.Candidate ==> link.user in v.names && link.fullName == Some(v.names[link.user]))
  }

  /** A fresh link replaces the user's unused ones. */
  lemma MintKeepsLinks(w: World, v: World, d: Digest, link: A.Link, c: Digest)
    requires LinkInv(w) && SameAccounts(w, v, link.user) && Mints(w, v, d, link) && c in v.store.links
    ensures LinkMatches(v, c)
  {
    if c != d {
      assert c in w.store.links && LinkMatches(w, c);
    }
  }

  lemma MintKeepsNewest(w: World, v: World, d: Digest, link: A.Link, user: UserId)
    requires LinkInv(w) && SameAccounts(w, v, link.user) && Mints(w, v, d, link) && user in v.newest
    ensures NewestMatches(v, user)
  {
    if user != link.user {
      assert NewestMatches(w, user);
      assert user in v.store.users ==> LinkMatches(w, w.newest[user]);
    }
  }

  lemma MintKeepsMints(w: World, v: World, d: Digest, link: A.Link, c: Digest)
    requires LinkInv(w) && SameAccounts(w, v, link.user) && Mints(w, v, d, link) && link.user in v.known && c in v.minted
    ensures MintMatches(v, c)
  {
    if c != d {
      assert MintMatches(w, c) && NewestMatches(w, w.minted[c].user);
    }
  }

  lemma MintKeepsInv(w: World, v: World, d: Digest, link: A.Link)
    requires LinkInv(w) && SameAccounts(w, v, link.user) && Mints(w, v, d, link) && AccountsMatch(v)
    ensures LinkInv(v)
  {
    hide LinkMatches, NewestMatches, MintMatches, SameAccounts;
    forall c | c in v.store.links ensures LinkMatches(v, c) {
      MintKeepsLinks(w, v, d, link, c);
    }
    assert UserMatches(v, link.user);
    forall user | user in v.newest ensures NewestMatches(v, user) {
      MintKeepsNewest(w, v, d, link, user);
    }
    forall c | c in v.minted ensures MintMatches(v, c) {
      MintKeepsMints(w, v, d, link, c);
    }
  }

  /** Nothing in the store changed that the invariant speaks of. */
  lemma QuietKeepsInv(w: World, v: World)
    requires LinkInv(w) && v.store.links == w.store.links && v.store.users == w.store.users && v.store.byEmail == w.store.byEmail
    requires v.minted == w.minted && v.newest == w.newest && v.names == w.names && w.known <= v.known && w.clock <= v.clock
    ensures LinkInv(v)
  {
    forall d | d in v.store.links ensures LinkMatches(v, d) {
      assert LinkMatches(w, d);
    }
    forall user | user in v.newest ensures NewestMatches(v, user) {
      assert NewestMatches(w, user);
    }
    forall d | d in v.minted ensures MintMatches(v, d) {
      assert MintMatches(w, d);
    }
    forall user | user in v.store.users ensures UserMatches(v, user) {
      assert UserMatches(w, user);
    }
  }

  lemma UnknownUserHasNoLinks(w: World, user: UserId)
    requires LinkInv(w) && user !in w.store.users
    ensures A.WithoutUnused(w.store.links, user) == w.store.links
  {
    forall d | d in w.store.links ensures w.store.links[d].user != user {
      assert LinkMatches(w, d);
    }
  }

  lemma FreshIsNotStored(w: World, d: Digest)
    requires LinkInv(w) && d !in w.minted
    ensures d !in w.store.links
  {
    assert d in w.store.links ==> LinkMatches(w, d);
  }

  /** The accounts after a mint for a known user. */
  lemma KnownAccountsMatch(w: World, v: World, user: UserId)
    requires LinkInv(w) && user in w.store.users && v.store.byEmail == w.store.byEmail && w.known <= v.known
    requires v.store.users.Keys == w.store.users.Keys && w.newest.Keys <= v.newest.Keys
    requires forall u :: u in w.store.users ==>
      v.store.users[u].email == w.store.users[u].email && v.store.users[u].role == w.store.users[u].role
    ensures AccountsMatch(v)
  {
    forall u | u in v.store.users ensures UserMatches(v, u) {
      assert UserMatches(w, u);
    }
  }

  /** The accounts after one was added. */
  lemma AddedAccountsMatch(w: World, v: World, user: UserId, account: A.Account)
    requires LinkInv(w) && user !in w.known && account.email !in w.store.byEmail && w.known + {user} <= v.known
    requires v.store.users == w.store.users[user := account] && v.store.byEmail == w.store.byEmail[account.email := user]
    requires w.newest.Keys <= v.newest.Keys && (account.role == A.Candidate ==> user in v.newest)
    ensures user !in w.store.users && AccountsMatch(v)
  {
    assert user in w.store.users ==> UserMatches(w, user);
    forall u | u in v.store.users ensures UserMatches(v, u) {
      assert u in w.store.users ==> UserMatches(w, u);
    }
  }

  lemma RecycleMints(w: World, e: Event)
    requires LinkInv(w) && Admissible(w, e) && e.RegisterCandidate? && A.FindUser(w.store, e.email).Some?
    requires A.RegisterCandidate(w.store, e.email, e.password, e.name, e.accepted, e.newId, e.token, e.at).1.Ok?
    ensures var v, user := Step(w, e), A.FindUser(w.store, e.email).value;
      && Mints(w, v, HashToken(e.token), A.Link(user, e.at, e.at + A.CANDIDATE_TTL, false, Some(e.name)))
      && SameAccounts(w, v, user)
      && user in w.store.users
      && v.store.byEmail == w.store.byEmail
      && v.store.users == w.store.users[user := w.store.users[user].(password := e.password)]
      && v.newest.Keys >= w.newest.Keys && v.known >= w.known
  {
    hide LinkInv, A.WithoutUnused;
    WithoutIsFewer(w.store.links, A.FindUser(w.store, e.email).value);
    FreshIsNotStored(w, HashToken(e.token));
  }

  lemma RecycleKeepsInv(w: World, e: Event)
    requires LinkInv(w) && Admissible(w, e) && e.RegisterCandidate? && A.FindUser(w.store, e.email).Some?
    requires A.RegisterCandidate(w.store, e.email, e.password, e.name, e.accepted, e.newId, e.token, e.at).1.Ok?
    ensures LinkInv(Step(w, e))
  {
    hide LinkInv, AccountsMatch, Step, SameAccounts, Mints, A.FindUser, A.RegisterCandidate, Admissible;
    var user := A.FindUser(w.store, e.email).value;
    RecycleMints(w, e);
    KnownAccountsMatch(w, Step(w, e), user);
    MintKeepsInv(w, Step(w, e), HashToken(e.token), A.Link(user, e.at, e.at + A.CANDIDATE_TTL, false, Some(e.name)));
  }

  lemma FreeEmail(w: World, email: string)
    requires LinkInv(w) && A.FindUser(w.store, email).None?
    ensures email !in w.store.byEmail
  {
  }

  lemma CreateKeepsInv(w: World, e: Event)
    requires LinkInv(w) && Admissible(w, e) && e.RegisterCandidate? && A.FindUser(w.store, e.email).None?
    requires A.RegisterCandidate(w.store, e.email, e.password, e.name, e.accepted, e.newId, e.token, e.at).1.Ok?
    ensures LinkInv(Step(w, e))
  {
    hide LinkInv, AccountsMatch, A.WithoutUnused;
    var v, d := Step(w, e), HashToken(e.token);
    FreshIsNotStored(w, d);
    FreeEmail(w, e.email);
    AddedAccountsMatch(w, v, e.newId, A.Account(e.email, A.Candidate, false, e.password));
    UnknownUserHasNoLinks(w, e.newId);
    assert Mints(w, v, d, A.Link(e.newId, e.at, e.at + A.CANDIDATE_TTL, false, Some(e.name)));
    hide Mints;
    MintKeepsInv(w, v, d, v.store.links[d]);
  }

  lemma RegisterKeepsInv(w: World, e: Event)
    requires LinkInv(w) && Admissible(w, e) && e.RegisterCandidate?
    ensures LinkInv(Step(w, e))
  {
    hide LinkInv;
    if A.RegisterCandidate(w.store, e.email, e.password, e.name, e.accepted, e.newId, e.token, e.at).1.Err? {
      QuietKeepsInv(w, Step(w, e));
    } else if A.FindUser(w.store, e.email).Some? {
      RecycleKeepsInv(w, e);
    } else {
      CreateKeepsInv(w, e);
    }
  }

  /** With one unused link there is only one name to read. */
  lemma LatestNameIsRegistered(w: World, user: UserId, name: Option<string>)
    requires LinkInv(w) && user in w.store.users && w.store.users[user].role == A.Candidate && !w.store.users[user].active
    requires A.IsLatestName(w.store.links, user, name)
    ensures user in w.names && name == Some(w.names[user])
  {
    assert UserMatches(w, user) && NewestMatches(w, user);
    var d := w.newest[user];
    assert LinkMatches(w, d);
    assert d in A.Unused(w.store.links, user);
    forall c | c in A.Unused(w.store.links, user) ensures c == d {
      assert LinkMatches(w, c);
    }
  }

  lemma ResendMints(w: World, e: Event)
    requires LinkInv(w) && Admissible(w, e) && e.Resend? && A.ResendApplies(w.store, e.email, e.at)
    requires var user := A.FindUser(w.store, e.email).value; user in w.names && e.prior == Some(w.names[user])
    ensures var v, user := Step(w, e), A.FindUser(w.store, e.email).value;
      && Mints(w, v, HashToken(e.token), A.Link(user, e.mintedAt, e.mintedAt + A.CANDIDATE_TTL, false, e.prior))
      && SameAccounts(w, v, user)
      && v.store.byEmail == w.store.byEmail && v.store.users == w.store.users
      && v.newest.Keys >= w.newest.Keys && v.known == w.known
  {
    hide LinkInv, A.WithoutUnused;
    WithoutIsFewer(w.store.links, A.FindUser(w.store, e.email).value);
    FreshIsNotStored(w, HashToken(e.token));
  }

  lemma ResendKeepsInv(w: World, e: Event)
    requires LinkInv(w) && Admissible(w, e) && e.Resend?
    ensures LinkInv(Step(w, e))
  {
    if A.ResendApplies(w.store, e.email, e.at) {
      var user := A.FindUser(w.store, e.email).value;
      hide LinkInv, AccountsMatch, Step, SameAccounts, Mints, A.IsLatestName;
      LatestNameIsRegistered(w, user, e.prior);
      ResendMints(w, e);
      KnownAccountsMatch(w, Step(w, e), user);
      MintKeepsInv(w, Step(w, e), HashToken(e.token), A.Link(user, e.mintedAt, e.mintedAt + A.CANDIDATE_TTL, false, e.prior));
    } else {
      hide LinkInv;
      QuietKeepsInv(w, Step(w, e));
    }
  }

  lemma ApprovalMints(w: World, e: Event)
    requires LinkInv(w) && Admissible(w, e) && e.ApproveCompany?
    requires A.ApproveCompany(w.store, e.user, e.token, e.at).1.Ok?
    ensures var v := Step(w, e);
      && Mints(w, v, HashToken(e.token), A.Link(e.user, e.at, e.at + A.COMPANY_TTL, false, None))
      && SameAccounts(w, v, e.user)
      && v.store.byEmail == w.store.byEmail && v.store.users == w.store.users
  {
    hide LinkInv;
    FreshIsNotStored(w, HashToken(e.token));
  }

  lemma ApproveKeepsInv(w: World, e: Event)
    requires LinkInv(w) && Admissible(w, e) && e.ApproveCompany?
    ensures LinkInv(Step(w, e))
  {
    hide LinkInv, AccountsMatch, SameAccounts, A.WithoutUnused;
    if A.ApproveCompany(w.store, e.user, e.token, e.at).1.Ok? {
      ApprovalMints(w, e);
      hide Step, A.ApproveCompany;
      KnownAccountsMatch(w, Step(w, e), e.user);
      MintKeepsInv(w, Step(w, e), HashToken(e.token), A.Link(e.user, e.at, e.at + A.COMPANY_TTL, false, None));
    } else {
      QuietKeepsInv(w, Step(w, e));
    }
  }

  /** A link was used up. */
  ghost predicate Uses(w: World, v: World, d: Digest) {
    && d in w.store.links && w.store.links[d].user in w.store.users && !w.store.links[d].used
    && v.store.users == w.store.users[w.store.links[d].user := w.store.users[w.store.links[d].user].(active := true)]
    && v.store.links == w.store.links[d := w.store.links[d].(used := true)]
    && v.store.byEmail == w.store.byEmail && v.minted == w.minted && v.newest == w.newest && v.names == w.names
    && v.known == w.known && w.clock <= v.clock
  }

  lemma UseKeepsLinks(w: World, v: World, d: Digest, c: Digest)
    requires LinkInv(w) && Uses(w, v, d) && c in v.store.links
    ensures LinkMatches(v, c)
  {
    assert LinkMatches(w, d) && LinkMatches(w, c);
  }

  lemma UseKeepsHistory(w: World, v: World, d: Digest)
    requires LinkInv(w) && Uses(w, v, d)
    ensures forall user :: user in v.newest ==> NewestMatches(v, user)
    ensures forall c :: c in v.minted ==> MintMatches(v, c)
    ensures AccountsMatch(v)
  {
    hide LinkInv, AccountsMatch, NewestMatches, MintMatches;
    SameKeysKeepHistory(w, v);
    KnownAccountsMatch(w, v, w.store.links[d].user);
  }

  lemma UseKeepsInv(w: World, v: World, d: Digest)
    requires LinkInv(w) && Uses(w, v, d)
    ensures LinkInv(v)
  {
    hide LinkMatches, MintMatches, NewestMatches, UserMatches;
    forall c | c in v.store.links ensures LinkMatches(v, c) {
      UseKeepsLinks(w, v, d, c);
    }
    UseKeepsHistory(w, v, d);
  }

  lemma ActivateKeepsInv(w: World, e: Event)
    requires LinkInv(w) && Admissible(w, e) && e.Activate?
    ensures LinkInv(Step(w, e))
  {
    hide LinkInv, A.Linked, A.UserIsTaken;
    if A.Activate(w.store, e.raw, e.at).1.Ok? {
      UseKeepsInv(w, Step(w, e), HashToken(e.raw));
    } else {
      QuietKeepsInv(w, Step(w, e));
    }
  }

  /** A company's email changes. */
  lemma ChangeEmailKeepsInv(w: World, e: Event)
    requires LinkInv(w) && Admissible(w, e) && e.ChangeCompanyEmail?
    ensures LinkInv(Step(w, e))
  {
    hide LinkInv;
    var v := Step(w, e);
    if v.store == w.store {
      QuietKeepsInv(w, v);
    } else {
      MovedKeepsInv(w, v, e.user, e.newEmail);
    }
  }

  lemma MovedKeepsInv(w: World, v: World, user: UserId, email: string)
    requires LinkInv(w) && user in w.store.users && A.FindUser(w.store, email).None?
    requires v.store.users == w.store.users[user := w.store.users[user].(email := email)]
    requires v.store.byEmail == (w.store.byEmail - {w.store.users[user].email})[email := user]
    requires v.store.links == w.store.links && v.minted == w.minted && v.newest == w.newest && v.names == w.names
    requires v.known == w.known && w.clock <= v.clock
    ensures LinkInv(v)
  {
    hide LinkMatches, MintMatches, NewestMatches;
    forall d | d in v.store.links ensures LinkMatches(v, d) {
      SameRoleSameLink(w, v, d);
    }
    SameKeysKeepHistory(w, v);
    MovedAccountsMatch(w, v, user, email);
  }

  lemma SameRoleSameLink(w: World, v: World, d: Digest)
    requires d in w.store.links && LinkMatches(w, d) && v.store.links == w.store.links
    requires v.minted == w.minted && v.newest == w.newest && v.names == w.names && v.store.users.Keys == w.store.users.Keys
    requires forall u :: u in w.store.users ==>
      v.store.users[u].role == w.store.users[u].role && v.store.users[u].active == w.store.users[u].active
    ensures LinkMatches(v, d)
  {
  }

  lemma SameKeysKeepHistory(w: World, v: World)
    requires LinkInv(w) && v.store.users.Keys == w.store.users.Keys && v.store.links.Keys == w.store.links.Keys
    requires v.minted == w.minted && v.newest == w.newest && v.known == w.known && w.clock <= v.clock
    ensures forall user :: user in v.newest ==> NewestMatches(v, user)
    ensures forall c :: c in v.minted ==> MintMatches(v, c)
  {
    forall user | user in v.newest ensures NewestMatches(v, user) {
      assert NewestMatches(w, user);
    }
    forall c | c in v.minted ensures MintMatches(v, c) {
      assert MintMatches(w, c);
    }
  }

  lemma MovedAccountsMatch(w: World, v: World, user: UserId, email: string)
    requires LinkInv(w) && user in w.store.users && A.FindUser(w.store, email).None?
    requires v.store.users == w.store.users[user := w.store.users[user].(email := email)]
    requires v.store.byEmail == (w.store.byEmail - {w.store.users[user].email})[email := user]
    requires v.newest == w.newest && v.known == w.known
    ensures AccountsMatch(v)
  {
    forall u | u in v.store.users ensures UserMatches(v, u) {
      assert UserMatches(w, u) && UserMatches(w, user);
    }
    forall e | e in v.store.byEmail
      ensures v.store.byEmail[e] in v.store.users && v.store.users[v.store.byEmail[e]].email == e
    {
      assert UserMatches(w, user);
    }
  }

  /** An account is added and nothing minted. */
  lemma AccountKeepsInv(w: World, v: World, user: UserId)
    requires LinkInv(w) && user !in w.known && AccountsMatch(v) && SameAccounts(w, v, user) && w.clock <= v.clock
    requires v.store.links == w.store.links && v.minted == w.minted && v.newest == w.newest && v.names == w.names
    ensures LinkInv(v)
  {
    forall d | d in v.store.links ensures LinkMatches(v, d) {
      assert LinkMatches(w, d);
    }
    forall u | u in v.newest ensures NewestMatches(v, u) {
      assert NewestMatches(w, u) && MintMatches(w, w.newest[u]);
    }
    forall d | d in v.minted ensures MintMatches(v, d) {
      assert MintMatches(w, d);
    }
  }

  lemma CompanyKeepsInv(w: World, e: Event)
    requires LinkInv(w) && Admissible(w, e) && e.RegisterCompany?
    ensures LinkInv(Step(w, e))
  {
    hide LinkInv, AccountsMatch;
    var v := Step(w, e);
    if A.FindUser(w.store, e.email).Some? {
      QuietKeepsInv(w, v);
    } else {
      FreeEmail(w, e.email);
      AddedAccountsMatch(w, v, e.newId, A.Account(e.email, A.Company, false, e.password));
      AccountKeepsInv(w, v, e.newId);
    }
  }

  lemma DeleteKeepsHistory(w: World, e: Event)
    requires LinkInv(w) && Admissible(w, e) && e.DeleteUser?
    ensures var v := Step(w, e);
      && (forall user :: user in v.newest ==> NewestMatches(v, user))
      && (forall d :: d in v.minted ==> MintMatches(v, d))
      && AccountsMatch(v)
  {
    var v := Step(w, e);
    forall user | user in v.newest ensures NewestMatches(v, user) {
      assert NewestMatches(w, user);
      assert w.newest[user] in w.store.links ==> LinkMatches(w, w.newest[user]);
    }
    hide LinkMatches, NewestMatches;
    forall d | d in v.minted ensures MintMatches(v, d) {
      assert MintMatches(w, d);
    }
    forall user | user in v.store.users ensures UserMatches(v, user) {
      assert UserMatches(w, user);
    }
  }

  lemma DeleteKeepsInv(w: World, e: Event)
    requires LinkInv(w) && Admissible(w, e) && e.DeleteUser?
    ensures LinkInv(Step(w, e))
  {
    hide NewestMatches, MintMatches, UserMatches;
    DeleteKeepsHistory(w, e);
    var v := Step(w, e);
    forall d | d in v.store.links ensures LinkMatches(v, d) {
      assert LinkMatches(w, d);
    }
  }

  lemma StepKeepsLinks(w: World, e: Event)
    requires LinkInv(w) && Admissible(w, e)
    ensures LinkInv(Step(w, e))
  {
    hide LinkInv, Step, Admissible;
    match e
    case RegisterCandidate(_, _, _, _, _, _, _) => RegisterKeepsInv(w, e);
    case RegisterCompany(_, _, _, _) => CompanyKeepsInv(w, e);
    case Resend(_, _, _, _, _) => ResendKeepsInv(w, e);
    case ApproveCompany(_, _, _) => ApproveKeepsInv(w, e);
    case Activate(_, _) => ActivateKeepsInv(w, e);
    case DeleteUser(_, _) => DeleteKeepsInv(w, e);
    case ChangeCompanyEmail(_, _, _) => ChangeEmailKeepsInv(w, e);
    case _ => ProfileEventKeepsLinks(w, e);
  }

  predicate IsProfileEvent(e: Event) {
    e.AddProfile? || e.MoveProfile? || e.DropProfile? || e.LinkProfile?
  }

  lemma ProfileEventKeepsLinks(w: World, e: Event)
    requires LinkInv(w) && Admissible(w, e) && IsProfileEvent(e)
    ensures LinkInv(Step(w, e))
  {
    hide LinkInv;
    QuietKeepsInv(w, Step(w, e));
  }

  // ---------------------------------------------------------------- and the profiles

  /** Accounts may come under new ids and go, and be activated. */
  lemma SameProfilesMatch(w: World, v: World)
    requires ProfilesMatch(w) && v.store.profiles == w.store.profiles && w.known <= v.known
    requires forall u :: u in v.store.users ==>
      u !in w.known || (u in w.store.users && (w.store.users[u].active ==> v.store.users[u].active))
    ensures ProfilesMatch(v)
  {
    forall e | e in v.store.profiles ensures ProfileMatches(v, e) {
      assert ProfileMatches(w, e);
    }
  }

  lemma ActivationKeepsProfiles(w: World, e: Event)
    requires Inv(w) && Admissible(w, e) && e.Activate?
    ensures ProfilesMatch(Step(w, e))
  {
    UsersAreKnown(w);
    hide LinkInv, ProfilesMatch, A.Linked, A.UserIsTaken, A.Activate;
    var (t, r) := A.Activate(w.store, e.raw, e.at);
    ActivateEffect(w.store, e.raw, e.at);
    if r.Ok? {
      var link := w.store.links[HashToken(e.raw)];
      ActivatedProfiles(w, Step(w, e), link.user, w.store.users[link.user].email, link.fullName, e.at);
    } else {
      SameProfilesMatch(w, Step(w, e));
    }
  }

  lemma ActivateEffect(s: A.Store, raw: string, now: Time)
    ensures var (t, r) := A.Activate(s, raw, now);
      if r.Err? then t == s
      else
        var d := HashToken(raw);
        && d in s.links && s.links[d].user in s.users
        && var user, email := s.links[d].user, s.users[s.links[d].user].email;
        && t.users == s.users[user := s.users[user].(active := true)]
        && (t.profiles == s.profiles
            || (!A.UserIsTaken(s.profiles, email, user) && t.profiles == A.Linked(s.profiles, email, user, s.links[d].fullName, now)))
  {
    hide A.Linked, A.UserIsTaken;
  }

  lemma UsersAreKnown(w: World)
    requires LinkInv(w)
    ensures w.store.users.Keys <= w.known
  {
    forall u | u in w.store.users ensures u in w.known {
      assert UserMatches(w, u);
    }
  }

  lemma ActivatedProfiles(w: World, v: World, user: UserId, email: string, name: Option<string>, now: Time)
    requires ProfilesMatch(w) && user in w.store.users && user in w.known && v.known == w.known
    requires v.store.users == w.store.users[user := w.store.users[user].(active := true)]
    requires v.store.profiles == w.store.profiles
      || (!A.UserIsTaken(w.store.profiles, email, user) && v.store.profiles == A.Linked(w.store.profiles, email, user, name, now))
    ensures ProfilesMatch(v)
  {
    forall x | x in v.store.profiles ensures ProfileMatches(v, x) {
      assert x in w.store.profiles ==> ProfileMatches(w, x);
    }
    forall x, y | SameUser(v.store.profiles, x, y) ensures x == y {
      assert SameUser(w.store.profiles, x, y) ==> x == y;
    }
  }

  lemma DeletionKeepsProfiles(w: World, e: Event)
    requires ProfilesMatch(w) && e.DeleteUser?
    ensures ProfilesMatch(Step(w, e))
  {
    var v := Step(w, e);
    forall x | x in v.store.profiles ensures ProfileMatches(v, x) {
      assert ProfileMatches(w, x);
    }
    forall x, y | SameUser(v.store.profiles, x, y) ensures x == y {
      assert SameUser(w.store.profiles, x, y);
    }
  }

  lemma MoveKeepsProfiles(w: World, e: Event)
    requires ProfilesMatch(w) && (e.MoveProfile? || e.DropProfile? || e.AddProfile?)
    ensures ProfilesMatch(Step(w, e))
  {
    var v := Step(w, e);
    forall x | x in v.store.profiles ensures ProfileMatches(v, x) {
      assert x in w.store.profiles ==> ProfileMatches(w, x);
      assert e.email in w.store.profiles ==> ProfileMatches(w, e.email);
    }
    forall x, y | SameUser(v.store.profiles, x, y) ensures x == y {
      var x0 := if e.MoveProfile? && x == e.newEmail && x !in w.store.profiles then e.email else x;
      var y0 := if e.MoveProfile? && y == e.newEmail && y !in w.store.profiles then e.email else y;
      assert SameUser(w.store.profiles, x0, y0);
    }
  }

  lemma LinkKeepsProfiles(w: World, e: Event)
    requires Inv(w) && Admissible(w, e) && e.LinkProfile?
    ensures ProfilesMatch(Step(w, e))
  {
    hide LinkMatches, NewestMatches, MintMatches;
    var v := Step(w, e);
    assert UserMatches(w, e.user);
    forall x | x in v.store.profiles ensures ProfileMatches(v, x) {
      assert ProfileMatches(w, x);
    }
    forall x, y | SameUser(v.store.profiles, x, y) ensures x == y {
      assert SameUser(w.store.profiles, x, y) ==> x == y;
    }
  }

  /** Accounts change but for passwords, emails and new ones; profiles do not. */
  ghost predicate GrowsBy(s: A.Store, t: A.Store, newIds: set<UserId>) {
    && t.profiles == s.profiles
    && forall u :: u in t.users ==> u in newIds || (u in s.users && t.users[u].active == s.users[u].active)
  }

  /** A link that is mailed is the one under the request's own token. */
  predicate MailsOnly(r: Result<Option<string>, A.ActivationError>, token: string) {
    r.Ok? && r.value.Some? ==> r.value.value == token
  }

  lemma RegisterGrows(s: A.Store, email: string, password: string, name: string, accepted: bool, newId: UserId, token: string, at: Time)
    ensures var (t, r) := A.RegisterCandidate(s, email, password, name, accepted, newId, token, at);
      GrowsBy(s, t, {newId}) && MailsOnly(r, token)
  {
    hide A.WithoutUnused;
  }

  lemma CompanyGrows(s: A.Store, email: string, password: string, newId: UserId, token: string)
    ensures var (t, r) := A.RegisterCompany(s, email, password, newId);
      GrowsBy(s, t, {newId}) && MailsOnly(r, token)
  {
  }

  lemma ResendGrows(s: A.Store, email: string, prior: Option<string>, token: string, now: Time, mintedAt: Time)
    ensures var (t, r) := A.Resend(s, email, prior, token, now, mintedAt);
      GrowsBy(s, t, {}) && MailsOnly(r, token)
  {
    hide A.WithoutUnused, A.LinksSince;
  }

  lemma ApproveGrows(s: A.Store, user: UserId, token: string, at: Time)
    ensures var (t, r) := A.ApproveCompany(s, user, token, at);
      GrowsBy(s, t, {}) && MailsOnly(r, token)
  {
    hide A.WithoutUnused, A.Unused;
  }

  lemma ChangeEmailGrows(s: A.Store, user: UserId, email: string)
    ensures GrowsBy(s, A.ChangeCompanyEmail(s, user, email).0, {})
  {
  }

  predicate IsRequest(e: Event) {
    !e.Activate? && !e.DeleteUser? && !IsProfileEvent(e)
  }

  function NewIdsOf(e: Event): set<UserId> {
    if e.RegisterCandidate? || e.RegisterCompany? then {e.newId} else {}
  }

  /** History forgets no link, and a user's newest one changes only to a fresh one. */
  ghost predicate Remembers(w: World, v: World) {
    && (forall d :: d in w.minted ==> d in v.minted && v.minted[d] == w.minted[d])
    && (forall u :: u in w.newest ==> u in v.newest && (v.newest[u] == w.newest[u] || v.newest[u] !in w.minted))
    && w.known <= v.known
  }

  lemma RecordedRemembers(w: World, after: A.Store, r: Result<Option<string>, A.ActivationError>, end: Time, token: string)
    requires MailsOnly(r, token) && (r.Ok? && r.value.Some? ==> HashToken(token) !in w.minted)
    ensures var v := Recorded(w, after, r, end); v.store == after && v.known == w.known && Remembers(w, v)
  {
  }

  /** What every request but an activation does to accounts and history. */
  lemma RequestGrows(w: World, e: Event)
    requires IsRequest(e) && Admissible(w, e)
    ensures GrowsBy(w.store, Step(w, e).store, NewIdsOf(e)) && Remembers(w, Step(w, e))
  {
    hide GrowsBy, Recorded, MailsOnly, A.RegisterCandidate, A.RegisterCompany, A.Resend, A.ApproveCompany, A.ChangeCompanyEmail;
    match e
    case RegisterCandidate(email, password, name, accepted, newId, token, at) =>
      var (after, r) := A.RegisterCandidate(w.store, email, password, name, accepted, newId, token, at);
      RegisterGrows(w.store, email, password, name, accepted, newId, token, at);
      RecordedRemembers(w, after, r, at, token);
    case RegisterCompany(email, password, newId, at) =>
      var (after, r) := A.RegisterCompany(w.store, email, password, newId);
      CompanyGrows(w.store, email, password, newId, "");
      CompanyMailsNothing(w.store, email, password, newId);
      RecordedRemembers(w, after, r, at, "");
    case Resend(email, prior, token, at, mintedAt) =>
      var (after, r) := A.Resend(w.store, email, prior, token, at, mintedAt);
      ResendGrows(w.store, email, prior, token, at, mintedAt);
      RecordedRemembers(w, after, r, mintedAt, token);
    case ApproveCompany(user, token, at) =>
      var (after, r) := A.ApproveCompany(w.store, user, token, at);
      ApproveGrows(w.store, user, token, at);
      RecordedRemembers(w, after, r, at, token);
    case ChangeCompanyEmail(user, newEmail, _) => ChangeEmailGrows(w.store, user, newEmail);
  }

  lemma CompanyMailsNothing(s: A.Store, email: string, password: string, newId: UserId)
    ensures var r := A.RegisterCompany(s, email, password, newId).1; !(r.Ok? && r.value.Some?)
  {
  }

  lemma RequestKeepsProfiles(w: World, e: Event)
    requires Inv(w) && Admissible(w, e) && IsRequest(e)
    ensures ProfilesMatch(Step(w, e))
  {
    hide LinkMatches, NewestMatches, MintMatches, ProfilesMatch, Step;
    RequestGrows(w, e);
    SameProfilesMatch(w, Step(w, e));
  }

  lemma StepKeepsInv(w: World, e: Event)
    requires Inv(w) && Admissible(w, e)
    ensures Inv(Step(w, e))
  {
    assert LinkInv(w) && ProfilesMatch(w);
    hide LinkInv, ProfilesMatch, Step, Admissible;
    StepKeepsLinks(w, e);
    if e.Activate? {
      ActivationKeepsProfiles(w, e);
    } else if e.DeleteUser? {
      DeletionKeepsProfiles(w, e);
    } else if e.LinkProfile? {
      LinkKeepsProfiles(w, e);
    } else if IsProfileEvent(e) {
      MoveKeepsProfiles(w, e);
    } else {
      RequestKeepsProfiles(w, e);
    }
  }

  lemma {:induction false} RunKeepsInv(w: World, events: seq<Event>)
    requires Inv(w) && AdmissibleRun(w, events)
    ensures Inv(Run(w, events))
    decreases |events|
  {
    hide Inv;
    if events != [] {
      StepKeepsInv(w, events[0]);
      RunKeepsInv(Step(w, events[0]), events[1..]);
    }
  }

  // ---------------------------------------------------------------- at most one unused link

  /** What a user's unused links are: the newest one if the user has one and is not active yet, else none. */
  lemma UnusedIsTheNewest(w: World, user: UserId)
    requires Inv(w)
    ensures A.Unused(w.store.links, user) ==
      if user in w.store.users && user in w.newest && !w.store.users[user].active then {w.newest[user]} else {}
  {
    forall d | d in A.Unused(w.store.links, user)
      ensures user in w.store.users && user in w.newest && !w.store.users[user].active && d == w.newest[user]
    {
      assert LinkMatches(w, d);
    }
    if user in w.store.users && user in w.newest && !w.store.users[user].active {
      assert NewestMatches(w, user) && LinkMatches(w, w.newest[user]);
    }
  }

  /** In every reachable state a user has at most one unused link: so neither of the single-row reads, at approval
      and at login, ever finds two. */
  lemma AtMostOneUnusedLink(events: seq<Event>, user: UserId)
    requires AdmissibleRun(START, events)
    ensures |A.Unused(Run(START, events).store.links, user)| <= 1
  {
    RunKeepsInv(START, events);
    UnusedIsTheNewest(Run(START, events), user);
  }

  lemma SingleRowReadsNeverFail(events: seq<Event>, user: UserId, token: string, at: Time, g: Lockout.Guard, correct: bool,
      active: bool, now: Time, lockAt: Time)
    requires AdmissibleRun(START, events)
    ensures var s := Run(START, events).store;
      && A.ApproveCompany(s, user, token, at).1 != Err(A.SeveralRows)
      && Lockout.Authenticate(g, correct, active, |A.Unused(s.links, user)|, now, lockAt).1 != Lockout.SeveralTokens
  {
    AtMostOneUnusedLink(events, user);
  }

  /** The pending companies, each outer-joined with its unused links. */
  function PendingRows(s: A.Store): set<(UserId, Option<Digest>)> {
    (set u, d | u in s.users && s.users[u].role == A.Company && !s.users[u].active && d in A.Unused(s.links, u) :: (u, Some(d)))
    + (set u | u in s.users && s.users[u].role == A.Company && !s.users[u].active && A.Unused(s.links, u) == {} :: (u, None))
  }

  /** Every pending company has exactly one row, and the row carries a link exactly when it was ever approved. */
  lemma PendingRowsAreSingle(events: seq<Event>, user: UserId)
    requires AdmissibleRun(START, events)
    requires var s := Run(START, events).store; user in s.users && s.users[user].role == A.Company && !s.users[user].active
    ensures var w := Run(START, events);
      var row := (user, if user in w.newest then Some(w.newest[user]) else None);
      row in PendingRows(w.store) && forall r :: r in PendingRows(w.store) && r.0 == user ==> r == row
  {
    hide Run;
    RunKeepsInv(START, events);
    UnusedIsTheNewest(Run(START, events), user);
    RowsOfOne(Run(START, events).store, user, Run(START, events).newest);
  }

  /** The rows of a pending company: one for each unused link, or one without. */
  lemma RowsOfOne(s: A.Store, user: UserId, newest: map<UserId, Digest>)
    requires user in s.users && s.users[user].role == A.Company && !s.users[user].active
    requires A.Unused(s.links, user) == if user in newest then {newest[user]} else {}
    ensures var row := (user, if user in newest then Some(newest[user]) else None);
      row in PendingRows(s) && forall r :: r in PendingRows(s) && r.0 == user ==> r == row
  {
    hide A.Unused;
    var row := (user, if user in newest then Some(newest[user]) else None);
    assert user in newest ==> newest[user] in A.Unused(s.links, user);
    forall r | r in PendingRows(s) && r.0 == user ensures r == row {
      assert r.1.Some? ==> r.1.value in A.Unused(s.links, user);
      assert r.1.None? ==> A.Unused(s.links, user) == {};
    }
  }

  // ---------------------------------------------------------------- only the newest link activates

  /** Nobody but an active user is linked to a profile, so the unique key on a profile's user never refuses an
      activation. */
  lemma NoKeyInTheWay(w: World, raw: string, now: Time)
    requires Inv(w)
    ensures A.Activate(w.store, raw, now).1 != Err(A.IntegrityError)
  {
    var d := HashToken(raw);
    if d in w.store.links {
      assert LinkMatches(w, d);
      forall e | e in w.store.profiles && !w.store.links[d].used ensures w.store.profiles[e].user != Some(w.store.links[d].user) {
        assert ProfileMatches(w, e);
      }
    }
  }

  /** A link activates exactly when it is the newest ever minted for its user, the user exists and is not active
      yet, and its time to live is not over. */
  lemma ActivatesIff(w: World, raw: string, now: Time)
    requires Inv(w)
    ensures var d := HashToken(raw);
      A.Activate(w.store, raw, now).1.Ok? <==>
      && d in w.minted
      && w.minted[d].user in w.store.users
      && w.newest[w.minted[d].user] == d
      && !w.store.users[w.minted[d].user].active
      && now <= w.minted[d].at + TtlOf(w.store.users[w.minted[d].user].role)
  {
    var d := HashToken(raw);
    NoKeyInTheWay(w, raw, now);
    if d in w.store.links {
      assert LinkMatches(w, d);
    } else if d in w.minted {
      assert MintMatches(w, d) && NewestMatches(w, w.minted[d].user);
    }
  }

  /** Registering mails a link exactly when the terms are accepted and the email is free or an inactive
      candidate's. */
  lemma RegistrationMailsIff(w: World, e: Event)
    requires Inv(w) && Admissible(w, e) && e.RegisterCandidate?
    ensures var r := A.RegisterCandidate(w.store, e.email, e.password, e.name, e.accepted, e.newId, e.token, e.at).1;
      && (r.Ok? ==> r == Ok(Some(e.token)))
      && (r.Ok? <==>
            e.accepted && forall u :: u in w.store.users && w.store.users[u].email == e.email ==>
              w.store.users[u].role == A.Candidate && !w.store.users[u].active)
  {
    FreshIsNotStored(w, HashToken(e.token));
    forall u | u in w.store.users && w.store.users[u].email == e.email ensures A.FindUser(w.store, e.email) == Some(u) {
      assert UserMatches(w, u);
    }
  }

  /** Approving mails a link exactly when the user is an inactive company. */
  lemma ApprovalMailsIff(w: World, e: Event)
    requires Inv(w) && Admissible(w, e) && e.ApproveCompany?
    ensures var r := A.ApproveCompany(w.store, e.user, e.token, e.at).1;
      && (r.Ok? ==> r == Ok(Some(e.token)))
      && (r.Ok? <==> e.user in w.store.users && w.store.users[e.user].role == A.Company && !w.store.users[e.user].active)
  {
    FreshIsNotStored(w, HashToken(e.token));
    UnusedIsTheNewest(w, e.user);
  }

  predicate Mailed(w: World, e: Event) {
    match e
    case RegisterCandidate(email, password, name, accepted, newId, token, at) =>
      A.RegisterCandidate(w.store, email, password, name, accepted, newId, token, at).1 == Ok(Some(token))
    case Resend(email, prior, token, at, mintedAt) => A.Resend(w.store, email, prior, token, at, mintedAt).1 == Ok(Some(token))
    case ApproveCompany(user, token, at) => A.ApproveCompany(w.store, user, token, at).1 == Ok(Some(token))
    case _ => false
  }

  /** The link just mailed is the newest of an inactive account. */
  ghost predicate IsFreshLink(v: World, d: Digest, end: Time, ttl: Time) {
    && d in v.minted && v.minted[d].at == end && v.minted[d].user in v.newest && v.newest[v.minted[d].user] == d
    && v.minted[d].user in v.store.users && !v.store.users[v.minted[d].user].active
    && TtlOf(v.store.users[v.minted[d].user].role) == ttl
  }

  lemma RegistrationIsFresh(w: World, e: Event)
    requires Mailed(w, e) && e.RegisterCandidate?
    ensures IsFreshLink(Step(w, e), HashToken(e.token), e.at, 2 * HOUR)
  {
  }

  lemma ResendIsFresh(w: World, e: Event)
    requires Mailed(w, e) && e.Resend?
    ensures IsFreshLink(Step(w, e), HashToken(e.token), e.mintedAt, 2 * HOUR)
  {
  }

  lemma ApprovalIsFresh(w: World, e: Event)
    requires Mailed(w, e) && e.ApproveCompany?
    ensures IsFreshLink(Step(w, e), HashToken(e.token), e.at, 48 * HOUR)
  {
  }

  /** A link that was mailed activates its account, until its time to live is over. */
  lemma MailedLinkActivates(w: World, e: Event, now: Time)
    requires Inv(w) && Admissible(w, e) && Mailed(w, e)
    ensures var v, end := Step(w, e), if e.Resend? then e.mintedAt else e.at;
      A.Activate(v.store, e.token, now).1.Ok? <==>
        now <= end + if e.ApproveCompany? then 48 * HOUR else 2 * HOUR
  {
    hide Inv, Admissible, Step, A.Activate;
    StepKeepsInv(w, e);
    ActivatesIff(Step(w, e), e.token, now);
    if e.RegisterCandidate? {
      RegistrationIsFresh(w, e);
    } else if e.Resend? {
      ResendIsFresh(w, e);
    } else {
      ApprovalIsFresh(w, e);
    }
  }

  /** Superseded by a newer link, used, or its user gone. */
  ghost predicate Dead(w: World, d: Digest) {
    && d in w.minted && w.minted[d].user in w.newest && w.minted[d].user in w.known
    && (w.minted[d].user in w.store.users ==> w.newest[w.minted[d].user] != d || w.store.users[w.minted[d].user].active)
  }

  lemma StepKeepsDead(w: World, e: Event, d: Digest)
    requires Inv(w) && Admissible(w, e) && Dead(w, d)
    ensures Dead(Step(w, e), d)
  {
    if IsRequest(e) {
      RequestGrows(w, e);
      hide Step, Inv;
    } else {
      OtherKeepsDead(w, e, d);
    }
  }

  lemma OtherKeepsDead(w: World, e: Event, d: Digest)
    requires Dead(w, d) && !IsRequest(e)
    ensures Dead(Step(w, e), d)
  {
    hide A.Linked, A.UserIsTaken, ProfilesAfter;
  }

  /** Once a newer link was minted, or the link was used, it is refused in every later run. */
  lemma {:induction false} DeadLinkStaysDead(w: World, events: seq<Event>, raw: string, now: Time)
    requires Inv(w) && AdmissibleRun(w, events) && Dead(w, HashToken(raw))
    ensures A.Activate(Run(w, events).store, raw, now).1.Err?
    decreases |events|
  {
    if events == [] {
      ActivatesIff(w, raw, now);
    } else {
      StepKeepsInv(w, events[0]);
      StepKeepsDead(w, events[0], HashToken(raw));
      DeadLinkStaysDead(Step(w, events[0]), events[1..], raw, now);
    }
  }

  lemma UsedLinkIsDead(w: World, use: Event)
    requires Inv(w) && use.Activate? && A.Activate(w.store, use.raw, use.at).1.Ok?
    ensures Dead(Step(w, use), HashToken(use.raw))
  {
    ActivatesIff(w, use.raw, use.at);
    assert MintMatches(w, HashToken(use.raw));
  }

  /** A link activates once. */
  lemma LinkActivatesOnce(w: World, use: Event, events: seq<Event>, now: Time)
    requires Inv(w) && use.Activate? && Admissible(w, use) && AdmissibleRun(Step(w, use), events)
    requires A.Activate(w.store, use.raw, use.at).1.Ok?
    ensures A.Activate(Run(Step(w, use), events).store, use.raw, now).1.Err?
  {
    StepKeepsInv(w, use);
    UsedLinkIsDead(w, use);
    hide Inv, Step, A.Activate;
    DeadLinkStaysDead(Step(w, use), events, use.raw, now);
  }

  /** A candidate without a profile gets one under the name of the last registration, however many links were
      mailed again since; one with a profile gets it linked and keeps its name. */
  lemma ActivationUsesTheRegisteredName(w: World, raw: string, now: Time)
    requires Inv(w) && A.Activate(w.store, raw, now).1.Ok?
    requires w.store.users[w.store.links[HashToken(raw)].user].role == A.Candidate
    ensures var user, after := w.store.links[HashToken(raw)].user, A.Activate(w.store, raw, now).0;
      var email := w.store.users[user].email;
      && user in w.names && email in after.profiles
      && after.profiles - {email} == w.store.profiles - {email}
      && after.profiles[email].user == Some(user)
      && after.profiles[email].consentAt == Some(now)
      && after.profiles[email].fullName ==
           (if email in w.store.profiles then w.store.profiles[email].fullName
            else if w.names[user] != "" then w.names[user] else A.EmailPrefix(email))
  {
    assert LinkMatches(w, HashToken(raw));
  }

  // ---------------------------------------------------------------- spacing of resends

  /** A resend mails a link exactly when the account is an inactive candidate's and nothing was minted for it in
      the last hour: though each mint deletes the older unused rows, the newest one is always there to count. */
  lemma ResendsIff(w: World, e: Event)
    requires Inv(w) && e.Resend? && Admissible(w, e)
    ensures var user := A.FindUser(w.store, e.email);
      A.Resend(w.store, e.email, e.prior, e.token, e.at, e.mintedAt).1 != Ok(None) <==>
      && user.Some?
      && w.store.users[user.value].role == A.Candidate
      && !w.store.users[user.value].active
      && forall d :: d in w.minted && w.minted[d].user == user.value ==> w.minted[d].at <= e.at - HOUR
  {
    FreshIsNotStored(w, HashToken(e.token));
    var found := A.FindUser(w.store, e.email);
    hide Inv, A.LinksSince;
    if found.Some? {
      NoneRecentIff(w, found.value, e.at - HOUR);
      var recent := A.LinksSince(w.store.links, found.value, e.at - HOUR);
      if recent != {} {
        var d :| d in recent;
        SubsetSize({d}, recent);
      }
    }
  }

  lemma NoneRecentIff(w: World, user: UserId, since: Time)
    requires LinkInv(w) && user in w.store.users
    ensures A.LinksSince(w.store.links, user, since) == {} <==>
      forall d :: d in w.minted && w.minted[d].user == user ==> w.minted[d].at <= since
  {
    var recent := A.LinksSince(w.store.links, user, since);
    forall d | d in recent ensures d in w.minted && w.minted[d].user == user && w.minted[d].at > since {
      assert LinkMatches(w, d);
    }
    forall d | d in w.minted && w.minted[d].user == user && w.minted[d].at > since ensures w.newest[user] in recent {
      assert MintMatches(w, d) && NewestMatches(w, user);
      assert LinkMatches(w, w.newest[user]);
    }
  }

  predicate Mails(w: World, e: Event, user: UserId) {
    e.Resend? && A.FindUser(w.store, e.email) == Some(user)
    && A.Resend(w.store, e.email, e.prior, e.token, e.at, e.mintedAt).1 != Ok(None)
  }

  lemma StepRemembersMints(w: World, e: Event, d: Digest)
    requires Admissible(w, e) && d in w.minted
    ensures d in Step(w, e).minted && Step(w, e).minted[d] == w.minted[d]
  {
    if IsRequest(e) {
      hide Step;
      RequestGrows(w, e);
    } else {
      hide A.Activate, A.DeleteUser;
    }
  }

  lemma {:induction false} RunRemembersMints(w: World, events: seq<Event>, d: Digest)
    requires AdmissibleRun(w, events) && d in w.minted
    ensures d in Run(w, events).minted && Run(w, events).minted[d] == w.minted[d]
    decreases |events|
  {
    if events != [] {
      StepRemembersMints(w, events[0], d);
      RunRemembersMints(Step(w, events[0]), events[1..], d);
    }
  }

  /** Two successful resends to one user are at least an hour apart. */
  lemma ResendsAreAnHourApart(w: World, first: Event, events: seq<Event>, second: Event, user: UserId)
    requires Inv(w) && Admissible(w, first) && AdmissibleRun(Step(w, first), events)
    requires var v := Run(Step(w, first), events); Admissible(v, second) && Mails(v, second, user)
    requires Mails(w, first, user)
    ensures second.at >= first.mintedAt + HOUR
  {
    hide Inv, Step, Run, Admissible, AdmissibleRun;
    var d, v := HashToken(first.token), Run(Step(w, first), events);
    StepKeepsInv(w, first);
    RunKeepsInv(Step(w, first), events);
    MailingRecords(w, first, user);
    RunRemembersMints(Step(w, first), events, d);
    ResendsIff(v, second);
  }

  lemma MailingRecords(w: World, e: Event, user: UserId)
    requires Inv(w) && Admissible(w, e) && Mails(w, e, user)
    ensures HashToken(e.token) in Step(w, e).minted && Step(w, e).minted[HashToken(e.token)] == Mint(user, e.mintedAt)
  {
    hide A.WithoutUnused, A.LinksSince;
    FreshIsNotStored(w, HashToken(e.token));
    hide Inv;
    WithoutIsFewer(w.store.links, user);
  }

  lemma WithoutIsFewer(links: map<Digest, A.Link>, user: UserId)
    ensures A.WithoutUnused(links, user).Keys <= links.Keys
  {
  }
}
