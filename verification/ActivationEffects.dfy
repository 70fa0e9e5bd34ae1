/** What each request about accounts and activation links answers, and what it leaves behind. */
module ActivationEffects {
  import opened Prelude
  import opened Tables
  import A = Activation
  import Lockout
  import opened ActivationRuns

  // ---------------------------------------------------------------- a new link

  /** The user's unused links gave way to this one, and every other link stayed. */
  ghost predicate OnlyLinkIs(s: A.Store, t: A.Store, d: Digest, link: A.Link) {
    && d !in s.links && d in t.links && t.links[d] == link
    && (forall c :: c in t.links && c != d <==> c in s.links && (s.links[c].user != link.user || s.links[c].used))
    && (forall c :: c in t.links && c != d ==> t.links[c] == s.links[c])
  }

  /** One account was written under its email, and every other stayed. */
  ghost predicate OnlyAccountIs(s: A.Store, t: A.Store, user: UserId, account: A.Account) {
    && user in t.users && t.users[user] == account && t.byEmail == s.byEmail[account.email := user]
    && t.users.Keys == s.users.Keys + {user}
    && (forall u :: u in s.users && u != user ==> t.users[u] == s.users[u])
    && t.profiles == s.profiles
  }

  lemma HolderIsFound(w: World, user: UserId)
    requires Inv(w) && user in w.store.users
    ensures A.FindUser(w.store, w.store.users[user].email) == Some(user)
  {
    assert UserMatches(w, user);
  }

  lemma RecycledAccount(w: World, e: Event)
    requires Inv(w) && Admissible(w, e) && e.RegisterCandidate? && A.FindUser(w.store, e.email).Some?
    requires A.RegisterCandidate(w.store, e.email, e.password, e.name, e.accepted, e.newId, e.token, e.at).1.Ok?
    ensures var t, user := A.RegisterCandidate(w.store, e.email, e.password, e.name, e.accepted, e.newId, e.token, e.at).0,
        A.FindUser(w.store, e.email).value;
      && OnlyAccountIs(w.store, t, user, A.Account(e.email, A.Candidate, false, e.password))
      && OnlyLinkIs(w.store, t, HashToken(e.token), A.Link(user, e.at, e.at + 2 * 60 * 60 * 1000000, false, Some(e.name)))
  {
    FreshIsNotStored(w, HashToken(e.token));
    hide LinkMatches, NewestMatches, MintMatches, ProfilesMatch;
    RecycledStore(w.store, e, A.FindUser(w.store, e.email).value);
  }

  lemma RecycledStore(s: A.Store, e: Event, user: UserId)
    requires e.RegisterCandidate? && e.accepted && HashToken(e.token) !in s.links
    requires A.FindUser(s, e.email) == Some(user) && s.users[user] == A.Account(e.email, A.Candidate, false, s.users[user].password)
    ensures var t := A.RegisterCandidate(s, e.email, e.password, e.name, e.accepted, e.newId, e.token, e.at).0;
      && OnlyAccountIs(s, t, user, A.Account(e.email, A.Candidate, false, e.password))
      && OnlyLinkIs(s, t, HashToken(e.token), A.Link(user, e.at, e.at + 2 * 60 * 60 * 1000000, false, Some(e.name)))
  {
    assert s.byEmail[e.email := user] == s.byEmail;
  }

  lemma NewAccount(w: World, e: Event)
    requires Inv(w) && Admissible(w, e) && e.RegisterCandidate? && A.FindUser(w.store, e.email).None?
    requires A.RegisterCandidate(w.store, e.email, e.password, e.name, e.accepted, e.newId, e.token, e.at).1.Ok?
    ensures var t := A.RegisterCandidate(w.store, e.email, e.password, e.name, e.accepted, e.newId, e.token, e.at).0;
      && OnlyAccountIs(w.store, t, e.newId, A.Account(e.email, A.Candidate, false, e.password))
      && OnlyLinkIs(w.store, t, HashToken(e.token), A.Link(e.newId, e.at, e.at + 2 * 60 * 60 * 1000000, false, Some(e.name)))
  {
    FreshIsNotStored(w, HashToken(e.token));
    assert e.newId in w.store.users ==> UserMatches(w, e.newId);
    forall c | c in w.store.links ensures w.store.links[c].user != e.newId {
      assert LinkMatches(w, c);
    }
  }

  /** An accepted registration leaves an inactive candidate under the email with the given password, and one unused
      link of two hours that carries the name; the account is the one that has the email, or else a new one. A
      refused one changes nothing. */
  lemma RegistrationLeaves(w: World, e: Event)
    requires Inv(w) && Admissible(w, e) && e.RegisterCandidate?
    ensures var s := w.store;
      var (t, r) := A.RegisterCandidate(s, e.email, e.password, e.name, e.accepted, e.newId, e.token, e.at);
      && (r.Err? ==> t == s && r == Err(if e.accepted then A.EmailAlreadyExists else A.ConsentRequired))
      && (r.Ok? ==> exists user ::
            && (if exists u :: u in s.users && s.users[u].email == e.email then user in s.users && s.users[user].email == e.email
                else user == e.newId)
            && OnlyAccountIs(s, t, user, A.Account(e.email, A.Candidate, false, e.password))
            && OnlyLinkIs(s, t, HashToken(e.token), A.Link(user, e.at, e.at + 2 * 60 * 60 * 1000000, false, Some(e.name))))
  {
    FreshIsNotStored(w, HashToken(e.token));
    if A.RegisterCandidate(w.store, e.email, e.password, e.name, e.accepted, e.newId, e.token, e.at).1.Ok? {
      hide OnlyAccountIs, OnlyLinkIs;
      if A.FindUser(w.store, e.email).Some? {
        RecycledAccount(w, e);
      } else {
        NewAccount(w, e);
        forall u | u in w.store.users ensures w.store.users[u].email != e.email {
          HolderIsFound(w, u);
        }
      }
    }
  }

  /** A company registration leaves an inactive company account under a free email, without any link; under an email
      in use it changes nothing. */
  lemma CompanyRegistrationLeaves(w: World, e: Event)
    requires Inv(w) && Admissible(w, e) && e.RegisterCompany?
    ensures var s := w.store;
      var (t, r) := A.RegisterCompany(s, e.email, e.password, e.newId);
      && (r.Ok? <==> forall u :: u in s.users ==> s.users[u].email != e.email)
      && (r.Err? ==> t == s && r == Err(A.EmailAlreadyExists))
      && (r.Ok? ==> r == Ok(None) && t.links == s.links && OnlyAccountIs(s, t, e.newId, A.Account(e.email, A.Company, false, e.password)))
  {
    forall u | u in w.store.users ensures A.FindUser(w.store, w.store.users[u].email) == Some(u) {
      HolderIsFound(w, u);
    }
  }

  /** A resend that mails a link leaves one unused link of two hours, under the name the candidate last registered
      with; one that does not changes nothing, and says the same. */
  lemma ResendLeaves(w: World, e: Event)
    requires Inv(w) && Admissible(w, e) && e.Resend?
    ensures var s := w.store;
      var (t, r) := A.Resend(s, e.email, e.prior, e.token, e.at, e.mintedAt);
      && (r == Ok(None) || r == Ok(Some(e.token)))
      && (r == Ok(None) ==> t == s)
      && (r == Ok(Some(e.token)) ==> exists user ::
            && user in s.users && s.users[user].email == e.email && user in w.names
            && t.users == s.users && t.byEmail == s.byEmail && t.profiles == s.profiles
            && OnlyLinkIs(s, t, HashToken(e.token),
                 A.Link(user, e.mintedAt, e.mintedAt + 2 * 60 * 60 * 1000000, false, Some(w.names[user]))))
  {
    FreshIsNotStored(w, HashToken(e.token));
    if A.ResendApplies(w.store, e.email, e.at) {
      var user := A.FindUser(w.store, e.email).value;
      LatestNameIsRegistered(w, user, e.prior);
      hide A.ResendApplies;
      assert OnlyLinkIs(w.store, A.Resend(w.store, e.email, e.prior, e.token, e.at, e.mintedAt).0, HashToken(e.token),
        A.Link(user, e.mintedAt, e.mintedAt + 2 * 60 * 60 * 1000000, false, Some(w.names[user])));
    }
  }

  /** The name that a resend reads: none without an unused link, else that of one than which none is newer. */
  lemma LatestNameExactly(links: map<Digest, A.Link>, user: UserId, name: Option<string>)
    ensures var unused := set d | d in links && links[d].user == user && !links[d].used;
      A.IsLatestName(links, user, name) <==>
        if unused == {} then name == None
        else exists d :: d in unused && links[d].fullName == name && forall c :: c in unused ==> links[c].created <= links[d].created
  {
    var unused := set d | d in links && links[d].user == user && !links[d].used;
    assert A.Unused(links, user) == unused;
    if d :| d in unused && links[d].fullName == name && forall c :: c in unused ==> links[c].created <= links[d].created {
      assert A.IsNewest(links, A.Unused(links, user), d);
    }
  }

  /** An approval leaves one unused link of 48 hours; a refused one changes nothing, and says whether the company is
      missing or not pending. */
  lemma ApprovalLeaves(w: World, e: Event)
    requires Inv(w) && Admissible(w, e) && e.ApproveCompany?
    ensures var s := w.store;
      var (t, r) := A.ApproveCompany(s, e.user, e.token, e.at);
      && (r.Err? ==> t == s && r == Err(if e.user in s.users then A.NotPending else A.NotFound))
      && (r.Ok? ==>
            && t.users == s.users && t.byEmail == s.byEmail && t.profiles == s.profiles
            && OnlyLinkIs(s, t, HashToken(e.token), A.Link(e.user, e.at, e.at + 48 * 60 * 60 * 1000000, false, None)))
  {
    FreshIsNotStored(w, HashToken(e.token));
    UnusedIsTheNewest(w, e.user);
    var single := |A.Unused(w.store.links, e.user)| <= 1;
    hide Inv, A.Unused;
    assert single;
    if A.ApproveCompany(w.store, e.user, e.token, e.at).1.Ok? {
      ApprovedStore(w.store, e.user, e.token, e.at);
    }
  }

  lemma ApprovedStore(s: A.Store, user: UserId, token: string, at: Time)
    requires HashToken(token) !in s.links && A.ApproveCompany(s, user, token, at).1.Ok?
    ensures var t := A.ApproveCompany(s, user, token, at).0;
      && t.users == s.users && t.byEmail == s.byEmail && t.profiles == s.profiles
      && OnlyLinkIs(s, t, HashToken(token), A.Link(user, at, at + 48 * 60 * 60 * 1000000, false, None))
  {
    hide A.Unused;
  }

  /** Which refusal an approval and a registration get in any store, reachable or not: the unique key on the hash and
      the single-row read included. A refused request changes nothing. */
  lemma ApprovalAnswersExactly(s: A.Store, user: UserId, token: string, at: Time)
    ensures var (t, r) := A.ApproveCompany(s, user, token, at);
      var pending := user in s.users && s.users[user].role == A.Company && !s.users[user].active;
      var unused := set d | d in s.links && s.links[d].user == user && !s.links[d].used;
      && (r == Err(A.NotFound) <==> user !in s.users)
      && (r == Err(A.NotPending) <==> user in s.users && !pending)
      && (r == Err(A.SeveralRows) <==> pending && |unused| > 1)
      && (r == Err(A.IntegrityError) <==> pending && |unused| <= 1 && HashToken(token) in s.links && HashToken(token) !in unused)
      && (r.Err? ==> t == s)
  {
    assert A.Unused(s.links, user) == set d | d in s.links && s.links[d].user == user && !s.links[d].used;
  }

  lemma RegistrationAnswersExactly(s: A.Store, email: string, password: string, name: string, accepted: bool, newId: UserId,
      token: string, at: Time)
    ensures var (t, r), d := A.RegisterCandidate(s, email, password, name, accepted, newId, token, at), HashToken(token);
      var found := email in s.byEmail && s.byEmail[email] in s.users;
      var fits := found ==> s.users[s.byEmail[email]].role == A.Candidate && !s.users[s.byEmail[email]].active;
      && (r == Err(A.ConsentRequired) <==> !accepted)
      && (r == Err(A.EmailAlreadyExists) <==> accepted && !fits)
      && (r == Err(A.IntegrityError) <==>
            accepted && fits && d in s.links && !(found && s.links[d].user == s.byEmail[email] && !s.links[d].used))
      && (r.Ok? ==> r == Ok(Some(token)))
      && (r.Err? ==> t == s)
  {
  }

  // ---------------------------------------------------------------- using a link

  /** What an activation answers, and what it leaves: an unknown or used link is invalid, an unused one past its time
      has expired. A valid one uses itself up and makes its account active, and changes nothing else about accounts
      and links; only a candidate's touches a profile. */
  lemma ActivationLeaves(w: World, raw: string, now: Time)
    requires Inv(w)
    ensures var s, d := w.store, HashToken(raw);
      var (t, r) := A.Activate(s, raw, now);
      && (r == Err(A.InvalidLink) <==> d !in s.links || s.links[d].used)
      && (r == Err(A.LinkExpired) <==> d in s.links && !s.links[d].used && s.links[d].expires < now)
      && (r.Err? ==> t == s && (r == Err(A.InvalidLink) || r == Err(A.LinkExpired)))
      && (r.Ok? ==>
            var user := s.links[d].user;
            && r == Ok(user) && user in s.users
            && t.users.Keys == s.users.Keys && t.byEmail == s.byEmail
            && t.users[user] == A.Account(s.users[user].email, s.users[user].role, true, s.users[user].password)
            && (forall u :: u in s.users && u != user ==> t.users[u] == s.users[u])
            && t.links.Keys == s.links.Keys && t.links[d] == s.links[d].(used := true)
            && (forall c :: c in s.links && c != d ==> t.links[c] == s.links[c])
            && (s.users[user].role != A.Candidate ==> t.profiles == s.profiles))
  {
    hide A.Linked, A.UserIsTaken, Inv;
    NoKeyInTheWay(w, raw, now);
    if HashToken(raw) in w.store.links {
      LinkHasItsUser(w, HashToken(raw));
    }
  }

  lemma LinkHasItsUser(w: World, d: Digest)
    requires Inv(w) && d in w.store.links
    ensures w.store.links[d].user in w.store.users
  {
    assert LinkMatches(w, d);
  }

  /** The name of a profile made without one: what stands before the first at-sign of the email. */
  lemma {:induction false} EmailPrefixEndsAtTheSign(email: string)
    ensures var prefix := A.EmailPrefix(email);
      && prefix <= email && '@' !in prefix
      && (|prefix| < |email| ==> email[|prefix|] == '@')
  {
    if email != "" && email[0] != '@' {
      EmailPrefixEndsAtTheSign(email[1..]);
    }
  }

  // ---------------------------------------------------------------- the rest of an account's life

  /** A company's email changes exactly when it is a company's and no other account has the new one; nothing else
      of any account changes. */
  lemma CompanyEmailExactly(w: World, e: Event)
    requires Inv(w) && e.ChangeCompanyEmail?
    ensures var s := w.store;
      var (t, r) := A.ChangeCompanyEmail(s, e.user, e.newEmail);
      var isCompany := e.user in s.users && s.users[e.user].role == A.Company;
      && (r == Err(A.NotFound) <==> !isCompany)
      && (r == Err(A.EmailAlreadyExists) <==> isCompany && exists u :: u in s.users && u != e.user && s.users[u].email == e.newEmail)
      && (r.Err? ==> t == s && (r == Err(A.NotFound) || r == Err(A.EmailAlreadyExists)))
      && (r.Ok? ==>
            && t.users.Keys == s.users.Keys && t.links == s.links && t.profiles == s.profiles
            && t.users[e.user] == s.users[e.user].(email := e.newEmail)
            && (forall u :: u in s.users && u != e.user ==> t.users[u] == s.users[u])
            && e.newEmail in t.byEmail && t.byEmail[e.newEmail] == e.user
            && (forall x :: x in t.byEmail && x != e.newEmail <==> x in s.byEmail && s.byEmail[x] != e.user)
            && (forall x :: x in t.byEmail && x != e.newEmail ==> t.byEmail[x] == s.byEmail[x]))
  {
    hide LinkMatches, NewestMatches, MintMatches, ProfilesMatch, UserMatches, A.FindUser;
    CompanyEmailAnswer(w, e.user, e.newEmail);
    if A.ChangeCompanyEmail(w.store, e.user, e.newEmail).1.Ok? {
      CompanyEmailMoves(w, e.user, e.newEmail);
    }
  }

  lemma CompanyEmailAnswer(w: World, user: UserId, email: string)
    requires Inv(w)
    ensures var s := w.store;
      var r := A.ChangeCompanyEmail(s, user, email).1;
      var isCompany := user in s.users && s.users[user].role == A.Company;
      && (r == Err(A.NotFound) <==> !isCompany)
      && (r == Err(A.EmailAlreadyExists) <==> isCompany && exists u :: u in s.users && u != user && s.users[u].email == email)
  {
    hide LinkMatches, NewestMatches, MintMatches, ProfilesMatch;
    forall u | u in w.store.users ensures A.FindUser(w.store, w.store.users[u].email) == Some(u) {
      HolderIsFound(w, u);
    }
  }

  /** The account's old email is free, and its new one is its own. */
  lemma CompanyEmailMoves(w: World, user: UserId, email: string)
    requires Inv(w) && A.ChangeCompanyEmail(w.store, user, email).1.Ok?
    ensures var s, t := w.store, A.ChangeCompanyEmail(w.store, user, email).0;
      && email in t.byEmail && t.byEmail[email] == user
      && (forall x :: x in t.byEmail && x != email <==> x in s.byEmail && s.byEmail[x] != user)
      && (forall x :: x in t.byEmail && x != email ==> t.byEmail[x] == s.byEmail[x])
  {
    hide LinkMatches, NewestMatches, MintMatches, ProfilesMatch;
    assert UserMatches(w, user);
  }

  /** A deleted user's links go and their profile stays, unlinked; everybody else's rows stay. */
  lemma UserDeletionLeaves(s: A.Store, user: UserId)
    ensures var t := A.DeleteUser(s, user);
      && (forall u :: u in t.users <==> u in s.users && u != user)
      && (forall u :: u in t.users ==> t.users[u] == s.users[u])
      && (forall d :: d in t.links <==> d in s.links && s.links[d].user != user)
      && (forall d :: d in t.links ==> t.links[d] == s.links[d])
      && t.profiles.Keys == s.profiles.Keys
      && (forall x :: x in t.profiles ==>
            t.profiles[x] == if s.profiles[x].user == Some(user) then s.profiles[x].(user := None) else s.profiles[x])
  {
  }

  /** What a login with the right password is told of an account that is not active, when no lock stands: that its
      link waits to be used, if one was ever mailed to it, and else that it waits for an approval. */
  lemma InactiveLoginIsTold(w: World, user: UserId, g: Lockout.Guard, now: Time, lockAt: Time)
    requires Inv(w) && user in w.store.users && !w.store.users[user].active
    requires g.lockedUntil.None? || g.lockedUntil.value <= now
    ensures Lockout.Authenticate(g, true, false, |A.Unused(w.store.links, user)|, now, lockAt) ==
      (g, if exists d :: d in w.minted && w.minted[d].user == user then Lockout.PendingActivation else Lockout.PendingApproval)
  {
    UnusedIsTheNewest(w, user);
    if user in w.newest {
      assert NewestMatches(w, user);
    }
    forall d | d in w.minted && w.minted[d].user == user ensures user in w.newest {
      assert MintMatches(w, d);
    }
  }
}
