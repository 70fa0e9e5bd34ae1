/** What every run of requests on jobs, candidates and applications keeps. */
module RecruitmentRuns {
  import opened Prelude
  import opened Tables
  import B = Recruitment
  import Retention

  datatype Event =
    | Apply(form: B.Form, job: B.JobId, upload: B.Upload, fallback: Option<string>, user: Option<B.SignedIn>,
            newCandidate: B.CandidateId, newApp: B.AppId, at: Time)
    | Withdraw(candidate: B.CandidateId, app: B.AppId)
    | Edit(candidate: B.CandidateId, app: B.AppId, answers: B.Answers, upload: B.Upload)
    | UpdateStatus(app: B.AppId, status: B.AppStatus, notes: Option<string>)
    | DeleteApplication(app: B.AppId)
    | UpdateJob(job: B.JobId, payload: seq<B.Change>, at: Time)
    | DeleteJob(job: B.JobId)
    | DeleteCandidate(candidate: B.CandidateId)
    | Purge(at: Time)
    | UpdateCandidate(candidate: B.CandidateId, fields: seq<B.ProfileChange>)
    // changes made elsewhere in the program
    | PutJob(job: B.JobId, row: B.Job)
    | PutProfile(candidate: B.CandidateId, profile: B.Profile)
    | LinkProfile(email: string, owner: UserId, name: string, newCandidate: B.CandidateId, at: Time)
    | UserDeleted(owner: UserId)
    | PutAccount(email: string, account: B.Account)

  /** The tables, and every id of an application and of a candidate that was ever given out. */
  datatype World = World(state: B.State, appIds: set<B.AppId>, candidateIds: set<B.CandidateId>)

  const START := World(B.State(map[], map[], map[], map[], map[], multiset{}, multiset{}), {}, {})

  function Step(w: World, e: Event): World {
    match e
    case Apply(form, job, upload, fallback, user, newCandidate, newApp, at) =>
      w.(state := B.Apply(w.state, form, job, upload, fallback, user, newCandidate, newApp, at).0,
         appIds := w.appIds + {newApp}, candidateIds := w.candidateIds + {newCandidate})
    case Withdraw(candidate, app) => w.(state := B.Withdraw(w.state, candidate, app).0)
    case Edit(candidate, app, answers, upload) => w.(state := B.Edit(w.state, candidate, app, answers, upload).0)
    case UpdateStatus(app, status, notes) => w.(state := B.UpdateStatus(w.state, app, status, notes).0)
    case DeleteApplication(app) => w.(state := B.DeleteApplication(w.state, app).0)
    case UpdateJob(job, payload, at) => w.(state := B.UpdateJob(w.state, job, payload, at).0)
    case DeleteJob(job) => w.(state := B.DeleteJob(w.state, job).0)
    case DeleteCandidate(candidate) => w.(state := B.DeleteCandidate(w.state, candidate).0)
    case Purge(at) => w.(state := Retention.Purge(w.state, at).0)
    case UpdateCandidate(candidate, payload) => w.(state := B.UpdateCandidate(w.state, candidate, payload).0)
    case LinkProfile(email, user, name, newCandidate, at) =>
      w.(state := B.LinkOrCreate(w.state, email, user, name, newCandidate, at).0, candidateIds := w.candidateIds + {newCandidate})
    case UserDeleted(user) => w.(state := w.state.(profiles := B.Unlinked(w.state.profiles, user)))
    case PutJob(job, row) => w.(state := w.state.(jobs := w.state.jobs[job := row]))
    case PutProfile(candidate, profile) =>
      if candidate in w.state.profiles then w.(state := w.state.(profiles := w.state.profiles[candidate := profile])) else w
    case PutAccount(email, account) => w.(state := w.state.(accounts := w.state.accounts[email := account]))
  }

  /** An id is given out once; a candidate's own edit of the profile leaves its email and its user alone. */
  predicate Admissible(w: World, e: Event) {
    && (e.Apply? ==> e.newApp !in w.appIds)
    && (e.Apply? || e.LinkProfile? ==> e.newCandidate !in w.candidateIds)
    && (e.PutProfile? && e.candidate in w.state.profiles ==>
          e.profile.email == w.state.profiles[e.candidate].email && e.profile.user == w.state.profiles[e.candidate].user)
  }

  function Run(w: World, events: seq<Event>): World
    decreases |events|
  {
    if events == [] then w else Run(Step(w, events[0]), events[1..])
  }

  predicate AdmissibleRun(w: World, events: seq<Event>)
    decreases |events|
  {
    events != [] ==> Admissible(w, events[0]) && AdmissibleRun(Step(w, events[0]), events[1..])
  }

  // ---------------------------------------------------------------- the invariant

  predicate SamePair(a: B.App, b: B.App) {
    a.job == b.job && a.candidate == b.candidate && a.status != B.Withdrawn && b.status != B.Withdrawn
  }

  /** The partial unique index. */
  ghost predicate IndexHolds(apps: map<B.AppId, B.App>) {
    forall a, b :: a in apps && b in apps && SamePair(apps[a], apps[b]) ==> a == b
  }

  ghost predicate EmailsMatch(s: B.State) {
    && (forall e :: e in s.byEmail ==> s.byEmail[e] in s.profiles && s.profiles[s.byEmail[e]].email == e)
    && (forall c :: c in s.profiles ==> s.profiles[c].email in s.byEmail && s.byEmail[s.profiles[c].email] == c)
  }

  /** The unique key on a profile's user. */
  ghost predicate UserKeyHolds(profiles: map<B.CandidateId, B.Profile>) {
    forall c, d :: c in profiles && d in profiles && profiles[c].user.Some? && profiles[c].user == profiles[d].user ==> c == d
  }

  ghost predicate Inv(w: World) {
    && IndexHolds(w.state.apps)
    && Retention.ForeignKeysHold(w.state)
    && EmailsMatch(w.state)
    && UserKeyHolds(w.state.profiles)
    && w.state.apps.Keys <= w.appIds
    && w.state.profiles.Keys <= w.candidateIds
  }

  /** No application became blocking. */
  ghost predicate OnlyUnblocks(apps: map<B.AppId, B.App>, after: map<B.AppId, B.App>) {
    forall a :: a in after ==>
      && a in apps && after[a].job == apps[a].job && after[a].candidate == apps[a].candidate
      && (apps[a].status == B.Withdrawn ==> after[a].status == B.Withdrawn)
  }

  lemma UnblockingKeepsIndex(apps: map<B.AppId, B.App>, after: map<B.AppId, B.App>)
    requires IndexHolds(apps) && OnlyUnblocks(apps, after)
    ensures IndexHolds(after)
  {
  }

  lemma NewAppKeepsIndex(apps: map<B.AppId, B.App>, a: B.AppId, app: B.App)
    requires IndexHolds(apps) && |B.Blocking(apps, app.job, app.candidate)| == 0
    ensures IndexHolds(apps[a := app])
  {
    var after := apps[a := app];
    assert B.Blocking(apps, app.job, app.candidate) == {};
    forall x, y | x in after && y in after && SamePair(after[x], after[y]) ensures x == y {
      assert x != a ==> x !in B.Blocking(apps, app.job, app.candidate);
      assert y != a ==> y !in B.Blocking(apps, app.job, app.candidate);
    }
  }

  /** What an accepted application adds. */
  lemma ApplyAdds(s: B.State, form: B.Form, job: B.JobId, upload: B.Upload, fallback: Option<string>, user: Option<B.SignedIn>,
      newCandidate: B.CandidateId, newApp: B.AppId, at: Time)
    requires EmailsMatch(s) && newCandidate !in s.profiles
    requires B.Apply(s, form, job, upload, fallback, user, newCandidate, newApp, at).1.Ok?
    ensures var (t, r) := B.Apply(s, form, job, upload, fallback, user, newCandidate, newApp, at);
      var email := B.EmailOf(form, user);
      && job in s.jobs && s.jobs[job].status == B.Published && t.jobs == s.jobs
      && r.value == (if B.IsKnown(s, email) then s.byEmail[email] else newCandidate)
      && t.profiles.Keys == s.profiles.Keys + {r.value}
      && t.profiles[r.value].email == email
      && (forall c :: c in s.profiles && c != r.value ==> t.profiles[c] == s.profiles[c])
      && t.byEmail == s.byEmail[email := r.value]
      && newApp in t.apps && t.apps[newApp].job == job && t.apps[newApp].candidate == r.value && t.apps[newApp].status == B.New
      && t.apps == s.apps[newApp := t.apps[newApp]]
  {
    var email, resume := B.EmailOf(form, user), if upload.Stored? then Some(upload.key) else fallback;
    UpsertAdds(s, form, email, job, resume, user.None?, newCandidate, newApp, at);
    var (u, r) := B.Upsert(s, form, email, job, resume, user.None?, newCandidate, newApp, at);
    hide B.Upsert, B.UserIsTaken, B.NeedsLink, B.LinkedTo, EmailsMatch;
    LinkKeepsProfiles(u.profiles, r.value, user);
  }

  lemma LinkKeepsProfiles(profiles: map<B.CandidateId, B.Profile>, c: B.CandidateId, user: Option<B.SignedIn>)
    requires c in profiles
    ensures var after := B.LinkedTo(profiles, c, user);
      && after.Keys == profiles.Keys && after[c].email == profiles[c].email
      && forall d :: d in profiles && d != c ==> after[d] == profiles[d]
  {
  }

  lemma UpsertAdds(s: B.State, form: B.Form, email: string, job: B.JobId, resume: Option<string>, anonymous: bool,
      newCandidate: B.CandidateId, newApp: B.AppId, at: Time)
    requires EmailsMatch(s) && newCandidate !in s.profiles
    requires B.Upsert(s, form, email, job, resume, anonymous, newCandidate, newApp, at).1.Ok?
    ensures var (t, r) := B.Upsert(s, form, email, job, resume, anonymous, newCandidate, newApp, at);
      && t.jobs == s.jobs
      && r.value == (if B.IsKnown(s, email) then s.byEmail[email] else newCandidate)
      && t.profiles.Keys == s.profiles.Keys + {r.value}
      && t.profiles[r.value].email == email
      && (forall c :: c in s.profiles && c != r.value ==> t.profiles[c] == s.profiles[c])
      && t.byEmail == s.byEmail[email := r.value]
      && newApp in t.apps && t.apps[newApp].job == job && t.apps[newApp].candidate == r.value && t.apps[newApp].status == B.New
      && t.apps == s.apps[newApp := t.apps[newApp]]
  {
    hide B.UpsertRefusal;
  }

  lemma EmailsAfterAdding(s: B.State, t: B.State, c: B.CandidateId, email: string)
    requires EmailsMatch(s) && t.byEmail == s.byEmail[email := c] && t.profiles.Keys == s.profiles.Keys + {c}
    requires t.profiles[c].email == email && (c in s.profiles ==> s.profiles[c].email == email)
    requires B.IsKnown(s, email) ==> s.byEmail[email] == c
    requires forall d :: d in s.profiles && d != c ==> t.profiles[d] == s.profiles[d]
    ensures EmailsMatch(t)
  {
  }

  lemma ApplyKeepsInv(w: World, e: Event)
    requires Inv(w) && Admissible(w, e) && e.Apply?
    ensures Inv(Step(w, e))
  {
    hide EmailsMatch, IndexHolds, UserKeyHolds;
    var s := w.state;
    var (t, r) := B.Apply(s, e.form, e.job, e.upload, e.fallback, e.user, e.newCandidate, e.newApp, e.at);
    if r.Ok? {
      var email := B.EmailOf(e.form, e.user);
      ApplyAdds(s, e.form, e.job, e.upload, e.fallback, e.user, e.newCandidate, e.newApp, e.at);
      KnownEmail(s, email);
      EmailsAfterAdding(s, t, r.value, email);
      ApplyKeepsUserKey(s, e);
      AcceptedIsUnblocked(w, e);
      NewAppKeepsIndex(s.apps, e.newApp, t.apps[e.newApp]);
      AppliedKeys(s, t, e.newApp);
    } else {
      assert t == s by { RefusalChangesNothing(s, e); }
    }
  }

  lemma ApplyKeepsUserKey(s: B.State, e: Event)
    requires UserKeyHolds(s.profiles) && e.Apply? && e.newCandidate !in s.profiles
    ensures UserKeyHolds(B.Apply(s, e.form, e.job, e.upload, e.fallback, e.user, e.newCandidate, e.newApp, e.at).0.profiles)
  {
    hide B.UpsertRefusal;
    var (t, r) := B.Apply(s, e.form, e.job, e.upload, e.fallback, e.user, e.newCandidate, e.newApp, e.at);
    if r.Ok? {
      var email, resume := B.EmailOf(e.form, e.user), if e.upload.Stored? then Some(e.upload.key) else e.fallback;
      var u := B.Upsert(s, e.form, email, e.job, resume, e.user.None?, e.newCandidate, e.newApp, e.at).0;
      UpsertKeepsUsers(s, e.form, email, e.job, resume, e.user.None?, e.newCandidate, e.newApp, e.at);
      hide B.Upsert;
      LinkKeepsUserKey(u.profiles, r.value, e.user);
    }
  }

  lemma UpsertKeepsUsers(s: B.State, form: B.Form, email: string, job: B.JobId, resume: Option<string>, anonymous: bool,
      newCandidate: B.CandidateId, newApp: B.AppId, at: Time)
    requires UserKeyHolds(s.profiles) && newCandidate !in s.profiles
    ensures UserKeyHolds(B.Upsert(s, form, email, job, resume, anonymous, newCandidate, newApp, at).0.profiles)
  {
    hide B.UpsertRefusal;
  }

  lemma LinkKeepsUserKey(profiles: map<B.CandidateId, B.Profile>, c: B.CandidateId, user: Option<B.SignedIn>)
    requires UserKeyHolds(profiles)
    requires !(B.NeedsLink(profiles, c, user) && B.UserIsTaken(profiles, c, user.value.id))
    ensures UserKeyHolds(B.LinkedTo(profiles, c, user))
  {
  }

  /** What activation's link changes. */
  lemma LinkOrCreateAdds(s: B.State, email: string, owner: UserId, name: string, newCandidate: B.CandidateId, at: Time)
    requires EmailsMatch(s) && newCandidate !in s.profiles && B.LinkOrCreate(s, email, owner, name, newCandidate, at).1.Ok?
    ensures var (t, r) := B.LinkOrCreate(s, email, owner, name, newCandidate, at);
      && r.value == (if B.IsKnown(s, email) then s.byEmail[email] else newCandidate)
      && t.profiles.Keys == s.profiles.Keys + {r.value}
      && t.profiles[r.value].email == email && t.profiles[r.value].user == Some(owner)
      && (forall c :: c in s.profiles && c != r.value ==> t.profiles[c] == s.profiles[c] && s.profiles[c].user != Some(owner))
      && t.byEmail == s.byEmail[email := r.value]
      && t.apps == s.apps && t.jobs == s.jobs
  {
  }

  lemma OneOwner(profiles: map<B.CandidateId, B.Profile>, after: map<B.CandidateId, B.Profile>, c: B.CandidateId, owner: UserId)
    requires UserKeyHolds(profiles) && after.Keys == profiles.Keys + {c} && after[c].user == Some(owner)
    requires forall d :: d in profiles && d != c ==> after[d] == profiles[d] && profiles[d].user != Some(owner)
    ensures UserKeyHolds(after)
  {
  }

  lemma MoreProfilesKeepKeys(s: B.State, t: B.State)
    requires Retention.ForeignKeysHold(s) && t.apps == s.apps && t.jobs == s.jobs && s.profiles.Keys <= t.profiles.Keys
    ensures Retention.ForeignKeysHold(t)
  {
  }

  /** Activation's link. */
  lemma LinkProfileKeepsInv(w: World, e: Event)
    requires Inv(w) && Admissible(w, e) && e.LinkProfile?
    ensures Inv(Step(w, e))
  {
    hide EmailsMatch, IndexHolds, UserKeyHolds, Retention.ForeignKeysHold, B.LinkOrCreate;
    var s := w.state;
    var (t, r) := B.LinkOrCreate(s, e.email, e.owner, e.name, e.newCandidate, e.at);
    if r.Ok? {
      LinkOrCreateAdds(s, e.email, e.owner, e.name, e.newCandidate, e.at);
      KnownEmail(s, e.email);
      EmailsAfterAdding(s, t, r.value, e.email);
      OneOwner(s.profiles, t.profiles, r.value, e.owner);
      MoreProfilesKeepKeys(s, t);
    } else {
      RefusedLink(s, e.email, e.owner, e.name, e.newCandidate, e.at);
    }
  }

  lemma RefusedLink(s: B.State, email: string, owner: UserId, name: string, newCandidate: B.CandidateId, at: Time)
    requires B.LinkOrCreate(s, email, owner, name, newCandidate, at).1.Err?
    ensures B.LinkOrCreate(s, email, owner, name, newCandidate, at).0 == s
  {
  }

  lemma {:induction false} ProfileKeepsItsUser(p: B.Profile, payload: seq<B.ProfileChange>)
    ensures B.AllProfileChanged(p, payload).user == p.user
    decreases |payload|
  {
    if payload != [] {
      ProfileKeepsItsUser(p, payload[..|payload| - 1]);
    }
  }

  lemma UpdateCandidateKeepsInv(w: World, e: Event)
    requires Inv(w) && e.UpdateCandidate?
    ensures Inv(Step(w, e))
  {
    hide IndexHolds, EmailsMatch, UserKeyHolds, Retention.ForeignKeysHold, B.AllProfileChanged, B.HasNull, B.IsKnown;
    var s, t := w.state, Step(w, e).state;
    if t != s {
      var after := B.AllProfileChanged(s.profiles[e.candidate], e.fields);
      ProfileKeepsItsUser(s.profiles[e.candidate], e.fields);
      EmailsAfterChange(s, t, e.candidate, after);
      SameOwners(s.profiles, e.candidate, after);
      MoreProfilesKeepKeys(s, t);
    }
  }

  lemma SameOwners(profiles: map<B.CandidateId, B.Profile>, c: B.CandidateId, after: B.Profile)
    requires UserKeyHolds(profiles) && c in profiles && after.user == profiles[c].user
    ensures UserKeyHolds(profiles[c := after]) && profiles[c := after].Keys == profiles.Keys
  {
  }

  lemma EmailsAfterChange(s: B.State, t: B.State, c: B.CandidateId, after: B.Profile)
    requires EmailsMatch(s) && c in s.profiles && t.profiles == s.profiles[c := after]
    requires after.email == s.profiles[c].email || !B.IsKnown(s, after.email)
    requires t.byEmail == if after.email == s.profiles[c].email then s.byEmail else (s.byEmail - {s.profiles[c].email})[after.email := c]
    ensures EmailsMatch(t)
  {
  }

  lemma AppliedKeys(s: B.State, t: B.State, newApp: B.AppId)
    requires Retention.ForeignKeysHold(s) && newApp in t.apps && t.apps == s.apps[newApp := t.apps[newApp]]
    requires t.jobs == s.jobs && s.profiles.Keys <= t.profiles.Keys
    requires t.apps[newApp].job in t.jobs && t.apps[newApp].candidate in t.profiles
    ensures Retention.ForeignKeysHold(t)
  {
  }

  lemma KnownEmail(s: B.State, email: string)
    requires EmailsMatch(s)
    ensures B.IsKnown(s, email) ==> s.profiles[s.byEmail[email]].email == email
  {
  }

  lemma RefusalChangesNothing(s: B.State, e: Event)
    requires e.Apply? && B.Apply(s, e.form, e.job, e.upload, e.fallback, e.user, e.newCandidate, e.newApp, e.at).1.Err?
    ensures B.Apply(s, e.form, e.job, e.upload, e.fallback, e.user, e.newCandidate, e.newApp, e.at).0 == s
  {
  }

  lemma AcceptedIsUnblocked(w: World, e: Event)
    requires Inv(w) && Admissible(w, e) && e.Apply?
    requires B.Apply(w.state, e.form, e.job, e.upload, e.fallback, e.user, e.newCandidate, e.newApp, e.at).1.Ok?
    ensures var r := B.Apply(w.state, e.form, e.job, e.upload, e.fallback, e.user, e.newCandidate, e.newApp, e.at).1;
      |B.Blocking(w.state.apps, e.job, r.value)| == 0
  {
    if !B.IsKnown(w.state, B.EmailOf(e.form, e.user)) {
      assert B.Blocking(w.state.apps, e.job, e.newCandidate) == {};
    }
  }

  /** What the other requests may do to applications and profiles. */
  ghost predicate Tame(s: B.State, t: B.State) {
    && OnlyUnblocks(s.apps, t.apps)
    && t.profiles.Keys <= s.profiles.Keys
    && (forall c :: c in t.profiles ==>
          t.profiles[c].email == s.profiles[c].email && (t.profiles[c].user.Some? ==> t.profiles[c].user == s.profiles[c].user))
    && (forall e :: e in t.byEmail <==> e in s.byEmail && s.byEmail[e] in t.profiles)
    && (forall e :: e in t.byEmail ==> t.byEmail[e] == s.byEmail[e])
    && (forall a :: a in t.apps ==> t.apps[a].job in t.jobs && t.apps[a].candidate in t.profiles)
  }

  lemma TameKeepsInv(w: World, v: World)
    requires Inv(w) && Tame(w.state, v.state) && v.appIds == w.appIds && v.candidateIds == w.candidateIds
    ensures Inv(v)
  {
    UnblockingKeepsIndex(w.state.apps, v.state.apps);
  }

  /** Applications change one at a time, or only some statuses do. */
  lemma AppsAreTame(s: B.State, t: B.State)
    requires Retention.ForeignKeysHold(s) && EmailsMatch(s) && OnlyUnblocks(s.apps, t.apps)
    requires t.profiles == s.profiles && t.byEmail == s.byEmail && s.jobs.Keys <= t.jobs.Keys
    ensures Tame(s, t)
  {
    forall a | a in t.apps ensures t.apps[a].job in t.jobs && t.apps[a].candidate in t.profiles {
      assert a in s.apps;
    }
  }

  lemma CascadeUnblocks(s: B.State, job: B.JobId)
    ensures var t := B.Cascaded(s, job);
      OnlyUnblocks(s.apps, t.apps) && t.profiles == s.profiles && t.byEmail == s.byEmail && t.jobs == s.jobs
  {
    hide B.CascadeRows, B.CascadeMails;
  }

  lemma UpdateJobUnblocks(s: B.State, job: B.JobId, payload: seq<B.Change>, at: Time)
    ensures var t := B.UpdateJob(s, job, payload, at).0;
      OnlyUnblocks(s.apps, t.apps) && t.profiles == s.profiles && t.byEmail == s.byEmail && t.jobs.Keys == s.jobs.Keys
  {
    hide B.AllChanged, B.CompanyMails, B.Cascaded, OnlyUnblocks;
    FewerUnblock(s.apps, {});
    assert s.apps - {} == s.apps;
    if job in s.jobs {
      var after := B.AllChanged(s.jobs[job], payload).(updated := at);
      var mails := B.CompanyMails(job, s.jobs[job], after, B.Labels(s.jobs[job], payload));
      CascadeUnblocks(s.(jobs := s.jobs[job := after], outbox := s.outbox + mails), job);
    }
  }

  lemma OneRowUnblocks(apps: map<B.AppId, B.App>, a: B.AppId, row: B.App)
    requires a in apps && row.job == apps[a].job && row.candidate == apps[a].candidate && apps[a].status != B.Withdrawn
    ensures OnlyUnblocks(apps, apps[a := row])
  {
  }

  lemma FewerUnblock(apps: map<B.AppId, B.App>, gone: set<B.AppId>)
    ensures OnlyUnblocks(apps, apps - gone)
  {
  }

  lemma OneAppUnblocks(s: B.State, e: Event)
    requires e.Withdraw? || e.Edit? || e.UpdateStatus? || e.DeleteApplication?
    ensures var t := Step(World(s, {}, {}), e).state;
      OnlyUnblocks(s.apps, t.apps) && t.profiles == s.profiles && t.byEmail == s.byEmail && t.jobs == s.jobs
  {
    hide OnlyUnblocks;
    var t := Step(World(s, {}, {}), e).state;
    FewerUnblock(s.apps, {});
    assert s.apps - {} == s.apps;
    if e.DeleteApplication? {
      FewerUnblock(s.apps, {e.app});
    } else if t != s {
      OneRowUnblocks(s.apps, e.app, t.apps[e.app]);
    }
  }

  lemma PurgeIsTame(s: B.State, gone: set<B.CandidateId>)
    requires Retention.ForeignKeysHold(s) && EmailsMatch(s)
    ensures Tame(s, Retention.Purged(s, gone))
  {
  }

  lemma DeleteJobIsTame(s: B.State, job: B.JobId)
    requires Retention.ForeignKeysHold(s) && EmailsMatch(s)
    ensures Tame(s, B.DeleteJob(s, job).0)
  {
  }

  lemma DeleteCandidateIsTame(s: B.State, candidate: B.CandidateId)
    requires Retention.ForeignKeysHold(s) && EmailsMatch(s)
    ensures Tame(s, B.DeleteCandidate(s, candidate).0)
  {
  }

  lemma PutProfileIsTame(w: World, e: Event)
    requires Retention.ForeignKeysHold(w.state) && EmailsMatch(w.state) && Admissible(w, e) && e.PutProfile?
    ensures Tame(w.state, Step(w, e).state)
  {
    hide Retention.ForeignKeysHold;
    SameAppsTame(w.state, Step(w, e).state);
  }

  lemma UserDeletedIsTame(w: World, e: Event)
    requires Retention.ForeignKeysHold(w.state) && EmailsMatch(w.state) && e.UserDeleted?
    ensures Tame(w.state, Step(w, e).state)
  {
    hide Retention.ForeignKeysHold;
    SameAppsTame(w.state, Step(w, e).state);
  }

  lemma SameAppsTame(s: B.State, t: B.State)
    requires Retention.ForeignKeysHold(s) && t.apps == s.apps && t.jobs == s.jobs && t.profiles.Keys == s.profiles.Keys
    ensures OnlyUnblocks(s.apps, t.apps)
    ensures forall a :: a in t.apps ==> t.apps[a].job in t.jobs && t.apps[a].candidate in t.profiles
  {
  }

  /** A job row written elsewhere, or an account. */
  lemma PutIsTame(w: World, e: Event)
    requires Retention.ForeignKeysHold(w.state) && EmailsMatch(w.state) && (e.PutJob? || e.PutAccount?)
    ensures Tame(w.state, Step(w, e).state)
  {
    hide EmailsMatch, Tame, OnlyUnblocks, Retention.ForeignKeysHold;
    FewerUnblock(w.state.apps, {});
    assert w.state.apps - {} == w.state.apps;
    AppsAreTame(w.state, Step(w, e).state);
  }

  lemma StepIsTame(w: World, e: Event)
    requires Inv(w) && Admissible(w, e) && !e.Apply? && !e.LinkProfile? && !e.UpdateCandidate?
    ensures Tame(w.state, Step(w, e).state)
  {
    hide Tame, IndexHolds, UserKeyHolds, Retention.ForeignKeysHold, EmailsMatch, OnlyUnblocks, Retention.EligibleIds;
    match e
    case UpdateJob(job, payload, at) =>
      UpdateJobUnblocks(w.state, job, payload, at);
      AppsAreTame(w.state, Step(w, e).state);
    case PutJob(_, _) => PutIsTame(w, e);
    case PutProfile(_, _) => PutProfileIsTame(w, e);
    case PutAccount(_, _) => PutIsTame(w, e);
    case UserDeleted(_) => UserDeletedIsTame(w, e);
    case DeleteJob(job) => DeleteJobIsTame(w.state, job);
    case DeleteCandidate(candidate) => DeleteCandidateIsTame(w.state, candidate);
    case Purge(at) => PurgeIsTame(w.state, Retention.EligibleIds(w.state, at - Retention.RETENTION));
    case _ =>
      OneAppUnblocks(w.state, e);
      AppsAreTame(w.state, Step(w, e).state);
  }

  lemma TameKeepsIds(w: World, e: Event)
    requires !e.Apply? && !e.LinkProfile? && !e.UpdateCandidate?
    ensures Step(w, e).appIds == w.appIds && Step(w, e).candidateIds == w.candidateIds
  {
  }

  lemma StepKeepsInv(w: World, e: Event)
    requires Inv(w) && Admissible(w, e)
    ensures Inv(Step(w, e))
  {
    hide Inv, Step, Tame, Admissible;
    if e.Apply? {
      ApplyKeepsInv(w, e);
    } else if e.LinkProfile? {
      LinkProfileKeepsInv(w, e);
    } else if e.UpdateCandidate? {
      UpdateCandidateKeepsInv(w, e);
    } else {
      StepIsTame(w, e);
      TameKeepsIds(w, e);
      TameKeepsInv(w, Step(w, e));
    }
  }

  lemma {:induction false} RunKeepsInv(w: World, events: seq<Event>)
    requires Inv(w) && AdmissibleRun(w, events)
    ensures Inv(Run(w, events))
    decreases |events|
  {
    hide Inv;
    if events != [] {
      StepKeepsInv(w, events[0]);
      RunKeepsInv(Step(w, events[0]), events[1..]);
    }
  }

  // ---------------------------------------------------------------- one active application per job and candidate

  lemma BlockingIsSingle(apps: map<B.AppId, B.App>, job: B.JobId, candidate: B.CandidateId)
    requires IndexHolds(apps)
    ensures |B.Blocking(apps, job, candidate)| <= 1
  {
    AtMostOne(B.Blocking(apps, job, candidate));
  }

  /** In every reachable state: at most one application of a pair is not withdrawn, so the partial unique index
      never has to refuse a write, and no application lacks its job or its candidate. */
  lemma OneActiveApplicationPerPair(events: seq<Event>, job: B.JobId, candidate: B.CandidateId)
    requires AdmissibleRun(START, events)
    ensures var s := Run(START, events).state;
      && |B.Blocking(s.apps, job, candidate)| <= 1
      && forall a :: a in s.apps ==> s.apps[a].job in s.jobs && s.apps[a].candidate in s.profiles
  {
    RunKeepsInv(START, events);
    BlockingIsSingle(Run(START, events).state.apps, job, candidate);
  }

  /** An admin's update of a profile is accepted exactly when the profile exists, neither email nor name is null, and
      no other profile has the address; it touches that profile alone, and never its user. */
  lemma CandidateUpdateExactly(w: World, e: Event)
    requires Inv(w) && e.UpdateCandidate?
    ensures var s := w.state;
      var (t, r) := B.UpdateCandidate(s, e.candidate, e.fields);
      && (r.Ok? <==>
            && e.candidate in s.profiles && B.SetEmail(None) !in e.fields && B.SetFullName(None) !in e.fields
            && forall d :: d in s.profiles && d != e.candidate ==>
                 s.profiles[d].email != B.AllProfileChanged(s.profiles[e.candidate], e.fields).email)
      && (r.Err? ==> t == s && r == Err(if e.candidate in s.profiles then B.IntegrityError else B.CandidateNotFound))
      && (r.Ok? ==>
            && t.profiles - {e.candidate} == s.profiles - {e.candidate} && e.candidate in t.profiles
            && t.profiles[e.candidate].user == s.profiles[e.candidate].user
            && t.apps == s.apps && t.jobs == s.jobs && t.audit == s.audit && t.outbox == s.outbox)
  {
    hide B.AllProfileChanged;
    if e.candidate in w.state.profiles {
      ProfileKeepsItsUser(w.state.profiles[e.candidate], e.fields);
      EmailIsKnown(w, e.candidate);
    }
  }

  /** In every reachable state, also after an admin moved a profile to another address: no two profiles share an
      email or a user. */
  lemma ProfilesKeepTheirKeys(events: seq<Event>, c: B.CandidateId, d: B.CandidateId)
    requires AdmissibleRun(START, events)
    requires var p := Run(START, events).state.profiles;
      c in p && d in p && (p[c].email == p[d].email || (p[c].user.Some? && p[c].user == p[d].user))
    ensures c == d
  {
    RunKeepsInv(START, events);
  }

  /** An application of the pair that was not withdrawn. */
  ghost predicate Blocks(s: B.State, a: B.AppId, job: B.JobId, email: string) {
    && a in s.apps && s.apps[a].job == job && s.apps[a].status != B.Withdrawn
    && s.apps[a].candidate in s.profiles && s.profiles[s.apps[a].candidate].email == email
  }

  lemma BlockedExactly(w: World, job: B.JobId, email: string)
    requires Inv(w) && B.IsKnown(w.state, email)
    ensures var refusal := B.BlockedBy(w.state.apps, job, w.state.byEmail[email]);
      && (refusal == None <==> forall a :: !Blocks(w.state, a, job, email))
      && (forall a :: Blocks(w.state, a, job, email) ==>
            refusal == Some(if w.state.apps[a].status == B.New then B.AlreadyEditable(a) else B.AlreadyLocked(a)))
  {
    var c := w.state.byEmail[email];
    var blocking := B.Blocking(w.state.apps, job, c);
    BlockingIsSingle(w.state.apps, job, c);
    forall a ensures Blocks(w.state, a, job, email) <==> a in blocking {
      assert a in w.state.apps && w.state.apps[a].candidate in w.state.profiles && w.state.profiles[w.state.apps[a].candidate].email == email ==> w.state.apps[a].candidate == c;
    }
    if blocking != {} {
      var a :| a in blocking;
      Singleton(blocking, a);
    }
  }

  /** A signed-in candidate whose profile under the account's email is new or unlinked, while another profile
      carries the account: the flush that would link it is refused by the unique key. */
  ghost predicate LinkIsRefused(s: B.State, email: string, user: Option<B.SignedIn>) {
    && user.Some?
    && (B.IsKnown(s, email) ==> s.profiles[s.byEmail[email]].user.None?)
    && exists c :: c in s.profiles && s.profiles[c].user == Some(user.value.id)
  }

  /** What answers an application that no application blocks. */
  lemma UnblockedAnswer(s: B.State, e: Event)
    requires EmailsMatch(s) && e.Apply? && (B.IsKnown(s, B.EmailOf(e.form, e.user)) || e.newCandidate !in s.profiles)
    requires e.job in s.jobs && s.jobs[e.job].status == B.Published && e.upload != B.Refused
    requires B.UpsertRefusal(s, B.EmailOf(e.form, e.user), e.job, e.user.None?).None?
    ensures var email := B.EmailOf(e.form, e.user);
      B.Apply(s, e.form, e.job, e.upload, e.fallback, e.user, e.newCandidate, e.newApp, e.at).1 ==
        if LinkIsRefused(s, email, e.user) then Err(B.IntegrityError)
        else Ok(if B.IsKnown(s, email) then s.byEmail[email] else e.newCandidate)
  {
    hide B.UpsertRefusal, B.Upsert;
    var email, resume := B.EmailOf(e.form, e.user), if e.upload.Stored? then Some(e.upload.key) else e.fallback;
    var (t, r) := B.Upsert(s, e.form, email, e.job, resume, e.user.None?, e.newCandidate, e.newApp, e.at);
    UpsertShape(s, e.form, email, e.job, resume, e.user.None?, e.newCandidate, e.newApp, e.at);
    LinkAnswer(s, t.profiles, r.value, email, e.user);
  }

  /** The upsert leaves the other profiles alone, and the user of the one it finds. */
  lemma UpsertShape(s: B.State, form: B.Form, email: string, job: B.JobId, resume: Option<string>, anonymous: bool,
      newCandidate: B.CandidateId, newApp: B.AppId, at: Time)
    requires B.UpsertRefusal(s, email, job, anonymous).None? && (B.IsKnown(s, email) || newCandidate !in s.profiles)
    ensures var (t, r) := B.Upsert(s, form, email, job, resume, anonymous, newCandidate, newApp, at);
      && r == Ok(if B.IsKnown(s, email) then s.byEmail[email] else newCandidate)
      && t.profiles.Keys == s.profiles.Keys + {r.value}
      && t.profiles[r.value].user == (if B.IsKnown(s, email) then s.profiles[r.value].user else None)
      && (forall c :: c in s.profiles && c != r.value ==> t.profiles[c] == s.profiles[c])
  {
    hide B.UpsertRefusal;
  }

  lemma LinkAnswer(s: B.State, after: map<B.CandidateId, B.Profile>, c: B.CandidateId, email: string, user: Option<B.SignedIn>)
    requires c == (if B.IsKnown(s, email) then s.byEmail[email] else c) && (B.IsKnown(s, email) || c !in s.profiles)
    requires after.Keys == s.profiles.Keys + {c}
    requires after[c].user == (if B.IsKnown(s, email) then s.profiles[c].user else None)
    requires forall d :: d in s.profiles && d != c ==> after[d] == s.profiles[d]
    ensures B.NeedsLink(after, c, user) && B.UserIsTaken(after, c, user.value.id) <==> LinkIsRefused(s, email, user)
  {
    if LinkIsRefused(s, email, user) {
      var d :| d in s.profiles && s.profiles[d].user == Some(user.value.id);
      assert d in after && d != c && after[d].user == Some(user.value.id);
    }
  }

  /** An application is accepted exactly when the job is published, the file is fit, no active candidate account
      holds an anonymous applicant's email, no application of that email to that job blocks it, and the account
      of a signed-in candidate can be linked. Each refusal says which: a blocking application as editable, with
      its id, if it is new, and as locked otherwise; an account that cannot be linked as a violated key. */
  lemma ApplyRefusesExactly(w: World, e: Event)
    requires Inv(w) && e.Apply? && (B.IsKnown(w.state, B.EmailOf(e.form, e.user)) || e.newCandidate !in w.state.profiles)
    ensures var r := B.Apply(w.state, e.form, e.job, e.upload, e.fallback, e.user, e.newCandidate, e.newApp, e.at).1;
      var email := B.EmailOf(e.form, e.user);
      var fit := e.job in w.state.jobs && w.state.jobs[e.job].status == B.Published && e.upload != B.Refused
        && (e.user.None? ==> !B.EmailIsTaken(w.state, email));
      && (r.Ok? <==> fit && (forall a :: !Blocks(w.state, a, e.job, email)) && !LinkIsRefused(w.state, email, e.user))
      && (fit ==> forall a :: Blocks(w.state, a, e.job, email) ==>
            r == Err(if w.state.apps[a].status == B.New then B.AlreadyEditable(a) else B.AlreadyLocked(a)))
      && (fit && (forall a :: !Blocks(w.state, a, e.job, email)) && LinkIsRefused(w.state, email, e.user) ==> r == Err(B.IntegrityError))
  {
    var s, email := w.state, B.EmailOf(e.form, e.user);
    var fit := e.job in s.jobs && s.jobs[e.job].status == B.Published && e.upload != B.Refused
      && (e.user.None? ==> !B.EmailIsTaken(s, email));
    if fit {
      hide B.BlockedBy, Blocks, LinkIsRefused;
      if B.IsKnown(s, email) {
        BlockedExactly(w, e.job, email);
      } else {
        NoProfileNoBlock(s, e.job, email);
      }
      if B.UpsertRefusal(s, email, e.job, e.user.None?).None? {
        hide B.Apply;
        UnblockedAnswer(s, e);
      }
    }
  }

  lemma NoProfileNoBlock(s: B.State, job: B.JobId, email: string)
    requires EmailsMatch(s) && !B.IsKnown(s, email)
    ensures forall a :: !Blocks(s, a, job, email)
  {
  }

  /** A refused application leaves every table as it was. An accepted one is the pair's only active application;
      no other application and nobody else's profile changed. */
  lemma ApplyEffect(w: World, e: Event)
    requires Inv(w) && Admissible(w, e) && e.Apply?
    ensures var s := w.state;
      var (t, r) := B.Apply(s, e.form, e.job, e.upload, e.fallback, e.user, e.newCandidate, e.newApp, e.at);
      if r.Err? then t == s
      else
        && B.Blocking(t.apps, e.job, r.value) == {e.newApp}
        && t.apps[e.newApp].status == B.New
        && t.apps - {e.newApp} == s.apps
        && t.profiles - {r.value} == s.profiles - {r.value}
        && t.profiles[r.value].email == B.EmailOf(e.form, e.user)
        && t.jobs == s.jobs
  {
    hide Inv, EmailsMatch, B.Apply;
    var s := w.state;
    var (t, r) := B.Apply(s, e.form, e.job, e.upload, e.fallback, e.user, e.newCandidate, e.newApp, e.at);
    InvKeys(w);
    if r.Ok? {
      AcceptedIsUnblocked(w, e);
      ApplyAdds(s, e.form, e.job, e.upload, e.fallback, e.user, e.newCandidate, e.newApp, e.at);
      OnlyTheNewBlocks(s.apps, e.newApp, t.apps[e.newApp]);
      OnlyOneAdded(s.apps, e.newApp, t.apps[e.newApp]);
      OnlyOneChanged(s.profiles, t.profiles, r.value);
    } else {
      RefusalChangesNothing(s, e);
    }
  }

  lemma OnlyOneAdded(apps: map<B.AppId, B.App>, a: B.AppId, app: B.App)
    requires a !in apps
    ensures apps[a := app] - {a} == apps
  {
  }

  lemma OnlyOneChanged(profiles: map<B.CandidateId, B.Profile>, after: map<B.CandidateId, B.Profile>, c: B.CandidateId)
    requires after.Keys == profiles.Keys + {c}
    requires forall d :: d in profiles && d != c ==> after[d] == profiles[d]
    ensures after - {c} == profiles - {c}
  {
  }

  lemma InvKeys(w: World)
    requires Inv(w)
    ensures EmailsMatch(w.state) && w.state.apps.Keys <= w.appIds && w.state.profiles.Keys <= w.candidateIds
  {
  }

  lemma OnlyTheNewBlocks(apps: map<B.AppId, B.App>, a: B.AppId, app: B.App)
    requires |B.Blocking(apps, app.job, app.candidate)| == 0 && app.status != B.Withdrawn
    ensures B.Blocking(apps[a := app], app.job, app.candidate) == {a}
  {
    var before, after := B.Blocking(apps, app.job, app.candidate), B.Blocking(apps[a := app], app.job, app.candidate);
    assert before == {};
    forall b | b in after ensures b == a {
      assert b != a ==> b in before;
    }
  }

  /** Withdrawing undoes the block: the candidate may apply to the job again at once, unless the account cannot be
      linked, which withdrawing does not change. */
  lemma WithdrawThenReapply(w: World, candidate: B.CandidateId, app: B.AppId, again: Event)
    requires Inv(w) && app in w.state.apps && w.state.apps[app].candidate == candidate && w.state.apps[app].status == B.New
    requires again.Apply? && again.job == w.state.apps[app].job && again.upload != B.Refused
    requires w.state.jobs[again.job].status == B.Published
    requires again.user.Some? && again.user.value.email == w.state.profiles[candidate].email
    ensures var v, email := Step(w, Withdraw(candidate, app)), again.user.value.email;
      && v.state.apps[app] == w.state.apps[app].(status := B.Withdrawn)
      && v.state.apps - {app} == w.state.apps - {app}
      && LinkIsRefused(v.state, email, again.user) == LinkIsRefused(w.state, email, again.user)
      && B.Apply(v.state, again.form, again.job, again.upload, again.fallback, again.user, again.newCandidate, again.newApp, again.at).1
           == if LinkIsRefused(w.state, email, again.user) then Err(B.IntegrityError) else Ok(candidate)
  {
    var v, email := Step(w, Withdraw(candidate, app)), again.user.value.email;
    WithdrawnState(w, candidate, app);
    WithdrawFrees(w, candidate, app);
    StepKeepsInv(w, Withdraw(candidate, app));
    EmailIsKnown(w, candidate);
    SameLinkRefusal(w.state, v.state, email, again.user);
    hide Inv, Step, B.Apply, B.IsKnown, Blocks, LinkIsRefused;
    ApplyRefusesExactly(v, again);
    AcceptedFor(v.state, again);
  }

  lemma WithdrawnState(w: World, candidate: B.CandidateId, app: B.AppId)
    requires app in w.state.apps && w.state.apps[app].candidate == candidate && w.state.apps[app].status == B.New
    ensures Step(w, Withdraw(candidate, app)) == w.(state := w.state.(apps := w.state.apps[app := w.state.apps[app].(status := B.Withdrawn)]))
    ensures w.state.apps[app := w.state.apps[app].(status := B.Withdrawn)] - {app} == w.state.apps - {app}
  {
  }

  lemma EmailIsKnown(w: World, candidate: B.CandidateId)
    requires Inv(w) && candidate in w.state.profiles
    ensures B.IsKnown(w.state, w.state.profiles[candidate].email)
    ensures w.state.byEmail[w.state.profiles[candidate].email] == candidate
  {
  }

  lemma SameLinkRefusal(s: B.State, t: B.State, email: string, user: Option<B.SignedIn>)
    requires t.profiles == s.profiles && t.byEmail == s.byEmail
    ensures LinkIsRefused(t, email, user) == LinkIsRefused(s, email, user) && B.IsKnown(t, email) == B.IsKnown(s, email)
  {
  }

  /** The withdrawn application was the pair's only one. */
  lemma WithdrawFrees(w: World, candidate: B.CandidateId, app: B.AppId)
    requires Inv(w) && app in w.state.apps && w.state.apps[app].candidate == candidate && w.state.apps[app].status == B.New
    ensures var t := w.state.(apps := w.state.apps[app := w.state.apps[app].(status := B.Withdrawn)]);
      forall a :: !Blocks(t, a, w.state.apps[app].job, w.state.profiles[candidate].email)
  {
    hide UserKeyHolds;
    var s := w.state;
    var t := s.(apps := s.apps[app := s.apps[app].(status := B.Withdrawn)]);
    forall a ensures !Blocks(t, a, s.apps[app].job, s.profiles[candidate].email) {
      assert a in s.apps && a != app ==> !SamePair(s.apps[a], s.apps[app]);
    }
  }

  lemma AcceptedFor(s: B.State, e: Event)
    requires e.Apply? && B.IsKnown(s, B.EmailOf(e.form, e.user))
    ensures var r := B.Apply(s, e.form, e.job, e.upload, e.fallback, e.user, e.newCandidate, e.newApp, e.at).1;
      r.Ok? ==> r.value == s.byEmail[B.EmailOf(e.form, e.user)]
  {
  }

  lemma EmailChanges(w: World, candidate: B.CandidateId, email: string)
    requires EmailsMatch(w.state) && candidate in w.state.profiles
    requires email != w.state.profiles[candidate].email && !B.IsKnown(w.state, email)
    ensures var s, t := w.state, Step(w, UpdateCandidate(candidate, [B.SetEmail(Some(email))])).state;
      && t == s.(profiles := s.profiles[candidate := s.profiles[candidate].(email := email)], byEmail := t.byEmail)
      && s.profiles[candidate].email !in t.byEmail
  {
    var payload := [B.SetEmail(Some(email))];
    assert payload[..0] == [];
    assert B.AllProfileChanged(w.state.profiles[candidate], payload) == w.state.profiles[candidate].(email := email);
  }

  /** An admin who gives a linked profile another address locks its owner out: the account keeps the old address,
      under which there is no profile any more, and every application of the signed-in owner is refused by the
      unique key, although nothing blocks it. */
  lemma EmailChangeLocksOut(w: World, candidate: B.CandidateId, email: string, apply: Event)
    requires Inv(w) && candidate in w.state.profiles && w.state.profiles[candidate].user.Some?
    requires email != w.state.profiles[candidate].email && !B.IsKnown(w.state, email)
    requires apply.Apply? && apply.user == Some(B.SignedIn(w.state.profiles[candidate].user.value, w.state.profiles[candidate].email))
    requires apply.job in w.state.jobs && w.state.jobs[apply.job].status == B.Published && apply.upload != B.Refused
    requires Admissible(w, apply)
    ensures var change := UpdateCandidate(candidate, [B.SetEmail(Some(email))]);
      var v := Step(w, change).state;
      && v.profiles[candidate] == w.state.profiles[candidate].(email := email)
      && (forall a :: !Blocks(v, a, apply.job, apply.user.value.email))
      && B.Apply(v, apply.form, apply.job, apply.upload, apply.fallback, apply.user, apply.newCandidate, apply.newApp, apply.at)
           == (v, Err(B.IntegrityError))
  {
    var change := UpdateCandidate(candidate, [B.SetEmail(Some(email))]);
    var v := Step(w, change);
    StepKeepsInv(w, change);
    EmailChanges(w, candidate, email);
    hide Step, B.Apply, B.UpdateCandidate;
    NoProfileNoBlock(v.state, apply.job, apply.user.value.email);
    assert v.state.profiles[candidate].user == Some(apply.user.value.id);
    ApplyRefusesExactly(v, apply);
    RefusalChangesNothing(v.state, apply);
  }

  const FORM := B.Form("a@x", "A", None, None, B.NO_ANSWERS)
  const OWNER := Some(B.SignedIn(7, "a@x"))

  /** The shortest such run: a published job, an activated candidate, the admin's change, the application. */
  const LOCKED_OUT := [PutJob(0, B.Job(B.Published, "T", "", None, 0)), LinkProfile("a@x", 7, "A", 0, 0),
                       UpdateCandidate(0, [B.SetEmail(Some("b@x"))])]

  lemma ThreeSteps(w: World, a: Event, b: Event, c: Event)
    ensures Run(w, [a, b, c]) == Step(Step(Step(w, a), b), c)
    ensures AdmissibleRun(w, [a, b, c]) <==> Admissible(w, a) && Admissible(Step(w, a), b) && Admissible(Step(Step(w, a), b), c)
  {
    hide Step, Admissible;
    assert [a, b, c][1..] == [b, c];
    assert [b, c][1..] == [c];
    assert [c][1..] == [];
    assert Run(Step(w, a), [b, c]) == Run(Step(Step(w, a), b), [c]);
    assert AdmissibleRun(Step(w, a), [b, c]) == (Admissible(Step(w, a), b) && AdmissibleRun(Step(Step(w, a), b), [c]));
  }

  lemma LockedOutState()
    ensures var w2 := Step(Step(START, LOCKED_OUT[0]), LOCKED_OUT[1]);
      && w2.state.profiles == map[0 := B.Profile("a@x", "A", None, None, None, Some(7), Some(0))]
      && w2.state.byEmail == map["a@x" := 0] && w2.state.apps == map[]
      && 0 in w2.state.jobs && w2.state.jobs[0].status == B.Published && w2.candidateIds == {0} && w2.appIds == {}
      && Inv(w2)
  {
    var w1 := Step(START, LOCKED_OUT[0]);
    assert Inv(START);
    StepKeepsInv(START, LOCKED_OUT[0]);
    StepKeepsInv(w1, LOCKED_OUT[1]);
  }

  lemma LockedOutRun()
    ensures AdmissibleRun(START, LOCKED_OUT)
    ensures var s := Run(START, LOCKED_OUT).state;
      s.apps == map[] && B.Apply(s, FORM, 0, B.Stored("cv"), None, OWNER, 1, 0, 0) == (s, Err(B.IntegrityError))
  {
    hide Inv, B.Apply, B.UpdateCandidate, B.LinkOrCreate;
    var w2 := Step(Step(START, LOCKED_OUT[0]), LOCKED_OUT[1]);
    ThreeSteps(START, LOCKED_OUT[0], LOCKED_OUT[1], LOCKED_OUT[2]);
    LockedOutState();
    KeepsApps(w2, LOCKED_OUT[2]);
    assert "b@x"[0] != "a@x"[0];
    EmailChangeLocksOut(w2, 0, "b@x", Apply(FORM, 0, B.Stored("cv"), None, OWNER, 1, 0, 0));
  }

  lemma KeepsApps(w: World, e: Event)
    requires e.UpdateCandidate?
    ensures Step(w, e).state.apps == w.state.apps
  {
  }

  /** Two accepted edits are one edit in which the later answers and the later file win; an edit changes nothing
      that the unique index or the closing cascade looks at. */
  lemma EditsCompose(s: B.State, candidate: B.CandidateId, app: B.AppId, first: B.Answers, file: B.Upload, second: B.Answers, later: B.Upload)
    requires B.Edit(s, candidate, app, first, file).1.Ok?
    requires B.Edit(B.Edit(s, candidate, app, first, file).0, candidate, app, second, later).1.Ok?
    ensures var once, twice := B.Edit(s, candidate, app, first, file).0, B.Edit(B.Edit(s, candidate, app, first, file).0, candidate, app, second, later);
      && twice == B.Edit(s, candidate, app, B.Merged(first, second), if later.Stored? then later else if file.Stored? then file else Combined(file, later))
      && (forall job, c :: B.Blocking(once.apps, job, c) == B.Blocking(s.apps, job, c))
      && (forall job :: B.Ending(once.apps, job) == B.Ending(s.apps, job))
  {
    var once := B.Edit(s, candidate, app, first, file).0;
    var twice := B.Edit(once, candidate, app, second, later).0;
    assert once.apps == s.apps[app := once.apps[app]];
    assert twice.apps == s.apps[app := twice.apps[app]];
  }

  /** Whether either edit sent a file at all. */
  function Combined(file: B.Upload, later: B.Upload): B.Upload {
    if file.NoFile? && later.NoFile? then B.NoFile else B.Nameless
  }

  // ---------------------------------------------------------------- withdrawn is final

  /** Withdrawn, or deleted; a given-out id is not given out again. */
  ghost predicate Over(w: World, a: B.AppId, job: B.JobId, candidate: B.CandidateId) {
    && a in w.appIds
    && (a in w.state.apps ==>
          w.state.apps[a].status == B.Withdrawn && w.state.apps[a].job == job && w.state.apps[a].candidate == candidate)
  }

  lemma StepKeepsOver(w: World, e: Event, a: B.AppId, job: B.JobId, candidate: B.CandidateId)
    requires Inv(w) && Admissible(w, e) && Over(w, a, job, candidate)
    ensures Over(Step(w, e), a, job, candidate)
  {
    hide Retention.ForeignKeysHold, EmailsMatch, IndexHolds;
    match e
    case Apply(_, _, _, _, _, _, _, _) => ApplyEffect(w, e);
    case UpdateJob(job, payload, at) => UpdateJobUnblocks(w.state, job, payload, at);
    case Purge(at) => PurgeIsTame(w.state, Retention.EligibleIds(w.state, at - Retention.RETENTION));
    case DeleteJob(_) =>
    case DeleteCandidate(_) =>
    case PutJob(_, _) =>
    case PutProfile(_, _) =>
    case PutAccount(_, _) =>
    case UserDeleted(_) =>
    case LinkProfile(_, _, _, _, _) =>
    case UpdateCandidate(_, _) =>
    case _ => OneAppUnblocks(w.state, e);
  }

  /** Over every run, a withdrawn application stays withdrawn until it is deleted, whoever edits it, whatever
      status the admin asks for, and whatever happens to its job. */
  lemma {:induction false} WithdrawnIsLeftOnlyByDeletion(w: World, events: seq<Event>, a: B.AppId)
    requires Inv(w) && AdmissibleRun(w, events)
    requires a in w.state.apps && w.state.apps[a].status == B.Withdrawn
    ensures var t := Run(w, events).state;
      a in t.apps ==>
        t.apps[a].status == B.Withdrawn && t.apps[a].job == w.state.apps[a].job && t.apps[a].candidate == w.state.apps[a].candidate
  {
    RunKeepsOver(w, events, a, w.state.apps[a].job, w.state.apps[a].candidate);
  }

  lemma {:induction false} RunKeepsOver(w: World, events: seq<Event>, a: B.AppId, job: B.JobId, candidate: B.CandidateId)
    requires Inv(w) && AdmissibleRun(w, events) && Over(w, a, job, candidate)
    ensures Over(Run(w, events), a, job, candidate)
    decreases |events|
  {
    hide Inv, Over;
    if events != [] {
      StepKeepsInv(w, events[0]);
      StepKeepsOver(w, events[0], a, job, candidate);
      RunKeepsOver(Step(w, events[0]), events[1..], a, job, candidate);
    }
  }

  // ---------------------------------------------------------------- the closing cascade

  /** Closing a published job ends exactly its active applications, with one audit row and one email to the
      candidate's address each; any other update of a job touches no application. */
  lemma ClosingEndsTheActive(s: B.State, job: B.JobId, payload: seq<B.Change>, at: Time, a: B.AppId)
    requires job in s.jobs && a in s.apps && s.apps[a].candidate in s.profiles
    ensures var t := B.UpdateJob(s, job, payload, at).0;
      var ends := s.jobs[job].status == B.Published && t.jobs[job].status == B.Closed
        && s.apps[a].job == job && (s.apps[a].status == B.New || s.apps[a].status == B.ApprovedByAdmin);
      var mail := B.JobClosedForCandidate(a, s.profiles[s.apps[a].candidate].email);
      && t.apps.Keys == s.apps.Keys
      && t.apps[a] == (if ends then s.apps[a].(status := B.JobClosed) else s.apps[a])
      && t.audit[B.ClosedByCascade(a, job)] == s.audit[B.ClosedByCascade(a, job)] + (if ends then 1 else 0)
      && t.outbox[mail] == s.outbox[mail] + (if ends then 1 else 0)
  {
    hide B.AllChanged;
    var before := s.jobs[job];
    var after := B.AllChanged(before, payload).(updated := at);
    var mails := B.CompanyMails(job, before, after, B.Labels(before, payload));
    var mail := B.JobClosedForCandidate(a, s.profiles[s.apps[a].candidate].email);
    NoCandidateMail(job, before, after, B.Labels(before, payload), mail);
    if B.IsClosing(before, after) {
      var ending := B.Ending(s.apps, job);
      assert B.ClosedByCascade(a, job) in B.CascadeRows(ending, job) <==> a in ending;
      assert mail in B.CascadeMails(ending, s.apps, s.profiles) <==> a in ending;
    }
  }

  lemma NoCandidateMail(job: B.JobId, before: B.Job, after: B.Job, labels: seq<B.Field>, mail: B.Mail)
    requires mail.JobClosedForCandidate?
    ensures B.CompanyMails(job, before, after, labels)[mail] == 0
  {
  }

  /** The columns that an update of a job names have its values, and the others keep theirs; the job's time of change
      is the update's, and no other job changes. A missing job is told so, and nothing changes. */
  lemma UpdateAppliesItsPayload(s: B.State, job: B.JobId, payload: seq<B.Change>, at: Time)
    requires forall i, j :: 0 <= i < j < |payload| ==> B.FieldOf(payload[i]) != B.FieldOf(payload[j])
    ensures var (t, r) := B.UpdateJob(s, job, payload, at);
      && (r.Ok? <==> job in s.jobs)
      && (r.Err? ==> t == s && r == Err(B.JobNotFound))
      && (r.Ok? ==>
            && t.jobs.Keys == s.jobs.Keys
            && (forall j :: j in s.jobs && j != job ==> t.jobs[j] == s.jobs[j])
            && var before, after := s.jobs[job], t.jobs[job];
            && (forall x :: B.SetTitle(x) in payload ==> after.title == x)
            && (forall x :: B.SetDetails(x) in payload ==> after.details == x)
            && (forall x :: B.SetStatus(x) in payload ==> after.status == x)
            && (after.title != before.title ==> exists x :: B.SetTitle(x) in payload)
            && (after.details != before.details ==> exists x :: B.SetDetails(x) in payload)
            && (after.status != before.status ==> exists x :: B.SetStatus(x) in payload)
            && after.owner == before.owner && after.updated == at
            && t.profiles == s.profiles && t.byEmail == s.byEmail && t.accounts == s.accounts)
  {
    if job in s.jobs {
      var before := s.jobs[job];
      PayloadSticks(before, payload);
      NamedFields(payload);
      UpdatedJob(s, job, payload, at);
      hide B.UpdateJob, Fields;
      var after := B.AllChanged(before, payload);
      forall c | c in payload ensures B.Changed(after, c) == after {
      }
      forall x | B.SetTitle(x) in payload ensures after.title == x {
        assert B.Changed(after, B.SetTitle(x)) == after;
      }
      forall x | B.SetDetails(x) in payload ensures after.details == x {
        assert B.Changed(after, B.SetDetails(x)) == after;
      }
      forall x | B.SetStatus(x) in payload ensures after.status == x {
        assert B.Changed(after, B.SetStatus(x)) == after;
      }
    }
  }

  lemma UpdatedJob(s: B.State, job: B.JobId, payload: seq<B.Change>, at: Time)
    requires job in s.jobs
    ensures var (t, r) := B.UpdateJob(s, job, payload, at);
      && r.Ok? && t.jobs == s.jobs[job := B.AllChanged(s.jobs[job], payload).(updated := at)]
      && t.profiles == s.profiles && t.byEmail == s.byEmail && t.accounts == s.accounts
  {
    hide B.AllChanged, B.CompanyMails, B.Labels;
  }

  lemma NamedFields(payload: seq<B.Change>)
    ensures B.TitleField in Fields(payload) ==> exists x :: B.SetTitle(x) in payload
    ensures B.DetailsField in Fields(payload) ==> exists x :: B.SetDetails(x) in payload
    ensures B.StatusField in Fields(payload) ==> exists x :: B.SetStatus(x) in payload
  {
    forall c | c in payload
      ensures B.FieldOf(c) == B.TitleField ==> B.SetTitle(c.title) in payload
      ensures B.FieldOf(c) == B.DetailsField ==> B.SetDetails(c.details) in payload
      ensures B.FieldOf(c) == B.StatusField ==> B.SetStatus(c.status) in payload
    {
    }
  }

  lemma {:induction false} PayloadSticks(job: B.Job, payload: seq<B.Change>)
    requires forall i, j :: 0 <= i < j < |payload| ==> B.FieldOf(payload[i]) != B.FieldOf(payload[j])
    ensures var after := B.AllChanged(job, payload);
      && (forall c :: c in payload ==> B.Changed(after, c) == after)
      && (B.TitleField !in Fields(payload) ==> after.title == job.title)
      && (B.DetailsField !in Fields(payload) ==> after.details == job.details)
      && (B.StatusField !in Fields(payload) ==> after.status == job.status)
      && after.owner == job.owner
    decreases |payload|
  {
    if payload != [] {
      var front, last := payload[..|payload| - 1], payload[|payload| - 1];
      PayloadSticks(job, front);
      OneMoreChange(front, last);
      assert front + [last] == payload;
      assert forall c :: c in front ==> B.FieldOf(c) != B.FieldOf(last);
      hide Fields;
      LastChange(B.AllChanged(job, front), last);
      forall c | c in payload ensures B.Changed(B.AllChanged(job, payload), c) == B.AllChanged(job, payload) {
        if c != last {
          OthersKeepTheirs(B.AllChanged(job, front), c, last);
        }
      }
    }
  }

  lemma OneMoreChange(front: seq<B.Change>, last: B.Change)
    ensures Fields(front + [last]) == Fields(front) + {B.FieldOf(last)}
    ensures forall c :: c in front + [last] <==> c in front || c == last
  {
  }

  lemma LastChange(job: B.Job, c: B.Change)
    ensures B.Changed(B.Changed(job, c), c) == B.Changed(job, c)
  {
  }

  lemma OthersKeepTheirs(job: B.Job, c: B.Change, last: B.Change)
    requires B.Changed(job, c) == job && B.FieldOf(c) != B.FieldOf(last)
    ensures B.Changed(B.Changed(job, last), c) == B.Changed(job, last)
  {
  }

  function Fields(payload: seq<B.Change>): set<B.Field> {
    set c | c in payload :: B.FieldOf(c)
  }

  lemma {:induction false} LabelsAreTheChanges(job: B.Job, payload: seq<B.Change>, f: B.Field)
    ensures f in B.Labels(job, payload) <==> exists c :: c in payload && Differs(job, c) && B.FieldOf(c) == f
    decreases |payload|
  {
    if payload != [] {
      var front, last := payload[..|payload| - 1], payload[|payload| - 1];
      LabelsAreTheChanges(job, front, f);
      assert forall c :: c in payload <==> c in front || c == last;
    }
  }

  lemma {:induction false} WithoutDropsOne(labels: seq<B.Field>, f: B.Field, g: B.Field)
    ensures g in B.Without(labels, f) <==> g in labels && g != f
    decreases |labels|
  {
    if labels != [] {
      var front, last := labels[..|labels| - 1], labels[|labels| - 1];
      WithoutDropsOne(front, f, g);
      assert forall h :: h in labels <==> h in front || h == last;
    }
  }

  /** The change gives its field another value than the job has. */
  predicate Differs(job: B.Job, c: B.Change) {
    match c
    case SetTitle(x) => x != job.title
    case SetDetails(x) => x != job.details
    case SetStatus(x) => x != job.status
  }

  /** The update gives the field another value, which the company is told of, but for the status of a closing job. */
  ghost predicate IsTold(before: B.Job, payload: seq<B.Change>, closing: bool, f: B.Field) {
    !(closing && f == B.StatusField) && exists c :: c in payload && Differs(before, c) && B.FieldOf(c) == f
  }

  /** Apart from mails to candidates, these tell the company: of the closing once if there is one, and of an edit once
      if some field is told, naming exactly the fields that are; without a user the company is mailed nothing. */
  ghost predicate TellsTheCompany(mails: multiset<B.Mail>, job: B.JobId, before: B.Job, payload: seq<B.Change>, closing: bool) {
    && (forall m :: m in mails && !m.JobClosedForCandidate? ==> before.owner.Some? && IsCompanyMail(m, job, before, payload, closing))
    && (before.owner.Some? ==>
          && mails[B.JobClosedForCompany(job, before.owner.value)] == (if closing then 1 else 0)
          && ((exists m :: m in mails && m.JobEdited?) <==> exists f :: IsTold(before, payload, closing, f))
          && (forall m, n :: m in mails && n in mails && m.JobEdited? && n.JobEdited? ==> m == n && mails[m] == 1))
  }

  ghost predicate IsCompanyMail(m: B.Mail, job: B.JobId, before: B.Job, payload: seq<B.Change>, closing: bool)
    requires before.owner.Some?
  {
    || (m == B.JobClosedForCompany(job, before.owner.value) && closing)
    || (m.JobEdited? && m.job == job && m.to == before.owner.value
        && forall f :: f in m.labels <==> IsTold(before, payload, closing, f))
  }

  /** What an update of a job mails to its company: one notice of closing exactly when a published job becomes closed,
      and one of an edit exactly when another field got a new value. */
  lemma CompanyIsToldExactly(s: B.State, job: B.JobId, payload: seq<B.Change>, at: Time)
    requires job in s.jobs
    ensures var t, before := B.UpdateJob(s, job, payload, at).0, s.jobs[job];
      && job in t.jobs && s.outbox <= t.outbox
      && TellsTheCompany(t.outbox - s.outbox, job, before, payload, before.status == B.Published && t.jobs[job].status == B.Closed)
  {
    var t, before := B.UpdateJob(s, job, payload, at).0, s.jobs[job];
    JobMails(s, job, payload, at);
    var mails := B.CompanyMails(job, before, t.jobs[job], B.Labels(before, payload));
    CompanyMailsExactly(job, before, t.jobs[job], payload);
    hide B.UpdateJob, B.CompanyMails, B.Labels, TellsTheCompany;
    SameTold(mails, t.outbox - s.outbox, job, before, payload, before.status == B.Published && t.jobs[job].status == B.Closed);
  }

  lemma SameTold(mails: multiset<B.Mail>, sent: multiset<B.Mail>, job: B.JobId, before: B.Job, payload: seq<B.Change>, closing: bool)
    requires TellsTheCompany(mails, job, before, payload, closing)
    requires forall m: B.Mail :: !m.JobClosedForCandidate? ==> sent[m] == mails[m]
    ensures TellsTheCompany(sent, job, before, payload, closing)
  {
    hide IsCompanyMail, IsTold;
    assert forall m :: m in mails && m.JobEdited? ==> m in sent;
  }

  lemma CompanyMailsExactly(job: B.JobId, before: B.Job, after: B.Job, payload: seq<B.Change>)
    ensures TellsTheCompany(B.CompanyMails(job, before, after, B.Labels(before, payload)), job, before, payload,
      before.status == B.Published && after.status == B.Closed)
  {
    var labels, closing := B.Labels(before, payload), before.status == B.Published && after.status == B.Closed;
    ToldLabels(before, payload, closing);
    EditedMail(job, before, after, labels);
    hide B.CompanyMails, B.Labels, B.Without, IsTold;
    var mails, told := B.CompanyMails(job, before, after, labels), if closing then B.Without(labels, B.StatusField) else labels;
    if before.owner.Some? {
      if told == [] {
        assert forall f :: f !in told;
      } else {
        assert told[0] in told && B.JobEdited(job, before.owner.value, told) in mails;
      }
      assert forall m :: m in mails ==> IsCompanyMail(m, job, before, payload, closing);
    }
  }

  /** Apart from the candidates' mails, an update of a job sends its company's. */
  lemma JobMails(s: B.State, job: B.JobId, payload: seq<B.Change>, at: Time)
    requires job in s.jobs
    ensures var t := B.UpdateJob(s, job, payload, at).0;
      && job in t.jobs && s.outbox <= t.outbox
      && forall m: B.Mail :: !m.JobClosedForCandidate? ==>
           t.outbox[m] == s.outbox[m] + B.CompanyMails(job, s.jobs[job], t.jobs[job], B.Labels(s.jobs[job], payload))[m]
  {
    hide B.AllChanged, B.CompanyMails, B.Labels;
    var before := s.jobs[job];
    var after := B.AllChanged(before, payload).(updated := at);
  }

  lemma EditedMail(job: B.JobId, before: B.Job, after: B.Job, labels: seq<B.Field>)
    ensures var mails, closing := B.CompanyMails(job, before, after, labels), B.IsClosing(before, after);
      var told := if closing then B.Without(labels, B.StatusField) else labels;
      && (before.owner.None? ==> mails == multiset{})
      && (before.owner.Some? ==>
            && mails[B.JobClosedForCompany(job, before.owner.value)] == (if closing then 1 else 0)
            && mails[B.JobEdited(job, before.owner.value, told)] == (if told != [] then 1 else 0)
            && forall m :: m in mails ==>
                 (m == B.JobClosedForCompany(job, before.owner.value) && closing) || (m == B.JobEdited(job, before.owner.value, told) && told != []))
  {
    hide B.Without;
  }

  /** What the company is told of: the fields with new values, but for a closing status. */
  lemma ToldLabels(before: B.Job, payload: seq<B.Change>, closing: bool)
    ensures var labels := B.Labels(before, payload);
      var told := if closing then B.Without(labels, B.StatusField) else labels;
      forall f :: f in told <==> IsTold(before, payload, closing, f)
  {
    hide B.Labels, B.Without;
    var labels := B.Labels(before, payload);
    var told := if closing then B.Without(labels, B.StatusField) else labels;
    forall f ensures f in told <==> IsTold(before, payload, closing, f) {
      WithoutDropsOne(labels, B.StatusField, f);
      LabelsAreTheChanges(before, payload, f);
    }
  }

  // ---------------------------------------------------------------- the audit log

  /** How often the log records the change of the application from one status to another. */
  function Slot(audit: multiset<B.Audit>, a: B.AppId, x: B.AppStatus, y: B.AppStatus): nat {
    audit[B.StatusChange(a, x, y)]
  }

  function Into(audit: multiset<B.Audit>, a: B.AppId, x: B.AppStatus): nat {
    Slot(audit, a, B.New, x) + Slot(audit, a, B.ApprovedByAdmin, x) + Slot(audit, a, B.Rejected, x)
    + Slot(audit, a, B.Hired, x) + Slot(audit, a, B.Withdrawn, x) + Slot(audit, a, B.JobClosed, x)
  }

  function OutOf(audit: multiset<B.Audit>, a: B.AppId, x: B.AppStatus): nat {
    Slot(audit, a, x, B.New) + Slot(audit, a, x, B.ApprovedByAdmin) + Slot(audit, a, x, B.Rejected)
    + Slot(audit, a, x, B.Hired) + Slot(audit, a, x, B.Withdrawn) + Slot(audit, a, x, B.JobClosed)
  }

  function Is(s: B.State, a: B.AppId, x: B.AppStatus): nat {
    if a in s.apps && s.apps[a].status == x then 1 else 0
  }

  predicate IsVerdict(x: B.AppStatus) {
    x == B.Rejected || x == B.Hired
  }

  ghost predicate Ledger(w: World, a: B.AppId, x: B.AppStatus) {
    && (a in w.state.apps ==> Into(w.state.audit, a, x) == OutOf(w.state.audit, a, x) + Is(w.state, a, x))
    && (a !in w.appIds ==> Into(w.state.audit, a, x) == OutOf(w.state.audit, a, x))
  }

  /** Requests other than the admin's status change record none, and neither give nor take a verdict. */
  ghost predicate KeepsVerdicts(s: B.State, t: B.State, new_: set<B.AppId>) {
    && (forall a, x, y :: t.audit[B.StatusChange(a, x, y)] == s.audit[B.StatusChange(a, x, y)])
    && (forall a :: a in t.apps ==> a in s.apps || a in new_)
    && (forall a :: a in t.apps && a in new_ ==> t.apps[a].status == B.New)
    && (forall a, x :: a in t.apps && a !in new_ && IsVerdict(x) ==> Is(t, a, x) == Is(s, a, x))
  }

  lemma VerdictsKeepLedger(w: World, v: World, new_: set<B.AppId>, a: B.AppId, x: B.AppStatus)
    requires Ledger(w, a, x) && IsVerdict(x) && KeepsVerdicts(w.state, v.state, new_)
    requires v.appIds == w.appIds + new_ && new_ !! w.appIds
    ensures Ledger(v, a, x)
  {
    assert Into(v.state.audit, a, x) == Into(w.state.audit, a, x) && OutOf(v.state.audit, a, x) == OutOf(w.state.audit, a, x);
  }

  lemma SameRowsKeepVerdicts(s: B.State, t: B.State)
    requires t.apps == s.apps && forall a, x, y :: t.audit[B.StatusChange(a, x, y)] == s.audit[B.StatusChange(a, x, y)]
    ensures KeepsVerdicts(s, t, {})
  {
  }

  predicate SparesApps(e: Event) {
    e.UpdateCandidate? || e.LinkProfile? || e.UserDeleted? || e.PutJob? || e.PutProfile? || e.PutAccount?
  }

  lemma SparedApps(w: World, e: Event)
    requires SparesApps(e)
    ensures var t := Step(w, e).state; t.apps == w.state.apps && t.audit == w.state.audit
  {
    hide B.AllProfileChanged, B.HasNull, B.UserIsTaken, B.Unlinked;
  }

  lemma OthersKeepVerdicts(w: World, e: Event)
    requires !e.UpdateStatus? && !e.UpdateJob? && !e.Apply? && !e.Purge?
    ensures KeepsVerdicts(w.state, Step(w, e).state, {})
  {
    if SparesApps(e) {
      hide Step;
      SparedApps(w, e);
      SameRowsKeepVerdicts(w.state, Step(w, e).state);
    } else {
      hide KeepsVerdicts, B.Withdraw, B.Edit, B.DeleteApplication, B.DeleteJob, B.DeleteCandidate;
      if e.Withdraw? || e.Edit? {
        WithdrawKeepsVerdicts(w.state, e.candidate, e.app);
        if e.Edit? {
          EditKeepsVerdicts(w.state, e.candidate, e.app, e.answers, e.upload);
        }
      } else {
        DeletesKeepVerdicts(w.state, e);
      }
    }
  }

  lemma WithdrawKeepsVerdicts(s: B.State, candidate: B.CandidateId, app: B.AppId)
    ensures KeepsVerdicts(s, B.Withdraw(s, candidate, app).0, {})
  {
  }

  lemma EditKeepsVerdicts(s: B.State, candidate: B.CandidateId, app: B.AppId, answers: B.Answers, upload: B.Upload)
    ensures KeepsVerdicts(s, B.Edit(s, candidate, app, answers, upload).0, {})
  {
    hide B.Merged;
  }

  lemma DeletesKeepVerdicts(s: B.State, e: Event)
    ensures e.DeleteApplication? ==> KeepsVerdicts(s, B.DeleteApplication(s, e.app).0, {})
    ensures e.DeleteJob? ==> KeepsVerdicts(s, B.DeleteJob(s, e.job).0, {})
    ensures e.DeleteCandidate? ==> KeepsVerdicts(s, B.DeleteCandidate(s, e.candidate).0, {})
  {
    hide B.EmailsOfOthers;
  }

  lemma PurgeKeepsVerdicts(s: B.State, gone: set<B.CandidateId>)
    ensures KeepsVerdicts(s, Retention.Purged(s, gone), {})
  {
  }

  lemma UpdateJobKeepsVerdicts(s: B.State, job: B.JobId, payload: seq<B.Change>, at: Time)
    ensures KeepsVerdicts(s, B.UpdateJob(s, job, payload, at).0, {})
  {
    hide B.AllChanged, B.CompanyMails, B.CascadeMails;
  }

  lemma ApplyKeepsVerdicts(w: World, e: Event)
    requires Inv(w) && Admissible(w, e) && e.Apply?
    ensures Step(w, e).state == w.state || KeepsVerdicts(w.state, Step(w, e).state, {e.newApp})
  {
    hide Inv, KeepsVerdicts, B.Upsert;
    var s := w.state;
    var (t, r) := B.Apply(s, e.form, e.job, e.upload, e.fallback, e.user, e.newCandidate, e.newApp, e.at);
    if r.Ok? {
      assert EmailsMatch(s) && e.newCandidate !in s.profiles && e.newApp !in s.apps by { FreshIds(w, e); }
      ApplyAdds(s, e.form, e.job, e.upload, e.fallback, e.user, e.newCandidate, e.newApp, e.at);
      ApplyAudits(s, e);
      OneNewApp(s, t, e.newApp);
    } else {
      RefusalChangesNothing(s, e);
    }
  }

  lemma FreshIds(w: World, e: Event)
    requires Inv(w) && Admissible(w, e) && e.Apply?
    ensures EmailsMatch(w.state) && e.newCandidate !in w.state.profiles && e.newApp !in w.state.apps
  {
  }

  lemma ApplyAudits(s: B.State, e: Event)
    requires e.Apply?
    ensures forall a, x, y ::
      B.Apply(s, e.form, e.job, e.upload, e.fallback, e.user, e.newCandidate, e.newApp, e.at).0.audit[B.StatusChange(a, x, y)]
      == s.audit[B.StatusChange(a, x, y)]
  {
  }

  lemma OneNewApp(s: B.State, t: B.State, a: B.AppId)
    requires a !in s.apps && a in t.apps && t.apps == s.apps[a := t.apps[a]] && t.apps[a].status == B.New
    requires forall b, x, y :: t.audit[B.StatusChange(b, x, y)] == s.audit[B.StatusChange(b, x, y)]
    ensures KeepsVerdicts(s, t, {a})
  {
  }

  lemma OneSlotMoves(audit: multiset<B.Audit>, b: B.AppId, from: B.AppStatus, to: B.AppStatus, a: B.AppId, x: B.AppStatus, y: B.AppStatus)
    ensures Slot(audit + multiset{B.StatusChange(b, from, to)}, a, x, y)
      == Slot(audit, a, x, y) + if b == a && from == x && to == y then 1 else 0
  {
  }

  lemma RowComesIn(audit: multiset<B.Audit>, b: B.AppId, from: B.AppStatus, to: B.AppStatus, a: B.AppId, x: B.AppStatus)
    ensures Into(audit + multiset{B.StatusChange(b, from, to)}, a, x) == Into(audit, a, x) + if b == a && to == x then 1 else 0
  {
    var after := audit + multiset{B.StatusChange(b, from, to)};
    hide Slot;
    forall f ensures Slot(after, a, f, x) == Slot(audit, a, f, x) + if b == a && from == f && to == x then 1 else 0 {
      OneSlotMoves(audit, b, from, to, a, f, x);
    }
  }

  lemma RowGoesOut(audit: multiset<B.Audit>, b: B.AppId, from: B.AppStatus, to: B.AppStatus, a: B.AppId, x: B.AppStatus)
    ensures OutOf(audit + multiset{B.StatusChange(b, from, to)}, a, x) == OutOf(audit, a, x) + if b == a && from == x then 1 else 0
  {
    var after := audit + multiset{B.StatusChange(b, from, to)};
    hide Slot;
    forall f ensures Slot(after, a, x, f) == Slot(audit, a, x, f) + if b == a && from == x && to == f then 1 else 0 {
      OneSlotMoves(audit, b, from, to, a, x, f);
    }
  }

  /** An admin's status change moves the counts of the two statuses, and nothing else. */
  lemma StatusChangeMoves(s: B.State, app: B.AppId, status: B.AppStatus, notes: Option<string>, a: B.AppId, x: B.AppStatus)
    ensures var t := B.UpdateStatus(s, app, status, notes).0;
      && t.apps.Keys == s.apps.Keys
      && Into(t.audit, a, x) - OutOf(t.audit, a, x) - Is(t, a, x) == Into(s.audit, a, x) - OutOf(s.audit, a, x) - Is(s, a, x)
  {
    StatusChangeRecords(s, app, status, notes);
    hide Into, OutOf, B.UpdateStatus;
    if app in s.apps && s.apps[app].status != B.Withdrawn && s.apps[app].status != status {
      RowComesIn(s.audit, app, s.apps[app].status, status, a, x);
      RowGoesOut(s.audit, app, s.apps[app].status, status, a, x);
    }
  }

  lemma StatusChangeRecords(s: B.State, app: B.AppId, status: B.AppStatus, notes: Option<string>)
    ensures var t := B.UpdateStatus(s, app, status, notes).0;
      && t.apps.Keys == s.apps.Keys
      && (forall a :: a in s.apps && a != app ==> t.apps[a] == s.apps[a])
      && if app in s.apps && s.apps[app].status != B.Withdrawn && s.apps[app].status != status then
           t.apps[app].status == status && t.audit == s.audit + multiset{B.StatusChange(app, s.apps[app].status, status)}
         else (app in s.apps ==> t.apps[app].status == s.apps[app].status) && t.audit == s.audit
  {
  }

  lemma StatusChangeKeepsLedger(w: World, e: Event, a: B.AppId, x: B.AppStatus)
    requires Ledger(w, a, x) && e.UpdateStatus? && w.state.apps.Keys <= w.appIds
    ensures Ledger(Step(w, e), a, x)
  {
    StatusChangeMoves(w.state, e.app, e.status, e.notes, a, x);
    hide Into, OutOf, Is, B.UpdateStatus;
  }

  lemma ApplyKeepsLedger(w: World, e: Event, a: B.AppId, x: B.AppStatus)
    requires Inv(w) && Admissible(w, e) && Ledger(w, a, x) && IsVerdict(x) && e.Apply?
    ensures Ledger(Step(w, e), a, x)
  {
    hide Ledger, KeepsVerdicts, Inv, B.Apply;
    ApplyKeepsVerdicts(w, e);
    if Step(w, e).state == w.state {
      StillLedger(w, Step(w, e), a, x);
    } else {
      VerdictsKeepLedger(w, Step(w, e), {e.newApp}, a, x);
    }
  }

  lemma StepKeepsLedger(w: World, e: Event, a: B.AppId, x: B.AppStatus)
    requires Inv(w) && Admissible(w, e) && Ledger(w, a, x) && IsVerdict(x)
    ensures Ledger(Step(w, e), a, x)
  {
    hide Ledger, KeepsVerdicts, Admissible, IsVerdict, B.UpdateJob, B.Apply, B.UpdateStatus, Retention.EligibleIds, Retention.Purged;
    if e.UpdateStatus? {
      StatusChangeKeepsLedger(w, e, a, x);
    } else if e.Apply? {
      ApplyKeepsLedger(w, e, a, x);
    } else {
      if e.UpdateJob? {
        UpdateJobKeepsVerdicts(w.state, e.job, e.payload, e.at);
      } else if e.Purge? {
        PurgeKeepsVerdicts(w.state, Retention.EligibleIds(w.state, e.at - Retention.RETENTION));
      } else {
        OthersKeepVerdicts(w, e);
      }
      NoNewIds(w, e);
      VerdictsKeepLedger(w, Step(w, e), {}, a, x);
    }
  }

  lemma NoNewIds(w: World, e: Event)
    requires !e.Apply?
    ensures Step(w, e).appIds == w.appIds + {}
  {
  }

  lemma StillLedger(w: World, v: World, a: B.AppId, x: B.AppStatus)
    requires Ledger(w, a, x) && v.state == w.state && w.appIds <= v.appIds
    ensures Ledger(v, a, x)
  {
  }

  lemma {:induction false} RunKeepsLedger(w: World, events: seq<Event>, a: B.AppId, x: B.AppStatus)
    requires Inv(w) && AdmissibleRun(w, events) && Ledger(w, a, x) && IsVerdict(x)
    ensures Ledger(Run(w, events), a, x)
    decreases |events|
  {
    hide Inv, Ledger;
    if events != [] {
      StepKeepsInv(w, events[0]);
      StepKeepsLedger(w, events[0], a, x);
      RunKeepsLedger(Step(w, events[0]), events[1..], a, x);
    }
  }

  /** In every reachable state the audit log tells which applications are rejected and which led to a hire: the
      recorded changes into that status exceed those out of it by one if it is the application's status, and
      by none if it is not. */
  lemma AuditTellsTheVerdict(events: seq<Event>, a: B.AppId, x: B.AppStatus)
    requires AdmissibleRun(START, events) && (x == B.Rejected || x == B.Hired)
    requires a in Run(START, events).state.apps
    ensures var s := Run(START, events).state;
      Into(s.audit, a, x) == OutOf(s.audit, a, x) + if s.apps[a].status == x then 1 else 0
  {
    RunKeepsLedger(START, events, a, x);
  }
}
