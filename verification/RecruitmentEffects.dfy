/** What each request about applications and profiles answers, and what it leaves behind. */
module RecruitmentEffects {
  import opened Prelude
  import opened Tables
  import B = Recruitment
  import Retention
  import opened RecruitmentRuns

  // ---------------------------------------------------------------- applying

  /** Whose application it is: the account's email of a signed-in candidate, else the form's. */
  function Applicant(e: Event): string
    requires e.Apply?
  {
    if e.user.Some? then e.user.value.email else e.form.email
  }

  /** The resume of the application: the upload's, or else the one that was on file. */
  function Resume(e: Event): Option<string>
    requires e.Apply?
  {
    if e.upload.Stored? then Some(e.upload.key) else e.fallback
  }

  /** What the profile is when a candidate without one applies. */
  ghost predicate IsMadeFrom(p: B.Profile, e: Event)
    requires e.Apply?
  {
    && p.email == Applicant(e) && p.fullName == e.form.fullName && p.phone == e.form.phone
    && p.linkedin == e.form.linkedin && p.resume == Resume(e)
    && p.user == (if e.user.Some? then Some(e.user.value.id) else None)
    && p.consentAt == (if e.user.Some? then None else Some(e.at))
  }

  /** And when one with a profile does: what the profile already had, it keeps. */
  ghost predicate IsUpdatedFrom(p: B.Profile, old_: B.Profile, e: Event)
    requires e.Apply?
  {
    && p.email == Applicant(e) && p.fullName == e.form.fullName && p.phone == e.form.phone
    && p.linkedin == (if old_.linkedin.Some? then old_.linkedin else e.form.linkedin)
    && p.resume == (if old_.resume.Some? then old_.resume else Resume(e))
    && p.user == (if old_.user.None? && e.user.Some? then Some(e.user.value.id) else old_.user)
    && p.consentAt == (if e.user.Some? then old_.consentAt else Some(e.at))
  }

  /** An accepted application stores the form's answers and the resume, under the profile of the applicant's email or
      a new one; an anonymous one records both consents, and the applicant is mailed once. */
  lemma AcceptedApplicationIsStored(w: World, e: Event)
    requires Inv(w) && Admissible(w, e) && e.Apply?
    ensures var s := w.state;
      var (t, r) := B.Apply(s, e.form, e.job, e.upload, e.fallback, e.user, e.newCandidate, e.newApp, e.at);
      r.Ok? ==>
        var c := r.value;
        && e.newApp in t.apps && c in t.profiles
        && t.apps[e.newApp] == B.App(e.job, c, B.New, None, e.form.answers, Resume(e))
        && (if exists d :: d in s.profiles && s.profiles[d].email == Applicant(e)
            then c in s.profiles && IsUpdatedFrom(t.profiles[c], s.profiles[c], e)
            else c == e.newCandidate && IsMadeFrom(t.profiles[c], e))
        && t.audit == s.audit + (if e.user.None? then multiset{B.ConsentGiven(c), B.TermsAccepted(c)} else multiset{})
        && t.outbox == s.outbox + multiset{B.ApplicationReceived(e.newApp, Applicant(e))}
        && t.accounts == s.accounts
  {
    var s := w.state;
    var (t, r) := B.Apply(s, e.form, e.job, e.upload, e.fallback, e.user, e.newCandidate, e.newApp, e.at);
    if r.Ok? {
      KnownIff(w, Applicant(e));
      hide B.Upsert, Inv, B.IsKnown, Admissible;
      UpsertStores(s, e);
    }
  }

  /** Before the account is linked. */
  lemma UpsertStores(s: B.State, e: Event)
    requires e.Apply? && B.Upsert(s, e.form, Applicant(e), e.job, Resume(e), e.user.None?, e.newCandidate, e.newApp, e.at).1.Ok?
    ensures var (t, r) := B.Upsert(s, e.form, Applicant(e), e.job, Resume(e), e.user.None?, e.newCandidate, e.newApp, e.at);
      var c := r.value;
      && e.newApp in t.apps && c in t.profiles
      && t.apps[e.newApp] == B.App(e.job, c, B.New, None, e.form.answers, Resume(e))
      && t.audit == s.audit && t.outbox == s.outbox && t.accounts == s.accounts
      && (B.IsKnown(s, Applicant(e)) ==>
            c == s.byEmail[Applicant(e)] && IsUpdatedFrom(t.profiles[c].(user := Linked(s.profiles[c].user, e), email := Applicant(e)), s.profiles[c], e)
            && t.profiles[c].user == s.profiles[c].user && t.profiles[c].email == s.profiles[c].email)
      && (!B.IsKnown(s, Applicant(e)) ==>
            c == e.newCandidate && IsMadeFrom(t.profiles[c].(user := Linked(None, e)), e) && t.profiles[c].user == None)
  {
    hide B.UpsertRefusal;
  }

  function Linked(user: Option<UserId>, e: Event): Option<UserId>
    requires e.Apply?
  {
    if user.None? && e.user.Some? then Some(e.user.value.id) else user
  }

  lemma KnownIff(w: World, email: string)
    requires Inv(w)
    ensures B.IsKnown(w.state, email) <==> exists d :: d in w.state.profiles && w.state.profiles[d].email == email
    ensures B.IsKnown(w.state, email) ==> w.state.profiles[w.state.byEmail[email]].email == email
  {
    forall d | d in w.state.profiles ensures B.IsKnown(w.state, w.state.profiles[d].email) {
      EmailIsKnown(w, d);
    }
  }

  /** Which refusal an application gets before its pair is looked at: the job comes first, then the file, then the
      account that has an anonymous applicant's email. */
  lemma ApplyRefusalsInOrder(s: B.State, e: Event)
    requires e.Apply?
    ensures var r := B.Apply(s, e.form, e.job, e.upload, e.fallback, e.user, e.newCandidate, e.newApp, e.at).1;
      var published := e.job in s.jobs && s.jobs[e.job].status == B.Published;
      var taken := e.user.None? && e.form.email in s.accounts
        && s.accounts[e.form.email].active && s.accounts[e.form.email].isCandidate;
      && (r == Err(B.JobNotFound) <==> !published)
      && (r == Err(B.InvalidFile) <==> published && e.upload == B.Refused)
      && (r == Err(B.EmailAlreadyExists) <==> published && e.upload != B.Refused && taken)
  {
  }

  // ---------------------------------------------------------------- the candidate's own applications

  /** Somebody else's, missing and withdrawn applications answer alike; of the candidate's own only a new one may be
      changed. */
  predicate IsMine(s: B.State, candidate: B.CandidateId, app: B.AppId) {
    app in s.apps && s.apps[app].candidate == candidate && s.apps[app].status != B.Withdrawn
  }

  /** The application became this row, and nothing else changed. */
  ghost predicate OnlyAppIs(s: B.State, t: B.State, app: B.AppId, row: B.App) {
    && t.apps.Keys == s.apps.Keys && app in t.apps && t.apps[app] == row
    && (forall a :: a in s.apps && a != app ==> t.apps[a] == s.apps[a])
    && t.jobs == s.jobs && t.profiles == s.profiles && t.byEmail == s.byEmail && t.accounts == s.accounts
  }

  lemma WithdrawExactly(s: B.State, candidate: B.CandidateId, app: B.AppId)
    ensures var (t, r) := B.Withdraw(s, candidate, app);
      && (r == Err(B.ApplicationNotFound) <==> !IsMine(s, candidate, app))
      && (r == Err(B.NotEditable) <==> IsMine(s, candidate, app) && s.apps[app].status != B.New)
      && (r.Ok? <==> IsMine(s, candidate, app) && s.apps[app].status == B.New)
      && (r.Err? ==> t == s)
      && (r.Ok? ==>
            var row := s.apps[app];
            && OnlyAppIs(s, t, app, B.App(row.job, row.candidate, B.Withdrawn, row.notes, row.answers, row.resume))
            && t.audit == s.audit && t.outbox == s.outbox)
  {
  }

  /** Each answer that an edit gives is stored and each it does not give is kept; so is the resume. Job, candidate,
      status and notes stay. */
  lemma EditExactly(s: B.State, candidate: B.CandidateId, app: B.AppId, edit: B.Answers, upload: B.Upload)
    ensures var (t, r) := B.Edit(s, candidate, app, edit, upload);
      var empty := edit.serviceConcept.None? && edit.salary.None? && edit.strength.None? && edit.growthArea.None? && upload == B.NoFile;
      var mine := IsMine(s, candidate, app);
      && (r == Err(B.ApplicationNotFound) <==> !mine)
      && (r == Err(B.NotEditable) <==> mine && s.apps[app].status != B.New)
      && (r == Err(B.EmptyBody) <==> mine && s.apps[app].status == B.New && empty)
      && (r == Err(B.InvalidFile) <==> mine && s.apps[app].status == B.New && upload == B.Refused)
      && (r.Ok? <==> mine && s.apps[app].status == B.New && !empty && upload != B.Refused)
      && (r.Err? ==> t == s)
      && (r.Ok? ==>
            var row := s.apps[app];
            var answers := B.Answers(
              if edit.serviceConcept.Some? then edit.serviceConcept else row.answers.serviceConcept,
              if edit.salary.Some? then edit.salary else row.answers.salary,
              if edit.strength.Some? then edit.strength else row.answers.strength,
              if edit.growthArea.Some? then edit.growthArea else row.answers.growthArea);
            var resume := if upload.Stored? then Some(upload.key) else row.resume;
            && OnlyAppIs(s, t, app, B.App(row.job, row.candidate, row.status, row.notes, answers, resume))
            && t.audit == s.audit && t.outbox == s.outbox)
  {
  }

  // ---------------------------------------------------------------- the admin's side

  /** A status is set on every application but a withdrawn one; notes are replaced when given. A change of status
      leaves one audit row, and one that newly rejects an email to the candidate. */
  lemma StatusUpdateExactly(w: World, app: B.AppId, status: B.AppStatus, notes: Option<string>)
    requires Inv(w)
    ensures var s := w.state;
      var (t, r) := B.UpdateStatus(s, app, status, notes);
      && (r == Err(B.ApplicationNotFound) <==> app !in s.apps)
      && (r == Err(B.NotEditable) <==> app in s.apps && s.apps[app].status == B.Withdrawn)
      && (r.Ok? <==> app in s.apps && s.apps[app].status != B.Withdrawn)
      && (r.Err? ==> t == s)
      && (r.Ok? ==>
            var row := s.apps[app];
            && row.candidate in s.profiles
            && OnlyAppIs(s, t, app,
                 B.App(row.job, row.candidate, status, if notes.Some? then notes else row.notes, row.answers, row.resume))
            && t.audit == s.audit + (if status != row.status then multiset{B.StatusChange(app, row.status, status)} else multiset{})
            && t.outbox == s.outbox + (if status == B.Rejected && row.status != B.Rejected
                 then multiset{B.ApplicationRejected(app, s.profiles[row.candidate].email)} else multiset{}))
  {
    hide IndexHolds, UserKeyHolds;
  }

  /** Deleting an application, a job or a candidate deletes exactly the applications that go with it, and leaves every
      other row as it was; a missing one changes nothing. */
  lemma ApplicationDeletionExactly(s: B.State, app: B.AppId)
    ensures var (t, r) := B.DeleteApplication(s, app);
      && (r.Ok? <==> app in s.apps) && (r.Err? ==> r == Err(B.ApplicationNotFound))
      && (forall a :: a in t.apps <==> a in s.apps && a != app)
      && (forall a :: a in t.apps ==> t.apps[a] == s.apps[a])
      && t == s.(apps := t.apps)
  {
    if app !in s.apps {
      assert B.DeleteApplication(s, app).0.apps == s.apps;
    }
  }

  lemma JobDeletionExactly(w: World, job: B.JobId)
    requires Inv(w)
    ensures var s := w.state;
      var (t, r) := B.DeleteJob(s, job);
      && (r.Ok? <==> job in s.jobs) && (r.Err? ==> r == Err(B.JobNotFound))
      && (forall j :: j in t.jobs <==> j in s.jobs && j != job)
      && (forall j :: j in t.jobs ==> t.jobs[j] == s.jobs[j])
      && (forall a :: a in t.apps <==> a in s.apps && s.apps[a].job != job)
      && (forall a :: a in t.apps ==> t.apps[a] == s.apps[a])
      && t == s.(jobs := t.jobs, apps := t.apps)
  {
  }

  lemma CandidateDeletionExactly(w: World, candidate: B.CandidateId)
    requires Inv(w)
    ensures var s := w.state;
      var (t, r) := B.DeleteCandidate(s, candidate);
      && (r.Ok? <==> candidate in s.profiles) && (r.Err? ==> r == Err(B.CandidateNotFound) && t == s)
      && (forall c :: c in t.profiles <==> c in s.profiles && c != candidate)
      && (forall c :: c in t.profiles ==> t.profiles[c] == s.profiles[c])
      && (forall x :: x in t.byEmail <==> x in s.byEmail && s.byEmail[x] != candidate)
      && (forall x :: x in t.byEmail ==> t.byEmail[x] == s.byEmail[x])
      && (forall a :: a in t.apps <==> a in s.apps && s.apps[a].candidate != candidate)
      && (forall a :: a in t.apps ==> t.apps[a] == s.apps[a])
      && t.audit == s.audit + (if candidate in s.profiles then multiset{B.CandidateDeleted(candidate)} else multiset{})
      && t.jobs == s.jobs && t.accounts == s.accounts && t.outbox == s.outbox
  {
  }

  /** The column that a change of a profile is about. */
  datatype Column = EmailColumn | NameColumn | PhoneColumn | ResumeColumn | LinkedinColumn

  function ColumnOf(c: B.ProfileChange): Column {
    match c
    case SetEmail(_) => EmailColumn
    case SetFullName(_) => NameColumn
    case SetPhone(_) => PhoneColumn
    case SetResume(_) => ResumeColumn
    case SetLinkedin(_) => LinkedinColumn
  }

  ghost predicate Names(payload: seq<B.ProfileChange>, column: Column) {
    exists c :: c in payload && ColumnOf(c) == column
  }

  ghost predicate OneChangeEach(payload: seq<B.ProfileChange>) {
    forall i, j :: 0 <= i < j < |payload| ==> ColumnOf(payload[i]) != ColumnOf(payload[j])
  }

  /** The columns that an update of a profile names have its values, and the others keep theirs. */
  ghost predicate HasValuesOf(after: B.Profile, before: B.Profile, payload: seq<B.ProfileChange>) {
    && (forall x :: B.SetEmail(Some(x)) in payload ==> after.email == x)
    && (forall x :: B.SetFullName(Some(x)) in payload ==> after.fullName == x)
    && (forall x :: B.SetPhone(x) in payload ==> after.phone == x)
    && (forall x :: B.SetResume(x) in payload ==> after.resume == x)
    && (forall x :: B.SetLinkedin(x) in payload ==> after.linkedin == x)
    && (!Names(payload, EmailColumn) ==> after.email == before.email)
    && (!Names(payload, NameColumn) ==> after.fullName == before.fullName)
    && (!Names(payload, PhoneColumn) ==> after.phone == before.phone)
    && (!Names(payload, ResumeColumn) ==> after.resume == before.resume)
    && (!Names(payload, LinkedinColumn) ==> after.linkedin == before.linkedin)
    && after.user == before.user && after.consentAt == before.consentAt
  }

  /** An accepted update leaves the profile with exactly its values. */
  lemma ProfileUpdateAppliesItsPayload(s: B.State, candidate: B.CandidateId, payload: seq<B.ProfileChange>)
    requires OneChangeEach(payload) && B.UpdateCandidate(s, candidate, payload).1.Ok?
    ensures var t := B.UpdateCandidate(s, candidate, payload).0;
      candidate in s.profiles && candidate in t.profiles && HasValuesOf(t.profiles[candidate], s.profiles[candidate], payload)
  {
    hide HasValuesOf, OneChangeEach;
    ProfilePayloadSticks(s.profiles[candidate], payload);
  }

  lemma {:induction false} ProfilePayloadSticks(p: B.Profile, payload: seq<B.ProfileChange>)
    requires OneChangeEach(payload)
    ensures HasValuesOf(B.AllProfileChanged(p, payload), p, payload)
    decreases |payload|
  {
    hide HasValuesOf, B.ProfileChanged;
    if payload == [] {
      NoChange(p);
    } else {
      var front, last := payload[..|payload| - 1], payload[|payload| - 1];
      ProfilePayloadSticks(p, front);
      assert payload == front + [last];
      OneMoreColumn(B.AllProfileChanged(p, front), p, front, last, payload);
    }
  }

  lemma NoChange(p: B.Profile)
    ensures HasValuesOf(p, p, [])
  {
  }

  lemma OneMoreColumn(q: B.Profile, p: B.Profile, front: seq<B.ProfileChange>, last: B.ProfileChange, payload: seq<B.ProfileChange>)
    requires HasValuesOf(q, p, front) && OneChangeEach(payload) && payload == front + [last]
    ensures HasValuesOf(B.ProfileChanged(q, last), p, payload)
  {
    OnlyLastNames(front, last, payload);
    hide OneChangeEach, Names;
  }

  lemma OnlyLastNames(front: seq<B.ProfileChange>, last: B.ProfileChange, payload: seq<B.ProfileChange>)
    requires OneChangeEach(payload) && payload == front + [last]
    ensures forall c :: c in payload <==> c in front || c == last
    ensures forall c :: c in front ==> ColumnOf(c) != ColumnOf(last)
    ensures forall column :: Names(payload, column) <==> Names(front, column) || ColumnOf(last) == column
  {
    assert forall c :: c in payload <==> c in front || c == last;
    forall c | c in front ensures ColumnOf(c) != ColumnOf(last) {
      var i :| 0 <= i < |front| && front[i] == c;
      assert payload[i] == c && payload[|front|] == last;
    }
  }

  /** Activation's link leaves the profile of the email linked to the user, with a new consent and its other values as
      they were, or a bare one under the given name; an account that another profile carries changes nothing. */
  lemma LinkLeaves(w: World, e: Event)
    requires Inv(w) && Admissible(w, e) && e.LinkProfile?
    ensures var s := w.state;
      var (t, r) := B.LinkOrCreate(s, e.email, e.owner, e.name, e.newCandidate, e.at);
      && (r.Ok? <==> forall c :: c in s.profiles && s.profiles[c].user == Some(e.owner) ==> s.profiles[c].email == e.email)
      && (r.Err? ==> t == s && r == Err(B.IntegrityError))
      && (r.Ok? ==>
            var c := r.value;
            && c in t.profiles && t.profiles.Keys == s.profiles.Keys + {c}
            && (forall d :: d in s.profiles && d != c ==> t.profiles[d] == s.profiles[d])
            && (if exists d :: d in s.profiles && s.profiles[d].email == e.email
                then c in s.profiles && t.profiles[c] == s.profiles[c].(email := e.email, user := Some(e.owner), consentAt := Some(e.at))
                else c == e.newCandidate && t.profiles[c] == B.Profile(e.email, e.name, None, None, None, Some(e.owner), Some(e.at)))
            && t == s.(profiles := t.profiles, byEmail := t.byEmail))
  {
    hide IndexHolds, Retention.ForeignKeysHold;
    KnownIff(w, e.email);
  }

  /** A deleted user's profile stays, unlinked, so that a signed-in applicant may be linked to it again. */
  lemma UserDeletionUnlinks(w: World, user: UserId)
    ensures var s, t := w.state, Step(w, UserDeleted(user)).state;
      && t.profiles.Keys == s.profiles.Keys
      && (forall c :: c in s.profiles ==>
            t.profiles[c] == if s.profiles[c].user == Some(user) then s.profiles[c].(user := None) else s.profiles[c])
      && t == s.(profiles := t.profiles)
  {
  }
}
