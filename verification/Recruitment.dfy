/** Jobs, candidate profiles and applications: what each request does to the tables, and the request bodies. */
module Recruitment {
  import opened Prelude
  import opened Tables

  type JobId = nat
  type CandidateId = nat
  type AppId = nat

  datatype JobStatus = PendingApproval | Published | Closed
  datatype AppStatus = New | ApprovedByAdmin | Rejected | Hired | Withdrawn | JobClosed

  /** `owner` is the email of the company's user, if it has one. */
  datatype Job = Job(status: JobStatus, title: string, details: string, owner: Option<string>, updated: Time)

  datatype Profile = Profile(email: string, fullName: string, phone: Option<string>, linkedin: Option<string>,
                             resume: Option<string>, user: Option<UserId>, consentAt: Option<Time>)

  datatype Answers = Answers(serviceConcept: Option<string>, salary: Option<string>, strength: Option<string>,
                             growthArea: Option<string>)

  datatype App = App(job: JobId, candidate: CandidateId, status: AppStatus, notes: Option<string>, answers: Answers,
                     resume: Option<string>)

  datatype Account = Account(active: bool, isCandidate: bool)

  datatype Audit =
    | StatusChange(app: AppId, from: AppStatus, to: AppStatus)
    | ClosedByCascade(app: AppId, job: JobId)
    | ConsentGiven(candidate: CandidateId)
    | TermsAccepted(candidate: CandidateId)
    | CandidateDeleted(candidate: CandidateId)
    | CandidatePurged(candidate: CandidateId)

  /** The emails deferred until after the commit. */
  datatype Mail =
    | ApplicationReceived(app: AppId, to: string)
    | ApplicationRejected(app: AppId, to: string)
    | JobClosedForCandidate(app: AppId, to: string)
    | JobClosedForCompany(job: JobId, to: string)
    | JobEdited(job: JobId, to: string, labels: seq<Field>)

  /** `byEmail` is the unique index on the profiles' email; `accounts` are the users, by email. The other unique
      key of the profiles is their user. */
  datatype State = State(jobs: map<JobId, Job>, profiles: map<CandidateId, Profile>, byEmail: map<string, CandidateId>,
                         apps: map<AppId, App>, accounts: map<string, Account>,
                         audit: multiset<Audit>, outbox: multiset<Mail>)

  datatype AppError =
    | JobNotFound
    | ApplicationNotFound
    | CandidateNotFound
    | EmailAlreadyExists
    | AlreadyEditable(app: AppId)
    | AlreadyLocked(app: AppId)
    | SeveralRows      // the single-row read found more than one
    | IntegrityError   // a key or a missing value refused the write, and everything was rolled back
    | NotEditable
    | EmptyBody
    | InvalidFile

  // ---------------------------------------------------------------- applying

  /** The uploaded resume: none, one without a file name, one that validation refuses, or where it was stored. */
  datatype Upload = NoFile | Nameless | Refused | Stored(key: string)

  datatype Form = Form(email: string, fullName: string, phone: Option<string>, linkedin: Option<string>, answers: Answers)

  datatype SignedIn = SignedIn(id: UserId, email: string)

  /** The rows of the partial unique index: the pair's applications that were not withdrawn. */
  function Blocking(apps: map<AppId, App>, job: JobId, candidate: CandidateId): set<AppId> {
    set a | a in apps && apps[a].job == job && apps[a].candidate == candidate && apps[a].status != Withdrawn
  }

  function Only(s: set<nat>): (x: nat)
    requires |s| == 1
    ensures s == {x}
  {
    assert s != {};
    assert forall x, y :: x in s && y in s ==> x == y by {
      forall x, y | x in s && y in s ensures x == y {
        Singleton(s, x);
      }
    }
    var x :| x in s;
    Singleton(s, x);
    x
  }

  function BlockedBy(apps: map<AppId, App>, job: JobId, candidate: CandidateId): Option<AppError> {
    var blocking := Blocking(apps, job, candidate);
    if |blocking| == 0 then None
    else if |blocking| > 1 then Some(SeveralRows)
    else if apps[Only(blocking)].status == New then Some(AlreadyEditable(Only(blocking)))
    else Some(AlreadyLocked(Only(blocking)))
  }

  function OrElse<T>(a: Option<T>, b: Option<T>): Option<T> {
    if a.Some? then a else b
  }

  /** Name and phone follow the form; LinkedIn and resume are only filled in where missing. */
  function Refreshed(p: Profile, form: Form, resume: Option<string>): Profile {
    p.(fullName := form.fullName, phone := form.phone, linkedin := OrElse(p.linkedin, form.linkedin), resume := OrElse(p.resume, resume))
  }

  function EmailOf(form: Form, user: Option<SignedIn>): string {
    if user.Some? then user.value.email else form.email
  }

  predicate EmailIsTaken(s: State, email: string) {
    email in s.accounts && s.accounts[email].active && s.accounts[email].isCandidate
  }

  predicate IsKnown(s: State, email: string) {
    email in s.byEmail && s.byEmail[email] in s.profiles
  }

  function UpsertRefusal(s: State, email: string, job: JobId, anonymous: bool): Option<AppError> {
    if anonymous && EmailIsTaken(s, email) then Some(EmailAlreadyExists)
    else if IsKnown(s, email) then BlockedBy(s.apps, job, s.byEmail[email])
    else None
  }

  /** An anonymous application records consent. */
  function Upsert(s: State, form: Form, email: string, job: JobId, resume: Option<string>, anonymous: bool,
      newCandidate: CandidateId, newApp: AppId, now: Time): (State, Result<CandidateId, AppError>)
  {
    var refusal := UpsertRefusal(s, email, job, anonymous);
    if refusal.Some? then (s, Err(refusal.value))
    else
      var candidate := if IsKnown(s, email) then s.byEmail[email] else newCandidate;
      var profile :=
        if IsKnown(s, email) then Refreshed(s.profiles[candidate], form, resume)
        else Profile(email, form.fullName, form.phone, form.linkedin, resume, None, None);
      (s.(profiles := s.profiles[candidate := if anonymous then profile.(consentAt := Some(now)) else profile],
          byEmail := if IsKnown(s, email) then s.byEmail else s.byEmail[email := candidate],
          apps := s.apps[newApp := App(job, candidate, New, None, form.answers, resume)]),
       Ok(candidate))
  }

  /** The unique key on the user: another profile than the candidate's carries it. */
  predicate UserIsTaken(profiles: map<CandidateId, Profile>, candidate: CandidateId, user: UserId) {
    exists c :: c in profiles && c != candidate && profiles[c].user == Some(user)
  }

  /** A signed-in candidate's profile is linked if it is not yet. */
  predicate NeedsLink(profiles: map<CandidateId, Profile>, candidate: CandidateId, user: Option<SignedIn>) {
    user.Some? && candidate in profiles && profiles[candidate].user.None?
  }

  function LinkedTo(profiles: map<CandidateId, Profile>, candidate: CandidateId, user: Option<SignedIn>): map<CandidateId, Profile> {
    if NeedsLink(profiles, candidate, user) then profiles[candidate := profiles[candidate].(user := Some(user.value.id))]
    else profiles
  }

  function Apply(s: State, form: Form, job: JobId, upload: Upload, fallback: Option<string>, user: Option<SignedIn>,
      newCandidate: CandidateId, newApp: AppId, now: Time): (State, Result<CandidateId, AppError>)
  {
    if job !in s.jobs || s.jobs[job].status != Published then (s, Err(JobNotFound))
    else if upload == Refused then (s, Err(InvalidFile))
    else
      var email, resume := EmailOf(form, user), if upload.Stored? then Some(upload.key) else fallback;
      var (t, r) := Upsert(s, form, email, job, resume, user.None?, newCandidate, newApp, now);
      if r.Err? then (t, r)
      else if NeedsLink(t.profiles, r.value, user) && UserIsTaken(t.profiles, r.value, user.value.id) then (s, Err(IntegrityError))
      else
        (t.(profiles := LinkedTo(t.profiles, r.value, user),
            audit := if user.None? then t.audit + multiset{ConsentGiven(r.value), TermsAccepted(r.value)} else t.audit,
            outbox := t.outbox + multiset{ApplicationReceived(newApp, email)}),
         r)
  }

  /** Activation's side of the profile: the one of the email is linked to the user, or a new one made. */
  function LinkOrCreate(s: State, email: string, user: UserId, name: string, newCandidate: CandidateId, now: Time)
    : (State, Result<CandidateId, AppError>)
  {
    var candidate := if IsKnown(s, email) then s.byEmail[email] else newCandidate;
    var profile := if IsKnown(s, email) then s.profiles[candidate] else Profile(email, name, None, None, None, None, None);
    if UserIsTaken(s.profiles, candidate, user) then (s, Err(IntegrityError))
    else
      (s.(profiles := s.profiles[candidate := profile.(user := Some(user), consentAt := Some(now))],
          byEmail := if IsKnown(s, email) then s.byEmail else s.byEmail[email := candidate]),
       Ok(candidate))
  }

  /** The profiles of a deleted user stay, unlinked. */
  function Unlinked(profiles: map<CandidateId, Profile>, user: UserId): map<CandidateId, Profile> {
    map c | c in profiles :: if profiles[c].user == Some(user) then profiles[c].(user := None) else profiles[c]
  }

  /** The fields an admin may set on a profile; a null email or name is refused by the table. */
  datatype ProfileChange =
    | SetEmail(email: Option<string>)
    | SetFullName(fullName: Option<string>)
    | SetPhone(phone: Option<string>)
    | SetResume(resume: Option<string>)
    | SetLinkedin(linkedin: Option<string>)

  function ProfileChanged(p: Profile, c: ProfileChange): Profile {
    match c
    case SetEmail(e) => if e.Some? then p.(email := e.value) else p
    case SetFullName(n) => if n.Some? then p.(fullName := n.value) else p
    case SetPhone(x) => p.(phone := x)
    case SetResume(x) => p.(resume := x)
    case SetLinkedin(x) => p.(linkedin := x)
  }

  function AllProfileChanged(p: Profile, payload: seq<ProfileChange>): Profile {
    if payload == [] then p else ProfileChanged(AllProfileChanged(p, payload[..|payload| - 1]), payload[|payload| - 1])
  }

  predicate HasNull(payload: seq<ProfileChange>) {
    SetEmail(None) in payload || SetFullName(None) in payload
  }

  function UpdateCandidate(s: State, candidate: CandidateId, payload: seq<ProfileChange>): (State, Result<(), AppError>) {
    if candidate !in s.profiles then (s, Err(CandidateNotFound))
    else
      var before := s.profiles[candidate];
      var after := AllProfileChanged(before, payload);
      if HasNull(payload) || (after.email != before.email && IsKnown(s, after.email)) then (s, Err(IntegrityError))
      else
        (s.(profiles := s.profiles[candidate := after],
            byEmail := if after.email == before.email then s.byEmail else (s.byEmail - {before.email})[after.email := candidate]),
         Ok(()))
  }

  // ---------------------------------------------------------------- the candidate's own applications

  /** Somebody else's and withdrawn applications look missing; only new ones can be changed. */
  function NotMine(s: State, candidate: CandidateId, app: AppId): Option<AppError> {
    if app !in s.apps || s.apps[app].candidate != candidate || s.apps[app].status == Withdrawn then Some(ApplicationNotFound)
    else if s.apps[app].status != New then Some(NotEditable)
    else None
  }

  function Withdraw(s: State, candidate: CandidateId, app: AppId): (State, Result<(), AppError>) {
    var refusal := NotMine(s, candidate, app);
    if refusal.Some? then (s, Err(refusal.value))
    else (s.(apps := s.apps[app := s.apps[app].(status := Withdrawn)]), Ok(()))
  }

  function Merged(old_: Answers, edit: Answers): Answers {
    Answers(OrElse(edit.serviceConcept, old_.serviceConcept), OrElse(edit.salary, old_.salary),
      OrElse(edit.strength, old_.strength), OrElse(edit.growthArea, old_.growthArea))
  }

  const NO_ANSWERS := Answers(None, None, None, None)

  function Edit(s: State, candidate: CandidateId, app: AppId, answers: Answers, upload: Upload): (State, Result<(), AppError>) {
    var refusal := NotMine(s, candidate, app);
    if refusal.Some? then (s, Err(refusal.value))
    else if answers == NO_ANSWERS && upload.NoFile? then (s, Err(EmptyBody))
    else if upload.Refused? then (s, Err(InvalidFile))
    else
      var row := s.apps[app];
      (s.(apps := s.apps[app := row.(answers := Merged(row.answers, answers),
            resume := if upload.Stored? then Some(upload.key) else row.resume)]),
       Ok(()))
  }

  // ---------------------------------------------------------------- the admin's side

  function EmailTo(profiles: map<CandidateId, Profile>, candidate: CandidateId): string {
    if candidate in profiles then profiles[candidate].email else ""
  }

  function UpdateStatus(s: State, app: AppId, status: AppStatus, notes: Option<string>): (State, Result<(), AppError>) {
    if app !in s.apps then (s, Err(ApplicationNotFound))
    else if s.apps[app].status == Withdrawn then (s, Err(NotEditable))
    else
      var row := s.apps[app];
      (s.(apps := s.apps[app := row.(status := status, notes := OrElse(notes, row.notes))],
          audit := if status != row.status then s.audit + multiset{StatusChange(app, row.status, status)} else s.audit,
          outbox := if status == Rejected && row.status != Rejected
            then s.outbox + multiset{ApplicationRejected(app, EmailTo(s.profiles, row.candidate))} else s.outbox),
       Ok(()))
  }

  function DeleteApplication(s: State, app: AppId): (State, Result<(), AppError>) {
    if app !in s.apps then (s, Err(ApplicationNotFound)) else (s.(apps := s.apps - {app}), Ok(()))
  }

  datatype Field = TitleField | DetailsField | StatusField

  datatype Change = SetTitle(title: string) | SetDetails(details: string) | SetStatus(status: JobStatus)

  function FieldOf(c: Change): Field {
    match c case SetTitle(_) => TitleField case SetDetails(_) => DetailsField case SetStatus(_) => StatusField
  }

  function Changed(job: Job, c: Change): Job {
    match c
    case SetTitle(t) => job.(title := t)
    case SetDetails(d) => job.(details := d)
    case SetStatus(s) => job.(status := s)
  }

  function AllChanged(job: Job, payload: seq<Change>): Job {
    if payload == [] then job else Changed(AllChanged(job, payload[..|payload| - 1]), payload[|payload| - 1])
  }

  /** The fields whose new value differs from the old. */
  function Labels(job: Job, payload: seq<Change>): seq<Field> {
    if payload == [] then []
    else
      var last := payload[|payload| - 1];
      Labels(job, payload[..|payload| - 1]) + if Changed(job, last) != job then [FieldOf(last)] else []
  }

  function Without(labels: seq<Field>, f: Field): seq<Field> {
    if labels == [] then []
    else Without(labels[..|labels| - 1], f) + if labels[|labels| - 1] == f then [] else [labels[|labels| - 1]]
  }

  predicate IsActive(status: AppStatus) {
    status == New || status == ApprovedByAdmin
  }

  /** The applications that closing the job ends. */
  function Ending(apps: map<AppId, App>, job: JobId): set<AppId> {
    set a | a in apps && apps[a].job == job && IsActive(apps[a].status)
  }

  function WithStatus(apps: map<AppId, App>, some: set<AppId>, status: AppStatus): map<AppId, App> {
    map a | a in apps :: if a in some then apps[a].(status := status) else apps[a]
  }

  function CascadeRows(ended: set<AppId>, job: JobId): set<Audit> {
    set a | a in ended :: ClosedByCascade(a, job)
  }

  function CascadeMails(ended: set<AppId>, apps: map<AppId, App>, profiles: map<CandidateId, Profile>): set<Mail>
    requires ended <= apps.Keys
  {
    set a | a in ended :: JobClosedForCandidate(a, EmailTo(profiles, apps[a].candidate))
  }

  lemma MailsIgnoreStatus(ended: set<AppId>, apps: map<AppId, App>, profiles: map<CandidateId, Profile>)
    requires ended <= apps.Keys
    ensures var after := WithStatus(apps, ended, JobClosed);
      ended <= after.Keys && CascadeMails(ended, after, profiles) == CascadeMails(ended, apps, profiles)
  {
    var after := WithStatus(apps, ended, JobClosed);
    assert after.Keys == apps.Keys;
    assert forall a :: a in ended ==> after[a].candidate == apps[a].candidate;
  }

  lemma NoMails(apps: map<AppId, App>, profiles: map<CandidateId, Profile>)
    ensures CascadeMails({}, apps, profiles) == {}
  {
  }

  lemma OneMoreMail(ended: set<AppId>, a: AppId, apps: map<AppId, App>, profiles: map<CandidateId, Profile>)
    requires ended + {a} <= apps.Keys && a !in ended
    ensures multiset(CascadeMails(ended + {a}, apps, profiles))
      == multiset(CascadeMails(ended, apps, profiles)) + multiset{JobClosedForCandidate(a, EmailTo(profiles, apps[a].candidate))}
  {
    hide EmailTo;
    var mail := JobClosedForCandidate(a, EmailTo(profiles, apps[a].candidate));
    assert CascadeMails(ended + {a}, apps, profiles) == CascadeMails(ended, apps, profiles) + {mail};
  }

  /** Each ended application: its status, one audit row, and one email to its candidate. */
  function Cascaded(s: State, job: JobId): State {
    var ending := Ending(s.apps, job);
    s.(apps := WithStatus(s.apps, ending, JobClosed),
       audit := s.audit + multiset(CascadeRows(ending, job)),
       outbox := s.outbox + multiset(CascadeMails(ending, s.apps, s.profiles)))
  }

  predicate IsClosing(before: Job, after: Job) {
    before.status == Published && after.status == Closed
  }

  function CompanyMails(job: JobId, before: Job, after: Job, labels: seq<Field>): multiset<Mail> {
    var told := if IsClosing(before, after) then Without(labels, StatusField) else labels;
    if before.owner.None? then multiset{}
    else
      (if IsClosing(before, after) then multiset{JobClosedForCompany(job, before.owner.value)} else multiset{})
      + (if told != [] then multiset{JobEdited(job, before.owner.value, told)} else multiset{})
  }

  function UpdateJob(s: State, job: JobId, payload: seq<Change>, now: Time): (State, Result<(), AppError>) {
    if job !in s.jobs then (s, Err(JobNotFound))
    else
      var before := s.jobs[job];
      var after := AllChanged(before, payload).(updated := now);
      var t := s.(jobs := s.jobs[job := after], outbox := s.outbox + CompanyMails(job, before, after, Labels(before, payload)));
      (if IsClosing(before, after) then Cascaded(t, job) else t, Ok(()))
  }

  function DeleteJob(s: State, job: JobId): (State, Result<(), AppError>) {
    if job !in s.jobs then (s, Err(JobNotFound))
    else (s.(jobs := s.jobs - {job}, apps := map a | a in s.apps && s.apps[a].job != job :: s.apps[a]), Ok(()))
  }

  function AppsOfOthers(apps: map<AppId, App>, gone: set<CandidateId>): map<AppId, App> {
    map a | a in apps && apps[a].candidate !in gone :: apps[a]
  }

  function EmailsOfOthers(byEmail: map<string, CandidateId>, gone: set<CandidateId>): map<string, CandidateId> {
    map e | e in byEmail && byEmail[e] !in gone :: byEmail[e]
  }

  function DeleteCandidate(s: State, candidate: CandidateId): (State, Result<(), AppError>) {
    if candidate !in s.profiles then (s, Err(CandidateNotFound))
    else
      (s.(profiles := s.profiles - {candidate}, byEmail := EmailsOfOthers(s.byEmail, {candidate}),
          apps := AppsOfOthers(s.apps, {candidate}), audit := s.audit + multiset{CandidateDeleted(candidate)}),
       Ok(()))
  }

  // ---------------------------------------------------------------- the requests

  class Board {
    var jobs: map<JobId, Job>
    var profiles: map<CandidateId, Profile>
    var byEmail: map<string, CandidateId>
    var apps: map<AppId, App>
    var accounts: map<string, Account>
    var audit: multiset<Audit>
    var outbox: multiset<Mail>

    ghost function Tables(): State
      reads this
    {
      State(jobs, profiles, byEmail, apps, accounts, audit, outbox)
    }

    constructor ()
      ensures Tables() == State(map[], map[], map[], map[], map[], multiset{}, multiset{})
    {
      jobs, profiles, byEmail, apps, accounts := map[], map[], map[], map[], map[];
      audit, outbox := multiset{}, multiset{};
    }

    method CheckNoBlockingApplication(job: JobId, candidate: CandidateId) returns (refusal: Option<AppError>)
      ensures refusal == BlockedBy(apps, job, candidate)
    {
      var rows := set a | a in apps && apps[a].job == job && apps[a].candidate == candidate && apps[a].status != Withdrawn;
      assert rows == Blocking(apps, job, candidate);
      if |rows| == 0 {
        return None;
      }
      if |rows| > 1 {
        return Some(SeveralRows);
      }
      var existing := Only(rows);
      if apps[existing].status == New {
        return Some(AlreadyEditable(existing));
      }
      refusal := Some(AlreadyLocked(existing));
    }

    method CreateCandidateProfile(form: Form, job: JobId, upload: Upload, fallback: Option<string>, user: Option<SignedIn>,
        newCandidate: CandidateId, newApp: AppId, now: Time) returns (r: Result<CandidateId, AppError>)
      modifies this
      ensures (Tables(), r) == Apply(old(Tables()), form, job, upload, fallback, user, newCandidate, newApp, now)
    {
      hide Upsert, LinkedTo, NeedsLink, UserIsTaken;
      var session := (profiles, byEmail, apps);
      if job !in jobs || jobs[job].status != Published {
        return Err(JobNotFound);
      }
      var email := if user.Some? then user.value.email else form.email;
      if upload == Refused {
        return Err(InvalidFile);
      }
      var resume := if upload.Stored? then Some(upload.key) else fallback;
      r := UpsertCandidateAndApplication(form, email, job, resume, user.None?, newCandidate, newApp, now);
      if r.Err? {
        return;
      }
      var candidate := r.value;
      var linked := LinkUser(candidate, user);
      if !linked {
        profiles, byEmail, apps := session.0, session.1, session.2;
        return Err(IntegrityError);
      }
      if user.None? {
        audit := audit + multiset{ConsentGiven(candidate), TermsAccepted(candidate)};
      }
      outbox := outbox + multiset{ApplicationReceived(newApp, email)};
    }

    /** The flush refuses a user that another profile carries. */
    method LinkUser(candidate: CandidateId, user: Option<SignedIn>) returns (ok: bool)
      modifies this`profiles
      ensures ok == !(NeedsLink(old(profiles), candidate, user) && UserIsTaken(old(profiles), candidate, user.value.id))
      ensures profiles == if ok then LinkedTo(old(profiles), candidate, user) else old(profiles)
    {
      if user.Some? && candidate in profiles && profiles[candidate].user.None? {
        if exists c :: c in profiles && c != candidate && profiles[c].user == Some(user.value.id) {
          return false;
        }
        profiles := profiles[candidate := profiles[candidate].(user := Some(user.value.id))];
      }
      ok := true;
    }

    /** A profile that an application finds. */
    method UpdateCandidateProfile(candidate: CandidateId, form: Form, resume: Option<string>)
      requires candidate in profiles
      modifies this`profiles
      ensures profiles == old(profiles)[candidate := Refreshed(old(profiles)[candidate], form, resume)]
    {
      var profile := profiles[candidate].(fullName := form.fullName, phone := form.phone);
      if profile.linkedin.None? && form.linkedin.Some? {
        profile := profile.(linkedin := form.linkedin);
      }
      if profile.resume.None? && resume.Some? {
        profile := profile.(resume := resume);
      }
      profiles := profiles[candidate := profile];
    }

    /** The checks come before anything is changed. */
    method UpsertCandidateAndApplication(form: Form, email: string, job: JobId, resume: Option<string>, anonymous: bool,
        newCandidate: CandidateId, newApp: AppId, now: Time) returns (r: Result<CandidateId, AppError>)
      modifies this`profiles, this`byEmail, this`apps
      ensures (Tables(), r) == Upsert(old(Tables()), form, email, job, resume, anonymous, newCandidate, newApp, now)
    {
      hide BlockedBy, Blocking, Refreshed;
      if anonymous {
        if email in accounts && accounts[email].active && accounts[email].isCandidate {
          return Err(EmailAlreadyExists);
        }
      }
      var candidate := newCandidate;
      if email in byEmail && byEmail[email] in profiles {
        candidate := byEmail[email];
        var refusal := CheckNoBlockingApplication(job, candidate);
        if refusal.Some? {
          return Err(refusal.value);
        }
        ghost var before := profiles;
        UpdateCandidateProfile(candidate, form, resume);
        if anonymous {
          profiles := profiles[candidate := profiles[candidate].(consentAt := Some(now))];
        }
        assert profiles == before[candidate := profiles[candidate]];
      } else {
        var consentAt := if anonymous then Some(now) else None;
        profiles := profiles[candidate := Profile(email, form.fullName, form.phone, form.linkedin, resume, None, consentAt)];
        byEmail := byEmail[email := candidate];
      }
      apps := apps[newApp := App(job, candidate, New, None, form.answers, resume)];
      r := Ok(candidate);
    }

    method UpdateCandidateRequest(candidate: CandidateId, payload: seq<ProfileChange>) returns (r: Result<(), AppError>)
      modifies this`profiles, this`byEmail
      ensures (Tables(), r) == UpdateCandidate(old(Tables()), candidate, payload)
    {
      if candidate !in profiles {
        return Err(CandidateNotFound);
      }
      var before := profiles[candidate];
      var after := SetProfileFields(before, payload);
      if SetEmail(None) in payload || SetFullName(None) in payload {
        return Err(IntegrityError);
      }
      if after.email != before.email {
        if after.email in byEmail && byEmail[after.email] in profiles {
          return Err(IntegrityError);
        }
        byEmail := (byEmail - {before.email})[after.email := candidate];
      }
      profiles := profiles[candidate := after];
      r := Ok(());
    }

    static method SetProfileFields(before: Profile, payload: seq<ProfileChange>) returns (after: Profile)
      ensures after == AllProfileChanged(before, payload)
    {
      after := before;
      var i := 0;
      while i < |payload|
        invariant 0 <= i <= |payload|
        invariant after == AllProfileChanged(before, payload[..i])
      {
        assert payload[..i + 1][..i] == payload[..i];
        after := ProfileChanged(after, payload[i]);
        i := i + 1;
      }
      assert payload[..|payload|] == payload;
    }

    method WithdrawMyApplication(candidate: CandidateId, app: AppId) returns (r: Result<(), AppError>)
      modifies this`apps
      ensures (Tables(), r) == Withdraw(old(Tables()), candidate, app)
    {
      if app !in apps || apps[app].candidate != candidate {
        return Err(ApplicationNotFound);
      }
      if apps[app].status == Withdrawn {
        return Err(ApplicationNotFound);
      }
      if apps[app].status != New {
        return Err(NotEditable);
      }
      apps := apps[app := apps[app].(status := Withdrawn)];
      r := Ok(());
    }

    method EditMyApplication(candidate: CandidateId, app: AppId, answers: Answers, upload: Upload) returns (r: Result<(), AppError>)
      modifies this`apps
      ensures (Tables(), r) == Edit(old(Tables()), candidate, app, answers, upload)
    {
      if app !in apps || apps[app].candidate != candidate {
        return Err(ApplicationNotFound);
      }
      var row := apps[app];
      if row.status == Withdrawn {
        return Err(ApplicationNotFound);
      }
      if row.status != New {
        return Err(NotEditable);
      }
      var hasText := answers.serviceConcept.Some? || answers.salary.Some? || answers.strength.Some? || answers.growthArea.Some?;
      if !hasText && upload.NoFile? {
        return Err(EmptyBody);
      }
      if answers.serviceConcept.Some? {
        row := row.(answers := row.answers.(serviceConcept := answers.serviceConcept));
      }
      if answers.salary.Some? {
        row := row.(answers := row.answers.(salary := answers.salary));
      }
      if answers.strength.Some? {
        row := row.(answers := row.answers.(strength := answers.strength));
      }
      if answers.growthArea.Some? {
        row := row.(answers := row.answers.(growthArea := answers.growthArea));
      }
      if upload.Refused? {
        return Err(InvalidFile);
      }
      if upload.Stored? {
        row := row.(resume := Some(upload.key));
      }
      apps := apps[app := row];
      r := Ok(());
    }

    method UpdateApplicationStatus(app: AppId, status: AppStatus, notes: Option<string>) returns (r: Result<(), AppError>)
      modifies this`apps, this`audit, this`outbox
      ensures (Tables(), r) == UpdateStatus(old(Tables()), app, status, notes)
    {
      if app !in apps {
        return Err(ApplicationNotFound);
      }
      var row := apps[app];
      var before := row.status;
      if before == Withdrawn {
        return Err(NotEditable);
      }
      row := row.(status := status);
      if notes.Some? {
        row := row.(notes := notes);
      }
      apps := apps[app := row];
      if before != status {
        audit := audit + multiset{StatusChange(app, before, status)};
      }
      if status == Rejected && before != Rejected {
        outbox := outbox + multiset{ApplicationRejected(app, EmailTo(profiles, row.candidate))};
      }
      r := Ok(());
    }

    method DeleteApplicationRequest(app: AppId) returns (r: Result<(), AppError>)
      modifies this`apps
      ensures (Tables(), r) == DeleteApplication(old(Tables()), app)
    {
      if app !in apps {
        return Err(ApplicationNotFound);
      }
      apps := apps - {app};
      r := Ok(());
    }

    method UpdateJobRequest(job: JobId, payload: seq<Change>, now: Time) returns (r: Result<(), AppError>)
      modifies this
      ensures (Tables(), r) == UpdateJob(old(Tables()), job, payload, now)
    {
      if job !in jobs {
        return Err(JobNotFound);
      }
      var before := jobs[job];
      var after, labels := SetFields(before, payload);
      after := after.(updated := now);
      jobs := jobs[job := after];
      NotifyCompany(job, before, after, labels);
      if before.status == Published && after.status == Closed {
        CloseActiveApplications(job);
      }
      r := Ok(());
    }

    static method SetFields(before: Job, payload: seq<Change>) returns (after: Job, labels: seq<Field>)
      ensures after == AllChanged(before, payload) && labels == Labels(before, payload)
    {
      after, labels := before, [];
      var i := 0;
      while i < |payload|
        invariant 0 <= i <= |payload|
        invariant labels == Labels(before, payload[..i])
        invariant after == AllChanged(before, payload[..i])
      {
        assert payload[..i + 1][..i] == payload[..i];
        if Changed(before, payload[i]) != before {
          labels := labels + [FieldOf(payload[i])];
        }
        after := Changed(after, payload[i]);
        i := i + 1;
      }
      assert payload[..|payload|] == payload;
    }

    method NotifyCompany(job: JobId, before: Job, after: Job, labels: seq<Field>)
      modifies this`outbox
      ensures outbox == old(outbox) + CompanyMails(job, before, after, labels)
    {
      var closing := before.status == Published && after.status == Closed;
      if before.owner.Some? {
        if closing {
          outbox := outbox + multiset{JobClosedForCompany(job, before.owner.value)};
        }
        var told := if closing then Without(labels, StatusField) else labels;
        if told != [] {
          outbox := outbox + multiset{JobEdited(job, before.owner.value, told)};
        }
      }
    }

    method CloseActiveApplications(job: JobId)
      modifies this`apps, this`audit, this`outbox
      ensures apps == WithStatus(old(apps), Ending(old(apps), job), JobClosed)
      ensures audit == old(audit) + multiset(CascadeRows(Ending(old(apps), job), job))
      ensures outbox == old(outbox) + multiset(CascadeMails(Ending(old(apps), job), old(apps), profiles))
    {
      hide WithStatus, CascadeRows, CascadeMails;
      var rows := Ending(apps, job);
      MailsIgnoreStatus(rows, apps, profiles);
      CloseRows(rows);
      RecordCascade(rows, job);
      MailCascade(rows);
    }

    method CloseRows(rows: set<AppId>)
      requires rows <= apps.Keys
      modifies this`apps
      ensures apps == WithStatus(old(apps), rows, JobClosed) && apps.Keys == old(apps).Keys
    {
      var left := rows;
      while left != {}
        invariant left <= rows && apps.Keys == old(apps).Keys
        invariant apps == WithStatus(old(apps), rows - left, JobClosed)
        decreases |left|
      {
        var a :| a in left;
        apps := apps[a := apps[a].(status := JobClosed)];
        left := left - {a};
        assert apps == WithStatus(old(apps), rows - left, JobClosed);
      }
      assert rows - left == rows;
    }

    method RecordCascade(rows: set<AppId>, job: JobId)
      modifies this`audit
      ensures audit == old(audit) + multiset(CascadeRows(rows, job))
    {
      var left := rows;
      assert CascadeRows(rows - left, job) == {};
      while left != {}
        invariant left <= rows
        invariant audit == old(audit) + multiset(CascadeRows(rows - left, job))
        decreases |left|
      {
        var a :| a in left;
        audit := audit + multiset{ClosedByCascade(a, job)};
        assert CascadeRows(rows - (left - {a}), job) == CascadeRows(rows - left, job) + {ClosedByCascade(a, job)};
        left := left - {a};
      }
      assert rows - left == rows;
    }

    method MailCascade(rows: set<AppId>)
      requires rows <= apps.Keys
      modifies this`outbox
      ensures outbox == old(outbox) + multiset(CascadeMails(rows, apps, profiles))
    {
      hide EmailTo, CascadeMails;
      NoMails(apps, profiles);
      var left := rows;
      assert rows - left == {};
      while left != {}
        invariant left <= rows
        invariant outbox == old(outbox) + multiset(CascadeMails(rows - left, apps, profiles))
        decreases |left|
      {
        var a :| a in left;
        var mail := JobClosedForCandidate(a, EmailTo(profiles, apps[a].candidate));
        outbox := outbox + multiset{mail};
        assert rows - (left - {a}) == (rows - left) + {a};
        OneMoreMail(rows - left, a, apps, profiles);
        left := left - {a};
      }
      assert rows - left == rows;
    }

    method DeleteJobRequest(job: JobId) returns (r: Result<(), AppError>)
      modifies this`jobs, this`apps
      ensures (Tables(), r) == DeleteJob(old(Tables()), job)
    {
      if job !in jobs {
        return Err(JobNotFound);
      }
      apps := map a | a in apps && apps[a].job != job :: apps[a];
      jobs := jobs - {job};
      r := Ok(());
    }

    method DeleteCandidateRequest(candidate: CandidateId) returns (r: Result<(), AppError>)
      modifies this`profiles, this`byEmail, this`apps, this`audit
      ensures (Tables(), r) == DeleteCandidate(old(Tables()), candidate)
    {
      if candidate !in profiles {
        return Err(CandidateNotFound);
      }
      DeleteWithApplications(candidate);
      audit := audit + multiset{CandidateDeleted(candidate)};
      r := Ok(());
    }

    /** First the applications, then the profile. */
    method DeleteWithApplications(candidate: CandidateId)
      modifies this`profiles, this`byEmail, this`apps
      ensures profiles == old(profiles) - {candidate}
      ensures byEmail == EmailsOfOthers(old(byEmail), {candidate})
      ensures apps == AppsOfOthers(old(apps), {candidate})
    {
      apps := map a | a in apps && apps[a].candidate != candidate :: apps[a];
      profiles := profiles - {candidate};
      byEmail := map e | e in byEmail && byEmail[e] != candidate :: byEmail[e];
    }
  }
}
