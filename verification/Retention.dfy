/** The purge of candidates past the retention window. */
module Retention {
  import opened Prelude
  import opened Tables
  import opened Recruitment

  const RETENTION: Time := 365 * DAY

  // ---------------------------------------------------------------- the query

  /** An application that keeps its candidate: the job is not closed, or was changed since, or hired the candidate. */
  predicate Preserves(s: State, a: AppId, cutoff: Time)
    requires a in s.apps && s.apps[a].job in s.jobs
  {
    var job := s.jobs[s.apps[a].job];
    job.status != Closed || job.updated >= cutoff || s.apps[a].status == Hired
  }

  /** The subquery, which joins the applications with their jobs. */
  function PreservedIds(s: State, cutoff: Time): set<CandidateId> {
    set a | a in s.apps && s.apps[a].job in s.jobs && Preserves(s, a, cutoff) :: s.apps[a].candidate
  }

  /** The candidates joined with their applications, and not in the subquery. */
  function EligibleIds(s: State, cutoff: Time): set<CandidateId> {
    set a | a in s.apps && s.apps[a].candidate in s.profiles && s.apps[a].candidate !in PreservedIds(s, cutoff)
      :: s.apps[a].candidate
  }

  function PurgeRows(gone: set<CandidateId>): set<Audit> {
    set c | c in gone :: CandidatePurged(c)
  }

  /** The candidates are gone, with their applications, and each left one audit row. */
  function Purged(s: State, gone: set<CandidateId>): State {
    s.(profiles := s.profiles - gone, byEmail := EmailsOfOthers(s.byEmail, gone), apps := AppsOfOthers(s.apps, gone),
       audit := s.audit + multiset(PurgeRows(gone)))
  }

  function Purge(s: State, now: Time): (State, nat) {
    var gone := EligibleIds(s, now - RETENTION);
    (Purged(s, gone), |gone|)
  }

  method PurgeExpiredCandidates(board: Board, now: Time) returns (purged: nat)
    modifies board
    ensures (board.Tables(), purged) == Purge(old(board.Tables()), now)
  {
    hide Purged, EligibleIds;
    var candidates := QueryEligible(board, now - RETENTION);
    var left := candidates;
    purged := 0;
    PurgedNobody(board.Tables());
    assert candidates - left == {};
    while left != {}
      invariant left <= candidates && purged == |candidates| - |left|
      invariant board.Tables() == Purged(old(board.Tables()), candidates - left)
      decreases |left|
    {
      var candidate :| candidate in left;
      OneMorePurged(old(board.Tables()), candidates - left, candidate);
      PurgeOne(board, candidate);
      purged := purged + 1;
      assert candidates - (left - {candidate}) == (candidates - left) + {candidate};
      left := left - {candidate};
    }
    assert candidates - left == candidates;
  }

  /** The applications, the profile, the audit row. */
  method PurgeOne(board: Board, candidate: CandidateId)
    modifies board
    ensures board.Tables() == Purged(old(board.Tables()), {candidate})
  {
    board.DeleteWithApplications(candidate);
    assert PurgeRows({candidate}) == {CandidatePurged(candidate)};
    board.audit := board.audit + multiset{CandidatePurged(candidate)};
  }

  method QueryEligible(board: Board, cutoff: Time) returns (ids: set<CandidateId>)
    ensures ids == EligibleIds(board.Tables(), cutoff)
  {
    var apps, jobs, profiles := board.apps, board.jobs, board.profiles;
    var preserved := set a | a in apps && apps[a].job in jobs &&
      (jobs[apps[a].job].status != Closed || jobs[apps[a].job].updated >= cutoff || apps[a].status == Hired) :: apps[a].candidate;
    assert preserved == PreservedIds(board.Tables(), cutoff);
    ids := set a | a in apps && apps[a].candidate in profiles && apps[a].candidate !in preserved :: apps[a].candidate;
  }

  lemma PurgedNobody(s: State)
    ensures Purged(s, {}) == s
  {
    assert PurgeRows({}) == {};
    assert s.profiles - {} == s.profiles;
    assert EmailsOfOthers(s.byEmail, {}) == s.byEmail;
    assert AppsOfOthers(s.apps, {}) == s.apps;
  }

  lemma OneMorePurged(s: State, gone: set<CandidateId>, c: CandidateId)
    requires c !in gone
    ensures Purged(Purged(s, gone), {c}) == Purged(s, gone + {c})
  {
    hide EmailsOfOthers, AppsOfOthers;
    OneMoreGone(s, gone, c);
    assert s.profiles - gone - {c} == s.profiles - (gone + {c});
    assert PurgeRows({c}) == {CandidatePurged(c)};
    assert PurgeRows(gone + {c}) == PurgeRows(gone) + {CandidatePurged(c)};
    assert CandidatePurged(c) !in PurgeRows(gone);
  }

  lemma OneMoreGone(s: State, gone: set<CandidateId>, c: CandidateId)
    ensures EmailsOfOthers(EmailsOfOthers(s.byEmail, gone), {c}) == EmailsOfOthers(s.byEmail, gone + {c})
    ensures AppsOfOthers(AppsOfOthers(s.apps, gone), {c}) == AppsOfOthers(s.apps, gone + {c})
  {
  }

  // ---------------------------------------------------------------- the rule

  /** The retention rule: the candidate has applied, and everything applied to is over for long enough. */
  ghost predicate Expired(s: State, c: CandidateId, now: Time) {
    && c in s.profiles
    && (exists a :: a in s.apps && s.apps[a].candidate == c)
    && (forall a :: a in s.apps && s.apps[a].candidate == c ==> IsOver(s, a, now))
  }

  ghost predicate IsOver(s: State, a: AppId, now: Time)
    requires a in s.apps
  {
    var job := s.apps[a].job;
    job in s.jobs && s.jobs[job].status == Closed && s.jobs[job].updated < now - 365 * 24 * 60 * 60 * 1000000 && s.apps[a].status != Hired
  }

  ghost predicate ForeignKeysHold(s: State) {
    forall a :: a in s.apps ==> s.apps[a].job in s.jobs && s.apps[a].candidate in s.profiles
  }

  /** The query finds exactly the candidates of the rule. */
  lemma QueryIsTheRule(s: State, c: CandidateId, now: Time)
    requires ForeignKeysHold(s)
    ensures c in EligibleIds(s, now - RETENTION) <==> Expired(s, c, now)
  {
    var cutoff := now - RETENTION;
    if c in EligibleIds(s, cutoff) {
      forall a | a in s.apps && s.apps[a].candidate == c ensures IsOver(s, a, now) {
        assert Preserves(s, a, cutoff) ==> c in PreservedIds(s, cutoff);
      }
    }
    if Expired(s, c, now) {
      forall a | a in s.apps && s.apps[a].candidate == c ensures !Preserves(s, a, cutoff) {
        assert IsOver(s, a, now);
      }
    }
  }

  lemma PurgeRemoves(s: State, gone: set<CandidateId>)
    requires ForeignKeysHold(s)
    ensures var t := Purged(s, gone);
      && t.profiles.Keys == s.profiles.Keys - gone
      && (forall c :: c in t.profiles ==> t.profiles[c] == s.profiles[c])
      && (forall a :: a in t.apps <==> a in s.apps && s.apps[a].candidate !in gone)
      && (forall a :: a in t.apps ==> t.apps[a] == s.apps[a])
      && (forall x :: x in t.byEmail <==> x in s.byEmail && s.byEmail[x] !in gone)
      && (forall x :: x in t.byEmail ==> t.byEmail[x] == s.byEmail[x])
      && t.jobs == s.jobs && t.outbox == s.outbox && t.accounts == s.accounts
      && ForeignKeysHold(t)
  {
  }

  lemma PurgeAudits(s: State, gone: set<CandidateId>)
    ensures var t := Purged(s, gone);
      && (forall c :: t.audit[CandidatePurged(c)] == s.audit[CandidatePurged(c)] + if c in gone then 1 else 0)
      && (forall e: Audit :: !e.CandidatePurged? ==> t.audit[e] == s.audit[e])
  {
    forall c ensures CandidatePurged(c) in PurgeRows(gone) <==> c in gone {
    }
  }

  /** The purge deletes exactly those candidates, with all their applications, and nothing else; the number
      returned is theirs, each leaves one audit row, and no application is left without its candidate. */
  lemma PurgeFollowsTheRule(s: State, now: Time)
    requires ForeignKeysHold(s)
    ensures var (t, n) := Purge(s, now);
      && (forall c :: c in t.profiles <==> c in s.profiles && !Expired(s, c, now))
      && (forall c :: c in t.profiles ==> t.profiles[c] == s.profiles[c])
      && (forall a :: a in t.apps <==> a in s.apps && !Expired(s, s.apps[a].candidate, now))
      && (forall a :: a in t.apps ==> t.apps[a] == s.apps[a])
      && n == |s.profiles.Keys - t.profiles.Keys|
      && (forall x :: x in t.byEmail <==> x in s.byEmail && !Expired(s, s.byEmail[x], now))
      && (forall x :: x in t.byEmail ==> t.byEmail[x] == s.byEmail[x])
      && t.jobs == s.jobs && t.outbox == s.outbox && t.accounts == s.accounts
      && ForeignKeysHold(t)
    ensures forall c :: Purge(s, now).0.audit[CandidatePurged(c)] == s.audit[CandidatePurged(c)] + if Expired(s, c, now) then 1 else 0
    ensures forall e: Audit :: !e.CandidatePurged? ==> Purge(s, now).0.audit[e] == s.audit[e]
  {
    hide Expired, EligibleIds, Purged, ForeignKeysHold;
    var gone := EligibleIds(s, now - RETENTION);
    forall c ensures c in gone <==> Expired(s, c, now) {
      QueryIsTheRule(s, c, now);
    }
    PurgeRemoves(s, gone);
    PurgeAudits(s, gone);
    EligibleExist(s, now - RETENTION);
    assert s.profiles.Keys - Purge(s, now).0.profiles.Keys == gone;
  }

  lemma EligibleExist(s: State, cutoff: Time)
    ensures EligibleIds(s, cutoff) <= s.profiles.Keys
  {
  }

  /** A second purge at the same time finds nobody. */
  lemma SecondPurgeFindsNobody(s: State, now: Time)
    requires ForeignKeysHold(s)
    ensures Purge(Purge(s, now).0, now) == (Purge(s, now).0, 0)
  {
    hide EligibleIds, Purged, ForeignKeysHold;
    var gone := EligibleIds(s, now - RETENTION);
    var t := Purged(s, gone);
    PurgeRemoves(s, gone);
    var again := EligibleIds(t, now - RETENTION);
    forall c ensures c !in again {
      QueryIsTheRule(t, c, now);
      QueryIsTheRule(s, c, now);
      if Expired(t, c, now) {
        StillExpired(s, t, c, now);
      }
    }
    assert again == {};
    PurgedNobody(t);
  }

  lemma StillExpired(s: State, t: State, c: CandidateId, now: Time)
    requires Expired(t, c, now) && c in s.profiles && t.jobs == s.jobs
    requires forall a :: a in s.apps && s.apps[a].candidate == c ==> a in t.apps && t.apps[a] == s.apps[a]
    requires forall a :: a in t.apps ==> a in s.apps && t.apps[a] == s.apps[a]
    ensures Expired(s, c, now)
  {
    forall a | a in s.apps && s.apps[a].candidate == c ensures IsOver(s, a, now) {
      assert IsOver(t, a, now);
    }
  }
}
