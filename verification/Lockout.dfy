/** The login guard of one account: a counter of wrong passwords and a timed lock. */
module Lockout {
  import opened Prelude
  import opened Tables

  const MAX_FAILED_ATTEMPTS := 5
  const LOCKOUT_DURATION: Time := 15 * MINUTE

  datatype Guard = Guard(failed: nat, lockedUntil: Option<Time>)

  const CLEARED := Guard(0, None)

  datatype Answer =
    | Locked(minutesRemaining: int)
    | WrongPassword
    | PendingActivation
    | PendingApproval
    | SeveralTokens   // more than one unused activation token: the single-row read fails
    | Welcome

  predicate IsLocked(g: Guard, now: Time) {
    g.lockedUntil.Some? && g.lockedUntil.value > now
  }

  /** Rounded up to whole minutes. */
  function MinutesRemaining(until: Time, now: Time): int {
    (until - now + MINUTE - 1) / MINUTE
  }

  function Failed(g: Guard, lockAt: Time): Guard {
    if g.failed + 1 >= MAX_FAILED_ATTEMPTS then Guard(0, Some(lockAt + LOCKOUT_DURATION)) else g.(failed := g.failed + 1)
  }

  /** One login: the clock is read for the lock at `now`, and again at `lockAt` when the fifth failure locks. */
  function Authenticate(g: Guard, correct: bool, active: bool, unusedTokens: nat, now: Time, lockAt: Time): (Guard, Answer) {
    if IsLocked(g, now) then (g, Locked(MinutesRemaining(g.lockedUntil.value, now)))
    else if !correct then (Failed(g, lockAt), WrongPassword)
    else if active then (CLEARED, Welcome)
    else (g, if unusedTokens == 0 then PendingApproval else if unusedTokens == 1 then PendingActivation else SeveralTokens)
  }

  /** The guard's two columns of a user row. */
  class Account {
    var failedAttempts: nat
    var lockedUntil: Option<Time>
    var password: string
    var active: bool

    ghost function State(): Guard
      reads this
    {
      Guard(failedAttempts, lockedUntil)
    }

    constructor (password: string, active: bool)
      ensures State() == CLEARED && this.password == password && this.active == active
    {
      this.failedAttempts, this.lockedUntil, this.password, this.active := 0, None, password, active;
    }

    method RecordFailedAttempt(lockAt: Time)
      modifies this`failedAttempts, this`lockedUntil
      ensures State() == Failed(old(State()), lockAt)
    {
      failedAttempts := failedAttempts + 1;
      var count := failedAttempts;
      if count >= MAX_FAILED_ATTEMPTS {
        failedAttempts, lockedUntil := 0, Some(lockAt + LOCKOUT_DURATION);
      }
    }

    method ClearFailedAttempts()
      modifies this`failedAttempts, this`lockedUntil
      ensures State() == CLEARED
    {
      failedAttempts, lockedUntil := 0, None;
    }

    method AuthenticateUser(attempt: string, unusedTokens: nat, now: Time, lockAt: Time) returns (answer: Answer)
      modifies this`failedAttempts, this`lockedUntil
      ensures (State(), answer) == Authenticate(old(State()), attempt == password, active, unusedTokens, now, lockAt)
    {
      if lockedUntil.Some? {
        if lockedUntil.value > now {
          return Locked(MinutesRemaining(lockedUntil.value, now));
        }
      }
      if attempt != password {
        RecordFailedAttempt(lockAt);
        return WrongPassword;
      }
      if !active {
        if unusedTokens > 1 {
          return SeveralTokens;
        }
        return if unusedTokens == 1 then PendingActivation else PendingApproval;
      }
      ClearFailedAttempts();
      answer := Welcome;
    }
  }

  // ---------------------------------------------------------------- what a login is told

  /** Which answer each login gets, and what it leaves of the guard: a lock is read before the password, the password
      before the activity. A wrong password counts, and the fifth locks for fifteen minutes; only a welcome clears. */
  lemma AnswersExactly(g: Guard, correct: bool, active: bool, unusedTokens: nat, now: Time, lockAt: Time)
    ensures var answer := Authenticate(g, correct, active, unusedTokens, now, lockAt).1;
      var locked := g.lockedUntil.Some? && now < g.lockedUntil.value;
      && (answer.Locked? <==> locked)
      && (answer == WrongPassword <==> !locked && !correct)
      && (answer == Welcome <==> !locked && correct && active)
      && (answer == PendingActivation <==> !locked && correct && !active && unusedTokens == 1)
      && (answer == PendingApproval <==> !locked && correct && !active && unusedTokens == 0)
      && (answer == SeveralTokens <==> !locked && correct && !active && unusedTokens > 1)
    ensures var (h, answer) := Authenticate(g, correct, active, unusedTokens, now, lockAt);
      && (answer == Welcome ==> h.failed == 0 && h.lockedUntil == None)
      && (answer == WrongPassword ==>
            h == if g.failed < 4 then Guard(g.failed + 1, g.lockedUntil) else Guard(0, Some(lockAt + 15 * 60 * 1000000)))
      && (answer != Welcome && answer != WrongPassword ==> h == g)
  {
  }

  // ---------------------------------------------------------------- runs

  /** `Cleared` is the hook that runs after a password reset. */
  datatype Event =
    | Attempt(correct: bool, active: bool, unusedTokens: nat, at: Time, lockAt: Time)
    | Cleared(at: Time)

  function Step(g: Guard, e: Event): Guard {
    match e
    case Attempt(correct, active, unusedTokens, at, lockAt) => Authenticate(g, correct, active, unusedTokens, at, lockAt).0
    case Cleared(_) => CLEARED
  }

  function Run(g: Guard, events: seq<Event>): Guard
    decreases |events|
  {
    if events == [] then g else Run(Step(g, events[0]), events[1..])
  }

  function EndOf(e: Event): Time {
    if e.Attempt? then e.lockAt else e.at
  }

  /** The clock does not go back. */
  predicate Ordered(clock: Time, events: seq<Event>)
    decreases |events|
  {
    events != [] ==> clock <= events[0].at <= EndOf(events[0]) && Ordered(EndOf(events[0]), events[1..])
  }

  /** A wrong password that reaches the password check. */
  predicate Fails(g: Guard, e: Event) {
    e.Attempt? && !IsLocked(g, e.at) && !e.correct
  }

  predicate Clears(g: Guard, e: Event) {
    e.Cleared? || (!IsLocked(g, e.at) && e.correct && e.active)
  }

  predicate NoClears(g: Guard, events: seq<Event>)
    decreases |events|
  {
    events != [] ==> !Clears(g, events[0]) && NoClears(Step(g, events[0]), events[1..])
  }

  /** When the wrong passwords of a run reached the password check. */
  function FailureTimes(g: Guard, events: seq<Event>): seq<Time>
    decreases |events|
  {
    if events == [] then []
    else (if Fails(g, events[0]) then [events[0].at] else []) + FailureTimes(Step(g, events[0]), events[1..])
  }

  /** Nothing can reach the password check before `from`. */
  ghost predicate Blocked(g: Guard, clock: Time, from: Time) {
    from <= clock || (g.lockedUntil.Some? && from <= g.lockedUntil.value)
  }

  /** The time that n locks take. */
  function Locks(n: nat): Time {
    LOCKOUT_DURATION * n
  }

  lemma OneMoreLock(n: nat)
    ensures Locks(n + 1) == LOCKOUT_DURATION + Locks(n) && Locks(0) == 0
  {
  }

  /** The time that the locks among the first k failures take. */
  function LockTime(k: nat): Time {
    Locks(k / MAX_FAILED_ATTEMPTS)
  }

  lemma LockTimeSteps(k: nat)
    ensures LockTime(k + 5) == LOCKOUT_DURATION + LockTime(k)
    ensures k < 5 ==> LockTime(k) == 0
  {
    hide Locks;
    assert (k + 5) / 5 == k / 5 + 1;
    OneMoreLock(k / 5);
  }

  /** Every fifth failure costs a lock: the j-th failure from now comes (failed + j) / 5 locks after `from`. */
  lemma {:induction false} FailuresAreSpread(g: Guard, clock: Time, from: Time, events: seq<Event>, j: nat)
    requires g.failed < MAX_FAILED_ATTEMPTS && Ordered(clock, events) && NoClears(g, events) && Blocked(g, clock, from)
    requires j < |FailureTimes(g, events)|
    ensures FailureTimes(g, events)[j] >= from + LockTime(g.failed + j)
    decreases |events|
  {
    hide FailureTimes, NoClears, Ordered, LockTime;
    NoEvents(g, clock);
    var e, rest := events[0], events[1..];
    var h := Step(g, e);
    FirstEvent(g, clock, events);
    if !Fails(g, e) {
      FailuresAreSpread(h, EndOf(e), from, rest, j);
    } else {
      FailedOnce(g, e, clock, from);
      LockTimeSteps(g.failed);
      if j > 0 {
        var next := if h.failed == 0 then e.at + LOCKOUT_DURATION else e.at;
        FailuresAreSpread(h, EndOf(e), next, rest, j - 1);
        LockTimeSteps(j - 1);
        assert h.failed == 0 ==> g.failed + j == j - 1 + 5;
      }
    }
  }

  lemma FailedOnce(g: Guard, e: Event, clock: Time, from: Time)
    requires g.failed < MAX_FAILED_ATTEMPTS && Fails(g, e) && clock <= e.at <= EndOf(e) && Blocked(g, clock, from)
    ensures var h := Step(g, e);
      && from <= e.at
      && (if g.failed == 4 then h.failed == 0 && Blocked(h, EndOf(e), e.at + LOCKOUT_DURATION)
          else h.failed == g.failed + 1 && Blocked(h, EndOf(e), e.at))
  {
  }

  lemma FirstEvent(g: Guard, clock: Time, events: seq<Event>)
    requires events != [] && Ordered(clock, events) && NoClears(g, events)
    ensures var e, rest, h := events[0], events[1..], Step(g, events[0]);
      && clock <= e.at <= EndOf(e) && Ordered(EndOf(e), rest)
      && !Clears(g, e) && NoClears(h, rest)
      && FailureTimes(g, events) == (if Fails(g, e) then [e.at] else []) + FailureTimes(h, rest)
  {
  }

  /** Between two clears, the wrong passwords that reach the check in any stretch of logins: from the first to
      the last of them the time L passes, and they number at most 5 * (L / 15min + 1). */
  lemma {:induction false} FailuresInAnyStretch(g: Guard, clock: Time, events: seq<Event>)
    requires g.failed < MAX_FAILED_ATTEMPTS && Ordered(clock, events) && NoClears(g, events)
    requires FailureTimes(g, events) != []
    ensures var f := FailureTimes(g, events);
      |f| <= 5 * ((f[|f| - 1] - f[0]) / (15 * 60 * 1000000) + 1)
    decreases |events|
  {
    hide FailureTimes, NoClears, Ordered, LockTime;
    NoEvents(g, clock);
    var f, e := FailureTimes(g, events), events[0];
    FirstEvent(g, clock, events);
    if Fails(g, e) {
      var n := |f| - 1;
      OrderedFrom(clock, events);
      FailuresAreSpread(g, e.at, e.at, events, n);
      LocksInSpan(f[n] - f[0], g.failed, n);
    } else {
      FailuresInAnyStretch(Step(g, e), EndOf(e), events[1..]);
    }
  }

  lemma OrderedFrom(clock: Time, events: seq<Event>)
    requires events != [] && Ordered(clock, events)
    ensures Ordered(events[0].at, events)
  {
  }

  lemma LocksInSpan(span: int, failed: nat, n: nat)
    requires span >= LockTime(failed + n)
    ensures n + 1 <= 5 * (span / LOCKOUT_DURATION + 1)
  {
    var locks := (failed + n) / 5;
    SpanBound(span, locks);
    assert n / 5 <= locks;
  }

  lemma SpanBound(span: int, locks: nat)
    requires span >= LOCKOUT_DURATION * locks
    ensures span / LOCKOUT_DURATION >= locks
  {
  }

  function Burst(at: Time): (events: seq<Event>)
    ensures |events| == 5
  {
    var wrong := Attempt(false, true, 0, at, at);
    [wrong, wrong, wrong, wrong, wrong]
  }

  /** Which is reached: five failures at once, again as soon as each lock ends. */
  function Bursts(at: Time, more: nat): (events: seq<Event>)
    ensures |events| >= 5
    decreases more
  {
    Burst(at) + if more == 0 then [] else Bursts(at + LOCKOUT_DURATION, more - 1)
  }

  lemma FiveFailures(g: Guard, at: Time, rest: seq<Event>)
    requires g.failed == 0 && !IsLocked(g, at)
    ensures var h := Guard(0, Some(at + LOCKOUT_DURATION));
      var events := Burst(at) + rest;
      && FailureTimes(g, events) == [at, at, at, at, at] + FailureTimes(h, rest)
      && (NoClears(g, events) <==> NoClears(h, rest))
      && (Ordered(at, events) <==> Ordered(at, rest))
  {
    var wrong := Attempt(false, true, 0, at, at);
    OneFailure(g.(failed := 4), at, rest);
    OneFailure(g.(failed := 3), at, [wrong] + rest);
    OneFailure(g.(failed := 2), at, [wrong] + ([wrong] + rest));
    OneFailure(g.(failed := 1), at, [wrong] + ([wrong] + ([wrong] + rest)));
    OneFailure(g, at, [wrong] + ([wrong] + ([wrong] + ([wrong] + rest))));
    assert [wrong, wrong, wrong, wrong, wrong] + rest == [wrong] + ([wrong] + ([wrong] + ([wrong] + ([wrong] + rest))));
  }

  lemma OneFailure(g: Guard, at: Time, rest: seq<Event>)
    requires !IsLocked(g, at)
    ensures var wrong := Attempt(false, true, 0, at, at);
      && FailureTimes(g, [wrong] + rest) == [at] + FailureTimes(Failed(g, at), rest)
      && (NoClears(g, [wrong] + rest) <==> NoClears(Failed(g, at), rest))
      && (Ordered(at, [wrong] + rest) <==> Ordered(at, rest))
  {
    assert ([Attempt(false, true, 0, at, at)] + rest)[1..] == rest;
  }

  lemma {:induction false} BurstsReachTheBound(g: Guard, at: Time, more: nat)
    requires g.failed == 0 && !IsLocked(g, at)
    ensures var events := Bursts(at, more);
      var f := FailureTimes(g, events);
      && Ordered(at, events) && NoClears(g, events)
      && |f| == 5 * (more + 1) && f[0] == at && f[|f| - 1] == at + 15 * 60 * 1000000 * more
    decreases more
  {
    hide FailureTimes, NoClears, Ordered, Locks, Burst, Bursts;
    var next := at + LOCKOUT_DURATION;
    var h := Guard(0, Some(next));
    var rest := if more == 0 then [] else Bursts(next, more - 1);
    BurstsUnfold(at, more);
    FiveFailures(g, at, rest);
    FiveThen(at, FailureTimes(h, rest));
    if more == 0 {
      NoEvents(h, at);
      OneMoreLock(0);
    } else {
      OneMoreLock(more - 1);
      BurstsReachTheBound(h, next, more - 1);
      OrderedFromEarlier(at, next, rest);
    }
  }

  lemma BurstsUnfold(at: Time, more: nat)
    ensures Bursts(at, more) == Burst(at) + if more == 0 then [] else Bursts(at + LOCKOUT_DURATION, more - 1)
  {
    hide Burst;
  }

  lemma FiveThen(at: Time, rest: seq<Time>)
    ensures var f := [at, at, at, at, at] + rest;
      |f| == 5 + |rest| && f[0] == at && f[|f| - 1] == if rest == [] then at else rest[|rest| - 1]
  {
  }

  lemma NoEvents(g: Guard, clock: Time)
    ensures FailureTimes(g, []) == [] && NoClears(g, []) && Ordered(clock, [])
  {
  }

  lemma OrderedFromEarlier(earlier: Time, clock: Time, events: seq<Event>)
    requires earlier <= clock && Ordered(clock, events)
    ensures Ordered(earlier, events)
  {
  }

  // ---------------------------------------------------------------- the lock

  ghost predicate Sound(g: Guard, clock: Time) {
    g.failed < MAX_FAILED_ATTEMPTS && (g.lockedUntil.Some? ==> g.lockedUntil.value <= clock + LOCKOUT_DURATION)
  }

  function EndOfRun(clock: Time, events: seq<Event>): Time {
    if events == [] then clock else EndOf(events[|events| - 1])
  }

  /** After any run the stored counter is below five, and no lock reaches further than fifteen minutes ahead. */
  lemma {:induction false} CounterStaysBelowTheLimit(g: Guard, clock: Time, events: seq<Event>)
    requires Sound(g, clock) && Ordered(clock, events)
    ensures Sound(Run(g, events), EndOfRun(clock, events))
    decreases |events|
  {
    if events != [] {
      CounterStaysBelowTheLimit(Step(g, events[0]), EndOf(events[0]), events[1..]);
    }
  }

  /** So a locked login is told to come back in one to fifteen minutes, and no earlier than the lock ends. */
  lemma MinutesToldCoverTheLock(events: seq<Event>, correct: bool, active: bool, unusedTokens: nat, now: Time, lockAt: Time)
    requires Ordered(0, events) && EndOfRun(0, events) <= now
    ensures var g := Run(CLEARED, events);
      var answer := Authenticate(g, correct, active, unusedTokens, now, lockAt).1;
      answer.Locked? ==>
        && 1 <= answer.minutesRemaining <= 15
        && now + (answer.minutesRemaining - 1) * 60 * 1000000 < g.lockedUntil.value <= now + answer.minutesRemaining * 60 * 1000000
  {
    CounterStaysBelowTheLimit(CLEARED, 0, events);
  }

  /** From the fifth failure on, and until the lock ends or a password reset clears it, every login is refused
      unread, whatever its password. */
  lemma {:induction false} LockRefusesEverything(g: Guard, clock: Time, events: seq<Event>, correct: bool, active: bool,
      unusedTokens: nat, now: Time, lockAt: Time)
    requires g.lockedUntil.Some? && now < g.lockedUntil.value
    requires Ordered(clock, events) && EndOfRun(clock, events) <= now
    requires forall e :: e in events ==> e.Attempt?
    ensures Run(g, events) == g
    ensures Authenticate(Run(g, events), correct, active, unusedTokens, now, lockAt)
      == (g, Locked(MinutesRemaining(g.lockedUntil.value, now)))
    decreases |events|
  {
    if events != [] {
      OrderedUntilTheEnd(clock, events);
      LockRefusesEverything(g, EndOf(events[0]), events[1..], correct, active, unusedTokens, now, lockAt);
    }
  }

  lemma {:induction false} OrderedUntilTheEnd(clock: Time, events: seq<Event>)
    requires Ordered(clock, events)
    ensures clock <= EndOfRun(clock, events) && (events != [] ==> EndOf(events[0]) <= EndOfRun(clock, events))
    decreases |events|
  {
    if |events| > 1 {
      OrderedUntilTheEnd(EndOf(events[0]), events[1..]);
    }
  }
}
