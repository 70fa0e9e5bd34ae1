# What the recruiting platform keeps, proved

This project models the parts of the platform whose correctness depends on more than one function: sessions and
one-time links, cursor pagination on both sides of the wire, transactions with deferred hooks, the life of an
application, the retention purge, the JSON-LD payload of prerendered pages, and the browser's token refresh. Each
part is a model of the code in Dafny and a set of theorems about every input, every run, or every interleaving.

`dafny verify dfyconfig.toml` checks all of it.

## How it is laid out

Code that only computes is a set of functions with lemmas. Code that changes state is a class whose methods follow
the source step by step; each method is proved equal to a specification function on the state (its `ensures` gives
the whole new state and the answer). About those functions two kinds of theorems are proved: what every run of them
keeps, and for each request, in plain conditions and numbers, when it gets which answer and what it leaves of every
table.

| files | what they hold |
|---|---|
| `Prelude`, `Digits` | option and result types, finite sets and sequences, decimal numbers |
| `Cursor`, `Keyset`, `Pages` | the cursor codec, the keyset order and its pages, and walks along `next_cursor` over a table that changes between fetches |
| `InfiniteList` | the browser hook that consumes the pages |
| `JsonLd` | printing and escaping of the JSON-LD payload, and a parser after RFC 8259 |
| `Tables`, `Sessions`, `SessionRuns` | refresh tokens, password reset and password change, one request at a time |
| `Interleaving` | refreshes and logouts cut into phases and interleaved freely |
| `Lockout` | the login guard of one account |
| `Activation`, `ActivationRuns`, `ActivationEffects` | activation links: every run of them, and what each request answers and leaves |
| `Transactions`, `TransactionRuns` | `transactional` and `defer_after_commit` as a small language |
| `Recruitment`, `Retention`, `RecruitmentRuns`, `RecruitmentEffects` | jobs, profiles and applications, the purge, and what each request answers and leaves |
| `SingleFlight` | the response interceptor that refreshes the access token |

A request runs on copies of the tables, its session, and either commits them or forgets them. What a request writes
through a session of its own is written at once, and so survives the rollback of the request. Hashes are injective,
tokens are drawn fresh, ids are given out once, and the clock does not go back; times are in microseconds.

## Where the code does something else than it says

* `transactional` promises that hook failures never reach the caller. Of a committed block they do exactly when
  one of its hooks ends in a cancellation (`TransactionRuns.HookFailureReachesCallerIff`): a cancellation is no
  `Exception`, so it leaves the loop, the later hooks never run, and the caller sees it
  (`TransactionRuns.CancelledHookCutsTheRest`). `TransactionRuns.HookRunsExactlyWhen` says which hooks run, and
  `TransactionRuns.FailedBlockRaisesExactly` what the caller sees of a block that did not commit: rolling back
  re-raises, as documented, unless the rollback itself raises.
* Applying is documented to be refused for a blocking application. A signed-in candidate is also refused, by the
  unique key on a profile's user, when the account is linked to a profile of another address, which an admin's
  change of the profile's email brings about (`RecruitmentRuns.EmailChangeLocksOut`, and the shortest such run in
  `RecruitmentRuns.LockedOutRun`). `RecruitmentRuns.ApplyRefusesExactly` has the exact condition.
* An expired used-token row is meant to be cleaned up when its hash is presented. The request then always fails,
  and the rollback undoes the delete (`SessionRuns.UsedTokenNeverIssues`).
* A text with a high surrogate followed by a low one does not come back from the JSON-LD payload as it was: the two
  are read as one character (`JsonLd.SplitPairIsMerged`). Everything else does, and
  `JsonLd.PayloadIsFaithful` is an equivalence.
* A request that waits for a token refresh waits on when the refresh fails; only a later success answers it
  (`SingleFlight.WaitingUntilARefreshSucceeds`).
* The infinite list is a prefix of the sorted list exactly while every appended page lands on the cursor it was
  asked for; that is, while every observer that asks has seen the list's own cursor and no reload comes before the
  answer (`InfiniteList.PrefixIffAskedInPlace`). A reload during a fetch, and an observer callback before the next render, each break that on every
  list longer than a page (`InfiniteList.ReloadDuringAppendBreaks`, `InfiniteList.ObserveBeforeRenderBreaks`).

## Model

| member | source | states |
|---|---|---|
| `Cursor.ParseFormatIso` | src/core/infrastructure/pagination.py:38-52 | every UTC timestamp, with or without microseconds, is read back from its isoformat |
| `Cursor.IsoLength` | src/core/infrastructure/pagination.py:38 | the text of a timestamp has microseconds exactly where there are some |
| `Cursor.B64RoundTrip` | src/core/infrastructure/pagination.py:39-50 | every byte string is read back from its padded base64url text (RFC 4648 section 5) by the lenient decoder |
| `Cursor.PaddingRoundTrip` | src/core/infrastructure/pagination.py:39-49 | stripping the padding and re-padding by the length modulo four gives the encoder's text back, and the stripped text is URL-safe (RFC 4648 section 3.2) |
| `Cursor.ForeignIsSkipped` | src/core/infrastructure/pagination.py:49-50 | the decoder skips characters outside of the alphabet wherever they stand |
| `Cursor.WholeGroupsOnly` | src/core/infrastructure/pagination.py:49-50 | a text without padding is decoded exactly when its characters of the alphabet make up whole groups of four |
| `Cursor.PaddingEndsTheText` | src/core/infrastructure/pagination.py:49-50 | padding ends a group of two or three characters, and what follows is not read |
| `Cursor.CursorRoundTrip` | src/core/infrastructure/pagination.py:36-54 | decoding an encoded cursor gives the timestamp and the id back, for every UTC timestamp and every integer id |
| `Cursor.CursorInjective` | src/core/infrastructure/pagination.py:36-39 | two positions with the same cursor are the same position |
| `Cursor.DecodesExactly` | src/core/infrastructure/pagination.py:42-54 | a cursor is accepted exactly when it decodes to the text of a timestamp, the separator and the text of a number, and it is read as those two |
| `Keyset.DescendingIsUnique` | src/core/infrastructure/pagination.py:90 | the order by creation time and id leaves one way to list a set of rows |
| `Pages.ClampLimit` | src/core/infrastructure/pagination.py:57-65 | the page size is the asked one brought into the range from 1 to 100, and 20 when none was asked |
| `Pages.FetchIsPage` | src/core/infrastructure/pagination.py:68-115 | a fetch returns the next rows behind the boundary in order, skipping none, and a next cursor that is null exactly when none are left and else denotes the last row shown |
| `Pages.PageIsTheNewest` | src/core/infrastructure/pagination.py:68-115 | a page holds the newest rows behind the boundary, newest first and by falling id within one moment, as many as the limit allows, and has a next cursor exactly when rows are left |
| `Pages.RefusedExactly` | src/core/infrastructure/pagination.py:45-54 | a fetch is refused exactly when it was given a cursor that spells no position |
| `Pages.NoRowTwice` | src/core/infrastructure/pagination.py:82-115 | however the table changes between fetches, the pages laid end to end are strictly descending, so no row is shown twice |
| `Pages.LastingRowsShownOnce` | src/core/infrastructure/pagination.py:82-115 | a walk that ended with a null cursor showed every row that matched at all fetches exactly once |
| `Pages.NothingInvented` | src/core/infrastructure/pagination.py:82-115 | every row shown was in the table at the fetch that showed it |
| `Pages.HandedOutCursorIsAccepted` | src/core/infrastructure/pagination.py:82-88 | the cursor of any row is accepted on any table at any limit |
| `Pages.FollowingNeverFails` | src/core/infrastructure/pagination.py:42-54 | a cursor that was handed out is never refused later, whatever became of the table |
| `Pages.StaticWalk` | src/core/infrastructure/pagination.py:82-115 | on a fixed table the pages are a prefix of the sorted table, all of it exactly when the cursor is null, after at most as many pages as rows |
| `InfiniteList.Hook.StartFetch` | frontend/src/hooks/useInfiniteList.ts:78-86 | a fetch starts only when none is in flight, and marks the state as loading or fetching more |
| `InfiniteList.Hook.OnIntersect` | frontend/src/hooks/useInfiniteList.ts:130-135 | the sentinel asks for the next page of the state it last saw rendered |
| `InfiniteList.Hook.Settle` | frontend/src/hooks/useInfiniteList.ts:87-108 | a page replaces or extends the list, an error leaves it |
| `InfiniteList.Hook.Reload` | frontend/src/hooks/useInfiniteList.ts:153-156 | a reload resets the state and asks for the first page unless a fetch is in flight |
| `InfiniteList.PrefixIffAppendsLand` | frontend/src/hooks/useInfiniteList.ts:78-143 | over every order of events, the list is a prefix of the sorted table all along if and only if every appended page lands on the cursor it was asked for |
| `InfiniteList.PrefixIffAskedInPlace` | frontend/src/hooks/useInfiniteList.ts:113-135 | the same condition when the page is asked for: the observer had seen the list's own cursor, and no reload came before the page did |
| `InfiniteList.OneFetchInFlight` | frontend/src/hooks/useInfiniteList.ts:80-108 | over every order of events, calls of the fetcher exceed settled calls by at most one |
| `InfiniteList.LoadingIsShown` | frontend/src/hooks/useInfiniteList.ts:78-108 | over every order of events, the list shows that it loads exactly while a fetch is under way, and before the first one settled |
| `InfiniteList.FailureIsShown` | frontend/src/hooks/useInfiniteList.ts:87-108 | a failed fetch is shown and leaves list, cursor and the flag for more; the next fetch takes it away |
| `InfiniteList.DisciplinedRun` | frontend/src/hooks/useInfiniteList.ts:78-143 | if the observer reads rendered state and nobody reloads during a fetch, the list is always a prefix, and after a successful fetch there is more exactly when the list is not the whole table |
| `InfiniteList.ReloadDuringAppendBreaks` | frontend/src/hooks/useInfiniteList.ts:153-156 | on every table longer than a page, a reload during an append ends with a list that is no prefix |
| `InfiniteList.ObserveBeforeRenderBreaks` | frontend/src/hooks/useInfiniteList.ts:74-76 | so does an observer callback between an answer and its render |
| `JsonLd.GuardDumps` | src/api/seo/_render.py:32-37 | the three replacements on the whole text are the same as escaping those characters inside each string, for every value |
| `JsonLd.PayloadIsHarmless` | src/api/seo/_render.py:25-37 | the payload is printable ASCII and contains no `<`, `>` or `&` |
| `JsonLd.PayloadReadsBack` | src/api/seo/_render.py:31-37 | the parser modelled here after RFC 8259 reads the payload as the value in which split surrogate pairs are merged |
| `JsonLd.PayloadIsFaithful` | src/api/seo/_render.py:31-37 | the parser gives the original value back if and only if no text holds a high surrogate followed by a low one |
| `JsonLd.ScalarTextIsUnsplit` | src/api/seo/_render.py:31-37 | a text without surrogates, that is any text that has a UTF-8 form, is never of that kind |
| `JsonLd.SplitPairIsMerged` | src/api/seo/_render.py:31-37 | the concrete text of two surrogates that comes back as one character |
| `Sessions.AuthDatabase.LoginRequest` | src/services/auth/session.py:73-96 | a login stores one live row, or the keys refuse it and nothing changes |
| `Sessions.AuthDatabase.RefreshUserTokens` | src/services/auth/session.py:99-180 | rotation, replay, expiry and inactive user, with the writes that survive the rollback of a failed request |
| `Sessions.AuthDatabase.LogoutUser` | src/services/auth/session.py:183-208 | a logout moves the hash from the live to the used table |
| `Sessions.AuthDatabase.NukeUserRefreshTokens` | src/services/auth/session.py:55-70 | every live row of the user goes, at once, and no other |
| `Sessions.AuthDatabase.RequestPasswordReset` | src/services/auth/password_reset.py:42-93 | a reset row is added when fewer than three were added in the last hour |
| `Sessions.AuthDatabase.ResetPasswordRequest` | src/services/auth/password_reset.py:145-193 | the new password, the used mark and the end of every session, or nothing |
| `Sessions.AuthDatabase.ChangeUserPassword` | src/services/auth/password_change.py:51-77 | the new password and the end of every session but the caller's own |
| `SessionRuns.StepKeepsInv` | src/services/auth/session.py:99-208 | every request keeps the tables in step with the history of minted tokens |
| `SessionRuns.LiveTokensAfterAnyRun` | src/services/auth/session.py:73-180 | after any run no hash is live and used, each login's lineage has at most one live token, with the login's user and flag, and it expires 30 days after its own issue with the flag and one day after it without |
| `SessionRuns.LiveTokenRefreshesUntilItsEnd` | src/core/infrastructure/security.py:54-70 | in every reachable state a live token of an active user is accepted up to exactly 30 days, or one day, after its own issue |
| `SessionRuns.LoginExactly` | src/services/auth/session.py:73-96 | a login stores one row with the user, the flag and the expiry that the flag chooses, and is refused exactly for a missing user or a stored hash |
| `SessionRuns.RefreshIssuesIff` | src/services/auth/session.py:114-161 | a refresh issues a pair exactly when the token is live and unexpired and its user exists and is active |
| `SessionRuns.IssuedTokenRefreshes` | src/services/auth/session.py:73-180 | a token handed out by a login or a rotation is stored for that user and flag, for 30 days or one day, and refreshes exactly until then |
| `SessionRuns.UsedTokenNeverIssues` | src/services/auth/session.py:114-141 | a used hash never issues a pair; before its expiry the user is left without live tokens and everyone else untouched, after it nothing changes at all |
| `SessionRuns.RefusedTokenGoesAlone` | src/services/auth/session.py:133-161 | a refused token that was live loses its own row and nobody another; one that was neither live nor used changes nothing |
| `SessionRuns.LogoutMovesOneToken` | src/services/auth/session.py:183-208 | a logout never fails; it moves exactly the cookie's row, with its user and expiry, or changes nothing |
| `SessionRuns.KeysRefuseExactly` | src/models.py:97-217 | in any tables, when a unique or foreign key refuses a logout or a request for a reset, and that nothing changes then |
| `SessionRuns.LogoutConsumes` | src/services/auth/session.py:192-208 | after a logout the cookie is treated as a replay |
| `SessionRuns.DeadIsRefusedForever` | src/services/auth/session.py:133-141 | a minted token that is not live is refused in every later run |
| `SessionRuns.ResetRevokesEverySession` | src/services/auth/password_reset.py:170-181 | after a password reset every token issued to the user before is refused in all later runs |
| `SessionRuns.ReplayRevokesEverySession` | src/services/auth/session.py:55-70 | after a noticed replay every token issued to the user before is refused in all later runs |
| `SessionRuns.ChangeKeepsOnlyTheCallersSession` | src/services/auth/password_change.py:65-77 | after a password change exactly the caller's token is left, if it was live and theirs, and the user's others are refused in all later runs |
| `SessionRuns.ResetMintsIff` | src/services/auth/password_reset.py:42-93 | a reset request mints exactly when the user exists and fewer than three tokens were minted for them in the hour before |
| `SessionRuns.ResetRequestAddsOneRow` | src/services/auth/password_reset.py:61-93 | a reset request adds one unused row that expires an hour after it was made, or changes nothing |
| `SessionRuns.ResetPasswordExactly` | src/services/auth/password_reset.py:145-181 | a reset is accepted exactly with an unused link mailed at most an hour ago to a user who still exists; it stores exactly the given password, uses up that link and ends that user's sessions, and nothing else; a refused one changes nothing |
| `SessionRuns.ChangePasswordExactly` | src/services/auth/password_change.py:51-77 | a change is accepted exactly with the stored password, stores exactly the new one, and keeps of the user's rows the cookie's; a refused one changes nothing |
| `SessionRuns.LastPasswordCounts` | src/services/auth/password_change.py:60-66 | over every run of other requests the password that a reset or a change set last is the one that counts |
| `SessionRuns.ResetLimitOnEveryWindow` | src/services/auth/password_reset.py:37-93 | over any run no half-open hour, wherever it starts, holds more than three reset tokens of a user |
| `SessionRuns.ResetLinkWorksOnce` | src/services/auth/password_reset.py:162-171 | a used reset link is refused in all later runs |
| `Interleaving.PhasesRefineRefresh` | src/services/auth/session.py:108-180 | with nothing in between, the phases of a refresh do what the whole request does |
| `Interleaving.PhasesRefineLogout` | src/services/auth/session.py:192-208 | and so do those of a logout |
| `Interleaving.CommitFindsUnconsumed` | src/models.py:140 | the unique used-hash key lets a commit through only for a token that was not consumed before |
| `Interleaving.NoTokenRotatedTwice` | src/services/auth/session.py:108-175 | over every interleaving of any number of refreshes and logouts with logins, revocations and deletes of users, no token produces two successful rotations |
| `Interleaving.NoTokenConsumedTwice` | src/services/auth/session.py:165-208 | nor is one consumed twice by rotations and logouts; a consumed token is never live again, and its hash stays in the used table while its user exists |
| `Interleaving.LineagesStayChains` | src/services/auth/session.py:163-180 | under every interleaving each lineage has at most one unspent token, and a live one has the login's user and flag and its own expiry |
| `Lockout.Account.RecordFailedAttempt` | src/services/auth/login.py:66-102 | the counter goes up, or at five back to zero with a lock of fifteen minutes |
| `Lockout.Account.AuthenticateUser` | src/services/auth/login.py:118-160 | lock, password, activity and clearing, in that order, with the answer of each |
| `Lockout.AnswersExactly` | src/services/auth/login.py:118-160 | for every guard, which of the answers a login gets and what it leaves of the counter and the lock |
| `Lockout.FailuresInAnyStretch` | src/services/auth/login.py:24-102 | between two clears, in any stretch of logins, the wrong passwords that reach the check number at most 5 * (L / 15min + 1), where L is the time from the first to the last |
| `Lockout.BurstsReachTheBound` | src/services/auth/login.py:24-102 | which is exact: for every length there is a run that reaches it |
| `Lockout.CounterStaysBelowTheLimit` | src/services/auth/login.py:79-87 | after any run the stored counter is below five and no lock reaches more than fifteen minutes ahead |
| `Lockout.MinutesToldCoverTheLock` | src/services/auth/login.py:42-52 | a locked login is told one to fifteen minutes, the fewest whole minutes that cover the lock |
| `Lockout.LockRefusesEverything` | src/services/auth/login.py:36-52 | until the lock ends or a password reset clears it, every login is refused unread and the lock does not move |
| `Activation.Accounts.DeleteStaleTokens` | src/services/auth/candidate_registration.py:121-136 | the user's unused links go, one by one, and no other |
| `Activation.Accounts.LatestUnusedFullName` | src/services/auth/candidate_registration.py:99-118 | the name on a most recent unused link |
| `Activation.Accounts.RegisterCandidateRequest` | src/services/auth/candidate_registration.py:168-238 | a new or recycled account with one fresh link, or an error and nothing changed |
| `Activation.Accounts.RegisterCompanyUser` | src/services/auth/registration.py:124-143 | an inactive company account under a free email |
| `Activation.Accounts.ResendCandidateActivation` | src/services/auth/candidate_registration.py:258-299 | a fresh link under the name of the latest unused one, when the account is inactive and the hour is free |
| `Activation.Accounts.ApproveCompanyRequest` | src/services/admin/company_approval.py:52-93 | the stale link is replaced by one of 48 hours; more than one stale link would be an error |
| `Activation.Accounts.ActivateUser` | src/services/auth/activation.py:53-81 | the link is used up, the account active, and a candidate's profile linked or made |
| `Activation.Accounts.LinkOrCreateProfile` | src/services/auth/activation.py:111-152 | the profile of the email is linked, or made under the link's name or the email's prefix, unless another profile carries the user |
| `Activation.Accounts.UpdateCompanyEmail` | src/services/admin/company_profiles.py:125-139 | a company account's login email follows its contact address, unless another account has it |
| `ActivationRuns.StepKeepsInv` | src/services/auth/candidate_registration.py:217-238 | every request keeps: an unused link is its user's newest, a used one's user is active, the newest one is always stored, and a profile is linked to an active user only |
| `ActivationRuns.RegistrationMailsIff` | src/services/auth/candidate_registration.py:199-238 | registering mails a link exactly when the terms are accepted and every account with the email is an inactive candidate's |
| `ActivationRuns.ApprovalMailsIff` | src/services/admin/company_approval.py:57-93 | approving mails a link exactly when the user is an inactive company |
| `ActivationRuns.AtMostOneUnusedLink` | src/services/auth/candidate_registration.py:121-136 | in every reachable state a user has at most one unused link |
| `ActivationRuns.SingleRowReadsNeverFail` | src/services/auth/login.py:148-156 | so the single-row reads at approval and at login never find two |
| `ActivationRuns.PendingRowsAreSingle` | src/services/admin/companies.py:84-106 | every pending company has exactly one joined row, which shows an invitation exactly when the company was ever approved |
| `ActivationRuns.ActivatesIff` | src/services/auth/activation.py:53-81 | a link activates exactly when it is the newest ever minted for its user, the user is not active yet, and its time is not over |
| `ActivationRuns.NoKeyInTheWay` | src/models.py:405-413 | in no reachable state does the unique key on a profile's user refuse an activation |
| `ActivationRuns.MailedLinkActivates` | src/services/auth/activation.py:61-81 | a link just mailed activates its account exactly until two hours, or for a company 48, have passed |
| `ActivationRuns.DeadLinkStaysDead` | src/services/auth/activation.py:61-67 | a superseded or used link is refused in every later run |
| `ActivationRuns.LinkActivatesOnce` | src/services/auth/activation.py:64-80 | a link activates once |
| `ActivationRuns.ActivationUsesTheRegisteredName` | src/services/auth/activation.py:111-150 | a candidate without a profile gets one under the name of the last registration however many links were resent, one with a profile keeps its name, and no other profile changes |
| `ActivationRuns.ResendsIff` | src/services/auth/candidate_registration.py:56-71 | a resend mails a link exactly when the account is an inactive candidate's and nothing was minted for it in the last hour |
| `ActivationRuns.ResendsAreAnHourApart` | src/services/auth/candidate_registration.py:281-299 | two successful resends to one user are at least an hour apart |
| `ActivationEffects.RegistrationLeaves` | src/services/auth/candidate_registration.py:168-238 | an accepted registration leaves an inactive candidate under the email with the given password, in the account that has the email or a new one, and one unused link of two hours with the name; a refused one changes nothing |
| `ActivationEffects.RegistrationAnswersExactly` | src/services/auth/candidate_registration.py:199-238 | in any store, which refusal a registration gets, the key on the link's hash included |
| `ActivationEffects.CompanyRegistrationLeaves` | src/services/auth/registration.py:124-143 | a company registration leaves an inactive company account and no link, exactly when the email is free |
| `ActivationEffects.ResendLeaves` | src/services/auth/candidate_registration.py:258-299 | a resend leaves one unused link of two hours under the name last registered with, or nothing |
| `ActivationEffects.LatestNameExactly` | src/services/auth/candidate_registration.py:99-118 | the name that a resend reads: none without an unused link, else that of a newest one |
| `ActivationEffects.ApprovalLeaves` | src/services/admin/company_approval.py:52-93 | an approval leaves one unused link of 48 hours; a refused one says whether the company is missing or not pending |
| `ActivationEffects.ApprovalAnswersExactly` | src/services/admin/company_approval.py:52-80 | in any store, which refusal an approval gets, the single-row read and the key on the hash included |
| `ActivationEffects.ActivationLeaves` | src/services/auth/activation.py:53-81 | an unknown or used link is invalid, an unused one past its time has expired; a valid one is used up and makes its account active, and nothing else changes but a candidate's profile |
| `ActivationEffects.EmailPrefixEndsAtTheSign` | src/services/auth/activation.py:122-123 | the name of last resort is the email up to its first at-sign |
| `ActivationEffects.CompanyEmailExactly` | src/services/admin/company_profiles.py:125-139 | when a company's login email changes, and that nothing else does |
| `ActivationEffects.InactiveLoginIsTold` | src/services/auth/login.py:145-156 | in every reachable state an inactive account's right password is answered with a waiting link if one was ever mailed, and else with a waiting approval |
| `ActivationEffects.UserDeletionLeaves` | src/models.py:399-413 | a deleted user's links go, the profile stays unlinked, and no other row changes |
| `Transactions.Runtime.DeferAfterCommit` | src/core/infrastructure/transactions.py:17-28 | a hook joins the innermost block's list, and outside of one the call fails |
| `Transactions.Runtime.RunBlock` | src/core/infrastructure/transactions.py:31-76 | a block with its commit, rollback, restored registry and hooks |
| `Transactions.Runtime.RunPostCommitHooks` | src/core/infrastructure/transactions.py:71-76 | the hooks in order; an ordinary exception is forgotten, a cancellation ends the loop |
| `TransactionRuns.EveryBlockLives` | src/core/infrastructure/transactions.py:58-76 | in every program, what the log says of a block is its registrations in order, then nothing, a rollback, or the commit and after it its hooks in registration order |
| `TransactionRuns.BlockCommitsExactly` | src/core/infrastructure/transactions.py:61-67 | a block commits exactly when its body and its commit raise nothing, and is rolled back exactly when either raises an ordinary exception |
| `TransactionRuns.HookRunsExactlyWhen` | src/core/infrastructure/transactions.py:58-76 | a hook runs exactly when its block committed and no hook registered there before it was cancelled, and never twice |
| `TransactionRuns.CalmHookRunsIffCommitted` | src/core/infrastructure/transactions.py:43-45 | in a program without cancellations a hook runs exactly once if its block committed, and otherwise never |
| `TransactionRuns.CancelledHookCutsTheRest` | src/core/infrastructure/transactions.py:72-76 | the concrete program in which a committed block's second hook never runs and the cancellation reaches the caller |
| `TransactionRuns.RegistryRestored` | src/core/infrastructure/transactions.py:59-69 | on every exit the outer registry is current again, unchanged if the block did not commit |
| `TransactionRuns.HookFailureReachesCallerIff` | src/core/infrastructure/transactions.py:43-45 | a committed block raises exactly when one of its hooks ended in a cancellation, and then raises that |
| `TransactionRuns.FailedBlockRaisesExactly` | src/core/infrastructure/transactions.py:61-67 | a block that did not commit always raises: the body's or the commit's cancellation as it is, and after an ordinary exception that exception, or the rollback's own failure if it raised one |
| `TransactionRuns.BlockSucceedsIff` | src/core/infrastructure/transactions.py:58-76 | the caller sees a block end normally exactly when it committed and none of its hooks was cancelled |
| `TransactionRuns.DeferRegistersLast` | src/core/infrastructure/transactions.py:17-28 | a hook is registered behind the others of the innermost block; outside of one the call fails and registers nothing |
| `Recruitment.Board.CheckNoBlockingApplication` | src/services/public/_application_helpers.py:86-105 | which application of the pair blocks, and as what |
| `Recruitment.Board.UpdateCandidateProfile` | src/services/company/candidates.py:29-62 | name and phone follow the form, LinkedIn and resume are only filled in where missing, and email, user and consent stay |
| `Recruitment.Board.UpsertCandidateAndApplication` | src/services/public/_application_helpers.py:108-203 | checks first, then the profile found or made, then the application |
| `Recruitment.Board.CreateCandidateProfile` | src/services/public/applications.py:80-221 | applying: published job, resume, the upsert, the link to the account or the rollback, consent rows and the deferred email |
| `Recruitment.Board.LinkUser` | src/services/public/applications.py:149-154 | an unlinked profile is linked to the account, unless another profile carries it |
| `Recruitment.Board.UpdateCandidateRequest` | src/services/admin/candidates.py:69-91 | the admin's update of a profile, refused for a null email or name and for an address in use |
| `Recruitment.Board.WithdrawMyApplication` | src/services/candidate/applications.py:259-284 | only the owner's new application is withdrawn |
| `Recruitment.Board.EditMyApplication` | src/services/candidate/applications.py:187-256 | only the owner's new application is edited, field by field |
| `Recruitment.Board.UpdateApplicationStatus` | src/services/admin/applications.py:125-197 | any status but from withdrawn, an audit row for a change, an email for a new rejection |
| `Recruitment.Board.UpdateJobRequest` | src/services/admin/jobs.py:112-225 | the fields, the company's emails, and the cascade when a published job closes |
| `Recruitment.Board.CloseActiveApplications` | src/services/admin/jobs.py:231-289 | the three loops of the cascade: statuses, audit rows, emails |
| `Recruitment.Board.DeleteJobRequest` | src/services/admin/jobs.py:292-309 | the job and its applications go |
| `Recruitment.Board.DeleteCandidateRequest` | src/services/admin/candidates.py:94-144 | the candidate and their applications go, with an audit row |
| `Recruitment.Board.DeleteApplicationRequest` | src/services/admin/applications.py:228-245 | the application goes and the profile stays |
| `RecruitmentRuns.StepKeepsInv` | src/models.py:517-526 | every request keeps the partial unique index, the foreign keys, and the profiles' unique keys on email and user |
| `RecruitmentRuns.OneActiveApplicationPerPair` | src/models.py:513-526 | in every reachable state a pair has at most one application that is not withdrawn, and none lacks its job or candidate |
| `RecruitmentRuns.ProfilesKeepTheirKeys` | src/models.py:404-416 | in every reachable state no two profiles share an email or a user |
| `RecruitmentRuns.CandidateUpdateExactly` | src/services/admin/candidates.py:79-91 | when an admin's update of a profile is accepted, and that it touches that profile alone and not its user |
| `RecruitmentRuns.ApplyRefusesExactly` | src/services/public/applications.py:90-155 | an application is accepted exactly when the job is published, the file fit, an anonymous email not an active candidate's, nothing blocks it, and the account can be linked; a blocking application answers as editable with its id or as locked, an account that cannot be linked as a violated key |
| `RecruitmentRuns.ApplyEffect` | src/services/public/_application_helpers.py:145-203 | a refused application changes nothing; an accepted one is the pair's only active one, and no other application or profile changed |
| `RecruitmentEffects.AcceptedApplicationIsStored` | src/services/public/_application_helpers.py:145-203 | an accepted application stores the form's answers and the resume; the profile takes name and phone, keeps its LinkedIn and resume or takes them, and its consent and link are those of the kind of applicant; consent rows and one email follow |
| `RecruitmentEffects.ApplyRefusalsInOrder` | src/services/public/applications.py:88-125 | which refusal comes before the pair is looked at: the job, then the file, then the account of an anonymous email |
| `RecruitmentRuns.WithdrawThenReapply` | src/services/candidate/applications.py:275-284 | withdrawing undoes the block: the candidate's next application to the job is accepted, unless the account cannot be linked |
| `RecruitmentRuns.EmailChangeLocksOut` | src/services/admin/candidates.py:86-89 | after an admin gives a linked profile another address, every application of its signed-in owner is refused by the key although nothing blocks it |
| `RecruitmentRuns.LockedOutRun` | src/services/public/applications.py:149-154 | the shortest run that ends so |
| `RecruitmentRuns.EditsCompose` | src/services/candidate/applications.py:229-248 | two edits are one edit in which the later answers win, and neither the unique index nor the cascade sees them |
| `RecruitmentEffects.EditExactly` | src/services/candidate/applications.py:187-256 | each given answer is stored and each missing one kept, likewise the resume; and which refusal an edit gets |
| `RecruitmentEffects.WithdrawExactly` | src/services/candidate/applications.py:259-284 | exactly the owner's new application is withdrawn, with the rest of its row kept; and which refusal a withdrawal gets |
| `RecruitmentEffects.StatusUpdateExactly` | src/services/admin/applications.py:125-197 | status and notes are stored, a change leaves one audit row and a new rejection one email; and which refusal an update gets |
| `RecruitmentEffects.ApplicationDeletionExactly` | src/services/admin/applications.py:228-245 | exactly that application goes |
| `RecruitmentEffects.JobDeletionExactly` | src/services/admin/jobs.py:292-309 | exactly the job and its applications go |
| `RecruitmentEffects.CandidateDeletionExactly` | src/services/admin/candidates.py:94-144 | exactly the candidate, the address and the applications go, with one audit row |
| `RecruitmentEffects.ProfileUpdateAppliesItsPayload` | src/services/admin/candidates.py:85-87 | the columns that the update names have its values, and the others keep theirs |
| `RecruitmentEffects.LinkLeaves` | src/services/auth/activation.py:111-150 | activation links the profile of the email, or makes one under the given name, unless another profile carries the user |
| `RecruitmentEffects.UserDeletionUnlinks` | src/models.py:399-413 | a deleted user's profile stays, unlinked |
| `RecruitmentRuns.WithdrawnIsLeftOnlyByDeletion` | src/services/admin/applications.py:139-149 | over every run a withdrawn application stays withdrawn until it is deleted |
| `RecruitmentRuns.ClosingEndsTheActive` | src/services/admin/jobs.py:219-289 | closing a published job ends exactly its new and approved applications, one audit row and one email to the candidate each; no other update of a job touches an application |
| `RecruitmentRuns.UpdateAppliesItsPayload` | src/services/admin/jobs.py:150-152 | the columns that the update names have its values and the others keep theirs, the time of change is the update's, and no other job changes |
| `RecruitmentRuns.CompanyIsToldExactly` | src/services/admin/jobs.py:141-202 | a company with a user is mailed one notice exactly when its published job closes, and one edit notice, naming exactly the other columns with new values, exactly when there are some |
| `RecruitmentRuns.AuditTellsTheVerdict` | src/services/admin/applications.py:152-161 | in every reachable state the recorded changes into and out of rejected, and of hired, tell which applications have that status |
| `Retention.PurgeExpiredCandidates` | src/services/admin/candidates.py:147-230 | the query and the loop: applications, profile, audit row and count |
| `Retention.QueryIsTheRule` | src/services/admin/candidates.py:150-189 | the NOT IN query finds exactly the candidates with an application all of whose applications are not hired and on a job that was closed and last changed more than 365 days ago |
| `Retention.PurgeFollowsTheRule` | src/services/admin/candidates.py:168-230 | the purge deletes exactly those, with their applications, returns their number, writes one audit row each, and leaves no application without a candidate and everything else as it was |
| `Retention.SecondPurgeFindsNobody` | src/services/admin/candidates.py:168-230 | a second purge at the same time changes nothing and returns zero |
| `SingleFlight.Interceptor.OnError` | frontend/src/services/api.ts:47-71 | a failure is passed on, queued, or starts the refresh |
| `SingleFlight.Interceptor.DrainQueue` | frontend/src/services/api.ts:32-35 | the waiting requests are sent again in order, and the queue is empty |
| `SingleFlight.Interceptor.OnRefreshSucceeded` | frontend/src/services/api.ts:78-88 | token, queue, owner, flag |
| `SingleFlight.Interceptor.OnRefreshError` | frontend/src/services/api.ts:83-88 | the session ends, the owner fails, the queue is not touched |
| `SingleFlight.OneRefreshInFlight` | frontend/src/services/api.ts:62-88 | over every ordering, refreshes started exceed refreshes ended by at most one |
| `SingleFlight.EveryRetriedRequestIsSomewhereOnce` | frontend/src/services/api.ts:47-88 | a marked request owns the refresh, waits, was replayed or gave up, exactly one of these and once; so none is replayed twice |
| `SingleFlight.WaitingUntilARefreshSucceeds` | frontend/src/services/api.ts:62-85 | a waiting request is replayed exactly once, with the token of the first refresh that succeeds from then on, and waits on if none does |
| `SingleFlight.SuccessEmptiesTheQueue` | frontend/src/services/api.ts:73-88 | a success leaves nobody waiting and replays queue and owner in order with its own token |
| `SingleFlight.ReplayedFailureIsFinal` | frontend/src/services/api.ts:49-58 | a replayed request that fails again is passed on |
| `SingleFlight.FailureStartsOrWaits` | frontend/src/services/api.ts:60-71 | a first failure with a 401 starts the refresh if none is in flight, and else waits behind the others |
| `SingleFlight.PassedOnExactly` | frontend/src/services/api.ts:47-58 | over every ordering, a failure is passed on exactly when it is no 401, comes from an auth endpoint, or is its request's second; and the token is the last refresh's |
| `SingleFlight.QueueIsInOrder` | frontend/src/services/api.ts:62-69 | over every ordering, the queue is in the order in which its requests failed first |

## Left out

- Cursor.DecodeCursor: refuses the further spellings that `datetime.fromisoformat` and `int` accept (offsets other than `+00:00`, shorter dates, spaces, signs and underscores in numbers, letters beyond ASCII); no cursor that the server hands out uses them.
- Keyset.Listing: a row is its sort key; the filter of a query is which keys are in the table at a fetch.
- InfiniteList.Hook.Settle: does not model `prependItem`, `updateItem` and `removeItem`, which edit the list in place and make it no prefix by intent, nor a fetcher that changes while its page is under way.
- JsonLd.PayloadIsFaithful: covers null, booleans, integers, texts, lists and objects; floating-point numbers do not occur in the graphs the endpoints build.
- Sessions.AuthDatabase.RefreshUserTokens: tables are keyed by the unique token hash, without surrogate ids; access tokens, cookies, log lines and audit rows are not modelled, and password hashing is equality of passwords.
- Sessions.AuthDatabase.RequestPasswordReset: takes the user that the email was resolved to, and not the email.
- Sessions.AuthDatabase.ResetPasswordRequest: the deferred clearing of the login guard is the event `Cleared` of `Lockout`, and not part of this state.
- SessionRuns.ReplayRevokesEverySession: serialized requests only; a rotation that had read its row before the replay's delete still commits, and the same holds of `SessionRuns.ResetRevokesEverySession`.
- Interleaving.NoTokenRotatedTwice: a login, a revocation and a change of a user are one step each; the phases are those of refreshes and logouts.
- Lockout.Account.AuthenticateUser: one account; finding it by its email, and the refusal of an unknown email, are not part of it.
- Lockout.FailuresInAnyStretch: serialized logins; two that read the lock at the same moment are not.
- Activation.Accounts.RegisterCandidateRequest: takes the normalized email; policy versions, request addresses and user agents are not stored, and of the profile only the link, the name and the consent time.
- Activation.Accounts.LinkOrCreateProfile: the consent's policy version, address and user agent and the terms' version are not stored.
- ActivationRuns.ResendsAreAnHourApart: serialized requests; the code accepts a window for parallel ones.
- Transactions.Runtime.RunBlock: a block's writes are not modelled, only its commit and rollback; two nested blocks on one database session share a commit there, and are two here.
- Recruitment.Board.CreateCandidateProfile: the claim of an account while applying is registration, modelled in `Activation`; of the job only status, title and the rest as one text are kept, and application timestamps are not.
- Recruitment.Board.UpdateJobRequest: the fields other than title and status are one text.
- Recruitment.Board.EditMyApplication: the old resume file is not deleted from storage here.
- Recruitment.Board.DeleteCandidateRequest: the resume file is not deleted from storage here.
- Retention.PurgeExpiredCandidates: resume files in storage are not deleted here.
- SingleFlight.Interceptor.OnRefreshError: the redirect to the login page, which discards the page and with it the queue, is not modelled.
- Invite tokens, job approval and rejection, saved files, contracts, the data export, email bodies and delivery, rate limits per address, HTTP status mapping, React pages, migrations and scripts.
- A rule that closed jobs have no active applications: it does not hold, since admins may set any status afterwards and only the step from published to closed cascades.
