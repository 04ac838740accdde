# Authentication of springhere-gin-server, modelled and proved

The service keeps a login in Redis in three places: a session record, a key from the digest
of the current refresh token to the session, and a per-user sorted set of sessions scored by
expiry.  Calls that touch them are partly atomic (one transaction, three Lua scripts) and
partly several commands with other clients in between.  On top stand login, refresh, logout,
the admin handlers over the `users` table, and a middleware that decides access from the
Redis copy of a user alone.  This project models all of that and proves what holds over every
run.

| file | content |
|---|---|
| `Entities.dfy`, `Text.dfy`, `Numbers.dfy` | values; trimming, case and digits; minimum and maximum |
| `Uuid.dfy` | which strings the database reads as a UUID, and the one spelling it prints |
| `SessionStore.dfy` | the session store as three maps, each atomic block as a function |
| `SessionProtocol.dfy` | every call as a process with a program counter, the clock, and the invariant of every interleaving |
| `SessionTheorems.dfy` | theorems over whole runs of that protocol |
| `IndexTheorems.dfy` | exactly which sessions a user's index lists in a run, and so what a wipe leaves, how long an index lasts and who is online |
| `Keyspace.dfy`, `RedisStores.dfy` | the single string-keyed Redis store, the Redis commands, and the stores written with them, refining the maps |
| `Middleware.dfy` | the acceptance decision |
| `AuthSystem.dfy`, `AuthTheorems.dfy` | the handlers, one request at a time, and sessions as copies of rows over their runs |
| `RequestTheorems.dfy` | for each request of a run: which answer is given exactly when, and what it leaves |
| `AccountTheorems.dfy` | what the handlers mean for the next sign-in of the people they act on |
| `AdminTheorems.dfy` | the steps and the tokens of a run, and when an active admin remains |
| `AuthLimits.dfy` | failing runs, with tokens that they issue themselves, and with them the exact conditions |
| `SystemRuns.dfy` | the store under the handlers moves by steps of the protocol |
| `Services.dfy` | the handlers as imperative code over the users table and the string-keyed Redis |
| `Captcha.dfy`, `Like.dfy`, `Paging.dfy` | one-time captchas and the issue limiter, the e-mail filter, the paged list |

## How to read the model

- Times are whole milliseconds; the application and Redis share one clock.  A key is readable
  while `now <= expireAt`.  Redis checks expiry before each command, so expired keys are taken
  out when the clock moves.
- `Create` reads its own clock before its transaction reaches Redis.  Both moments are in the
  model, with any time in between: a session's score in the index is its client's clock plus
  the lifetime (`Due`), its end is the transaction's time plus the lifetime (`End`), so
  `Due <= End`.  The difference is the login's lag.  In the handlers' runs too a login reads
  the clock, lets its lag pass, and commits.
- EXPIRE takes whole seconds; the Redis client rounds less than a second up and truncates the
  rest.  `slack` is the most that truncation has cut off any lifetime in a run; it is 0 when
  lifetimes are whole seconds, as the default of 30 days is.  The comment at
  internal/data/auth_session.go:51-52 promises the longest remaining lifetime; the code keeps
  it up to this truncation, and `IndexCoverageIffWhole` says exactly when.  Logins may differ
  in lifetime, the case that comment is about: run theorems on indexes and wipes take a set of
  lifetimes.
- Session ids, access jtis and refresh digests are new when drawn; digests presented by
  clients are arbitrary.  A JSON record is its value, and comparing its text is comparing the
  value.  Password hashing is injective.  A correctly signed token is its claims; its dates are
  cut to whole seconds when it is issued.  What is said to hold in runs holds whatever tokens
  are presented, unless it says issued tokens: every token was issued by an earlier step of the
  same run.  All failing runs use issued tokens.
- The users table has a UUID column.  It finds a row by any spelling that section 8.12 of the
  PostgreSQL documentation lists (either case, hyphens after any group of four digits or none,
  braces or none) and prints lower case with four hyphens; any other text is an error.  User ids
  are drawn and kept as printed.  A canonical path is, after trimming, spelled as the table
  prints it, or no UUID at all.
- The pace of a run of the handlers is two numbers: no login lags by more than `lag`, and each
  request comes at least `gap` after the one before has been answered.  Both may be 0.  With
  `ttl` the configured lifetime of sessions, a pace is *safe* when `ttl < gap`, or EXPIRE does
  not truncate `ttl` and `lag < gap` or `ttl < 2 * gap`; it is *guarded* when `lag < 2 * gap` or
  `ttl < 4 * gap`, and EXPIRE cuts at most `gap` off `ttl`.
- A multi-command call is split at each Redis reply.  Drawing random values and reading the
  local clock happen together with the first reply.
- The handlers run one at a time, since the code reads a row and writes a session in separate
  steps.  A store step succeeds or the request had no effect.

Some promises turn out to be conditional.  For each there are failing runs or inputs and the
exact condition, both ways.

- An index outlives the sessions it lists, for every set of lifetimes: `IndexCoverageIffWhole`.
- A wipe ends every session of its user.  It leaves exactly those whose index entry a login or
  the index's expiry took out before (`WipeLeavesExactlyDropped`); such a session may be before
  its end (`LagMisses`, for every lifetime and lag; `TruncatedMisses`).  No wipe leaves one if and
  only if no login lags and EXPIRE cuts at most a millisecond (`WipeCompleteIff`).
- Sessions mirror rows: with issued tokens, at exactly the safe paces and where tokens do not
  outlast the gap (`AgreementIffSafe`).
- An active admin remains.  Losing the last one takes a schedule of six steps: logins, token
  issues and two removals.  `LosesAdmin` says when it fits into the lifetimes, the lag and the
  gap.  With issued tokens an admin remains where it does not fit, and is lost where it fits with
  the second to spare that token dates are cut by (`AdminKeptBounds`, `AdminKeptIff`).  For
  lifetimes well above the gap, as the shipped ones are, the condition is `lag < 2 * gap` and at
  most `gap` cut off by EXPIRE (`AdminKeptIffGuarded`); requests in one millisecond, `gap` 0,
  never meet it.
- The same where all requests name one user: at any pace, for canonical paths, or where no
  session or no token outlasts the gap (`AdminKeptIffCanonical`).
- The total of a page: `FindByPage`, `List`.

## Model

| member | source | states |
|---|---|---|
| SessionProtocol.StepInv | internal/data/auth_session.go:36-195 | every step of every call (Create, the three phases of Rotate, Delete, the two phases of logout, user wipe, the phases of OnlineMap) and every move of the clock keeps the whole invariant |
| SessionProtocol.CreateIndex | internal/data/auth_session.go:49-54 | pruning by a client's possibly old clock, then ZADD and both EXPIREs, keep every index listing only its user's unrevoked sessions with their scores, and keep every session listed that no login of its user has overtaken and that is short of what EXPIRE cut off |
| SessionProtocol.RotateSessions | internal/data/auth_session_scripts.go:5-14 | a winning compare-and-swap keeps sessions and refresh keys paired, for every other session too |
| SessionProtocol.RemovesInv | internal/data/auth_session_scripts.go:16-39 | taking sessions, their refresh keys and their index entries out together keeps the invariant |
| SessionProtocol.DeleteRemoves | internal/data/auth_session_scripts.go:16-24 | the delete script takes out exactly one session, its current refresh key and its index entry |
| SessionProtocol.WipeRemoves | internal/data/auth_session_scripts.go:26-39 | the user script takes out exactly the listed readable sessions, their refresh keys and the index |
| SessionTheorems.RunInv | internal/data/auth_session.go:36-195 | the invariant holds in every state of every run |
| SessionTheorems.StoreStaysCoherent | internal/data/auth_session.go:36-138 | in every state of every run each session has exactly one refresh key, its current digest with the same end, each refresh key leads to such a session, each entry not yet due is a readable session of that user, and each session short of its last unindexed milliseconds is in exactly its own user's set with its score |
| SessionTheorems.StoredComplete | internal/data/auth_session.go:36-39 | no run ever stores a session with an unknown role or without user, jti or refresh digest |
| SessionTheorems.OneWinnerPerDigest | internal/data/auth_session.go:68-101 | of any number of rotations holding one refresh digest at most one ever commits in a run; every other commit, earlier or later, leaves the store unchanged |
| SessionTheorems.SpentUnreadable | internal/data/auth_session_scripts.go:11-13 | a digest that a rotation replaced is never readable again |
| SessionTheorems.GoneForever | internal/data/auth_session_scripts.go:6-39 | a created session that is no longer readable never comes back: no record, no refresh key to it, no accepted token, in any later state, whatever is in flight |
| SessionTheorems.DeletionIsFinal | internal/data/auth_session.go:104-138 | deleting a session, singly or in a wipe, revokes it for the rest of the run |
| SessionTheorems.AcceptedTokenIsCurrent | pkg/middleware/auth.go:54-76 | an accepted token carries the jti of its session's login or most recent successful rotation, as read off the run's events, its user is the login's user, and the login's lifetime has not passed |
| SessionTheorems.LatestJTIRecorded | internal/service/auth.go:149-199 | the jti in force is the one that the latest committed login or rotation of the session wrote |
| SessionTheorems.ReplacedTokenNeverAccepted | internal/data/auth_session.go:87-93 | the access token that a rotation replaces is refused in every later state |
| SessionTheorems.ExpiryConserved | internal/data/auth_session_scripts.go:8-14 | between any two states of a run a session and its refresh key keep one absolute end, through any rotations |
| SessionTheorems.RotationReturnsTimeLeft | internal/data/auth_session.go:93-100 | in every run a winning rotation returns the time of the session's login plus its lifetime minus now, which is positive, and both keys end then |
| IndexTheorems.ListedIffNotDropped | internal/data/auth_session.go:49-54 | in every state of every run a readable session is listed if and only if, since its login, no login of its user had a clock at or past its due time and the index has not expired |
| IndexTheorems.UnlistedIffPruned | internal/data/auth_session.go:49-54 | where EXPIRE has cut nothing off, a readable session is unlisted if and only if such a login has pruned it |
| IndexTheorems.WipeLeavesExactlyDropped | internal/data/auth_session.go:129-138 | a wipe at any moment leaves of the user's sessions exactly those whose entry was taken out before, no dangling refresh key and no index, and everything of every other user as it was |
| IndexTheorems.CreateCoversIffWhole | internal/data/auth_session.go:49-54 | after one Create the index reaches the new session's end exactly when EXPIRE does not truncate the lifetime or the surviving index already reached that far |
| IndexTheorems.IndexCoverageIffWhole | internal/data/auth_session.go:51-54 | for every set of lifetimes: in all runs drawing from it no index expires before a session it lists if and only if EXPIRE truncates no positive member |
| IndexTheorems.WipeCompleteIff | internal/data/auth_session_scripts.go:26-39 | for every set of lifetimes and bound on the lag: in all such runs no wipe leaves a session before its end if and only if, where there can be logins at all, the bound is 0 and EXPIRE cuts at most one millisecond off each lifetime |
| IndexTheorems.WipeTakesUndueIff | internal/data/auth_session_scripts.go:26-39 | for every set of lifetimes and any lags: no wipe leaves a session that has not fallen due if and only if EXPIRE cuts at most one millisecond off each |
| IndexTheorems.LagMisses | internal/data/auth_session.go:44-50 | for every lifetime and every lag but 0, a run in which a second login prunes the first session before its end, the wipe leaves it, and its token is accepted afterwards |
| IndexTheorems.TruncatedMisses | internal/data/auth_session.go:53-54 | for every lifetime that loses two milliseconds or more, a run without lag in which a wipe leaves a session that is not due |
| SessionTheorems.LogoutBeatsRotation | internal/data/auth_session.go:114-127 | a logout that looked its digest up before other steps, rotations included, ends with the session and every refresh key to it gone in every later state, and unlisted in every later state if it was readable when deleted |
| SessionTheorems.OnlineMeansReadable | internal/data/auth_session.go:176-193 | under any interleaving a user reported online had a readable session when it was checked |
| IndexTheorems.OnlineUnlessEnded | internal/data/auth_session.go:150-193 | with only time passing between the two pipelines, a user whose first listed session was found is reported online if and only if that session has not ended by the check |
| IndexTheorems.OnlineIffShown | internal/data/auth_session.go:140-195 | in every state of every run a user is online exactly when one of its readable sessions has kept its index entry and is not past due; so being online is having a readable session exactly when the user has none or has such a one |
| IndexTheorems.OnlineAnswersAll | internal/data/auth_session.go:140-195 | a call that nothing disturbs ends by reporting exactly those of the non-empty ids asked that are online |
| Keyspace.BuildersNeverCollide | internal/data/auth_session.go:213-215 | the five key builders are injective (IP keys up to trimming, and blank counts as "unknown") and never meet, for canonical captcha ids |
| Keyspace.CaptchaMeetsIp | internal/data/captcha.go:93-101 | a captcha key is an IP counter's key exactly when its id is that IP after "ip:" |
| Keyspace.OthersKept | internal/data/auth_session.go:15-19 | writing or deleting one key leaves the other four kinds of keys as they were |
| Keyspace.TimePasses | internal/data/auth_session.go:46-54 | expiry in the flat store is expiry in the separate maps |
| RedisStores.Redis.ZFirst | internal/data/auth_session.go:154 | ZRANGEBYSCORE with limit 1 finds a member of least score not below the bound, or reports that there is none |
| RedisStores.Redis.Tick | internal/data/auth_session.go:44-54 | passing time takes the expired keys out of the flat store and of the view alike |
| RedisStores.RedisAuthSessionStore.Create | internal/data/auth_session.go:36-60 | the six commands on string keys do what the transaction does to the maps, exactly for valid arguments |
| RedisStores.RedisAuthSessionStore.TouchIndex | internal/data/auth_session.go:49-54 | prune, ZADD, EXPIRE NX and EXPIRE GT together leave the index with an expiry, never an earlier one |
| RedisStores.RedisAuthSessionStore.Get | internal/data/auth_session.go:62-66 | returns the readable session's snapshot and nothing else |
| RedisStores.RedisAuthSessionStore.RunRotateScript | internal/data/auth_session_scripts.go:5-14 | the script's commands are the compare-and-swap on the maps, with its return value |
| RedisStores.RedisAuthSessionStore.Rotate | internal/data/auth_session.go:68-101 | undisturbed, it succeeds exactly when the token leads to a session with time left that still carries it; then jti and digest change, the end does not, and the time left is returned; otherwise nothing changes |
| RedisStores.RedisAuthSessionStore.Delete | internal/data/auth_session.go:103-112 | the script's commands are the deletion on the maps |
| RedisStores.RedisAuthSessionStore.DeleteByRefreshDigest | internal/data/auth_session.go:114-127 | deletes the session a known digest leads to and otherwise nothing |
| RedisStores.RedisAuthSessionStore.DeleteUserSessions | internal/data/auth_session.go:129-138 | the script's loop, whatever the number and state of index entries, is the wipe on the maps |
| RedisStores.RedisAuthSessionStore.OnlineMap | internal/data/auth_session.go:140-195 | answers for exactly the non-empty ids asked; true exactly when the first entry not yet due is a readable session that no later user has as its first entry; over a sound index, true exactly for users with a listed session not yet due |
| RedisStores.UniqueUserIDs | internal/data/auth_session.go:197-211 | the non-empty ids, once each, in the order of first occurrence |
| RedisStores.RedisCaptchaStore.Put | internal/data/captcha.go:42-51 | stores the answer with its lifetime, exactly for valid arguments and under any id; under an id that is not spelled like an IP counter it is that captcha of the view and nothing else changes |
| RedisStores.RedisCaptchaStore.Consume | internal/data/captcha.go:53-70 | for any id, takes out what the key holds whatever the answer and compares after normalizing: the captcha, or for an id spelled like an IP counter that counter's digits |
| RedisStores.RedisCaptchaStore.ConsumeLogin | internal/service/auth.go:223-250 | only trimmed answers of at most 16 characters to canonical ids reach the store; disabled captchas always pass |
| RedisStores.RedisCaptchaStore.AllowIssue | internal/data/captcha.go:72-86 | counts the request under its trimmed address, keeps the window's end, and allows up to the limit; invalid limits change nothing |
| Middleware.AllowedRoles | pkg/middleware/auth.go:37-47 | the set of the listed roles, and a panic exactly on an invalid or empty list |
| AdminTheorems.AlwaysAnActiveAdmin | internal/service/user.go:197-378 | in every state after bootstrap of every run with canonical paths the table has an active admin: at a guarded pace whatever tokens are presented, and with issued tokens wherever the schedule of a loss does not fit |
| AdminTheorems.UseNeedsSchedule | internal/service/user.go:347-378 | if an issued token of a session that another admin's request had spared is accepted later, the run has the steps of a loss in the spaces that the lifetimes, the lag and the gap leave |
| AdminTheorems.PruningSchedule | internal/data/auth_session.go:44-54 | the steps of a loss by a pruned session, in any order that the pace allows, need one of four inequalities between lifetimes, lag and gap |
| AdminTheorems.LapsingSchedule | internal/data/auth_session.go:53-54 | the same for an index that expires before its session |
| AdminTheorems.ShortTokensChangeNothing | pkg/utils/token.go:37-41 | with issued tokens that do not outlast the gap, at any pace and on any paths, sessions mirror rows and an active admin remains |
| AdminTheorems.IssuedWhen | internal/service/auth.go:149-205 | a token is issued by the login of its session, or by a refresh before that session's end, for no more than the access lifetime |
| AdminTheorems.ActorSurvives | internal/service/user.go:366-378 | no admin request takes role or active flag from an admin's row other than the named user's, nor from the actor's own |
| AuthTheorems.SessionsMirrorRows | internal/entity/principal.go:27-36 | in every run at a safe pace with canonical paths every readable session's id, e-mail, remark, role and active flag are its user's row, which exists |
| AuthTheorems.DecisionMatchesTable | pkg/middleware/auth.go:59-80 | in such runs, for every token and role list the decision from Redis is the decision from the table, and who passes as an admin is an active admin there |
| AuthTheorems.AdminAgreement | internal/service/user.go:141-354 | every admin handler keeps the agreement of sessions and rows when all sessions are listed, since it wipes before it writes |
| AuthTheorems.SafeListed | internal/data/auth_session.go:44-54 | at a safe pace every readable session is in its user's index whenever a request comes |
| AdminTheorems.SpareEndsSoon | internal/data/auth_session.go:44-54 | at a guarded pace a session that a wipe by another user leaves ends before the next request |
| AdminTheorems.OnePathKeepsAdmin | internal/service/user.go:356-378 | at any pace, requests that all name one user by a canonical path never remove the last admin |
| AuthTheorems.BootstrapEffect | pkg/app/app.go:40-47 | bootstrap leaves an active admin in its row, wipes that user only and touches no other row; the store's invariant and the table's constraints are kept |
| AuthTheorems.LoginEffect | internal/service/auth.go:110-157 | a login with any lag leaves the table and at most adds one session, a true copy of its row, besides those that expire meanwhile |
| AuthTheorems.RefreshStill | internal/service/auth.go:170-199 | a refresh keeps the table and every session's user, snapshot and end, and at most ends a session |
| AuthLimits.TruncatedGoesStale | internal/data/auth_session.go:53-54 | for every lifetime that EXPIRE truncates and every gap within it and below the access lifetime, a run with issued tokens in which a session outlives a change of its user's row |
| AuthLimits.LateLoginGoesStale | internal/data/auth_session.go:44-50 | for every lifetime of at least two gaps and every lag of at least one, such a run, whole lifetimes included |
| AuthLimits.AgreementIffSafe | internal/service/user.go:203-207 | for every lifetime, access lifetime, lag and gap: sessions mirror rows in every run at that pace with canonical paths and issued tokens if and only if the pace is safe or tokens do not outlast the gap |
| AuthLimits.OtherSpellingDeletesSelf | internal/service/user.go:230-245 | for every path that spells a UUID in any way but the printed one, and every gap within both lifetimes, a run with issued tokens in which the only admin deletes itself |
| AuthLimits.AdminKeptIffCanonical | internal/service/user.go:356-378 | at any pace and with issued tokens: requests naming users by one path keep an active admin in every run if and only if the path is canonical, or the gap outlasts every session or every token |
| AuthLimits.PrunedOldToken | internal/data/auth_session.go:44-50 | for every lag of at least two gaps, lifetime of at least four and long access lifetime, a run with issued tokens in which two admins delete each other and none is left |
| AuthLimits.PrunedFreshTokens | internal/service/auth.go:170-205 | the same for access lifetimes just above three gaps, with a refresh before the pruning login |
| AuthLimits.PrunedRenewedLate | internal/service/auth.go:170-205 | the same for access lifetimes just above two gaps and a lag of three, with a refresh between the removals |
| AuthLimits.PrunedLateTokens | internal/service/auth.go:170-205 | the same for access lifetimes just above one gap and a lag of four |
| AuthLimits.LapsedOldTokens | internal/data/auth_session.go:53-54 | for every lifetime that loses more than a gap and access lifetime above it, such a run without lag |
| AuthLimits.LapsedFreshTokens | internal/data/auth_session.go:53-54 | the same for access lifetimes just above two gaps |
| AuthLimits.LapsedRenewedLate | internal/data/auth_session.go:53-54 | the same for access lifetimes just above one gap and lifetimes that lose more than two |
| AuthLimits.AdminKeptBounds | internal/service/user.go:197-378 | for every lifetime, access lifetime, lag and gap: with issued tokens and canonical paths an active admin remains after every run where the schedule of a loss does not fit, and not where it fits with 999 milliseconds to spare |
| AuthLimits.AdminKeptIff | internal/service/user.go:197-378 | the same as an if and only if, outside that last second |
| AuthLimits.AdminKeptIffGuarded | internal/service/user.go:197-378 | for session lifetimes of at least five gaps and access lifetimes a second above three: an active admin remains after every such run if and only if lags stay below two gaps and EXPIRE cuts at most one gap |
| Uuid.CanonicalIsNormal | cmd/migrate/migrations/000001_init.up.sql:6 | what the column prints it reads back as the same, also in braces |
| Uuid.PrintsCanonical | cmd/migrate/migrations/000001_init.up.sql:6 | whatever it reads it prints in one spelling, lower case with hyphens after 8, 12, 16 and 20 digits |
| Uuid.OtherSpellings | cmd/migrate/migrations/000001_init.up.sql:6 | without hyphens, in braces and in upper case every UUID is read as the same |
| Uuid.UuidIffSpelled | cmd/migrate/migrations/000001_init.up.sql:6 | a string is a UUID to the column if and only if it spells 32 digits with an optional hyphen after each group of four and optional braces, and then it stands for those digits |
| Text.NormalizedAlike | internal/data/user.go:183-186 | two e-mails, and two captcha answers, normalize to the same text if and only if they differ at most in outer white space and the case of letters |
| Text.NormalizedForm | internal/data/captcha.go:88-91 | normalizing keeps the text without outer white space, e-mails in lower and answers in upper case |
| SystemRuns.RunReaches | internal/service/auth.go:110-221 | in every run of the handlers the session store is in the last state of a protocol run, so all theorems about those hold of it |
| RequestTheorems.LoginAnswers | internal/service/auth.go:110-167 | in every run a login issues a token exactly for the e-mail and password of an active row; it then writes that row's session under the session id, digest and jti it drew, with one end for record and refresh key, and the token names them; otherwise nothing is written |
| RequestTheorems.LoginThenRefresh | internal/service/auth.go:149-199 | the digest that a login drew refreshes its session at any time before the session's end and at no other, with a token for the same user and session |
| RequestTheorems.LoginAlike | internal/service/auth.go:123 | e-mails that differ at most in outer white space and the case of letters sign in alike |
| RequestTheorems.RefreshDecides | internal/service/auth.go:170-209 | in every run a refresh issues a token if and only if its digest leads to a session with time left whose snapshot is active with a valid role; at any later moment the middleware decides for that token as the snapshot says until token or session end; digest and jti move, and every other session, refresh key, index and row stays; a session whose snapshot is not of that kind is deleted |
| RequestTheorems.RefreshReplaces | internal/service/auth.go:183-199 | the token that a refresh replaces is refused in every later state |
| RequestTheorems.LogoutDeletes | internal/service/auth.go:212-221 | in every run a logout is answered Done; with a readable refresh key it deletes that key, the session it leads to and the session's index entry, and nothing else; with any other digest nothing changes |
| RequestTheorems.LogoutEnds | internal/service/auth.go:212-221 | from then on, in every later state, no record, refresh key, index entry or accepted token of the session is left |
| RequestTheorems.Admission | pkg/middleware/auth.go:48-80 | in every run the admin routes answer Unauthenticated exactly when the token is not accepted and Denied exactly when its session is no admin's, changing nothing, and otherwise act for the token's user |
| RequestTheorems.KickAnswers | internal/service/user.go:305-323 | the exact condition of each answer to an admitted kick; Done leaves the rows and exactly the sessions that the user's index did not list |
| RequestTheorems.DeleteAnswers | internal/service/user.go:225-255 | the exact condition of each answer to an admitted deletion; Done removes the named row, no other, and wipes the user |
| RequestTheorems.SetActiveAnswers | internal/service/user.go:258-302 | the exact condition of each answer to an admitted status change; Done writes the flag asked for into the named row, no other, and wipes the user |
| RequestTheorems.CreateAnswers | internal/service/user.go:64-115 | the exact condition of each answer to an admitted creation; Done adds the row that was entered and changes nothing else |
| RequestTheorems.UpdateAnswers | internal/service/user.go:141-222 | the exact condition of each answer to an admitted update; a conflict leaves the rows but has wiped the user, any other refusal changes nothing |
| AccountTheorems.UpdateThenLogin | internal/service/user.go:141-222 | in every run at a safe pace, after an update the user is signed out, other rows are unchanged, and the next sign-in, whenever it comes, goes by the new e-mail and password and is seen with the new remark and role |
| AccountTheorems.KickSignsOut | internal/service/user.go:305-323 | in every run at a safe pace a kick answered Done leaves no session of the user, the table as it was and every other user's sessions as they were |
| AccountTheorems.SetActiveThenLogin | internal/service/user.go:258-302 | in every run at a safe pace a status change answered Done writes that flag and no other row, signs the user out, and the next sign-in goes by the flag and the old password |
| AccountTheorems.RestartThenLogin | internal/data/user.go:34-73 | in every run, after every start with a password, the bootstrap user's row, the old one if there was one, is an active admin with that password, other rows are unchanged, listed sessions of the user are gone, and the next sign-in needs that password |
| AccountTheorems.CreateThenLogin | internal/service/user.go:64-115 | in every run a created user signs in, whenever it comes, exactly with the entered password if active, and is seen as entered |
| AccountTheorems.ShutOut | internal/service/user.go:225-302 | in every run at a safe pace, a user that is disabled or deleted has no session left and cannot sign in next with any password, whenever it tries |
| AccountTheorems.LoginDecides | internal/service/auth.go:123-157 | a sign-in works exactly for an active row's password; the middleware then sees that row until the token's whole-second expiry, and the digest drawn is the session's refresh key |
| Services.Server.Authorize | pkg/middleware/auth.go:48-80 | the middleware's steps over the string-keyed store are the acceptance decision |
| Services.Server.EnsureBootstrapAdmin | internal/data/user.go:34-73 | creates or resets the bootstrap row and wipes its sessions, as the model's bootstrap |
| Services.Server.Login | internal/service/auth.go:110-167 | a captcha that does not pass ends the request with a bad-request outcome and accounts and sessions as they were; one that passes is used up and the model's login decides, state and outcome |
| Services.Server.SignIn | internal/service/auth.go:123-167 | the steps of a sign-in, its clock reading and lagging transaction included, are the model's login |
| Services.Server.Refresh | internal/service/auth.go:170-209 | the steps of a refresh are the model's refresh, with the deletion of inactive sessions |
| Services.Server.Logout | internal/service/auth.go:212-221 | the steps of a logout are the model's logout |
| Services.Server.CreateUser | internal/service/user.go:64-115 | the checks and the insert, in order, are the model's creation |
| Services.Server.UpdateUser | internal/service/user.go:141-222 | editing the row field by field, then wiping, then writing, is the model's update, with any spelling of the id, errors and conflicts included |
| Services.Server.DeleteUser | internal/service/user.go:225-255 | the steps of a deletion are the model's deletion |
| Services.Server.SetActive | internal/service/user.go:258-302 | the steps of a status change are the model's status change |
| Services.Server.Kick | internal/service/user.go:305-323 | the steps of a kick are the model's kick |
| Services.Server.Serve | internal/router/user.go:22-31 | one request over the table and the string-keyed Redis is one step of the runs above, with its answer |
| Services.Server.ServeAll | internal/router/user.go:22-31 | a list of requests served by one server gives the run's answers and ends in its last state, where the index is sound, an active admin is in the table and sessions mirror rows under the conditions above |
| Services.ServedIndexSound | internal/data/auth_session.go:140-195 | after any served requests every index entry not yet due is a readable session of that user |
| Services.Server.WithOnline | internal/service/user.go:326-344 | writes each item's online flag in place and nothing else; true only of users with a readable listed session not yet due, and over a sound index of all those |
| Captcha.StoreHoldsPending | internal/data/captcha.go:42-70 | the store holds exactly the captcha put last under an id, if it is in time and no attempt has come since |
| Captcha.PassesIff | internal/service/auth.go:224-250 | a login passes exactly when its id is a printed UUID, its trimmed answer has 1 to 16 characters, and it is the first such attempt on the captcha put last there, in time, with its answer in upper case |
| Captcha.AnswersAlike | internal/service/auth.go:229-247 | answers that differ at most in outer white space and the case of letters get the same verdict |
| Captcha.AttemptBurns | internal/data/captcha.go:19-25 | every well-formed attempt burns the captcha, right or wrong |
| Captcha.OnePassPerCaptcha | internal/data/captcha.go:19-25 | between two passes on one id a captcha was put there |
| Captcha.CounterFollowsWindow | internal/data/captcha.go:27-32 | a counter belongs to the latest window, always has that window's end as its expiry, and no request moves it |
| Captcha.AllowedIffFew | internal/data/captcha.go:72-86 | a request is allowed if and only if it opens a window or fewer than the limit have come since the one that opened its window |
| Captcha.LimiterBound | internal/data/captcha.go:72-86 | per address at most the limit in a window that a request opened, and at most twice the limit in any interval as long as a window, over any trace |
| Like.EscapedPrefix | internal/data/user.go:188-192 | an escaped text followed by % matches exactly the strings it begins |
| Like.ContainsMatchesSubstring | internal/data/user.go:78-80 | the filter's pattern is never malformed and matches exactly the strings that contain the search text, for all texts |
| Like.EscapingMatters | internal/data/user.go:188-192 | an unescaped wildcard would match other strings |
| Paging.FindByPage | internal/model/query/users.gen.go:383-396 | the page, and a total that is the number of rows exactly when the offset is not negative, there are no rows, or they fill the first page |
| Paging.List | internal/service/user.go:43-50 | the total is the number of rows exactly when the wrapped offset is not negative, there are no rows, or they fill a page; without overflow it always is, and the page is its stretch of the rows |
| Paging.OverflowBreaksTotal | internal/service/user.go:45 | a page number whose product overflows and whose total for one row is negative |
| Paging.PagesCoverRows | internal/model/query/users.gen.go:383-396 | over a fixed order the pages, one after the other, are all rows, each once |

## Left out

- HTTP, JSON shapes, cookies, CORS, request ids, body limits, logging, recovery, request field validation by tags: plumbing or single checks.
- Authorization header parsing, JWT signing, bcrypt, SHA-256, random and UUID generation, captcha drawing: taken as ideal functions on fresh values.
- Failures of Redis, the database or token signing in the middle of a request.
- Row and session agreement with handlers interleaved: the code does not make the row read and the session write one step, and requests one after the other in one millisecond already break it (`AgreementIffSafe` with `gap` 0).
- AdminKeptIff: where the schedule of a loss fits only by less than the second that token dates are cut by, whether a run fits depends on the phase of the clock and on the gaps modulo a second, and is left open; `AdminKeptBounds` gives both sides of that second.
- Case folding and white space beyond ASCII letters and Latin-1 spaces; string lengths count characters, not UTF-8 bytes.
- Lifetimes that are not whole milliseconds.
- Captcha windows that are not whole seconds: `LimiterBound` speaks of the truncated window that the code sets; the service uses one minute.
- Redis.ZRange: the members without their order, which the wipe does not use.
- OnlineMap with other calls between its two pipelines: `OnlineMeansReadable` gives one side only; with time passing alone `OnlineUnlessEnded` is exact.
- Timestamps of rows and the list order by creation time: pages are taken over a fixed total order.
- Role and status filters of the user list, configuration, migrations, server start and stop, the rest of the generated query code: straight-line conditions and wiring that the results above do not depend on.
- Redis.Keep: a helper without a counterpart in the source; it is the deletion of emptied sorted sets that Redis performs.
