# Sudatutor in Dafny

A model of the data layer and decision code of Sudatutor, a Next.js
tutoring app where students pick a class and a subject, chat with a tutor
in sessions kept in folders, and administrators manage classes and
subjects and read usage analytics. The Prisma database is one object,
`Schema.Db`, holding a sequence per table (users, admins, classes,
subjects, folders, chat sessions, messages); `Db.Valid()` says that ids are
unique in every table and that no two users share an email, and every
method that writes a table keeps it. A Prisma `where` is a filter, an `orderBy` a sort on
a compound key (`Sorting.Key`: an integer such as a timestamp, then a
string such as the id), `take`/`skip` a slice and a `cursor` the position
of the row with that id. Ids are strings, instants are integers in
milliseconds and a day is `instant / 86400000`. Ids and instants the
database or the clock would produce are parameters of the operations.

The model follows the program's files:

- the chat store (`ChatRepository`) with its cursor pagination on
  `(lastMessageAt, id)` and `(createdAt, id)`, ownership checks and the
  atomic exchange, and the chat service on top of it (`ChatService`), the
  class/subject context the service requires (`ContextActions`), folders
  (`FolderActions`) and credential checks (`AuthService`);
- the two fixed-window rate limiters (`Limiter`, `SecurityRateLimit`) as
  classes over their shared dictionaries;
- the validators and security helpers (`AuthValidators`, `ChatValidation`,
  `ChatValidators`, `Security`, `Errors`, `AuthConfig`);
- routing and the account routes (`Proxy`, `RegisterRoute`,
  `LegacyRegisterRoute`, `CreateAdminRoute`, `PasswordRoute`), each an
  ordered sequence of guards ending in a status and a fixed set of writes;
- the duplicate-subject cleanup script (`CleanupDuplicates`);
- the analytics and dashboard aggregation (`AnalyticsRepository`,
  `AnalyticsService`, `AnalyticsRoutes`, `DashboardRepository`,
  `DashboardService`);
- the admin listings and forms (`AdminChatRepository`, `AdminChatService`,
  `AdminClassRepository`, `AdminClassService`, `AdminSubjectRepository`,
  `AdminSubjectService`, `ClassActions`, `SubjectActions`, `Forms`).

`Seqs`, `Dicts`, `Records`, `Text`, `Sorting`, `Paging`, `Schema` and
`Wrappers` hold what these share: filters and folds, insertion-ordered
dictionaries (a JavaScript object or `Map` as a sequence of entries),
string order and trimming, sorting, the `findMany` semantics and the
tables.

Two behaviours of the source are easy to miss and are proved as stated
here. The password strength rule of `lib/validators/auth.ts` uses `.*`
look-aheads, which do not cross a line break, so the required letters and
digit must come before the first newline (`AuthValidators.StrengthStopsAtLineBreak`).
The daily signup chart of `app/api/admin/analytics/dashboard.repo.ts`
counts whole days from the start instant, so a start later in its day than
the end is in its own leaves the end day out
(`DashboardRepository.DailyStatsSkipsEndDay`); the dashboard always passes
a start of day, where this cannot happen.

Deleting chat sessions is not idempotent at the store:
`ChatRepository.DeleteSession` fails on a missing session, while the
service's `deleteSession` returns without effect for a session the caller
does not own or that is missing. No code shown deletes a session's
messages with it.

The sign-up limiter keeps its records in a plain object, so an address
named like an `Object.prototype` property ("constructor", "toString",
"__proto__", …) finds an inherited value instead of a record and is never
throttled; the model looks keys up the same way (see Findings).

The proxy's guards and security headers apply only where its
`config.matcher` lets it run (`Proxy.Matched`, `Proxy.Serve`): not on
`_next/static`, `_next/image` or the favicon, nor on any path ending in
`.svg`, `.png`, `.jpg`, `.jpeg`, `.gif` or `.webp`. An image path inside
a guarded area, such as "/dashboard/logo.svg" or "/api/admin/report.png",
is therefore neither redirected nor refused (`Proxy.ImagesBypassGuards`).

## Model

| member | source | states |
|---|---|---|
| ChatRepository.BelowCursorIsStrict | repositories/chat-repository.ts:41-46 | the hand-written OR condition on `(lastMessageAt, id)` holds exactly when the row is strictly after the cursor in the descending listing order |
| ChatRepository.AfterCursorIsStrict | repositories/chat-repository.ts:78-83 | the message cursor condition holds exactly when the row is strictly after the cursor in ascending `(createdAt, id)` order |
| ChatRepository.ListSessions | repositories/chat-repository.ts:28-56 | at most `limit` sessions, all the user's own and stored, sorted by `(lastMessageAt, id)` descending, all below a resolved cursor |
| ChatRepository.ListSessionsWithFolders | repositories/chat-repository.ts:38-56 | the sessions of `ListSessions` in their order, each paired with a folder name exactly when it has a folder id that some folder row carries, and then the name of such a folder |
| ChatRepository.ListMessages | repositories/chat-repository.ts:65-91 | at most `limit` messages, all of that session and stored, ascending by `(createdAt, id)`, all after a resolved cursor |
| ChatRepository.ListSessionsIsPage | repositories/chat-repository.ts:28-56 | the session listing equals the generic cursor page over the user's sessions |
| ChatRepository.ListMessagesIsPage | repositories/chat-repository.ts:65-91 | the message listing equals the generic cursor page over the session's messages |
| ChatRepository.UnknownSessionCursorIgnored | repositories/chat-repository.ts:29-46 | a cursor id naming no session returns the first page again |
| ChatRepository.SessionPageAt | repositories/chat-repository.ts:22-56 | with no writes in between, the page after the id of the k-th session seen is the next `limit` sessions of the user's ordered listing |
| ChatRepository.SessionPagesServeSlices | repositories/chat-repository.ts:22-56 | every cursor taken from the listing serves the following slice of the user's ordered sessions |
| ChatRepository.BrowseSessionsComplete | repositories/chat-repository.ts:22-56 | paging with successive last ids yields every session of the user exactly once (a permutation of them), newest activity first: no duplicate, no gap |
| ChatRepository.SecondPageDisjoint | repositories/chat-repository.ts:22-56 | two successive pages share no session id |
| ChatRepository.MessagePageAt | repositories/chat-repository.ts:59-91 | message pages continue the session's ordered messages without gap or repeat |
| ChatRepository.IsOwner | repositories/chat-repository.ts:93-98 | true exactly when some session has that id and that user id |
| ChatRepository.OwnerIsUnique | repositories/chat-repository.ts:93-98 | with unique ids, when one user owns a session no other user passes the test |
| ChatRepository.FindSessionById | repositories/chat-repository.ts:11-20 | none exactly when no session has the id; otherwise that session with a permutation of its messages sorted by `createdAt` |
| ChatRepository.NewSessionRow | repositories/chat-repository.ts:5-9 | the stored row carries the given id, owner, title and last activity, the schema-default `messageCount` and the creation time |
| ChatRepository.NewMessageRows | repositories/chat-repository.ts:5-9 | the nested initial messages are stored one per input, in order, in the new session |
| ChatRepository.AppendMessagesValid | repositories/chat-repository.ts:5-9 | rows with fresh, pairwise distinct ids keep message ids unique |
| ChatRepository.CreateSession | repositories/chat-repository.ts:5-9 | a `connect` to a missing user, class, subject or folder fails and writes nothing; otherwise exactly the new session and its messages are appended and no other table changes |
| ChatRepository.BumpSessionEffect | repositories/chat-repository.ts:123-129 | exactly the named session changes: `lastMessageAt` becomes now and `messageCount` grows by 2, every other field and every other session unchanged |
| ChatRepository.ExchangeKeepsCountConsistent | repositories/chat-repository.ts:100-132 | if `messageCount` matched the session's rows before, it still matches after the two inserts and the +2 |
| ChatRepository.ExchangeLeavesOtherSessions | repositories/chat-repository.ts:106-121 | the exchange adds no message to any other session |
| ChatRepository.AddExchange | repositories/chat-repository.ts:100-133 | a missing session rolls the whole transaction back; otherwise the user message then the assistant message are appended and the session is bumped |
| ChatRepository.WithoutEffect | repositories/chat-repository.ts:135-139 | the remaining sessions are exactly those with another id, and there are fewer when the id existed |
| ChatRepository.DeleteSession | repositories/chat-repository.ts:135-139 | a missing id fails and writes nothing; otherwise exactly that session is removed and returned |
| ChatService.GetUserContext | services/chat-service.ts:12 | succeeds exactly when the user exists, with that user's id and selections; otherwise a 404 user-not-found error |
| ChatService.Selection | services/chat-service.ts:12-15 | on success both names are non-empty and are the stored user's selections |
| ChatService.SelectionRequired | services/chat-service.ts:12-15 | for a stored user, a session can be created exactly when both `selectedClass` and `selectedSubject` are non-empty; otherwise the error is `VALIDATION_ERROR` "No class or subject selected" |
| ChatService.CreateNeedsSelection | services/chat-service.ts:12-15 | without a selection nothing is written and the validation error is the result |
| ChatService.ResolveClassFinds | services/chat-service.ts:24-25 | the class used has the selected name and is the first such class; the table is unchanged when one existed and grows by exactly the new class otherwise |
| ChatService.ResolveSubjectFinds | services/chat-service.ts:27-31 | the subject used has the selected name under that class; created only when none exists |
| ChatService.CreatedSessionShape | services/chat-service.ts:17-48 | a created session is the caller's, titled "<subject> - <class>", stores both names, points at a class and subject with those names, has a folder exactly for a non-empty folder id, and comes with exactly one assistant welcome message |
| ChatService.CreateFailsOnlyOnMissingFolder | services/chat-service.ts:34-48 | once the selection is known, the session write fails exactly when a non-empty folder id names no folder |
| ChatService.CreateTwiceAddsNoClassOrSubject | services/chat-service.ts:24-31 | a second creation with the same selection adds neither a class nor a subject |
| ChatService.PlanCreateSteps | services/chat-service.ts:10-52 | with a selection, the creation is the class step, then the subject step, then the session write |
| ChatService.ConnectsResolveBySelection | services/chat-service.ts:34-38 | with the user, class and subject stored, the nested write's connects resolve exactly when the session write succeeds |
| ChatService.FindOrCreateClass | services/chat-service.ts:24-25 | the class table and the class used are those of the find-or-create specification; no other table changes |
| ChatService.FindOrCreateSubject | services/chat-service.ts:27-31 | the subject table and the subject used are those of the find-or-create specification; no other table changes |
| ChatService.ResolveSelection | services/chat-service.ts:24-31 | both find-or-create steps in order, and afterwards the class and subject are stored under their ids |
| ChatService.WriteSession | services/chat-service.ts:34-48 | the session row and its welcome message are written exactly as planned, or nothing on a missing folder |
| ChatService.CreateSession | services/chat-service.ts:10-52 | result, class table, subject table, session and message rows all equal the creation specification; a find-or-create class or subject stays even if the session write fails |
| ChatService.CreateForSelection | services/chat-service.ts:17-48 | for a user with a selection, the database ends as the creation specification says |
| ChatService.CreatedSessionOwned | services/chat-service.ts:34-48 | a created session belongs to the caller and has exactly one message, in it; a failed creation writes no message |
| ChatService.Exchange | services/chat-service.ts:69-81 | a non-owner gets `FORBIDDEN` "Access Denied" and nothing changes; the owner's session gets the content and "Echo: " + content and the chat id is returned |
| ChatService.ExchangeIntoOwn | services/chat-service.ts:76-81 | in an owned session, the two rows are appended, the session is bumped and no class or subject changes |
| ChatService.CreateOwnSession | services/chat-service.ts:64-67 | creating the session for "new" leaves the database as the creation specification says, and the caller owns the new session |
| ChatService.SendToNewSession | services/chat-service.ts:64-79 | chat id "new" creates the session first and then writes the exchange into it; a failed creation is passed on with no session or message written |
| ChatService.SendMessage | services/chat-service.ts:54-82 | invalid input gives `VALIDATION_ERROR` with no write; "new" creates and then writes; another chat id is checked for ownership (403 with no write) and then gets the exchange |
| ChatService.GetSession | services/chat-service.ts:84-89 | fails exactly for a non-owner, with `NOT_FOUND` 404; otherwise returns that session |
| ChatService.GetSessionReturnsOwn | services/chat-service.ts:84-89 | the owner reads back their own session with a permutation of exactly its messages |
| ChatService.DeleteSession | services/chat-service.ts:91-95 | a non-owner's delete returns silently with nothing changed; the owner's delete removes exactly that session |
| ChatService.DeleteLeavesNoOwner | services/chat-service.ts:91-95 | after the delete nobody owns that id, so repeating it changes nothing |
| AuthService.Authenticate | services/auth-service.ts:6-24 | a user is returned exactly when the email names a stored user with a non-empty hash that matches the password; the result carries that email and a stored id |
| AuthService.ValidateCredentials | services/auth-service.ts:6-24 | the result is the authentication decision; on null nothing changes, on success only that user's `lastLoginAt` is set to now |
| AuthService.FailuresLookAlike | services/auth-service.ts:9-14 | an unknown email and a wrong password both give the same null |
| AuthService.TouchLoginEffect | services/auth-service.ts:16 | exactly the logged-in user's `lastLoginAt` becomes now; every other field and user is unchanged |
| AuthService.LoginIsRepeatable | services/auth-service.ts:13-16 | the login stamp plays no part in the decision: logging in again with the same credentials gives the same user |
| ContextActions.ParseContext | app/actions/context.ts:10-38 | the form passes exactly when both names are present and non-empty; the parsed value carries them unchanged and the folder id only when non-empty |
| ContextActions.RedirectTarget | app/actions/context.ts:57-61 | "/chat/new?folderId=<id>" for a non-empty folder id, "/chat/new?" otherwise |
| ContextActions.SetSelectionEffect | app/actions/context.ts:41-48 | only the user with that email changes, and only their `selectedClass` and `selectedSubject` |
| ContextActions.SaveContext | app/actions/context.ts:21-62 | no session email gives "Not authenticated", a failing form gives "Invalid class or subject", a missing user gives "Failed to save selection", each with nothing changed; otherwise the selections are stored and the result is the redirect |
| ContextActions.ResetContext | app/actions/context.ts:64-83 | without a session email nothing changes; otherwise both of that user's selections become null |
| ContextActions.SaveThenCreateUsesSelection | app/actions/context.ts:41-48 | after a save, the next session creation is for exactly the saved class and subject |
| ContextActions.ResetThenCreateFails | app/actions/context.ts:72-78 | after a reset, creating a session fails with the validation error and writes nothing |
| FolderActions.OwnedFolder | app/actions/folder.ts:29-64 | on success the folder is stored under that id and owned by the caller; every failure is "Unauthorized" |
| FolderActions.OwnedFolderExactly | app/actions/folder.ts:35-41 | with unique ids the guard passes exactly for a signed-in caller who owns a folder with that id |
| FolderActions.CreateFolder | app/actions/folder.ts:8-26 | without a caller id it throws "Unauthorized" and writes nothing; otherwise exactly one folder owned by the caller, with the given name and labels, is appended and returned |
| FolderActions.DeleteFolder | app/actions/folder.ts:28-49 | a missing caller, missing folder or foreign folder throws "Unauthorized" with no change; the owner's delete removes exactly that folder |
| FolderActions.DeleteFolderTwiceFails | app/actions/folder.ts:35-45 | the delete keeps exactly the other folders, so a second delete of the same folder throws |
| FolderActions.UpdateFolder | app/actions/folder.ts:51-73 | a non-owner throws with no change; the owner's update renames that folder |
| FolderActions.RenamedEffect | app/actions/folder.ts:66-69 | a rename changes only the name of the one folder with that id |
| FolderActions.RenameKeepsOwnership | app/actions/folder.ts:58-69 | after a rename the owner still passes the guard |
| FolderActions.FindByIdAfterUpdate | app/actions/folder.ts:66-69 | looking the folder up after the rename finds it with the new name |
| Limiter.RateLimiter.constructor | lib/rate-limit/limiter.ts:4 | the module-level object starts with no records of its own |
| Limiter.RateLimiter.RateLimit | lib/rate-limit/limiter.ts:6-33 | the result and the new dictionary are those of one `rateLimit` call, with defaults 5 calls per 60 000 ms: the key's own record is used first, and a key without one that is inherited from `Object.prototype` is never counted |
| Limiter.NewWindowSucceeds | lib/rate-limit/limiter.ts:8-17 | the first call for a key that is neither stored nor inherited, or one strictly after `expiresAt`, succeeds with remaining limit − 1 and stores count 1 and `expiresAt` = now + windowMs |
| Limiter.InWindowDecision | lib/rate-limit/limiter.ts:10-32 | inside a window (now ≤ `expiresAt` included) a call succeeds exactly when count < limit, then increments the count and reports limit − count; a refusal reports 0 and the stored `expiresAt` and changes nothing |
| Limiter.InheritedKeyUnmetered | lib/rate-limit/limiter.ts:8-31 | for an inherited key such as "constructor" with no record, `trackers[ip]` is a truthy built-in without `count` or `expiresAt`, so the call succeeds with `NaN` left and no reset time and stores nothing |
| Limiter.OtherKeysUntouched | lib/rate-limit/limiter.ts:11-27 | a call leaves every other key's record unchanged and adds only its own key, and none for an inherited key without a record |
| Limiter.InheritedKeyNeverLimited | lib/rate-limit/limiter.ts:4-32 | every call for an inherited key without a record succeeds, however many and whenever |
| Limiter.ConstructorPassesSixTimes | lib/rate-limit/limiter.ts:4-32 | six calls within one second from the address "constructor" all pass the default limit of five per minute |
| Limiter.SuccessesOwnKey | lib/rate-limit/limiter.ts:8-32 | for a key that is stored or not inherited, the limiter succeeds exactly as often as the check over own records |
| Limiter.InWindowBound | lib/rate-limit/limiter.ts:19-32 | over own records, calls that all fall inside the current window succeed at most as often as the budget left |
| Limiter.OwnAtMostLimitPerWindow | lib/rate-limit/limiter.ts:10-32 | over own records, as a `Map` keeps them, calls that open a window and stay within it succeed at most `limit` times (once if limit < 1), for every key |
| Limiter.AtMostLimitPerWindow | lib/rate-limit/limiter.ts:6-32 | `rateLimit` lets at most `limit` calls per window through (once if limit < 1) for a key that has a record or is not inherited |
| SecurityRateLimit.Store.constructor | lib/security/rate-limit.ts:10 | the module-level map starts empty |
| SecurityRateLimit.MemoryRateLimiter.constructor | lib/security/rate-limit.ts:12 | the adapter works on the shared module-level map |
| SecurityRateLimit.MemoryRateLimiter.Check | lib/security/rate-limit.ts:13-29 | result and new map are those of one check: a missing or expired record becomes count 1 with a 60 000 ms window and succeeds with limit − 1; count ≥ limit fails with 0 and no change; otherwise the count grows by one and remaining is limit − count |
| SecurityRateLimit.RedisRateLimiter.constructor | lib/security/rate-limit.ts:34 | the adapter holds the same shared map |
| SecurityRateLimit.RedisRateLimiter.Check | lib/security/rate-limit.ts:36-40 | the "Redis" check behaves exactly like the memory check on the same shared map |
| SecurityRateLimit.MakeRateLimiter | lib/security/rate-limit.ts:44-46 | production picks the Redis adapter, anything else the memory adapter, both over the shared map |
| SecurityRateLimit.RateLimit | lib/security/rate-limit.ts:48-50 | whichever adapter was picked, one call of the check specification, with default limit 10 |
| SecurityRateLimit.DecideIsFixedWindowCheck | lib/security/rate-limit.ts:10-29 | a `Map` has no inherited keys, so this check is the sign-up limiter's check over own records at a one-minute window, with the reset time dropped |
| SecurityRateLimit.SuccessesAgree | lib/security/rate-limit.ts:13-29 | over any sequence of calls the two limiters succeed equally often |
| SecurityRateLimit.AtMostLimitPerWindow | lib/security/rate-limit.ts:13-29 | at most `limit` checks per key succeed in one window (once if limit < 1) |
| Security.Split | lib/utils/security.ts:14 | `split` on one character gives at least one piece, at least two exactly when the separator occurs, and no piece holds the separator |
| Security.JoinSplit | lib/utils/security.ts:14 | joining the pieces of a split gives the string back |
| Security.SplitJoin | lib/utils/security.ts:14 | splitting pieces that hold no separator after joining them gives the pieces back |
| Security.SanitizeEmail | lib/utils/security.ts:12-16 | the result is "***" exactly for the empty string or a string without "@"; otherwise it starts "***@" and holds no further "@" |
| Security.SanitizeEmailDomain | lib/utils/security.ts:10-15 | the domain shown is the text between the first "@" and the next one, so "user@example.com" gives "***@example.com" |
| Security.ValidateCsrfToken | lib/utils/security.ts:53-64 | acceptance implies non-empty tokens of equal length with equal bytes; two equal non-empty tokens are accepted |
| Security.CsrfAcceptsExactlyEqual | lib/utils/security.ts:53-64 | with an encoding that tells strings apart, a token pair is accepted exactly when both are non-empty and identical |
| Security.SanitizeUserDataFields | lib/utils/security.ts:70-75 | exactly `passwordHash` and `password` disappear; every other field keeps its value |
| Security.RedactEachLookup | lib/utils/security.ts:96-112 | each detail keeps its key and gets the reducer's value |
| Security.SecurityRecordShape | lib/utils/security.ts:92-96 | the record's first three keys are event, timestamp and env, and no key occurs twice |
| Security.SecurityRecordLookup | lib/utils/security.ts:92-112 | a detail key is logged with its redacted value and overrides a base field of the same name; other base fields stay |
| Security.SecurityRecordRedacts | lib/utils/security.ts:98-110 | a string email is logged masked; any other key containing password, token, secret or hash (ignoring case) is logged as "[REDACTED]"; every other detail is logged as given |
| AuthValidators.ParseEmail | lib/validators/auth.ts:4-9 | accepted exactly when the raw input passes the format check and its trimmed, lower-cased form has at most 255 characters, which is then the value |
| AuthValidators.FirstLine | lib/validators/auth.ts:17 | the prefix a leading `.*` can cross: no line terminator inside, and it stops at the first one |
| AuthValidators.PasswordIssues | lib/validators/auth.ts:12-19 | no issue exactly when the password has 8–128 characters and a lowercase letter, an uppercase letter and a digit before its first line break |
| AuthValidators.Prefix | lib/validators/auth.ts:21-39 | each message is reported, in order, under the field's path |
| AuthValidators.ParseLogin | lib/validators/auth.ts:21-24 | accepted exactly for a valid email and any non-empty password, with the email normalised and the password unchanged |
| AuthValidators.NameIssues | lib/validators/auth.ts:27-32 | no issue exactly when the name is absent or has 2–100 characters after trimming |
| AuthValidators.ParseRegister | lib/validators/auth.ts:26-39 | a failure always carries at least one issue |
| AuthValidators.RegisterAcceptsExactly | lib/validators/auth.ts:26-39 | registration is accepted exactly when the name, email and password rules hold and `confirmPassword` equals the password |
| AuthValidators.MismatchReportedOnConfirm | lib/validators/auth.ts:36-39 | a mismatch always fails, with its issue on `confirmPassword`, after any field issues |
| AuthValidators.RegisterNormalises | lib/validators/auth.ts:4-34 | an accepted registration carries the trimmed, lower-cased email of at most 255 characters, a trimmed name of 2–100 characters and the password unchanged |
| AuthValidators.SameEmailNormalisation | lib/validators/auth.ts:22-33 | sign-in and registration normalise the same email to the same value |
| AuthValidators.FirstLineWhole | lib/validators/auth.ts:17 | without a line terminator the whole password is searched |
| AuthValidators.StrengthStopsAtLineBreak | lib/validators/auth.ts:16-19 | letters and digits after a line break do not count: "\nAbcdefg1" fails the pattern, "Abcdefg1" passes |
| ChatValidation.NewChatIdAccepted | lib/validation/chat.ts:9-13 | chat id "new" passes like any non-empty id: the message is accepted exactly when its content has 1–4000 characters |
| ChatValidation.ParsePagination | lib/validation/chat.ts:15-18 | accepted exactly when the limit is absent or in 1..50; a given limit is kept, a missing one becomes 20, the cursor is passed through |
| ChatValidators.CreateMessageImpliesSendMessage | lib/validators/chat.ts:3-7 | every message this schema accepts the service schema accepts too |
| ChatValidators.SendMessageNotImpliesCreateMessage | lib/validators/chat.ts:4 | but not conversely: a 2001-character message passes only the service schema |
| ChatValidators.SchemasDifferOnlyInContentBound | lib/validators/chat.ts:4-5 | up to 2000 characters the two message schemas agree: the chat id rule is the same |
| ChatValidators.SessionSchemasAgree | lib/validators/chat.ts:11-14 | both session schemas demand the same two non-empty names, whatever the folder id |
| Errors.NewAppError | lib/errors.ts:6-13 | the error keeps its message and code, defaults its status code to 400, and is always operational |
| Errors.HandleSafeError | lib/errors.ts:29-42 | an `AppError` keeps its own message and code; any other value becomes "An unexpected error occurred" with `INTERNAL_SERVER_ERROR`; the result type has no status code |
| Errors.HandleSafeErrorRoundTrip | lib/errors.ts:6-35 | an error raised as `new AppError(m, c, s)` reaches the client as exactly (m, c), whatever s |
| Errors.HandleSafeErrorHidesOthers | lib/errors.ts:37-41 | any two unexpected errors look the same to the client |
| AuthConfig.MissingVarsPairs | lib/auth/auth.ts:10-19 | a secret name is reported exactly when neither AUTH_SECRET nor NEXTAUTH_SECRET is set, and then both are; the same for DATABASE_URL and MONGODB_URI; only required names are reported |
| AuthConfig.SecretReportedIffUnresolved | lib/auth/auth.ts:12-96 | no secret is reported missing exactly when NextAuth's `secret` resolves to a non-empty value |
| AuthConfig.LogsMissing | lib/auth/auth.ts:21-23 | the start-up error is logged only in production and only with a variable missing |
| AuthConfig.CookieName | lib/auth/auth.ts:100-103 | the name starts "__Secure-" exactly in production and always ends "next-auth.session-token" |
| AuthConfig.Authorize | lib/auth/auth.ts:41-76 | missing or schema-failing credentials give null with nothing changed; a store error gives null and logs the thrown `Error`'s message, or "Unknown error" for any other value; otherwise the result is the credential check, with only the login stamp written on success; each path logs its own event |
| AuthConfig.AuthorizeLogsMaskedEmail | lib/auth/auth.ts:56-67 | the email of a failed or successful login reaches the log only masked |
| AuthConfig.Token.constructor | lib/auth/auth.ts:87-94 | a token holds the given id and role claims |
| AuthConfig.SessionUser.constructor | lib/auth/auth.ts:80-86 | a fresh session user has no id and no role |
| AuthConfig.Session.constructor | lib/auth/auth.ts:80-86 | a session holds the given user object |
| AuthConfig.JwtCallback | lib/auth/auth.ts:87-94 | with a user, its id and role are copied onto the token; without one the token is returned unchanged |
| AuthConfig.SessionCallback | lib/auth/auth.ts:80-86 | with both a token and a session user, the token's id and role are copied into the session user; otherwise nothing changes |
| AuthConfig.SignInThenRead | lib/auth/auth.ts:80-94 | a sign-in followed by a session read gives the session exactly the signed-in user's id and role |
| Proxy.ProtectedAreas | proxy.ts:18-57 | the decision of the proxy on a path it runs on: anonymous callers of "/dashboard*" or "/home*" go to "/auth/sign-in"; non-admins on "/dashboard*" go to "/home"; admins on "/home*" go to "/dashboard"; signed-in callers on "/auth*" go to their area and anonymous ones pass; "/api/admin*" without an ADMIN token gets 401 |
| Proxy.PrefixMatching | proxy.ts:18-28 | matching is by prefix: "/homework" and "/dashboardx" are guarded too |
| Proxy.NoRedirectLoops | proxy.ts:18-47 | a redirect target, requested again by the same caller, is let through |
| Proxy.Headers.constructor | proxy.ts:60 | a new response has no headers |
| Proxy.Headers.Set | proxy.ts:80 | setting a header replaces its value or appends it |
| Proxy.HandleRequest | proxy.ts:9-84 | a redirect or the 401 JSON response as decided; a passed request gets exactly the security headers written one by one by the loop |
| Proxy.PassedHeaders | proxy.ts:62-81 | the response carries the five fixed headers with their values, plus Strict-Transport-Security exactly in production |
| Proxy.Serve | proxy.ts:9-97 | a path outside `config.matcher` is served untouched (no redirect, no 401, no headers); a matched path gets the proxy's decision or the security headers |
| Proxy.GuardedPathsMatched | proxy.ts:86-97 | a path under "/dashboard", "/home", "/auth" or "/api/admin" is matched exactly when it does not end in a dot and an image extension |
| Proxy.ImagesBypassGuards | proxy.ts:18-97 | "/dashboard/logo.svg" would be redirected and "/api/admin/report.png" refused for an anonymous caller, yet neither is matched, so the proxy never sees them |
| AuthService.InsertAfterLookup | app/api/auth/register/route.ts:34-57 | inserting a user only after the email lookup came back empty keeps emails unique, and the new user is then found by that email |
| RegisterRoute.Post | app/api/auth/register/route.ts:7-72 | every request first passes the limiter, keyed by x-forwarded-for or "unknown" at 5 per minute (an address named like an `Object.prototype` property is never throttled), whose dictionary is updated even when the request later fails; the reply and the user table are those of the route specification |
| RegisterRoute.AfterLimit | app/api/auth/register/route.ts:13-63 | once the limiter has answered, the reply and the inserted user are as specified |
| RegisterRoute.CreateUser | app/api/auth/register/route.ts:33-63 | an existing email gives 409 `EMAIL_EXISTS` with no insert; a failing insert gives 500; otherwise exactly one user with the email, the name and the hash of the password is appended and the reply is 201 |
| RegisterRoute.RegisterOutcomes | app/api/auth/register/route.ts:10-45 | a user is inserted exactly when the reply is 201; a refused limit gives 429 and nothing else; invalid input gives 400 `VALIDATION_ERROR` with its issues; a taken email gives 409 |
| RegisterRoute.RegisterInsertsOnlyValid | app/api/auth/register/route.ts:21-57 | an inserted user came from input meeting every registration rule, under the normalised email nobody had, with the hash of the submitted password; emails stay unique |
| LegacyRegisterRoute.ParseLegacy | app/api/register/route.ts:6-15 | accepted exactly for a valid email and a password of at least 6 characters, leaving the body unchanged (no trimming or lower-casing) |
| LegacyRegisterRoute.Post | app/api/register/route.ts:12-44 | an unreadable body gives 500, a failing body 422 with its issues, and otherwise the duplicate check and the insert; the user table grows by at most the planned user |
| LegacyRegisterRoute.CreateUser | app/api/register/route.ts:17-37 | the exact email string already stored gives 409 "User already exists" with no insert; a failing insert gives 500; otherwise exactly one user is appended and returned without its hash |
| LegacyRegisterRoute.LegacyInsertsOnSuccess | app/api/register/route.ts:15-37 | a user is inserted exactly when the reply is 200, under the submitted email string itself, which no user had, with the hash of a password of at least 6 characters; emails stay unique |
| LegacyRegisterRoute.ReplyHidesHash | app/api/register/route.ts:35-37 | the reply carries every column of the row except `passwordHash` |
| LegacyRegisterRoute.ReplyIsSanitized | app/api/register/route.ts:35 | the reply is exactly what `sanitizeUserData` makes of the row |
| LegacyRegisterRoute.WeakerThanRegisterSchema | app/api/register/route.ts:8 | "abcdef" passes the local schema but fails `registerSchema` |
| CreateAdminRoute.Post | app/api/admin/create-admin/route.ts:8-98 | the reply and the rows appended to the user and admin tables are those of the route specification, and nothing else is written |
| CreateAdminRoute.CreateAdmin | app/api/admin/create-admin/route.ts:44-89 | the duplicate check, then the user insert, then the admin insert, each table growing by exactly the planned row |
| CreateAdminRoute.CreateAdminGuards | app/api/admin/create-admin/route.ts:11-54 | the guards run in the order 401, 403, 400, 409 and each refusal writes nothing; 403 depends only on the admin table, not on the caller's user role |
| CreateAdminRoute.CreateAdminLinksRecord | app/api/admin/create-admin/route.ts:60-89 | an admin record is written exactly when the reply is 201, only with its user, pointing at that user; the reply exposes only that user's id, email and name |
| CreateAdminRoute.PlanInsertLinks | app/api/admin/create-admin/route.ts:60-89 | past the guards, the admin record is written exactly when the reply is 201, with the new user's id |
| CreateAdminRoute.CreateAdminInsertsOnlyValid | app/api/admin/create-admin/route.ts:11-67 | a user is inserted only for a signed-in caller with an admin record and input meeting every registration rule; it has role ADMIN, the normalised email nobody had and the hash of the password; emails stay unique |
| CreateAdminRoute.PlanCreateAdminGuarded | app/api/admin/create-admin/route.ts:11-40 | only a request past the 401, 403 and 400 guards inserts a user |
| CreateAdminRoute.PlanInsertUser | app/api/admin/create-admin/route.ts:44-67 | a user is inserted only when no user has the email and the insert succeeds, and it is the ADMIN user built from the input |
| CreateAdminRoute.HalfCreatedAdmin | app/api/admin/create-admin/route.ts:60-96 | when the second insert fails the reply is 500 but the ADMIN user stays, with no admin record |
| PasswordRoute.Put | app/api/user/password/route.ts:13-66 | the reply is the route specification's, and the user table changes only on 200, where the caller's hash becomes the hash of the new password |
| PasswordRoute.PasswordGuards | app/api/user/password/route.ts:8-44 | no session email gives 401 whatever the body; a body failing the schema (empty current password, new one under 8 characters) gives 422; an unknown user 404; no hash or a wrong current password 400; only a 200 writes |
| PasswordRoute.PasswordChangeNeeds | app/api/user/password/route.ts:17-56 | a successful change needs a session email, a new password of at least 8 characters, and the caller's user with a hash that the current password matches |
| PasswordRoute.SetHashEffect | app/api/user/password/route.ts:49-56 | only the hash of the user with that email changes; every other field and user stay, and the lookup then finds the new hash |
| PasswordRoute.SetHashChangesOneRow | app/api/user/password/route.ts:49-56 | under the unique index on email the update changes at most one user |
| PasswordRoute.NoStrengthRule | app/api/user/password/route.ts:10 | "abcdefgh" is accepted as a new password although registration refuses it |
| PasswordRoute.LowerCaseOnlyIsWeak | lib/validators/auth.ts:16-19 | a password of lower-case letters only fails the strength pattern |
| PasswordRoute.NoUpperInLowerCase | lib/validators/auth.ts:17 | a lower-case-only password has no upper-case letter before its first line break |
| CleanupDuplicates.GroupSubjects | scripts/cleanup-duplicates.ts:14-22 | the grouping loop builds exactly the map GroupAll describes, one push per subject in order |
| CleanupDuplicates.GroupAllGroups | scripts/cleanup-duplicates.ts:14-22 | the map holds one entry per "classId:name" key that occurs, with no key twice, each entry holding exactly the subjects with that key in their original (oldest-first) order |
| CleanupDuplicates.DupIds | scripts/cleanup-duplicates.ts:51-52 | the duplicate ids of a group are the ids of all its members but the first, in order |
| CleanupDuplicates.Repoint | scripts/cleanup-duplicates.ts:59-62 | one updateMany moves exactly the sessions of the duplicate subject to the kept subject and leaves every other session as it was |
| CleanupDuplicates.RepointSessions | scripts/cleanup-duplicates.ts:58-62 | the inner loop's table is the composition of one re-pointing per duplicate id, in order |
| CleanupDuplicates.RepointAllEffect | scripts/cleanup-duplicates.ts:58-62 | after the inner loop, a session points to the kept subject exactly when its subject was one of the duplicate ids; the others are unchanged |
| CleanupDuplicates.CleanOne | scripts/cleanup-duplicates.ts:49-78 | one iteration re-points the duplicates' sessions, deletes the rows with a duplicate id and adds the number of deleted rows to the total |
| CleanupDuplicates.Cleanup | scripts/cleanup-duplicates.ts:5-81 | the script reads subjects oldest first, groups them, keeps the groups of more than one member, and runs one iteration per such group; with no such group it changes nothing and reports 0 |
| CleanupDuplicates.InAllDupIds | scripts/cleanup-duplicates.ts:49-52 | an id is among the ids deleted over the whole run exactly when it is a duplicate id of some group |
| CleanupDuplicates.CleanAllSubjects | scripts/cleanup-duplicates.ts:49-78 | the deletions of all groups together remove exactly the subjects whose id is a duplicate id of some group |
| CleanupDuplicates.CleanAllDeleted | scripts/cleanup-duplicates.ts:47-77 | the reported total equals the number of subject rows that disappeared |
| CleanupDuplicates.RedirectOther | scripts/cleanup-duplicates.ts:58-62 | a subject id that no group lists as a duplicate is never redirected |
| CleanupDuplicates.CleanAllSessions | scripts/cleanup-duplicates.ts:49-67 | after all groups, each session points at the kept id of the group listing its subject as a duplicate, or is untouched |
| CleanupDuplicates.DupMeaning | scripts/cleanup-duplicates.ts:24-26 | a subject is listed as a duplicate in some duplicate group if and only if it is not the first (oldest) subject with its key |
| CleanupDuplicates.DupIsDropped | scripts/cleanup-duplicates.ts:50-52 | a subject listed as a duplicate is never the kept one for its key |
| CleanupDuplicates.DroppedIsDup | scripts/cleanup-duplicates.ts:24-26 | every subject that is not the kept one for its key is listed as a duplicate in some group with more than one member |
| CleanupDuplicates.DupRedirect | scripts/cleanup-duplicates.ts:58-62 | a duplicate subject's id is redirected to the id of the kept subject of its key |
| CleanupDuplicates.DuplicatesWellGrouped | scripts/cleanup-duplicates.ts:49-52 | no kept subject is ever listed as a duplicate, so no session is moved twice and no kept row is deleted |
| CleanupDuplicates.CleanupResult | scripts/cleanup-duplicates.ts:5-81 | the whole run keeps exactly the oldest subject of each key, reports the number of rows removed, and moves each session of a removed subject to the kept subject of the same key, leaving the others alone |
| CleanupDuplicates.CleanupRemaining | scripts/cleanup-duplicates.ts:69-74 | the subjects left after the deletions are exactly the kept ones |
| CleanupDuplicates.CleanupRetargets | scripts/cleanup-duplicates.ts:57-62 | the redirection by the groups agrees with the key-based description: a session's subject is replaced by the kept subject of its key |
| CleanupDuplicates.KeptIsOldest | scripts/cleanup-duplicates.ts:9-11 | the kept subject was created no later than any other subject with the same key |
| CleanupDuplicates.CleanupLeavesOnePerKey | scripts/cleanup-duplicates.ts:49-78 | afterwards no two subjects share a "classId:name" key, and every key that had a subject still has its kept subject |
| CleanupDuplicates.NoDuplicatesNoChange | scripts/cleanup-duplicates.ts:28-31 | when no two subjects share a key there is no duplicate group and the tables and the count stay as they are |
| CleanupDuplicates.SingletonGroups | scripts/cleanup-duplicates.ts:14-26 | without a shared key every group has at most one member |
| CleanupDuplicates.CleanupIdempotent | scripts/cleanup-duplicates.ts:5-81 | a second run of the script finds no duplicate group and changes nothing |
| AnalyticsRepository.GroupByDayCounts | modules/analytics/repositories/analytics.repository.ts:114-119 | groupByDay has one key per UTC day occurring among the items, each counting exactly the items of that day (at least one), and the counts add up to the number of items |
| AnalyticsRepository.DailyUserStatsSpec | modules/analytics/repositories/analytics.repository.ts:5-25 | one row per day with a signup in the inclusive range, days strictly ascending; each row's newUsers and activeUsers are that day's signups and totalUsers is 0; every signup in range has its day's row, and newUsers add up to all signups in the range |
| AnalyticsRepository.UserStatsDaysStrict | modules/analytics/repositories/analytics.repository.ts:18-24 | sorting the per-day rows by date leaves the days strictly ascending, since no day appears twice |
| AnalyticsRepository.UserStatsSum | modules/analytics/repositories/analytics.repository.ts:18-23 | the rows' newUsers add up to the counts of the grouped dictionary |
| AnalyticsRepository.AddSession | modules/analytics/repositories/analytics.repository.ts:56-68 | one turn of the forEach starts the day-and-group row with zero counts when it is new, then adds one chat and the session's message count to it, changing no other row |
| AnalyticsRepository.DailyStats | modules/analytics/repositories/analytics.repository.ts:27-72 | the loop over the sessions in scope builds exactly the grouped rows DailyGroupRows describes, sorted by day |
| AnalyticsRepository.GetDailyClassStats | modules/analytics/repositories/analytics.repository.ts:27-72 | the class query groups sessions created in the inclusive range (and in the class, when one is given) by day and by class, "unknown" for a session without a class |
| AnalyticsRepository.GetDailySubjectStats | modules/analytics/repositories/analytics.repository.ts:74-112 | the subject query is the same grouping by day and by subject, "unknown" for a session without a subject |
| AnalyticsRepository.DailyGroupRowsMeaning | modules/analytics/repositories/analytics.repository.ts:46-71 | the rows are in day order; each counts the in-scope sessions of its day and group (at least one), adds up all their messages whatever the messages' dates, and has 0 active students |
| AnalyticsRepository.DailyEntryMeaning | modules/analytics/repositories/analytics.repository.ts:56-68 | each dictionary entry's chats, messages and active students are those of the sessions with its key |
| AnalyticsRepository.DailyGroupRowsTotals | modules/analytics/repositories/analytics.repository.ts:46-69 | over all rows, chats add up to the number of sessions in scope and messages to those sessions' messages |
| AnalyticsRepository.DailyGroupRowsCover | modules/analytics/repositories/analytics.repository.ts:46-71 | every in-scope session has the row of its day and group, and no two rows share a day and a group |
| AnalyticsRepository.DailyRowsUnique | modules/analytics/repositories/analytics.repository.ts:50-65 | the composite key `${dateKey}_${cId}` makes the rows distinct in day and group |
| AnalyticsRepository.AggregateByGroupSpec | modules/analytics/repositories/analytics.repository.ts:134-149 | one total per group id in first-occurrence order; each sums its group's chats and messages and takes the largest of 0 and its rows' active students; nothing is lost or counted twice |
| AnalyticsRepository.AggregatedClassStatsTotals | modules/analytics/repositories/analytics.repository.ts:126-150 | every per-class total has 0 active students, and the per-class chats add up to the sessions created in the range |
| AnalyticsRepository.MaxOfZeros | modules/analytics/repositories/analytics.repository.ts:145 | the running maximum over rows of 0 active students stays 0 |
| AnalyticsService.TopOfSpec | modules/analytics/services/analytics.service.ts:35-43 | the top list has min(5, entries) entries drawn from the ranking, in non-increasing activity, each at least as active as every entry left out, with no id twice when the ranking has none |
| AnalyticsService.TopUnique | modules/analytics/services/analytics.service.ts:35-43 | sorting and slicing keep the ids of the ranking distinct |
| AnalyticsService.MessagesByIdSpec | modules/analytics/services/analytics.service.ts:25-33 | the per-id message map has every id of the rows once, each with the sum of that id's messages |
| AnalyticsService.TopByMessages | modules/analytics/services/analytics.service.ts:25-43 | topClasses and topSubjects hold at most 5 distinct ids with their summed messages, most messages first, and no id left out had more messages than one listed |
| AnalyticsService.GetOverviewCounts | modules/analytics/services/analytics.service.ts:7-53 | totalUsers counts every user whatever the range; totalChats and totalMessages are the sessions in range and their messages; the trend has one point per signup day whose value is that day's signups |
| AnalyticsService.OverviewExample | modules/analytics/services/analytics.service.test.ts:21-39 | with 100 users, two user rows and one class row of 5 chats and 10 messages, the overview reports 100 users, two trend points, 5 chats and 10 messages |
| AnalyticsService.RankedTotalsSpec | modules/analytics/services/analytics.service.ts:55-93 | getClassesStats and getSubjectsStats give one entry per id of the rows and no other, each summing its id's chats and messages and taking the largest active-students value, most messages first, and the messages add up to all the rows' |
| AnalyticsService.AggregateCovers | modules/analytics/services/analytics.service.ts:57-71 | the aggregation has no id twice and every row's id has its entry |
| AnalyticsService.ClassesStatsMatchOverview | modules/analytics/services/analytics.service.ts:23 | the per-class messages of getClassesStats add up to the overview's totalMessages |
| AnalyticsService.ChatsTrendSpec | modules/analytics/services/analytics.service.ts:95-108 | the chats trend has one entry per day of the rows, days strictly ascending, each summing that day's chats and messages over all classes |
| AnalyticsService.ChatsTrendTotals | modules/analytics/services/analytics.service.ts:95-108 | the trend's chats add up to the sessions created in range and its messages to their messages |
| AnalyticsRoutes.ParseQuery | modules/analytics/validators/analytics.schema.ts:3-8 | the query schema accepts every query string (all four keys optional strings) and passes `from` and `to` through as given |
| AnalyticsRoutes.DefaultFromBounds | app/api/admin/analytics/classes/route.ts:14-15 | the default start is a UTC midnight at least thirty and less than thirty-one days before now |
| AnalyticsRoutes.FetchRowsOutcome | app/api/admin/analytics/classes/route.ts:9-23 | the route never answers 400; it answers 500 exactly when a given date does not parse or the query fails; otherwise it reads the daily rows for the range built from `from`, `to` and their defaults (an empty value takes the default) |
| AnalyticsRoutes.PerGroupSpec | app/api/admin/analytics/classes/route.ts:27-48 | one entry per distinct class id of the rows, in first-occurrence order, named by its id; totals sum that id's rows, active students is their maximum with 0, and dailyActivity has one point per row of that id carrying its chats, in the rows' order |
| AnalyticsRoutes.GroupEntryTotals | app/api/admin/analytics/subjects/route.ts:24-43 | each entry of the per-id reduce holds its id's sums, maximum and points; the subjects route folds the subject rows the same way |
| AnalyticsRoutes.ClassesTotals | app/api/admin/analytics/classes/route.ts:23-48 | for a valid range the classes reply succeeds and its chats add up to the sessions created in that range |
| AnalyticsRoutes.ChatsByDaySpec | app/api/admin/analytics/chats/route.ts:26-38 | the chats reply has days strictly ascending, each a day of the rows whose count sums that day's chats over every class; every day of the rows is present and the counts add up to the rows' chats |
| AnalyticsRoutes.ChatsTotals | app/api/admin/analytics/chats/route.ts:26-40 | for a valid range the chats reply succeeds and its counts add up to the sessions created in that range |
| DashboardRepository.GetOverviewStats | app/api/admin/analytics/dashboard.repo.ts:5-57 | totalUsers counts every user; new users, active users (by last login), chats and messages count the rows of the inclusive range, so none exceeds its table and new and active users never exceed the total |
| DashboardRepository.OverviewStatsMonotone | app/api/admin/analytics/dashboard.repo.ts:5-48 | widening the range never lowers a count, and the user total does not depend on the range |
| DashboardRepository.OverviewStatsEmptyRange | app/api/admin/analytics/dashboard.repo.ts:10-48 | a range that ends before it starts counts nothing but the user total |
| DashboardRepository.RecentSignupsSpec | app/api/admin/analytics/dashboard.repo.ts:59-74 | at most `limit` signups (as many as there are users up to that), newest first, each a user's public fields without the password hash; a user left out signed up no later than any shown |
| DashboardRepository.GetDailyStats | app/api/admin/analytics/dashboard.repo.ts:87-161 | the three loops and the final sort return exactly the growth chart DailyStatsOf describes |
| DashboardRepository.DayCounters | app/api/admin/analytics/dashboard.repo.ts:105-113 | the first loop creates one zero counter per day whose start, stepping a whole day from startDate, is not after endDate |
| DashboardRepository.CountSignups | app/api/admin/analytics/dashboard.repo.ts:115-128 | the second loop leaves each day's counter equal to the signups of that day among the users found |
| DashboardRepository.CountUser | app/api/admin/analytics/dashboard.repo.ts:116-127 | one user raises its day's counter by one when that day has a counter, and changes nothing otherwise |
| DashboardRepository.CountOneMore | app/api/admin/analytics/dashboard.repo.ts:116-127 | counting one more user changes only its own day's counter, and only when the day was generated |
| DashboardRepository.RunningTotals | app/api/admin/analytics/dashboard.repo.ts:140-158 | the third loop emits one point per counter with the running total starting from the users before the range |
| DashboardRepository.AddPoint | app/api/admin/analytics/dashboard.repo.ts:143-157 | one turn of the third loop adds the day's signups to the running total and appends that day's point |
| DashboardRepository.NumDaysStep | app/api/admin/analytics/dashboard.repo.ts:109-112 | the counter loop runs exactly NumDays times: while the next day still starts inside the range |
| DashboardRepository.CountDaysKeys | app/api/admin/analytics/dashboard.repo.ts:108-113 | the counters are keyed by consecutive days from the start day, with no day twice |
| DashboardRepository.DailyStatsSorted | app/api/admin/analytics/dashboard.repo.ts:160 | the points are already in date order with distinct days, so the final sort changes nothing |
| DashboardRepository.DailyStatsShape | app/api/admin/analytics/dashboard.repo.ts:105-160 | one point per consecutive day from the start day; each day's activeUsers are its signups in the range; each total adds that day's signups to the previous one, starting from the users before the range; the totals never decrease |
| DashboardRepository.DailyTotalCounts | app/api/admin/analytics/dashboard.repo.ts:132-157 | the running total of a day counts exactly the users created before the range or in the range on or before that day |
| DashboardRepository.CumulativeInRange | app/api/admin/analytics/dashboard.repo.ts:140-144 | the signups summed over the first days are the users of the range created by the end of the last of them |
| DashboardRepository.DailyStatsFromMidnight | app/api/admin/analytics/dashboard.repo.ts:105-160 | with a start at midnight, the chart covers every day from the start day to the end day, and its last total counts every user created up to the end |
| DashboardRepository.DailyStatsSkipsEndDay | app/api/admin/analytics/dashboard.repo.ts:108-119 | with a start later in its day than the end is in its own, the end day gets no counter and a signup on it appears nowhere in the chart |
| DashboardRepository.TopCountsSpec | app/api/admin/analytics/dashboard.repo.ts:164-180 | the grouped counts list at most `limit` distinct ids, most sessions first; each count is the number of sessions with that id (at least one); sessions without an id never count; an id left out has no more sessions than any id listed |
| DashboardRepository.SessionCountsSpec | app/api/admin/analytics/dashboard.repo.ts:164-173 | groupBy gives one count per id that sessions carry, each the number of those sessions |
| DashboardRepository.TopClassesNames | app/api/admin/analytics/dashboard.repo.ts:162-208 | each top class carries its count and the name of the class with that id, or "Unknown Class" when no class has that id or its name is empty |
| DashboardRepository.TopSubjectsNames | app/api/admin/analytics/dashboard.repo.ts:210-255 | each top subject carries its count and the name of the subject with that id, or "Unknown Subject" |
| DashboardService.DayBounds | app/api/admin/analytics/dashboard.service.ts:72-73 | startOfDay is a midnight and endOfDay the last millisecond of the same day, and the two enclose the instant |
| DashboardService.DateRangeShape | app/api/admin/analytics/dashboard.service.ts:70-85 | every range starts at a midnight and ends at the last millisecond of a day; it fails exactly when the range is custom (no "7d"/"30d", both `from` and `to` given) and one of its dates does not parse |
| DashboardService.PresetRange | app/api/admin/analytics/dashboard.service.ts:71-78 | today, "7d" and "30d" contain now and span 0, 7 or 30 whole days before today's; a lone `from` or `to` falls back to today |
| DashboardService.CustomRange | app/api/admin/analytics/dashboard.service.ts:79-82 | a custom range runs from the day of `from` to the day of `to` |
| DashboardService.DashboardMetrics | app/api/admin/analytics/dashboard.service.ts:28-55 | the five metrics come in a fixed order of kinds; Total Users is every user and none of the period's user counts exceeds it |
| DashboardService.MetricKinds | app/api/admin/analytics/dashboard.service.ts:28-55 | each overview count appears once, under its own kind |
| DashboardService.DashboardGrowth | app/api/admin/analytics/dashboard.service.ts:57-61 | for a non-empty range the growth chart has one point per day at its midnight, totals never decrease, and the last total is the users before the range plus the New Signups metric, which is every user created up to the end |
| DashboardService.GrowthChart | app/api/admin/analytics/dashboard.repo.ts:87-161 | a growth chart from a midnight start has that shape |
| DashboardService.PresetGrowthEndsAtTotal | app/api/admin/analytics/dashboard.service.ts:57-61 | with a preset range and no user created after now, the chart has PresetDays + 1 points and ends on the Total Users metric |
| DashboardService.DashboardTopClasses | app/api/admin/analytics/dashboard.service.ts:62 | the top classes chart shows at most five bars, none unnamed ("Unknown" replaces an empty name), most sessions first, each a class's session count |
| DashboardService.DashboardTopSubjects | app/api/admin/analytics/dashboard.service.ts:63 | the same for the top subjects chart |
| DashboardService.TopChart | app/api/admin/analytics/dashboard.service.ts:62-63 | mapping to chart entries keeps the counts in order and leaves no bar unnamed |
| AdminChatRepository.FindAllShape | app/api/admin/chats/chat.repo.ts:5-81 | at most `limit` rows, each a stored session meeting every filter: the class and subject unless unset or "all", lastMessageAt within the inclusive bounds given, and a non-empty search matching title, id, or the owner's email or name ignoring case; each row carries its owner and message count; ordered by (lastMessageAt, id) descending |
| AdminChatRepository.FindAllAtCursor | app/api/admin/chats/chat.repo.ts:24-27 | with the cursor naming the k-th session of the filtered listing, an explicit skip counts from the cursor row itself, and without one the page starts right after it |
| AdminChatRepository.FindAllOffset | app/api/admin/chats/chat.repo.ts:26-65 | without a cursor, an explicit skip is a plain offset into the filtered, ordered listing |
| AdminChatRepository.FindChat | app/api/admin/chats/chat.repo.ts:87-102 | findById answers nothing exactly when no session has that id; otherwise the session with that id, with its owner and the names of its class and subject |
| AdminChatRepository.FindMessagesShape | app/api/admin/chats/chat.repo.ts:104-124 | at most `limit` (50 when not given) messages, all of that session, oldest first |
| AdminChatRepository.FindMessagesAll | app/api/admin/chats/chat.repo.ts:104-124 | without a cursor, a session with no more messages than the limit is shown in full |
| AdminChatService.TotalWhereAgrees | app/api/admin/chats/chat.service.ts:33-37 | the total's `where` selects exactly the sessions the listing's `where` selects once the search is dropped |
| AdminChatService.ChatsListPage | app/api/admin/chats/chat.service.ts:6-52 | the list fails exactly when a given date cannot be read; otherwise the page holds the filtered sessions from offset (page - 1) * limit, at most `limit` (20 when none or zero; page 1 likewise), latest activity first; the total applies every filter but the search; hasMore holds exactly when the total exceeds page * limit |
| AdminChatService.ChatsListTotal | app/api/admin/chats/chat.service.ts:33-50 | the total counts at least the sessions the search keeps and exactly them without a search, so a non-empty next page always shows as hasMore, and without a search hasMore means exactly that |
| AdminChatService.ClassChoicesSpec | app/api/admin/chats/chat.service.ts:39-47 | the class picker holds at most 100 stored classes, as (id, name) |
| AdminChatService.SubjectChoicesSpec | app/api/admin/chats/chat.service.ts:40-48 | subjects are loaded only for a selected class (set and not "all"), at most 100, all of that class |
| AdminChatService.ChatsListPickers | app/api/admin/chats/chat.service.ts:39-48 | the pickers depend on the selected class only, not on the subject, search, dates or page |
| AdminChatService.SessionDetailsSpec | app/api/admin/chats/chat.service.ts:54-61 | null exactly when no session has the id; otherwise that session with at most 100 of its own messages, oldest first, and all of them when it has no more than 100 |
| AdminClassRepository.FindAllShape | app/api/admin/classes/class.repo.ts:5-29 | at most `limit` rows, newest first with ties by id descending, each a stored class with the counts of its own subjects and sessions |
| AdminClassRepository.FindAllPages | app/api/admin/classes/class.repo.ts:14-22 | with unique ids, the page at the cursor of the k-th class is the next `limit` classes after the first k, so following cursors neither skips nor repeats a class |
| AdminClassRepository.FindAllActiveSpec | app/api/admin/classes/class.repo.ts:35-41 | every active class appears as (id, name), no inactive one does, as many entries as active classes, sorted by name ascending |
| AdminClassRepository.GetStatsSpec | app/api/admin/classes/class.repo.ts:62-112 | activeUsersCount is the number of distinct users with a session of the class whose last message is in range, so never more than the class's sessions; chats and messages are bounded by the class's sessions and their messages |
| AdminClassRepository.GetStatsWiden | app/api/admin/classes/class.repo.ts:67-104 | widening the date range never lowers a counter, and the subject count does not depend on the range |
| AdminClassRepository.FirstOccurrencesBound | app/api/admin/classes/class.repo.ts:97-104 | grouping by user never yields more groups than sessions |
| AdminClassRepository.ListedSlice | app/api/admin/classes/class.repo.ts:126-135 | the classes listed are the slice [skip, skip + take) of all classes newest first, and the next page is empty exactly when no class lies beyond it |
| AdminClassRepository.ListWithStatsSpec | app/api/admin/classes/class.repo.ts:114-151 | at most `take` classes, newest first, each with the statistics of its own class over the range and its static subject count |
| AdminClassRepository.Create | app/api/admin/classes/class.repo.ts:43-47 | a new class with the fresh id, the given name and grade, isActive as given or the database default, and the current time, appended to the table |
| AdminClassRepository.PatchSpec | app/api/admin/classes/class.repo.ts:49-54 | an update sets exactly the fields it carries, keeps the id and creation time, and applying it twice is applying it once |
| AdminClassRepository.Update | app/api/admin/classes/class.repo.ts:49-54 | an update of a missing class fails and writes nothing; otherwise exactly that row is patched and returned |
| AdminClassRepository.Delete | app/api/admin/classes/class.repo.ts:56-60 | a hard delete: a missing class fails and writes nothing; otherwise exactly that row goes, and its subjects and sessions stay with a dangling class id |
| AdminClassService.ClassesListPage | app/api/admin/classes/class.service.ts:4-33 | the list fails exactly when a given date cannot be read; otherwise (from defaulting to the epoch and to to now) the page holds the newest-first classes from offset (page - 1) * limit, at most `limit` (20 when none or zero; page 1 likewise), the total is the whole table, and hasMore holds exactly when the next page is not empty |
| AdminSubjectRepository.FindAllShape | app/api/admin/subjects/subject.repo.ts:5-42 | at most `limit` rows, newest first with ties by id descending, each a stored subject of the selected class (unless unset or "all") whose name contains a non-empty search ignoring case, paired with its own class |
| AdminSubjectRepository.FindAllPages | app/api/admin/subjects/subject.repo.ts:18-35 | with unique ids, the page at the cursor of the k-th filtered subject is the next `limit` subjects after the first k |
| AdminSubjectRepository.FindAllActiveSpec | app/api/admin/subjects/subject.repo.ts:48-54 | every active subject appears as (id, name, classId), no inactive one does, as many entries as active subjects, sorted by name ascending |
| AdminSubjectRepository.GetStatsSpec | app/api/admin/subjects/subject.repo.ts:75-109 | activeUsersCount is the number of distinct users with a session of the subject whose last message is in range, so never more than the subject's sessions; chats and messages are bounded by its sessions and their messages |
| AdminSubjectRepository.GetStatsWiden | app/api/admin/subjects/subject.repo.ts:77-102 | widening the date range never lowers a counter |
| AdminSubjectRepository.ListedSlice | app/api/admin/subjects/subject.repo.ts:127-145 | the subjects listed are the slice [skip, skip + take) of the filtered subjects newest first, and the next page is empty exactly when no filtered subject lies beyond it |
| AdminSubjectRepository.ListWithStatsSpec | app/api/admin/subjects/subject.repo.ts:112-156 | at most `take` subjects, each in the filter, newest first, each with the statistics of its own subject |
| AdminSubjectRepository.Create | app/api/admin/subjects/subject.repo.ts:56-60 | a new subject with the fresh id, the given name and class id, isActive as given or the database default, and the current time, appended to the table |
| AdminSubjectRepository.PatchSpec | app/api/admin/subjects/subject.repo.ts:62-67 | an update sets exactly the name and flag it carries, never moves the subject to another class, keeps id and creation time, and applying it twice is applying it once |
| AdminSubjectRepository.Update | app/api/admin/subjects/subject.repo.ts:62-67 | an update of a missing subject fails and writes nothing; otherwise exactly that row is patched and returned, and no subject changes class |
| AdminSubjectRepository.Delete | app/api/admin/subjects/subject.repo.ts:69-73 | a hard delete: a missing subject fails and writes nothing; otherwise exactly that row goes, and sessions keep a dangling subject id |
| AdminSubjectService.CountWhereAgrees | app/api/admin/subjects/subject.service.ts:30-33 | the total's `where` keeps exactly the subjects the listing's `where` keeps |
| AdminSubjectService.SubjectsListPage | app/api/admin/subjects/subject.service.ts:5-45 | the list fails exactly when a given date cannot be read; otherwise the page holds the filtered subjects newest first from offset (page - 1) * limit, at most `limit` (20 when none or zero; page 1 likewise); the total counts the subjects under the same class and search filters, so hasMore holds exactly when the next page is not empty |
| AdminSubjectService.SubjectsListPicker | app/api/admin/subjects/subject.service.ts:36-41 | the class picker shows at most 100 (id, name) pairs of stored classes, whatever the filters |
| Forms.FromForm | actions/admin/class.actions.ts:17-21 | a form value is a string or null, never a left-out key |
| Forms.StringIssues | actions/admin/class.actions.ts:8-12 | a string rule reports at most one issue, and none exactly when the key is left out of an optional field or the value is a string meeting the length rule |
| ClassActions.ClassFormAccepted | actions/admin/class.actions.ts:8-27 | a class form passes exactly when it has a non-empty name and a grade field; an empty name is reported first as "Name is required", a missing name as a null, and a lone missing grade as a null on grade |
| ClassActions.UpdateValidatesAsCreate | actions/admin/class.actions.ts:14-45 | partial() only admits a left-out key and a form never leaves one out, so an update form is checked exactly like a create form |
| ClassActions.PartialAdmitsMissingKeys | actions/admin/class.actions.ts:14 | on an object with the keys left out, partial() passes where the full schema requires the name |
| ClassActions.UpdateOverwrites | actions/admin/class.actions.ts:39-51 | an accepted update sets name, grade and isActive, so an unchecked box deactivates the class; id and creation time stay |
| ClassActions.CreateClassAction | actions/admin/class.actions.ts:16-35 | a rejected form returns its field errors and writes nothing; an accepted one appends the class with isActive true exactly when the box is "on", and succeeds |
| ClassActions.UpdateClassAction | actions/admin/class.actions.ts:37-57 | a rejected form returns its field errors and writes nothing; a missing class gives "Failed to update class" and writes nothing; otherwise exactly that class is updated and the action succeeds |
| ClassActions.DeleteClassAction | actions/admin/class.actions.ts:59-67 | a missing class gives "Failed to delete class" and writes nothing; otherwise exactly that class is removed, its subjects and sessions untouched, and the action succeeds |
| SubjectActions.SubjectFormAccepted | actions/admin/subject.actions.ts:7-23 | a create form passes exactly when name and class are both non-empty; an empty name is reported first as "Name is required", and an empty class alone as "Class is required" |
| SubjectActions.UpdateFormAccepted | actions/admin/subject.actions.ts:34-50 | an update form passes exactly when it has a non-empty name; an empty one gets the default length message, a missing one the null message |
| SubjectActions.UpdateIgnoresClass | actions/admin/subject.actions.ts:38-50 | the update neither checks nor passes on the form's class field |
| SubjectActions.UpdateLooserThanCreate | actions/admin/subject.actions.ts:7-50 | a form without a class is refused on create (a null on classId) but passes on update |
| SubjectActions.UpdateOverwrites | actions/admin/subject.actions.ts:51-62 | an accepted update sets the name and the flag (an unchecked box deactivates) and keeps class, id and creation time |
| SubjectActions.CreateSubjectAction | actions/admin/subject.actions.ts:13-32 | a rejected form returns its field errors and writes nothing; an accepted one appends the subject with the class id as given and succeeds |
| SubjectActions.UpdateSubjectAction | actions/admin/subject.actions.ts:34-68 | a rejected form returns its field errors and writes nothing; a missing subject gives "Failed to update subject" and writes nothing; otherwise exactly that subject is updated; no subject ever changes class |
| SubjectActions.DeleteSubjectAction | actions/admin/subject.actions.ts:70-78 | a missing subject gives "Failed to delete subject" and writes nothing; otherwise exactly that subject is removed and the action succeeds |
| Paging.FindManyShape | app/api/admin/classes/class.repo.ts:14-22 | a `findMany` with `where`, `orderBy`, `cursor`, `skip` and `take` returns at most `take` stored rows, all in `where`, in the requested order |
| Paging.FindManyAtCursor | app/api/admin/classes/class.repo.ts:15-22 | with ids as the key's tie-break, a cursor naming a listed row starts the result at that row, and `skip` counts from it |
| Paging.FindManyAfterCursor | app/api/admin/classes/class.repo.ts:15-22 | the cursor of the last row read with a skip of one returns exactly the rows right after it: no row skipped or repeated |
| Paging.OffsetPagesTile | app/api/admin/classes/class.service.ts:11-23 | reading pages 1 to p with skip (page - 1) * limit yields exactly the first p * limit rows of the ordered listing, with nothing skipped or repeated |
| Paging.OffsetPagesComplete | app/api/admin/classes/class.service.ts:11-23 | pages 1 to p show every row exactly when the listing holds at most p * limit rows |
| Paging.EpochToNowSpec | app/api/admin/classes/class.service.ts:15-16 | the range fails exactly when a given date cannot be read; otherwise a missing start is the epoch and a missing end is now |
| Paging.NextPageEmpty | app/api/admin/classes/class.service.ts:31 | the page after a full one is non-empty exactly when the listing has more than skip + limit rows, which is what `hasMore` tests against the total |
| Sorting.SortBy | app/api/admin/classes/class.repo.ts:22 | `orderBy` returns a permutation of the rows, sorted by the requested key and direction |
| Sorting.SortedUnique | app/api/admin/classes/class.repo.ts:22 | once the id breaks ties the keys are distinct, so exactly one arrangement is sorted and the listing order is fully determined |
| Sorting.SortFilterCommute | app/api/admin/classes/class.repo.ts:18-22 | filtering an ordered listing gives the same rows in the same order as ordering the filtered rows |
| Sorting.TopN | app/api/admin/analytics/dashboard.repo.ts:59-64 | `orderBy` then `take: n` keeps min(n, size) rows of the input, in order, and every row left out comes after every row kept |

## Left out

- Password hashing and comparison (bcrypt), the email format check of zod, `crypto.randomBytes` and the regular expression in `sanitizeError` are function parameters, not interpreted.
- The timing-safe compare of CSRF tokens is modelled as equality of the encoded buffers, with the encoding a parameter; its constant running time is not modelled.
- NextAuth internals (JWT signing, cookies, `getServerSession`) are not modelled: the current user is an optional id and role given to each operation, and the session lifetime of 30 days is only a constant.
- Framework effects (`redirect`, `revalidatePath`, response streaming) are not modelled beyond the returned value.
- Console and security logging, the `analyticsEvent` table and `getRecentActivity` are left out: they only read or write log data that no modelled operation uses.
- Database transactions and concurrency: each repository call, and `addExchange`, is one atomic step; interleaved writers are not modelled, so pagination is proved complete only when nothing is written between pages.
- Prisma schema defaults that the code does not show (the default role, `isActive`, the initial `messageCount`) are values given to `Schema.Db`'s constructor; cascading deletes are not assumed.
- Dates are integers: invalid `Date` values, time zones, `toISOString` formatting, and the local-time `setDate` stepping of the daily chart (modelled as UTC days) are not modelled; date strings are read through a parsing function given as a parameter.
- Strings are sequences of characters: UTF-16 code units, percent-encoding and Unicode case folding are not modelled; lower-casing covers ASCII letters.
- Regular expressions are modelled as the predicates they stand for.
- JavaScript object key order is modelled as insertion order; numeric-like keys, which JavaScript moves to the front, do not occur in the modelled objects.
- The `image` field of users and `File` values of forms are not modelled.
- Where an `orderBy` has no id tie-break (the messages of `findSessionById` and of the admin `findMessages`, the admin listings' `createdAt` order, the cleanup script's oldest-first order), `Sorting.SortBy` keeps rows with equal keys in table order; the database may return them in another order, so the subject kept by the cleanup among equally old ones is the first stored.
- Cursor properties of `findMessages` are not stated: its order has no id tie-break, so a cursor row among messages with the same `createdAt` does not determine the page.
- Custom `orderBy` arguments of the admin listings, and negative `page` or `limit` values, are not modelled: page and limit are natural numbers.
- The unused `cursor` parameter of `getClassesList` has no effect and is not modelled.
- The create failure branches of `createClassAction` and `createSubjectAction` are not modelled: a create with a fresh id cannot fail in the model.
- The `change: null` fields of the dashboard metrics are constants of the result and carry nothing to prove.
- The 400 answer of the analytics routes for an invalid query is unreachable from the parsed query and is not modelled separately.
- The services' `createClass`, `updateClass`, `deleteClass`, `createSubject`, `updateSubject` and `deleteSubject` pass their arguments to the repository unchanged and are modelled by the repository methods themselves.
- ChatsListTotal: the total of the admin chat list ignores the search, so with a search it may exceed the number of matching sessions; only the inequality and the search-free equality are stated.
- RegisterRoute.Post: the request body is modelled as read into string fields (`None` for a body that is not JSON), so a JSON body with a missing or non-string field, which `registerSchema.safeParse` answers with 400 `VALIDATION_ERROR`, is not modelled.
- CreateAdminRoute.Post: as for the sign-up route, a JSON body with a missing or non-string field (400 from `registerSchema.safeParse`) is not modelled.
- PasswordRoute.Put: a JSON body with a missing or non-string field, on which `changePasswordSchema.parse` throws and the route answers 422, is not modelled.
- AuthValidators.ParseRegister: its input `RegisterInput` has string fields and an optional name, so the type errors zod reports for other JSON values are not modelled.
- LegacyRegisterRoute.Post: the body is modelled as read into string fields and an optional name (`None` for a body that is not JSON), so a JSON body with a missing, `null` or non-string `email`, `password` or `name`, on which `userAuthSchema.parse` throws and the route answers 422 with the issues, is not modelled.
- ChatValidation.ParsePagination: the limit is an optional integer and the cursor an optional string, so a fractional limit such as 1.5, which `z.number()` accepts when it lies in 1..50, and the refusal of a limit or cursor of another JSON type are not modelled.
- The UI (React components, pages and layouts), seed and report scripts, and configuration helpers are not part of this model.

## Findings

| source | as written | input that shows it | evidently intended | confidence | as-written member | corrected member |
|---|---|---|---|---|---|---|
| lib/rate-limit/limiter.ts:4-32 | `trackers` is a plain object `{}` read with `trackers[ip]` for an address the client sends | an `x-forwarded-for` of "constructor" (or "toString", "__proto__", …): six sign-up calls within one second all succeed | every address limited to `limit` calls per window, as a `Map` or `Object.create(null)` gives | high; not executed | Limiter.ConstructorPassesSixTimes | Limiter.OwnAtMostLimitPerWindow |

The sign-up route keeps the limiter as written (`Limiter.Check`); the security middleware's limiter, whose store is a `Map`, uses the corrected check over own records (`Limiter.CheckOwn`).
