# Models of the identity and audit core

Dafny models of the parts of the server that carry state, branching or arithmetic, and proofs about them.
Database tables are maps and sets; one transaction is one atomic step, except where the interleaving is the point
(the timeout writer, the failure counter, the PKCE flow claim, and the sending of mail after a commit).
Clocks, random values, credentials and what other parties answer are parameters, so every statement holds for all of
them.

- **Redirect allow-list globs** (`GlobPattern`, `GlobCompiler`, `Regexp`, `GlobLexing`, `GlobMeaning`, `GlobEscapes`):
  the one-pass compiler from glob to regular-expression text, the fragment of Go's regular expressions it emits (text,
  lexer, parser, matching relation), and a denotational meaning of globs. The emitted text means what the glob means.
  `Redirects` is the configuration and the decision that use it; `Redirects.PortsMatter` spells out the port rule of
  section 7.3 of RFC 8252.
- **Sessions, refresh tokens and factors** (`SessionModel`, `SessionSafety`, `SessionProperties`, `SessionCleanup`,
  `SessionStore`): one state machine for sign-in, refresh, reuse, factor verification, unenrolment, deletion and cleanup,
  its invariant, what follows over whole runs, and the handlers statement by statement.
- **Rate limiter** (`RateLimiter`) and **request timeout** (`TimeoutWriter`): the token bucket with its janitor, and the
  buffering writer shared by two goroutines.
- **Audit queries** (`AuditQuery`): a filter over stored events that agrees with substring search over translated ones.
- **Role administration** (`Rbac`): what any run of grants can and cannot reach.
- **Account resolution** (`ExternalSignIn`), **flow claim** (`FlowClaim`), **address promotion** (`EmailPromotion`) and
  **failure counting** (`Attempts`).
- **Deferred delivery** (`Delivery`): tokens stored in a transaction, messages sent after it.
- **Paging** (`EventCursor`, `EventPaging`, `AudienceExport`): the cursor text, keyset pages over a growing log, and
  accumulated export pages.

Code that works step by step on tables is a class whose methods are tied to functions of the old state; the properties
are proved about those functions. The modules named `...Laws` (`GlobLaws`, `SessionLaws`, `SignInLaws`, `RbacLaws`,
`DeliveryLaws`, `RateLaws`, `PromotionLaws`, `PagingLaws`, `AttemptLaws`, `AuditLaws`) tie the functions down once more
from outside, in terms of pattern text, row fields and moments alone: exactly when each operation does what.

## Where a stated rule fails

- A character class holding a backslash is copied raw into the expression, so `[\]x[y]` matches a string it does not
  denote (`GlobMeaning.BackslashInClassDiverges`). For classes of plain characters and ranges the translation is exact;
  one class without ranges, whose escapes are of no letter or digit, keeps its meaning exactly if every backslash in it
  starts an escape of an ASCII mark and, where there is one, some escape is of a backslash
  (`GlobEscapes.BackslashesKeepMeaningIff`).
- `updateUserEmailFromIdentities` looks for an owner in the user's audience only, but the unique index on addresses knows
  no audience. "A conflict exactly when every identity's address is owned by someone else" therefore fails with two
  audiences (`EmailPromotion.DocumentedRuleFailsWithTwoAudiences`). The index also leaves SSO users out: one whose
  addresses are all owned, but one of them only in another audience, is promoted all the same
  (`DocumentedRuleFailsForSso`). `DocumentedRuleHoldsIff` says for every user exactly when the rule holds.
- "A key a user issued holds nothing its creator no longer does" fails for a key that was itself assigned a role
  (`Rbac.KeyCanOutliveItsCreator`); `KeyBoundedByCreator` says over every run exactly what escapes.
- Removing an idle session is not always invisible: a factor verification renews the token but not the session's last
  use (`SessionCleanup.CleanupVisibleAfterVerification`); `RunNoticedExactlyIf` is the exact condition. And once a spent
  token's row is gone its replay no longer ends the session: it does with the session what it would have done with the
  row exactly if that is an OAuth application's or is outranked by a newer login (`CleanupForgetsReuse`).
- The limiter reads the clock before it takes the lock; with times that go back, a key can get more than its rate
  (`RateLimiter.UnorderedCallsOverspend`), by no more than the refill of the time by which its calls went back behind an
  earlier one or a sweep (`RateAndWaysBack`).
- "A delivered token stays stored" fails for an email-change pair: the half that went out is taken back exactly when its
  partner failed (`Delivery.PairSharesItsFate`, from `SurvivesExactlyIf`).
- "A confirmed address is one the provider verified" fails for an unconfirmed account that comes back with another
  address (`ExternalSignIn.ConfirmsAnUnprovenAddress`). `ConfirmsUnprovenExactlyIf` says over the inputs exactly which
  sign-ins confirm an unproven address, and `OwnAddressIsProven` that a link through the account's own address never does.

## Model

| member | source | states |
|---|---|---|
| GlobCompiler.CompileGlob | internal/auth/conf.go:1151-1227 | the loop with its jumping index, depth counter and builder gives the compiled expression, or the error, of the token-by-token specification |
| GlobCompiler.WriteToken | internal/auth/conf.go:1158-1215 | one turn of the loop: the text it appends, where the index lands, and each of its errors |
| GlobCompiler.AnswerMeans | internal/auth/conf.go:1151-1227 | emitting as one reads, with the first error winning, is the same as scanning the whole pattern, judging its braces, and then emitting |
| GlobLexing.LexText | internal/auth/conf.go:1154-1216 | the text emitted for a token list is lexed back into exactly those tokens, unless a class range descends, and then the regexp compiler refuses it |
| GlobLexing.LexClass | internal/auth/conf.go:1171-1189 | a class copied raw, with its negation sign rewritten, is read back as the same ranges |
| GlobMeaning.AcceptsExactlyWellFormed | internal/auth/conf.go:1171-1227 | compilation succeeds exactly when braces balance, classes close and ranges ascend |
| GlobMeaning.CompiledMatchesWhatItDenotes | internal/auth/conf.go:1127-1227 | for every accepted pattern and every string, the compiled expression matches exactly when the glob denotes the string |
| GlobMeaning.AnchoredMeans | internal/auth/conf.go:1143-1153 | the two anchors hold across every alternative: a match covers the whole string |
| GlobMeaning.TranslateMeans | internal/auth/conf.go:1158-1215 | followed by any continuation, the translated glob matches a piece of text exactly when the glob denotes a prefix and the continuation matches the rest |
| GlobMeaning.SeparatorsPreserved | internal/auth/conf.go:1129-1171 | a pattern of characters, quoted or not, `*` and `?` denotes only strings with as many separators as it has itself |
| GlobMeaning.BackslashInClassDiverges | internal/auth/conf.go:1185-1189 | a backslash inside a class makes the expression match a string the glob does not denote |
| GlobLaws.EmptyMeans | internal/auth/conf.go:1151-1153 | the empty pattern denotes the empty string only |
| GlobLaws.CharacterMeans | internal/auth/conf.go:1213-1214 | a character without a meaning of its own, before any rest, is itself once and then the rest |
| GlobLaws.QuestionMeans | internal/auth/conf.go:1169-1170 | `?` before any rest is exactly one character that is no `.` and no `/` |
| GlobLaws.StarMeans | internal/auth/conf.go:1166-1168 | `*` is any run without `.` and `/` |
| GlobLaws.StarsMean | internal/auth/conf.go:1160-1165 | two stars or more are any run without line feeds |
| GlobLaws.QuotedMeans | internal/auth/conf.go:1206-1209 | a character after a backslash is itself, whatever it is |
| GlobLaws.LoneBackslashMeans | internal/auth/conf.go:1210-1212 | a backslash at the end is itself |
| GlobLaws.CommaMeans | internal/auth/conf.go:1200-1205 | a comma outside braces is itself |
| GlobLaws.ClassMeans | internal/auth/conf.go:1171-1190 | a class is one character of its members and ranges or, after `!` or `^`, one that is none of them; `]` may be the first; a descending range denotes nothing |
| GlobLaws.BracesMean | internal/auth/conf.go:1191-1205 | braces with any well-formed alternatives, braces in them too, are one of them and then the rest |
| GlobLaws.UnclosedClass | internal/auth/conf.go:1171-1184 | a class without its `]` is refused as unterminated |
| GlobLaws.UnopenedBrace | internal/auth/conf.go:1194-1197 | a `}` too many is refused as such |
| GlobLaws.UnclosedBrace | internal/auth/conf.go:1217-1219 | and so is a `{` that nothing closes |
| GlobLaws.AcceptsWhatItDenotes | internal/auth/conf.go:1143-1227 | for every pattern of the documented class syntax and every string: it compiles and its expression matches exactly when the pattern denotes the string, so all these laws are about the compiled expression |
| GlobEscapes.BackslashesKeepMeaningIff | internal/auth/conf.go:1171-1189 | a pattern that is one class without ranges and without escapes of letters and digits compiles to its own meaning exactly if every backslash in it starts an escape of an ASCII mark and, where there is one, some escape is of a backslash |
| Redirects.CompileAll | internal/auth/conf.go:1036-1048 | the loop over the configuration gives the list of expressions, or the entry that does not compile, blanks stripped and empty entries skipped |
| Redirects.FirstFailure | internal/auth/conf.go:1036-1048 | success has every entry's expression in order; the entry named by a failure is the first that fails |
| Redirects.ConfigurationAccepted | internal/auth/conf.go:1036-1048 | a configuration of the documented class syntax is accepted exactly when every entry is a well-formed glob |
| Redirects.EntriesMean | internal/auth/conf.go:1038-1042 | the entries that count are the listed ones without the blanks around them, empty ones left out |
| Redirects.ForeignTargetsNeedAnEntry | internal/auth/conf.go:1057-1103 | every target is allowed exactly when it has the host name and scheme of the site and, but on a loopback host, its port, or is a loopback address, or a name of a kind the rules let through that some entry denotes, its fragment aside |
| Redirects.BeforeHashMeans | internal/auth/conf.go:1096-1096 | what is matched is the text before its first `#` |
| Redirects.NothingDeeperSlipsThrough | internal/auth/conf.go:1066-1103 | with entries of characters, `*` and `?`, every allowed target is on the site, a loopback address, or has as many dots and slashes as some entry |
| Redirects.AnswerIsAllowed | internal/auth/conf.go:1105-1115 | the URL answered is itself allowed as long as the site's own parses |
| Redirects.AnswersTheFirst | internal/auth/conf.go:1105-1115 | the first allowed candidate is answered, the site only if there is none |
| SessionSafety.ReachableIsSafe | internal/auth/grant.go:272-424 | in every reachable state each session has exactly one unrevoked token, its newest; parents are earlier, in the same session and revoked; the `aal` column is aal2 exactly when it names a verified factor of the session's own user whose method is claimed |
| SessionSafety.StepKeeps | internal/auth/factors.go:535-688 | every request keeps that invariant |
| SessionSafety.RefreshKeeps | internal/auth/grant.go:259-424 | so does every refresh, whichever way it ends |
| SessionSafety.VerifyKeeps | internal/auth/factors.go:535-596 | so does a factor verification, which raises a session, swaps its token and deletes sessions and factors |
| SessionSafety.DowngradeKeeps | internal/auth/factors.go:669-688 | so does removing a factor by its user or an administrator |
| SessionSafety.SignInKeeps | internal/auth/auth.go:1009-1054 | so does a sign-in |
| SessionSafety.EnrollKeeps | internal/auth/factors.go:215-258 | so does enrolment with its collection of expired factors |
| SessionSafety.RemoveUserKeeps | internal/auth/admin.go:543-582 | so does deleting an account |
| SessionSafety.CleanupKeeps | internal/auth/cleanup.go:67-127 | so does any cleanup round |
| SessionSafety.ReplaceKeepsTokens | internal/auth/grant.go:332-346 | revoking a session's unrevoked token and inserting a child leaves the child as the only unrevoked and newest one |
| SessionProperties.ReplayInsideWindow | internal/auth/grant.go:382-424 | a replay succeeds exactly inside the interval for a session and user in good standing, answers the one live token and changes nothing; it is detected as reuse exactly outside |
| SessionProperties.ReuseIsFinal | internal/auth/grant.go:402-424 | after detected reuse neither the session nor a token of it exists in any later state, and each of its tokens is refused for ever |
| SessionProperties.RotationHandsOver | internal/auth/grant.go:332-346 | a successful refresh spends the presented token, makes its child the session's only live token and touches no other token |
| SessionProperties.TokensIssuedInOrder | internal/auth/store.go:512-530 | under a clock that does not go back, ids and creation times order tokens alike |
| SessionProperties.ClaimsChangeOnlyWithFactors | internal/auth/mfa_models.go:466-510 | a session that lives through a step keeps all its claims unless it verified, or had been raised by the factor being removed |
| SessionProperties.AALRisesOnlyAtVerification | internal/auth/mfa_models.go:277-290 | over any run the computed level rises only at the session's own successful verification |
| SessionProperties.RefreshesKeepTheLevel | internal/auth/grant.go:347-356 | any number of refreshes leaves the level of a surviving session as it was |
| SessionProperties.VerificationLeavesOnlyAAL2 | internal/auth/factors.go:557-596 | right after a verification every session the user still has computes aal2, and exactly those below aal2 are gone |
| SessionProperties.DowngradeLeavesOtherMethods | internal/auth/factors.go:669-688 | removing a factor sets the column to aal1, while the session computes aal2 exactly if it claims another factor method |
| SessionLaws.OutdoneIsOutranked | internal/auth/grant.go:465-511 | with one session per user, another one outdoes the presented exactly if it is within its limits and has a sign-in or refresh after all of this one's and its token's last change |
| SessionLaws.RefreshAnswers | internal/auth/grant.go:272-364 | for every token of every reachable state, over the rows' own fields: exactly which refresh is granted, and exactly why each other one is refused |
| SessionLaws.RefusalsLeave | internal/auth/grant.go:382-424 | an expired or reused session goes with its tokens and claims and nothing else; any other refusal, and a tolerated replay, change nothing |
| SessionLaws.RotationLeaves | internal/auth/grant.go:332-346 | a granted refresh adds the child row, spends the presented one and stamps the session; nothing else |
| SessionLaws.SignInLeaves | internal/auth/auth.go:1009-1054 | a sign-in adds one session, its first token and a claim of its method, and nothing else |
| SessionLaws.SignInCanRefresh | internal/auth/auth.go:1009-1054 | the token of a sign-in can be refreshed later exactly as long as the session's end, its timebox and idle time from the sign-in, and the user's standing allow it and no other session outdid it |
| SessionLaws.ChildCanRefresh | internal/auth/grant.go:332-346 | and the child of a rotation, idle time counted from the rotation |
| SessionLaws.ActiveIsLatest | internal/auth/store.go:520-530 | the active token is the latest created of the unrevoked ones, the highest id among equals |
| SessionLaws.VerificationLeaves | internal/auth/factors.go:519-556 | a verification is granted exactly for a valid proof of a factor of the session's own user, and a refused one changes nothing |
| SessionLaws.VerificationRows | internal/auth/factors.go:557-596 | a granted one verifies its factor, drops the user's unverified ones of its type and adds one claim |
| SessionLaws.VerificationRaises | internal/auth/factors.go:557-565 | of sessions: it names the factor, and the others that stay are as they were |
| SessionLaws.VerificationSwaps | internal/auth/factors.go:567-586 | of tokens: the session's live one is spent for a child, and the others that stay are as they were |
| SessionLaws.UnenrollAnswers | internal/auth/factors.go:624-660 | a verified factor goes exactly at the word of a session that claims a second factor |
| SessionLaws.DowngradeLeaves | internal/auth/factors.go:669-688 | with a factor go the claim and level of exactly the sessions it had raised |
| SessionLaws.EnrollAnswers | internal/auth/factors.go:215-252 | exactly when a factor is enrolled: name, both budgets, and a second factor claimed if one is verified |
| SessionLaws.EnrollLeaves | internal/auth/factors.go:215-258 | stale factors go even if it is refused; the new one is unverified |
| SessionLaws.RemovalLeaves | internal/auth/admin.go:543-582 | a removed account keeps no session, token or factor and is let in nowhere; others keep theirs |
| SessionLaws.EndedIsFinal | internal/auth/store.go:456-481 | ended sessions and all their tokens are gone for good, whatever follows |
| SessionLaws.BanLasts | internal/auth/grant.go:540-560 | a ban lasts until its end and not beyond |
| SessionLaws.CleanupSelects | internal/auth/cleanup.go:73-127 | what a cleanup round may remove, in the rows' own times |
| SessionCleanup.RunNoticedExactlyIf | internal/auth/cleanup.go:75-127 | over every ordered run, verifications included: removing rows passes 1 to 3 select changes the next refresh of a token exactly if its session was among them while the token's own last use still kept it within its limits and nothing else stood in the way |
| SessionCleanup.NoticedExactlyIf | internal/auth/grant.go:499-537 | the same for every sound state |
| SessionCleanup.CleanupInvisible | internal/auth/cleanup.go:75-127 | so in runs without a verification, and with an interval of at most 30 days, it never changes whether the next refresh succeeds nor which token it answers |
| SessionCleanup.RunTouches | internal/auth/models.go:170-179 | in such runs no token was used later than its session's `refreshed_at` |
| SessionCleanup.CleanupVisibleAfterVerification | internal/auth/cleanup.go:113-127 | a run with a verification in which the removal is noticed |
| SessionCleanup.CleanupForgetsReuse | internal/auth/cleanup.go:75-87 | once pass 1 removed a spent token its replay is merely unknown, and leaves the session as it would have with the row exactly if the session is an OAuth application's or outranked by a newer login |
| SessionStore.Store.RefreshTokenGrant | internal/auth/grant.go:259-364 | the refresh handler's checks in order, its deletions that survive a refusal, and the rotation |
| SessionStore.Store.HandleReuse | internal/auth/grant.go:382-424 | the reuse decision and its punishment |
| SessionStore.Store.OutrankedByNewer | internal/auth/grant.go:465-512 | the search over the user's sessions answers whether a still valid one was refreshed more recently |
| SessionStore.Store.CheckValidity | internal/auth/grant.go:518-537 | a session is ended exactly when it is past a limit |
| SessionStore.Store.FindActive | internal/auth/store.go:520-530 | the newest unrevoked token by creation, then id |
| SessionStore.Store.GrantSession | internal/auth/auth.go:1009-1054 | the rows of a new session |
| SessionStore.Store.FinalizeVerification | internal/auth/factors.go:535-608 | the rows a verification changes, in order |
| SessionStore.Store.Downgrade | internal/auth/factors.go:669-688 | claims, sessions and the factor are removed for the sessions the factor had raised |
| SessionStore.Store.UnenrollFactor | internal/auth/factors.go:624-660 | a verified factor is removed only from a session computing aal2 |
| SessionStore.Store.EnrollFactor | internal/auth/factors.go:215-258 | expired factors are collected, then the name, the budgets and the level decide |
| SessionStore.CountFactors | internal/auth/factors.go:220-243 | the loop finds a name conflict or counts the user's factors and verified factors |
| SessionStore.Store.CleanupOnce | internal/auth/cleanup.go:67-127 | the batched passes remove only overdue rows: a whole batch of tokens, all overdue sessions if a batch holds them, and some if there are any; the total counts them |
| RateLimiter.Limiter.Allow | internal/auth/middleware.go:276-297 | one call's answer and the bucket it leaves; other keys untouched |
| RateLimiter.Limiter.Sweep | internal/auth/middleware.go:300-311 | exactly the idle and refilled buckets go |
| RateLimiter.NewParams | internal/auth/middleware.go:257-273 | a burst below one is one, a window that is not positive is the default one, and the rate is requests per window |
| RateLimiter.TokensStayInRange | internal/auth/middleware.go:276-297 | in every state of every run, whatever the times, tokens stay within [0, burst] |
| RateLimiter.NeverMoreThanTheRate | internal/auth/middleware.go:276-297 | with times in lock order a key gets at most burst + refill * duration between any two times |
| RateLimiter.RateAndWaysBack | internal/auth/middleware.go:276-297 | with calls and sweeps in any order and with any times, at most that and the refill of the time by which the key's calls went back behind an earlier call of it or a later sweep |
| RateLimiter.ZeroRateMeansBurstOnly | internal/auth/middleware.go:257-311 | with a zero rate a key gets at most burst requests ever, sweeps included, in whatever order |
| RateLimiter.OnlyOwnCallsMatter | internal/auth/middleware.go:276-311 | sweeps and other keys' calls never change a key's answers, unless one of its calls carries a time before a sweep ahead of it |
| RateLimiter.JanitorInvisible | internal/auth/middleware.go:298-311 | interleaving any sweeps gives the same answers as never sweeping, for calls in any order none of which is before a sweep ahead of it |
| RateLimiter.UnorderedCallsOverspend | internal/auth/middleware.go:276-288 | with times that go back the bound is exceeded |
| RateLaws.AllowedExactlyIf | internal/auth/middleware.go:276-297 | with times in order a call is allowed exactly if it fits into the burst and the refill of every window that starts at an earlier call of its key, sweeps and other keys in between: nothing is refused that the rate allows |
| RateLaws.SweepForgets | internal/auth/middleware.go:300-311 | a sweep forgets exactly the buckets that rested the whole time and would be full |
| RateLaws.TableEmpties | internal/auth/middleware.go:300-311 | so after enough rest it leaves nothing behind |
| TimeoutWriter.Shared.Header | internal/auth/middleware.go:423-427 | the handler sets headers of its own, which only a flush copies |
| TimeoutWriter.Shared.WriteHeader | internal/auth/middleware.go:429-435 | only the first status is kept |
| TimeoutWriter.Shared.Write | internal/auth/middleware.go:437-447 | a write is buffered, and discarded after the deadline |
| TimeoutWriter.Shared.Flush | internal/auth/middleware.go:450-464 | the real writer gets headers, one status and the whole buffer |
| TimeoutWriter.Shared.WriteError | internal/auth/middleware.go:468-482 | the first error answer wins and shuts the writer |
| TimeoutWriter.ExactlyOneResponse | internal/auth/middleware.go:370-482 | over every interleaving the client gets one status and one body: all the handler wrote, or 500 with the body for a panic, or 504 with the body for the deadline |
| TimeoutWriter.NothingPartial | internal/auth/middleware.go:416-482 | before the middleware returned the client got nothing, or the whole answer to a panic |
| TimeoutWriter.UntouchedAfterReturn | internal/auth/middleware.go:394-401 | after it returned the real writer is never touched |
| TimeoutWriter.AlwaysAnswers | internal/auth/middleware.go:394-401 | once the handler ended or the deadline passed, a step that answers is possible |
| AuditQuery.LikeMeansContains | internal/auth/admin_audit.go:368-371 | `%` + escaped value + `%` under LIKE with backslash escape means "contains the value" |
| AuditQuery.ILikeMeansContains | internal/auth/admin_audit.go:310-371 | the same whatever the case |
| AuditQuery.FilterMeansScope | internal/auth/admin_audit.go:310-342 | a parsed filter accepts a stored row exactly when the value is contained in the translated field |
| AuditQuery.DilionActionsMatching | internal/auth/admin_audit.go:346-355 | the stored actions whose translation contains the value, and no others |
| AuditQuery.ParseAuditQuery | internal/auth/admin_audit.go:310-342 | a query is refused exactly when it has no known scope; otherwise its filter selects what the translated search would |
| AuditQuery.Sql | internal/auth/admin_audit.go:375-410 | under three-valued logic the rendered condition selects exactly the rows the filter accepts |
| AuditQuery.AuditWhere | internal/auth/admin_audit.go:142-410 | query text to condition: the rows selected are those whose shown action, log type or actor contains the value |
| AuditLaws.QuerySplits | internal/auth/admin_audit.go:310-342 | a query is its text up to the first colon, one of three scopes, and the value after it |
| AuditLaws.NoColonNoQuery | internal/auth/admin_audit.go:315-318 | without a colon it is none |
| AuditLaws.WantsExactly | internal/auth/admin_audit.go:310-355 | which stored rows a query text asks for: the value stands, letter by letter in whatever case, in the actor, the shown action or the log type |
| Rbac.CoalitionCannotTouch | internal/api/iam.go:332-478 | whatever a coalition and the keys it issues do, no actor gains or loses a permission none of the coalition held at the start |
| Rbac.ChangeNeedsAHolder | internal/api/security.go:262-306 | any change in who holds a permission needs a coalition member who held it from the start |
| Rbac.StepCannotTouch | internal/api/iam.go:629-682 | one request cannot change who holds a permission its caller does not hold |
| Rbac.CeilingCoversTidied | internal/iam/iam.go:324-346 | names that only become permissions once blanks are stripped do not get past the ceiling |
| Rbac.OwnerPermissionsStayWithOwners | internal/iam/iam.go:79-87 | no run puts an owner's permission into a key or a custom role |
| Rbac.BuiltinsStay | internal/iam/iam.go:349-380 | over any run builtin roles never change |
| Rbac.HandleKeepsWell | internal/iam/keys.go:67-98 | stored permission names stay free of surrounding blanks, and owner permissions out of keys and custom roles |
| Rbac.KeyBoundedByCreator | internal/iam/authorizer.go:71-113 | from a state with no role assigned to a key, over every run: what a user's live key holds beyond its creator is exactly what requests of the run granted to the key itself, within its scopes |
| Rbac.KeysStayWithinCreators | internal/iam/authorizer.go:71-113 | so as long as no grant names a key, every key a user issued stays within what that user holds |
| Rbac.KeyCanOutliveItsCreator | internal/iam/authorizer.go:71-113 | three requests after which a key holds what its creator lost |
| RbacLaws.HoldsIsMayUse | internal/iam/authorizer.go:71-113 | over the rows: what a user, and what a key, may use at a time |
| RbacLaws.AcceptedExactlyIf | internal/api/iam.go:332-682 | over the rows: exactly when each request is accepted; a refused one changes nothing |
| RbacLaws.RefusedBecause | internal/api/security.go:68-157 | and exactly why each other one is refused, the first reason counting |
| RbacLaws.AcceptedStores | internal/iam/iam.go:292-537 | and exactly what an accepted one stores, its list of names without blanks and empty ones |
| RbacLaws.TrimMeans | internal/iam/iam.go:622-637 | a stored name is the given one without the blanks around it |
| RbacLaws.RevokedKeyIsDead | internal/iam/keys.go:168-200 | once its revocation is accepted, a key is never let in again and may use nothing, over every later run and at any time |
| RbacLaws.RevokedAssignmentGivesNothing | internal/iam/iam.go:495-537 | once a user's last assignment is revoked it may use nothing over any later run that grants it nothing |
| RbacLaws.GrantGives | internal/iam/iam.go:439-473 | a grant gives all the role lists at once |
| Rbac.GrantCeiling | internal/api/security.go:272-306 | the loop's list names exactly the permissions the caller lacks, each once |
| Rbac.Dedupe | internal/iam/iam.go:622-637 | the trimmed, non-empty names, each once |
| Rbac.Plane.Guard | internal/api/security.go:68-157 | who is refused before a handler runs, and why |
| Rbac.Plane.CheckGrantable | internal/iam/iam.go:324-346 | a list is refused exactly when it is empty, names an owner permission or an unregistered one |
| Rbac.Plane.CreateRole | internal/api/iam.go:332-348 | its checks in order and the new role |
| Rbac.Plane.UpdateRole | internal/api/iam.go:363-388 | the caller must hold the old and the new set; builtin roles are refused |
| Rbac.Plane.Grant | internal/api/iam.go:422-447 | a role is granted within the ceiling, once |
| Rbac.Plane.Revoke | internal/api/iam.go:449-478 | an assignment is revoked within the ceiling, once |
| Rbac.Plane.CreateKey | internal/api/iam.go:629-659 | keys issue no keys; scopes within the ceiling |
| Rbac.Plane.RevokeKey | internal/api/iam.go:661-682 | a key is revoked only by someone who holds its scopes |
| Attempts.CountNeverPasses | internal/auth/attempts.go:59-103 | with at most k checks in flight, in any interleaving, with any clocks and with the cleanup at any time, the count never passes limit + k - 1 |
| Attempts.CountCanReachTheBound | internal/auth/attempts.go:59-103 | some interleaving reaches it |
| Attempts.AtMostTwiceTheLimit | internal/auth/attempts.go:75-101 | one check at a time, without success, with cleanups in between, any half-open window holds at most 2 * limit - 1 counted failures |
| Attempts.TwiceTheLimitIsReached | internal/auth/attempts.go:75-101 | for every limit some run and window reach that |
| Attempts.CleaningChangesNothing | internal/auth/cleanup.go:140-140 | a row the cleanup drops would have started a new window anyway |
| Attempts.Counter.Clean | internal/auth/cleanup.go:140-140 | exactly rows whose window is over go |
| Attempts.Counter.Throttled | internal/auth/attempts.go:59-103 | gate, check and record of one call; other accounts untouched |
| AttemptLaws.RowSummarises | internal/auth/attempts.go:75-101 | over any checks, right or wrong, and cleanups: the row is the number and the first of the failures since the last success in the current quarter of an hour |
| AttemptLaws.LetThroughExactlyIf | internal/auth/attempts.go:75-77 | a check is let through exactly if fewer of them than the limit count, or their quarter of an hour is over |
| AttemptLaws.LockLasts | internal/auth/attempts.go:75-101 | as many failures as the limit lock for exactly a quarter of an hour, one fewer for none |
| ExternalSignIn.ResolvedIsConfirmed | internal/auth/external_callback.go:440-591 | a resolved user is confirmed and has the authenticating identity; if it was not confirmed before, that is its only identity and its password is gone; uniqueness of identities and addresses is kept |
| ExternalSignIn.ConfirmsUnprovenExactlyIf | internal/auth/external_callback.go:440-591 | over the inputs, exactly which sign-ins confirm an unproven address: autoconfirm is on or the provider calls its primary address verified, and either an unconfirmed account there already, not banned, has stored an address the provider does not vouch for, or none, or a new account gets a hook's unproven address or none |
| ExternalSignIn.OwnAddressIsProven | internal/auth/external_callback.go:343-386 | an account linked by address has a proven address, unless it is joined through the address of another of its identities |
| ExternalSignIn.ConfirmsAnUnprovenAddress | internal/auth/external_callback.go:317-326 | a returning user whose own address is confirmed on the word for another one |
| ExternalSignIn.NothingProvenNothingGiven | internal/auth/external_callback.go:297-341 | with autoconfirm off, no identity yet and no verified address, nobody is signed in, no live account changes and a new account stays unconfirmed |
| ExternalSignIn.JoinsOnlyThroughProof | internal/auth/external_callback.go:343-386 | an existing account is joined only through a verified address that leads to it, and no verified address leads to another user's identity |
| ExternalSignIn.OthersUntouched | internal/auth/external_callback.go:440-591 | whatever the outcome, no live account but the decision's own changes |
| ExternalSignIn.DecidePrepares | internal/auth/identity.go:44-63 | deciding releases at most an identity of a deleted user, after which nobody else has the provider account |
| ExternalSignIn.RemoveKeeps | internal/auth/external_callback.go:656-674 | clearing an unconfirmed account leaves the authenticating identity and no password, and nobody else's account changes |
| SignInLaws.JoinsExactly | internal/auth/external_callback.go:343-386 | over the rows: exactly which account an address joins, the one an identity of a provider that is not SSO leads to or, if none does, the one live account of the audience, not SSO, whose own address does |
| SignInLaws.JoinsNobody | internal/auth/external_callback.go:324-386 | and exactly when an account is created instead |
| SignInLaws.LooksAt | internal/auth/identity.go:44-63 | a deleted user's identity is renamed and loses its address before anyone is looked for |
| SignInLaws.ClashFails | internal/auth/store.go:286-294 | if that name is taken, the sign-in fails |
| SignInLaws.ReturnsToItsUser | internal/auth/external_callback.go:312-322 | who is known by the provider account comes back to the same user |
| SignInLaws.SubjectDecides | internal/auth/external_callback.go:405-433 | where the subject is the user id, no address decides |
| SignInLaws.NewAccountAddress | internal/auth/external_callback.go:324-341 | the address of a new account: the last primary one, unless nobody vouched for any and it is owned |
| SignInLaws.CandidateIsLastPrimary | internal/auth/external_callback.go:300-310 | the primary address is the last the provider calls so |
| SignInLaws.ExistingEnds | internal/auth/external_callback.go:510-585 | exactly how a sign-in to an account that was there ends, and what it leaves of the user |
| SignInLaws.NewEnds | internal/auth/external_callback.go:463-585 | and one to a new account |
| SignInLaws.RefusedEnds | internal/auth/external_callback.go:447-520 | an ambiguous or failed decision writes nothing |
| SignInLaws.IdentityLeft | internal/auth/identity.go:133-157 | the identity row it leaves, and that a confirmed user keeps the others |
| SignInLaws.ResolvedIsLedTo | internal/auth/identity.go:77-131 | no existing user, an SSO one least of all, is signed in by a provider account it was not known by, unless a verified address leads to it through an identity that is not SSO, or through its own address as a live user that is not SSO of the audience |
| ExternalSignIn.ReadEmails | internal/auth/external_callback.go:300-310 | the verified addresses and the last primary one |
| ExternalSignIn.Directory.LinkByEmail | internal/auth/external_callback.go:324-386 | the decision by address |
| ExternalSignIn.Directory.DetermineAccountLinking | internal/auth/external_callback.go:297-386 | the whole decision, with the release of a dead identity |
| ExternalSignIn.Directory.CreateAccountFromExternalIdentity | internal/auth/external_callback.go:440-591 | one callback's transaction, rolled back or committed as its ending says |
| FlowClaim.AtMostOneClaim | internal/auth/external_callback.go:184-213 | however many callbacks race, at most one claims the flow |
| FlowClaim.ClaimIsFinal | internal/auth/external.go:228-241 | once claimed, the row keeps its user and the winner stays the winner |
| FlowClaim.RefusedNeverWrote | internal/auth/external_callback.go:184-213 | over any run, a callback that ended refused as already used changed no user, identity or flow at any of its steps |
| FlowClaim.Handler.LoadExternalState | internal/auth/external_callback.go:84-103 | the unlocked read and its refusals |
| FlowClaim.Handler.FinishExternalCallback | internal/auth/external_callback.go:184-213 | accounts are written, the row is read again under its lock, and a refusal then takes the account changes back |
| FlowClaim.ClaimedUserIsConfirmed | internal/auth/external_callback.go:184-208 | a claim fills an empty row with a confirmed user whose authenticating identity is on file |
| FlowClaim.BothPassTheFirstRead | internal/auth/external_callback.go:84-103 | the unlocked read alone lets two callbacks through |
| FlowClaim.LoadsExactlyIf | internal/auth/external_callback.go:84-103 | exactly what the unlocked read answers |
| FlowClaim.ClaimsExactlyIf | internal/auth/external_callback.go:184-213 | exactly how the transaction ends, and what stays of the accounts and the flow in each case |
| EmailPromotion.PromotionSucceeds | internal/auth/identity.go:417-499 | on success the address is still backed, or is the least eligible identity's, confirmed exactly if the account was and the address counts as verified, with pending tokens cleared; addresses stay unique |
| EmailPromotion.ConflictExactly | internal/auth/identity.go:444-483 | the exact condition of the conflict error |
| EmailPromotion.DocumentedRuleHoldsIff | internal/auth/identity.go:417-483 | for every user, exactly when "a conflict if and only if every identity's address is owned by someone else" holds |
| EmailPromotion.DocumentedRuleWithOneAudience | internal/auth/identity.go:417-483 | with a single audience only an SSO user that still has a shared address escapes it |
| EmailPromotion.DocumentedRuleFailsWithTwoAudiences | internal/auth/identity.go:453-483 | with two audiences it fails |
| EmailPromotion.DocumentedRuleFailsForSso | internal/auth/identity.go:453-483 | and it fails for an SSO user, who is promoted to an address owned in the other audience |
| EmailPromotion.DeletionKeepsAddressBacked | internal/auth/identity.go:326-399 | removing an identity takes that one, never the last, and leaves the address backed |
| PromotionLaws.PromotesThePreferred | internal/auth/identity.go:417-499 | over the rows: nothing while the address is backed, else the whole user row after the promotion of the preferred identity, or the conflict |
| PromotionLaws.ChosenIsPreferred | internal/auth/identity.go:428-474 | preferred is a free identity: any address before none, a verified one before an unverified, the oldest among equals |
| PromotionLaws.SomePreferred | internal/auth/identity.go:443-479 | there is one exactly if some identity is free |
| PromotionLaws.DeletesExactly | internal/auth/identity.go:326-399 | exactly when an identity may be deleted; a phone's takes the number with it |
| EmailPromotion.Accounts.InOrder | internal/auth/identity.go:428-442 | the sort: verified, unverified, none; then age; then id |
| EmailPromotion.Accounts.UpdateUserEmailFromIdentities | internal/auth/identity.go:417-499 | sort, search and update give the promotion, or leave everything as it was |
| EmailPromotion.Accounts.RemoveIdentity | internal/auth/identity.go:326-399 | the deletion handler; a conflict takes the deletion back |
| Delivery.StoredTokensWereSent | internal/auth/auth.go:1184-1225 | however other requests interleave, every token issued in the transaction and still stored was in a message that was sent; the messages sent are those before the first failure |
| Delivery.ErrorsRollBackOrCommit | internal/auth/auth.go:1108-1138 | a plain error changes and sends nothing; an error that commits keeps what success would |
| Delivery.DiscardSparesOthers | internal/auth/auth.go:1205-1219 | the statements that take tokens back, other requests coming between them, leave every row with another token alone |
| Delivery.DiscardSparesColumns | internal/auth/auth.go:1208-1215 | and the send time of a column whose token is not, or no longer, one of theirs |
| Delivery.CanAskAgain | internal/auth/mailflow.go:146-170 | after a failed send, the user of it and of every later message can ask again at once, unless another request issued them a token meanwhile |
| Delivery.SurvivesExactlyIf | internal/auth/auth.go:1184-1225 | a token stored at the commit and left alone by other requests is still stored afterwards exactly if, up to each message that carries it, every one was sent |
| Delivery.PairSharesItsFate | internal/auth/mailflow.go:545-582 | each half of an email-change pair survives exactly if both were delivered |
| Delivery.NewerTokenStays | internal/auth/auth.go:1205-1219 | a token another request stores at any step, while the messages go out, between the statements that take failed ones back or after the last, is never cleared |
| Delivery.StepsCount | internal/auth/auth.go:1184-1219 | those steps are one for each message sent and, after a failure, two for every token from there on and a last one |
| Delivery.DeliveredHalfTakenBack | internal/auth/mailflow.go:545-582 | a pair of which one half was delivered keeps neither |
| DeliveryLaws.RefusedExactlyIf | internal/auth/mailflow.go:146-170 | a send is refused exactly if it is not exempt and its row was stamped less than the frequency ago |
| DeliveryLaws.SendsAreApart | internal/auth/mailflow.go:127-170 | over any transactions, other requests between all their steps: a send that is not exempt and still finds the row of an earlier issue comes at least the frequency after it |
| DeliveryLaws.LinkStores | internal/auth/mailflow.go:617-690 | a send of one token leaves its row, the copy on the user and the time of its kind's column; nothing else |
| DeliveryLaws.ChangeStores | internal/auth/mailflow.go:453-600 | and an email change its one or two, with the other copy blanked |
| DeliveryLaws.ClearLeaves | internal/auth/ott.go:238-241 | clearing removes a user's rows |
| DeliveryLaws.AnswersExactly | internal/auth/auth.go:1108-1138 | what the caller is told, by the script, the ending and which messages went out |
| DeliveryLaws.FailedSendLeavesNothing | internal/auth/auth.go:1205-1219 | with nobody else around, a token that was not delivered leaves nothing behind in any table |
| Delivery.Mailroom.Perform | internal/auth/mailflow.go:453-689 | the sends inside a transaction: frequency, columns, token rows and the queue |
| Delivery.Mailroom.DeliverPending | internal/auth/auth.go:1180-1203 | the loops over sends and discards, with other requests in between |
| Delivery.Mailroom.TakeBack | internal/auth/auth.go:1208-1219 | two statements a token, other requests before each: the user's copy with its send time, and then the row, where they still hold it |
| Delivery.Mailroom.InTransaction | internal/auth/auth.go:1108-1138 | commit, roll back or commit and fail, then deliver |
| EventCursor.DecodeUndoesEncode | internal/audit/read.go:202-227 | decoding a cursor gives back its timestamp and id, whatever the id contains |
| EventCursor.Decode64Undoes | internal/audit/read.go:204-216 | URL base64 without padding round trips on every byte string |
| EventCursor.ParseUndoesFormat | internal/audit/read.go:204-227 | the nanosecond timestamp text is read back exactly |
| PagingLaws.GroupsOfBits | internal/audit/read.go:204-207 | the base64 text, as groups of 24 bits |
| PagingLaws.StampText | internal/audit/read.go:204-207 | the timestamp text, digit by digit |
| PagingLaws.CursorText | internal/audit/read.go:204-207 | a cursor is the base64 of the instant, a bar and the id |
| EventPaging.Query | internal/audit/read.go:118-152 | the selected rows, newest first, cut off after the asked number |
| EventPaging.ListEvents | internal/audit/read.go:109-161 | one page: a malformed cursor is refused, and a next cursor is given exactly when more rows remain |
| EventPaging.EveryEventOnce | internal/audit/read.go:109-161 | whatever is appended meanwhile, and however many are asked for each time, a finished reading returned every event matching at its start, none twice, strictly descending |
| EventPaging.ReadingEnds | internal/audit/read.go:109-161 | with later events newer, the reading ends within the pages the start's events fill and one more, and is exactly the list of matching events at its start |
| EventPaging.BelowIsOrder | internal/audit/read.go:118-133 | (created_at, event_id) is a strict total order |
| PagingLaws.EarlierIsBefore | internal/audit/read.go:118-133 | of two instants the earlier is the one of the smaller calendar number |
| PagingLaws.LessIsSooner | internal/audit/read.go:118-133 | of two texts the smaller is a front part of the other or smaller at the first difference |
| PagingLaws.ListRunsBack | internal/audit/read.go:118-133 | so a list runs from newer to older, and at one instant from greater to smaller ids |
| PagingLaws.MatchesMeans | internal/audit/read.go:118-130 | which events a filter lists, from its first instant on and before its second |
| PagingLaws.PageHolds | internal/audit/read.go:109-161 | how many events a page holds: those asked for or all that are left, 20 by default and 100 at most |
| AudienceExport.Engine | internal/privacy/consent_segment.go:219-260 | one engine page past an opaque cursor, capped, with a next cursor exactly when members remain |
| PagingLaws.EnginePageHolds | internal/privacy/consent_segment.go:219-260 | how many members an engine page holds, and which once none follows |
| AudienceExport.ExportPages | internal/api/consent_segment.go:201-225 | accumulating capped pages equals one page of the requested size, with a cursor that resumes exactly |
| AudienceExport.FollowingReadsOnce | internal/api/consent_segment.go:201-225 | following such cursors over pages of any sizes reads each member of the segment once, in order |

## Left out

- Go's regular-expression size and nesting limits; escapes of letters and digits (`\d`, `\x2e`) and named classes inside
  a glob class, which the documented class syntax does not have. `Regexp` refuses them where Go may accept them, so the
  answer of `CompileGlob` for such a class is not Go's.
- URL parsing and the kinds of host names in `Redirects`: the parser is any function of the text.
- Refresh at `/oauth/token`; sessions of OAuth applications only appear as ones this endpoint refuses.
- Refresh tokens without a session, which no first-party flow inserts, and so the walk along parents in
  `revokeTokenFamily`.
- The secret of a refresh token and the key of a session are identified with fresh row ids.
- Challenge rows and codes: a verification step carries whether its challenge, code and hook allow it, as one step.
- Cleanup passes after the third as steps of their own: the removal of failure counters is an event of `Attempts`, that
  of flow states one of `FlowClaim`, and that of one-time tokens is among what other requests do in `Delivery`.
- GlobMeaning.CompiledMatchesWhatItDenotes: covers classes without backslashes and named classes, because the documented
  class syntax has none. Beyond it, which escapes keep a class's meaning is settled for a single class without ranges and
  without escapes of letters and digits.
- Floating-point rounding and buckets sharing one janitor list: the limiter uses real numbers.
- Case folding and blanks beyond ASCII, and the collation of text order in the database.
- Rbac.GrantCeiling: does not sort the missing names for the message, because only the set decides; actor and role ids are numbers.
- Sign-in state of management-plane users (closed sessions, second factor): a caller is taken as admitted.
- Identity metadata, application metadata and the tokens behind a confirmation mail in account resolution; the hooks'
  answers and a refused mail are inputs.
- Linking an identity to a signed-in user, and the implicit flow, in the flow claim.
- A discard that itself fails; the delivery results assume its statements succeed.
- `ParseStamp` reads the UTC form that cursors are written in, not every offset or fraction `time.Parse` accepts.
- A segment that changes between the engine pages of one export, and how the segment is derived from consent events.
- The server's own table of translated actions; the audit query is proved for every table.
- HTTP, JSON, logging, cryptography, mail and SMS transport, configuration loading, and Postgres itself.
