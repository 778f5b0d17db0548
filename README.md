# IdeaHub server core in Dafny

This project models the Node/Express server of IdeaHub, an idea-voting platform. It covers the in-memory data store, the REST handlers for ideas, votes and comments, and the security layer around them:

- threat monitoring and IP blocking;
- performance metrics;
- the audit trail;
- sessions;
- JWT and Keycloak authentication, role checks and the per-user rate limiter;
- input sanitisation and the content-security policy;
- the registration, login, refresh and profile routes.

Each source file becomes one module:

| module | source file |
|---|---|
| `Monitoring` | `server/monitoring.ts` |
| `Performance` | `server/performance.ts` |
| `Audit` | `server/audit.ts` |
| `Sessions` | `server/session.ts` |
| `Storage` | `server/storage.ts` |
| `Routes` | `server/routes.ts` |
| `Auth` | `server/auth.ts` |
| `KeycloakAuth` | `server/keycloak-auth.ts` |
| `Security` | `server/security.ts` |
| `AuthRoutes` | `server/authRoutes.ts` |

Supporting modules:

- `Wrappers`: `Option`/`Result`.
- `Strings`: the JavaScript string operations used.
- `Seqs`: filtering.
- `OrderedMaps`: a JavaScript `Map` with its insertion order, which the source iterates.
- `Sorting`: the stable `Array.prototype.sort`.
- `RegexTest`: `RegExp.prototype.test` with its `lastIndex` state.
- `Json`: the parsed request values.
- `Http`: requests and replies.

Objects that the source updates in place are classes whose methods state their whole new state. They are `SecurityMonitor`, `PerformanceMonitor`, `AuditLogger`, `SessionManager`, `MemStorage` and the rate-limit store. Pure decisions are functions, and what the source promises is proved about those functions as lemmas.

Where the source does something other than it evidently intends (see "## Findings"), the classes and handlers run the code as written: the performance monitor keys and prunes its samples as written, the rate-limit store resets only strictly after the reset time, the sanitiser's default patterns carry `g`, and registration checks the password rule as written. The corrected definitions sit beside them, with the intended properties proved about them.

The clock (`Date.now()`) is a parameter named `now`. Timers become explicit sweeps: the `setTimeout` that unblocks an address becomes a pending `Timer` fired by `ExpireBlocks`.

The outside world becomes uninterpreted parameters:

- JWT signing and verification;
- bcrypt hashing and comparison;
- Keycloak token verification;
- DOMPurify;
- the e-mail validator;
- the regular-expression engine.

The `Searcher` parameter answers where a pattern's next match ends. The model decides everything `test` does around that answer.

Arithmetic is exact where the source is exact and wraps where the source wraps. `mapKeycloakUserToLocalId` runs its 32-bit hash over UTF-16 code units with ECMAScript `ToInt32` written out. Rates and shares become cross-multiplied integer comparisons.

## Model

| member | source | states |
|---|---|---|
| Http.ClientIp | server/monitoring.ts:216 | `req.ip \|\| 'unknown'`: a present, non-empty address is used as it is; the result is never empty |
| RegexTest.Test | server/monitoring.ts:97-98 | `test` on a pattern without `g` depends on the input only; with `g` it searches from `lastIndex`, resets it to 0 on failure or past the end, and moves it to the match end on success |
| RegexTest.NonGlobalIsStateless | server/monitoring.ts:35 | a pattern without `g` gives the same answer whatever its `lastIndex` |
| RegexTest.GlobalTestAlternates | server/monitoring.ts:36 | with `g`, a second `test` of the same input can fail where the first matched |
| Monitoring.Bump | server/monitoring.ts:53-69 | `updateMetrics` increments one counter; more than a minute after the last reset the whole record is fresh, all counters 0 and `lastReset = now` |
| Monitoring.RolloverEventIsLost | server/monitoring.ts:53-69 | the increment comes before the reset, so the event that opens a new window is not counted in it |
| Monitoring.RiskScore | server/monitoring.ts:112-137 | the risk score is a multiple of 5, at most 100, and is the uncapped sum of the rate, error, auth, pattern and duration terms unless capped |
| Monitoring.RiskMonotoneInAuthFailures | server/monitoring.ts:125-127 | more authentication failures never lower the score |
| Monitoring.RiskMonotoneInErrors | server/monitoring.ts:120-123 | more errors for the same request count never lower the score |
| Monitoring.EachPatternAddsTen | server/monitoring.ts:130 | each further recorded pattern adds exactly 10, up to the cap |
| Monitoring.RiskNonIncreasingOverTime | server/monitoring.ts:115-134 | without new requests the score never rises as time passes |
| Monitoring.RiskNotMonotoneInRequests | server/monitoring.ts:121-123 | more requests with the same errors can lower the score, because the error rate falls |
| Monitoring.FirstRequestScore | server/monitoring.ts:112-137 | the first request of a new address scores 45 plus 10 per pattern, capped at 100 |
| Monitoring.AddPatterns | server/monitoring.ts:99-102 | recording matches keeps the old list as a prefix, adds every matched name, adds nothing else, and keeps the list duplicate-free |
| Monitoring.AddPatternsIdempotent | server/monitoring.ts:100 | recording the same matches again changes nothing |
| Monitoring.AddPatternsPresent | server/monitoring.ts:100 | names already recorded are not added again |
| Monitoring.ScanPatterns | server/monitoring.ts:97-104 | scanning the first n patterns changes only those patterns' `lastIndex` |
| Monitoring.ScanReportsNonGlobal | server/monitoring.ts:97-104 | a pattern without `g` is reported exactly when the engine finds it from the start of the content, whatever earlier requests did |
| Monitoring.ScanNamesBelow | server/monitoring.ts:97-104 | a pattern not yet scanned is not reported |
| Monitoring.ScanSettled | server/monitoring.ts:97-104 | scanning later patterns leaves an earlier pattern's report and state alone |
| Monitoring.PatternTextsDistinct | server/monitoring.ts:34-41 | the six patterns have distinct `toString()` names |
| Monitoring.TraversalMissedOnRepeat | server/monitoring.ts:38 | the `g` traversal pattern that matched a content once is not reported for the same content sent again |
| Monitoring.Analyzed | server/monitoring.ts:92-107 | `analyzeThreat` adds one request, sets `lastSeen`, takes the given pattern list, rescores, and leaves the other counters alone |
| Monitoring.Analyze | server/monitoring.ts:71-110 | the threat map afterwards is the old one with the client's record replaced, kept valid; that record counts one more request and appends the newly matched patterns; the pattern state is the scan's; a stored record keeps its serial, a new one takes the counter, and every stored serial stays below the counter |
| Monitoring.TimerDelay | server/monitoring.ts:150-152 | a `setTimeout` delay outside [1, 2^31-1] becomes 1; a delay inside that range is kept |
| Monitoring.AddBlockedFacts | server/monitoring.ts:149 | adding to the blocked set adds exactly that address, once |
| Monitoring.PendingTimers | server/monitoring.ts:150-152 | the timers that remain are exactly those not yet due |
| Monitoring.WithoutIps | server/monitoring.ts:151 | unblocking removes exactly the addresses whose timer fired |
| Monitoring.SecondBlockCutShort | server/monitoring.ts:148-153 | blocking an address again does not cancel the first timer: the block ends an hour after the first block |
| Monitoring.GlobalAnomalies | server/monitoring.ts:159-169 | each of the three global messages appears exactly when its counter is over its threshold |
| Monitoring.CriticalIpsMembers | server/monitoring.ts:172-175 | the addresses blocked by the anomaly pass are exactly those scoring at least 90 |
| Monitoring.BlockAllFacts | server/monitoring.ts:175 | blocking a list keeps the set duplicate-free and adds exactly the listed addresses |
| Monitoring.WalkStep | server/monitoring.ts:172-179 | the anomaly walk adds one record's message and block at a time |
| Monitoring.BlockSnoc | server/monitoring.ts:175 | blocking one more address extends the blocked set and the timers by that address |
| Monitoring.ThreatAnomaliesExact | server/monitoring.ts:172-179 | an address gets a "critical" message exactly at score 90 or more, and a "high risk" one exactly in [75, 90) |
| Monitoring.MessagesInjective | server/monitoring.ts:174-177 | different addresses give different messages, and a critical message is never a high-risk one |
| Monitoring.ActiveThreats | server/monitoring.ts:185-193 | the report lists min(10, number of active records) records, all scoring over 50 and drawn from the active records (no record more often than it occurs), sorted by score from highest |
| Monitoring.ActiveThreatsAreTheHighest | server/monitoring.ts:185-193 | an active record left out of the report scores no more than every listed one, and only when ten are listed |
| Monitoring.Pruned | server/monitoring.ts:199-209 | `cleanup` drops exactly the records older than an hour that score below 50, and keeps the others unchanged |
| Monitoring.CountResponse | server/monitoring.ts:243-256 | the response hook changes no key of the threat map; the captured record, if the map still holds it, gains one error for a status of 400 or more and one auth failure for 401 or 403, and nothing else; every other record, and the map when the record is gone, is unchanged |
| Monitoring.RecreatedRecordIgnoresTicket | server/monitoring.ts:243-256 | a response hook whose record was deleted and whose address got a new record afterwards changes nothing: the ticket's serial precedes the counter, the new record's serial is the counter at creation |
| Monitoring.SecurityMonitor.constructor | server/monitoring.ts:32-51 | a new monitor has fresh metrics, no threats, no blocked address, no timers |
| Monitoring.SecurityMonitor.UpdateMetrics | server/monitoring.ts:53-69 | the metrics become `Bump` of the old ones |
| Monitoring.SecurityMonitor.AnalyzeThreat | server/monitoring.ts:71-110 | the returned record and the new threats and pattern state are those of `Analyze` |
| Monitoring.SecurityMonitor.RecordMatches | server/monitoring.ts:97-104 | the pattern loop appends exactly the new matched names and leaves the patterns' `lastIndex` as the scan does |
| Monitoring.SecurityMonitor.BlockIP | server/monitoring.ts:148-153 | the address joins the blocked set and one unblock timer is scheduled |
| Monitoring.SecurityMonitor.ExpireBlocks | server/monitoring.ts:150-152 | the due timers fire: their addresses leave the blocked set and the pending timers remain |
| Monitoring.SecurityMonitor.DetectAnomalies | server/monitoring.ts:155-182 | the messages are the global ones followed by one per high or critical record in map order; every critical address ends up blocked with a one-hour timer |
| Monitoring.SecurityMonitor.CheckThreat | server/monitoring.ts:173-178 | one record's message; a critical record is blocked, any other changes nothing |
| Monitoring.SecurityMonitor.GetSecurityReport | server/monitoring.ts:184-197 | the report has the metrics, the blocked list before the anomaly pass, the active threats and the record count; it blocks as the anomaly pass does |
| Monitoring.SecurityMonitor.Cleanup | server/monitoring.ts:199-209 | the threat map becomes `Pruned` of the old one |
| Monitoring.SecurityMonitor.SecurityMiddleware | server/monitoring.ts:215-259 | a blocked or high-risk address is refused with 403 ACCESS_DENIED, one CRITICAL event and no state change (the serial counter included); otherwise the request is analysed and counted, a score of 70 or more is logged, and the request passes |
| Monitoring.SecurityMonitor.AnalyzeAndCount | server/monitoring.ts:228-231 | the admitted path analyses the request, then counts it |
| Monitoring.SecurityMonitor.OnResponseEnd | server/monitoring.ts:243-256 | a status of 400 or more counts an error, 401 and 403 also an auth failure, both globally and in the captured record if the map still holds it |
| Monitoring.SecurityMonitor.AuthThreatDetection | server/monitoring.ts:262-282 | five or more recorded auth failures give 429 AUTH_RATE_LIMITED, a CRITICAL event and a 15-minute block; otherwise the request passes; in both cases the threat map, pattern state and serial counter are the analysis's |
| Monitoring.SecurityMonitor.RefuseBruteForce | server/monitoring.ts:266-279 | a record with five or more auth failures gives 429 AUTH_RATE_LIMITED, one BRUTE_FORCE_ATTEMPT event, the address blocked and a 15-minute unblock timer; otherwise nothing changes and the request passes |
| Performance.DigitRun | server/performance.ts:38 | the greedy `\d+` run at the start of a string |
| Performance.AsWrittenNumericId | server/performance.ts:38 | as written, a numeric segment becomes `:id` |
| Performance.AsWrittenDigitLedId | server/performance.ts:37-40 | as written, an id that starts with digits but is not all digits keeps its tail after `/:id` |
| Performance.AsWrittenKeepsWord | server/performance.ts:37-40 | a segment starting with a letter outside a-f is left alone |
| Performance.AsWrittenMangledPath | server/performance.ts:37-40 | on `/<word>/<id>` with a digit-led id the as-written rewrite is not `/<word>/:id` |
| Performance.AsWrittenMangledUuid | server/performance.ts:37-40 | the example UUID path is normalised to `/ideas/:id` followed by the UUID's tail |
| Performance.NormalizeAsWrittenAppend | server/performance.ts:37-40 | the as-written rewrite works segment by segment |
| Performance.SegmentLength | server/performance.ts:37-40 | the length of a path segment, up to the next slash |
| Performance.NormalizeAppend | server/performance.ts:35-41 | the intended normalisation works segment by segment |
| Performance.NormalizeId | server/performance.ts:36-40 | intended normalisation: a numeric, ObjectId or UUID segment becomes `:id` |
| Performance.NormalizeOtherSegment | server/performance.ts:36-40 | intended normalisation: any other segment is kept |
| Performance.NormalizeIdPath | server/performance.ts:36 | intended normalisation: `/<word>/<id>` becomes `/<word>/:id` |
| Performance.NormalizedUuid | server/performance.ts:40 | intended normalisation: the example UUID path becomes `/ideas/:id` |
| Performance.AsWrittenDropsEverything | server/performance.ts:30-31 | as written, once the clock is five minutes past the longest stored duration, every sample is dropped |
| Performance.AsWrittenDropsFreshSample | server/performance.ts:30-31 | as written, a 120 ms response recorded at a present-day clock is dropped at once |
| Performance.RecordedKeptIff | server/performance.ts:27-31 | as written, a duration just recorded is kept, after the earlier durations that stay, exactly when it exceeds `now - 5 min` |
| Performance.RecentMembers | server/performance.ts:30-31 | the intended window keeps exactly the samples that finished in the last five minutes |
| Performance.RecentAppend | server/performance.ts:31 | the intended window filter goes sample by sample |
| Performance.RecentKeepsNewest | server/performance.ts:27-32 | with the intended window, the sample just recorded is always kept, after the earlier ones that stay |
| Performance.RecentIdempotent | server/performance.ts:31 | filtering twice with the intended window at the same time changes nothing |
| Performance.SlowCountBounds | server/performance.ts:56-57 | the count of durations over 1000 ms is at most the count, 0 exactly when none is slow, the count exactly when all are |
| Performance.Average | server/performance.ts:64 | the average times the count is the total, and 0 with no samples |
| Performance.AverageAbove | server/performance.ts:99 | the average exceeds a limit exactly when the total exceeds limit times count |
| Performance.ShareAbove | server/performance.ts:100 | `slow / count > 0.1` exactly when 10 times slow exceeds count |
| Performance.StatsOf | server/performance.ts:77-84 | the endpoint figures: count, slow count at most count, average times count equal to the total |
| Performance.KeptEndpointsMembers | server/performance.ts:107-114 | the endpoints kept by cleanup are exactly those with a duration above `now - 5 min` |
| Performance.PrunedMetrics | server/performance.ts:105-115 | cleanup leaves a well-formed map that keeps exactly the endpoints with a duration above `now - 5 min`, each with just those durations |
| Performance.PrunedIsRecent | server/performance.ts:105-115 | after cleanup every list is non-empty and holds only durations above `now - 5 min`, each from the endpoint's old list |
| Performance.PrunedTwice | server/performance.ts:105-115 | cleanup twice at the same clock reading removes nothing more |
| Performance.SweepAdvance | server/performance.ts:107-114 | one step of the cleanup walk filters the visited endpoint's durations against `now - 5 min` or deletes it, and keeps the order |
| Performance.PruneSamples | server/performance.ts:105-115 | the cleanup loop over the duration lists computes `PrunedMetrics`, the as-written filter |
| Performance.PerformanceMonitor.constructor | server/performance.ts:13-18 | a new monitor has no samples and records its start time and CPU usage |
| Performance.PerformanceMonitor.RecordRequestTime | server/performance.ts:20-33 | the duration is appended under the endpoint's three-pass rewrite `NormalizeAsWritten`, and that list is filtered by `RecentAsWritten`; the other endpoints are unchanged |
| Performance.PerformanceMonitor.GetMetrics | server/performance.ts:43-71 | the request count, average and slow count over all stored durations, plus uptime, timestamp and CPU usage since the start |
| Performance.PerformanceMonitor.GetEndpointMetrics | server/performance.ts:73-88 | one entry per endpoint in map order, with that endpoint's figures |
| Performance.PerformanceMonitor.IsHealthy | server/performance.ts:90-103 | healthy exactly when the heap is within 512 MiB, the average within 500 ms and the slow share within 10% |
| Performance.PerformanceMonitor.Cleanup | server/performance.ts:105-115 | the duration map becomes `PrunedMetrics` of the old one, the as-written filter |
| Audit.DetermineRiskLevel | server/audit.ts:199-213 | "/auth" paths are MEDIUM; else "/admin" paths or failures are HIGH; LOW exactly for successful non-mutating requests elsewhere; never CRITICAL |
| Audit.AuthPathOutranksFailure | server/audit.ts:201-207 | a failed admin request under "/auth" is still MEDIUM |
| Audit.AuthenticationAttempt | server/audit.ts:112-127 | success gives LOGIN_SUCCESS/200/LOW; failure gives LOGIN_FAILURE/401/MEDIUM |
| Audit.DataAccess | server/audit.ts:129-144 | DATA_ACCESS, upper-cased resource type, 200, LOW, no details |
| Audit.DataModification | server/audit.ts:146-162 | DATA_MODIFICATION, upper-cased resource type, 200, MEDIUM, the changes as details |
| Audit.SecurityEvent | server/audit.ts:164-178 | `SECURITY_` plus the upper-cased type, 403, ERROR, risk HIGH unless given |
| Audit.ApiRequest | server/audit.ts:180-197 | ERROR exactly for status 400 or more, with the risk level of `DetermineRiskLevel` |
| Audit.OnlySecurityEventsAreCritical | server/audit.ts:112-197 | only a security event can be CRITICAL |
| Audit.LogFileName | server/audit.ts:46-49 | a day's file is named `audit-<day>.log` |
| Audit.RotatedNameOfDailyFile | server/audit.ts:56 | rotation puts `-<timestamp>` before the extension and never reuses the name |
| Audit.RotatedPathInDirectory | server/audit.ts:46-56 | rewriting the first `.log` of the full path `<dir>/<name>` gives `<dir>/` followed by the rotated file name, for a directory without '.' |
| Audit.Rotate | server/audit.ts:51-62 | a file over 100 MiB is moved, within the log directory, to the name with its first `.log` rewritten; a missing or small file is left alone; other files are untouched |
| Audit.Append | server/audit.ts:95 | appending creates the file if needed, adds exactly one entry and its bytes, and touches no other file |
| Audit.RotationPreservesContent | server/audit.ts:93-95 | after rotation the day's file starts afresh with the new entry and the rotated file holds the old content |
| Audit.SortNames | server/audit.ts:69 | `.sort()` of distinct names is strictly ascending and a permutation |
| Audit.Reverse | server/audit.ts:70 | `.reverse()` |
| Audit.FilterAuditLogs | server/audit.ts:68 | exactly the `audit-*.log` names are kept |
| Audit.ExpiredLogs | server/audit.ts:72-76 | the retention rule without sorting: a log is expired exactly when 365 or more audit logs sort after it |
| Audit.NewestFirst | server/audit.ts:67-70 | the audit logs, strictly descending |
| Audit.NewestFirstRank | server/audit.ts:67-73 | the i-th newest log has exactly i newer logs |
| Audit.LogsToDeleteAreExpired | server/audit.ts:72-76 | the sorted selection deletes exactly the expired logs, and nothing while there are at most 365 |
| Audit.DeletedIsExpired | server/audit.ts:73-76 | every deleted log is expired |
| Audit.ExpiredIsDeleted | server/audit.ts:73-76 | every expired log is deleted |
| Audit.ListDirectory | server/audit.ts:66 | the listing names every file once |
| Audit.SuccessiveEventsKeepOrder | server/audit.ts:83-105 | two events logged in turn to a small file end it in the order they were logged |
| Audit.AuditLogger.constructor | server/audit.ts:34-36 | a new logger has an empty directory and error stream |
| Audit.AuditLogger.LogEvent | server/audit.ts:83-105 | rotate the day's file if needed, append exactly one stamped entry, echo CRITICAL events |
| Audit.AuditLogger.RotateLogIfNeeded | server/audit.ts:51-62 | the directory becomes `Rotate` of the old one |
| Audit.AuditLogger.CleanupOldLogs | server/audit.ts:64-81 | exactly the expired logs are deleted and every other file is unchanged |
| Sessions.Updated | server/session.ts:67-78 | the session map stays valid |
| Sessions.Checked | server/session.ts:109-121 | the session map stays valid |
| Sessions.ResolveSessionId | server/session.ts:177-184 | a non-empty header wins; otherwise the bound id if non-empty; never an empty id |
| Sessions.Validated | server/session.ts:176-198 | the store stays valid |
| Sessions.CreatedLastsADay | server/session.ts:44-56 | a new session is valid until exactly 24 hours after creation |
| Sessions.MergeRefreshes | server/session.ts:71 | an update always refreshes `lastActivity`, applies only the fields it carries, and is idempotent |
| Sessions.UpdatedTouchesOne | server/session.ts:67-78 | updating changes only the one record and keeps the ids and their order |
| Sessions.DeactivatedIsInvalid | server/session.ts:67-78 | a session deactivated through an update is invalid from then on |
| Sessions.CheckedRemovesAtMostOne | server/session.ts:109-121 | checking removes at most the session asked about, and nothing when it is valid |
| Sessions.CheckedIdempotent | server/session.ts:109-121 | checking twice gives the same answer and the same store |
| Sessions.CleanupKeepsAnswers | server/session.ts:123-145 | after cleanup no stored session is expired, and validity answers are unchanged |
| Sessions.ActiveSessionsMembers | server/session.ts:147-170 | a session is listed exactly when it is stored, belongs to the user and is active |
| Sessions.DestroyedUserHasNone | server/session.ts:88-107 | after destroying a user's sessions none is listed |
| Sessions.ValidatedIffValid | server/session.ts:176-198 | the request passes exactly when it names a valid session, which is then refreshed; otherwise 401 SESSION_REQUIRED or SESSION_INVALID |
| Sessions.SessionManager.constructor | server/session.ts:15-22 | a new manager has no sessions |
| Sessions.SessionManager.CreateSession | server/session.ts:44-56 | the record is stored active and stamped now, replacing any earlier one |
| Sessions.SessionManager.GetSession | server/session.ts:58-65 | the stored record, or none exactly when there is none |
| Sessions.SessionManager.UpdateSession | server/session.ts:67-78 | the store becomes `Updated` of the old one |
| Sessions.SessionManager.DestroySession | server/session.ts:80-86 | the session is deleted |
| Sessions.SessionManager.DestroyAllUserSessions | server/session.ts:88-107 | exactly the user's sessions are deleted, the others keep their order |
| Sessions.SessionManager.IsSessionValid | server/session.ts:109-121 | the answer is `Validity`, and an expired session is destroyed |
| Sessions.SessionManager.CleanupExpiredSessions | server/session.ts:123-145 | exactly the expired sessions are deleted |
| Sessions.SessionManager.GetActiveSessions | server/session.ts:147-170 | the user's active sessions in map order |
| Sessions.SessionManager.ValidateSession | server/session.ts:176-198 | the reply and store of `Validated`, with the resolved id on success |
| Storage.FirstDash | server/storage.ts:34 | the position of the first '-' at or after a point |
| Storage.FirstDashIsSeparator | server/storage.ts:146 | in `<ideaId>-<userId>` the first '-' after the first character is the separator |
| Storage.VoteKeyInjective | server/storage.ts:34 | different (idea, user) pairs get different keys |
| Storage.VoteUnderItsKey | server/storage.ts:262-264 | the vote stored under a pair's key is that pair's vote |
| Storage.OneVotePerPair | server/storage.ts:266-280 | at most one stored vote per (idea, user) pair |
| Storage.UpsertedFacts | server/storage.ts:266-280 | a create-or-update keeps the store invariant and leaves the pair exactly one vote of the given type; a new vote takes the next id, an existing one keeps its id |
| Storage.DeleteVoteKeeps | server/storage.ts:282-284 | deleting a vote keeps the invariant and removes only that pair's vote |
| Storage.TallyBound | server/storage.ts:286-291 | up and down votes together never exceed the votes on the idea |
| Storage.WithAuthorsMembers | server/storage.ts:297-302 | a comment is listed exactly when its author exists, paired with that author |
| Storage.IdeaCommentsFacts | server/storage.ts:293-305 | exactly the idea's comments with an existing author, oldest first, a stable permutation |
| Storage.DetailsMembers | server/storage.ts:185-199 | an idea is listed exactly when its author exists, with its vote counts and comment count |
| Storage.IdeaListingFacts | server/storage.ts:176-217 | exactly the ideas of the category with an existing author, sorted by the chosen key from highest, most popular by default |
| Storage.FindByUsername | server/storage.ts:165-167 | the first user with that name in map order, none exactly when no user has it |
| Storage.SeedIdeas | server/storage.ts:72-131 | the six seeded ideas are numbered 1 to 6 |
| Storage.SeedComments | server/storage.ts:150-158 | the two seeded comments are numbered 1 and 2 |
| Storage.AscendingBefore | server/storage.ts:135-142 | in a list of pairs ascending step by step, every earlier pair comes before every later one |
| Storage.SeedPairsDistinct | server/storage.ts:135-142 | the fifteen seeded votes are up votes on pairwise distinct (idea, user) pairs |
| Storage.PlantedFresh | server/storage.ts:144-147 | the next vote of a seed with distinct pairs has a key not yet in the store |
| Storage.PlantedStep | server/storage.ts:144-147 | storing the next seed vote under its pair key appends that key and keeps the earlier votes, because the pairs are distinct |
| Storage.PlantedKeyed | server/storage.ts:144-147 | a store planted from a seed is keyed by its pairs with ids below the counter; once the whole seed is in, its values are the seed numbered 1, 2, … in order |
| Storage.MemStorage.constructor | server/storage.ts:41-159 | the seeded store keeps its invariants; its users are the seven seeded users in order, its ideas the six seeded ideas, its comments the two seeded comments and its votes the fifteen seeded pairs numbered 1 to 15 in order; the counters are 8, 7, 16 and 3 |
| Storage.MemStorage.PlantUsers | server/storage.ts:56-69 | from an empty map, the given users (numbered from 1) are stored under their ids in order; the next user id is one past the last |
| Storage.MemStorage.PlantIdeas | server/storage.ts:129-132 | from an empty map, the given ideas (numbered from 1) are stored under their ids in order; the next idea id is one past the last |
| Storage.MemStorage.PlantComments | server/storage.ts:155-158 | from an empty map, the given comments (numbered from 1) are stored under their ids in order; the next comment id is one past the last |
| Storage.MemStorage.PlantVotes | server/storage.ts:144-147 | from an empty map and a seed with distinct pairs, each vote is stored under its `<ideaId>-<userId>` key with ids 1, 2, … in seed order; the next vote id is one past the last |
| Storage.MemStorage.GetUser | server/storage.ts:161-163 | the user with that id, or none exactly when there is none |
| Storage.MemStorage.GetUserByUsername | server/storage.ts:165-167 | the first user with that name |
| Storage.MemStorage.CreateUser | server/storage.ts:169-174 | the user takes the next, unused id and is stored; the counter moves on |
| Storage.MemStorage.GetIdeaVotes | server/storage.ts:286-291 | the up and down counts of the idea |
| Storage.MemStorage.GetIdeaComments | server/storage.ts:293-305 | the listing of `IdeaComments` |
| Storage.MemStorage.GetIdeas | server/storage.ts:176-217 | the listing of `IdeaListing` |
| Storage.MemStorage.DetailEach | server/storage.ts:183-199 | the loop builds `Details` of the selected ideas: one entry per idea whose author exists, in order |
| Storage.MemStorage.GetIdea | server/storage.ts:219-236 | none for a missing idea or author, else the idea's details |
| Storage.MemStorage.CreateIdea | server/storage.ts:238-247 | the idea takes the next, unused id and the current time and is stored |
| Storage.MemStorage.UpdateIdea | server/storage.ts:249-256 | none and no change for a missing idea; else the merged idea is stored and returned |
| Storage.MemStorage.DeleteIdea | server/storage.ts:258-260 | true exactly when the idea existed; it is removed |
| Storage.MemStorage.GetUserVote | server/storage.ts:262-264 | the pair's vote, or none exactly when there is none |
| Storage.MemStorage.CreateOrUpdateVote | server/storage.ts:266-280 | the store and counter of `Upserted` |
| Storage.MemStorage.DeleteVote | server/storage.ts:282-284 | true exactly when the pair had a vote; it is removed |
| Storage.MemStorage.CreateComment | server/storage.ts:307-316 | the comment takes the next, unused id and the current time and is stored |
| Storage.MemStorage.DeleteComment | server/storage.ts:318-320 | true exactly when the comment existed; it is removed |
| Storage.MemStorage.GetStats | server/storage.ts:322-328 | the numbers of ideas, votes and users |
| Routes.ToggledFacts | server/routes.ts:85-94 | after a vote the user has no vote on the idea if the same type was repeated, else exactly one, of the voted type; other pairs keep their votes |
| Routes.SameVoteTwiceCancels | server/routes.ts:87-89 | voting the same type twice from no vote leaves the votes as they were |
| Routes.UpThenDown | server/routes.ts:87-94 | up then down leaves exactly the user's down vote |
| Routes.VoteOnIdea | server/routes.ts:76-101 | a missing or zero user id or a type other than "up"/"down" gives 400 and no change; else the votes and vote counter become `Toggled` of the old ones and the idea's counts are returned; users, ideas, comments and the other three counters never change |
| Routes.AddComment | server/routes.ts:115-130 | a missing or falsy user id or content gives 400 and no change; else 201 with the comment under the next, unused id, stored by that id, and the comment counter moves on; users, ideas, votes and the other counters never change |
| Routes.GetIdeaRoute | server/routes.ts:22-33 | 404 exactly for a missing idea or author, else 200 with the idea's details: the idea, its author, its up and down vote counts and its listed comments |
| Routes.PatchIdea | server/routes.ts:47-59 | an unparseable body gives 400 and no change, a missing idea 404 and no idea changed, else 200 with the merged idea, which replaces the stored one; users, votes, comments and all counters never change |
| Routes.DeleteIdeaRoute | server/routes.ts:62-73 | 204 if the idea existed, else 404; either way it is gone and no other idea changes; users, votes, comments and all counters never change |
| Auth.BearerToken | server/auth.ts:80 | the token is the header after "Bearer " |
| Auth.AuthenticateIff | server/auth.ts:69-107 | a request passes exactly with a Bearer token that verifies and names a stored user whose `isActive` is "true"; it then carries the payload; every refusal is a 401 |
| Auth.Authorize | server/auth.ts:110-128 | 401 without a user, 403 for a role not listed, pass exactly for a listed role |
| Auth.CeilSeconds | server/auth.ts:152 | `Math.ceil(ms / 1000)` |
| Auth.LimitAsWritten | server/auth.ts:133-159 | the limiter as written keeps its store valid |
| Auth.RetryAfterRefusedAgain | server/auth.ts:143-153 | as written, a client that waits exactly its `retryAfter` is refused again with `retryAfter` 0 |
| Auth.RetryAfterExample | server/auth.ts:143-153 | the same with one request per minute: refused at 58000 with 2 s, refused again at 60000 with 0 s |
| Auth.Limit | server/auth.ts:133-159 | the corrected limiter keeps its store valid |
| Auth.RetryAfterSuffices | server/auth.ts:148-153 | with the correction, waiting `retryAfter` seconds is enough and one second less is not |
| Auth.LimitKeepsCountsBounded | server/auth.ts:143-157 | with the limiter as written, no stored count exceeds the limit; a refused or anonymous request changes nothing |
| Auth.Run | server/auth.ts:133-159 | a user's requests run through the limiter as written: at most as many pass as are made |
| Auth.RunInsideWindow | server/auth.ts:143-157 | as written, at instants up to and including the reset time at most the remaining allowance passes |
| Auth.PassesPerWindow | server/auth.ts:143-157 | as written, at most `maxRequests` requests of a user pass from the request that opens a window (strictly after the old reset time) up to and including `start + windowMs` |
| Auth.RateLimitStore.constructor | server/auth.ts:131 | the shared store starts empty |
| Auth.RateLimitStore.UserRateLimit | server/auth.ts:133-159 | the decision and the new store are those of `LimitAsWritten`, so every bound above holds for the shared store |
| KeycloakAuth.ToInt32 | server/keycloak-auth.ts:95-96 | ECMAScript ToInt32: a 32-bit value congruent to the input modulo 2^32 |
| KeycloakAuth.ToInt32Congruent | server/keycloak-auth.ts:95-96 | congruent inputs wrap to the same value |
| KeycloakAuth.HashStepIsFold | server/keycloak-auth.ts:95-96 | `((h << 5) - h) + c` then `h & h` is `int32(31 * h + c)` |
| KeycloakAuth.Hash | server/keycloak-auth.ts:91-97 | the hash is always a 32-bit integer |
| KeycloakAuth.LocalIdOf | server/keycloak-auth.ts:98 | `Math.abs(hash) % 1000000` lies in [0, 999999] |
| KeycloakAuth.LocalIdRange | server/keycloak-auth.ts:89-98 | the local id lies in [0, 999999]; the empty subject maps to 0; one code unit hashes to itself |
| KeycloakAuth.MapKeycloakUserToLocalId | server/keycloak-auth.ts:89-98 | the loop computes `LocalId` of the subject's UTF-16 code units |
| KeycloakAuth.AuthenticateKeycloakFacts | server/keycloak-auth.ts:109-143 | without "Bearer " the answer is 401 UNAUTHORIZED; with it the request passes exactly when the token verifies, carrying that user and its local id |
| KeycloakAuth.OptionalAuth | server/keycloak-auth.ts:146-156 | without a Bearer header the request passes with no user; with one it is `authenticateKeycloak` |
| KeycloakAuth.RequireRole | server/keycloak-auth.ts:159-177 | 401 without a user, 403 without the role (no realm roles counts as none), pass exactly when the role is among the realm roles |
| Security.CorrectedPatternsStateless | server/security.ts:20-26 | the default `g` patterns keep state between calls; the corrected patterns do not |
| Security.Screen | server/security.ts:39-43 | testing the patterns in order keeps one `lastIndex` per pattern |
| Security.ScreenStaysBlocked | server/security.ts:39-43 | after the first match no later pattern is tested |
| Security.ScreenStateless | server/security.ts:39-43 | stateless patterns block exactly when one matches from the start, and keep their state |
| Security.SanitizedString | server/security.ts:30-51 | `sanitizeString` keeps one `lastIndex` per pattern |
| Security.SanitizeString | server/security.ts:30-51 | the pattern loop computes `SanitizedString` |
| Security.SanitizedStringStateless | server/security.ts:30-51 | with stateless patterns a string is accepted exactly when it is within the length limit and no pattern matches; it is then purified |
| Security.AsWrittenRepeatPasses | server/security.ts:20-51 | with the default patterns, a `javascript:` string refused once moves that pattern's `lastIndex` to the match end, and is accepted and purified when sent again |
| Security.DefaultInputRepeatPasses | server/security.ts:81-106 | the middleware with no options, as the server mounts it: a JSON array body holding a `javascript:` string is refused with 400, and the same request sent again passes purified |
| Security.DangerousAlwaysRefused | server/security.ts:39-43 | with the corrected patterns a string any pattern matches is refused every time |
| Security.SanitizeObject | server/security.ts:54-78 | `sanitizeObject` keeps one `lastIndex` per pattern |
| Security.SanitizeItems | server/security.ts:65 | an accepted array keeps its length |
| Security.SanitizeFields | server/security.ts:69-73 | the key-by-key loop keeps one `lastIndex` per pattern |
| Security.SanitizeObjectIff | server/security.ts:54-78 | with stateless patterns a value is accepted exactly when every string and key is acceptable and no array is too long; the result is then the value purified |
| Security.SanitizeItemsIff | server/security.ts:61-66 | the same for the items of an array |
| Security.SanitizeFieldsIff | server/security.ts:68-75 | the same for the fields of an object |
| Security.SanitizeObjectShape | server/security.ts:54-78 | null, undefined and other primitives come back unchanged; an over-long array is refused; an accepted array keeps its length |
| Security.SanitizePart | server/security.ts:86-96 | sanitising a request part keeps one `lastIndex` per pattern |
| Security.SanitizePartIff | server/security.ts:86-96 | with stateless patterns a request part passes exactly when it is absent or acceptable, and comes back purified |
| Security.SanitizeInput | server/security.ts:81-106 | the middleware either passes or answers 400 INVALID_INPUT |
| Security.SanitizeInputIff | server/security.ts:81-106 | with stateless blocked patterns (the corrected ones, or any passed without `g`), a request passes exactly when body, query and params are acceptable under the merged limits, and they are then purified |
| Security.BaseSources | server/security.ts:110-123 | no base directive allows `'unsafe-eval'` |
| Security.BaseDirectives | server/security.ts:110-123 | the twelve base directives in source order, each with its sources |
| Security.BaseConnectSources | server/security.ts:110-123 | the base has no `scriptSrc` and its `connectSrc` is `'self'` alone |
| Security.DevelopmentPolicy | server/security.ts:125-127 | the base with `connectSrc` replaced and `scriptSrc` appended last meets the policy description for those two lists |
| Security.ProductionPolicy | server/security.ts:128-130 | the base with `scriptSrc` set to `'self'` meets the policy description, and none of its directives allows `'unsafe-eval'` |
| Security.GetCSPDirectives | server/security.ts:109-133 | development adds `http://localhost:*` to `connectSrc` and allows inline and eval scripts; any other environment allows only `'self'` scripts; production never allows `'unsafe-eval'` |
| AuthRoutes.ValidatorLength | server/authRoutes.ts:32 | the length `isLength` counts is at most the character count |
| AuthRoutes.ValidatorLengthPlain | server/authRoutes.ts:40 | without variation selectors it is the character count |
| AuthRoutes.UsernameValidMeans | server/authRoutes.ts:30-34 | a valid username is 3 to 30 letters, digits and underscores once trimmed |
| AuthRoutes.FirstLine | server/authRoutes.ts:41 | the text before the first line terminator |
| AuthRoutes.FirstLineCovers | server/authRoutes.ts:41 | the first line spans any terminator-free prefix |
| AuthRoutes.PasswordValidIsStricter | server/authRoutes.ts:39-42 | every password the corrected rule accepts, the rule as written accepts too |
| AuthRoutes.PasswordAsWrittenAcceptsAnyTail | server/authRoutes.ts:41 | as written, a password starting "Aa1!" passes with any characters after it, which the corrected rule refuses |
| AuthRoutes.RegisterAcceptsAnyTail | server/authRoutes.ts:39-117 | registration creates the account, with the hash of that password, for a password of "Aa1!" and any tail that the corrected rule refuses, once the name and address are free |
| AuthRoutes.Public | server/authRoutes.ts:101 | the response user is the stored user without its password |
| AuthRoutes.Welcome | server/authRoutes.ts:97-108 | the 201 response carries the public user and a refresh token for its id |
| AuthRoutes.RegisterDecision | server/authRoutes.ts:57-117 | input failing the validators (the password rule as written) gives 400 before any lookup; a taken e-mail gives 409 USER_EXISTS before a taken username gives 409 USERNAME_TAKEN; otherwise a "user" role, active, is created under the trimmed name, the normalised address and the hash |
| AuthRoutes.LoginDecision | server/authRoutes.ts:120-174 | login succeeds exactly for an active user found by the normalised address whose password matches; every other valid request gets the same 401 |
| AuthRoutes.RefreshDecision | server/authRoutes.ts:177-220 | new tokens exactly for a verified refresh token of an active user; an access token is refused |
| AuthRoutes.LoginThenRefresh | server/authRoutes.ts:155-211 | the refresh token a login hands out yields new tokens while the user stays active |
| AuthRoutes.GetProfile | server/authRoutes.ts:223-243 | the public user if found, else 404 USER_NOT_FOUND |

## Left out

- The Redis session back end (`server/session.ts:24-42` and the Redis branches) is not modelled. Only the in-memory store is, which is what the server uses when Redis is unreachable.
- Intervals and timeouts are not scheduled. The hourly and per-minute sweeps, the daily audit-log cleanup and the unblock timers are operations the caller invokes with the current time.
- File-system failures in the audit logger are not modelled. Errors from `stat`, `rename`, `appendFile`, `readdir` and `unlink` only reach the console.
- Event ids and timestamps are parameters. The random part of the event id and of `X-Request-ID` is not modelled.
- `healthCheck` and `getPerformanceMetrics` are not modelled: they only format the figures of `GetMetrics`, `GetEndpointMetrics` and `IsHealthy`. Memory and CPU readings are parameters.
- `optimizeDatabase` is not modelled: it only reads environment variables.
- The `catch` paths that answer 500 are not modelled (AUTH_ERROR, REGISTRATION_FAILED, LOGIN_FAILED, REFRESH_FAILED, PROFILE_FETCH_FAILED and the route handlers' 500s). The store and the libraries are modelled as not throwing.
- The three `express-rate-limit` limiters, `rateLimitConfigs` and `securityHeaders` are not modelled. They are library configuration with no logic of the server's own.
- The `details` array of a VALIDATION_ERROR response is not modelled: its content comes from `express-validator`.
- zod parsing of idea bodies is a parameter.
- `parseInt` of route ids is not modelled: ids are integers.
- A vote body's `userId` is an optional integer. A string user id and the key it would make are not modelled.
- Routes.VoteOnIdea: the type check is modelled on the JSON value, so a non-string `type` is refused as the source refuses it.
- The GET `/api/ideas`, POST `/api/ideas`, GET `/api/ideas/:id/comments` and GET `/api/stats` handlers are not modelled as routes. They only forward to `MemStorage.GetIdeas`, `CreateIdea`, `GetIdeaComments` and `GetStats`, whose contracts are in the table.
- The auth routes call `storage.getUserByEmail` and `storage.updateUserLastLogin`, which `MemStorage` does not define. The store they need is the abstract `Directory` of lookups, and the last-login update is a note on the `LoggedIn` answer.
- Storage.MemStorage: the seeded users have no `email` or `isActive` field, as in the source's seed.
- AddComment: `userId` and `content` are an optional integer and an optional string. The source accepts any truthy JSON value for either and stores it as it is; other value types are not modelled.
- Rotate: the logger's directory holds files by name, and rotation rewrites the file name. The source applies `.replace('.log', …)` to the full path `<cwd>/logs/audit/audit-<day>.log`. The two agree when the directory path holds no '.' (`Audit.RotatedPathInDirectory`). A working directory with `.log` in its path, where the source would rename the file into another directory, is not modelled.
- Sessions.ValidateSession: the source reads the clock twice, once in `isSessionValid` and once in `updateSession`. The model uses one `now` for both.
- SanitizeInputIff: the if-and-only-if is stated for blocked patterns without `g` only. With the default `/gi` set the answer also depends on each pattern's `lastIndex`, so the same input can be refused once and then accepted (`Security.DefaultInputRepeatPasses`). No closed description of the default middleware over every history is given.
- SortNames: file names are compared by code point, while JavaScript's `.sort()` compares UTF-16 code units. The two orders differ only for names that mix characters above U+FFFF with characters in U+E000–U+FFFF. The logger's own names carry an ASCII date, but `LogEvent` takes `day` as any string, and a day of that kind is not modelled.
- Authenticate: `verify` yields only the claims of an access token. The source's `authenticate` checks no `type` claim, and a refresh token is signed with the same secret (`server/auth.ts:36-43`). So a refresh token also authenticates, for example for the profile and logout routes. The model admits that through the `verify` parameter but proves nothing about it.
- Security.SanitizeObject: objects are ordered field lists. JavaScript's ordering of integer-like keys and the `__proto__` key are not modelled.
- Security.SanitizeInput: the 400 answer carries the thrown message in the model's `message` field. The case where a thrown value is not an `Error` cannot arise from `sanitizeObject` and is not modelled.
- Strings: lengths follow the unit the source's library counts. `sanitizeString` counts UTF-16 code units (`Utf16`) and `isLength` counts code points without variation selectors (`ValidatorLength`). There is no Unicode normalisation or case folding beyond ASCII upper-casing in `toUpperCase`.
- RegexTest.Test: `lastIndex` and the searcher's match positions count code points, where JavaScript counts UTF-16 code units, so the `lastIndex > length` reset is stated in code points; the two agree unless the content holds characters above U+FFFF.
- KeycloakAuth: `verifyKeycloakToken`, the JWKS client and its key cache are a parameter, and so is the `resource_access` claim, which no middleware reads. A `sub` that is not a string is not modelled.
- Performance averages use Dafny reals for `totalTime / count`. Floating-point rounding is not modelled.
- Monitoring: `JSON.stringify(req.body)` is a parameter, `bodyText`.
- Monitoring: the response hook captures the record object itself. The model names it by address and a `serial` number; `RecreatedRecordIgnoresTicket` shows that a record deleted and re-created in between is not updated.
- AuthRoutes.Logout has no contract. It always answers success and revokes nothing.

The error-rate term `errorCount / requestCount` of the risk score falls as the request count grows, so the score is not monotone in the request count (`Monitoring.RiskNotMonotoneInRequests`).

## Findings

| source | as written | input that shows it | evidently intended | confidence | as-written member | corrected member |
|---|---|---|---|---|---|---|
| server/performance.ts:37-40 | the digit pass `/\/\d+/g` runs first, so the leading digits of an ObjectId or UUID are replaced and the 24- and 36-character passes no longer match | `/ideas/550e8400-e29b-41d4-a716-446655440000` becomes `/ideas/:ide8400-…` | a whole id segment of any of the three kinds becomes `:id` | high, not executed | Performance.AsWrittenMangledUuid | Performance.NormalizedUuid |
| server/performance.ts:30-31 | the window keeps the durations greater than `Date.now() - 5 min`, comparing milliseconds of duration with a clock reading | a 120 ms request recorded at clock 1700000000000 is dropped at once | keep the samples that finished in the last five minutes | high, not executed | Performance.AsWrittenDropsFreshSample | Performance.RecentKeepsNewest |
| server/auth.ts:143-152 | a new window starts only when `now > resetTime`, while `retryAfter` is `ceil((resetTime - now) / 1000)` | limit 1 per 60 s: a request at 0, a request at 58000 is told 2 s, and the retry at 60000 is refused with `retryAfter` 0 | waiting `retryAfter` seconds is enough (window ends at `resetTime`) | medium, not executed | Auth.RetryAfterRefusedAgain | Auth.RetryAfterSuffices |
| server/security.ts:20-26 | the blocked patterns carry `g` and are shared between calls, so `test` resumes from the previous match's `lastIndex` | `javascript:alert(1)` sent twice: refused the first time, accepted and purified the second | every string a pattern matches is refused, every time | high, not executed | Security.DefaultInputRepeatPasses | Security.DangerousAlwaysRefused |
| server/authRoutes.ts:41 | the password regex has no `$` and its character class covers only the first character after the lookaheads | `Aa1!` followed by four spaces passes | 8 to 128 characters, each a letter, digit or one of `@$!%*?&`, with one of each kind | high, not executed | AuthRoutes.RegisterAcceptsAnyTail | AuthRoutes.PasswordValid |
