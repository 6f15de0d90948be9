# QueryMind: a model of its hard parts

QueryMind answers natural-language questions with SQL. A gateway (TypeScript) guards and forwards requests, a
service (Python) generates, checks, executes and records. This project models the parts of both whose behaviour is
easy to get wrong, and proves what they promise. Each module follows one component.

| module | component |
|---|---|
| `Wrappers`, `Text`, `Regex` | optional values; ASCII classes, case folding, trims; the regular expressions in use as terms with a matching relation |
| `SqlGate`, `SqlPatterns`, `SqlGateLaws`, `SqlCoverage` | `validate_sql`: scanners and verdict, what the patterns find, what acceptance means for references |
| `SqlWrapper`, `Pagination` | the text `_sync_execute` builds, and the pages it returns |
| `CircuitBreaker`, `ProxyClient` | the breaker, and interleaved calls through `executeWithResilience` |
| `RateLimit`, `RateLimitWindows` | the fixed-window guard over interleaved Redis commands, and when its windows end |
| `Redis`, `ConnectionList`, `SchemaCache`, `AskQuery` | keys with a time to live and the log of their writes; the three caches, the last one with the path from question to execution |
| `AskSession` | the last two together: what an executed statement can refer to |
| `RagSelection` | the tables that reach the prompt |
| `Sanitizers`, `ResponseParser`, `StrReplace`, `QueryParameters`, `DatabaseUrl` | the text and tree transformers |
| `History` | delivery of history records through queue, consumer and fallback |

Protocols are step functions over a world value, with theorems over every legal run. The source's objects are
classes over the same functions, so that what is proved of the functions holds of the objects. Loops of the source
are loops here, proved against a specification. Time is an integer given with each step and never runs backwards.

Four laws that one would expect are false of the code as it stands. Each is given with an input or run that fails
it and with the condition under which it holds, both ways: an accepted statement may reference an unknown table when
the schema has a table called `from` or `join` (`SqlCoverage`); one gateway pass is not always enough (`Sanitizers`);
`channel_binding=disable` survives as the first URL parameter (`DatabaseUrl`); a deleted connection may still be
listed after its commit (`ConnectionList`). Of arbitrary texts it is
also false that only URLs with one of the three schemes come out with that of asyncpg (`DatabaseUrl`). Besides, a
rate limit window whose opener crashed never ends (`RateLimitWindows`).

Where comments and code disagree, the code is modelled:

- HALF_OPEN admits every request, not one as the comments say (circuit-breaker.service.ts:7 and 44).
- `recordSuccess` closes an OPEN breaker too, when an old call succeeds late.
- The retry loop is commented out, so the error text that counts retries describes a single attempt (querymind.client.ts:74-101).
- The consumer persists a record itself; it hands nothing to Celery, although its docstring says so (rabbitmq_consumer.py:4).
- `generate_sql` asks Gemini first, then Hugging Face; its docstring names Ollama (ai_service.py:216-217).
- The service's sanitizer escapes no HTML although its docstring says so (sanitization.py:5).

## Model

| member | source | states |
|---|---|---|
| `Regex.Search` | querymind-service/app/services/query_service.py:69 | the left-to-right search finds a match exactly when the pattern matches somewhere in the text |
| `Regex.Transport` | querymind-service/app/services/query_service.py:20-47 | a pattern reads only the text it covers, up to case, and the word edges along it: the match can be carried to any text that shows the same, at any offset |
| `Regex.CaseBlind` | querymind-service/app/services/query_service.py:21 | each compiled pattern finds something in a text exactly when it does in any text that differs in case only |
| `SqlGate.FindAll` | querymind-service/app/services/query_service.py:81-83 | the `findall` loop returns the leftmost, non-overlapping, greedy references in order |
| `SqlGate.RefAtIsTableRe` | querymind-service/app/services/query_service.py:82 | the hand-written reader of `FROM`/`JOIN` references accepts exactly where the regular expression matches, and takes its longest match |
| `SqlGate.Scan` | querymind-service/app/services/query_service.py:68-76 | one pattern loop reports each matching pattern once, in list order, and no other |
| `SqlGate.IsKnown` | querymind-service/app/services/query_service.py:86 | the lower-cased look-up is membership up to case |
| `SqlGate.UnknownNames` | querymind-service/app/services/query_service.py:84-88 | the reported names are exactly the distinct referenced names that no table carries up to case |
| `SqlGate.ValidateSql` | querymind-service/app/services/query_service.py:50-99 | the verdict passes exactly when every check holds; the failed checks are exactly the failing ones, each once; invalid references and the injection flag are exact as well |
| `SqlGate.PassesIsNoFailure` | querymind-service/app/services/query_service.py:90 | passing and having nothing to report are the same |
| `SqlPatterns.StartsSelectIs` | querymind-service/app/services/query_service.py:63-65 | the SELECT check passes exactly when, after blanks and then opening parentheses, the whole word SELECT stands there in any case |
| `SqlPatterns.InjectionReads` | querymind-service/app/services/query_service.py:37-47 | what each of the six injection patterns finds, in characters: quote, semicolon and DROP; UNION, blanks and SELECT; two dashes and a blank; a comment closed on its line; OR and an equation of quotes and digits; a word that starts with xp_ |
| `Text.ClassesAre` | querymind-service/app/services/query_service.py:20-47 | the character classes of the patterns and trims, listed |
| `SqlGateLaws.SkippedExactly` | querymind-service/app/services/query_service.py:79-84 | an occurrence of the reference pattern is skipped by the non-overlapping scan exactly when it is the identifier some match captured |
| `SqlGateLaws.FoundRule` | querymind-service/app/services/query_service.py:81-83 | the scan without its recursion: an occurrence is found exactly when no earlier found reference captured it |
| `SqlGateLaws.ScanCovers` | querymind-service/app/services/query_service.py:79-88 | without a table called `from` or `join`, known references found by the scan mean that every occurrence of the pattern, skipped ones included, names a known table |
| `SqlCoverage.CoverageIffNotReserved` | querymind-service/app/services/query_service.py:79-88 | acceptance means that every occurrence names a known table if and only if the schema has no table called `from` or `join`; for any other schema an accepted statement is built that hides an unknown one |
| `SqlGateLaws.TokensAreRuns` | querymind-service/app/services/query_service.py:23-32 | the tokens are exactly the maximal runs of word characters |
| `SqlGateLaws.ExecReIsEither` | querymind-service/app/services/query_service.py:32 | the pattern with the optional suffix is EXEC or EXECUTE as a whole word |
| `SqlGateLaws.KeywordGateIsTokeniser` | querymind-service/app/services/query_service.py:20-34 | the ten forbidden-statement patterns all fail to match exactly when no token, case-folded, is one of the eleven forbidden words |
| `SqlGateLaws.GateIgnoresCase` | querymind-service/app/services/query_service.py:63-91 | the verdict, and each check on its own, is the same for statements that differ in case only |
| `SqlGateLaws.GateMonotone` | querymind-service/app/services/query_service.py:79-91 | adding tables to the schema never rejects an accepted statement |
| `SqlWrapper.SeamFree` | querymind-service/app/services/query_service.py:113 | a pattern that stops at parentheses and needs a character the frame lacks is found in the wrapped text exactly when it is found in the statement itself |
| `SqlWrapper.BlockCommentSeamFree` | querymind-service/app/services/query_service.py:43 | the one pattern that can cross parentheses does not reach over the seams either |
| `SqlWrapper.FoundInWindow` | querymind-service/app/services/query_service.py:81-83 | the non-overlapping scan of the wrapped text finds, shifted, what it finds in the statement |
| `SqlWrapper.RefsSeamFree` | querymind-service/app/services/query_service.py:113 | the references of the wrapped text are known exactly when those of the statement are |
| `SqlWrapper.ServiceGateIsForeign` | querymind-service/app/services/query_service.py:20-47 | each of the sixteen patterns is the block comment, or stops at parentheses and needs a character that the frame lacks |
| `SqlWrapper.WrapperKeepsVerdict` | querymind-service/app/services/query_service.py:113 | for every text, page and page size, and every gate of such patterns, the executed text passes exactly when the statement passes all but the SELECT check: pattern by pattern, and reference by reference, nothing appears and nothing is hidden |
| `SqlWrapper.AcceptedStaysAccepted` | querymind-service/app/services/query_service.py:113 | what the service executes for a statement it accepted is accepted on the same schema, first check included |
| `SqlWrapper.PaginatedReads` | querymind-service/app/services/query_service.py:113 | the text sent is the statement in its frame with two numerals, the page size as limit and the rows of the earlier pages as offset; read as numbers, they cut exactly that page out of the rows |
| `Pagination.PagesAreWhole` | querymind-service/app/services/query_service.py:113 | over fixed rows, pages 1 to the page count concatenate to the whole result |
| `Pagination.RowOnOnePage` | querymind-service/app/services/query_service.py:113 | every row is on a page, at its offset there, on no other page, and that page is one of those counted |
| `Pagination.NeverTruncated` | querymind-service/app/schemas/query.py:11-12 | no request within the page size limit is ever reported as truncated |
| `Pagination.PageReport` | querymind-service/app/services/query_service.py:129-149 | the count is that of the rows, page and size are those asked for, and truncated is set exactly when the page may hold 1000 rows and there are as many from its offset on |
| `Pagination.TimesIsProduct` | querymind-service/app/services/query_service.py:113 | the rows before a page, counted page by page, are the product that the executed text gives as its offset |
| `CircuitBreaker.CircuitBreakerService.CanExecute` | querymind-gateway/src/proxy/circuit-breaker.service.ts:29-46 | the object answers and moves as the breaker value does |
| `CircuitBreaker.CircuitBreakerService.RecordSuccess` | querymind-gateway/src/proxy/circuit-breaker.service.ts:48-55 | any success, late ones included, gives back the initial breaker |
| `CircuitBreaker.CircuitBreakerService.RecordFailure` | querymind-gateway/src/proxy/circuit-breaker.service.ts:57-70 | a failure moves the object as it moves the breaker value |
| `CircuitBreaker.ZeroNeverCools` | querymind-gateway/src/proxy/circuit-breaker.service.ts:33-36 | past the reset timeout an open breaker lets a call through unless the failure was recorded at time 0 |
| `ProxyClient.BreakerIsRule` | querymind-gateway/src/proxy/circuit-breaker.service.ts:29-70 | after every interleaved run the answer of `canExecute` is a stateless rule over the log: fewer failures since the last success than the threshold, or a cool-down since the last failure; the breaker is CLOSED exactly in the first case |
| `ProxyClient.StateIsRead` | querymind-gateway/src/proxy/circuit-breaker.service.ts:29-70 | after every run the state is CLOSED, HALF_OPEN or OPEN as the log says: few failures, a call let through since the last outcome, neither |
| `ProxyClient.RuleNeedsThreshold` | querymind-gateway/src/proxy/circuit-breaker.service.ts:21-23 | that rule holds in all runs if and only if the configured threshold is at least 1 |
| `ProxyClient.QueryMindClient.Start` | querymind-gateway/src/proxy/querymind.client.ts:66-70 | asking is one step of the run; a rejected call is logged and leaves nothing in flight |
| `ProxyClient.QueryMindClient.Finish` | querymind-gateway/src/proxy/querymind.client.ts:75-101 | recording the outcome is one step of the run |
| `ProxyClient.OneOutcomeEach` | querymind-gateway/src/proxy/querymind.client.ts:66-101 | every admitted call records exactly one outcome once it is no longer in flight, a rejected one none |
| `ProxyClient.StepSpendsBudget` | querymind-gateway/src/proxy/circuit-breaker.service.ts:29-70 | one step without success lowers the number of calls that may still be admitted by the calls it admits |
| `ProxyClient.DeadBackendLoad` | querymind-gateway/src/proxy/querymind.client.ts:60-102 | from any reachable state, while nothing succeeds and at most c calls are in flight, the calls admitted in time T number at most (threshold - 1 + c) + c * (T / resetTimeout) |
| `RateLimit.RedisKey.Incr` | querymind-gateway/src/common/guards/rate-limit.guard.ts:33 | the count of the live key plus one; an expired key starts over |
| `RateLimit.RedisKey.Expire` | querymind-gateway/src/common/guards/rate-limit.guard.ts:35-37 | the deadline of a live key is set, nothing is created |
| `RateLimit.RedisKey.Ttl` | querymind-gateway/src/common/guards/rate-limit.guard.ts:39 | -2 without a key, -1 without a deadline, otherwise the time left |
| `RateLimit.CanActivate` | querymind-gateway/src/common/guards/rate-limit.guard.ts:26-61 | one request without interleaving: verdict, key and headers |
| `RateLimit.GuardIsRun` | querymind-gateway/src/common/guards/rate-limit.guard.ts:33-60 | the interleaved steps of a request that nobody interrupts do to the key, and decide, what the method does |
| `RateLimit.HeadersAreTrue` | querymind-gateway/src/common/guards/rate-limit.guard.ts:39-45 | in an open window the reset is its end, and of the requests that follow before it the m-th is let through exactly when m is at most the remaining number |
| `RateLimit.OpenerIsToldTheEnd` | querymind-gateway/src/common/guards/rate-limit.guard.ts:33-45 | the request that opens a window is told its end |
| `RateLimit.NoDurationNoLimit` | querymind-gateway/src/common/guards/rate-limit.guard.ts:35-37 | with a duration of zero or less every request is the first |
| `RateLimit.NoDeadlineToTell` | querymind-gateway/src/common/guards/rate-limit.guard.ts:39-45 | without a deadline the reset told lies one second back, without a key two |
| `RateLimit.LifetimeAdmits` | querymind-gateway/src/common/guards/rate-limit.guard.ts:33-60 | in every interleaved run, crashes between the commands included, one lifetime of the counter admits at most `points` requests |
| `RateLimit.IntervalAdmits` | querymind-gateway/src/common/guards/rate-limit.guard.ts:33-60 | in every interleaved run any half-open interval of k durations holds at most (k + 1) * points - 1 admissions, timed by their incr: 2 * points - 1 in one duration |
| `RateLimit.AnswersAdmit` | querymind-gateway/src/common/guards/rate-limit.guard.ts:33-60 | with answers within j durations of their incr, one duration holds at most (j + 2) * points - 1 answers that admit |
| `RateLimitWindows.IntervalBoundIsSharp` | querymind-gateway/src/common/guards/rate-limit.guard.ts:33-60 | for every k and every configuration some run admits exactly (k + 1) * points - 1 requests within k durations, if and only if the duration is at least 2 time units or there is one point |
| `RateLimitWindows.OpensIffExpired` | querymind-gateway/src/common/guards/rate-limit.guard.ts:33-37 | after every run a request opens a new window exactly when there is none, or when the expire of the current one ran at least a duration ago |
| `RateLimitWindows.ReopensIffNotStuck` | querymind-gateway/src/common/guards/rate-limit.guard.ts:33-37 | some continuation opens a new window if and only if the request that opened the current one did not crash between its incr and its expire |
| `RateLimitWindows.CrashRefusesForGood` | querymind-gateway/src/common/guards/rate-limit.guard.ts:33-60 | after such a crash, once the points are used, no later request is ever admitted |
| `ConnectionList.BoundedStaleness` | querymind-service/app/services/connection_service.py:75-109 | in every interleaved run with query-to-write latency at most L, each list handed out is the committed list of that user at some instant no more than 299 + L time units before; an empty list never comes from the cache and was the committed one within L |
| `ConnectionList.DeletionShowsAtCommit` | querymind-service/app/services/connection_service.py:146-148 | at the commit of a deletion, after every run: no continuation hands the user a list with the connection, if and only if no live cached list holds it and no query that found it can still write its result |
| `ConnectionList.GoneIffClear` | querymind-service/app/services/connection_service.py:75-109 | the same for every world in which the connection is marked deleted |
| `ConnectionList.DeletionHolds` | querymind-service/app/db/session.py:60-69 | if no list query of the user that ran before the commit writes its result after the invalidation, no list from the commit on shows the connection |
| `ConnectionList.AdditionHolds` | querymind-service/app/services/connection_service.py:165-175 | from the invalidation after an addition on, while the connection is not deleted, every list of its user shows it, unless a query from before the commit that lacks it writes later |
| `ConnectionList.DeleteCanLeaveStaleList` | querymind-service/app/services/connection_service.py:146-148 | for every latency L a run that fails this and meets the bound: a reader queries between invalidation and commit and writes L later; the last hit lists the deleted connection, exactly 299 + L time units after that list was the committed one |
| `ConnectionList.ConnectionService.GetConnectionsForUser` | querymind-service/app/services/connection_service.py:75-109 | with atomic operations the list is the current one up to last_accessed; a miss, empty lists included, caches what it read |
| `ConnectionList.ConnectionService.AddConnection` | querymind-service/app/services/connection_service.py:150-175 | the row is in the table, the user's cached list is gone, and cache and table still agree |
| `ConnectionList.ConnectionService.SoftDeleteConnection` | querymind-service/app/services/connection_service.py:133-148 | true exactly for a listed connection of that user, which is then marked; otherwise nothing changes; cache and table still agree |
| `ConnectionList.ConnectionService.Connect` | querymind-service/app/api/v1/endpoints/sessions.py:74-76 | last_accessed changes without invalidation, which the agreement of cache and table tolerates |
| `ConnectionList.GetIsRun` | querymind-service/app/services/connection_service.py:75-109 | the interleaved steps of the look-up, with nothing in between, return and cache what the method does |
| `ConnectionList.AddIsRun` | querymind-service/app/services/connection_service.py:150-175 | the same of the addition |
| `ConnectionList.DeleteIsRun` | querymind-service/app/services/connection_service.py:133-148 | the same of the soft delete |
| `ConnectionList.ConnectIsRun` | querymind-service/app/api/v1/endpoints/sessions.py:74-76 | the same of the update of last_accessed |
| `ConnectionList.RowChangeKeepsCoherent` | querymind-service/app/services/connection_service.py:147 | dropping one user's list is enough after any change to one of that user's rows |
| `Redis.GetIsLastPut` | querymind-service/app/db/redis.py:24-37 | a get returns the last value written under the key, and only while that write is younger than the time to live |
| `SchemaCache.SchemaService.GetCachedSchema` | querymind-service/app/services/schema_service.py:136-148 | the look-up loop collects in index order the tables that are there when their get comes, each get at its own time |
| `SchemaCache.SchemaService.CacheSnapshot` | querymind-service/app/services/schema_service.py:126-131 | the write loop leaves one entry a table, each with its own deadline, and then the index |
| `SchemaCache.SchemaService.IntrospectAndCache` | querymind-service/app/services/schema_service.py:97-133 | a readable cache is returned untouched unless a refresh is forced; otherwise the introspected tables are returned and written |
| `SchemaCache.ReadWhileExpiring` | querymind-service/app/services/schema_service.py:110-148 | whatever the store held, a read after a finished write gives exactly the tables whose deadline is ahead at their own get, in write order, as long as the index is there; none of an earlier snapshot |
| `SchemaCache.ReadBack` | querymind-service/app/services/schema_service.py:136-148 | a read at one instant gives a suffix in write order: all of the snapshot before the first deadline, nothing after the last |
| `SchemaCache.WritesAreSnapshot` | querymind-service/app/services/schema_service.py:126-131 | the interleaved write steps, with no other writer in between, leave what the write loop leaves |
| `SchemaCache.ReadIsRun` | querymind-service/app/services/schema_service.py:136-148 | the interleaved gets of a reader, with no writer in between, find what the method finds |
| `SchemaCache.KeyInjective` | querymind-service/app/services/schema_service.py:20-21 | with colon-free session ids a key names one session and one table |
| `SchemaCache.ReturnedTablesAreOwn` | querymind-service/app/services/schema_service.py:97-148 | however writers, readers, expiry and new sessions interleave between the gets of one read: every table got is the last write of its key before that get, younger than the TTL, and was seen by an introspection of that session through its own connection string |
| `SchemaCache.CloseLeavesSchema` | querymind-service/app/api/v1/endpoints/sessions.py:366-371 | the key that close_session deletes is none of those that ask_query reads: the schema of a closed session stays readable |
| `SchemaCache.ConnectedIsIntrospected` | querymind-service/app/api/v1/endpoints/sessions.py:57-83 | what connect_session sets going: its message brings an introspection over its own connection string, whose writes, uninterrupted, leave the tables it saw |
| `SchemaCache.ClosedForGood` | querymind-service/app/api/v1/endpoints/sessions.py:366-367 | once a session is closed, no continuation finds a connection string under its id again |
| `SchemaCache.IntrospectionsAreOwn` | querymind-service/app/api/v1/endpoints/sessions.py:57-83 | every introspection of a session that connect_session made goes through the connection string it was made for, whether that came with the queued message or, within its hour, from the session entry |
| `RagSelection.ScoreIsRelevance` | querymind-service/app/services/schema_service.py:156-164 | a table scores exactly when its name or one of its columns occurs in the question, case aside |
| `RagSelection.MentionsIs` | querymind-service/app/services/schema_service.py:156-160 | a word is mentioned exactly when some part of the question equals it up to case |
| `RagSelection.ScoreIs` | querymind-service/app/services/schema_service.py:155-160 | the score is ten for a mentioned name and two for each position of a mentioned column |
| `RagSelection.SelectionIgnoresCase` | querymind-service/app/services/schema_service.py:153-171 | questions that differ in case only select the same tables |
| `RagSelection.NothingMentioned` | querymind-service/app/services/schema_service.py:166-171 | when the question mentions no table and no column, the first eight tables are selected as they come |
| `RagSelection.OrderIsStable` | querymind-service/app/services/schema_service.py:170 | the order after sorting is by descending score, ties in schema order |
| `RagSelection.SelectionIsUnique` | querymind-service/app/services/schema_service.py:156-171 | candidates, order and cap leave exactly one right selection |
| `RagSelection.SelectionPromises` | querymind-service/app/services/schema_service.py:156-171 | no duplicates, scores do not increase, no candidate left out outscores a selected table, irrelevant tables only when nothing is relevant, and as many as min(8, candidates) |
| `RagSelection.ScoreTable` | querymind-service/app/services/schema_service.py:157-162 | the inner loop adds up the points of the name and of every mentioned column |
| `RagSelection.SelectTables` | querymind-service/app/services/schema_service.py:153-171 | the loops, the fallback, the sort and the cut produce a right selection, and so the only one |
| `Sanitizers.Sanitize` | querymind-gateway/src/common/middleware/sanitization.middleware.ts:7-34 | the recursive pass with its loops and overwritten keys is the specified pass |
| `Sanitizers.JsSpaceIs` | querymind-gateway/src/common/middleware/sanitization.middleware.ts:9 | what trim removes, listed |
| `Sanitizers.ControlIs` | querymind-gateway/src/common/middleware/sanitization.middleware.ts:11-13 | what is stripped: everything below the blank but tab, newline and carriage return, and DEL |
| `Sanitizers.TwoPassesOnString` | querymind-gateway/src/common/middleware/sanitization.middleware.ts:8-15 | two passes over a string are one strip followed by one trim, and a third changes nothing |
| `Sanitizers.OnePassEnough` | querymind-gateway/src/common/middleware/sanitization.middleware.ts:9-14 | a second pass over a string changes nothing if and only if, in the trimmed input, no white space hides behind control characters at either end |
| `Sanitizers.OnePassEnoughNested` | querymind-gateway/src/common/middleware/sanitization.middleware.ts:7-34 | a second pass over a nested value changes nothing if and only if that holds of every string that survives the overwriting of keys |
| `Sanitizers.FieldsHeld` | querymind-gateway/src/common/middleware/sanitization.middleware.ts:22-30 | what a pass over an object holds: the last field of each trimmed key |
| `Sanitizers.OnePassIsNotEnough` | querymind-gateway/src/common/middleware/sanitization.middleware.ts:9-14 | a string on which one pass is not enough |
| `Sanitizers.FirstPass` | querymind-gateway/src/common/middleware/sanitization.middleware.ts:21-31 | one pass leaves no control characters, and keys trimmed and distinct on every level |
| `Sanitizers.StabilisesAfterTwo` | querymind-gateway/src/common/middleware/sanitization.middleware.ts:7-34 | on every nested value a third pass changes nothing |
| `Sanitizers.ServiceKeepsRest` | querymind-service/app/middleware/sanitization.py:20-24 | of a string the service keeps every character that is not stripped, in its place |
| `Sanitizers.ScalarsStay` | querymind-gateway/src/common/middleware/sanitization.middleware.ts:33 | values that are neither strings nor containers go through both sides as they are |
| `Sanitizers.ServiceItemAt` | querymind-service/app/middleware/sanitization.py:30-31 | every item of an array is sanitized in its place |
| `Sanitizers.ServiceFieldAt` | querymind-service/app/middleware/sanitization.py:28-29 | every field of an object keeps its key and place and has its value sanitized |
| `Sanitizers.ServiceIsIdempotent` | querymind-service/app/middleware/sanitization.py:17-32 | the service sanitizer is idempotent and changes nothing that went through the gateway once |
| `ResponseParser.UnfenceSplit` | querymind-service/app/services/ai_service.py:151 | removing fences works piece by piece across any boundary with a character that fences do not contain |
| `ResponseParser.ExtractorRoundTrip` | querymind-service/app/services/ai_service.py:149-166 | a braced text without a fence, after any prefix without an opening and before any suffix without a closing brace, is given to the JSON parser as it is; if that fails the cleaned text is returned |
| `ResponseParser.FencesInsideAreLost` | querymind-service/app/services/ai_service.py:151 | with fences inside, the parser is given the text without them |
| `ResponseParser.FencesGo` | querymind-service/app/services/ai_service.py:151 | an opening fence, with its json tag if there is one, and a closing fence are removed and nothing else |
| `ResponseParser.BlockIs` | querymind-service/app/services/ai_service.py:153 | the block reaches from the first opening to the last closing brace, and is missing exactly when no closing brace follows an opening one |
| `ResponseParser.PlainAnswerIsRaw` | querymind-service/app/services/ai_service.py:151-162 | an answer without an object, fenced or not, comes back as its text without outer blanks |
| `ResponseParser.StrayTickGoes` | querymind-service/app/services/ai_service.py:151 | so does one with a single backtick left at its end |
| `AskQuery.KeyInjective` | querymind-service/app/services/ai_service.py:39-41 | with colon-free session ids the hashed text names one session and one question |
| `AskQuery.QueryService.GenerateSql` | querymind-service/app/services/ai_service.py:209-251 | a live entry is returned with cache_hit set and nothing stored; otherwise the first provider that answers is stored and returned, and failure stores nothing |
| `AskQuery.QueryService.Ask` | querymind-service/app/api/v1/endpoints/query.py:60-92 | the executed text is the wrapped generated statement exactly when that statement is not empty and passes; whatever is executed passes itself |
| `AskQuery.StatementIs` | querymind-service/app/api/v1/endpoints/query.py:67-68 | the statement is the generated text without outer blanks and then without the semicolons at its end |
| `AskQuery.AnswerIsRepeated` | querymind-service/app/services/ai_service.py:219-251 | a miss answered by g, Gemini first, returns and stores g: for 86400 s the same session and question get g back with cache_hit set and nothing is stored, whatever the providers say; after that they miss |
| `AskQuery.FailureIsForgotten` | querymind-service/app/services/ai_service.py:238-251 | without an answer there is no result and the cache stays |
| `AskQuery.OthersUntouched` | querymind-service/app/services/ai_service.py:221-251 | calls for another session or question are answered as if this one had not been made |
| `AskQuery.GenerateSqlIsRun` | querymind-service/app/services/ai_service.py:219-251 | the interleaved steps of a call that nobody interrupts leave the cache and give the result that the method does |
| `AskQuery.ExecuteIsAsk` | querymind-service/app/api/v1/endpoints/query.py:67-92 | the step that executes sends what ask_query sends for the same result, and nothing otherwise |
| `AskQuery.HitIffFresh` | querymind-service/app/services/ai_service.py:221-224 | after every run the next look-up hits exactly when the last store for its session and question is younger than the TTL, and finds what that store wrote |
| `AskQuery.HitsAreAnswers` | querymind-service/app/services/ai_service.py:219-248 | in every interleaved run a hit repeats the last logged store for its session and question before it, younger than the TTL, with only cache_hit changed, and that store wrote a provider's result |
| `AskQuery.OnlyAnswersAreStored` | querymind-service/app/services/ai_service.py:226-251 | everything ever stored is a provider's result for the session and question of its key; failed generations are never stored |
| `AskQuery.ExecutedPassedGate` | querymind-service/app/api/v1/endpoints/query.py:47-92 | in every interleaved run each executed statement, cached or fresh, passed on the schema its own request had read before generation, before and after wrapping |
| `AskSession.ExecutedTablesAreOwn` | querymind-service/app/api/v1/endpoints/query.py:44-92 | in every run of requests, introspections, refreshes, expiry and closed sessions together: a text is executed on the connection string its session was made for, and, unless a table is called from or join, each of its references names, up to case, a table that an introspection for that session over that very connection string saw |
| `History.HistoryService.PublishRecord` | querymind-service/app/workers/rabbitmq_client.py:39-96 | true exactly for a call that did not raise, which queues the record with its expiry and writes no row; otherwise the row is written unless that commit fails too, and a message the broker took stays queued |
| `History.HistoryService.OnMessage` | querymind-service/rabbitmq_consumer.py:19-36 | the message ends acknowledged either way; a row with the fields of the fallback is added unless persisting failed; other records are untouched |
| `History.RowsAreExplained` | querymind-service/app/workers/tasks.py:53-70 | after every run the rows of a record are the fallback's commit, the consumer's commit and one for each crash between commit and acknowledgement, all with the same fields |
| `History.MissingFields` | querymind-service/app/workers/tasks.py:53-66 | a field that a record lacks is written as its default, the same on both paths |
| `History.AlwaysAccounted` | querymind-service/app/workers/rabbitmq_client.py:39-96 | a published record is under way, has a row, has expired or was dropped on a swallowed error |
| `History.ExactlyOneRow` | querymind-service/rabbitmq_consumer.py:19-36 | a settled record without expiry, persist failure, error after acceptance or crash before the acknowledgement has exactly one row, and never more before it settles |
| `History.RecordReachesRow` | querymind-service/app/api/v1/endpoints/query.py:114-127 | what ask_query puts into a record reaches every column of the row on both paths, under the same names |
| `History.RowsAreInTime` | querymind-service/app/workers/rabbitmq_client.py:53-59 | every row the consumer writes belongs to a message delivered less than the expiration after its publication |
| `History.ExpiredIsLate` | querymind-service/app/workers/rabbitmq_client.py:57 | a message is given up only when the expiration has passed |
| `DatabaseUrl.BuildDatabaseUrl` | querymind-service/app/db/session.py:13-34 | the prefix loop and the reassigned replacements compute the chain |
| `DatabaseUrl.SchemesAlike` | querymind-service/app/db/session.py:17-20 | whatever follows, the schemes postgresql, postgres and postgresql+asyncpg give the same URL, with the last of them |
| `DatabaseUrl.AsyncIffSchemed` | querymind-service/app/db/session.py:17-20 | in URLs where the replaced texts stand in parameters only, the result has the asyncpg scheme exactly when the URL had one of the three; any other base is kept |
| `DatabaseUrl.SchemeFromDropped` | querymind-service/app/db/session.py:29 | in other texts dropping a parameter can put that scheme together |
| `StrReplace.Cut` | querymind-service/app/db/session.py:23-32 | replacing in a text is replacing in its pieces, when the cut divides no occurrence |
| `DatabaseUrl.ModesAreRenamed` | querymind-service/app/db/session.py:23-26 | in URLs where the replaced texts stand at the front of parameters only, the four sslmode replacements rename the mode parameters, each once, and change nothing else |
| `DatabaseUrl.BindingIsDropped` | querymind-service/app/db/session.py:29-32 | in such URLs the four channel_binding replacements drop both parameters from every later place, and `require` from the first |
| `DatabaseUrl.BindingLeft` | querymind-service/app/db/session.py:29-32 | of the edited parameter list: a channel_binding parameter is left exactly when one had another value than `require` and `disable` |
| `QueryParameters.PrintOfParts` | querymind-service/app/db/session.py:13-34 | every text is a base with a list of parameters |
| `QueryParameters.PartsOfPrint` | querymind-service/app/db/session.py:13-34 | and of only one: base and parameters are read back |
| `DatabaseUrl.RewriteIs` | querymind-service/app/db/session.py:13-34 | what the chain makes of every such URL, in terms of its parameter list |
| `DatabaseUrl.RewriteIsParameterMap` | querymind-service/app/db/session.py:13-34 | on such URLs the chain is the edit of the parameter list, whatever place a dropped parameter held, if and only if the first parameter is not channel_binding=disable |
| `DatabaseUrl.FirstDisableStays` | querymind-service/app/db/session.py:30-32 | the failing case occurs: postgresql://h/db?channel_binding=disable and its like keep the parameter |

## Left out

- Characters beyond ASCII in the gate, the trims of the service and the RAG matching: Python's Unicode classes and folds are not modelled. The gateway's trim uses the ECMAScript white space set.
- Execution of SQL: the rows of an inner statement are a fixed sequence. A database without a fixed row order can show a row twice or not at all.
- Digests, encryption, tokens and passwords: the hashed cache key stands for its digest, session entries and messages carry the decrypted connection string.
- JSON encoding and decoding of cached and queued values, which is taken to be lossless; json.loads itself is a parameter of the extractor.
- The answers of the language models and of introspection: they are inputs.
- The joined text of `reason`, and the order in which unknown tables are reported (the source walks a set).
- RateLimit.IntervalAdmits: an admission is timed at its incr, in AnswersAdmit at its answer; a key is taken to be gone at its deadline.
- RateLimit.AnswersAdmit: that the bound is reached is shown for admissions timed at their incr only.
- RateLimit.CanActivate: the header times share one clock; the source reads the reset time from the web server's clock.
- A circuit breaker whose clock reads 0 or less: a recorded failure time of 0 counts as none in the code, so runs have positive times.
- Several gateway processes: each has its own breaker.
- ConnectionList.BoundedStaleness: lists are maps from connection id to row, because the SELECT has no order.
- Encryption and parsing of connection strings in `add_connection`, and its table count, which can be another connection's.
- SchemaCache.ReturnedTablesAreOwn: no table is called `__index__`; its key would be that of the index. connect_session draws a session id that nobody has used, user ids of connections/add included.
- SchemaCache.SchemaService.GetCachedSchema: keys may expire between its gets; a writer in between is in the runs with readers, not in the method.
- SchemaCache.SchemaService.IntrospectAndCache: no other writer between its gets and writes; interleaved writers are in the runs.
- The `schema:{session_id}` key of the session endpoints, a different shape under a different key; that its deletion touches no other key is shown.
- AskSession.ExecutedTablesAreOwn: the introspection may be older than the latest change of the user's database; nothing is promised of tables dropped since.
- Integer-like property names, which JavaScript lists first, and `__proto__`, which an assignment does not add: objects keep insertion order here.
- The guards of the middlewares around the sanitizers, and the query string that the service rebuilds.
- A Redis error inside `generate_sql`, which turns the request into an empty answer.
- The question and session checks of the request schema, except that session ids hold no colon.
- History.AlwaysAccounted: a publisher that dies between a failed publish and its fallback leaves the record under way for good.
- A consumer that is cancelled while it handles a message: the cancellation passes `except Exception`, and the context manager around the handler probably rejects the message without requeueing it, so that the record is lost. The crashes modelled put the message back.
- A database commit that raises after it took effect.
- Messages of other queues and malformed messages; the fallback ignores the queue name, so only history records are modelled.
- Celery and its retries: the consumer does not go through it.
- DatabaseUrl.RewriteIsParameterMap: none of the replaced texts may stand anywhere but at the front of a parameter, and a parameter that starts with a replaced channel_binding text is that text; in other URLs the replacements also edit other text. A mode value that starts with a listed word counts as listed, as in the code.
- DatabaseUrl.RewriteIs: for the same URLs.
- DatabaseUrl.AsyncIffSchemed: for the same URLs; that a URL with a scheme comes out with that of asyncpg is proved of every text.
- DatabaseUrl.ModesAreRenamed: for the same URLs.
- DatabaseUrl.BindingIsDropped: for the same URLs.
- The formatting of the RAG context; its selection is modelled.
- Wiring, validation pipes, logging, health checks, the user interface, migrations, authentication and user services: no state beyond single branches.
