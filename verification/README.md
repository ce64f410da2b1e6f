# Verified model of the gotemplate service

A Dafny model of the parts of the service where ordering, expiry and shared state matter: the idempotency
middleware and its two-layer cache, token issue, validation and revocation, password-reset tokens, and the accounts
behind them. Everything below is proved for all inputs, all runs or all reachable states of the model.

`dafny verify dfyconfig.toml` checks the whole project.

## How the model is laid out

**The in-memory cache.** `Lru.dfy` is the cache as a recency sequence. `LinkedList.dfy` and `InMemoryCache.dfy` are
the object: nodes with `prev` and `next`, a map of pointers into them, changed in place; each method is proved to do
exactly the sequence operation. `LruInclusion.dfy` and `LruLifetime.dfy` prove what the cache guarantees over traces:
the stack property between two capacities, and how long an entry survives.

**The idempotency protocol.** `Protocol.dfy` is a state machine: any number of requests on any number of server
instances, one LRU per instance, one shared table, one lock table named by an arbitrary hash of the key (collisions
allowed), one connection pool per instance, and a monotone clock. Lookup, handler, LRU write, insert, commit and both
cleanups are separate steps that interleave freely. `Safety.dfy` proves the invariant, `Execution.dfy` execution and
answers, `Liveness.dfy` deadlock and termination, `Transparency.dfy` when an LRU may stand in for the table,
`Staleness.dfy` how old a replay can be, `Provenance.dfy` where it can come from, `Delivery.dfy` what the gap
between a replay's commit and its sending allows, and `Answering.dfy` that every request is answered, once, whatever
the requests beside it do.
`RequestCache.dfy` and `Middleware.dfy` are the objects; `Sequential.dfy` shows that the protocol's steps of a request
that runs alone add up to what the object does. `Recorder.dfy` is the recording writer and the replay.

**Tokens.** `Jwt.dfy` is issue and validation, `Blacklist.dfy` the revocation set as an object and as a history,
`Revocation.dfy` the same set with every load, clock read and delete a separate step of concurrent processes, and
`AuthCheck.dfy` the middleware's two checks after a logout. `Sessions.dfy` puts them together: issue, authentication,
revocation from the request's context, and the blacklist's steps, and decides which requests pass.

**Accounts.** `Users.dfy` is the users table, `Credentials.dfy` the effect of every account operation on the database,
`AuthService.dfy` the operations step by step through the repositories, and `Ledger.dfy` the reference they are
compared with: who owns which email, and the name and current password behind each, without rows, ids, hashes or
deleted rows. `Text.dfy` writes out what normalizing an email and measuring a password mean, and `Logins.dfy` shows that
an account is the same under every way to write its email.
`ResetTokens.dfy` takes a confirmation apart into its steps, next to cleanup, and `PasswordWrites.dfy` a password
change, next to confirmations; `ConfirmSteps.dfy`, `PasswordWrites.ChangeAlone` and `PasswordWrites.ConfirmAlone` show
that the steps of a lone operation are the whole one.

## What the proofs found

Each of these is an expectation that the code meets only under a condition. The condition is proved to be exact: a
concrete run shows the failure, and the property is proved whenever the condition holds.

- An LRU hit is not checked for age. With two instances, after the first row of a key expired and was purged and the
  other instance ran the key again, the first instance still answers with the old response although the table has the
  new row. The LRUs agree with the table in all runs exactly when there is one instance
  (`Transparency.TransparentExactly`); with several they do as long as a key's first row is its only one
  (`Execution.HitIsTableAnswer`).
- A request holds one pooled connection for its lock and needs a second one. The pool cannot deadlock exactly when it
  is unlimited or an instance admits fewer idempotent requests than it has connections
  (`Liveness.DeadlockFreeExactly`). Nothing in the code bounds the admitted requests.
- A lookup that found an expired entry deletes the key, not that entry. If a longer revocation of the same id is added
  in between, it is lost. Lookups are right in every interleaving exactly when all revocations of an id carry the same
  expiry (`Revocation.FaithfulExactly`). In the service they do: what a request revokes is the validated token's own id
  and `exp` (`Sessions.RevocationsLast`).
- A reset token can change the password twice when two confirmations overlap, or when `MarkUsed` failed. It changes it
  at most once in every run exactly when confirmations of a token never overlap and `MarkUsed` never fails
  (`ResetTokens.OnceExactly`); in any case no more often than it was read before the first `MarkUsed`.
- A row found by the table lookup is young, but the entry it becomes need not be: between the query and the write to the
  LRU time passes. The oldest replay is ttl + interval + max(0, delay - 1) clock ticks old, no more and no less
  (`Staleness.AgeExactly`), so ttl + interval is a bound exactly when a value in hand is written within one tick.
- A password change reads, compares and writes without a transaction. Two that overlap can both succeed on the same old
  password, and the later one then replaces a password nobody showed. Every change replaces the password it was shown, in
  all runs, exactly when changes and confirmations of one account never overlap (`PasswordWrites.AlwaysShownExactly`).
- A replay commits, which frees its lock, before it sends. One that stalls in between can send its response while the
  key's next row lives, even on a single instance. From any state with a live row the answers stay the row's in all runs
  exactly when no other replay is on its way (`Execution.AnswersAreTheRows`), and they do so in every run exactly when
  one request is admitted at a time (`Delivery.AlwaysTheRowsExactly`).
- A replay sends `application/json` where the handler named no content type, and none for a 204. It is the original
  response in status, body and content type exactly when the handler did likewise (`Recorder.ReplayIsOriginal`). Other
  headers are not replayed.

One note on the documentation: `docs/AUTH_PRODUCTION.md` speaks of 24-hour tokens without refresh and revocation. The
code has 15-minute access tokens, 7-day refresh tokens and a blacklist, and the model follows the code.

## Model

| member | source | states |
|---|---|---|
| LinkedList.List.PushFront | internal/layers/middlewares/idempotency/cache.go:82 | the pointers then spell the old sequence with the new node in front, no node twice |
| LinkedList.List.Remove | internal/layers/middlewares/idempotency/cache.go:101 | unlinking a node leaves the others in order, with mutual pointers |
| LinkedList.List.MoveToFront | internal/layers/middlewares/idempotency/cache.go:55 | the node comes first, the order of the others is kept |
| InMemoryCache.InMemoryCache.Get | internal/layers/middlewares/idempotency/cache.go:46-61 | the object's lookup is the recency sequence's, and a hit becomes most recent |
| InMemoryCache.InMemoryCache.Set | internal/layers/middlewares/idempotency/cache.go:63-84 | the object's write is the sequence's: overwrite and touch, or evict the last when full, then put in front |
| InMemoryCache.InMemoryCache.MoveUp | internal/layers/middlewares/idempotency/cache.go:55 | the element becomes the most recent entry, with its value, in list and sequence alike |
| InMemoryCache.InMemoryCache.Push | internal/layers/middlewares/idempotency/cache.go:81-83 | a new element is made for the key and comes in front of everything cached |
| InMemoryCache.InMemoryCache.Update | internal/layers/middlewares/idempotency/cache.go:68-74 | a write to a cached key moves it to the front with the new value and evicts nothing |
| InMemoryCache.InMemoryCache.Insert | internal/layers/middlewares/idempotency/cache.go:81-83 | the new element is linked in front and indexed; everything else stays |
| InMemoryCache.InMemoryCache.Unlink | internal/layers/middlewares/idempotency/cache.go:111-114 | map and list lose the same key and no other |
| InMemoryCache.InMemoryCache.EvictLRU | internal/layers/middlewares/idempotency/cache.go:106-115 | exactly the last entry of the sequence goes; an empty cache stays |
| InMemoryCache.InMemoryCache.DeleteOld | internal/layers/middlewares/idempotency/cache.go:86-103 | the two loops together keep exactly the entries not created before the cutoff, in order |
| InMemoryCache.InMemoryCache.UnlinkAll | internal/layers/middlewares/idempotency/cache.go:97-102 | the second loop drops exactly the keys of the collected elements |
| InMemoryCache.InMemoryCache.BackwardStep | internal/layers/middlewares/idempotency/cache.go:91-96 | walking `Prev` from the back reads the sequence's entries from its end |
| InMemoryCache.CollectFacts | internal/layers/middlewares/idempotency/cache.go:90-96 | the first loop collects exactly the outdated entries' elements, each once |
| InMemoryCache.ShapeMove | internal/layers/middlewares/idempotency/cache.go:67-74 | after a move, map keys are the list's keys, each pointer leads to its key's node, and all other lookups are unchanged |
| Lru.RunKeeps | internal/layers/middlewares/idempotency/cache.go:31-115 | over every trace the keys stay distinct and at most max(1, maxSize) of them |
| Lru.SetLookup | internal/layers/middlewares/idempotency/cache.go:63-84 | after a write the key has that value and any other key its old value or none |
| Lru.DeleteOldLookup | internal/layers/middlewares/idempotency/cache.go:86-103 | a key is lost to DeleteOld exactly when it was created before the cutoff |
| LruInclusion.ApplyKeepsInclusion | internal/layers/middlewares/idempotency/cache.go:46-115 | one operation keeps the small cache a subsequence of the large one, whose surplus entries stay within its surplus room |
| LruInclusion.Inclusion | internal/layers/middlewares/idempotency/cache.go:46-115 | on every trace a smaller cache holds a subsequence of a larger one and its hits are the larger one's hits |
| LruLifetime.EvictionSpares | internal/layers/middlewares/idempotency/cache.go:76-79 | the evicted entry is not one behind which fewer than a cacheful of other keys were used |
| LruLifetime.Survival | internal/layers/middlewares/idempotency/cache.go:46-103 | once set or hit, a key stays with its latest value until capacity-many distinct other keys were set or hit or a cutoff passed it |
| Staleness.AgeBounded | internal/layers/middlewares/idempotency/idempotency.go:228-281 | in every interleaving in which an instance's cleanup comes at least every `interval` and its values in hand are written within `delay`, no response it takes for a replay, from memory or table, is older than ttl + interval + max(0, delay - 1) ticks |
| Staleness.AgeExactly | internal/layers/middlewares/idempotency/idempotency.go:228-281 | that age is reached: it is the least bound, for every ttl, interval and delay |
| Staleness.PromptExactly | internal/layers/middlewares/idempotency/idempotency.go:272-281 | ttl + interval bounds every replay's age if and only if a value in hand is written within one clock tick |
| Staleness.StalledReload | internal/layers/middlewares/idempotency/idempotency.go:234-256 | a reload that found its row in its last tick and wrote it `delay` later leaves an entry older than ttl in memory |
| Staleness.WatchedIsReachable | internal/core/http/http.go:102-117 | the runs watched are runs of the protocol |
| Safety.NextKeeps | internal/layers/middlewares/idempotency/idempotency.go:90-185 | every single step of any request, either cleanup and the clock keep the protocol invariant |
| Safety.ReachableInv | internal/layers/middlewares/idempotency/idempotency.go:90-185 | the invariant holds in every reachable state |
| Safety.AcquiredKeeps | internal/layers/middlewares/idempotency/idempotency.go:102-106 | taking a free advisory lock makes the request its only owner |
| Safety.ReleasedKeeps | internal/layers/middlewares/idempotency/idempotency.go:96-100 | commit or rollback frees exactly the request's own lock |
| Safety.InsertKeeps | internal/layers/repositories/request_cache/request_cache.go:62-89 | a fresh row agrees with every LRU that may hold the key and with the first run |
| Safety.ConflictKeeps | internal/layers/repositories/request_cache/request_cache.go:66 | an insert that meets an expired, unpurged row changes nothing the invariant needs |
| Execution.AtMostOnce | internal/layers/middlewares/idempotency/idempotency.go:90-185 | until a key's first row expires, at most one successful run, and every answer ever sent for the key is that run's response; any lock hash, any interleaving |
| Execution.MutualExclusion | internal/layers/middlewares/idempotency/idempotency.go:102-106 | two requests in their locked section never share a lock id, so never a key |
| Execution.WaitsExactly | internal/layers/middlewares/idempotency/idempotency.go:214-226 | in every reachable state a request waits for its lock if and only if a request whose Idempotency-Key header has the same hash holds it, whatever its user, path and verb |
| Execution.NoRunWhileLive | internal/layers/middlewares/idempotency/idempotency.go:108-124 | while a row is live no request for its key runs, is about to run or is storing |
| Execution.NoRunBeforeExpiry | internal/layers/repositories/request_cache/request_cache.go:36-89 | in every generation of rows, also after purges: until the live row expires the handler is not run for its key, and the row stays what it was |
| Execution.AnswersAreTheRows | internal/layers/middlewares/idempotency/idempotency.go:109-113 | on one instance, in every generation: in all runs from a state with a live row every answer sent until it expires is the row's response, if and only if no replay of another response is then committed and not yet sent |
| Delivery.SentUnderNewRow | internal/layers/middlewares/idempotency/idempotency.go:111-112 | a replay that stalls between its commit and its sending is still to be sent while the key's next row lives, on a single instance |
| Delivery.AlwaysTheRowsExactly | internal/layers/middlewares/idempotency/idempotency.go:109-113 | on one instance every answer sent while a row lives is the row's, in all runs, if and only if one request is admitted at a time |
| Safety.SendKeeps | internal/layers/middlewares/idempotency/idempotency.go:112 | the sending step keeps the protocol invariant, without the lock |
| Execution.HitIsTableAnswer | internal/layers/middlewares/idempotency/idempotency.go:228-257 | while a key's row is live an LRU hit of any size is the table's own answer: on one instance in every generation, on several while the first row is the only one |
| Execution.EarlyEntryIsTheHolders | internal/layers/middlewares/idempotency/idempotency.go:157-183 | before any row of a key exists, an LRU entry for it means its lock holder is between LRU write and insert, with that response |
| Execution.ExecutionAccounting | internal/layers/middlewares/idempotency/idempotency.go:124-128 | runs of a key equal its failed runs plus zero or one, exactly one once its row is live |
| Execution.FailedRunLeavesNothing | internal/layers/middlewares/idempotency/idempotency.go:124-128 | a failed run frees the lock and leaves no live row and no entry in its own instance's LRU; before any row was stored, none in any LRU |
| Provenance.AnswersAreRuns | internal/layers/middlewares/idempotency/idempotency.go:90-185 | with any number of instances and in every generation, every answer ever sent for a key is the response of a successful run for that key |
| Provenance.StoredAreRuns | internal/layers/middlewares/idempotency/idempotency.go:150-178 | so is whatever any LRU or row holds for the key |
| Execution.LiveRowIsYoung | internal/layers/repositories/request_cache/request_cache.go:36-60 | what a lookup reads from the table is younger than ttl in every reachable state |
| Liveness.PoolsRespected | pkg/pgxtools/connect.go:85 | no instance uses more connections than its pool has, in any reachable state |
| Liveness.Progress | internal/layers/middlewares/idempotency/idempotency.go:90-185 | with fewer admitted requests than connections some request can always move |
| Liveness.FullPoolDeadlocks | internal/layers/middlewares/idempotency/idempotency.go:91-113 | with as many admitted requests as connections, a reachable state has unfinished requests and none that can move |
| Liveness.DeadlockFreeExactly | internal/layers/middlewares/idempotency/idempotency.go:91-113 | deadlock freedom if and only if the pool is unlimited or exceeds the admission bound |
| Liveness.RankFalls | internal/layers/middlewares/idempotency/idempotency.go:90-185 | every step of a request brings it nearer to its end |
| Answering.EachAnsweredOnce | internal/layers/middlewares/idempotency/idempotency.go:109-128 | in every reachable state, for every key, the answers sent and the failed runs together are as many as the requests past their handler or past the sending of their replay; and first hand, every successful run was answered with once, in order |
| Answering.AllDoneIsAnswered | internal/layers/middlewares/idempotency/idempotency.go:109-128 | once all requests are done each was answered once or its handler failed, and the answers are the successful runs plus one for every request that did not run |
| Answering.EveryRunCompletes | internal/layers/middlewares/idempotency/idempotency.go:90-185 | without arrivals a run has boundedly many request steps, and when none is left all requests are done, all locks and connections are free, and each request was answered once or its handler failed |
| Answering.StepsAreLocal | internal/layers/middlewares/idempotency/idempotency.go:90-185 | whatever other requests are doing, a request's step has the effect on LRUs, table, histories and lock ids that it has when it is the only one |
| Answering.RunsAreLocal | internal/layers/middlewares/idempotency/idempotency.go:124-128 | so has the end of its handler |
| Transparency.OneInstanceIsTransparent | internal/layers/middlewares/idempotency/idempotency.go:228-257 | on one instance every LRU entry of a key with a live row has that row's response |
| Transparency.SecondInstanceIsStale | internal/layers/middlewares/idempotency/idempotency.go:229-232 | with two instances a reachable state has a live row and another instance's LRU answering with an older response |
| Transparency.TransparentExactly | internal/layers/middlewares/idempotency/idempotency.go:228-257 | the LRUs agree with the table in all runs if and only if there is at most one instance |
| Sequential.AlonePath | internal/layers/middlewares/idempotency/idempotency.go:90-185 | the protocol's steps of a request that runs alone add up to the request as one operation, in both layers, answer and lock |
| RequestCache.EncodeDecode | internal/layers/repositories/request_cache/request_cache.go:69-77 | a stored response is read back as it was if and only if its content type is not empty, else with `application/json`; exactly an empty body goes through NULL |
| RequestCache.Repository.Get | internal/layers/repositories/request_cache/request_cache.go:36-60 | finds the row exactly until it expires |
| RequestCache.Repository.Create | internal/layers/repositories/request_cache/request_cache.go:62-89 | the first write wins, an expired row included, and stores exactly the response with its content type or the default one; other rows stay |
| RequestCache.Repository.DeleteExpired | internal/layers/repositories/request_cache/request_cache.go:91-100 | deletes exactly the rows that expired before now |
| Middleware.Middleware.GetCachedByKey | internal/layers/middlewares/idempotency/idempotency.go:228-257 | memory first, without an age check; else a live row, which is put into memory with the row's creation time |
| Middleware.Middleware.Serve | internal/layers/middlewares/idempotency/idempotency.go:108-184 | the object's request is the one operation the protocol steps add up to |
| Middleware.Middleware.CleanupOld | internal/layers/middlewares/idempotency/idempotency.go:272-281 | drops exactly the entries older than ttl and the rows already expired |
| Recorder.ResponseWriter.WriteHeader | internal/layers/middlewares/idempotency/idempotency.go:205-212 | recorder and connection stay in step with the handler's writes; only the first header goes out |
| Recorder.ResponseWriter.Write | internal/layers/middlewares/idempotency/idempotency.go:197-203 | bytes go to the record and out, after a header with 200 if none was written |
| Recorder.RunHandler | internal/layers/middlewares/idempotency/idempotency.go:116-128 | a client receives what it would without the recorder, also from a handler that writes nothing; at most one header write is forwarded, and the record has status and body |
| Recorder.ReplayThroughTable | internal/layers/repositories/request_cache/request_cache.go:69-77 | a recorded response is the same from memory and through the table |
| Recorder.ReplayConsistsOf | internal/layers/middlewares/idempotency/idempotency.go:259-270 | status, content type and body of a replay: the framework's status or else the recorder's, nothing with a 204, JSON where the handler named no type, the handler's bytes wherever a status has a body |
| Recorder.RoundTrip | internal/layers/middlewares/idempotency/idempotency.go:130-155 | exactly when a replay has the original status and content type, whatever status the framework reports; with the status the body always agrees |
| Recorder.ReplayIsOriginal | internal/layers/middlewares/idempotency/idempotency.go:130-155 | when the framework reports the status of the first write, a replay is the original response in status, body and content type if and only if the handler named a type exactly where a replay sends one |
| Blacklist.HoldsLastAdd | pkg/cache/blacklist.go:33-63 | after any history the set holds the last Add's expiry of an id, or that expiry has passed |
| Blacklist.Blacklist.Lookup | pkg/cache/blacklist.go:38-52 | says revoked up to and including the expiry, and deletes what it finds expired |
| Blacklist.Blacklist.Cleanup | pkg/cache/blacklist.go:55-63 | keeps exactly the unexpired entries, whatever order it visits them in |
| Blacklist.HasIsHistory | pkg/cache/blacklist.go:33-63 | under a monotone clock a lookup says revoked if and only if the last Add has not expired |
| Blacklist.PurgesAreInvisible | pkg/cache/blacklist.go:38-63 | leaving all lookups and cleanups out of a history changes no later answer |
| Revocation.OneExpiryIsFaithful | pkg/cache/blacklist.go:33-63 | with one expiry per id, every lookup that starts after an Add completed is right at its own clock reading, in every interleaving, and any lookup says revoked only of an id that was added and up to its expiry |
| Revocation.OnlyAddedIsRevoked | pkg/cache/blacklist.go:38-52 | in every run, with any expiries, a lookup says revoked only of an id that was added |
| Revocation.LookupsAnswerTheRun | pkg/cache/blacklist.go:33-63 | told by the labels of the run alone: with an Add before its start a lookup says revoked exactly up to the expiry, and without an Add before its end never |
| Revocation.LookupAlone | pkg/cache/blacklist.go:38-52 | the steps of a lone lookup are the blacklist's lookup, with the same answer and the same map |
| Revocation.CleanupAlone | pkg/cache/blacklist.go:55-63 | the steps of a lone cleanup leave what the blacklist's cleanup leaves |
| Revocation.StaleDelete | pkg/cache/blacklist.go:47-50 | with two expiries a run exists in which a lookup denies a revocation still in force |
| Revocation.FaithfulExactly | pkg/cache/blacklist.go:33-63 | lookups are right about every Add before them, and say revoked only of what was added, in every run if and only if all Adds of the id carry one expiry |
| Jwt.ValidatesExactly | internal/core/jwt/jwt.go:108-140 | of everything a client can send, exactly claims signed with the service's key validate, read within their window at both clock readings, and to themselves |
| Jwt.RefreshesExactly | internal/core/jwt/jwt.go:142-151 | of those exactly the ones of type `refresh` pass the refresh check |
| Jwt.WindowRoundTrip | internal/core/jwt/jwt.go:80-140 | from issue on a token validates exactly up to its truncated expiry, to the claims put in, for a lifetime in (ttl - 1s, ttl] |
| Jwt.OnlyRefreshRefreshes | internal/core/jwt/jwt.go:142-151 | of a pair exactly the refresh token passes the refresh check, while it is valid |
| Jwt.ValidAtIssue | internal/core/jwt/jwt.go:108-140 | a token of at least a second's lifetime is valid at its issue |
| Jwt.ConfiguredLifetimes | internal/core/jwt/jwt.go:42-66 | tokens are good for the configured time where it is positive, else access tokens for 15 minutes and refresh tokens for 7 days |
| AuthCheck.LogoutCoverage | internal/layers/middlewares/auth/auth.go:30-38 | after a completed logout a request passes if and only if validation read the clock up to exp and the blacklist after it |
| Sessions.RevokedTokenPassesExactly | internal/layers/middlewares/auth/auth.go:30-43 | in every run of issue, authentication, logout and blacklist steps: after a completed revocation of an issued token a request passes if and only if validation read the clock up to exp and the blacklist after it |
| Sessions.UnrevokedTokenPassesExactly | internal/layers/middlewares/auth/auth.go:30-43 | as long as no request has revoked an issued token, a request with it passes if and only if validation read the clock up to exp |
| Sessions.RequestsDecided | internal/layers/middlewares/auth/auth.go:30-43 | both told by the labels of the run alone: revoked before its lookup starts, a token passes only across its expiry; not revoked by its end, exactly up to its expiry |
| Sessions.AuthenticatedCanRevoke | internal/layers/services/auth/auth.go:249-303 | issue, a request within the lifetime and its logout revoke the token in every run |
| Sessions.RevocationsLast | internal/layers/services/auth/auth.go:249-303 | what requests revoke is an id with the expiry it was issued with, so no interleaving of lookups and cleanups loses a revocation |
| Users.InsertKeeps | internal/layers/repositories/user/user.go:52-90 | emails and uuids stay unique over all rows, emails lower-case, and no existing row changes |
| Users.ChangeKeeps | internal/layers/repositories/user/user.go:184-207 | so does an update, which cannot touch a deleted row or take an email any row has |
| Users.EmailsUnique | migrations/000001_init.up.sql:3-4 | two rows with the same email or uuid are one row, deleted rows included |
| Users.SoftDeleteKeeps | internal/layers/repositories/user/user.go:248-265 | a deletion stamps the active row of that uuid with its time and changes no other |
| Text.LowerExactly | migrations/000006_users_email_lowercase.up.sql:1-9 | lower case moves the letters from A to Z 32 code points on and leaves every other character |
| Text.NormalizeExactly | internal/layers/services/auth/auth.go:70 | the normal form of an email is its part between the white space around it, in lower case |
| Text.NormalForm | internal/layers/services/auth/auth.go:70 | every email has such a part, and its normal form has no capital letter and no white space at either end |
| Text.SameEmailExactly | internal/layers/services/auth/auth.go:137 | two emails have one normal form if and only if they differ in the case of letters and in the white space around them at most |
| Logins.RegisteredLogsIn | internal/layers/services/auth/auth.go:65-170 | after a registration a login with its password gets into that account if and only if its email differs from the registered one in case and surrounding white space at most |
| Logins.RegisteredIsTaken | internal/layers/services/auth/auth.go:65-247 | such an email cannot be registered again, nor taken by another account's update |
| Logins.SameEmailSameEffect | internal/layers/services/auth/auth.go:307-330 | login, registration, update and reset request do the same with two such emails |
| Users.SetPasswordKeeps | internal/layers/repositories/user/user.go:209-246 | a password update keeps the indexes, every other row's identity and every deleted row |
| Ledger.Looked | internal/layers/repositories/user/user.go:92-121 | a uuid is found exactly if it has an open account, and then with that account's email, name and password |
| Ledger.LookedByEmail | internal/layers/repositories/user/user.go:123-152 | an email is found exactly if an open account has it, and then that account |
| Users.UserRepository.Create | internal/layers/repositories/user/user.go:52-90 | inserts an active row with the next id, or refuses a taken email or uuid |
| Users.UserRepository.Update | internal/layers/repositories/user/user.go:184-207 | changes the given fields of the active row and moves its place in the email index |
| Users.UserRepository.UpdatePassword | internal/layers/repositories/user/user.go:209-230 | replaces the hash of the active row with that uuid |
| Users.UserRepository.Delete | internal/layers/repositories/user/user.go:248-265 | stamps the active row; its email stays taken |
| Credentials.ApplyKeeps | internal/layers/services/auth/auth.go:65-361 | every operation keeps uniqueness, the one-to-one match of users and default memberships, and every deleted row |
| Credentials.RunKeeps | internal/layers/services/auth/auth.go:65-130 | in every run a user is there exactly when its membership of the default group is |
| Credentials.DeletedStays | internal/layers/repositories/user/user.go:248-265 | a deleted row is never changed again, over every run |
| AuthService.PasswordResetRepository.DeleteExpired | internal/layers/repositories/password_reset/password_reset.go:71-79 | deletes exactly the used and the expired tokens |
| AuthService.UserGroupRepository.GetGroupNamesByUserID | internal/layers/repositories/user_group/user_group.go:46-70 | the user's groups, each once and no other |
| AuthService.Entered | internal/layers/services/auth/auth.go:65-361 | any operation's effect keeps the tables consistent and is the ledger's entry for it, with the ledger's answer |
| AuthService.Service.CreateMemberTx | internal/layers/services/auth/auth.go:79-109 | row and membership together or neither, also when the second insert fails; the drawn id is not given back |
| AuthService.PairIsGood | internal/core/jwt/jwt.go:68-77 | what a pair is good for: the access token validates as the user, with role `user` and group `users`, exactly within accessTTL of its stamp and never refreshes; the refresh token refreshes as the same user exactly within refreshTTL of its own |
| AuthService.Service.IssuePair | internal/layers/services/auth/auth.go:111-123 | the access token validates as that user with the default group as its only one, exactly within its lifetime, and never refreshes; the refresh token refreshes as that user exactly within its own |
| AuthService.Service.Register | internal/layers/services/auth/auth.go:65-130 | the tables stay consistent, and afterwards they show the ledger's entry for the operation and the answer is the ledger's; a new user gets a pair whose access token validates, and whose refresh token refreshes, as that user with the default group only, each exactly within its lifetime |
| AuthService.Service.Login | internal/layers/services/auth/auth.go:132-170 | succeeds if and only if the ledger has the account open under the normalized email with the password shown, with a pair whose access token validates, and whose refresh token refreshes, as that account with the default group only, each exactly within its lifetime |
| AuthService.Service.UpdateMe | internal/layers/services/auth/auth.go:224-247 | the tables stay consistent, and afterwards they show the ledger's entry for the operation and the answer is the ledger's |
| AuthService.Service.ChangePassword | internal/layers/services/auth/auth.go:260-303 | the tables stay consistent, and afterwards they show the ledger's entry for the operation and the answer is the ledger's; the token in use is revoked, in table and memory, exactly when the change succeeded and it has an id, in the table with the first expiry it came with and next to all other rows |
| AuthService.Service.Logout | internal/layers/services/auth/auth.go:249-258 | every later lookup up to the token's own expiry finds it revoked, the token table has it, and the database stays |
| AuthService.Service.RequestPasswordReset | internal/layers/services/auth/auth.go:307-330 | the tables stay consistent, and afterwards they show the ledger's entry for the operation and the answer is the ledger's; a token is given out exactly when one was stored |
| AuthService.Service.ConfirmPasswordReset | internal/layers/services/auth/auth.go:332-361 | the tables stay consistent, and afterwards they show the ledger's entry for the operation and the answer is the ledger's |
| Ledger.ValidExactly | internal/dto/service/auth.go:9-13 | accepted are exactly inputs with a valid email, a name of 1 to 100 characters, a new password of at least 6, and no nil uuid |
| Ledger.HashableFits | internal/layers/services/auth/auth.go:72 | a password can be hashed if and only if it is at most 72 bytes in UTF-8 |
| Ledger.OpenRefines | internal/layers/services/auth/auth.go:79-109 | a registration is opening an account in the ledger, refused for a taken email or uuid, of closed accounts too |
| Ledger.RenameRefines | internal/layers/services/auth/auth.go:224-247 | an update renames the account, takes its password along and frees its old email, refused while any row, a deleted one too, has the new one |
| Ledger.RekeyRefines | internal/layers/services/auth/auth.go:260-303 | a password change needs the current password of the account's own email and changes that one only |
| Ledger.PromiseRefines | internal/layers/services/auth/auth.go:307-330 | a reset request grants 3600 seconds to the owner of the email and answers an unknown email alike |
| Ledger.RedeemRefines | internal/layers/services/auth/auth.go:332-361 | a confirmation changes the password of the grant's account and spends the grant, or neither |
| Ledger.CloseRefines | internal/layers/services/user/user.go:160-181 | a deletion closes the account and keeps its email taken |
| Ledger.EffectRefines | internal/layers/services/auth/auth.go:65-361 | every operation is the ledger's entry for it, with the same answer |
| Ledger.PictureOfRun | internal/layers/services/auth/auth.go:65-361 | after any run the accounts, taken emails and reset grants in the database are those of the ledger kept beside it |
| Ledger.RunRefines | internal/layers/services/auth/auth.go:65-361 | after any run the database also answers the next operation as the ledger does |
| Ledger.LoginExactly | internal/layers/services/auth/auth.go:132-170 | after any run a login succeeds if and only if the normalized email is an open account's and the password, as bcrypt reads it, its current one |
| Ledger.LoginSession | internal/layers/services/auth/auth.go:132-170 | the session is that account's; an unknown email and a wrong password are refused alike |
| Ledger.EntriesSound | internal/layers/repositories/user/user.go:52-265 | after any run open accounts and their emails are in one-to-one correspondence |
| Ledger.PasswordNeedsProof | internal/layers/services/auth/auth.go:260-361 | among operations that run one at a time, none gives an open account another password without its current one or a live, unused token of that account |
| PasswordWrites.AlwaysShownExactly | internal/layers/services/auth/auth.go:265-289 | in all runs every change replaces the password its caller showed, if and only if at most one change or confirmation of an account is in flight at a time |
| PasswordWrites.ReplacesShownExactly | internal/layers/services/auth/auth.go:265-289 | within one run, a change replaces the password its caller showed if and only if nothing was written to the account since its read, or the last write put that password back |
| PasswordWrites.OnlyProvenWrites | internal/layers/services/auth/auth.go:265-289 | in every interleaving an account's password is replaced only by a change whose caller showed what the account had when it was read, or by a confirmation that read a token of the account before any use of it was marked |
| PasswordWrites.OverlapReplacesUnshown | internal/layers/services/auth/auth.go:265-289 | two overlapping changes that show the same password can leave the second one's over the first one's, which nobody showed |
| PasswordWrites.ChangeAlone | internal/layers/services/auth/auth.go:260-289 | the steps of a lone change are the whole operation |
| PasswordWrites.ConfirmAlone | internal/layers/services/auth/auth.go:332-361 | so are the steps of a lone confirmation, with the account whose password it writes |
| ResetTokens.LateReadIsRejected | internal/layers/services/auth/auth.go:337-343 | a confirmation that reads its token after a MarkUsed of it completed is rejected, in every run |
| ResetTokens.ChangesBounded | internal/layers/services/auth/auth.go:332-361 | in every interleaving password changes through a token never outnumber the confirmations that read it before its first MarkUsed |
| ResetTokens.OverlapChangesTwice | internal/layers/services/auth/auth.go:337-360 | two overlapping confirmations of one token can both change the password |
| ResetTokens.FailedMarkChangesTwice | internal/layers/services/auth/auth.go:353-360 | after a MarkUsed that failed the token can change the password again |
| ResetTokens.OnceExactly | internal/layers/services/auth/auth.go:332-361 | at most one change per token in every run if and only if its confirmations never overlap and MarkUsed never fails |
| ResetTokens.CleanupsAreInvisible | internal/layers/repositories/password_reset/password_reset.go:71-79 | removing every cleanup from a run leaves the same confirmations past the checks and the same changes; only the kind of rejection may differ |
| ConfirmSteps.ConfirmAlone | internal/layers/services/auth/auth.go:332-361 | the steps of a lone confirmation end as the whole operation answers, with the same tokens and the same change |

## Left out

- Faults: a failed query, a timeout and a cancelled request context, which ends the transaction and drops the lock. The protocol's runs have none of them; a failed `Create` that leaves the LRU entry behind and a failed lookup that counts as a miss are not in the model. `MarkUsed` failing is the one fault that is.
- Execution between the expiry of a row and its purge: the old row blocks the insert and the key may run again. The claims speak of the time up to a row's expiry and of keys whose row was purged.
- Requests that bypass the middleware (no key, no user, a read-only verb) and their use of the connection pool; the pool is used by idempotent requests only, and a handler by one connection.
- Process restart: an LRU and the blacklist start empty, and the code never reads `token_blacklist` back, so revocation is per process.
- Clocks: one clock for the application and the database, whole steps of it, and `ttlDays` as a fixed duration; calendar days across a change of daylight saving time are not.
- SHA-256, bcrypt and HMAC: the lock hash is any function, a password hash compares equal to its own password only, a signature verifies under its own key only. A candidate longer than the 72 bytes bcrypt reads is compared as some password, which one is any function of it.
- Text.NormalizeExactly: is about the ASCII letters and spaces that the model's normalization knows; other letters and spaces are left as they are.
- The email rule of the validation library is any predicate; input limits are counted in characters.
- The `sync.RWMutex` of the cache and of `sync.Map`: each cache call and each map operation is one step.
- Recorder.RoundTrip: takes header codes from 100 to 999 as `net/http` does, and does not treat informational headers, which are not the final status, nor the type `net/http` guesses where none is named.
- Recorder.RunHandler: a handler is the sequence of its writes, and the underlying writes are complete.
- Ledger.PasswordNeedsProof: takes each operation as one step, because the ledger has no steps within one; PasswordWrites and ResetTokens have them for password changes and confirmations. A registration, an update and a deletion are one statement or one transaction each.
- ResetTokens.OnceExactly: has the password update succeed or fail at will, so the user table is not part of that machine.
- Roles, timestamps and names beyond their length, group and role checks, pagination, audit log, refresh of a pair for a changed user, mail delivery.
- Echo routing, binding, compression, rate limits, logging, metrics, tracing and configuration parsing.
