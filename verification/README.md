# A Dafny model of the governed GenAI platform

The project models five parts of the platform and proves what they keep in every run. `dafny verify dfyconfig.toml`
checks everything.

**Approval stores.** `ApprovalCore` holds the record, the explicit-tenant statements and a small abstract store with
its gauge. `SqliteStore`, `RedisStore` and `PostgresStore` are state machines whose steps are the lock sections,
single commands and pool or transaction steps of any number of interleaved calls; each refines the abstract store, and
each has a class whose methods are proved to take exactly those steps. Ghost parameters `op` and the ghost maps of calls
in flight are bookkeeping: no step consults them to decide what the program does. Methods for one command, lock section
or gauge update are proved to be exactly one step of their machine; the table below lists the operations built on them.

**Sliding windows.** `SlidingWindow` proves that admission against a trailing window bounds every window. `TenantBudget`
and `RateLimiter` show that the lazily purged deques decide as a scan of the full history would.

**Governed calls.** `McpGateway` and `ModelGateway` are step machines that interleave at the awaits; handlers,
providers and safety checks answer with arbitrary values of a datatype, cancellation included. The PII analyzer is an
arbitrary function of the text that may also block or raise. `Pricing` is exact fixed-point arithmetic over reals.

**Chunking and masking.** `Chunking` decides termination of the chunk loop exactly and proves what its windows cover.
`PiiMasking` proves span selection and splicing.

**Retrieval.** `RoleFilter` prints and evaluates the Azure role filter as text; `VectorIndex`, `Embedding`,
`FrontMatter`, `ChunkKeys` and `Citations` cover ranking, score bounds, the document parser and the citation scanner.
`PyText`, `Tokens`, `TextOrder`, `Sorting`, `Rounding` and `Wrappers` are shared vocabulary.

Time, identifiers, hashes, case folding, square roots and the answers of foreign services are parameters; clocks are
monotone. A `hide` statement in a proof keeps a definition the proof does not need out of the solver's sight. A lemma
named `...Meaning` or `...Exactly` says of a definition what it means in terms that do not use it.

## What the code does that its documentation does not say

- A window whose last space is not past `start + overlap` makes `chunk_document` loop for ever; the one exception, a
  boundary at `overlap - 1`, makes the start -1. The loop then resumes at `size - 1 - overlap`, and the positions
  from `overlap - 1` up to there are lost without an error: none exactly when the overlap is at least half the size
  (`Chunking.TerminatesExactly`, `Chunking.LongWordNeverEnds`, `Chunking.SkippedExactly`,
  `Chunking.VisibleCharacterIsLost`).
- The comment at `rag/azure_search.py:52-53` says an unknown role fails closed; the printed filter ignores it, so it
  fails open, and only the guard in `add` keeps such chunks out (`RoleFilter.AgreementNeedsKnownRoles`).
- A tool call whose arguments cannot be serialised leaves no audit record: the fingerprint is taken before the `try`
  (`McpGateway.AuditedOnceUnlessUnfingerprinted`). A cancelled call reports what the attempt before it left, so the
  trail can record a timeout for it (`McpGateway.CancelledRepeatsOutcome`, `McpGateway.CancelledIsAuditedAsTimeout`).
- Audit records strip white space off the tool's name, so a padded name is not recorded as it was called
  (`McpGateway.RecordNamesToolExactly`).
- The model gateway's telemetry says "error" for an unexpected exception on the first attempt only; later it repeats
  the outcome of the attempt before (`ModelGateway.UnexpectedEndingsRepeatTelemetry`,
  `ModelGateway.CrashIsReportedAsTimeout`).
- A PII analyzer that raises a timeout or a provider failure on the model's answer is retried as if the provider had
  (`ModelGateway.EndedCallsAreGuarded`).
- Limiter keys `subject:tool` collide exactly when one tool name ends in a colon and another tool's name
  (`McpGateway.KeysCollideOnlyThroughColons`).
- An idle PostgreSQL connection is clean exactly unless `set_config`, which stands outside the rollback, has failed on
  it since a transaction on it last ended (`PostgresStore.IdleConnectionsAreCleanUnlessSetConfigFailed`); tenants stay
  isolated even then (`PostgresStore.EveryCallIsExplicitTenant`).
- A Redis index can keep the id of a decided approval; listings ignore it. It does so exactly
  when the creation's SADD comes after the decision's SREM (`RedisStore.StaleExactlyWhenAddedLate`).
- `create_pending` on SQLite can return an already decided record, exactly when a decision succeeds between its two lock
  sections (`SqliteStore.CreationReturnsPendingExactly`).
- The tail of a detection that partly overlaps a chosen one is released unmasked
  (`PiiMasking.DetectedTextIsHidden`, `PiiMasking.OverlapReleasesTail`).
- Front matter round trips exactly only when the content's line breaks are line feeds (`FrontMatter.RoundTrip`).
- Removing citations can leave text that is itself a citation, exactly when one was cut out of the middle of a bracketed
  id (`Citations.RemovalLeavesCitationExactly`).
- The budget's bound is for half-open windows; closed ones keep it exactly when each entry also fits with the entries
  one window old counted (`SlidingWindow.ClosedWindowsExactly`).

## Model

| member | source | states |
|---|---|---|
| ApprovalCore.BalanceIsConserved | src/enterprise_genai_platform/state/store.py:108-156 | No insert, decision, gauge update or failed attempt changes, for any tenant, gauge + increments still owed - decrements still owed - number of pending rows. |
| ApprovalCore.GaugeCountsPending | src/enterprise_genai_platform/state/store.py:131-155 | From an empty store, once no gauge update is owed, every tenant's gauge is its number of pending rows. |
| ApprovalCore.ChangeEvolves | src/enterprise_genai_platform/state/store.py:134-156 | No change removes a row or alters its identity, tenant, requester or digest, and a decided row never changes again. |
| ApprovalCore.RunEvolves | src/enterprise_genai_platform/state/store.py:30-40 | The same between any two moments of any sequence of changes, and rows stay filed under their own id. |
| ApprovalCore.RuledExactly | src/enterprise_genai_platform/state/store.py:144-149 | A decision sets status, reviewer, reason and decision time as it was given, approved exactly for an approval, and leaves every other field. |
| ApprovalCore.FreshExactly | src/enterprise_genai_platform/state/store.py:65-82 | The records without a trace of a decision are exactly those that are built pending. |
| ApprovalCore.OneDecisionWins | src/enterprise_genai_platform/state/store.py:134-151 | In any sequence of changes of the shared store model, at most one decision on an approval changes it; each backend's own form follows below. |
| ApprovalCore.SelectPending | src/enterprise_genai_platform/state/store.py:166-173 | The listing is a permutation of exactly the tenant's pending rows, ordered by creation time. |
| ApprovalCore.OrderByCreation | src/enterprise_genai_platform/state/redis.py:99-104 | Collecting a set of rows in any order and sorting gives a permutation of it in creation order. |
| ApprovalCore.ListingIsUnique | src/enterprise_genai_platform/state/redis.py:99-104 | When creation times differ, two listings of the same rows are equal, so all backends list alike. |
| SqliteStore.RunRefinesCore | src/enterprise_genai_platform/state/store.py:108-156 | Every interleaving of lock sections is a sequence of atomic changes of the shared store model. |
| SqliteStore.ReadBackFindsOwnRow | src/enterprise_genai_platform/state/store.py:128-156 | In every interleaving, the read-back after the lock was released still finds the caller's row, and a decider finds its own decision unchanged. |
| SqliteStore.RowsEvolve | src/enterprise_genai_platform/state/store.py:108-156 | Between any two moments of any interleaving rows stay, keep identity, tenant, requester and digest, and once decided never change. |
| SqliteStore.OneDecisionWins | src/enterprise_genai_platform/state/store.py:143-151 | Once a decide call on an approval has updated its row, every later one in the interleaving updates none. |
| SqliteStore.DecisionStands | src/enterprise_genai_platform/state/store.py:143-151 | In every interleaving the row that a successful decide call changes is, at every later moment, what its ruling says field by field, approved exactly when it was an approval. |
| SqliteStore.PendingUntilDecided | src/enterprise_genai_platform/state/store.py:114-149 | From its insert on, a row is pending and exactly as inserted if and only if no decide call on it has succeeded since. |
| SqliteStore.CreationReturnsPendingExactly | src/enterprise_genai_platform/state/store.py:114-132 | What a creation reads back and returns is its own row, still pending as created, exactly when no decide call on it succeeded between its insert and its read-back. |
| SqliteStore.CreationMayReturnDecidedRow | src/enterprise_genai_platform/state/store.py:114-132 | Such a creation does occur: a concrete interleaving. |
| SqliteStore.QuiescentGauge | src/enterprise_genai_platform/state/store.py:131-155 | With no call in flight the gauge of each tenant counts its pending rows. |
| SqliteStore.SQLiteApprovalStore.InsertLocked | src/enterprise_genai_platform/state/store.py:114-127 | The insert section: whether it inserted, and the machine step it is. |
| SqliteStore.SQLiteApprovalStore.UpdateLocked | src/enterprise_genai_platform/state/store.py:144-149 | The conditional update: row count 1 exactly when the row is present, pending and the tenant's; then the row, and it alone, becomes what the ruling says, field by field. |
| SqliteStore.SQLiteApprovalStore.CreatePending | src/enterprise_genai_platform/state/store.py:108-132 | A taken id is refused with nothing changed; otherwise the row is returned and the object has taken the three steps insert, read back, report. |
| SqliteStore.SQLiteApprovalStore.DecidePending | src/enterprise_genai_platform/state/store.py:134-156 | Missing, decided and foreign rows are refused with nothing changed; otherwise the row becomes what the ruling says, field by field, and is returned after the three steps. |
| SqliteStore.SQLiteApprovalStore.Get | src/enterprise_genai_platform/state/store.py:158-164 | The row, unless it is missing or another tenant's. |
| SqliteStore.SQLiteApprovalStore.ListPending | src/enterprise_genai_platform/state/store.py:166-173 | Exactly the tenant's pending rows in creation order. |
| RedisStore.RunRefinesCore | src/enterprise_genai_platform/state/redis.py:46-104 | Every interleaving of single commands is a sequence of atomic changes of the shared store model, so the run-wide laws above hold of it. |
| RedisStore.IndexAgreesInEveryRun | src/enterprise_genai_platform/state/redis.py:46-87 | In every interleaving an indexed id names a record of that index's tenant, and every pending record is indexed unless its creation has not reached SADD. |
| RedisStore.StepKeepsInv | src/enterprise_genai_platform/state/redis.py:46-104 | Every command of every call keeps the invariant that ties records, index sets and calls in flight together. |
| RedisStore.ScanRemembersItsStart | src/enterprise_genai_platform/state/redis.py:96-98 | A listing under way still describes the store as it was when its SMEMBERS was answered. |
| RedisStore.ListingIsSandwiched | src/enterprise_genai_platform/state/redis.py:96-104 | In every interleaving a listing returns only rows of the tenant pending when it began, all of those fully created then and pending now, and exactly the pending rows when nothing moved. |
| RedisStore.ListingCanFinish | src/enterprise_genai_platform/state/redis.py:95-104 | From any state a listing under way can finish, after one GET for each id it still has to look at. |
| RedisStore.RowsEvolve | src/enterprise_genai_platform/state/redis.py:11-87 | Between any two moments of any interleaving records stay, keep identity, tenant, requester and digest, and once decided never change. |
| RedisStore.OneDecisionWins | src/enterprise_genai_platform/state/redis.py:11-24 | Once a decision script on an approval has succeeded, every later one in the interleaving returns nothing. |
| RedisStore.OnlyDecisionsChangeRows | src/enterprise_genai_platform/state/redis.py:11-24 | In every interleaving an existing record is changed by a successful decision script, which leaves it pending no longer, and by nothing else. |
| RedisStore.DecisionStands | src/enterprise_genai_platform/state/redis.py:11-24 | In every interleaving the row that a successful decision script changes is, at every later moment, what its ruling says field by field, approved exactly when it was an approval. |
| RedisStore.IndexedByLastCommand | src/enterprise_genai_platform/state/redis.py:57-85 | At every moment an id is indexed exactly when its latest index command was an SADD. |
| RedisStore.StaleExactlyWhenAddedLate | src/enterprise_genai_platform/state/redis.py:57-85 | A decided id that no call is still adding or removing is left in its tenant's index exactly when its creation's SADD came after its decision's SREM. |
| RedisStore.QuiescentGauge | src/enterprise_genai_platform/state/redis.py:58-86 | With no call in flight the gauge of each tenant counts its pending rows. |
| RedisStore.IndexCanHoldStaleId | src/enterprise_genai_platform/state/redis.py:57-85 | Such an id does occur: a concrete interleaving. |
| RedisStore.KeysClashOnlyOnIndexNames | src/enterprise_genai_platform/state/redis.py:37-44 | A record key equals an index key exactly when the id spells that index name, so never for an id without a colon. |
| RedisStore.RedisApprovalStore.SetIfAbsent | src/enterprise_genai_platform/state/redis.py:52-56 | SET NX: created exactly when the id was free, as a machine step. |
| RedisStore.RedisApprovalStore.EvalDecide | src/enterprise_genai_platform/state/redis.py:11-24 | The script rewrites exactly a present, pending record of the calling tenant, field by field as the ruling says, and returns nothing otherwise. |
| RedisStore.RedisApprovalStore.CreatePending | src/enterprise_genai_platform/state/redis.py:46-59 | Refused with nothing changed when the id is taken; otherwise the record, after the three steps. |
| RedisStore.RedisApprovalStore.DecidePending | src/enterprise_genai_platform/state/redis.py:61-87 | Refused with nothing changed when the script returns nothing; otherwise the record becomes what the ruling says, field by field, and is returned after the three steps. |
| RedisStore.RedisApprovalStore.Get | src/enterprise_genai_platform/state/redis.py:89-94 | The record, unless it is missing or another tenant's. |
| RedisStore.RedisApprovalStore.ListPending | src/enterprise_genai_platform/state/redis.py:96-104 | The creation-ordered listing of the tenant's indexed pending rows: all its pending rows but those whose creation has not reached SADD, whatever stale ids the index holds. |
| PostgresStore.PolicyIsExplicitTenant | src/enterprise_genai_platform/state/postgres.py:127-133 | With the tenant setting in force, every statement under the row-level policy reads, writes and returns what its explicit-tenant form does. |
| PostgresStore.ForeignRowsUntouched | src/enterprise_genai_platform/state/postgres.py:152-218 | A statement neither changes, adds nor returns another tenant's rows. |
| PostgresStore.EveryCallIsExplicitTenant | src/enterprise_genai_platform/state/postgres.py:136-150 | In every interleaving, whatever its connection was left with, a call commits and returns the explicit-tenant statement's effect on the shared table, unless the driver raised in this very transaction, and then nothing. |
| PostgresStore.RowsEvolve | src/enterprise_genai_platform/state/postgres.py:152-197 | Between any two moments of any interleaving rows stay, keep identity, tenant, requester and digest, and once decided never change. |
| PostgresStore.OneDecisionWins | src/enterprise_genai_platform/state/postgres.py:184-195 | Once the UPDATE of a decide call on an approval is committed, no later UPDATE of it in the interleaving gets a row back. |
| PostgresStore.RowExactlyWhenDecidable | src/enterprise_genai_platform/state/postgres.py:184-195 | In every interleaving an executed UPDATE has got a row exactly when the driver did not raise and the row is there, pending and its tenant's. |
| PostgresStore.DecisionStands | src/enterprise_genai_platform/state/postgres.py:184-195 | In every interleaving the row that a committed UPDATE changes is, at every later moment, what its ruling says field by field, approved exactly when it was an approval. |
| PostgresStore.IdleConnectionsAreCleanUnlessSetConfigFailed | src/enterprise_genai_platform/state/postgres.py:83-150 | In every interleaving idle and borrowed connections are the original pool, at most one is borrowed, and an idle one is in a transaction exactly when set_config, which precedes the try, failed on it and no transaction on it has ended since; it carries a tenant exactly when such a failure came after the setting took effect. |
| PostgresStore.FailedSettingLeavesOpenConnection | src/enterprise_genai_platform/state/postgres.py:142-150 | Such a connection does occur: after one failing set_config it waits in the queue inside a transaction. |
| PostgresStore.NoFailureNoPoison | src/enterprise_genai_platform/state/postgres.py:142-150 | If set_config never fails, no such connection ever exists. |
| PostgresStore.BorrowNeverBlocks | src/enterprise_genai_platform/state/postgres.py:83-89 | A call that holds the lock always finds a connection, for any pool size of at least one. |
| PostgresStore.RunRefinesCore | src/enterprise_genai_platform/state/postgres.py:136-218 | Every interleaving is a sequence of atomic changes of the shared store model, the same one SQLite refines. |
| PostgresStore.QuiescentGauge | src/enterprise_genai_platform/state/postgres.py:172-196 | With no gauge update owed the gauge of each tenant counts its pending rows. |
| PostgresStore.TransactionIsExplicitTenant | src/enterprise_genai_platform/state/postgres.py:136-150 | Lock, borrow, set_config, statement, commit or rollback, return and unlock come to one explicit-tenant statement and a rotated pool, whatever state the connection was in; a failing set_config or statement changes no row, and only the former leaves its connection open. |
| PostgresStore.PostgreSQLApprovalStore.TenantScoped | src/enterprise_genai_platform/state/postgres.py:136-150 | A whole scoped transaction equals the explicit-tenant statement; set_config or the statement failing raises and changes no row. |
| PostgresStore.PostgreSQLApprovalStore.CreatePending | src/enterprise_genai_platform/state/postgres.py:152-173 | On any failure nothing changes; otherwise the row is stored and returned and its tenant's gauge rises by one. |
| PostgresStore.PostgreSQLApprovalStore.DecidePending | src/enterprise_genai_platform/state/postgres.py:175-197 | Missing, decided and foreign rows, and any driver failure, change nothing; otherwise the row becomes what the ruling says, field by field, is returned, and the gauge falls by one. |
| PostgresStore.PostgreSQLApprovalStore.Get | src/enterprise_genai_platform/state/postgres.py:199-208 | The row, unless it is missing or another tenant's, or an error if the driver fails; nothing changes. |
| PostgresStore.PostgreSQLApprovalStore.ListPending | src/enterprise_genai_platform/state/postgres.py:210-218 | Exactly the tenant's pending rows in creation order, or an error if the driver fails; nothing changes. |
| SlidingWindow.AdmittedBoundsEveryWindow | src/enterprise_genai_platform/model_gateway/policy.py:67-79 | Admitting each entry against the window that trails it bounds the total of every window of that length, wherever it starts. |
| SlidingWindow.BoundedWindowsAreAdmitted | src/enterprise_genai_platform/model_gateway/policy.py:75 | Conversely, a ledger within the bound in every window passes every such check: nothing is refused needlessly. |
| SlidingWindow.SuffixIsTrailing | src/enterprise_genai_platform/model_gateway/policy.py:72-73 | Dropping expired entries from the front leaves exactly the trailing window. |
| SlidingWindow.ClosedWindowsExactly | src/enterprise_genai_platform/model_gateway/policy.py:72-75 | The bound holds in every closed window exactly when each entry would also have passed a check counting entries exactly one window old. |
| SlidingWindow.NoneExactlyApartIsClosed | src/enterprise_genai_platform/model_gateway/policy.py:72-75 | In particular when no two entries lie exactly one window apart. |
| SlidingWindow.ClosedWindowCanHoldTwice | src/enterprise_genai_platform/model_gateway/policy.py:72-75 | Otherwise a closed window can hold twice the ceiling: a concrete ledger. |
| TenantBudget.CeilingHoldsInEveryWindow | src/enterprise_genai_platform/model_gateway/policy.py:61-79 | In any run, in every window, accepted reservations of a tenant total at most its own ceiling, or the fallback if it has none; a tenant with neither has none. |
| TenantBudget.ReserveMeaning | src/enterprise_genai_platform/model_gateway/policy.py:61-79 | A tenant with its own ceiling is held to it, any other to the fallback, and one with neither is refused; what fits is recorded and nothing else. |
| TenantBudget.LedgerGrowsExactly | src/enterprise_genai_platform/model_gateway/policy.py:67-79 | Each request of a run adds its cost to its own tenant's ledger exactly when it fits there, and changes nothing else. |
| TenantBudget.TenantsAreIsolated | src/enterprise_genai_platform/model_gateway/policy.py:67-79 | A tenant's accepted reservations are what they would be had no other tenant called. |
| TenantBudget.ReserveKeepsSound | src/enterprise_genai_platform/model_gateway/policy.py:67-79 | Every reservation keeps every tenant's ledger ordered and admitted. |
| TenantBudget.TenantBudgetPolicy.Purge | src/enterprise_genai_platform/model_gateway/policy.py:70-73 | Purging one tenant's deque loses nothing a later check needs. |
| TenantBudget.TenantBudgetPolicy.Append | src/enterprise_genai_platform/model_gateway/policy.py:79 | Appending an affordable entry keeps the deque in step with the full history. |
| TenantBudget.TenantBudgetPolicy.CheckAndReserve | src/enterprise_genai_platform/model_gateway/policy.py:67-79 | The lazily purged deque answers and records as a scan of the full history would: reserved exactly when spent plus cost is at most the tenant's own ceiling, or the fallback if it has none. |
| TenantBudget.TenantBudgetPolicy.SpentGbp | src/enterprise_genai_platform/model_gateway/policy.py:81-86 | The purged sum, rounded, equals the rounded sum of the full history's trailing window. |
| Rounding.RoundedOnce | src/enterprise_genai_platform/model_gateway/policy.py:86 | Rounding is to the nearest multiple, the even one of two, and has one answer. |
| RateLimiter.CheckMatchesScan | src/enterprise_genai_platform/gateway/auth.py:174-186 | The purged deque admits exactly when fewer than `limit` of all admissions lie in the preceding window, and other keys are untouched. |
| RateLimiter.RunMatchesReference | src/enterprise_genai_platform/gateway/auth.py:174-186 | Every answer of every run over any keys is the one a scan of the whole history would give. |
| RateLimiter.AtMostLimitPerWindow | src/enterprise_genai_platform/gateway/auth.py:174-186 | Any window contains at most `limit` admissions of a key, so refusals use up no allowance. |
| RateLimiter.RetryAfterIsHonest | src/enterprise_genai_platform/gateway/auth.py:181-185 | Against one record: one window after the refusal the attempt is admitted exactly when the limit is at least one. |
| RateLimiter.RetryAfterHoldsInRuns | src/enterprise_genai_platform/gateway/auth.py:181-185 | In every run, waiting the advertised Retry-After after a refusal, with no admission of the key in between, guarantees admission exactly when the limit is at least one. |
| RateLimiter.InMemoryRateLimiter.CheckKey | src/enterprise_genai_platform/gateway/auth.py:174-186 | The stateful check answers, and leaves the deques, as the reference scan of all admissions requires. |
| McpGateway.SettlesOneWay | src/enterprise_genai_platform/mcp_boundary/gateway.py:125-141 | The sequence of handler replies determines what is returned or raised, what is audited and the attempt count. |
| McpGateway.ReactSettles | src/enterprise_genai_platform/mcp_boundary/gateway.py:125-141 | One reply at a time, the loop stops at the first valid or non-retriable reply or at the last attempt, and otherwise goes on. |
| McpGateway.AuditedOnceUnlessUnfingerprinted | src/enterprise_genai_platform/mcp_boundary/gateway.py:99-159 | In every interleaving a finished call has exactly one audit record, with its request, caller, agent, tool and fingerprint, stripped of white space, its outcome and the number of handler executions, unless fingerprinting its arguments raised before the try; then it has none. |
| McpGateway.RecordNamesToolExactly | src/enterprise_genai_platform/mcp_boundary/contracts.py:10-11 | In every interleaving a record carries the name of the tool that was called exactly when that name has no white space at either end. |
| McpGateway.CancelledRepeatsOutcome | src/enterprise_genai_platform/mcp_boundary/gateway.py:101-159 | In every interleaving a cancelled call is audited as a timeout exactly when the attempt before it timed out, and as an error exactly when there was none or it raised. |
| McpGateway.CancelledIsAuditedAsTimeout | src/enterprise_genai_platform/mcp_boundary/gateway.py:125-159 | Such a call does occur: a timeout and then a cancellation leave a record that says timeout. |
| McpGateway.AuditIsAppendOnly | src/enterprise_genai_platform/mcp_boundary/gateway.py:48-59 | The trail at any moment is a prefix of the trail at any later one. |
| McpGateway.HandlersRunOnlyWhenCleared | src/enterprise_genai_platform/mcp_boundary/gateway.py:104-141 | A handler executes only for a call that passed tool, agent, role, rate and schema checks, at most max_attempts times, and the attempt count reported is the number of executions. |
| McpGateway.EndingNamesTheCheck | src/enterprise_genai_platform/mcp_boundary/gateway.py:99-141 | In every interleaving the ending names the first check that failed when the call was screened; only a call that passed them all has its handler executed, and it ends as the replies say. |
| McpGateway.UnfingerprintedCallIsNotAudited | src/enterprise_genai_platform/mcp_boundary/gateway.py:99-103 | A call whose arguments cannot be serialised does end without an audit record. |
| McpGateway.AtMostLimitAdmittedPerWindow | src/enterprise_genai_platform/mcp_boundary/gateway.py:161-169 | In any window of any interleaving a subject-and-tool key is admitted at most rate_limit times. |
| McpGateway.WindowBoundsHandlerRuns | src/enterprise_genai_platform/mcp_boundary/gateway.py:125-169 | All handler executions ever charged to one window's admissions of a key are at most max_attempts * rate_limit. |
| McpGateway.KeysCollideOnlyThroughColons | src/enterprise_genai_platform/mcp_boundary/gateway.py:163 | Different callers or tools can share a limiter key exactly when one tool name is another's preceded by something and a colon. |
| McpGateway.GovernedMcpGateway.RegisterTool | src/enterprise_genai_platform/mcp_boundary/gateway.py:84-87 | A taken name is refused and the registration kept. |
| McpGateway.GovernedMcpGateway.CheckRateLimit | src/enterprise_genai_platform/mcp_boundary/gateway.py:161-169 | The deque check answers and leaves the deques as the limiter's reference does. |
| McpGateway.GovernedMcpGateway.RunHandler | src/enterprise_genai_platform/mcp_boundary/gateway.py:125-141 | The retry loop's answer is the one its replies determine. |
| McpGateway.GovernedMcpGateway.Invoke | src/enterprise_genai_platform/mcp_boundary/gateway.py:93-159 | Screening, loop and exactly one audit record, which describes the call field by field, or none when the arguments cannot be fingerprinted. |
| Pricing.EstimateIsMonotone | src/enterprise_genai_platform/model_gateway/pricing.py:37-44 | More tokens on the same model never cost less, rounding included, and no cost is negative. |
| Pricing.EstimateMeaning | src/enterprise_genai_platform/model_gateway/pricing.py:27-44 | A thousandth of each token count at its list price, or at 0.001 and 0.002 GBP for a model not listed, to the nearest 1e-8 GBP. |
| Pricing.DefaultEstimateIsExact | src/enterprise_genai_platform/model_gateway/pricing.py:24-44 | With the default prices the cost is a whole number of 1e-8 GBP units per token, so rounding changes nothing. |
| Pricing.UnlistedModelIsNeverFree | src/enterprise_genai_platform/model_gateway/pricing.py:38-44 | A model without a listed price costs something as soon as any token is used. |
| ModelGateway.SanitizeAllMeaning | src/enterprise_genai_platform/model_gateway/gateway.py:139-152 | Request sanitising succeeds exactly when every message scans clean, and yields the clean texts in order. |
| ModelGateway.FirstUncleanMeaning | src/enterprise_genai_platform/model_gateway/gateway.py:139-170 | Otherwise sanitising stops at the first message that is blocked or whose scan raises, with that verdict. |
| ModelGateway.NextTextSkipsOnlyEmpty | src/enterprise_genai_platform/model_gateway/gateway.py:177-179 | The safety loop passes over empty texts only. |
| ModelGateway.EndedCallsAreGuarded | src/enterprise_genai_platform/model_gateway/gateway.py:72-132 | In every interleaving: a call refused before the provider reserved nothing, and its ending names the guard that refused it, every earlier one having passed; otherwise one reservation at the quoted price, one answer per provider call on the sanitised messages, all but the last retriable, and the ending and telemetry the last answer calls for, an exception of the scan counting as the provider's. A returned text is the clean, safety-checked scan of that answer, with its model and usage. |
| ModelGateway.AnswersDetermineEnding | src/enterprise_genai_platform/model_gateway/gateway.py:72-132 | The request and the answers of budget, safety service and provider determine the ending and its telemetry. |
| ModelGateway.UnexpectedEndingsRepeatTelemetry | src/enterprise_genai_platform/model_gateway/gateway.py:88-132 | In every interleaving an unexpected exception, or a cancellation after the reservation, is reported as an error exactly on the first provider call, and otherwise as what the attempt before it came to. |
| ModelGateway.CrashIsReportedAsTimeout | src/enterprise_genai_platform/model_gateway/gateway.py:88-132 | Such a report does occur: a timeout and then an unexpected exception are reported as a timeout. |
| ModelGateway.VerdictIsTheLedgers | src/enterprise_genai_platform/model_gateway/gateway.py:79-85 | In every interleaving the budget's verdict was given at one of the call's own steps, and reserves exactly when the tenant's reservations made before and still in the window leave room for the quote of the sanitised request. |
| ModelGateway.BudgetEndingsAreTheLedgers | src/enterprise_genai_platform/model_gateway/gateway.py:79-95 | So a call ends over budget only where the ledger had no room, and pays only where it had. |
| ModelGateway.ProviderSeesOnlyGuardedText | src/enterprise_genai_platform/model_gateway/gateway.py:72-95 | Whenever the provider is shown anything it is the sanitised messages of an allowed request, all non-empty ones checked, with one reservation made. |
| ModelGateway.SentTextsAreSafe | src/enterprise_genai_platform/model_gateway/gateway.py:172-198 | In every interleaving each non-empty message the provider is shown was answered by the safety service with findings, none at or above its category's threshold. |
| ModelGateway.ReturnedTextIsSafe | src/enterprise_genai_platform/model_gateway/gateway.py:94-107 | So was the text of a completion that is returned, unless it is empty. |
| ModelGateway.UnsafeEndingsExactly | src/enterprise_genai_platform/model_gateway/gateway.py:172-198 | In every interleaving a call ends as unsafe exactly when a safety answer was missing or held a finding at or above its category's threshold: as an unsafe request before the provider, as an unsafe result after it. |
| ModelGateway.UnlistedCategoriesStopNothing | src/enterprise_genai_platform/safety/content_safety.py:42-50 | Findings of categories without a threshold, of severity 7 at most, stop nothing. |
| ModelGateway.HarmfulRequestIsRefused | src/enterprise_genai_platform/model_gateway/gateway.py:172-198 | A finding above its threshold on a message refuses the request, concretely. |
| ModelGateway.PreflightMeaning | src/enterprise_genai_platform/model_gateway/gateway.py:75-78 | The preflight counts a token for every four characters, one for fewer, and the completion cap. |
| ModelGateway.ReservedIsEstimate | src/enterprise_genai_platform/model_gateway/gateway.py:75-85 | In every interleaving the amount reserved is the price, to the nearest 1e-8 GBP, of the completion cap and of a token for every four characters of the messages then shown to the provider. |
| ModelGateway.ChargedAsReported | src/enterprise_genai_platform/model_gateway/gateway.py:99-106 | In every interleaving the charge of a call that returned is the price of the usage reported, at the rates of the model that answered, to the nearest 1e-8 GBP; any other call is charged nothing. |
| ModelGateway.ChargesStayWithinCeiling | src/enterprise_genai_platform/model_gateway/gateway.py:79-107 | Per tenant and window, repriced results total at most what was reserved, and at most the ceiling, when usage stays within the preflight on the same model. |
| ModelGateway.StepKeepsInv | src/enterprise_genai_platform/model_gateway/gateway.py:72-132 | Every step of every generation keeps all generations' guard and reservation obligations. |
| ModelGateway.PlayedCallsAreGuarded | src/enterprise_genai_platform/model_gateway/gateway.py:72-132 | A generation played through without interruption carries the same guarantees. |
| ModelGateway.GovernedModelGateway.SanitizeMessages | src/enterprise_genai_platform/model_gateway/gateway.py:146-170 | The request-side PII loop: the clean texts, or the verdict of the first message that is blocked or raises. |
| ModelGateway.GovernedModelGateway.CheckTexts | src/enterprise_genai_platform/model_gateway/gateway.py:172-198 | The safety loop stops at the first text that is unavailable, cancelled or holds a finding at its threshold, having passed every earlier non-empty text, as the interleaved steps do. |
| ModelGateway.GovernedModelGateway.CallWithRetry | src/enterprise_genai_platform/model_gateway/gateway.py:91-120 | The retry loop ends as the interleaved steps do on the same answers: unsafe only after a missing or harmful safety answer, with a text only after a safe one. |
| ModelGateway.GovernedModelGateway.ReserveBudget | src/enterprise_genai_platform/model_gateway/gateway.py:79-85 | Quotes and reserves against the real, lazily purged ledger, as the full-history check would. |
| ModelGateway.GovernedModelGateway.Generate | src/enterprise_genai_platform/model_gateway/gateway.py:72-132 | Allowlist, guards, budget and provider in order: a refusal before the budget leaves the ledger as it was; otherwise the ledger and ending are those of the interleaved steps; and the ending is the one the answers call for. |
| Chunking.TerminatesExactly | src/enterprise_genai_platform/rag/factory.py:23-51 | The loop returns exactly when no window on the way stalls, or the first window stalls with its boundary at overlap - 1 and none stalls after the negative start wraps round; on all other documents it loops for ever. |
| Chunking.StallDiverges | src/enterprise_genai_platform/rag/factory.py:27-50 | After a window whose boundary is not past start + overlap the loop never ends, unless that boundary is exactly overlap - 1. |
| Chunking.LongWordNeverEnds | src/enterprise_genai_platform/rag/factory.py:18-50 | An early space before a 600-letter word is such a document with the default sizes. |
| Chunking.StalledDocumentCanEnd | src/enterprise_genai_platform/rag/factory.py:27-50 | A document that stalls with its boundary at overlap - 1 and still ends, concretely. |
| Chunking.ShortWordsNeverStall | src/enterprise_genai_platform/rag/factory.py:27-50 | If every stretch of size - 1 - overlap characters holds a space, no window stalls. |
| Chunking.StitchingRestoresContent | src/enterprise_genai_platform/rag/factory.py:26-50 | When no window stalls, windows are at most chunk_size long, starts and ends strictly increase, and the content is the first window followed by each later one without its first `overlap` characters. |
| Chunking.EveryVisibleCharacterIsKept | src/enterprise_genai_platform/rag/factory.py:32-47 | When no window stalls, every character that is not white space lies in a window, inside the part of it that stripping leaves and the loop emits. |
| Chunking.PiecesAreWindows | src/enterprise_genai_platform/rag/factory.py:32-47 | When no window stalls, the texts emitted are exactly the stripped, non-empty texts of the windows, in order. |
| Chunking.EnoughRounds | src/enterprise_genai_platform/rag/factory.py:26-50 | Once the loop has ended, allowing it more rounds changes nothing. |
| Chunking.LaterStallsAreFurther | src/enterprise_genai_platform/rag/factory.py:27-50 | Only the first window can stall with its boundary at overlap - 1. |
| Chunking.StallAtOverlapSkipsText | src/enterprise_genai_platform/rag/factory.py:27-50 | A document that stalls and still ends is chunked as its first overlap - 1 characters and then from size - 1 - overlap on. |
| Chunking.SkippedExactly | src/enterprise_genai_platform/rag/factory.py:27-50 | The texts such a document is chunked into, and what it loses: a position lies in no chunk's window exactly when it is from overlap - 1 up to size - 1 - overlap, so nothing is lost exactly when twice the overlap is at least the size. |
| Chunking.VisibleCharacterIsLost | src/enterprise_genai_platform/rag/factory.py:27-50 | A visible character is lost, concretely. |
| Chunking.ChunkIdsAreDistinct | src/enterprise_genai_platform/rag/factory.py:36-47 | Chunk ids of one document are distinct. |
| PyText.DecimalMeaning | src/enterprise_genai_platform/rag/factory.py:36-47 | The index in a chunk id is the decimal numeral of its number, without a leading zero. |
| Chunking.CutWindow | src/enterprise_genai_platform/rag/factory.py:27-47 | One window becomes the next numbered chunk, unless stripping leaves nothing. |
| Chunking.EmitChunks | src/enterprise_genai_platform/rag/factory.py:23-51 | Watched for any number of rounds, the loop has emitted exactly the stripped, non-empty windows cut so far, numbered from 1, and reports whether it has ended. |
| Chunking.ChunkDocument | src/enterprise_genai_platform/rag/factory.py:21-51 | An invalid configuration is refused; otherwise the loop's chunks, or no answer while it has not returned. |
| ChunkKeys.CorpusIdsAreDistinct | src/enterprise_genai_platform/rag/factory.py:36 | Chunk ids are distinct across documents whose ids hold no '#'. |
| ChunkKeys.DocumentIdsArePlain | src/enterprise_genai_platform/rag/models.py:15 | Ids of the POL pattern hold no '#', no doubled dash and no dash at the end. |
| ChunkKeys.DocumentIdsExactly | src/enterprise_genai_platform/rag/models.py:15 | Document ids are exactly POL, letters A to Z and three digits, joined with dashes. |
| ChunkKeys.SearchKeysAreDistinct | src/enterprise_genai_platform/rag/azure_search.py:64-75 | Sanitised search keys of such documents' chunks are distinct. |
| PiiMasking.ChosenSpans | src/enterprise_genai_platform/safety/pii.py:101-111 | The chosen spans are disjoint, in order and among the detections, and every detection starts inside a chosen one that starts no later and, starting level, scores no lower. |
| PiiMasking.ReportOrderIsIrrelevant | src/enterprise_genai_platform/safety/pii.py:102 | The analyzer's report order matters only between detections level on start and score. |
| PiiMasking.SpliceStitches | src/enterprise_genai_platform/safety/pii.py:113-115 | Splicing one more span into text already stitched to its right stitches it too. |
| PiiMasking.OutsideIsKept | src/enterprise_genai_platform/safety/pii.py:113-115 | Every character outside the chosen spans survives, shifted by the replacements before it. |
| PiiMasking.PlaceholderStands | src/enterprise_genai_platform/safety/pii.py:109-115 | Where the i-th span started, shifted by two more than each earlier entity's length less its span's, stand '<', its entity's name and '>'. |
| PiiMasking.StitchMasks | src/enterprise_genai_platform/safety/pii.py:109-115 | The masked text is those tags, the characters outside the spans, and nothing else. |
| PiiMasking.DetectedTextIsHidden | src/enterprise_genai_platform/safety/pii.py:106-111 | Every detected character is masked exactly when no detection runs past the end of a chosen span, except into one starting right there. |
| PiiMasking.NestedDetectionsAreHidden | src/enterprise_genai_platform/safety/pii.py:106-111 | Detections that end inside whichever earlier one they overlap are always masked in full. |
| PiiMasking.OverlapReleasesTail | src/enterprise_genai_platform/safety/pii.py:106-115 | Two partly overlapping detections: the later one's tail is released unmasked. |
| PiiMasking.ChooseSpans | src/enterprise_genai_platform/safety/pii.py:103-111 | The selection loop: replacements and findings match one to one, in order. |
| PiiMasking.SpliceAll | src/enterprise_genai_platform/safety/pii.py:113-115 | The right-to-left loop yields the left-to-right stitch. |
| PiiMasking.Scan | src/enterprise_genai_platform/safety/pii.py:81-117 | Text passes unchanged only when there is nothing to look for; blocked types are refused, sorted and complete; otherwise each chosen span becomes a tag naming its entity, everything else stays, and the i-th finding carries the i-th span's entity and score. |
| RoleFilter.ReadEscaped | src/enterprise_genai_platform/rag/azure_search.py:110-112 | Reading a quoted literal inverts escaping, whatever follows. |
| PyText.SplitInvertsJoin | src/enterprise_genai_platform/rag/azure_search.py:111 | Splitting on a delimiter inverts joining. |
| PyText.PartsRejoin | src/enterprise_genai_platform/rag/ingestion.py:43 | Splitting gives the one list of delimiter-free parts that joins to the text. |
| PyText.StripMeaning | src/enterprise_genai_platform/rag/ingestion.py:43 | Stripping keeps what lies between the first and the last character that is not white space. |
| RoleFilter.FilterMeaning | src/enterprise_genai_platform/rag/azure_search.py:92-112 | Evaluated as text, the printed filter admits a document exactly when the caller holds every known role it declares. |
| RoleFilter.FilterText | src/enterprise_genai_platform/rag/azure_search.py:100-113 | The filter's whole text: a fixed frame around the known roles the caller lacks, alphabetically, joined with bars. |
| RoleFilter.AgreementNeedsKnownRoles | src/enterprise_genai_platform/rag/azure_search.py:46-61 | Azure and the local subset test agree for every caller exactly when the document declares known roles only; an unknown role fails open. |
| RoleFilter.OnlyKnownRolesArePrinted | src/enterprise_genai_platform/rag/azure_search.py:110 | Nothing of a caller's role names outside the known vocabulary reaches the filter text. |
| RoleFilter.CheckRoles | src/enterprise_genai_platform/rag/azure_search.py:174-186 | `add` accepts known roles only and names the first offender. |
| RoleFilter.UploadedChunksAgree | src/enterprise_genai_platform/rag/azure_search.py:178-186 | So everything uploaded is admitted by both indexes alike. |
| VectorIndex.AcceptedMeaning | src/enterprise_genai_platform/rag/index.py:34-38 | Adding stops at the first id already stored or repeated, and the ids stay distinct. |
| VectorIndex.SearchIsOptimal | src/enterprise_genai_platform/rag/index.py:40-61 | Search fails exactly when an authorised chunk has another dimension; else it returns authorised positive hits, best first with ties by id, no chunk twice, and omits one only when `limit` better ones are returned. |
| VectorIndex.SearchSeesOnlyAuthorised | src/enterprise_genai_platform/rag/index.py:49-55 | The result, error included, depends only on which authorised chunks are stored: not on insertion order, nor on anything the caller may not see. |
| VectorIndex.LocalVectorIndex.Add | src/enterprise_genai_platform/rag/index.py:34-38 | Chunks before a duplicate stay stored when it is refused. |
| VectorIndex.LocalVectorIndex.Candidates | src/enterprise_genai_platform/rag/index.py:49-53 | Only authorised chunks are scored. |
| Embedding.CauchySchwarz | src/enterprise_genai_platform/rag/index.py:57-61 | The square of a dot product is at most the product of the sums of squares, for vectors of any length. |
| Embedding.SimilarityInRange | src/enterprise_genai_platform/rag/models.py:46 | Similarities of embeddings, and the reported six-digit scores, lie in [-1, 1]. |
| Embedding.HitsMeetScoreBound | src/enterprise_genai_platform/rag/models.py:46 | Every hit of an index of embeddings satisfies the hit model's bound. |
| Embedding.NormaliseNormalises | src/enterprise_genai_platform/rag/embedding.py:24-27 | Dividing by the magnitude leaves unit length; only the zero vector stays zero. |
| Embedding.EmbeddingIgnoresTokenOrder | src/enterprise_genai_platform/rag/embedding.py:18-27 | Texts with the same tokens in any order embed alike. |
| Embedding.LocalHashEmbedding.Accumulate | src/enterprise_genai_platform/rag/embedding.py:19-23 | The in-place loop leaves, position by position, the number of tokens whose digest's first four bytes, big-endian, fall there with an even fifth byte, less those with an odd one. |
| Embedding.LocalHashEmbedding.Embed | src/enterprise_genai_platform/rag/embedding.py:16-27 | The normalised counts, of unit or zero length: each component times the magnitude is the signed count of the tokens that land there. |
| FrontMatter.ParseInvertsPrint | src/enterprise_genai_platform/rag/ingestion.py:59-76 | Printing well-formed fields over trimmed content and parsing gives them back, breaks turned into line feeds, exactly when there are eight lines and twenty characters. |
| FrontMatter.RoundTrip | src/enterprise_genai_platform/rag/ingestion.py:59-76 | With five fields or more and twenty characters the round trip is exact if and only if the content's only line breaks are line feeds. |
| FrontMatter.CarriageReturnIsLost | src/enterprise_genai_platform/rag/ingestion.py:59-76 | Content with a carriage return comes back with a line feed: a concrete document. |
| FrontMatter.NormalisedExactly | src/enterprise_genai_platform/rag/ingestion.py:73 | Splitting into lines and joining leaves trimmed text alone exactly when its only breaks are line feeds. |
| FrontMatter.AcceptedIsWellFormed | src/enterprise_genai_platform/rag/ingestion.py:67-76 | Accepted headers are distinct, trimmed, non-empty and on one line, and content is trimmed and made of the document's characters. |
| FrontMatter.AcceptedIsFenced | src/enterprise_genai_platform/rag/ingestion.py:59-76 | An accepted document has eight lines or more, begins with a line of three dashes and has another; the content is what stands behind it, stripped, of twenty characters or more. |
| FrontMatter.ReprintExactly | src/enterprise_genai_platform/rag/ingestion.py:59-76 | Printing an accepted document parses to the same exactly when the print has eight lines. |
| FrontMatter.ShortReprintFails | src/enterprise_genai_platform/rag/ingestion.py:60-62 | A document of mostly blank lines is split, and its print is refused: a concrete document. |
| FrontMatter.AcceptedDocumentMeaning | src/enterprise_genai_platform/rag/ingestion.py:35-56 | An accepted document carries each header under its own name and the split content, is not prohibited, and has at least one role, none blank or padded. |
| FrontMatter.OutcomeExactly | src/enterprise_genai_platform/rag/ingestion.py:24-56 | Check by check, what becomes of a document: the first check that fails is reported, and one that passes them all carries the headers' values, the comma-separated roles without blanks, and the content. |
| FrontMatter.LineIsRead | src/enterprise_genai_platform/rag/ingestion.py:60 | A line ends at the first of the characters str.splitlines breaks at, a carriage return and line feed together being one. |
| FrontMatter.ReprintedDocumentIsSame | src/enterprise_genai_platform/rag/ingestion.py:24-56 | A document accepted whole, printed again, is accepted as the same document. |
| FrontMatter.ReadHeaders | src/enterprise_genai_platform/rag/ingestion.py:67-72 | The header loop computes the fields in order, or the error of the first invalid line. |
| Citations.IdAtCite | src/enterprise_genai_platform/rag/groundedness.py:51 | A printed citation is recognised whatever follows it. |
| Citations.ScanPartitions | src/enterprise_genai_platform/rag/groundedness.py:81-87 | An answer is its prose with exactly the found citations put back, each a valid id. |
| Citations.CitationIsLocal | src/enterprise_genai_platform/rag/groundedness.py:51 | A printed citation is found in any context, and the scanner treats what stands before and after it as if each stood alone. |
| Citations.RemovalLeavesCitationExactly | src/enterprise_genai_platform/rag/groundedness.py:87 | What removal leaves holds a citation exactly when a found citation was cut out from between an opening and a closing bracket around text that spells an id. |
| Citations.RemovalIsCleanOutsideBrackets | src/enterprise_genai_platform/rag/groundedness.py:87 | So removal is clean when no found citation stands inside an opened bracket. |
| Citations.RemovalCanLeaveCitation | src/enterprise_genai_platform/rag/groundedness.py:87 | Such text does occur: any id split around a citation in brackets. |
| Citations.ChunkIdsAreValid | src/enterprise_genai_platform/rag/factory.py:36 | Every chunk id of a policy document is one the scanner recognises. |
| Citations.PromptCitesEveryHit | src/enterprise_genai_platform/rag/synthesis.py:24-27 | Every hit's id is found in the synthesis prompt, whatever the evidence and the query contain. |
| Citations.Evaluate | src/enterprise_genai_platform/rag/groundedness.py:78-107 | The evidence loop and report compute the reference report, with the meaning below. |
| Citations.ReportMeaning | src/enterprise_genai_platform/rag/groundedness.py:80-101 | Cited are the ids found, fabricated those no hit carries; the score is the fraction of the prose's terms, maximal [a-z0-9] runs longer than two and no stop words, that some hit's text has too, to the nearest 1/10000; grounded means enough of it, some citation and none fabricated. |
| Citations.StopWordsScoreNothing | src/enterprise_genai_platform/rag/groundedness.py:54-56 | An answer sharing only stop words and words of at most two letters with the evidence scores 0. |
| Citations.SharedArticleScoresNothing | src/enterprise_genai_platform/rag/groundedness.py:54-56 | Such an answer, concretely: it shares the word the with the evidence, and nothing else. |
| Tokens.FindMeaning | src/enterprise_genai_platform/rag/groundedness.py:55 | The tokens are exactly the maximal runs of [a-z0-9] in the folded text. |
| Citations.OverlapInRange | src/enterprise_genai_platform/rag/groundedness.py:64-97 | The rounded score lies in [0, 1]. |
| Citations.MoreEvidenceNeverUngrounds | src/enterprise_genai_platform/rag/groundedness.py:78-107 | More evidence never lowers the score, adds no fabricated citation and never ungrounds an answer. |
| Citations.AppendingKnownCitation | src/enterprise_genai_platform/rag/groundedness.py:80-101 | Appending a known citation leaves the score alone and supplies exactly the missing citation. |
| TextOrder.SortedSetMeaning | src/enterprise_genai_platform/rag/groundedness.py:81-82 | Sorting a set of strings lists exactly its elements, in order, once each. |
| TextOrder.SortedSetIsUnique | src/enterprise_genai_platform/rag/groundedness.py:81-82 | That listing is unique, however the set was enumerated. |

## Left out

- HTTP routes, middleware, logging, tracing, metrics other than the pending gauge, JWT verification, the MCP servers and
  the Azure and OpenAI clients: foreign libraries, or easy members only.
- Workflows, specialist agents, the keyword router, skills, settings validation and deployment files.
- The database and Redis engines: a command, a script, a conditional update and a transaction's commit are single steps,
  row-level visibility and the reset of a transaction-local setting are taken as their semantics.
- Redis type errors for an approval id that spells an index key, failures of the rollback itself, commits whose fate is
  unknown, and the crash of a process between two commands (an unfinished call stays in flight).
- The order the databases give rows created at the same instant.
- Floating point: costs, scores and magnitudes are reals; rounding is half to even over reals.
- SHA-256, UUID generation, NFKC normalisation, UTF-8 decoding, the document size limit and case folding.
- Non-ASCII decimal digits in chunk and document ids.
- The constructors' validation of PII policies, content-safety policies and evaluator thresholds; thresholds are parameters.
- A PII analyzer that answers differently when it is shown the same text twice.
- U+001C to U+001F at the ends of an audit record's texts: stripped here as Python's `strip` does.
- The analyzer's own score threshold and entity list: detections are arbitrary, non-empty and in range.
- The field validation of the document, chunk and report models beyond what the parser itself checks.
- Azure's ranking: only its role filter, keys and upload guard are modelled; `search.in` is read as an exact match against
  the parts of the split list, and an empty list as one empty role.
- Chunking.ChunkDocument: watches the loop for a given number of rounds, as a method of the model must return even where
  the code does not; `Chunking.TerminatesExactly` says on which documents some number of rounds is enough.
- RedisStore.RedisApprovalStore.ListPending: is one uninterrupted listing; interleaved ones are `RedisStore.ListingIsSandwiched`.
- McpGateway.GovernedMcpGateway.Invoke: is one uninterrupted call; interleaved ones are the step machine's.
- ModelGateway.GovernedModelGateway.Generate: likewise, with the answers of each attempt given in advance.
- Embedding.LocalHashEmbedding.Embed: takes folded text and the exact magnitude as parameters.
