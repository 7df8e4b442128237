# SafeNestT: verified models of the security and investigation core

SafeNestT is an investigation service for several tenants. This project models the parts whose
correctness rests on whole runs rather than on single calls, and proves what those runs keep.

| file | models |
|---|---|
| `RateLimit.dfy` | the in-memory fixed-window limiter, over every trace of calls |
| `PostgresRateLimit.dfy` | the shared-row limiter as interleaved SQL statements of any number of workers |
| `AuditChain.dfy` | the hash-chained audit log and its verification |
| `ApiKeys.dfy` | the life of API keys, their audit ledger, and the SQL key check |
| `TenantSessions.dfy` | tenant contexts, row policies and sessions on a shared pool of backends |
| `InvestigationStatus.dfy`, `InvestigationRun.dfy` | the status machine, and `run_investigation` over a store whose sessions may raise |
| `Permissions.dfy` | authorisation of agents and guarded execution of tools |
| `Pipeline.dfy` | rate limit, permission and approval in layers |
| `Approval.dfy`, `Redaction.dfy` | the approval service; the recursive redactor |
| `Basics.dfy`, `Tables.dfy`, `Text.dfy` | shared vocabulary; tables that only grow; split, join and strip |

Each operation has a function on values that says what it does to the state; the classes hold
the state in fields and their methods are proved equal to those functions; the theorems are
about arbitrary sequences of operations. Instants are whole microseconds and come in as
parameters, so clocks may do anything unless a theorem says otherwise.

What the proofs bring out that the code or its documentation does not say:

- Opening a window spends one of its tokens, so n windows of time hold at most
  (n + 1) * limit - 1 allowed calls, and this is reached. Through the pipeline that is 19 a
  minute, which any permitted agent of LOW risk can reach.
- The two limiters answer alike if and only if no call lands exactly on a reset instant.
- Five fields of an audit event are hashed, joined by colons. Other columns can be rewritten
  unnoticed, the last rows can be cut off, and the hashed text pins the five columns exactly when
  none of them contains a colon and the actor is neither absent nor "None", which hash alike; the
  documentation says that tampering with any row shows.
- `rotate_key` revokes before it creates (its documentation says the reverse): if the new
  fingerprint is taken, the old key is lost.
- Findings are judged before their evidence is stored, so none that arrives without evidence
  is ever labelled EVIDENCE_SUPPORTED.
- A run returns exactly if none of its own sessions was faulty, nothing outside its handlers
  raised, the orchestrator's finding ids are free, and the investigation is not stored in a status
  from which none can start: ANALYZING, VERIFYING, CALCULATING_RISK or COMPLETED. One that stopped
  while being verified or scored can thus never be run again, and the error of an earlier failed
  run stays on a completed one.
- `key_inactive` is answered exactly for a key switched off without being revoked while the clock
  stands at or before its expiry; never, if the clock has not been later than it is now.
- What a tenant is told depends on other tenants exactly if one of its own inserts, let in by key
  and policy, meets an id that is taken only with them or only without them.
- A capability that matches a manifest can still be ill-formed, when the tool id is empty or
  starts with a dot or the action is empty or ends with one.
- The permission manager and the approval service file approvals under different ids, so a
  permitted request of MEDIUM risk or above can pass the pipeline exactly if the agent's id or the
  capability contains a dash.

Assumptions. SHA-256 is an arbitrary function with 64 hexadecimal digits; theorems about the
audit chain name the two strings that would collide. Argon2 verification accepts exactly the
key a hash was made from. Key fingerprints are arbitrary. Orchestrator, model, adapter and
provider outcomes are arbitrary. `uuid4` never repeats an id. PostgreSQL statements are atomic,
and the application role never bypasses row security.

## Model

| member | source | states |
|---|---|---|
| RateLimit.InMemoryRateLimiter.Check | safenestt/security/rate_limit.py:54-64 | a call opens a window when there is none or its reset instant has come, is denied on an empty one, and otherwise spends a token; the answer and the whole new table |
| RateLimit.WindowReplies | safenestt/security/rate_limit.py:54-64 | in one window opened at t the first `limit` calls are allowed, counting down, and all others denied; every answer names limit and reset instant |
| RateLimit.SlidingWindowBound | safenestt/security/rate_limit.py:54-64 | under a clock that never runs backwards, any span of n windows holds at most (n + 1) * limit - 1 allowed calls on a bucket |
| RateLimit.BurstAttainsBound | safenestt/security/rate_limit.py:58-64 | that bound is reached by a legal trace for every limit, window and n |
| RateLimit.BucketsDoNotInterfere | safenestt/security/rate_limit.py:56-60 | what the callers of one scope and key are told does not depend on any other calls |
| PostgresRateLimit.PostgresRateLimiter.InsertIfAbsent | safenestt/security/rate_limit.py:92-105 | the insert changes nothing when the row exists |
| PostgresRateLimit.PostgresRateLimiter.ResetIfExpired | safenestt/security/rate_limit.py:107-123 | the row is renewed exactly when its window start is more than one window before the caller's instant |
| PostgresRateLimit.PostgresRateLimiter.TakeToken | safenestt/security/rate_limit.py:125-136 | one token is taken and the row returned, or nothing happens when there is none |
| PostgresRateLimit.PostgresRateLimiter.Check | safenestt/security/rate_limit.py:85-163 | the statements in order, and the answer built from what they return |
| PostgresRateLimit.RowWindowReplies | safenestt/security/rate_limit.py:88-163 | the same for the shared row, up to and including the reset instant |
| PostgresRateLimit.RowWindowLeaves | safenestt/security/rate_limit.py:92-136 | what a window leaves in the row is what was not spent, with its start and reset instant |
| PostgresRateLimit.StepLedger | safenestt/security/rate_limit.py:92-136 | no statement of any worker loses or invents a token; a window start only moves at a reset, by more than a window; tokens stay in 0..limit |
| PostgresRateLimit.Ledger | safenestt/security/rate_limit.py:88-138 | over every interleaving, granted plus forfeited plus remaining tokens equal the initial ones plus one limit per reset |
| PostgresRateLimit.ConcurrentGrantBound | safenestt/security/rate_limit.py:68-79 | any workers, interleaving and clocks: grants are at most limit * (1 + span / window) for the span the window start has moved |
| PostgresRateLimit.DenialsFindTheirRow | safenestt/security/rate_limit.py:140-146 | the read after a failed decrement always finds a row |
| PostgresRateLimit.LoneWorker | safenestt/security/rate_limit.py:88-163 | a worker that runs alone gets the answer of Check |
| PostgresRateLimit.SerialSlidingBound | safenestt/security/rate_limit.py:88-138 | for calls one after another under a clock that never runs backwards, n windows hold at most (n + 1) * limit - 1 allowed calls, those on reset instants included |
| PostgresRateLimit.LimitersAgreeOffBoundary | safenestt/security/rate_limit.py:58-163 | the two limiters give equal answers throughout a trace if and only if no call lands on a reset instant |
| AuditChain.AuditEventRepository.Record | safenestt/persistence/repositories.py:285-313 | exactly if its id is free the event becomes the last row, linked to the row before; otherwise nothing happens; a sound log stays sound |
| AuditChain.LogHoldsWhatWasRecorded | safenestt/persistence/repositories.py:285-321 | events with different ids recorded on an empty log are the events of the log, in order, and it verifies |
| AuditChain.HashedText | safenestt/persistence/repositories.py:271-294 | the hashed string: the hash before or GENESIS, then the five fields with colons between them |
| AuditChain.AuditEventRepository.VerifyChainIntegrity | safenestt/persistence/repositories.py:333-355 | passes exactly when every row is linked; otherwise names the first row whose stored hash differs from the recomputed one |
| AuditChain.RecordingVerifies | safenestt/persistence/repositories.py:285-321 | after any events recorded one after another, every prefix of the log verifies |
| AuditChain.PreimageInjective | safenestt/persistence/repositories.py:271-276 | the hashed string determines the previous hash and the event text, the GENESIS case included |
| AuditChain.HeadPinsLog | safenestt/persistence/repositories.py:260-276 | two verified logs with the same last hash have the same length and texts, or their divergence is a collision |
| AuditChain.HashesDistinct | safenestt/persistence/repositories.py:343-353 | two rows of a verified log have different hashes, or a collision is named |
| AuditChain.RewriteDetected | safenestt/persistence/repositories.py:343-353 | a rewritten event fails at its own row, unless its text is unchanged or collides, and then passes |
| AuditChain.DeletionDetected | safenestt/persistence/repositories.py:343-353 | deleting the last row passes; deleting another fails exactly where it was, and passes only by the named collision |
| AuditChain.SwapDetected | safenestt/persistence/repositories.py:343-353 | exchanging two rows fails at the earlier one, or a collision is named |
| AuditChain.ColumnsPinnedExactlyWhen | safenestt/persistence/repositories.py:344 | the hashed text determines all five stored columns of an event, whatever the other event contains, exactly when none of them contains a colon and the actor is neither NULL nor "None" |
| AuditChain.AmbiguityUnnoticed | safenestt/persistence/repositories.py:344 | every other row of a verified log can be given different columns and the log still verifies |
| ApiKeys.APIKeyStore.CreateKey | safenestt/security/api_keys.py:119-162 | a new active key and its create row, or nothing on a malformed expiry or a taken fingerprint |
| ApiKeys.CreationStores | safenestt/security/api_keys.py:119-162 | the fields of the new row and of its create row; nothing on a malformed expiry or a taken fingerprint |
| ApiKeys.APIKeyStore.RevokeKey | safenestt/security/api_keys.py:164-186 | the first active row that verifies the key is revoked and logged |
| ApiKeys.RevocationMarks | safenestt/security/api_keys.py:170-186 | which row is marked, how, and what is logged; no other row changes |
| ApiKeys.APIKeyStore.ValidateKey | safenestt/security/api_keys.py:188-238 | revoked, expired and inactive keys are refused in this order and logged; otherwise the use is counted and logged |
| ApiKeys.ValidationAnswers | safenestt/security/api_keys.py:196-238 | the answer for the first row that verifies the key, what is counted and what is logged; an unknown key leaves no trace |
| ApiKeys.APIKeyStore.RotateKey | safenestt/security/api_keys.py:240-250 | validate, then revoke, then create, each committed on its own |
| ApiKeys.RotationLogs | safenestt/security/api_keys.py:240-250 | a rotation that goes through leaves three audit rows, the old row revoked, and the replacement without expiry |
| ApiKeys.APIKeyStore.CleanupExpiredKeys | safenestt/security/api_keys.py:292-316 | every active key past its expiry is switched off and logged, and they are counted |
| ApiKeys.CleanupSwitchesOff | safenestt/security/api_keys.py:292-316 | for every store exactly the active keys with an expiry before now are switched off, counted, and logged once each, in order, as the system |
| ApiKeys.LedgerConserved | safenestt/security/api_keys.py:156-316 | in every reachable store each key has one create row, as many validate_success rows as uses, one revoke row exactly if revoked, revoke plus cleanup rows 0 or 1 as it is active or not; fingerprints are unique |
| ApiKeys.RotationKeepsActiveKeys | safenestt/security/api_keys.py:240-250 | a rotation goes through exactly when the old key is accepted and the new fingerprint free; it adds one key and keeps the number of active ones; otherwise the exact loss |
| ApiKeys.RevocationIsFinal | safenestt/security/api_keys.py:119-316 | after a revocation or rotation, under any later operations, Python answers key_revoked and the SQL check never accepts |
| ApiKeys.SqlCheckAgrees | safenestt/persistence/migrate.py:79-90 | the SQL check accepts a key exactly when the Python check does and the clock is not exactly on its expiry |
| ApiKeys.InactiveExactlyWhen | safenestt/security/api_keys.py:201-220 | after any operations under any clocks, key_inactive is the answer exactly for a key switched off without revocation while the clock stands at or before its expiry |
| ApiKeys.InactiveNeverAnswered | safenestt/security/api_keys.py:201-220 | if the clock never was later than now key_inactive is never answered; keys switched off by cleanup answer key_expired |
| ApiKeys.InactiveAfterSettingBack | safenestt/security/api_keys.py:218-220 | any key that cleanup switched off is answered key_inactive exactly if the clock is set back to its expiry or before |
| TenantSessions.TenantDatabase.EstablishTenantContext | safenestt/persistence/migrate.py:68-105 | a live key of the tenant with this fingerprint puts the backend's context in place for an hour; otherwise it raises |
| TenantSessions.TenantDatabase.ClearTenantContext | safenestt/persistence/migrate.py:123-131 | the backend's context row is deleted |
| TenantSessions.TenantDatabase.ExecuteStatement | safenestt/investigations/store.py:54-244 | each store statement under the row policies: what it reads, inserts, updates, or why it is rejected |
| TenantSessions.TenantDatabase.SessionScope | safenestt/persistence/engine.py:107-135 | bind or clear the context, run, commit; on any failure everything is as before, the inherited context included |
| TenantSessions.PersistentInvestigationStore.Call | safenestt/investigations/store.py:46-52 | without credentials nothing is touched; otherwise one session |
| TenantSessions.OnlyWithLiveKey | safenestt/investigations/store.py:50-54 | without credentials or an accepted key nothing is done |
| TenantSessions.ReadsReturn | safenestt/investigations/store.py:79-244 | with a live key a tenant reads all its own investigations and no other, by id its own or none, and exactly the rows of an investigation of its own |
| TenantSessions.WritesStore | safenestt/investigations/store.py:50-195 | what each accepted write leaves in the tables and the context, which writes are rejected and why, and that those change nothing |
| TenantSessions.ContextlessRunsForNobody | safenestt/persistence/engine.py:124-129 | a session without credentials drops the inherited context and reads and changes only what names no tenant |
| TenantSessions.ForeignEvent | safenestt/persistence/rls.py:86-112 | no session of others, committed or rolled back, changes what a tenant can see |
| TenantSessions.InterferenceExactlyWhen | safenestt/persistence/rls.py:86-118 | what a tenant's calls return equals the run with all other sessions deleted if and only if none of its inserts meets an id taken in one of the two runs only |
| TenantSessions.NonInterference | safenestt/persistence/rls.py:86-118 | with globally fresh ids that never happens, so the two runs return the same |
| TenantSessions.SharedIdsInterfere | safenestt/persistence/models.py:31 | whenever another tenant creates an investigation first, the tenant's own creation under that id returns something else |
| TenantSessions.WriteThenRead | safenestt/investigations/store.py:50-244 | what a tenant writes on one backend it reads back on any other, whatever others do in between and under whatever ids, or its key is refused |
| TenantSessions.RetiredKeyLockedOut | safenestt/persistence/migrate.py:79-90 | a revoked or rotated key opens no session for any tenant, and the attempt changes nothing |
| InvestigationStatus.InvestigationRecord.Mark | safenestt/investigations/records.py:54-84 | a status is set exactly if the table lists it or it is the present one |
| InvestigationStatus.LeadsTo | safenestt/investigations/records.py:54-64 | for each status the statuses that lead to it |
| InvestigationStatus.CompletedIsAbsorbing | safenestt/investigations/records.py:61 | once completed, always completed |
| InvestigationStatus.CompletionIsEarned | safenestt/investigations/records.py:54-64 | completion follows VERIFYING then CALCULATING_RISK with nothing else since |
| InvestigationRun.InvestigationStore.UpdateInvestigation | safenestt/investigations/store.py:105-128 | exactly if the session is not faulty and the row is there, the status is persisted, and the error only if there is one |
| InvestigationRun.Evaluate | safenestt/investigations/reality.py:22-53 | EVIDENCE_SUPPORTED exactly if evidence is cited and all of it is stored for the investigation; raises exactly if a session does |
| InvestigationRun.GatherFromRun | safenestt/investigations/investigator.py:233-248 | one evidence row with a fresh id per call of status ALLOW of a run, in order, and none for any other call |
| InvestigationRun.GatherEvidence | safenestt/investigations/investigator.py:232-248 | the same over all runs in order |
| InvestigationRun.AllowedAcross | safenestt/investigations/investigator.py:232-234 | exactly the calls of status ALLOW are taken, each once, run by run and in order |
| InvestigationRun.CallsCounted | safenestt/investigations/investigator.py:225-226 | all tool calls are counted, allowed or not |
| InvestigationRun.ClaimSays | safenestt/investigations/investigator.py:252 | a finding claims its description, else its title, even an empty one, else a phrase of its own |
| InvestigationRun.MakeFinding | safenestt/investigations/investigator.py:228-259 | a finding cites what it cited before and then its own evidence, and is judged against what is already stored |
| InvestigationRun.BuildFindings | safenestt/investigations/investigator.py:228-259 | the findings in order, each with the next rows of the evidence list, ids ascending |
| InvestigationRun.AddClosing | safenestt/investigations/investigator.py:267-285 | the model's synthesis, cut to length, or the placeholder is stored, citing all evidence, and never as supported, and nothing else; with a fresh id only a fault stops it |
| InvestigationRun.Load | safenestt/investigations/investigator.py:116-127 | the record loaded, created, or put back in the queue, exactly if no session was faulty |
| InvestigationRun.Begin | safenestt/investigations/investigator.py:116-129 | RUNNING is persisted exactly if no session was faulty and the stored status allows a start |
| InvestigationRun.Fail | safenestt/investigations/investigator.py:137-159 | the error and FAILED are persisted and an empty result returned, exactly if no session was faulty |
| InvestigationRun.Complete | safenestt/investigations/investigator.py:287-293 | VERIFYING, CALCULATING_RISK and COMPLETED are persisted in turn, all of them exactly if no session was faulty |
| InvestigationRun.CourseOf | safenestt/investigations/investigator.py:131-219 | what raises, what is reported as an error and with which message, and what otherwise goes into findings |
| InvestigationRun.StatusesOf | safenestt/investigations/investigator.py:116-293 | the statuses a run persists for each start and course, and the row it leaves |
| InvestigationRun.RunInvestigation | safenestt/investigations/investigator.py:107-307 | returns if and only if no own session was faulty, the stored status allows a start, nothing outside the handlers raised and the finding ids are free; the exact statuses persisted and the row left; the exact rows that came to the evidence and finding tables, in order, aborted or not; without a fault of its own an aborted run leaves the investigation RUNNING |
| InvestigationRun.RunAdds | safenestt/investigations/investigator.py:219-285 | every row that a run adds, aborted or not, belongs to its investigation, and every citation it added to a stored finding resolves to stored evidence |
| InvestigationRun.RunInvestigations | safenestt/investigations/investigator.py:107-307 | over any list of runs histories stay walks and grow, a completed investigation never changes and all its later runs raise, returned statuses were persisted, every new row belongs to an investigation that was run, and every citation a run added to a stored finding resolves |
| InvestigationRun.EvidenceIsFindingsTimesCalls | safenestt/investigations/investigator.py:228-256 | evidence rows number findings times allowed calls, and the new citations in order are those rows |
| InvestigationRun.CitationsDisjoint | safenestt/investigations/investigator.py:230-248 | findings that arrived citing nothing share no evidence |
| InvestigationRun.CitationsResolve | safenestt/investigations/investigator.py:261-265 | every new citation names stored evidence of the same investigation |
| InvestigationRun.SupportedExactlyWhen | safenestt/investigations/investigator.py:257-263 | a finding is labelled EVIDENCE_SUPPORTED exactly if it arrived citing stored evidence only and no call was allowed |
| InvestigationRun.CompletedRun | safenestt/investigations/investigator.py:219-285 | a completed run whose findings arrive citing nothing: per finding one evidence row per call of status ALLOW, counts, order, disjoint and resolving citations, no EVIDENCE_SUPPORTED label |
| Permissions.PermissionManager.Authorize | safenestt/security/permissions.py:64-167 | the decision with its reason, and exactly one logged event |
| Permissions.RequiredIsCapability | safenestt/security/permissions.py:40-53 | the parsed permission is the capability itself, and parsing fails exactly for ill-formed ones |
| Permissions.AuthorizedExactlyWhen | safenestt/security/permissions.py:64-167 | allowed if and only if known, active, well-formed, granted itself or by "*", and approved from MEDIUM risk on |
| Permissions.DecisionExplained | safenestt/security/permissions.py:64-167 | the reason of every decision, the first condition that fails, with risk and approval id |
| Permissions.RiskByName | safenestt/security/permissions.py:126-131 | only the four names are levels; any other risk counts as LOW |
| Permissions.LoggedSays | safenestt/security/permissions.py:37-38 | what is logged about a decision, secrets blotted out and the log's own words never |
| Permissions.PermissionManager.RecordApproval | safenestt/security/permissions.py:172-177 | the decision is filed under its id and nothing else changes |
| Permissions.ToolInterface.Execute | safenestt/tools/interface.py:82-158 | the adapter is called, once, exactly when manifest, payload, agent, grant and approval all allow; what is returned in each case, and what is logged |
| Permissions.NormalisedReports | safenestt/tools/interface.py:122-147 | an adapter that threw or sent no dictionary is reported as an error, otherwise its status, success if it gave none, and its metadata with everything secret replaced at every depth |
| Permissions.ValidationExplained | safenestt/tools/interface.py:22-77 | why a call does not get past validation, in order |
| Permissions.MayRunExactlyWhen | safenestt/tools/interface.py:22-121 | those conditions on the plain capability string are what the two layers decide |
| Pipeline.SecurityPipeline.Authorize | safenestt/security/pipeline.py:36-90 | rate limit, permission, approval in this order; the whole new state |
| Pipeline.DecisionLeaves | safenestt/security/pipeline.py:36-90 | the kind of decision and what it leaves in limiter and logs, entry by entry |
| Pipeline.TenPassPerMinute | safenestt/security/pipeline.py:37-53 | of the requests on one rate key within a minute of the first ten pass the rate limit and every later one is told the end of that minute |
| Pipeline.LogsCount | safenestt/security/pipeline.py:39-90 | over any run the pipeline log counts the denials and the permission log the calls that passed the rate limit |
| Pipeline.AtMostNineteenPerMinute | safenestt/security/pipeline.py:37-39 | at most 19 allowed requests per agent and capability in any 60 seconds, however permissions and approvals change |
| Pipeline.NineteenReached | safenestt/security/pipeline.py:36-90 | any agent of LOW risk with a permission gets 19 requests through within one minute by a legal run |
| Pipeline.AllowedExactlyWhen | safenestt/security/pipeline.py:54-90 | allowed if and only if rate, permission and, from MEDIUM risk on, both approvals agree |
| Pipeline.SomeRunAllowsExactlyWhen | safenestt/security/approval.py:149 | some run of the approval service lets a request through if and only if it has a rate token and a permission and its risk is LOW or a dash occurs in the agent's id or the capability |
| Pipeline.RiskyRequestsNeverAllowed | safenestt/security/approval.py:149 | so for names without dashes no approval service run lets a request of MEDIUM risk or above through |
| Approval.InMemoryApprovalRepository.Transition | safenestt/security/approval.py:106-113 | only a pending record visible to the caller moves |
| Approval.ApprovalService.MakeRequest | safenestt/security/approval.py:148-161 | a pending record under the derived id, refused if the id is taken |
| Approval.ApprovalService.RecordDecision | safenestt/security/approval.py:163-166 | a pending record visible to the caller is decided with approver and metadata and returned; otherwise nothing |
| Approval.ApprovalService.AskApproved | safenestt/security/approval.py:168-177 | approved and not past its expiration; the store is never changed |
| Approval.RequestFiles | safenestt/security/approval.py:148-161 | every field of the filed record, or nothing if the id is taken |
| Approval.OnlyOpenRecordsMove | safenestt/security/approval.py:106-135 | what decisions, cancellations and expiries change, and in which records only |
| Approval.ApprovedMeans | safenestt/security/approval.py:168-177 | when a caller is told yes |
| Approval.DecisionsAreFinal | safenestt/security/approval.py:106-135 | a decided record never changes again in any field |
| Approval.ApprovalRunsOut | safenestt/security/approval.py:168-177 | after one positive answer later ones depend on the expiration alone |
| Approval.ApprovalNeverReturns | safenestt/security/approval.py:168-177 | an approval that has turned from yes to no never turns back |
| Approval.ApprovalNeedsDecision | safenestt/security/approval.py:115-121 | nothing is approved without a positive decision on that id |
| Redaction.LooksSecretExactlyWhen | safenestt/security/redaction.py:7-20 | exactly the strings in which one of the fourteen words can be read, in capitals or not |
| Redaction.Idempotent | safenestt/security/redaction.py:23-37 | redacting twice is redacting once |
| Redaction.RedactedAt | safenestt/security/redaction.py:23-37 | at every path: the marker right under the first secret-looking key, elsewhere the same kind, length and keys with only secret-looking strings replaced |
| Redaction.NothingSecretSurvives | safenestt/security/redaction.py:23-37 | at any depth no string looks secret and nothing but the marker stands under a secret-looking key |

## Left out

- AuditChain.AuditEventRepository.Record: the investigation id it derives, the resource columns, the metadata filter and the foreign key are not modelled, because none of them is hashed; an id taken is the only failure.
- ApiKeys.APIKeyStore.CreateKey: name, scopes and the generation of a key are not modelled; the key is a parameter.
- ApiKeys.APIKeyStore.ValidateKey: the code reads the clock twice within one call; the model reads it once.
- TenantSessions.TenantDatabase.ExecuteStatement: list results are sets, because the queries ask for no order; targets and data are kept as plain text instead of encrypted.
- TenantSessions.TenantDatabase.SessionScope: a session runs one statement, because every store call opens a session of its own.
- InvestigationRun.MakeFinding: two findings that share one evidence id list object would see each other's appended ids; lists are values here.
- InvestigationRun.AddClosing: the factors of the model's finding, its model and provider names, are not kept.
- InvestigationRun.RunInvestigation: risk calculation, prompts and the parsing of the case (`_case_context`) are not modelled; a parsing error counts as a failed preparation. A session whose commit is lost counts as one that raised.
- Permissions.PermissionManager.Authorize: the tool id in a decision and the metadata and time of logged events are not kept.
- Permissions.PermissionManager.RecordApproval: the metadata filed with an approval is not kept; no decision reads it.
- Permissions.ToolInterface.Execute: result data and warnings are passed through and not kept; an unknown risk name in a manifest raises in the code and is a refusal of its own here.
- Pipeline.SecurityPipeline.Authorize: resource ids and event metadata are not kept.
- Approval.ApprovalService.MakeRequest: the requester context is not kept; no operation reads it.
- Row locks and transaction isolation of PostgreSQL: statements of different workers may interleave freely in the limiter, which allows more than the database does; tenant sessions run one after another.
- Concurrent calls of record, rotate_key or run_investigation on the same object, which the code does not serialise.
- The audit_events policy, which shows rows without an investigation to every tenant; no store call reads them.
- Audit events of the store and of the pipeline beyond actor, action and decision.
- API endpoints, engine building, roles and grants, SSL, Argon2, Fernet and JSON internals, agents, adapters, providers and the orchestrator's own work.
- record_model_event, which passes a field that its event does not have.
