# A verified model of the mail control plane

The repository sends mail only under a human approval, keeps mailbox credentials sealed, runs agent tasks under a lease
per key, with one executor at a time and recorded results replayed, and authorizes every call from stored rows. What
makes this hard is not any one function: it is a set of small state machines that must stay right across retries,
crashes, concurrent instances and a moving clock. This project models those machines in Dafny and proves what they
promise over every run.

`dafny verify dfyconfig.toml` checks everything.

## How it is built

* **Records and stores.** `MailRecords` holds the records. `MemorySpec` says what each store operation does to plain
  maps, `RowSpec` what the conditional SQL statements do to rows. The classes `MailState.InMemoryMailState` and
  `MailStateStore.PostgresMailState` are the two implementations, proved against these;
  `TwinSimulation` and `TwinLogs` relate them operation by operation, `TwinStores` drives both objects side by side.
* **Guarded sending.** `Hashing`, `SendGuard`, `SendApprovals` and `MailAdapters` are the functions and the sequential
  programs. `SendProtocol` is the same protocol as atomic steps of any number of interleaved calls, with the provider's
  deliveries as ghost state; `SendVerdicts` shows which verdicts of a reconciler are safe and ties the steps to the
  sequential program; `SettledTruth` says when a settled status tells the truth about delivery; `ApprovalLife` follows
  one record.
* **Idempotency.** `Idempotency` is the record store, `LeaseProtocol` its use as a timed lease, `LeaseClients` any number
  of interleaved clients on top of it, `TaskExecution` the two clients of the repository, `DecisionCascade` what a task
  decides on the way, `TenantScopedStore` the keys.
* **OAuth and credentials.** `Base64`, `EnvelopeEncryption`, `CredentialVault`, `OAuthStates` and `GoogleConnect`.
* **Sessions and authorization.** `IdentityState`, `Permissions`, `AuthService`.
* **Smaller machines.** `ModelRouter`, `GoogleOAuthHttp`, `FollowupOutcomes`, `Contradictions`, `Migrations`.
  `Grouping` is the grouping by first occurrence that threads and outcomes share, `Separators` the texts joined by a
  separator that connection ids, membership keys and buckets share.

Instants are integers (milliseconds). A SHA-256 digest is a value that contains its preimage, so it is injective.
Encryption and key wrapping are functions assumed to be inverse pairs (`EnvelopeEncryption.Sound`; a toy instance shows
the assumption can be met). Random ids are fresh arguments. Whatever a call meets outside the code, be it the clock, a
provider's answer, a store that throws or an audit that cannot be persisted, is an argument of the method, so every
theorem speaks about every such answer.

## Where code and comments disagree

* `src/mail/security/sendApproval.ts:269` says that a disconnect revokes every approval not sent. The stores change only
  issued and sending records, so a retryable and unexpired one survives and can be claimed again
  (`ApprovalLife.DisconnectedCanSendIff`).
* `src/mail/sendGuard.ts:45` means to treat a rate limit as retryable. The client-rejection test before it matches 429
  as well, so that branch never runs (`SendGuard.NeverRetryable`).
* `src/mail/sendGuard.ts:36-39` means to settle only unambiguous rejections. Any free-standing 4xx number reads as one,
  a port in the text of a broken connection included (`SendGuard.TrailingNumberReadsAsRejection`), and the mail can be
  delivered under a record that says it failed for good (`SettledTruth.TerminalYetDelivered`).
* The two stores are described as twins. They differ at the expiry instant of an OAuth state, when an expiry falls
  between two readings of the clock, and on a few inputs of the plain inserts (`TwinSimulation.CallAgreesIff`).
* A begin reports an approval as expired only after its expiry instant, a claim refuses it at that instant
  (`SendApprovals.BeginAcceptsIff`).
* The idempotency window of an in-memory retry runs from the first grant, not from the retry
  (`LeaseProtocol.InMemoryRetryGrantedTwice`; `LeaseProtocol.SharedIffTakeover` says exactly when a key gets two executors).
* A replay whose record carries no value is treated as no replay: the call runs without a grant
  (`LeaseClients.EmptyReplayRuns`). No run of calls, leases kept or not, leaves such a record
  (`LeaseClients.ResultsAlwaysKept`).
* The key of a task keeps its tool from running twice at a time and after a recorded result, not from running again: a
  call that executes and then fails, as when its trace cannot be persisted, leaves the key to be granted again
  (`TaskExecution.TaskToolsCanRunTwice`; `LeaseClients.ToolsRunAgainOnlyAfterAnEnd` says that this is the only way).

## Model

| member | source | states |
|---|---|---|
| `SendProtocol.AtMostOnceDelivery` | src/mail/adapters/googleMailAdapter.ts:190-219 | over every interleaving of claims, crashes, settlements, reconciliations and disconnects, the provider delivers each approval at most once and never has two open calls for one, provided that "not delivered" is said only of ended calls that delivered nothing |
| `SendVerdicts.SecondDeliveryIff` | src/mail/security/sendApproval.ts:222-252 | that proviso is exact, clock included: from any live state, a "not delivered" verdict can be followed from that instant on, with true verdicts only, by a second delivery if and only if the current send is not over or did deliver, and the approval has not expired yet |
| `SendVerdicts.ReachedIsLive` | src/mail/security/sendApproval.ts:222-252 | every state reached with true verdicts only is live in this sense |
| `SendVerdicts.VerdictMustBeTrueOfEndedCalls` | src/mail/security/sendApproval.ts:222-252 | both kinds of bad verdict occur and lead at once to two deliveries: one given while the call is open and nothing is delivered yet, and a false one about a call that is over and delivered |
| `SendProtocol.DeliveredWasApproved` | src/mail/security/sendApproval.ts:119-187 | in every run, whatever reconcilers say, each delivered mail has an approval with a named approver, its own connection, a claim made before expiry, and the approved hashes |
| `SendProtocol.DeliveredIsWhatWasApproved` | src/mail/security/sendApproval.ts:157-168 | for well-formed messages the mail delivered has the subject and body that were approved, and its recipients pair off with the approved ones, each with the same address but for blanks around it and the case of its letters |
| `SendVerdicts.CallAloneIsSendMessage` | src/mail/adapters/googleMailAdapter.ts:190-219 | the interleaved steps of one call, refused, lost, unaudited or answered, run with nobody in between, leave exactly the approvals that the sequential adapter program leaves |
| `SendVerdicts.ReconcileAloneIsReconcileSend` | src/mail/security/sendApproval.ts:222-252 | the two steps of a reconciliation, with nobody in between, move a due record as the program does and nothing otherwise |
| `SendVerdicts.DisconnectAlone` | src/mail/security/sendApproval.ts:269-276 | a disconnect is possible at any time, ends what is issued or sending on its connection and touches nothing else of the world |
| `SendProtocol.SafeKept` | src/mail/mailState.ts:127-189 | each single step keeps the safety invariant: every attempt but the current one of its approval is over and delivered nothing, and a retryable record has no other kind |
| `SendProtocol.RecordsMove` | src/mail/mailState.ts:127-189 | what one step can do to one record: nothing, a claim under a fresh operation, or leaving its pending state; only a "not delivered" reconciliation of its own operation makes it retryable |
| `SendProtocol.SettleEffect` | src/mail/mailState.ts:148-167 | a settlement changes only the record whose current operation it names, and never its bound fields |
| `SettledTruth.SettledDeliversIff` | src/mail/adapters/googleMailAdapter.ts:202-218 | in every run with true verdicts so far: a record that says sent, failed for good or expired can have its mail delivered, by then or later, if and only if it names an operation whose send is not over or did deliver |
| `SettledTruth.TerminalYetDelivered` | src/mail/adapters/googleMailAdapter.ts:214-218 | such terminal failures occur: whatever text ends in ":443" is caught while the call is open, the record ends failed for good and the mail is delivered |
| `SendApprovals.ApprovalBindsMessage` | src/mail/security/sendApproval.ts:157-168 | with addresses that have no comma and are not blank and single-line subjects, both hash checks pass if and only if the recipients pair off, each with the same address but for blanks around it and letter case, and subject and body are equal |
| `SendApprovals.BeginAcceptsIff` | src/mail/security/sendApproval.ts:119-187 | a begin is accepted and its claim won if and only if scope, status, expiry and every bound field fit; at the very expiry instant the checks pass and the claim does not |
| `SendApprovals.RefusalByState` | src/mail/security/sendApproval.ts:124-147 | which approvals are refused for scope or state, and with which reason; only an issued or expired record is told expired |
| `SendApprovals.RefusalByField` | src/mail/security/sendApproval.ts:148-170 | and which inputs for a field, the first one that differs being named; two drafts differ only when both are named |
| `SendApprovals.Issue` | src/mail/security/sendApproval.ts:72-117 | an issued approval is bound to the message and approver given; if its audit event cannot be persisted it can never be claimed |
| `SendApprovals.BeginSend` | src/mail/security/sendApproval.ts:119-187 | each refusal with its reason and its effect on the record; otherwise exactly the store's claim, one audit event only if it is persisted, and no approval handed out without it |
| `SendApprovals.SettleSend` | src/mail/security/sendApproval.ts:195-215 | settlement by operation id, refused for any other operation, audited before it is reported |
| `SendApprovals.ReconcileSend` | src/mail/security/sendApproval.ts:222-252 | only a sending record with an operation id is moved, to sent or retryable, with the message id kept, and the decision is recorded even when its audit fails |
| `SendApprovals.ApprovalsNeedingReconciliation` | src/mail/security/sendApproval.ts:255-260 | the queue is exactly the claimed records untouched for a minute, each once, oldest first |
| `ApprovalLife.OneOperation` | src/mail/mailState.ts:120-190 | one store operation leaves a record as it was or moves it along one edge of the status graph; sending is entered only strictly before expiry and under the claimer's id, and left only by its own operation or a disconnect |
| `ApprovalLife.HistoryIsPath` | src/mail/mailState.ts:120-190 | the statuses a record goes through in any run form a path of the graph |
| `ApprovalLife.EveryPathIsAHistory` | src/mail/mailState.ts:120-190 | and at any instant before expiry every path of the graph is the history of some run, with a fresh operation id at each claim |
| `ApprovalLife.BindingNeverChanges` | src/mail/mailState.ts:120-190 | no run changes a bound field, and final records never change at all |
| `ApprovalLife.DisconnectClears` | src/mail/security/sendApproval.ts:269-276 | a disconnect makes whatever is issued or sending on its connection terminal, for good, and moves no other connection's record |
| `ApprovalLife.DisconnectedCanSendIff` | src/mail/mailState.ts:180-189 | a record of the connection can be sending at some time after the disconnect if and only if it was retryable and unexpired at that instant |
| `ApprovalLife.DisconnectLeavesClaimableIff` | src/mail/mailState.ts:180-189 | from the disconnect on some approval of the connection can be claimed if and only if one of its records was retryable and unexpired |
| `SendGuard.NeverRetryable` | src/mail/sendGuard.ts:40-49 | no error text is classified as retryable or delivered; it is terminal exactly when a four and two digits stand in it with no letter, digit or underscore beside them, 429 included |
| `SendGuard.HttpFailureVerdict` | src/mail/sendGuard.ts:40-49 | the text an adapter raises for an HTTP status, whatever its provider is called, is terminal for every 4xx and ambiguous for every other number |
| `SendGuard.TrailingNumberReadsAsRejection` | src/mail/sendGuard.ts:40-49 | every text that ends in three digits starting with a four, set off from what precedes, is settled as a terminal rejection, a port number included |
| `MailAdapters.SendMessage` | src/mail/adapters/googleMailAdapter.ts:190-219 | the provider is called only with the record durably sending under this call's operation; success ends sent with the provider's message id, an unambiguous rejection terminal, anything else as claimed; the caller is told that very message id if and only if the provider accepted and the settlement was audited, and otherwise the text or settlement error thrown last; without a call the record is as the refusal or the claim left it |
| `MailAdapters.ListThreads` | src/mail/adapters/microsoftGraphAdapter.ts:126-140 | one thread per conversation, none missing and none twice, in order of first messages and titled by them; a message without a conversation goes by its own id |
| `MailAdapters.EveryConversationOnce` | src/mail/adapters/microsoftGraphAdapter.ts:132-139 | that grouping by first occurrence covers every message and repeats no conversation |
| `Hashing.RecipientHashBinds` | src/mail/security/hashing.ts:10-16 | equal recipient hashes if and only if the normalised recipients are the same multiset, for comma-free non-empty addresses |
| `Hashing.CommaBreaksRecipientBinding` | src/mail/security/hashing.ts:10-16 | the comma condition is needed for every list: two or more recipients hash like the one address that is their joined text |
| `Hashing.BodyHashBinds` | src/mail/security/hashing.ts:19-21 | for single-line subjects, equal body hashes if and only if subject and body are equal |
| `Hashing.BodyHashUniqueIff` | src/mail/security/hashing.ts:19-21 | without that condition: a subject and body share their hash with no other pair exactly when their joined text has a single place to split |
| `Hashing.SortedPermutationUnique` | src/mail/security/hashing.ts:10-16 | two sorted lists with the same elements are the same list, so sorting forgets the order of recipients and nothing else |
| `Hashing.SortSorts` | src/mail/security/hashing.ts:10-16 | the sort yields an ordered list |
| `Hashing.SplitJoin` | src/mail/security/hashing.ts:10-16 | splitting the joined recipients gives them back when none contains a comma |
| `Hashing.NormalizeForgets` | src/mail/security/hashing.ts:10-16 | normalisation keeps the core between surrounding blanks, lower-cased, and is idempotent; an address of blanks becomes empty |
| `Hashing.EveryAddressHasACore` | src/mail/security/hashing.ts:10-16 | every address is blanks around such a core |
| `Hashing.SameAddressIff` | src/mail/security/hashing.ts:10-16 | two addresses are taken for one if and only if their cores have one length and agree character by character up to the case of ASCII letters |
| `Hashing.SameRecipientsIff` | src/mail/security/hashing.ts:10-16 | two lists have the same normalised recipients if and only if they pair off, each with the same address as its partner |
| `MailState.InMemoryMailState.Claim` | src/mail/mailState.ts:127-147 | claims under the given operation exactly an issued or retryable record strictly before its expiry |
| `MailState.InMemoryMailState.Settle` | src/mail/mailState.ts:148-167 | moves exactly a sending record with this operation id, and otherwise reports why not |
| `MailState.InMemoryMailState.Expire` | src/mail/mailState.ts:168-172 | expires exactly an issued record |
| `MailState.InMemoryMailState.InvalidateForConnection` | src/mail/mailState.ts:180-189 | makes terminal exactly the issued and sending records of the connection, in one pass |
| `MailState.InMemoryMailState.ConsumeState` | src/mail/mailState.ts:49-66 | spends exactly an unused, unexpired state presented with its own redirect and session; every refusal names its reason and changes nothing |
| `MailState.InMemoryMailState.TouchAfterRefresh` | src/mail/mailState.ts:88-96 | updates a live credential of the scope and never revives a revoked one |
| `MailState.InMemoryMailState.RevokeCredential` | src/mail/mailState.ts:97-105 | overwrites the envelope of a live credential of the scope and marks it revoked |
| `MailState.InMemoryMailState.NeedingReconciliation` | src/mail/mailState.ts:173-179 | the stuck records, each once, oldest first |
| `MailStateStore.PostgresMailState.ClaimApproval` | src/persistence/postgres/mailStateStore.ts:335-357 | claims, on the records its rows stand for, exactly as the plain-map claim does, reply included |
| `MailStateStore.PostgresMailState.SettleApproval` | src/persistence/postgres/mailStateStore.ts:358-399 | settles those records, and reports every refusal, exactly as the plain map does, although the reason comes from a second read |
| `MailStateStore.PostgresMailState.ConsumeState` | src/persistence/postgres/mailStateStore.ts:93-137 | spends a state exactly when it is unused, strictly before its expiry and presented with its own redirect and session; replies as the plain map does if and only if the two do not split, and a refusal changes nothing |
| `MailStateStore.PostgresMailState.ExpireApproval` | src/persistence/postgres/mailStateStore.ts:400-411 | expires exactly what the plain-map operation expires |
| `MailStateStore.PostgresMailState.InvalidateForConnection` | src/persistence/postgres/mailStateStore.ts:422-432 | one update over all rows does what the loop over the Map does |
| `MailStateStore.PostgresMailState.RevokeCredential` | src/persistence/postgres/mailStateStore.ts:255-263 | revokes, on the records its rows stand for, what the plain-map operation revokes |
| `MailStateStore.PostgresMailState.TouchCredential` | src/persistence/postgres/mailStateStore.ts:226-254 | either of its two updates does what the plain-map operation does, and revives no revoked row |
| `TwinStores.Beside` | src/persistence/postgres/mailStateStore.ts:93-137 | one operation on both stores side by side gives equal replies if and only if it is not a splitting consume, and then leaves them mirrored |
| `TwinStores.BesideAll` | src/mail/mailState.ts:23-190 | a whole run side by side agrees operation by operation up to the first splitting consume |
| `TwinSimulation.CallAgreesIff` | src/persistence/postgres/mailStateStore.ts:71-432 | one call on approvals, states, credentials or connections gives equal replies and mirrored states in both implementations if and only if it is none of the listed inputs: a splitting consume, an existing id inserted, an empty draft id, a credential or connection saved over one with another scope, user, provider or address, or a connection with another kind of authorization |
| `TwinSimulation.RunsIndistinguishable` | src/mail/mailState.ts:23-240 | no run of such calls can tell the two implementations apart |
| `TwinSimulation.ApprovalCallsAgree` | src/persistence/postgres/mailStateStore.ts:335-431 | claim, settle, expire and invalidate agree on every input, reasons included |
| `TwinSimulation.CredentialCallsAgree` | src/persistence/postgres/mailStateStore.ts:202-266 | touch, revoke, delete and scoped reads agree on every input |
| `TwinSimulation.ConsumeAgreesIff` | src/persistence/postgres/mailStateStore.ts:93-137 | consume splits exactly for an acceptable state at its expiry instant, or when the expiry falls between the two readings of the clock; with one reading, only where the map accepts and the table answers already used |
| `TwinLogs.UpsertAgreesIff` | src/persistence/postgres/mailStateStore.ts:269-299 | after one health upsert both stores answer every scoped read alike if and only if the record was new or kept its scope |
| `TwinLogs.ReconciliationListsAgree` | src/persistence/postgres/mailStateStore.ts:443-452 | reading reconciliation records back by instant and id gives what the stable sort of the insertion order gives |
| `TwinLogs.AuditReadsAgreeIff` | src/persistence/postgres/mailStateStore.ts:495-511 | the audit trail reads back in insertion order if and only if events were appended in the order of their instants and ids |
| `TwinLogs.AuditOrder` | src/persistence/postgres/mailStateStore.ts:495-511 | the order of the trail goes by instants and puts exactly one of any two entries first |
| `LeaseProtocol.LeaseExclusionAndStableReplay` | src/persistence/idempotencyStore.ts:51-338 | on either backend, if nobody executes longer than one window after its lease began: one executor per key in every run, a recorded result is final, later calls with the same payload get it and others are refused |
| `LeaseProtocol.DurableLeaseExclusion` | src/persistence/idempotencyStore.ts:178-220 | on the durable path it is enough to record within one window of one's own grant |
| `LeaseProtocol.SharedIffTakeover` | src/persistence/idempotencyStore.ts:83-94 | on either backend one step gives a key a second executor if and only if it is the same request asking after the executor's window has passed |
| `LeaseProtocol.ExclusionLostIff` | src/persistence/idempotencyStore.ts:51-220 | over whole runs exclusion is lost if and only if some step is such a takeover |
| `LeaseProtocol.OverwriteNeedsTakeover` | src/persistence/idempotencyStore.ts:249-266 | a recorded result is overwritten only after a takeover |
| `LeaseProtocol.SharedCanOverwrite` | src/persistence/idempotencyStore.ts:249-266 | and once two executors hold one key they can overwrite a result without any further grant |
| `LeaseProtocol.InMemoryRetryGrantedTwice` | src/persistence/idempotencyStore.ts:71-81 | in memory it is not: a retry after a failure keeps the old instant, and two prompt callers hold one key |
| `LeaseProtocol.LateFailureOverwrites` | src/persistence/idempotencyStore.ts:306-338 | without the lease assumption a late failure overwrites another executor's result |
| `LeaseProtocol.CompletedFrozen` | src/persistence/idempotencyStore.ts:249-266 | while every executor holds its lease, no step changes a completed record |
| `Idempotency.GrantIff` | src/persistence/idempotencyStore.ts:59-109 | a key is granted exactly to a new request, to the same request after a failure, or after more than five silent minutes; a grant leaves a fresh record in progress, which keeps its old instant only for an in-memory retry of a failure, and any other answer leaves the records as they were |
| `Idempotency.AnswerMeans` | src/persistence/idempotencyStore.ts:59-95 | another payload under the key is told apart from the same request still at work, and a replay carries the recorded payload |
| `Idempotency.OutcomeWrites` | src/persistence/idempotencyStore.ts:249-266 | an outcome goes to the record of its key and to no other, with status, payload and instant, and leaves its request |
| `Idempotency.IdempotencyStore.EnsureIdempotentExecution` | src/persistence/idempotencyStore.ts:111-247 | both backends decide alike on the scoped key, and an invalid scope or a missing database changes nothing |
| `Idempotency.IdempotencyStore.EnsureInMemory` | src/persistence/idempotencyStore.ts:51-109 | the in-memory branch order, and which instant a granted record carries |
| `Idempotency.IdempotencyStore.MarkCompleted` | src/persistence/idempotencyStore.ts:268-296 | the result is written under the scoped key whatever the record's status |
| `Idempotency.IdempotencyStore.RecordIdempotentFailure` | src/persistence/idempotencyStore.ts:306-338 | the failure likewise |
| `TenantScopedStore.PlainScopesInjective` | src/persistence/tenantScopedStore.ts:40-48 | colon-free tenants and workspaces: equal scoped keys come from equal scopes and keys, for all keys |
| `TenantScopedStore.TenantNamedScopesInjective` | src/persistence/tenantScopedStore.ts:40-48 | the same for workspaces named tenant:suffix |
| `TenantScopedStore.ScopesCollideIff` | src/persistence/tenantScopedStore.ts:40-48 | for any two scopes, some keys collide if and only if one prefix starts the other |
| `TenantScopedStore.MixedScopesCollideIff` | src/persistence/tenantScopedStore.ts:40-48 | a plain scope and a tenant-named one share keys if and only if the plain workspace carries the tenant's own name |
| `TenantScopedStore.ScopedKeyMeans` | src/persistence/tenantScopedStore.ts:40-48 | which scopes are refused and for which segment, and the key otherwise |
| `TenantScopedStore.BucketsApart` | src/persistence/tenantScopedStore.ts:21-23 | for tenants with equally many colons in their ids one bucket is one scope, and unscoped calls have their own |
| `LeaseClients.FirstCallerAndReplaysAgree` | src/persistence/idempotencyStore.ts:268-304 | over every interleaving of calls that keep their leases: all returns for a key carry the same value, to the same request; no tool runs for it after the first of them; only granted calls work; completed records carry values |
| `LeaseClients.GuardedAlways` | src/application/decision-engine/runAaliyahTask.ts:178-210 | if work that needs a human plans no tools, none ever runs for it, retries and late calls included |
| `LeaseClients.ToolsNeedGrant` | src/application/decision-engine/runAaliyahTask.ts:88-97 | tools run exactly under a grant or on an empty replay; records that carry their values stay so and give no empty replay |
| `LeaseClients.EmptyReplayRuns` | src/application/decision-engine/runAaliyahTask.ts:92-95 | a call acts without a grant if and only if it would act and its request's completed record carries no value |
| `LeaseClients.ResultsAlwaysKept` | src/persistence/idempotencyStore.ts:268-304 | in every run of calls, leases kept or not, completed records carry their values, so no replay is empty |
| `LeaseClients.ToolsRunAgainOnlyAfterAnEnd` | src/application/decision-engine/runAaliyahTask.ts:312-320 | while leases are kept, between any two tool runs of one key the call that ran the first one failed or died without a result |
| `LeaseClients.EndAbandons` | src/application/decision-engine/runAaliyahTask.ts:312-320 | every such end leaves the key to nobody, its record failed or in progress |
| `LeaseClients.AbandonedCanActAgain` | src/persistence/idempotencyStore.ts:71-94 | and conversely such a key is granted again, at once after a failure or after the window otherwise, and the same request acts again; no lease is broken unless another call's window ends before, or the retry in memory keeps a start already out of its window |
| `LeaseClients.AloneIsCallAlone` | src/application/decision-engine/runAaliyahTask.ts:74-321 | the interleaved steps of one call, run with nobody in between, leave the records and give the answer of the sequential program, and run a tool exactly when it does |
| `TaskExecution.TaskRunsAgree` | src/application/decision-engine/runAaliyahTask.ts:74-321 | in every run of task calls no tool runs for a task that needs a human; and while leases are kept every return for a task gives the first one's value and no tool runs afterwards |
| `TaskExecution.TaskToolsCanRunTwice` | src/application/decision-engine/runAaliyahTask.ts:259-320 | two calls of one task run its tool twice, every lease kept, whenever the first executes and then fails |
| `TaskExecution.RunAaliyahTask` | src/application/decision-engine/runAaliyahTask.ts:74-321 | one call is one such client call with the task's plan: a normal return is the value replayed or just recorded, every throw after a grant leaves the record failed and carries the text of the first failure; tools run only under a grant (given records that carry their values), outside shadow mode, on evidence without contradictions and of quality 70 and a candidate without blockers and of downside at most 60 (above the reading tier), never for the tiers that need a human, and on the automatic tier only with a score of 85 and a margin of 10 |
| `TaskExecution.CallTwice` | src/application/decision-engine/runAaliyahTask.ts:88-95 | what the first of two calls in a row returned the second returns, without running a tool |
| `DecisionCascade.DecidedMeans` | src/application/decision-engine/runAaliyahTask.ts:108-312 | the decision is the one evidence, blockers, contradictions, quality, downside risk, tier, score, margin, shadow mode and tool call for, threshold by threshold; a failure has the text of the first service to fail; what executes has passed all of them and needs no person |
| `DecisionCascade.RunCascade` | src/application/decision-engine/runAaliyahTask.ts:108-312 | the cascade, await by await, comes to exactly that decision, and executes only what is cleared |
| `DecisionCascade.BuildEvidenceWithPolicy` | src/application/decision-engine/runAaliyahTask.ts:51-72 | the evidence used meets the bar of its tier and is that of the first build, or of the second when the first is worth retrying; otherwise the complaint is about the build that counted |
| `DecisionCascade.RetriedIff` | src/services/handleFailure.ts:1-23 | of the complaints about built evidence only the missing sources are worth a second build; of thrown texts exactly those that mention a timeout or missing evidence and neither a credential nor, for the latter, a bad source |
| `DecisionCascade.BuildOnce` | src/services/buildEvidence.ts:33-52 | evidence is accepted exactly when its tier raises no complaint |
| `TaskExecution.RunInboundDraft` | src/application/inbound/runInboundDraft.ts:66-194 | one call is one such client call with the message's plan: at most one draft, none without a grant (given records that carry their values) or a usable store, and the outcome recorded under the message's key before it is returned; under a grant, when it succeeds, with what, and the text of the first failure |
| `TaskExecution.DraftRunsAgree` | src/application/inbound/runInboundDraft.ts:66-194 | over every in-lease run of inbound calls all returns for a message agree, no draft follows the first of them, and a further one before it only after the call of the last has failed or died |
| `GoogleConnect.AllOrNothing` | src/mail/google/googleConnect.ts:102-214 | for every point of failure: credential and connection both there, with every field as identified and the token readable, or neither, or both stores untouched before the mailbox is known; nothing under another id moves |
| `GoogleConnect.MailboxesApart` | src/mail/google/googleConnect.ts:146-213 | where the owners of all flows have ids of one shape, colon-free ones for instance: after any run, a callback, connecting or rolling back, moves the connection and credential of one mailbox of one user of one workspace, and of no other tenant, workspace, user or mailbox |
| `GoogleConnect.OthersKept` | src/mail/google/googleConnect.ts:146-213 | the one-step form, for any stores in which everything is under the id of its own owner, which a callback keeps so |
| `GoogleConnect.ConnectionIdsDiffer` | src/mail/adapters/helpers.ts:15-23 | with equally many colons in the ids, equal connection ids come from equal scopes, users and addresses |
| `GoogleConnect.HandleGoogleCallback` | src/mail/google/googleConnect.ts:102-214 | the callback with its rollback has exactly that outcome, store call by store call, and a failed one hands Google exactly the token it left behind |
| `GoogleConnect.Persist` | src/mail/google/googleConnect.ts:156-213 | saves, audit and rollback: committed if and only if every later step is quiet, otherwise both records are gone |
| `GoogleConnect.Identify` | src/mail/google/googleConnect.ts:116-154 | the one-time state is spent first; nothing is stored before the mailbox is known |
| `GoogleConnect.IdentifiedFrom` | src/mail/google/googleConnect.ts:116-154 | after an accepted state, which failure comes of which answer, in the order of the checks, and what is known when none does |
| `GoogleConnect.UnpresentedRejected` | src/mail/google/googleConnect.ts:118-124 | a state that is unknown, spent, late, of another session or redirect, or that does not open, is rejected as such |
| `GoogleConnect.GivenBack` | src/mail/google/googleConnect.ts:135-140 | a failed callback gives back the access token when no refresh token came with it, the refresh token after any later failure, and nothing before the exchange |
| `GoogleConnect.CallbackNotReplayable` | src/mail/google/googleConnect.ts:102-214 | a callback whose state was accepted can never be presented again, whatever became of it and whatever runs in between |
| `GoogleConnect.ConnectedMeansUsable` | src/mail/google/googleConnect.ts:280-330 | over all sequential runs of starts, callbacks, refreshes and disconnects every stored connection has an unrevoked credential in its own scope whose token opens |
| `GoogleConnect.DisconnectGoogle` | src/mail/google/googleConnect.ts:280-330 | credential revoked, jobs stopped, approvals invalidated, connection deleted; which token is revoked at Google, and when the audit can fail the call |
| `GoogleConnect.DisconnectDestroysIff` | src/mail/google/googleConnect.ts:280-330 | a usable credential survives a disconnect if and only if the call named a scope other than the credential's |
| `OAuthStates.OneTimeAndPkceConsistent` | src/mail/security/oauthStateStore.ts:90-112 | in any interleaving a state is consumed at most once, under its own redirect and session and in time, and yields the verifier whose S256 challenge was sent, both 43 URL-safe characters (sections 4.1 and 4.2 of RFC 7636) |
| `OAuthStates.RefusalChangesNothing` | src/mail/mailState.ts:49-66 | a refused attempt leaves every state as it is |
| `OAuthStates.CreateOAuthState` | src/mail/security/oauthStateStore.ts:39-74 | one new record under the hash of the value handed out, bound to scope, user, session and redirect, for ten minutes by default, with the verifier sealed and the S256 challenge of it returned |
| `OAuthStates.ConsumeOAuthState` | src/mail/security/oauthStateStore.ts:90-112 | the state is spent before its verifier is opened, and the errors are told apart |
| `CredentialVault.VaultRefinesPlainMap` | src/mail/security/credentialVault.ts:19-84 | over any run of saves, refreshes, revocations and deletions, reading the token gives exactly what a plain map would: the last token sealed, if unrevoked, in scope and under the same key id, and an error otherwise |
| `CredentialVault.RevokedStays` | src/mail/mailState.ts:88-105 | no refresh or second revocation changes a revoked credential |
| `CredentialVault.SaveMailCredential` | src/mail/security/credentialVault.ts:19-47 | a sealed, unrevoked record with the given owner, scopes and expiry is stored, and nothing if wrapping fails |
| `CredentialVault.ReadRefreshToken` | src/mail/security/credentialVault.ts:58-68 | the token of the scope's unrevoked credential, or the reason there is none |
| `EnvelopeEncryption.SealOpens` | src/crypto/envelopeEncryption.ts:39-69 | what is sealed opens to itself under its wrapper and to nothing under another key id |
| `EnvelopeEncryption.OpenMeans` | src/crypto/envelopeEncryption.ts:53-69 | why an envelope does not open, reason by reason |
| `EnvelopeEncryption.GcmRoundTrip` | src/crypto/envelopeEncryption.ts:23-37 | nonce, then tag, then data: laid out so and taken apart alike |
| `EnvelopeEncryption.LocalMasterInverts` | src/crypto/envelopeEncryption.ts:71-81 | the local master wrapper undoes its own wrapping |
| `EnvelopeEncryption.EnvelopeSeal` | src/crypto/envelopeEncryption.ts:39-51 | the data-key buffer is wiped on every path, and the envelope is that of the key before the wipe |
| `EnvelopeEncryption.EnvelopeOpen` | src/crypto/envelopeEncryption.ts:53-69 | the very buffer the unwrapped key came in is wiped, also when authentication fails, and the text returned is that of the key before the wipe |
| `Base64.RoundTrip` | src/crypto/envelopeEncryption.ts:39-69 | base64 text decodes to the bytes it was made from, for every length |
| `Base64.AlphabetIsTable1` | src/crypto/envelopeEncryption.ts:39-69 | the sixty-four characters are those of table 1 of RFC 4648 |
| `Base64.CutIsBigEndian` | src/crypto/envelopeEncryption.ts:39-69 | each group of four is the twenty-four bits of its three bytes, most significant first, a short last group padded with zero bits |
| `Base64.B64UrlShape` | src/mail/security/oauthStateStore.ts:19-21 | 32 bytes become 43 characters of the URL-safe alphabet |
| `Base64.B64UrlIsTable2` | src/mail/security/oauthStateStore.ts:19-21 | the URL form is the standard one without padding, with hyphen and underscore in place of plus and slash |
| `Base64.B64UrlInjective` | src/mail/security/oauthStateStore.ts:19-21 | different bytes of one length become different strings |
| `AuthService.RefusedForever` | src/auth/authService.ts:92-104 | a token refused for revocation, expiry or idleness is refused at every later time, whatever calls are made meanwhile |
| `AuthService.EndedForGood` | src/auth/authService.ts:173-200 | a logout, a rotation or a revocation of all the user's sessions ends the token: it is refused in every later state, whatever calls follow |
| `AuthService.DeadStaysDead` | src/auth/identityState.ts:75-97 | no touch, rotation, logout or mass revocation brings a dead session back |
| `AuthService.AcceptancesAreTimely` | src/auth/authService.ts:68-104 | in every run each acceptance lies before creation plus the absolute limit and at most one idle limit after the previous one |
| `AuthService.ResolveSession` | src/auth/authService.ts:92-104 | a session resolves exactly when some session has the digest, is unrevoked, before its end and within its idle limit, and its user is active; then its last-seen instant moves, and otherwise nothing changes |
| `AuthService.IssueSession` | src/auth/authService.ts:68-90 | one new session with its digest, limits and instants |
| `AuthService.RotateSession` | src/auth/authService.ts:186-200 | on success the old token resolves at no later instant under any limits and the new one resolves at once; the new session has the same user, tenant and strength and fresh limits, and every other session stays as it was; otherwise nothing changes |
| `AuthService.Logout` | src/auth/authService.ts:173-178 | afterwards the token resolves at no instant under any limits, and every session of another token stays as it was |
| `AuthService.UserAuthorizationIsMembership` | src/auth/authService.ts:203-232 | for a session's principal authorization succeeds if and only if the user has an active row in that tenant and workspace with a role id that the table gives the permission; the flat roles are never consulted |
| `AuthService.ServiceAuthorizationIsGrants` | src/auth/authService.ts:233-249 | for a service principal it succeeds if and only if its stored permission ids name the permission, its workspaces the workspace, and the permission is reading, testing or approving |
| `AuthService.NobodyMaySend` | src/auth/permissions.ts:23-64 | in no state does any token authorize mail.send.execute |
| `AuthService.PrincipalForToken` | src/auth/authService.ts:203-249 | the principal's workspaces, per-workspace roles and flat roles are those of the active rows, and only an active service of a tenant stands in otherwise |
| `AuthService.CollectRoles` | src/auth/authService.ts:212-224 | the loop over rows gives each workspace the recognised roles of its row |
| `AuthService.RegisterServiceIdentity` | src/auth/authService.ts:253-280 | registration is refused exactly for a grant to connect, disconnect or send, naming the first, and then stores nothing; otherwise the service is stored as given |
| `Permissions.PermissionsOfRolesIff` | src/auth/permissions.ts:23-43 | a role list grants a permission exactly when one of its roles does |
| `Permissions.RoleIdGrantsIff` | src/auth/permissions.ts:23-43 | for each permission, the stored role ids that grant it |
| `Permissions.DenialMeans` | src/auth/permissions.ts:50-64 | why a request is denied: another tenant first, then a foreign workspace, then the permission |
| `IdentityState.InMemoryIdentity.GrantMembership` | src/auth/identityState.ts:52-57 | one membership row is set; rows of another user, tenant or workspace stay, for ids with equally many bars in them |
| `IdentityState.MembershipKeysDiffer` | src/auth/identityState.ts:27-28 | one key means one user, tenant and workspace, for ids with equally many bars in them |
| `IdentityState.InMemoryIdentity.SetMembershipStatus` | src/auth/identityState.ts:63-73 | only the status and stamp of one row move, and only a revocation stamps |
| `IdentityState.InMemoryIdentity.ListActiveForUser` | src/auth/identityState.ts:58-62 | exactly the user's active rows of the tenant, each once, in order of their workspace ids |
| `IdentityState.InMemoryIdentity.GetByTokenHash` | src/auth/identityState.ts:79-81 | the one session with this digest, if any |
| `IdentityState.InMemoryIdentity.FindActiveByCredentialHash` | src/auth/identityState.ts:103-109 | the one active service with this digest, if any |
| `IdentityState.InMemoryIdentity.TouchSession` | src/auth/identityState.ts:82-85 | only the last-seen instant of one session moves |
| `IdentityState.InMemoryIdentity.RevokeSession` | src/auth/identityState.ts:86-89 | the session is stamped revoked, an earlier stamp being kept, and no other session moves |
| `IdentityState.InMemoryIdentity.RevokeAllForUser` | src/auth/identityState.ts:90-97 | every unstamped session of the user is stamped, and nothing else changes |
| `ModelRouter.ProviderHealthTracker.IsHealthy` | src/model-router/providerHealth.ts:42-44 | a provider is unhealthy exactly when its last threshold calls in the full history all failed and the last of them is less than a cooldown ago |
| `ModelRouter.ProviderHealthTracker.RecordFailure` | src/model-router/providerHealth.ts:52-58 | the stored pair keeps telling the full history of every provider |
| `ModelRouter.ProviderHealthTracker.RecordSuccess` | src/model-router/providerHealth.ts:46-50 | likewise after a success |
| `ModelRouter.Generate` | src/model-router/AaliyahModelRouter.ts:78-102 | providers are called in order until the first answer, which is returned; otherwise exactly one failure per provider; the health history grows by exactly those calls |
| `ModelRouter.CallInOrder` | src/model-router/AaliyahModelRouter.ts:81-101 | the loop over the chosen providers: stops at the first answer, one failure per broken call otherwise |
| `ModelRouter.Order` | src/model-router/AaliyahModelRouter.ts:71-76 | the healthy providers in configured order, or all of them when none is healthy |
| `ModelRouter.OrderIsUnique` | src/model-router/AaliyahModelRouter.ts:71-76 | history and clock determine the order, and it is empty only when nothing is configured |
| `ModelRouter.FailedProviderIsSkipped` | src/model-router/providerHealth.ts:42-58 | a provider that just failed threshold times is passed over until its cooldown ends while another one is not in that state |
| `GoogleOAuthHttp.Request` | src/mail/google/googleOAuthHttp.ts:81-121 | the loop with its flags and early exits equals the recursive specification on every response stream |
| `GoogleOAuthHttp.RetriesAreBounded` | src/mail/google/googleOAuthHttp.ts:81-121 | at most maxRetries + 1 fetches, every one but the last a server error, nothing at all or a success without a readable body; the last one's body, or its status and code, is what the caller is told |
| `GoogleOAuthHttp.SucceedsIff` | src/mail/google/googleOAuthHttp.ts:91-98 | the call succeeds if and only if some allowed fetch is answered, all before it having failed transiently |
| `GoogleOAuthHttp.CodeExchangeIsSentOnce` | src/mail/google/googleOAuthHttp.ts:124-138 | the single-use code is sent exactly once whatever comes back |
| `GoogleOAuthHttp.NoFetchIff` | src/mail/google/googleOAuthHttp.ts:88-120 | the loop is skipped, and the call fails unfetched with an unknown status, if and only if retries are allowed and their number is negative |
| `FollowupOutcomes.StatusesFormAPath` | src/services/followup/trackFollowupOutcome.ts:23-64 | what a key went through since its bucket was cleared is a path of the transition graph, in every history with any clears and failed appends |
| `FollowupOutcomes.PathsAreShort` | src/services/followup/trackFollowupOutcome.ts:23-30 | such a path has at most four statuses and repeats none |
| `FollowupOutcomes.SentOnlyAfterApproval` | src/services/followup/trackFollowupOutcome.ts:23-30 | nothing is sent that was not approved just before, nor approved that was not drafted, and nothing follows an end; only the first status of a path is free |
| `FollowupOutcomes.FollowsIff` | src/services/followup/trackFollowupOutcome.ts:23-30 | which status may follow which |
| `FollowupOutcomes.IndexAgreesWithLog` | src/services/followup/trackFollowupOutcome.ts:46-64 | when nothing else reaches the scope and no append failed, the log ends with what was accepted and the index entry is the key's last logged outcome |
| `FollowupOutcomes.IndexAgreesIff` | src/services/followup/trackFollowupOutcome.ts:46-64 | for one scope with an empty log to begin with, a key's index entry is its last logged outcome if and only if the last outcome accepted for it was logged |
| `FollowupOutcomes.FailedAppendRunsAhead` | src/services/followup/trackFollowupOutcome.ts:61-62 | one failed append leaves the index ahead of the log |
| `FollowupOutcomes.KeysCollideIff` | src/services/followup/trackFollowupOutcome.ts:32-34 | two pairs of ids share a key exactly when one task id continues the other after a colon; without colons never |
| `FollowupOutcomes.LogScopesAgreeIff` | src/services/followup/persistence.ts:16-18 | two calls share a log exactly when their scopes agree, an unscoped one sharing with the scope named like the legacy bucket |
| `FollowupOutcomes.OutcomeTracker.TrackFollowupOutcome` | src/services/followup/trackFollowupOutcome.ts:46-64 | accepted exactly when the key's last accepted status allows it; a refused outcome leaves no trace |
| `FollowupOutcomes.OutcomeTracker.ListTrackedFollowupOutcomes` | src/services/followup/trackFollowupOutcome.ts:74-87 | every indexed and logged outcome is listed once per task, thread and status, and nothing else; first occurrences stay in order, and index entries are listed themselves |
| `FollowupOutcomes.OutcomeTracker.ClearTrackedFollowupOutcomes` | src/services/followup/trackFollowupOutcome.ts:89-92 | clearing starts the bucket's history afresh |
| `FollowupOutcomes.OutcomeTracker.GetTrackedFollowupOutcome` | src/services/followup/trackFollowupOutcome.ts:66-72 | the key's last accepted outcome |
| `FollowupOutcomes.Deduplicate` | src/services/followup/trackFollowupOutcome.ts:78-86 | exactly the first record of each task, thread and status stays, in order |
| `Contradictions.DetectContradictions` | src/services/detectContradictions.ts:3-24 | each source comes back with one flag more, content_mismatch, exactly where its nearest earlier source with the same title, letter case aside, has another excerpt, none counting as empty |
| `Contradictions.OnePassIsComplete` | src/services/detectContradictions.ts:3-24 | no flag is added at all if and only if no two sources anywhere share a title and differ in excerpt |
| `Migrations.RunsCommitAPrefix` | src/persistence/postgres/migrations.ts:266-295 | over any runs by older and newer deployments, failing or not, what is committed is a first part of the list: each id once, in order, nothing lost; a quiet run commits all it knows |
| `Migrations.MailDatabase.RunMailMigrations` | src/persistence/postgres/migrations.ts:266-295 | a run commits every missing migration in order or none, and succeeds exactly when the commit is confirmed |
| `Migrations.RepeatedIdNeverApplies` | src/persistence/postgres/migrations.ts:283-287 | a list naming an unapplied id twice never takes effect |
| `Migrations.ListedIdsAreDistinct` | src/persistence/postgres/migrations.ts:9-264 | the nineteen listed ids are distinct and numbered in order |

## Left out

- MailAdapters.SendMessage: one program for the three adapters; how each builds its request, and a missing transport or connection, appear only as the text thrown.
- SendProtocol.AtMostOnceDelivery: assumes that one provider call delivers at most once and only while it is open, as no code in the repository can enforce it.
- LeaseProtocol.LeaseExclusionAndStableReplay: each ensure call is one atomic step; the read and the write inside one database transaction are not interleaved with those of another.
- TaskExecution.RunAaliyahTask: tools, planner, connectors and traces are arguments; recording a result either takes effect or throws without effect, and a throw while recording the failure itself is a crash of the caller, as in `LeaseClients`.
- TwinSimulation.ConsumeAgreesIff: the Map store stamps a consumed state with a second reading of the clock, and its disconnect loop reads it once per record; here each is the operation's one instant.
- TwinLogs.AuditReadsAgreeIff: job markers, which both stores only set and look up by connection, are not compared.
- GoogleConnect.AllOrNothing: rollback deletes are taken to succeed, and two callbacks for one mailbox to run one after the other; the code promises nothing else there. One callback reads one instant.
- GoogleConnect.ConnectedMeansUsable: for runs whose disconnects and rollbacks complete, as above.
- Hashing.RecipientHashBinds: letter case is that of ASCII, and strings are ordered by code point.
- SendGuard.NeverRetryable: digits and word characters are those of ASCII, as the expressions use them.
- Contradictions.DetectContradictions: titles are lower-cased in ASCII.
- Permissions.PermissionsOfRolesIff: only the six permissions and four roles named in the tables of the code.
- AuthService.PrincipalForToken: workspace ids that are property names of every JavaScript object are not treated apart; the flat role list keeps repetitions.
- FollowupOutcomes.OutcomeTracker.TrackFollowupOutcome: index update and log append are one step; appends of two calls do not overtake each other.
- Migrations.MailDatabase.RunMailMigrations: a transaction with its lock is atomic and concurrent runs are serialized; the SQL texts are uninterpreted.
- IdentityState.InMemoryIdentity.ListActiveForUser: workspace ids are compared by code point, where the code compares by locale.
- ModelRouter.Generate: a timeout is one way for a reply to fail; the abandoned promise is not followed.
- GoogleOAuthHttp.Request: schema validation and redaction of the responses.
- Postgres isolation levels, timestamps finer than a millisecond, and connection loss between statements other than at a commit.
- Express wiring, cookies, headers, readiness, shutdown, deployment.
- Google, Microsoft, OpenAI, Anthropic and KMS clients: their answers are arguments. AES-GCM, SHA-256, RSA and token verification internals.
- Zod schemas of `@aaliyah/contracts`: not part of this model; inputs are well-formed records.
- `src/mail/google/googleConnect.ts:251-278` and the credential lifecycle behind it: only the store operations of a refresh.
- First login, user provisioning and service-credential rotation (`src/auth/authService.ts:109-170`, `src/auth/authService.ts:282-287`): inserts and look-ups without further invariants. The Postgres identity store.
- Job markers and application documents: plain keyed stores.
- Text heuristics for follow-ups and styles, urgency and confidence labels, revenue scoring, relationship memory, onboarding: short case splits.
- `readThread`, labels and drafts of the adapters: one provider call each.
