# Verified model of the bullion rate service

A multi-tenant service that turns gold and silver quotes into shop prices and shows them live. This project
models the parts of it that carry state or exact arithmetic, and proves what each is relied on for:

- **Publication** (`Publication`, `OutboxPublishing`, `PublicationService`, `Recomputes`): a transaction writes the current
  rate, a change event and an outbox row; a drain publishes rows in id order and marks them afterwards; the
  browser keeps the last event per product. The protocol is a state machine over statements and awaits, with
  crashes and publishes that fail after reaching Redis.
- **Leader lease** (`LeaderLocks`, `LeaderLease`): replicas, one Redis key with an expiry, one counter.
  Sending a call, running it on the server and receiving its reply are separate steps, so replies arrive late
  and abandoned calls still run.
- **Pricing-rule mutations** (`PricingRules`, `ExactlyOnce`, `AuditTrail`, `IdempotencyCleanup`): interleaved
  READ COMMITTED transactions with row locks, conditional updates re-checked after a lock wait, an append-only
  audit trail, stored responses and a batched purge. `If-Match` is the conditional request of section 13.1.1
  of RFC 9110.
- **Request fingerprints** (`CanonicalJson`): the canonical printer, with strings as in section 7 of RFC 8259.
- **Money and pricing** (`Rounding`, `Money`, `Purities`, `PricingEngine`, `DecimalText`, `MoneyText`):
  truncating integer division and the four rounding modes against exact real numbers, the engine as one
  rounding of an exact value, and both printers.
- **Streams and caches** (`QuoteStream`, `MarketFeed`, `JwksCaching`, `RateHub`): ingestion, hand-over to
  publication, the key cache and the fan-out hub.

Code that changes state is a class whose methods are tied to the step of a specification; what holds over
whole runs is proved of the specification. `Outcomes` and `NatSets` hold small shared definitions.

## Where the code and its own documentation differ

The model follows the code. Each point has a lemma with a concrete input or run.

- Two publishers are called harmless (outbox_publisher.ts:26-30), yet overlapping drains can leave browsers on
  an old rate. Every replica starts a publisher (pipeline.ts:213) and shutdown can overlap a drain
  (pipeline.ts:232). Convergence is proved for drains that do not overlap, and exactly characterised for any.
- Fencing tokens are said to increase with acquisitions (leader_lock.ts:214-215); they do exactly when no INCR
  runs after that of a later acquisition.
- `rounding_delta_paise` is said to be zero when both precisions agree (pricing_engine.ts:108-109); it is
  exactly when the dropped fractions cancel.
- The raw tier is said to reconcile with no residual
  (20260920150000_pricing_breakdown_semantics/migration.sql:50-54); each stored amount is rounded by itself, so
  a percentage rule can violate the check, which aborts the whole tenant's recompute, or the rule's own change.
- Zero rows updated is said to mean the version moved (pricing_rule_service.ts:336-337), and audit rows to hold
  the state before the change; a client that guesses a version about to be committed is accepted with an older
  snapshot.
- A rule change is said to leave no window in which customers see the old rule's rate
  (publication_service.ts:448-452); a tick that read the rule before can overwrite the new rate afterwards.
- `stop` is said to give up the lease (leader_lock.ts:160-166), and the listener limit to be a ceiling
  (rate_hub.ts:47-53); both can fail when a call overlaps an acquisition, or an attach, that is waiting. Exact
  conditions are proved for each.
- `truncated` is said to mean rows are still expired (idempotency_cleanup.ts:71-75); it can be set when none is.
- The cooldown is said to cap refreshes to one per window (jwks_cache.ts:34-40); within it a request still starts
  a fetch exactly when the set is missing or has aged out.
- Each accepted quote is said to publish exactly once (market_poller.ts:67-76); one that follows a publication
  that throws, or that is accepted after the listener was detached, never does.

## Model

| member | source | states |
|---|---|---|
| Publication.Convergence | apps/api/src/modules/publication/outbox_publisher.ts:152-217 | over every run of interleaved transactions, drains, failed or half-failed publishes and crashes, with drains not overlapping: a product with no undelivered row was last announced at its current rate, and a browser holds the product exactly if an event of it came since it joined, and then at exactly that rate and unit |
| Publication.ConvergesExactlyWhen | apps/api/src/modules/publication/outbox_publisher.ts:20-30 | with any number of drains at once, over every run: a product with no undelivered row was last announced at its newest row, and so at its current rate, exactly when its last announcement did not come after one of a later row |
| Publication.StepKeeps | apps/api/src/modules/publication/publication_service.ts:308-348 | every commit, rollback, select, send, failed send, mark and crash keeps the invariant: row locks order a product's ids by commit, delivered rows are a prefix per product, the highest id carries the published rate, and a drain's sent part is the last word |
| Publication.BatchIsSound | apps/api/prisma/migrations/20260923120000_publication_outbox/migration.sql:143-163 | the pending read is the lowest undelivered ids in order, and omits no earlier undelivered row of a product it includes |
| Publication.OnlyCommittedInOrder | apps/api/src/modules/publication/publication_service.ts:330-346 | nothing is announced that was not committed, and rows are marked in id order product by product |
| Publication.BrowserShowsLastEvent | apps/web/src/lib/useRateStream.ts:141-151 | a browser that joined at any point holds a rate for exactly the products it heard of since, and each is that of the last event of the whole log |
| Publication.CommitLeaves | apps/api/src/modules/publication/publication_service.ts:302-346 | a commit makes exactly the transaction's writes visible: all its outbox rows, and for each product it wrote the last rate it wrote |
| Publication.OnlyCommitsPublish | apps/api/src/modules/publication/publication_service.ts:147-225 | nothing but a commit changes a current rate or the outbox; a rollback leaves no trace |
| Publication.AnythingMayFail | apps/api/src/modules/publication/outbox_publisher.ts:168-217 | at any point a transaction can roll back, a drain can die, and a publish can fail whether or not it arrived |
| Publication.PassSize | apps/api/prisma/migrations/20260923120000_publication_outbox/migration.sql:159-163 | a pass reads min(limit, pending) rows, the limit held between 1 and 5000 |
| Publication.OverlappingDrainsCanLeaveAnOldRate | apps/api/src/modules/publication/outbox_publisher.ts:26-30 | a concrete run with two drains after which nothing is pending and every browser shows a superseded rate: two publishers are not harmless |
| Publication.DrainOnceIsARun | apps/api/src/modules/publication/outbox_publisher.ts:152-217 | an uninterrupted pass is one of the protocol's runs, so all that is proved of runs holds of the `Drain` method |
| Publication.PassesEmptyTheBacklog | apps/api/src/modules/publication/outbox_publisher.ts:125-144 | while Redis answers, n passes leave max(0, backlog - n * clamped limit) rows pending, exactly |
| Publication.LowestIsPrefix | apps/api/prisma/migrations/20260923120000_publication_outbox/migration.sql:159-163 | the selected ids are strictly increasing, min(limit, pending) of them, and below every pending id left out |
| OutboxPublishing.OutboxPublisher.Drain | apps/api/src/modules/publication/outbox_publisher.ts:152-217 | publishes the batch in id order up to the first failure, marks exactly the published rows, counts one attempt on exactly the failed row, and updates its own counters; when one of its three statements throws, exactly what precedes it has happened, and what the statement itself may have |
| OutboxPublishing.OutboxPublisher.PublishInOrder | apps/api/src/modules/publication/outbox_publisher.ts:168-192 | the loop: in order, one at a time, stopping at the first failure; a failed publish may still have reached Redis |
| OutboxPublishing.FailureIsOneAttempt | apps/api/prisma/migrations/20260923120000_publication_outbox/migration.sql:187-202 | a recorded failure is one more attempt of that row and of no other |
| OutboxPublishing.OutboxPublisher.Settle | apps/api/src/modules/publication/outbox_publisher.ts:194-216 | marks exactly the published prefix, then records the failure of the next row only; a throwing mark stops it before anything is counted |
| PublicationService.Database.PublishForTenant | apps/api/src/modules/publication/publication_service.ts:137-225 | one transaction: commits every enabled rule's rows and the exact counts, or throws and leaves every table as it was |
| PublicationService.Database.PublishForQuote | apps/api/src/modules/publication/publication_service.ts:360-430 | each affected tenant changes exactly as its own transaction says; one that aborts keeps its tables and is counted; all others are untouched |
| PublicationService.Database.RecomputeRule | apps/api/src/modules/publication/publication_service.ts:464-522 | the recompute inside a rule mutation: publishes, does nothing, or aborts, in the cases the code names |
| PublicationService.RecomputeShowsTheEngine | apps/api/src/modules/publication/publication_service.ts:186-224 | after a committed recompute each enabled product shows exactly the engine's result, an unpriceable rule keeps its old row, other products are untouched, every rule is counted once and every published one adds one event and one outbox row |
| PublicationService.TickShowsTheEngine | apps/api/src/modules/publication/publication_service.ts:147-225 | for a tenant's own rules: a committed tick leaves for every live rule of the metal the engine's result if its product is enabled and priced, and the old row otherwise; no other product changes, and exactly those rules are counted |
| PublicationService.SelectedIsFilter | apps/api/src/modules/publication/publication_service.ts:156-161 | the rules recomputed are every active rule of an active product of the metal, as often and in the order the tenant has them |
| PublicationService.AuthoredRulePublishesItsWorth | apps/api/src/modules/publication/publication_service.ts:254-270 | what an authored rule publishes is the quote at the product's fineness plus the rule's margin, an exact real number, in the display unit, rounded once to the rule's step; nothing exactly when that is not positive |
| PublicationService.PublishedRuleWrites | apps/api/src/modules/publication/publication_service.ts:290-346 | the three rows one published rate writes, column by column |
| PublicationService.ExpiredQuoteLeavesAll | apps/api/src/modules/publication/publication_service.ts:151-153 | an expired quote changes and counts nothing |
| PublicationService.TotalsAdd | apps/api/src/modules/publication/publication_service.ts:386-410 | the totals of a quote add up over its tenants |
| PublicationService.TotalsOfOne | apps/api/src/modules/publication/publication_service.ts:386-410 | a committed tenant counts with what it published and skipped, an aborted one as failed |
| PublicationService.CommitsExactlyWhen | apps/api/src/modules/publication/publication_service.ts:254-288 | the tenant's recompute commits exactly when no enabled rule throws anything but a pricing error and every priced row satisfies the stored-sum check |
| PublicationService.AuthoredRuleIsHarmlessExactlyWhen | apps/api/src/modules/pricing/pricing_rule_service.ts:510-531 | a rule the API stored never aborts its tenant if it is absolute; a percentage rule does not exactly when it has no positive price or the fractions its stored amounts drop cancel |
| PublicationService.APercentageRuleCanFreezeATenant | apps/api/prisma/migrations/20260920150000_pricing_breakdown_semantics/migration.sql:52-54 | an acceptable percentage rule and quote with which no rule set containing it commits |
| PublicationService.RecomputeKeepsConsistent | apps/api/src/modules/publication/publication_service.ts:290-348 | recomputes, one after another, keep each change event's old rate equal to the previous event's new rate and its direction that of the change, and the last event and last outbox row equal to the published rate and unit; interleaved ones are the subject of the `Recomputes` rows |
| PublicationService.RecomputeConverges | apps/api/src/modules/publication/publication_service.ts:240-241 | recomputing again from the same quote changes no published row |
| PublicationService.RuleChangeAgreesWithTick | apps/api/src/modules/publication/publication_service.ts:464-522 | run one after another, a rule change leaves the same published row a market tick from the same quote would; interleaved ones are the subject of the `Recomputes` rows |
| PublicationService.RuleChangeShowsTheEngine | apps/api/src/modules/publication/publication_service.ts:464-522 | what a rule change's recompute leaves: the engine's result for that very rule exactly if it is live, its product enabled, and a usable quote prices it; otherwise every table as it was |
| PublicationService.FindActiveFinds | apps/api/src/modules/publication/publication_service.ts:474-494 | the recompute takes the active rule with the id, and none exactly if there is none |
| PublicationService.RuleChangeRevivesARetiredProduct | apps/api/src/modules/publication/publication_service.ts:474-496 | a rule of a retired product is published on a rule change although no tick selects it |
| PublicationService.PublishEach | apps/api/src/modules/publication/publication_service.ts:197-224 | the loop over a tenant's rules equals the specification of its transaction: every row and count, or the abort of the first rule that throws |
| Recomputes.ChainedExactlyWhen | apps/api/src/modules/publication/publication_service.ts:286-328 | over every interleaving of recomputes of a product: the last event carries the current rate, and the change log is linked exactly when every upsert replaced the rate its transaction had read, without a lock, before |
| Recomputes.ShowsLiveRuleExactlyWhen | apps/api/src/modules/publication/publication_service.ts:464-522 | over every interleaving of ticks and rule changes: the current rate was priced from the live rule exactly when the last commit that touched either was a publishing rule change, or a tick that had read the live rule, or came before anything was published |
| Recomputes.AStaleTickUndoesARuleChange | apps/api/src/modules/publication/publication_service.ts:155-224 | an interleaving that leaves the old rule's rate on show after a committed rule change, and the change log broken |
| Recomputes.OneAtATimeIsSound | apps/api/src/modules/publication/publication_service.ts:464-522 | if transactions do not overlap and rule changes publish, the change log is linked and the rate shows the live rule |
| Recomputes.OnlyLocksMakeWait | apps/api/src/modules/publication/publication_service.ts:286-306 | transactions overlap freely but for the locks on the rule and on the current rate, and any can roll back |
| Recomputes.StepKeeps | apps/api/src/modules/publication/publication_service.ts:302-306 | every statement keeps: upserts of a product replace each other in commit order, and a transaction works from the live rule version or an earlier one |
| LeaderLease.MutualExclusion | apps/api/src/platform/leader_lock.ts:45-58 | over every interleaving of sends, server executions, delayed or lost replies, late calls, releases and clock steps: at most one replica believes it leads within a lease-length of its last successful acquire or renew without having begun to stop; a believed leader holds a token |
| LeaderLease.StepKeepsExclusive | apps/api/src/platform/leader_lock.ts:167-230 | each step keeps that a replica still covered by its last grant is the one the server names, with exactly that expiry |
| LeaderLease.OnlyTheHolderTouchesItsLease | apps/api/src/platform/leader_lock.ts:45-58 | no step of one replica extends or deletes another's live lease |
| LeaderLease.BeliefIsWhatWasHeard | apps/api/src/platform/leader_lock.ts:188-226 | over every run: a replica leads, and on which token, exactly when it has heard of its INCR and since then nothing but granted renewals: no refused renewal, no failed call, no completed stop |
| LeaderLease.TellingSteps | apps/api/src/platform/leader_lock.ts:194-226 | a refused renewal and any failed call end leadership and drop the token; a granted renewal keeps both; an INCR's reply begins both |
| LeaderLease.OtherStepsTellNothing | apps/api/src/platform/leader_lock.ts:188-247 | no other step changes what a replica believes |
| LeaderLease.ServerAnswers | apps/api/src/platform/leader_lock.ts:45-58 | what SET, renew and INCR do to the lease and answer, in terms of who holds it and until when |
| LeaderLease.ReleaseFrees | apps/api/src/platform/leader_lock.ts:53-58 | a release frees its sender's live lease at once and touches no other |
| LeaderLease.StoppingFreesTheLease | apps/api/src/platform/leader_lock.ts:167-185 | a leader that stops can send its release, and once it has run and answered the lease is free and it leads no more |
| LeaderLease.OnlyStoppingLeadersRelease | apps/api/src/platform/leader_lock.ts:173-179 | a release is sent only by a leader that stops |
| LeaderLease.PromptRenewalsKeepTheLease | apps/api/src/platform/leader_lock.ts:45-50 | a holder whose renewals run before the lease lapses keeps it over any run in which it sends no release |
| LeaderLease.ALateAcquireLeadsNobody | apps/api/src/platform/leader_lock.ts:207-225 | an acquire that ran after its caller gave up holds the lease for a replica that does not lead |
| LeaderLease.FailedCallsMayRunLate | apps/api/src/platform/leader_lock.ts:222-226 | a call given up on may still run on the server |
| LeaderLease.AnythingMayFail | apps/api/src/platform/leader_lock.ts:188-230 | any call can fail, any replica stop, and any time pass at any moment |
| LeaderLease.FencingTokens | apps/api/src/platform/leader_lock.ts:207-239 | tokens are pairwise distinct, a leader holds the token of its own acquisition, and token order is acquisition order exactly when no INCR ran after that of a later acquisition |
| LeaderLease.PromptIncrsAreOrdered | apps/api/src/platform/leader_lock.ts:213-219 | if every INCR runs before the lease it was sent for lapses or is given up, tokens increase with acquisitions |
| LeaderLease.LateIncrBreaksOrder | apps/api/src/platform/leader_lock.ts:213-217 | a run in which an older acquisition gets the higher token, against the comment that tokens strictly increase |
| LeaderLease.StopCanLeaveLeadershipSet | apps/api/src/platform/leader_lock.ts:167-185 | a run in which stopping during an acquire leaves leadership set on a stopped lock |
| LeaderLease.StopClearsLeadershipExactlyWhen | apps/api/src/platform/leader_lock.ts:167-230 | after any run, a stopped lock is never, however the run goes on, left leading with no release under way, exactly when no acquisition was on its way when `stop` began: no acquire unanswered or granted, and no INCR |
| LeaderLease.StalledLeaderOverlaps | apps/api/src/platform/leader_lock.ts:200-205 | a run in which two replicas believe they lead once the first one's lease has run out |
| LeaderLease.IncrKeepsOrderExactlyWhen | apps/api/src/platform/leader_lock.ts:213-217 | recording a token keeps token order exactly when no later acquisition has one |
| LeaderLocks.LeaderLock.Reply | apps/api/src/platform/leader_lock.ts:194-221 | what each reply does to belief, token and the tick: a renewal answered anything but 1 ends leadership and drops the token; listeners hear each change once |
| LeaderLocks.LeaderLock.Error | apps/api/src/platform/leader_lock.ts:222-226 | a failed call ends the tick and any leadership |
| LeaderLocks.LeaderLock.Stop | apps/api/src/platform/leader_lock.ts:167-184 | campaigning ends at once and a release is sent only by a leader |
| LeaderLocks.LeaderLock.SetLeadership | apps/api/src/platform/leader_lock.ts:232-247 | announcements alternate: a listener is told only of changes |
| PricingRules.VersionsCountChanges | apps/api/src/modules/pricing/pricing_rule_service.ts:313-363 | over every interleaving of transactions: a rule's version is one plus its committed updates and deactivations, the live row is the last audit row's new value, and each change overwrote exactly the row the previous one left, whose version its client quoted |
| PricingRules.LinkedExactlyWhen | apps/api/src/modules/pricing/pricing_rule_service.ts:313-360 | over every run: each audit row starts from the snapshot the previous one ended with exactly when every change quoted a version already committed at its first read |
| PricingRules.HonestTrailsAreLinked | apps/api/src/modules/pricing/pricing_rule_service.ts:313-360 | if clients quote only versions already committed, every rule's audit trail is linked |
| PricingRules.GuessedVersionBreaksTheLink | apps/api/src/modules/pricing/pricing_rule_service.ts:314-332 | a run in which a client that guessed a version not yet committed is accepted and its audit row starts from an older row |
| PricingRules.StepKeepsTrails | apps/api/src/modules/pricing/pricing_rule_service.ts:382-422 | every statement keeps: what a transaction read is a committed version, what it wrote continues the rule's trail, and no two transactions hold one row |
| PricingRules.LiveRulesAreSound | apps/api/src/modules/pricing/pricing_rule_service.ts:262-286 | over every run: one live rule per product, audit ids increase in commit order per rule, and the engine accepts every live rule's adjustment, whose unused column is zero |
| PricingRules.WriteOutcome | apps/api/src/modules/pricing/pricing_rule_service.ts:319-352 | exactly when a create, update or deactivate goes through, written out over the committed rows, what a refused create is told, and what the engine then reads from the row |
| PricingRules.LoadOutcome | apps/api/src/modules/pricing/pricing_rule_service.ts:241-252 | a create is refused as a duplicate at its check exactly when an active rule of the product is committed; a change of an absent rule is forbidden; otherwise the committed row has been read |
| PricingRules.LookupOutcome | apps/api/src/modules/idempotency/idempotency_service.ts:110-133 | an unkeyed request or unused key goes on; a stored key replays for the same fingerprint and is refused for another |
| PricingRules.StoreOutcome | apps/api/src/modules/idempotency/idempotency_service.ts:142-171 | a response is stored unless its key is committed by then, which refuses the whole mutation |
| PricingRules.CommitShows | apps/api/src/modules/pricing/pricing_rule_service.ts:445-474 | a commit shows the rule, its audit row and its stored response together |
| PricingRules.OnlyCommitsShow | apps/api/src/modules/pricing/pricing_rule_service.ts:445-474 | nothing else shows any of them, and an abort leaves no trace |
| PricingRules.AloneNothingBlocks | apps/api/src/modules/pricing/pricing_rule_service.ts:262-281 | only another open transaction makes a write or a stored response wait |
| PricingRules.AnythingMayAbort | apps/api/src/modules/pricing/pricing_rule_service.ts:445-486 | any open transaction can abort, and any keys older than the retention be purged, at any moment |
| PricingRules.RefusalIsTrue | apps/api/src/modules/pricing/pricing_rule_service.ts:335-342 | for a client that quoted a committed version: refused because the rule moved, someone else has committed a change quoting the same version; refused because it is inactive, it is |
| PricingRules.AcceptedTermsAreSound | apps/api/src/modules/pricing/pricing_rule_service.ts:510-531 | an amount is refused exactly beyond the stored bound; accepted columns are within it, with the unused one zero |
| ExactlyOnce.AtMostOncePerRetention | apps/api/src/modules/pricing/pricing_rule_service.ts:436-486 | over every run of racing and repeated requests and purges: of two commits under one key, the later stored its response more than the retention after the earlier response's creation time, and every replay repeats the body of the key's latest commit, made for the same request |
| ExactlyOnce.RetriesAreAnswered | apps/api/src/modules/idempotency/idempotency_service.ts:110-133 | while a commit's retention lasts, a retry gets its body, a different request a refusal, and nothing else changes, whatever was purged |
| ExactlyOnce.ARetryGetsTheFirstBody | apps/api/src/modules/pricing/pricing_rule_service.ts:436-486 | from any quiet moment of any run a valid keyed create goes through, and the same request again gets its body without a second commit |
| ExactlyOnce.StepKeepsKeys | apps/api/src/modules/idempotency/idempotency_service.ts:142-171 | every statement keeps: a stored response is that of the key's latest commit, an absent key was never used or has lapsed, and no two transactions hold one key |
| ExactlyOnce.PurgeableHasLapsed | apps/api/src/modules/maintenance/idempotency_cleanup.ts:115-118 | a key the purge may take is one all of whose commits are older than the retention |
| IdempotencyCleanup.PurgeExpiredKeys | apps/api/src/modules/maintenance/idempotency_cleanup.ts:107-199 | a run on its own removes exactly min(expired, batches * size) keys, oldest first, none within the retention, and reports the exact count; `truncated` exactly when more than (batches - 1) * size had expired, and otherwise exactly the keys created before the cutoff are gone; refused, changing nothing, exactly for options out of their bounds |
| IdempotencyCleanup.PurgeInBatches | apps/api/src/modules/maintenance/idempotency_cleanup.ts:135-161 | the batch loop: it ends with an empty batch after just enough, or with the last one allowed |
| IdempotencyCleanup.KeyTable.DeleteBatch | apps/api/src/modules/maintenance/idempotency_cleanup.ts:139-149 | one DELETE takes the oldest expired keys up to the limit |
| IdempotencyCleanup.TruncatedWithNothingLeft | apps/api/src/modules/maintenance/idempotency_cleanup.ts:71-76 | a run that reports itself truncated with nothing left to remove |
| AuditTrail.ToAuditSnapshot | apps/api/src/modules/audit/audit_service.ts:108-119 | the loop keeps exactly the allowed fields present in the row, big integers as their digits |
| AuditTrail.SnapshotIsFaithful | apps/api/src/modules/audit/audit_service.ts:84-119 | two rows leave equal snapshots exactly when they are the same rule, whatever their other columns |
| AuditTrail.AuditRoundTrip | apps/api/src/modules/audit/audit_service.ts:164-197 | a reader gets back both values as written, and exactly the keys on which they differ |
| AuditTrail.UpdateListsItsChanges | apps/api/src/modules/audit/audit_service.ts:127-137 | for the audit row of every update or deactivation as the code writes it, from the snapshot it read first, whatever version the client quoted: the listed fields include the version, never the product, and nothing else exactly when terms and activity are those of that snapshot |
| CanonicalJson.SameTextExactlyWhenEquivalent | apps/api/src/modules/idempotency/idempotency_service.ts:76-86 | two values print the same text exactly when they are equal up to key order at every depth |
| CanonicalJson.Readable | apps/api/src/modules/idempotency/idempotency_service.ts:76-86 | the text of a value, followed by a delimiter or nothing, determines the value up to key order and where it ends |
| CanonicalJson.EquivalentPrintsAlike | apps/api/src/modules/idempotency/idempotency_service.ts:80-83 | values equal up to key order print alike, undefined members dropped |
| CanonicalJson.StringRoundTrip | apps/api/src/modules/idempotency/idempotency_service.ts:77-83 | a reader of string literals gives back every printed string, surrogates included, and stops at its closing quote |
| CanonicalJson.PlainTextIsPrintedAsIs | apps/api/src/modules/idempotency/idempotency_service.ts:77-83 | nothing is escaped that need not be |
| CanonicalJson.NoControlIsPrinted | apps/api/src/modules/idempotency/idempotency_service.ts:77-83 | no control unit is printed bare |
| CanonicalJson.KeysArePrintedInOrder | apps/api/src/modules/idempotency/idempotency_service.ts:80-83 | members are printed in increasing order of their keys |
| CanonicalJson.LessIsLexicographic | apps/api/src/modules/idempotency/idempotency_service.ts:82 | that order is by the first code unit in which two keys differ |
| CanonicalJson.SameRequestExactlyWhen | apps/api/src/modules/idempotency/idempotency_service.ts:66-74 | for methods and paths without newlines the text that is hashed is equal exactly when method (up to case), path and body (up to key order) are |
| CanonicalJson.UpperIgnoresCase | apps/api/src/modules/idempotency/idempotency_service.ts:72 | method names come to the same exactly when they are the same up to letter case |
| Rounding.DividesThenRounds | apps/api/src/platform/money.ts:81-123 | for every numerator, denominator of either sign and mode, the result is the mode's rounding of the exact quotient; a zero denominator is an error |
| Rounding.RoundingIsUnique | apps/api/src/platform/money.ts:97-122 | each mode's defining inequality and tie rule have exactly one solution |
| Rounding.DivideAndRoundMonotone | apps/api/src/platform/money.ts:81-123 | for a positive denominator, raising the numerator never lowers the result, in any mode |
| Rounding.DivideAndRoundMirror | apps/api/src/platform/money.ts:97-122 | negating the numerator negates the result with floor and ceil exchanged, and in the half modes just negates it, for any non-zero denominator |
| Rounding.ScaleInvariance | apps/api/src/platform/money.ts:81-123 | scaling both arguments by any non-zero factor changes nothing |
| Rounding.RationalStepIsOneRounding | apps/api/src/platform/money.ts:148-162 | rounding a rational to a step is one rounding of the exact value in steps |
| Rounding.StepIsRationalStep | apps/api/src/platform/money.ts:129-141 | rounding an integer to a step is the same operation with denominator one |
| Rounding.RoundToStepIdempotent | apps/api/src/platform/money.ts:129-141 | rounding to a step twice is rounding once |
| Money.DisplayIsQuantised | apps/api/src/platform/money.ts:306-318 | the one crossing to display precision is a single rounding of the exact value in the unit |
| Money.QuantisedError | apps/api/src/platform/money.ts:148-162 | that rounding is off by less than a step, and by at most half a step in the half modes |
| Purities.RatioDenotesMultiplier | apps/api/src/modules/pricing/purity.ts:88-106 | the unevaluated ratio denotes the multiplier of its basis; invalid purities are refused |
| Purities.SamePurityIsSameFineness | apps/api/src/modules/pricing/purity.ts:109-111 | cross-multiplied equality is equality of fineness |
| Purities.FineRatioComposes | apps/api/src/modules/pricing/purity.ts:101-105 | the fine ratio is the identity on equal purities and composes |
| PricingEngine.PriceIsOneRounding | apps/api/src/modules/pricing/pricing_engine.ts:122-205 | an input is priced exactly when it is acceptable and its one rounding is positive, and every reported figure is a single rounding of an exact value |
| PricingEngine.RejectionsAreExact | apps/api/src/modules/pricing/pricing_engine.ts:122-175 | every reason for giving no price, in the order the engine looks, with its bounds |
| PricingEngine.EqualFinenessEqualResult | apps/api/src/modules/pricing/purity.ts:108-111 | writing a purity as another fraction of the same fineness changes nothing in the result |
| PricingEngine.PriceIsMonotone | apps/api/src/modules/pricing/pricing_engine.ts:152-175 | raising base rate, target fineness, amount or basis points never lowers the price nor turns a priced input into a rejected one |
| PricingEngine.RoundingDeltaBound | apps/api/src/modules/pricing/pricing_engine.ts:103-111 | the rounding line is below step + precision, and twice it at most step + 2 * precision in the half modes |
| PricingEngine.DeltaIsZeroExactlyWhen | apps/api/src/modules/pricing/pricing_engine.ts:103-111 | with equal precisions the rounding line is zero exactly when the fractions dropped cancel |
| PricingEngine.EvenMarginHasNoDelta | apps/api/src/modules/pricing/pricing_engine.ts:103-111 | in particular for a margin of an even number of steps under half-even |
| PricingEngine.EqualPrecisionsCanLeaveADelta | apps/api/src/modules/pricing/pricing_engine.ts:108-109 | an input with equal precisions and a non-zero rounding line, against the documented claim |
| PricingEngine.StoredSumBalancesExactlyWhen | apps/api/prisma/migrations/20260920150000_pricing_breakdown_semantics/migration.sql:50-54 | the stored amounts add up exactly when the two dropped fractions cancel, and are never off by more than one |
| PricingEngine.AbsoluteMarginBalances | apps/api/src/modules/pricing/pricing_rule_service.ts:150-152 | for an absolute margin: exactly when the base is no tie or the margin is even, so always for margins in whole paise |
| PricingEngine.PercentageMarginCanFailTheCheck | apps/api/prisma/migrations/20260920150000_pricing_breakdown_semantics/migration.sql:50-54 | 3% over 22-carat gold at a quote of 153727.08 rupees for 10 grams: the engine prices it and its stored amounts do not add up |
| PricingEngine.DisplayedLinesMatchStored | apps/api/prisma/migrations/20260920160000_adjustment_integrity/migration.sql:18-48 | both displayed lines agree with their stored amounts within the tolerance of the table checks |
| PricingEngine.MarginShownAsConfigured | apps/api/src/modules/pricing/pricing_engine.ts:101-102 | an absolute margin that is a whole number of precision units is shown exactly |
| MoneyText.PrintedAmountParses | apps/api/src/platform/money.ts:208-233 | every amount, grouped or not, parses back to itself |
| MoneyText.ParsesExactlyAmounts | apps/api/src/platform/money.ts:218-232 | a text parses exactly when, trimmed and without commas, it is an optional minus, digits, and optionally a point and one or two digits, and then to that amount |
| MoneyText.TrimTakesSpaces | apps/api/src/platform/money.ts:218 | trimming takes exactly the surrounding white space |
| MoneyText.GroupsArePairs | apps/api/src/platform/money.ts:343-350 | the look-ahead substitution places the same commas as counting pairs from the right |
| MoneyText.GroupsFromTheRight | apps/api/src/platform/money.ts:343-350 | a comma stands before a digit other than the first exactly when three, five, seven or more digits are left from it on |
| MoneyText.BrowserPrintsAsServer | apps/web/src/lib/money.ts:33-80 | the browser renders every text that is an integer as the server prints that integer, except that it keeps the sign of a negative zero; all else is unavailable |
| MoneyText.BrowserAgreesWithServer | apps/web/src/lib/money.ts:74-80 | for the integer text the server sends the two printers agree |
| MoneyText.RuleAmountSurvivesExactlyWhen | apps/api/src/modules/pricing/pricing_rule_service.ts:139-152 | a stored rule amount shown and sent back is truncated to a whole paisa, so it survives exactly when it is a multiple of 1000 |
| MoneyText.RuleAmountIsPrintedAsRupees | apps/api/src/modules/pricing/pricing_rule_service.ts:139-147 | a whole number of paise is shown as the rupee printer shows it |
| MoneyText.QuoteRoundTrip | apps/api/src/platform/money.ts:254-296 | a quote in any display unit converts to the stored rate without remainder and is shown as quoted in every mode |
| DecimalText.DigitsRoundTrip | apps/api/src/platform/money.ts:334-336 | printing a number and reading its digits gives it back |
| DecimalText.CanonicalDigits | apps/web/src/lib/money.ts:50-54 | digits without a spare leading zero are the printed digits of their value |
| QuoteStream.Stream.Accept | apps/api/src/modules/market_data/quote_stream.ts:93-144 | the checks in their order, with the exact new memory, counters and outcome |
| QuoteStream.Evict | apps/api/src/modules/market_data/quote_stream.ts:168-173 | the eviction loop leaves exactly the newest ids, and none for a window of zero or less |
| QuoteStream.RecentIdsAreTheLatest | apps/api/src/modules/market_data/quote_stream.ts:164-178 | after any run the remembered ids are those of the last min(window, n) accepted quotes, in order, and the last quote is the last accepted |
| QuoteStream.OrderedFeedRejectsReplays | apps/api/src/modules/market_data/quote_stream.ts:192-208 | if a symbol's quotes all carry sequences, or none does, sequences (timestamps) strictly increase and any earlier quote offered again is rejected even after its id was evicted |
| QuoteStream.ReplayIsAcceptedExactlyWhen | apps/api/src/modules/market_data/quote_stream.ts:93-144 | over every run and for any feed: an accepted quote offered again is accepted exactly when its id has left the window, it orders as newer than the last accepted quote, and the move between the two is plausible |
| QuoteStream.ReasonsAreExact | apps/api/src/modules/market_data/quote_stream.ts:93-144 | over every run, exactly why any offer is turned away, against the accepted quotes and the limits written out |
| QuoteStream.MixedFeedAcceptsAReplay | apps/api/src/modules/market_data/quote_stream.ts:15-22 | a feed that sometimes omits the sequence goes back in sequence and has a replay accepted |
| QuoteStream.EveryOfferIsCounted | apps/api/src/modules/market_data/quote_stream.ts:93-184 | accepted plus rejected equals offers |
| QuoteStream.RejectionsAreCountedByReason | apps/api/src/modules/market_data/quote_stream.ts:180-183 | each rejection is counted under its own reason |
| QuoteStream.PlausibleMove | apps/api/src/modules/market_data/quote_stream.ts:211-215 | what one accepted move can be, despite the truncating division |
| QuoteStream.PlausibleExactlyWhen | apps/api/src/modules/market_data/quote_stream.ts:211-215 | a move from a positive mid is plausible exactly when it is less than limit + 1 basis points; from zero never |
| QuoteStream.MovesCompound | apps/api/src/modules/market_data/quote_stream.ts:131-141 | after k further accepted quotes m0 * (9999 - M)^k <= mk * 10000^k <= m0 * (10001 + M)^k |
| MarketFeed.HandOverIsExactExactlyWhen | apps/api/src/modules/market_data/market_poller.ts:181-254 | over every run of pushes, pulls and failures: published, in-flight and queued quotes are the accepted log in order exactly when no publication threw and every quote was accepted while the poller listened |
| MarketFeed.EveryQuoteIsOffered | apps/api/src/modules/market_data/market_data_service.ts:195-244 | over every run the stream is offered every valid quote pushed or pulled, in order, and nothing else |
| MarketFeed.BatchGoesOut | apps/api/src/modules/market_data/market_poller.ts:204-211 | a batch whose publications do not throw goes out whole and in order |
| MarketFeed.AnythingMayFail | apps/api/src/modules/market_data/market_poller.ts:181-254 | a push and a stop can come at any moment, and a pull and a publication throw |
| MarketFeed.NoQuoteTwice | apps/api/src/modules/market_data/market_poller.ts:67-76 | then no quote is handed over twice |
| MarketFeed.AThrowDropsTheRest | apps/api/src/modules/market_data/market_poller.ts:206-211 | a publication that throws drops the rest of its batch for good |
| MarketFeed.StopDuringAPullLosesIt | apps/api/src/modules/market_data/market_poller.ts:157-173 | stopping during a pull loses what the pull then accepts |
| MarketFeed.PollWhileStoppingLosesIt | apps/api/src/modules/market_data/market_poller.ts:157-173 | a poll begun after `stop` has detached the listener but before the service is stopped does not attach again and loses what it accepts |
| MarketFeed.MarketPoller.EnsureServiceStarted | apps/api/src/modules/market_data/market_poller.ts:245-254 | attaches the listener only when the service is not taken to be started |
| MarketFeed.MarketPoller.Accept | apps/api/src/modules/market_data/market_data_service.ts:217-244 | one ingestion path: validate, offer, and show an accepted quote to the listener |
| MarketFeed.MarketPoller.AcceptMany | apps/api/src/modules/market_data/market_data_service.ts:195-203 | the batch loop: absent payloads skipped, the rest ingested in order, the accepted ones returned |
| MarketFeed.MarketPoller.BeginPoll | apps/api/src/modules/market_data/market_poller.ts:181-192 | a poll begins only when none is running, and attaches the listener only if the service is not taken to be started |
| MarketFeed.MarketPoller.Pulled | apps/api/src/modules/market_data/market_poller.ts:190-204 | what the pull brought is ingested and the whole queue taken, in one step |
| MarketFeed.MarketPoller.Published | apps/api/src/modules/market_data/market_poller.ts:206-235 | the next quote is published, or the poll fails |
| JwksCaching.ServedKeysAreGenuine | apps/api/src/modules/auth/jwks_cache.ts:181-250 | over every run: a served key set is non-empty, is the last one successfully fetched, and is no older than max(cache age, stale grace) |
| JwksCaching.RequestIsAnswered | apps/api/src/modules/auth/jwks_cache.ts:181-212 | over every run, what a request gets: on a set no older than allowed, exactly that set at once if it names no key or one of the set, a refusal at once for another within the cooldown, a wait otherwise; without such a set, a wait |
| JwksCaching.WaitersAreTold | apps/api/src/modules/auth/jwks_cache.ts:225-250 | over every run, what each waiting request gets when the fetch settles: the new set; or the old set exactly within the stale grace; or that no keys are available |
| JwksCaching.SettlingIsTallied | apps/api/src/modules/auth/jwks_cache.ts:195-240 | how a settled fetch changes every statistic |
| JwksCaching.FetchesAreSingleFlight | apps/api/src/modules/auth/jwks_cache.ts:251-279 | at most one fetch is outstanding, every request is answered once none is, and a failed or empty fetch changes no key |
| JwksCaching.ProbesAreRateLimited | apps/api/src/modules/auth/jwks_cache.ts:190-204 | over every run, among fetches of any causes: those that unknown key ids started in a stretch L number at most L / cooldown + 1 |
| JwksCaching.FreshStartsAreProbes | apps/api/src/modules/auth/jwks_cache.ts:181-212 | over every stretch of a run in which the cached set stays fresh and is not warmed, every fetch was started by an unknown key id |
| JwksCaching.FreshStretchIsRateLimited | apps/api/src/modules/auth/jwks_cache.ts:34-40 | such a stretch of length L starts at most L / cooldown + 1 fetches, with any number of unknown key ids |
| JwksCaching.RequestStartsExactlyWhen | apps/api/src/modules/auth/jwks_cache.ts:181-212 | with no fetch outstanding, a request starts one exactly when the set is missing or aged out, or the key id is unknown and the cooldown is over; so within the cooldown exactly when the set is not fresh |
| JwksCaching.AgedOutFetchesAreNotLimited | apps/api/src/modules/auth/jwks_cache.ts:186-189 | from any moment of any run at which the set is missing or has aged out and no fetch is outstanding, any number of fetches can start at that one instant while they fail |
| JwksCaching.AFetchedSetAgesOut | apps/api/src/modules/auth/jwks_cache.ts:181-189 | such a moment comes after a fetched set, once it is older than allowed |
| JwksCaching.JwksCache.RequestKeys | apps/api/src/modules/auth/jwks_cache.ts:181-212 | the branches of a lookup, with exact statistics |
| JwksCaching.JwksCache.FetchSettled | apps/api/src/modules/auth/jwks_cache.ts:257-275 | a settled fetch replaces the set as a whole or leaves it, and every waiting request goes on |
| JwksCaching.JwksCache.Refresh | apps/api/src/modules/auth/jwks_cache.ts:252-257 | joins the outstanding fetch or starts one |
| RateHub.ListenersHearOnlyTheirTenant | apps/api/src/modules/realtime/rate_channel.ts:127-148 | under any interleaving, misrouted messages included: whatever a listener receives carries a tenant id it attached under, in a context that owns that tenant |
| RateHub.EventsReachEveryListener | apps/api/src/modules/realtime/rate_channel.ts:127-148 | an event reaches exactly the listeners of every subscribed channel of its own tenant |
| RateHub.AuthorizedExactlyWhen | apps/api/src/modules/realtime/rate_channel.ts:66-78 | a tenant's context owns exactly the ids equal to its own up to letter case; an administrator's none |
| RateHub.ChannelExactlyFor | apps/api/src/modules/realtime/rate_channel.ts:31-36 | a tenant has a channel exactly when its id is 36 hexadecimal digits or hyphens |
| RateHub.BeginOutcome | apps/api/src/modules/realtime/rate_hub.ts:83-126 | a call is let in exactly when authorised and below the limit, and waits on its tenant's channel |
| RateHub.SettledOutcome | apps/api/src/modules/realtime/rate_hub.ts:120-132 | a subscription makes its channel ready and heard, or takes it away |
| RateHub.FinishOutcome | apps/api/src/modules/realtime/rate_hub.ts:126-133 | a listener whose channel subscribed is on it and counted |
| RateHub.DetachRemoves | apps/api/src/modules/realtime/rate_hub.ts:133-152 | after its first detach a listener is on no current channel of its tenant and no other has moved |
| RateHub.DetachIsOnce | apps/api/src/modules/realtime/rate_hub.ts:136-137 | a second detach does nothing |
| RateHub.CloseEmpties | apps/api/src/modules/realtime/rate_hub.ts:162-178 | closing leaves no channel, no count and nobody listening |
| RateHub.AnythingMayHappen | apps/api/src/modules/realtime/rate_hub.ts:83-181 | a subscription can fail, a viewer leave, the hub close and any message come at any moment |
| RateHub.StepKeepsIsolated | apps/api/src/modules/realtime/rate_hub.ts:83-181 | every step keeps every channel's listeners entitled to its tenant |
| RateHub.CountsAreExact | apps/api/src/modules/realtime/rate_hub.ts:83-160 | however calls overlap: if no channel is torn down while an attach waits on it and no listener attaches twice to one channel, the count is the number of listeners in current channels, and no channel is empty unless an attach waits on it |
| RateHub.CountIsExactExactlyWhen | apps/api/src/modules/realtime/rate_hub.ts:83-181 | over every run, overlapping calls and all: the count is never below the listeners in current channels, and equals them exactly when, since the last close, no attach finished on a channel no longer current or for a listener already there, and no failed subscription took a channel with listeners |
| RateHub.StepDriftsExactlyWhen | apps/api/src/modules/realtime/rate_hub.ts:83-181 | what every step does to the gap between count and listeners: closing clears it, exactly those steps widen it, no other changes it |
| RateHub.LimitHoldsExactlyWhen | apps/api/src/modules/realtime/rate_hub.ts:91-132 | after any run the count stays within the limit however the waiting attaches finish, exactly when it and the attaches that can still be counted are within the limit together |
| RateHub.AdmittingIsSafeExactlyWhen | apps/api/src/modules/realtime/rate_hub.ts:91-96 | letting one more attach in is safe exactly when the count and the waiting attaches are below the limit together; the code compares the count alone |
| RateHub.GuardedAttachesKeepTheLimit | apps/api/src/modules/realtime/rate_hub.ts:91-96 | if every attach let in found that, count and listeners never pass the limit, however calls overlap |
| RateHub.LoneAttachIsGuarded | apps/api/src/modules/realtime/rate_hub.ts:91-96 | for an attach begun while none waits the code's own check is enough |
| RateHub.OverlappingAttachesPassTheLimit | apps/api/src/modules/realtime/rate_hub.ts:91-96 | two overlapping attaches both pass the capacity check |
| RateHub.LeavingDuringAnAttachStrandsIt | apps/api/src/modules/realtime/rate_hub.ts:126-152 | a viewer attaching while the last one leaves is counted for good in no channel |
| RateHub.Hub.Begin | apps/api/src/modules/realtime/rate_hub.ts:83-126 | authorise, check capacity, join or open the channel |
| RateHub.Hub.Resume | apps/api/src/modules/realtime/rate_hub.ts:126-129 | a listener is added and counted once the subscription stands |
| RateHub.Hub.Leave | apps/api/src/modules/realtime/rate_hub.ts:133-160 | detaching once removes the listener and tears down an emptied channel |
| RateHub.Hub.Deliver | apps/api/src/modules/realtime/rate_channel.ts:127-148 | every listener of a snapshot gets an event of the channel's own tenant, and nothing else gets through |

## Left out

- One tenant at a time: every statement of the rule and publication transactions filters on the tenant; row
  security and roles are not part of this model. `Publication` and `RateHub` do model several tenants.
- A product key is taken to identify a product within a tenant.
- A lock is started once; starting it again after `stop` is not modelled. Durations between ticks are left
  free: the timed results hold whatever the intervals are.
- One clock for database and application; a stored response's creation time is any moment between its
  transaction's begin and the insert.
- PricingRules.LinkedExactlyWhen: snapshots are compared as rows; that a snapshot determines its row is
  AuditTrail.SnapshotIsFaithful. Actor, request metadata, actions and timestamps of audit rows are left out.
- AuditTrail.AuditRoundTrip: the set of changed fields, not their order; field names are an enumeration.
- A failed insert after its wait, a dead connection or a lost response are all the step that aborts. Whether
  a product exists and is active when a rule is created is such an abort.
- Recomputes: one product of one tenant; a transaction's other products do not touch its row. Rates are arbitrary.
- The recompute inside a rule change is `PublicationService.Database.RecomputeRule`; `PricingRules` leaves its
  tables out, since nothing there reads them.
- IdempotencyCleanup.PurgeExpiredKeys: stated for a run on its own; what concurrent purges and writers may do to
  stored keys is in ExactlyOnce, whose purge step takes any expired keys.
- The hash itself: the fingerprint is the text that is hashed. Values are what JSON can hold; dates, symbols and
  functions are left out, and a number is its printed text.
- `typeof` and integer checks on numbers, and the numeric overloads of the parsers: integers are unbounded.
- Schema validation of requests and quotes is a precondition or a parameter (`ValidOp`, `Payload`); freshness
  policy, provider status and poll statistics are left out.
- MarketFeed.HandOverIsExactExactlyWhen: a publication that throws is taken not to have published its quote.
- JwksCaching.ServedKeysAreGenuine: requests that waited for a fetch resume at the time it settles.
- RateHub.ListenersHearOnlyTheirTenant: case folding is that of ASCII, which covers every id a channel accepts.
- What Redis does with subscriptions is only that a handler may be called while subscribed; unsubscribing may
  remove any handlers.
- Key resolution and signature checks, SSE sockets, routing, logging, configuration and user interface.
- Slugs, settings, branding, product configuration, the authorization matrix and pipeline health: decision
  tables and simple updates.
