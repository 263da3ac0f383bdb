# Flash Pag: verified models

Flash Pag is a Pix payment gateway: a Go service in front of PostgreSQL functions, with payment
providers behind adapters and a React console. This project models the parts that carry its state
and proves what they keep. Verify everything with `dafny verify dfyconfig.toml`.

**Payments.** `Ledger` holds the financial tables and the SQL functions that begin, settle, complete
and fail a payment, each posting one balanced journal over the buckets available, reserved, clearing
and platform revenue. `Gateway` is the state machine of the handlers: every database call and every
provider call of the charge, outbound, webhook and reconciliation handlers is one atomic step. Any
number of runs interleave, any run may stop between two steps, and a database call may be lost on the
way or lose its reply after taking effect. `GatewaySafety` proves one invariant for every action;
`GatewayTheorems` reads the promises off it for every history. `GatewayCredits` follows the status and
credit of a pix_in through every step, `GatewayReach` finds exactly the rows that can still change,
`GatewayFees` says which payments begin and what fee is frozen into them, `GatewayReplies` what create
requests answer and what their repetitions get, `GatewayDeliveries` what an acknowledged webhook and an
answered reconciliation have done, `GatewayUndisturbed` what each handler brings about from any reachable
state when nothing interferes, `GatewayScope` that no handler touches or shows anything but its own row,
and `GatewayKeys` what becomes of an idempotency key whose run ended early. `GatewayHistories` builds the
histories that serve as witnesses. `Handlers` has the same handlers as imperative code over a `Database`
object and proves each equal to the machine running it alone.

**KYC.** `Kyc` models profiles, documents, reviews and events, the SQL functions over them and the Go
checks in front. A check and the function it guards are separate steps, and so are the unlocked version
read of a document registration and its writes. `KycSafety`, `KycVersions` and `KycTheorems` prove what
survives every interleaving, and when exactly the version numbers do; `KycRecords` says what each
function leaves behind, and `KycHandlers` has the functions in place on a table object.

**Exact arithmetic and codecs.** `Pricing` (fee rules, the browser's simulator, the frozen quote),
`RecoveryKit` (the 128-byte recovery file), `DecimalAmount` (decimal reais to int64 centavos with every
wrap-around written out), `SignedAmounts` (everything else its parser accepts).

**Loops and caches.** `TokenCache` (the Pixhub token cache and its single retry under concurrency),
`Finance` (the daily finance report), `Paging` (the paged inventory read), `Members` (console
membership with the failures of every database call, each handler one step) and `MemberRuns` (the same
handlers with their database calls apart, overlapping freely).

## What the proofs turned up

- The documentation says an ambiguous payment is resolved by reconciliation (README.md:91,
  DESIGN.md:506, docs/DECISIONS.md:17-21). A row is marked ambiguous only before its external id is
  stored, and reconciliation and webhooks reach a row only through that id. Such rows are reached
  (`AmbiguousIsReached`), no handler ever changes one again (`AmbiguousIsForever`), and the branches of
  reconciliation that expect one (internal/httpapi/reconcile.go:74-83, 99-102) are never taken
  (`ReconciliationNeverMeetsAmbiguity`). `ExactlyTheRowsOutOfReach` gives the whole set of rows that no
  continuation changes.
- The failure patch of a pix_in (internal/httpapi/business.go:226-229) has no guard. Over every history,
  row and ledger agree on the credit if and only if no refused status reached the row while it was
  succeeded (`FailurePatchAgreesExactlyBeforeSuccess`); `LateFailureLeavesTheCredit` is a history that
  ends with a failed pix_in whose credit stays in the ledger.
- register_merchant_kyc_document reads the highest version without a lock
  (migrations/0004_kyc_onboarding.sql:172-174). Versions number the documents of a merchant and type in
  order if and only if no registration is overtaken between that read and its write
  (`VersionsInOrderExactlyWithoutOvertaking`); `TwoUploadsShareAVersion` is a history with two documents of
  version 1. However registrations overlap, no version is skipped and at most one document is current.
- A run that ends between acquiring an idempotency key and storing a response leaves the key in
  processing for ever: every later request with it is answered "in progress", or a conflict
  (`AbandonedForever`, `AbandonedIsReached`). The message to reconcile the resource
  (internal/httpapi/handlers_public.go:246-247) names no way out: none of these handlers releases the key.
- A create-member request whose membership lookup is not answered takes an existing member for a new
  one (internal/httpapi/handlers_console_saas.go:90, 256-265), and then skips both guards. With each
  handler as one step, that is the only way a merchant loses its last owner or an admin changes an owner
  (`OwnerIsLostExactlyByABlindDemotion`, `AdminReachesPrivilegedRowsOnlyBlindly`,
  `OneLostReadOrphansAMerchant`).
- The last-owner check is not atomic with the write it guards. When handlers overlap, a merchant has an
  owner at every moment if and only if no write takes its only owner without the membership read, or
  after another owner was lost since the owner check (`AnOwnerRemainsExactly`); two owners who remove each
  other leave none (`OverlappingRemovalsLeaveNoOwner`).
- Nor is the check of what an admin may manage: an admin's write changes an owner or admin row if and only
  if the target was promoted since it was read, or was never read
  (`AdminWriteReachesPrivilegedRowsExactly`, `APromotedMemberIsRemoved`).
- decimalBRLToMinor accepts a sign inside either part, and a text such as "--92233720368547759" passes its
  overflow guard and wraps around (`ASecondMinusCanWrap`). `AcceptsExactlySignedAmounts` gives the exact set
  of accepted texts, and `ResultIsExactExactlyInRange` when the result is what the text denotes.
- A table of exactly the ceiling's length is reported incomplete by the paged inventory, although every
  row was returned (`AdminPagedRows`).

## Model

| member | source | states |
|---|---|---|
| GatewayTheorems.ReservedMatchesOpenPayments | internal/httpapi/handlers_public.go:256-293 | in every reachable state an account's reserved balance is the sum of amount plus fee over its outbound payments begun and not completed or failed; ambiguous ones stay in the sum |
| GatewayTheorems.AvailableIsNeverNegative | migrations/0007_merchant_pricing.sql:435-476 | no interleaving overdraws an account |
| GatewayTheorems.JournalsSumToZero | migrations/0001_init.sql:222-233 | every journal of every reachable state balances |
| GatewayTheorems.ReservationDischargedOnce | internal/httpapi/business.go:214-243 | one reservation per outbound payment, and one completion or one release exactly when it is terminal, however create, webhook and reconcile runs race |
| GatewayTheorems.CreditedOnceForTheNet | internal/httpapi/business.go:214-229 | a pix_in is credited at most once, certainly while succeeded, never while open, for amount minus fee |
| GatewayTheorems.FundsReservedBeforeTheProviderIsCalled | internal/httpapi/handlers_public.go:256-261 | when the provider is called for an outbound payment the reservation is its whole ledger history |
| GatewayTheorems.HistoryIsNotRewritten | internal/httpapi/business.go:210-243 | over any continuation, economics stay frozen, external ids are written once, journals only grow, and succeeded or failed outbound rows never change |
| GatewayTheorems.AmbiguousHasNoExternalId | internal/httpapi/handlers_public.go:269-275 | an ambiguous row has no external id, so no webhook lookup finds it |
| GatewayTheorems.AmbiguousIsForever | internal/httpapi/reconcile.go:20-83 | no handler changes an ambiguous row again, against the documented reconciliation |
| GatewayTheorems.AmbiguousIsReached | internal/httpapi/handlers_public.go:145-158 | a charge whose provider call ends in an unknown error leaves an ambiguous row |
| GatewayTheorems.ReconciliationNeverMeetsAmbiguity | internal/httpapi/reconcile.go:69-102 | no reconciliation of any history resets an ambiguous row or answers that one is still unresolved |
| GatewayReach.ExactlyTheRowsOutOfReach | internal/httpapi/handlers_public.go:79-293 | a row is unchanged by every continuation if and only if no provider event can both find and move it and no create run has a changing step left |
| GatewayTheorems.OneTransactionPerKey | internal/httpapi/handlers_public.go:232-259 | for one organization, operation and Idempotency-Key at most one transaction is begun, over retries, duplicates and crashes |
| GatewayTheorems.OneProviderCallPerKey | internal/httpapi/handlers_public.go:232-261 | and at most one provider create call is made |
| GatewayTheorems.ReplaysAgree | migrations/0001_init.sql:246-261 | all replays of a key give one response, to one fingerprint |
| GatewayTheorems.ReplayShowsTheBegunTransaction | internal/httpapi/handlers_public.go:236-244 | every replay has a transaction begun under the same key by a run with the same input, and shows that transaction |
| GatewayReplies.ShownRowsWereRows | internal/httpapi/handlers_public.go:145-180 | over every history, a transaction that a create or reconcile request holds or is answered with, or that is stored as a key's response, is a row exactly as the books had it at some earlier moment |
| GatewayReplies.ClaimIsAnsweredByTheRow | migrations/0001_init.sql:246-261 | an absent key is acquired; a key of other input is a conflict; a succeeded or finally failed one replays its response; any other is in progress |
| GatewayReplies.CreatedIsReplayed | internal/httpapi/handlers_public.go:232-293 | over every history, once a request was answered with a created transaction, every later request with its key and input whose claim is answered gets that same transaction and changes nothing |
| GatewayUndisturbed.UndisturbedCreate | internal/httpapi/handlers_public.go:110-180 | from every reachable state, a request whose key is free, whose payment can begin and whose external id no other row has ends with its row as the books then have it, with the external id and status the provider gave, failed after a final error or ambiguous after an unknown one, stored under the key as the response |
| GatewayFees.BeginsExactlyWhenGranted | migrations/0007_merchant_pricing.sql:401-476 | a payment begins, with a given fee in its row, if and only if its amount, id, active account and pricing rule allow it, the fee is the clamped sum of fixed part and half-up percent, and it fits the amount of a pix_in or the available balance of an outbound payment |
| GatewayFees.NewRowCarriesTheFee | migrations/0007_merchant_pricing.sql:416-427 | over every history, a row that a step adds has the fee of the rule in force for its organization and operation at that moment |
| GatewayScope.HandlersTouchOnlyTheirRows | internal/httpapi/handlers_public.go:79-293 | over every history, a step of a handler changes, adds and posts for nothing but its own row: the one it creates, one its event identifies and agrees with, or the one to reconcile in its organization |
| GatewayScope.AnswersStayInTheOrganization | internal/httpapi/reconcile.go:20-54 | over every history, no create or reconcile request is answered with a transaction of another organization, and a reconciliation asks only about a row of its own that was open when read and still has the identity it asks for |
| GatewayTheorems.EvidenceComesFirst | internal/httpapi/provider_webhook.go:51-100 | an event's evidence row exists before the event changes the books, and an event for a terminal payment adds no journal |
| GatewayDeliveries.AcknowledgedDeliveryTookEffect | internal/httpapi/provider_webhook.go:78-104 | over every history, a delivery answered as received, or about to be, has a row of its connection and external id, of its kind and amount when it names them, on which its outcome has taken effect: terminal if one was reported, failed if refused, succeeded if a paid outbound payment; once answered, processed_at is set |
| GatewayDeliveries.ContradictionIsRefused | internal/httpapi/provider_webhook.go:83-91 | an event whose kind or amount contradicts the row it finds is refused with nothing changed |
| GatewayUndisturbed.UndisturbedDelivery | internal/httpapi/provider_webhook.go:56-104 | from every reachable state, a delivery of an unprocessed event that agrees with a row, first or repeated, either gives the row the reported outcome, is answered as received and sets processed_at, or is an illegal transition that changes nothing and stays unprocessed |
| GatewayUndisturbed.RedeliveryIsADuplicate | internal/httpapi/provider_webhook.go:65-74 | a delivery of a processed event whose calls are delivered is answered as a duplicate with nothing changed |
| GatewayUndisturbed.UnknownEventStaysUnprocessed | internal/httpapi/provider_webhook.go:77-82 | an event without a row changes no books and stays unprocessed, so its redelivery is looked up again |
| GatewayDeliveries.ReconciledAnswerTookEffect | internal/httpapi/reconcile.go:84-103 | over every history, when a reconciliation reads its row again the provider's answer has taken effect on it, and the row it answers with is that row |
| GatewayUndisturbed.UndisturbedReconciliation | internal/httpapi/reconcile.go:20-103 | from every reachable state, a reconciliation of an open row that the provider can identify brings the provider's answer about and answers with the row as the books then have it |
| GatewayUndisturbed.OnlyOpenIdentifiableRowsAreAsked | internal/httpapi/reconcile.go:20-32 | the provider is asked exactly about the organization's own open rows with connection and external id; a terminal row is answered as it is, others are not found or unavailable |
| GatewayUndisturbed.OtherIdentityChangesNothing | internal/httpapi/reconcile.go:54-57 | an answer that names another transaction is a conflict with nothing changed |
| GatewayKeys.AbandonedForever | internal/httpapi/handlers_public.go:232-251 | once the run that acquired a key ended with the key in processing, no continuation changes the key, and every answered claim gets "in progress" or a conflict |
| GatewayKeys.AbandonedIsReached | internal/httpapi/handlers_public.go:160-163 | a history whose failed recording of the external id leaves such a key |
| GatewayTheorems.ProcessedDeliveryChangesNothing | internal/httpapi/provider_webhook.go:67-77 | a delivery still at its evidence check stays without effect once the event is processed |
| GatewayTheorems.DeliveryAfterProcessingChangesNothing | internal/httpapi/provider_webhook.go:67-77 | a delivery that starts after processed_at is set never changes the store, in any interleaving |
| GatewayTheorems.FailurePatchAgreesExactlyBeforeSuccess | internal/httpapi/business.go:225-230 | for every history and pix_in, succeeded and credited coincide if and only if no step took a refused status to the row while it was succeeded |
| GatewayTheorems.TerminalPixInOnlyFails | internal/httpapi/business.go:214-230 | over any continuation a terminal pix_in keeps its credit; a failed one stays failed, and a succeeded one becomes failed exactly when a refusal reaches it |
| GatewayCredits.AgreementStep | internal/httpapi/business.go:214-230 | one step breaks the agreement of a row and its credit exactly when it is a late refusal, and none restores it |
| GatewayCredits.StepMoves | internal/httpapi/business.go:214-243 | how every action moves the status and the credit of a pix_in |
| GatewayTheorems.LateFailureLeavesTheCredit | internal/httpapi/business.go:225-230 | a concrete history ends with a failed pix_in that was credited |
| GatewaySafety.NextKeepsInv | internal/httpapi/handlers_public.go:79-293 | every action keeps the invariant of the protocol and undoes nothing a row says |
| GatewaySafety.ReportedStep | internal/httpapi/handlers_public.go:279-284 | applying the status of the create call is safe although webhooks and reconciliations may have run since the external id was recorded |
| GatewaySafety.WebhookStep | internal/httpapi/provider_webhook.go:56-104 | every step of a delivery keeps the invariant |
| GatewaySafety.ReconcileStep | internal/httpapi/reconcile.go:20-95 | every step of a reconciliation keeps the invariant |
| GatewaySafety.OtherRunsKeep | internal/httpapi/handlers_public.go:79-293 | what a run relies on survives the steps of every other run |
| LedgerLaws.BalanceSplitsByTransaction | migrations/0001_init.sql:235-244 | a bucket's balance is the sum over transactions of their own journals: none lost, none counted twice |
| LedgerLaws.BalanceIsPositions | migrations/0007_merchant_pricing.sql:401-574 | every bucket balance can be read off the transaction rows alone |
| LedgerLaws.ReservedIsOpenDebits | migrations/0007_merchant_pricing.sql:435-574 | reserved equals the open outbound payments, fees included |
| LedgerLaws.OutboundDischargedOnce | migrations/0007_merchant_pricing.sql:515-574 | exactly one reservation and at most one discharge, matching the status |
| LedgerLaws.PixInCreditedOnce | migrations/0007_merchant_pricing.sql:478-513 | at most one credit per pix_in |
| LedgerLaws.EveryJournalBalances | migrations/0001_init.sql:222-233 | every posted journal sums to zero |
| Ledger.JournalEffects | migrations/0007_merchant_pricing.sql:463-574 | what each kind of journal moves, bucket by bucket, and that it balances |
| Ledger.BeginPixInKeepsBooks | migrations/0007_merchant_pricing.sql:401-433 | begin_pix_in keeps the books consistent |
| Ledger.BeginOutboundKeepsBooks | migrations/0007_merchant_pricing.sql:435-476 | begin_outbound reserves without overdraft and keeps the books consistent |
| Ledger.SettleKeepsBooks | migrations/0007_merchant_pricing.sql:478-513 | settle_pix_in keeps the books consistent |
| Ledger.CompleteKeepsBooks | migrations/0007_merchant_pricing.sql:515-548 | complete_outbound keeps the books consistent |
| Ledger.FailKeepsBooks | migrations/0007_merchant_pricing.sql:550-574 | fail_outbound keeps the books consistent |
| Ledger.PatchStatusKeepsBooks | internal/httpapi/business.go:210-212 | an unguarded status patch keeps the books consistent if and only if it agrees with the journals the transaction has |
| Ledger.PatchExternalIdKeepsBooks | internal/httpapi/business.go:210-212 | recording an external id keeps provider identities unique and the books consistent |
| Handlers.Database.BeginPixIn | migrations/0007_merchant_pricing.sql:401-433 | in place: refuses with nothing changed, or inserts the pending row with its frozen fee |
| Handlers.Database.BeginOutbound | migrations/0007_merchant_pricing.sql:435-476 | in place: refuses with nothing changed, or inserts the row and posts its reservation |
| Handlers.Database.SettlePixIn | migrations/0007_merchant_pricing.sql:478-513 | in place: credits once, repeats are no-ops, failed rows are refused |
| Handlers.Database.CompleteOutbound | migrations/0007_merchant_pricing.sql:515-548 | in place: moves the reservation to clearing and revenue once |
| Handlers.Database.FailOutbound | migrations/0007_merchant_pricing.sql:550-574 | in place: releases the reservation once |
| Handlers.Database.PatchExternalId | migrations/0001_init.sql:113-114 | in place: refused when another row has the identity |
| Handlers.Database.ClaimIdempotency | migrations/0001_init.sql:246-261 | in place: acquires a free key, otherwise judges the row that is there |
| Handlers.Database.FinishIdempotency | migrations/0001_init.sql:263-270 | in place: stores status and response |
| Handlers.ApplyProviderStatus | internal/httpapi/business.go:214-243 | calls the function of the kind and status, delivered or not, as the machine's step does |
| Handlers.CreateForOrg | internal/httpapi/handlers_public.go:110-293 | the create handlers, run alone, end in exactly the state and reply of the machine for every script of replies and failures |
| Handlers.ProviderWebhook | internal/httpapi/provider_webhook.go:51-104 | the webhook handler, run alone, is the machine's run |
| Handlers.ReconcileTransaction | internal/httpapi/reconcile.go:20-103 | the reconciliation handler, run alone, ends in the machine's state and reply for every script: refusals, provider errors, the final re-read |
| Handlers.AloneIsAHistory | internal/httpapi/handlers_public.go:79-293 | a run advanced alone is one of the machine's histories, so every theorem covers the imperative handlers |
| KycTheorems.ReviewedMerchantsAreDocumented | internal/httpapi/handlers_kyc.go:251-286 | a submitted, under_review or approved merchant that was not grandfathered has a current document of each required type, under any interleaving of checks and functions |
| KycTheorems.EventsExplainTheStatus | migrations/0004_kyc_onboarding.sql:189-283 | the status events form an unbroken chain of legal transitions ending at the profile's status, and the reviews list exactly the review events |
| KycTheorems.ApprovalGoesThroughSubmission | migrations/0004_kyc_onboarding.sql:189-283 | every approval that is not grandfathered has a submission in its event history |
| KycTheorems.ApprovedIsFinal | migrations/0004_kyc_onboarding.sql:238-283 | no history leaves approved or changes its timestamps and note |
| KycTheorems.VersionsInOrderExactlyWithoutOvertaking | migrations/0004_kyc_onboarding.sql:171-181 | for every history, the documents of a merchant and type are numbered 1, 2, 3, ... in order if and only if no registration was overtaken between its version read and its write |
| KycTheorems.VersionsAreConsecutive | migrations/0004_kyc_onboarding.sql:171-181 | without overtaking, versions are exactly 1..n, each once, and the current one is n |
| KycTheorems.NoVersionIsSkipped | migrations/0004_kyc_onboarding.sql:171-181 | in every interleaving each version up to the highest is taken |
| KycTheorems.TwoUploadsShareAVersion | migrations/0004_kyc_onboarding.sql:171-181 | a history in which two overlapping uploads both register version 1 |
| KycTheorems.CurrentIsTheLastRegistered | migrations/0004_kyc_onboarding.sql:175-181 | in every interleaving a document is current exactly when none of its merchant and type was registered after it |
| KycTheorems.CurrentQueryIsComplete | internal/httpapi/handlers_kyc.go:408-416 | the 100-row current-only query returns every current document |
| KycTheorems.ProfileFollowsStatus | migrations/0004_kyc_onboarding.sql:203-271 | approved_at exactly when approved, rejected_at exactly when rejected, the note absent while waiting and present when changes are needed |
| KycSafety.LimitDropsNothing | internal/httpapi/handlers_kyc.go:408-416 | a merchant has at most seven current documents, so the row limit drops none |
| KycSafety.OnlySubmissionsLeaveDraft | migrations/0004_kyc_onboarding.sql:189-283 | any legal chain past draft without a legacy approval contains a submission |
| KycSafety.CheckedIsDocumented | internal/httpapi/handlers_kyc.go:267-281 | the document check, passed on rows read earlier, still holds when the submission lands |
| KycSafety.NextKeepsInv | migrations/0004_kyc_onboarding.sql:150-283 | every step keeps the invariant and takes back no type, event or approval |
| KycHandlers.KycDatabase.RegisterMerchantKycDocument | migrations/0004_kyc_onboarding.sql:150-187 | in place: retires the current document and inserts the next version |
| KycHandlers.KycDatabase.SubmitMerchantKyc | migrations/0004_kyc_onboarding.sql:189-212 | in place: guarded submission resetting current documents |
| KycHandlers.KycDatabase.StartMerchantKycReview | migrations/0004_kyc_onboarding.sql:214-236 | in place: guarded start of a review |
| KycHandlers.KycDatabase.DecideMerchantKyc | migrations/0004_kyc_onboarding.sql:238-283 | in place: guarded decision with its note, timestamps, review and event |
| KycHandlers.OnlyDigits | internal/httpapi/handlers_kyc.go:557-565 | keeps the digits, in order, and nothing else |
| KycHandlers.MissingRequirements | internal/httpapi/handlers_kyc.go:523-555 | lists everything that is missing and nothing else; empty exactly when the profile is complete |
| KycHandlers.ConsoleSubmitKyc | internal/httpapi/handlers_kyc.go:251-286 | submits exactly when nothing is missing and the status allows it |
| KycRecords.NoteIsStored | migrations/0004_kyc_onboarding.sql:224-279 | a note is stored without the spaces around it, and not at all exactly when it has nothing else |
| KycRecords.RegistrationIsRecorded | migrations/0004_kyc_onboarding.sql:165-186 | a registration that lands adds one pending current document with its event and retires the others of its slot; one for an unknown merchant or a used id changes nothing |
| KycRecords.SubmissionIsRecorded | migrations/0004_kyc_onboarding.sql:189-212 | a submission that lands clears the earlier outcome, returns the current documents to pending and records its event; otherwise nothing changes |
| KycRecords.ReviewStartIsRecorded | migrations/0004_kyc_onboarding.sql:214-236 | starting a review of a submitted merchant records time, review, note and event and touches no document; of any other it changes nothing |
| KycRecords.DecisionIsRecorded | migrations/0004_kyc_onboarding.sql:238-283 | a decision records status, times, the public note in the profile, both notes in the review, and an event, and accepts the current documents exactly when it approves; one that is not allowed changes nothing |
| KycRecords.EditTakesEffectExactlyWhenEditable | internal/httpapi/handlers_kyc.go:128-162 | an edit with nothing in between replaces the text columns, and nothing else, exactly when the profile is open to edits |
| KycRecords.UploadTakesEffectExactlyWhenEditable | internal/httpapi/handlers_kyc.go:164-235 | an upload with nothing in between registers its document above every version of its slot, exactly when the profile is open to edits and the id is new |
| Pricing.ValidateInput | internal/httpapi/handlers_pricing.go:42-61 | accepts exactly the documents with the three operations and accepted rules; its last check never fires |
| Pricing.PercentIsHalfUp | web/src/features/platform/PlatformPricingPage.tsx:81-83 | the percent part is the half-up rounding, never above the amount |
| Pricing.SplittingMovesPercentByAtMostOne | web/src/features/platform/PlatformPricingPage.tsx:81-83 | splitting an amount moves the percent part by at most one centavo |
| Pricing.FeeIsMonotone | web/src/features/platform/PlatformPricingPage.tsx:81-87 | the fee is monotone in the amount for every accepted rule |
| Pricing.FeeIsWithinItsBounds | web/src/features/platform/PlatformPricingPage.tsx:84-86 | the fee lies within the minimum and maximum when given |
| Pricing.FeeIsTheClampedSum | web/src/features/platform/PlatformPricingPage.tsx:81-87 | a number is the fee if and only if it is the fixed part plus the half-up percent where that lies within the bounds, the minimum where it is below, the maximum where it is above |
| Pricing.QuoteIsTheSimulatedFee | migrations/0007_merchant_pricing.sql:314-320 | in exact integers the frozen quote is the simulated fee, refused exactly when the unclamped fee exceeds a bigint |
| Pricing.BrowserShowsTheQuote | web/src/features/platform/PlatformPricingPage.tsx:81-87 | with JavaScript numbers rounded in any way above 2^53-1, the browser shows exactly the quote while fixed part plus amount is a safe integer |
| RecoveryKit.CheckAccountId | internal/recovery/kit.go:135-151 | accepts exactly the hyphenated hexadecimal form |
| RecoveryKit.Encode | internal/recovery/kit.go:60-77 | the filled buffer is the specified file, or the first error |
| RecoveryKit.ParseOfEncode | internal/recovery/kit.go:60-104 | parsing an encoded kit returns it, key id in lower case, for every MAC function |
| RecoveryKit.EncodeOfParse | internal/recovery/kit.go:79-104 | encoding a parsed file returns it byte for byte |
| RecoveryKit.ParseAcceptsExactlyEncodedFiles | internal/recovery/kit.go:79-104 | Parse accepts exactly the files Encode can produce |
| RecoveryKit.EncodesExactlyWellFormedKits | internal/recovery/kit.go:60-77 | a kit encodes if and only if key length, account id and key id are well formed; the file has 128 bytes |
| DecimalAmount.ParsesExactly | internal/provider/pixhub/pixhub.go:559-599 | every padded decimal amount gives its exact centavos, with an error exactly when the magnitude exceeds 2^63-1 |
| DecimalAmount.AcceptsExactlyDecimals | internal/provider/pixhub/pixhub.go:559-599 | over all texts, the ones accepted without an inner sign are exactly the decimal amounts in range |
| SignedAmounts.AcceptsExactlySignedAmounts | internal/provider/pixhub/pixhub.go:559-599 | over all texts, the ones accepted are exactly the amounts with an optional sign of its own in each part that pass the guard |
| SignedAmounts.ResultIsExactExactlyInRange | internal/provider/pixhub/pixhub.go:591-598 | an accepted text gives the amount it denotes if and only if that amount fits an int64 |
| SignedAmounts.ASecondMinusCanWrap | internal/provider/pixhub/pixhub.go:564-598 | a text with a second minus is accepted with a wrapped result |
| DecimalAmount.GuardIsExact | internal/provider/pixhub/pixhub.go:591-598 | the overflow guard is exact and no int64 operation wraps |
| DecimalAmount.ParseOfPrinted | internal/provider/pixhub/pixhub.go:559-599 | printing any int64 but the least with two decimals and parsing gives it back |
| TokenCache.ServedTokensAreAlive | internal/provider/pixhub/pixhub.go:374-431 | in every interleaving a cached token is served only to the connection and client it was issued for, strictly before its declared lifetime ends, ten seconds before when that exceeds ten seconds |
| TokenCache.SentTokensAreAlive | internal/provider/pixhub/pixhub.go:321-431 | every send within ten seconds of the clock reading that chose its token carries a live token of the caller's own key, when the lifetime exceeds ten seconds |
| TokenCache.AtMostOneSendIsNotRefused | internal/provider/pixhub/pixhub.go:321-340 | one request sends at most twice, the second time only after a 401 |
| TokenCache.AStoredTokenIsServed | internal/provider/pixhub/pixhub.go:374-431 | a stored token is served to every caller of its key whose clock reading is before its cached lifetime ends: 50 seconds when none was declared, otherwise ten less than declared if that leaves anything |
| TokenCache.ARefusedTokenIsReplaced | internal/provider/pixhub/pixhub.go:330-339 | after a 401 the cache is bypassed, the operation is sent once more with a token just issued, which replaces the refused one, and that result is final |
| TokenCache.Adapter.Token | internal/provider/pixhub/pixhub.go:374-431 | the token and the new cache for every clock reading and authentication answer |
| TokenCache.Adapter.Request | internal/provider/pixhub/pixhub.go:321-340 | which token each send uses, the result, and the cache left behind |
| Finance.PeriodDateKeys | web/src/features/platform/admin-finance.ts:49-62 | the loop builds the period, oldest day first |
| Finance.PeriodIsTheLastDays | web/src/features/platform/admin-finance.ts:49-62 | the period holds exactly the last days up to today, in order, each once |
| Finance.FilteredKeepsExactlyTheAccepted | web/src/features/platform/admin-finance.ts:64-71 | the filter keeps every accepted item as often as it occurs and nothing else |
| Finance.EveryItemFindsItsBucket | web/src/features/platform/admin-finance.ts:64-109 | every kept item falls on a day that has a bucket |
| Finance.AggregateFinance | web/src/features/platform/admin-finance.ts:73-128 | the one-pass totals and buckets are the sums over the kept transactions |
| Finance.DailyAddsUpToTheTotals | web/src/features/platform/admin-finance.ts:73-128 | daily TPV, revenue and counts add up to the totals |
| Finance.KnownPlusMissingIsSucceeded | web/src/features/platform/admin-finance.ts:97-108 | known plus missing costs are the succeeded transactions |
| Finance.MarginIsTheSumOfMargins | web/src/features/platform/admin-finance.ts:125-133 | a margin exists exactly when no cost is missing, and is then the sum of the transactions' margins |
| Finance.ReportsAdd | web/src/features/platform/admin-finance.ts:73-128 | the report of two lists together is the two reports added, totals field by field and daily points day by day |
| Finance.ReportIgnoresOrder | web/src/features/platform/admin-finance.ts:73-128 | reordering the input changes neither totals nor daily points |
| Paging.AdminPagedRows | internal/httpapi/handlers_admin_tenants.go:87-110 | the first min(n, ceiling) rows in order, complete exactly when n is below the ceiling, an error exactly when a needed page is not answered |
| Members.LimitedQueryFindsAnotherOwner | internal/httpapi/handlers_console_saas.go:267-281 | the ten-row owner query answers as the unlimited one, whichever rows come back |
| Members.OnlyTheTargetChanges | internal/httpapi/handlers_console_saas.go:55-195 | a request changes at most the row it addresses, and a refusal changes nothing |
| Members.RequestIsGrantedExactly | internal/httpapi/handlers_console_saas.go:55-195 | with every call answered, a request is granted if and only if the caller manages the role asked for and the target's present one, the target exists unless it is a create, and the last owner stays one; the target then has exactly that role, or no row |
| Members.OwnerIsLostExactlyByABlindDemotion | internal/httpapi/handlers_console_saas.go:55-195 | a step takes a merchant's last owner if and only if it is a create that could not read that owner's membership |
| Members.AnOwnerRemains | internal/httpapi/handlers_console_saas.go:55-195 | over any run whose membership reads are answered, a merchant with an owner keeps one |
| Members.AdminReachesPrivilegedRowsOnlyBlindly | internal/httpapi/handlers_console_saas.go:300-323 | an admin's step changes owner or admin rows if and only if it is such a blind create |
| Members.AdminsNeverChangePrivilegedRows | internal/httpapi/handlers_console_saas.go:300-323 | no run of admins whose reads are answered changes who is an owner or admin |
| Members.OneLostReadOrphansAMerchant | internal/httpapi/handlers_console_saas.go:90-98 | a concrete request by an admin that leaves a merchant without an owner |
| MemberRuns.AloneIsTheHandler | internal/httpapi/handlers_console_saas.go:55-195 | a request whose database calls run with nothing in between has the rows and response of the handler as one step |
| MemberRuns.AnOwnerRemainsExactly | internal/httpapi/handlers_console_saas.go:90-195 | over every interleaving of the handlers' calls, a merchant has an owner at every moment if and only if no write takes its only owner unread or after another owner was lost since the run's owner check |
| MemberRuns.AnOwnerRemainsUnlessOvertaken | internal/httpapi/handlers_console_saas.go:90-195 | in particular it keeps one when no owner-taking write at all is unread or overtaken after its owner check |
| MemberRuns.AdminWriteReachesPrivilegedRowsExactly | internal/httpapi/handlers_console_saas.go:90-195 | over every interleaving, an admin's landed write changes an owner or admin row if and only if the target was promoted since its membership read, or is one and was never read |
| MemberRuns.APromotedMemberIsRemoved | internal/httpapi/handlers_console_saas.go:160-195 | for every merchant with an owner, an admin and a viewer, a history with every call answered in which the admin removes a member promoted to owner |
| MemberRuns.OverlappingRemovalsLeaveNoOwner | internal/httpapi/handlers_console_saas.go:176-194 | whenever the only two owners of a merchant remove each other and both requests pass their checks first, a history with every call answered leaves no owner |
| Members.Console.ConsoleCreateMember | internal/httpapi/handlers_console_saas.go:55-109 | in place: the response and the new table for every answer of the database |
| Members.Console.ConsoleUpdateMember | internal/httpapi/handlers_console_saas.go:111-158 | in place: the response and the new table for every answer of the database |
| Members.Console.ConsoleDeleteMember | internal/httpapi/handlers_console_saas.go:160-195 | in place: the response and the new table for every answer of the database |
| Members.Console.MerchantHasAnotherOwner | internal/httpapi/handlers_console_saas.go:267-281 | true exactly when some returned row is another user; false when the query is not answered |

## Left out

- HTTP routing, JSON, cookies, sessions, MFA, API scopes, the role checks in front of the reconciliation and KYC handlers, the Supabase client, storage and the UI: input and output; a decoded request is the starting point.
- Cryptography: the MAC is an arbitrary function of key and data, a request fingerprint an arbitrary string; nothing is claimed about forging either.
- Reads before a create (account, connection, customer, provider) are fields of the request; the SQL functions' own guards on the account are modelled.
- Descriptive columns (currency, description, pix_key, qr_code, failure text, provider payload), transaction_events and merchant webhooks: they steer no modelled branch; a failed payload patch is a run that stops there.
- The fetch between recording the external id and applying the reported status only supplies id and kind; when it fails, the empty id is refused by the database, which is the case of a call that does not arrive.
- Provider statuses are the three the adapters map to (internal/provider/pixhub/pixhub.go:515-557); the adapters' other mappings are left out.
- Pricing versions and their immutability triggers (migrations/0007_merchant_pricing.sql:50-268): an organization's rule for an operation is a setting that may change at any time, and the fee is frozen into the row.
- LedgerLaws.PixInCreditedOnce: says nothing certain of a failed pix_in, because the failure patch hides whether it was credited before.
- KYC: the upload's status check and its registration are separate steps, so no claim is made that documents stay fixed after submission; file contents, MIME detection and storage are left out; provision_merchant_for_user is reduced to the profile its trigger creates. A registration that the unique index aborts is a run that stops before its write.
- SQL functions other than the document registration are atomic: they lock the row they decide on, or insert under a unique key. The unlocked account and pricing reads of begin_pix_in may see values that change before its insert; the fee they give is frozen into the row.
- TokenCache: times of arrival at the provider are not modelled, only of sending; lifetimes that overflow the conversion to nanoseconds are left out.
- Finance: the calendar day of an instant in São Paulo is given with each item, and days are numbers instead of "YYYY-MM-DD" strings; amounts are integers, so floating point and non-integer periods are left out. The same holds of the pricing simulator beyond safe integers.
- Paging: the table does not change between the pages of one read.
- Members: adminAddMember and adminCreateMerchant write memberships without these guards; role names are taken after trimming and lower-casing, and JSON decoding is left out.
- merchantSlug, id generation, masking helpers, webhook backoff and the mock provider: they would add only easy members.
