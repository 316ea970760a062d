# Verification model of the ClawSolana gateway

This project models the parts of the gateway that decide when money may move and
who may move it, and proves what those parts promise. Each module follows one
source component; methods and classes follow code that updates state in place,
state machines follow code that several tasks run at once (a step is one awaited
call), and lemmas state what holds over every run.

* **Budget lease** (`FundingIntent`, `LeaseProtocol`, `ChatExecutor`). Executors,
  refund workers, a clock, crashes and lost repository writes race for one
  funding intent. The intent row is updated by guarded SQL statements;
  `executing` is a lease with one owner, at most one sender call ever reports a
  transaction signature, and the budget is paid out at most once exactly when a
  rejected broadcast never lands. One `execute` call is an imperative method
  proved against its precheck specification and against a run of the protocol.
* **Rule identity and codecs** (`WatchRules`, `RuleBridge`, `Text`, `HexCodec`,
  `PercentCodec`, `Whitespace`, `ChatCommand`). Rule ids are injective in threshold and amount;
  an identity echoed as persisted is that of the stored rule and stays
  executable; labels, ids and the approval command survive their round trips.
* **Quorum approval** (`ApprovalWorkflow`, `ApprovalStore`, `PendingSigning`,
  `ApprovalRouting`). Staged votes with role sets, quorums and a lease; the store;
  the one-shot channels; and the composition of decide, audit and route with any
  number of decision calls in flight.
* **Crash recovery** (`DurableRecovery`, `ApprovalCustody`, `ApprovalHandover`,
  `ApprovalVerdicts`, `SignatureCustody`, `SignatureDaemon`). Recovery of approval
  rows; approval over any number of daemon lifetimes, where decisions, their audit
  rows, the task that resumes a parked transaction, crashes and restarts
  interleave; and custody of a signed transaction across crashes, with the daemon
  code that takes the protocol's steps.
* **Loops over time** (`RateLimiter`, `SignaturePoller`). The sliding window
  against its whole history; the bounded-backoff poller.
* **Agent loop, wallet challenge, external wallet** (`AgentLoop`,
  `WalletChallenge`, `ExternalWallet`). History pairing through trimming, one-use
  challenges under interleaving, and what reaches the task that waits for a
  signature.

Clocks, sender outcomes, model answers, network replies and write failures are
parameters or steps, so every statement holds for all of them. Hashing,
signature checks, base58, JSON and bincode are uninterpreted.

## Findings

Where the code does less than its comments or callers suggest, the model keeps
the code and the lemma says exactly when the promise holds.

* `BroadcastFailed` also covers transport errors of `sendTransaction`, where the
  transaction may land although the comment says nothing landed. Single payment
  holds if and only if rejections are clean
  (`LeaseProtocol.ConservationIffCleanRejections`).
* A lease that is abandoned (timeout, crash, lost write) stays `executing` for
  ever: neither execution nor refund can take it (`LeaseProtocol.AbandonedForever`).
* The funding bridge ignores a failed rule insert, so an intent can be bound to a
  hash the executor will refuse. What decides it can be read off before the call
  (`RuleBridge.IntentIsBoundIffRuleStored`), and it is exactly when the automatic
  path's own request can be refused (`RuleBridge.AutoRequestNeverRefusedIff`).
* `u8::from_str_radix` accepts a plus sign, so some accepted rule-id texts are not
  canonical (`HexCodec.AcceptedTextIsCanonical`).
* A chain that asks for no approvals has no current stage and can never be
  approved (`ApprovalWorkflow.ApprovedIff`,
  `ApprovalWorkflow.NothingAskedNothingSettled`).
* Recovery drops the approval lease (`DurableRecovery.CrashLiftsTheLease`), and a
  row whose transaction bytes do not decode is counted corrupt after its request
  was registered, which leaves a live request with nothing parked for it
  (`DurableRecovery.OrphanIff`, `DurableRecovery.OrphanExists`).
* The human verdict is logged before the row is marked. A crash in between revives
  the request, and the next lifetime can log the opposite verdict beside the first
  (`ApprovalVerdicts.OneVerdictIff`, `ApprovalVerdicts.AnotherVerdictIff`,
  `ApprovalVerdicts.ApprovedThenRejected`).
* A lost mark lets an approved transaction be handed over again after a restart
  (`ApprovalHandover.HandedOverOnceIff`).
* A sent transaction's request can become live again if its terminal mark is
  lost, or if a submission overtakes the durable insert
  (`SignatureCustody.HandedOffOnceIff`).
* `submit_signed_transaction` reports success although an overlapping invalid
  submission has already closed the request with nothing. An accepted transaction
  is heard exactly when the sender is unused at its last step or an earlier
  submission of it got through (`ExternalWallet.AcceptedIsDeliveredIff`).
* A fraction of a percentage may be a plus sign and one digit: `1.+5` reads as
  105 basis points (`PercentCodec.AcceptsIffDenotes`).
* The module comment of the agent says ten iterations; the constant is 100.
* With a zero initial backoff or a zero cap the poller need not end
  (`SignaturePoller.TerminatesIff`).

## Model

| member | source | states |
|---|---|---|
| `FundingIntent.RefundLeaseIsForGood` | crates/state-store/src/stage2_w5h_funding.rs:507-530 | after a refund lease matched, no sequence of updates lets an execution lease match or the row complete |
| `FundingIntent.TerminalRowIsFrozen` | crates/state-store/src/stage2_w5h_funding.rs:556-580 | no sequence of updates changes a terminal row in any field |
| `FundingIntent.FundingSignatureIsPinned` | crates/state-store/src/stage2_w5h_funding.rs:321-376 | budget is only ever reserved for the first submitted funding signature |
| `FundingIntent.BudgetNeedsItsFunding` | crates/state-store/src/stage2_w5h_funding.rs:350-376 | after any statements, a row behind a reserved budget carries the very funding signature that was confirmed for it |
| `FundingIntent.EntersIff` | crates/state-store/src/stage2_w5h_funding.rs:321-580 | a statement moves a row into another status iff the lifecycle allows that move: from the right status, by the right signature, at a clock reading on the right side of the expiry; the affected count says so |
| `FundingIntent.IntentRepository.Apply` | crates/state-store/src/stage2_w5h_funding.rs:407-479 | one statement updates exactly the named row iff its guard holds and the write is not lost; the affected count says which |
| `LeaseProtocol.Reachable` | crates/gateway/src/stage2_chat_execute.rs:841-1085 | the lease, call, holder, rejection and refund invariants hold in every state any interleaving reaches |
| `LeaseProtocol.ExecutingHasOneOwner` | crates/gateway/src/stage2_chat_execute.rs:841-882 | `executing` holds iff one executor is between lease and closing update or an abandoned run is left; only the holder can call the sender |
| `LeaseProtocol.LeaseIsTakenIff` | crates/state-store/src/stage2_w5h_funding.rs:407-430 | in every reachable state an acknowledged lease statement makes its executor the holder iff the budget is reserved and the executor's clock reading is before the expiry; otherwise row and lease stay |
| `LeaseProtocol.NoEarlyRefund` | crates/state-store/src/stage2_w5h_funding.rs:507-530 | no interleaving pays a refund or lets a worker lease one before the intent's expiry |
| `LeaseProtocol.WhatAbandonsALease` | crates/gateway/src/stage2_chat_execute.rs:970-1085 | a step abandons the lease iff it loses the lease acknowledgement or the closing write, ends in a timeout, or crashes the holder |
| `LeaseProtocol.ReleaseReturnsBudget` | crates/gateway/src/stage2_chat_execute.rs:953-1085 | a pre-broadcast failure returns the budget, a finalized deposit completes the intent, a failed one ends it; a timeout or a lost write leaves it as it is |
| `LeaseProtocol.AbandonedForever` | crates/gateway/src/stage2_chat_execute.rs:970-993 | an abandoned lease is never taken again: no execution lease, no refund, no further sender call |
| `LeaseProtocol.AtMostOneSignature` | crates/gateway/src/stage2_chat_execute.rs:884-1085 | over every interleaving at most one sender call reports an outcome with a signature |
| `LeaseProtocol.SignatureBlocksBothLeases` | crates/gateway/src/stage2_chat_execute.rs:953-1085 | once a signature was reported neither lease can match and no refund has been paid |
| `LeaseProtocol.PaymentsBound` | crates/gateway/src/stage2_chat_execute.rs:1036-1052 | payments beyond the first are deposits whose broadcast was reported as failed; a reserved or expired budget has none but those |
| `LeaseProtocol.DoubleDeposit` | crates/gateway/src/stage2_chat_execute.rs:1503-1514 | a run in which a transport error hides a landed deposit and the retry pays again |
| `LeaseProtocol.ConservationIffCleanRejections` | crates/gateway/src/stage2_chat_execute.rs:1036-1052 | at most one payment in every interleaving iff a rejected broadcast never lands |
| `ChatExecutor.SoloRun` | crates/gateway/src/stage2_chat_execute.rs:841-1085 | an undisturbed call is a run of the lease protocol that ends in the row the call leaves, in every field up to the wording of signature and error |
| `ChatExecutor.Stage2ChatExecutor.Execute` | crates/gateway/src/stage2_chat_execute.rs:604-1087 | a refused call writes and sends nothing; otherwise the sender is asked at most once, for the rule's amount; the caller is told of success iff the deposit finalized, of a signature iff the report has one, of each failure by its own error, and the row's status says the same unless its write is lost |
| `ChatExecutor.RefusalNamesItsGate` | crates/gateway/src/stage2_chat_execute.rs:604-840 | a refusal names a gate that does fail |
| `ChatExecutor.RunIsAnswered` | crates/gateway/src/stage2_chat_execute.rs:841-1085 | past the prechecks the sender is asked iff the intent is reserved and unexpired and the lease is acknowledged; status, signature and error of the answer, and the row's end, follow from the report alone |
| `WatchRules.LittleEndianRoundTrip` | crates/gateway/src/stage2_demo_apr_bridge.rs:1213-1219 | the bytes of a number determine it |
| `WatchRules.RuleIdIsInjective` | crates/gateway/src/stage2_demo_apr_bridge.rs:1213-1219 | two rule ids of one wallet are equal only for equal threshold and amount |
| `WatchRules.ThresholdIsTheFirst` | crates/gateway/src/stage2_chat_execute.rs:1155-1163 | the threshold is that of the first supply-rate condition; none exactly when there is no such condition |
| `RuleBridge.PersistRuleIdempotent` | crates/gateway/src/stage2_demo_apr_bridge.rs:1313-1326 | inserts, or reads the older row back; the answer tells which and the table changes only by the insert |
| `RuleBridge.Bridge.HandleDemoCommand` | crates/gateway/src/stage2_demo_apr_bridge.rs:1369-1450 | the command leaves the book and the echo the specification says |
| `RuleBridge.Bridge.HandleOrderCommand` | crates/gateway/src/stage2_w5h_bridge.rs:114-248 | the order leaves the rule and the intent the specification says, and answers with the echo unless the intent can neither be inserted nor read back |
| `RuleBridge.BookInvAlways` | crates/gateway/src/stage2_demo_apr_bridge.rs:1227-1290 | every stored rule and intent sits under the id derived from its own threshold and amount, after any events |
| `RuleBridge.StoredIdentityIsImmutable` | crates/state-store/src/stage2_watch_rules.rs:143-190 | no sequence of events replaces a stored rule or an intent's amount and hash |
| `RuleBridge.EchoTells` | crates/gateway/src/stage2_demo_apr_bridge.rs:1369-1443 | window, amount and condition of the rule a command builds, which identity is echoed, and that it is echoed as persisted iff its row is known to be stored |
| `RuleBridge.PersistedEchoNamesStoredRule` | crates/gateway/src/stage2_demo_apr_bridge.rs:1416-1443 | id, hash and expiry echoed as persisted are those of the rule stored under that id, with this command's threshold and amount |
| `RuleBridge.EchoedPairStaysExecutable` | crates/gateway/src/stage2_chat_execute.rs:666-725 | an approval carrying an echoed pair is never refused for its hash or as unknown, whatever happened in between |
| `RuleBridge.ExecutorDepositsTheFundedAmount` | crates/gateway/src/stage2_chat_execute.rs:776-780 | the amount handed to the sender equals the amount of the intent whose budget was reserved |
| `RuleBridge.OrderIsExecutableForThreeMinutes` | crates/gateway/src/stage2_w5h_bridge.rs:173-193 | a new order's intent, once its budget is reserved at any later time, can be leased for execution exactly before 180 seconds from the order and for refund exactly from then on |
| `RuleBridge.IntentIsBoundIffRuleStored` | crates/gateway/src/stage2_w5h_bridge.rs:151-225 | a new intent is bound for good to the rule its hash names iff, before the call, the rule row is there or its insert will take effect, and an older row is read back or equal |
| `RuleBridge.AutoRequestNeverRefusedIff` | crates/gateway/src/stage2_w5i_auto_execute.rs:312-318 | a request built from a new intent is never refused as unknown or for its hash, after any events, iff the rule is or will be stored and an older row is read back or hashes alike |
| `HexCodec.PrintHex` | crates/gateway/src/stage2_demo_apr_bridge.rs:1328-1345 | the printing loop computes the two-digit encoding |
| `HexCodec.DecodeRuleIdHex` | crates/gateway/src/stage2_chat_execute.rs:1120-1131 | the decoding loop accepts and computes exactly what the specification says |
| `HexCodec.RuleIdRoundTrip` | crates/gateway/src/stage2_chat_execute.rs:1120-1131 | decoding an encoded 16-byte id gives the id back |
| `HexCodec.AcceptedTextIsCanonical` | crates/gateway/src/stage2_chat_execute.rs:1120-1131 | an accepted text prints back as itself, lower-cased and trimmed, iff it holds no plus sign |
| `PercentCodec.DecimalPercentToBps` | crates/gateway/src/stage2_demo_apr_bridge.rs:387-429 | the parsing method accepts and computes what the specification says, without overflow |
| `PercentCodec.AcceptsIffDenotes` | crates/gateway/src/stage2_demo_apr_bridge.rs:387-429 | for every text: accepted with a value iff it denotes that many basis points and they fit, overflow iff it denotes more, malformed iff it denotes nothing |
| `PercentCodec.LabelRoundTrip` | crates/gateway/src/stage2_chat_execute.rs:1165-1169 | parsing the label of any 32-bit basis-point value gives the value back |
| `Whitespace.NormalizeWhitespace` | crates/gateway/src/stage2_demo_apr_bridge.rs:431-448 | the one-pass loop yields the text's words joined by single spaces |
| `Whitespace.NormalFormIsStable` | crates/gateway/src/stage2_demo_apr_bridge.rs:431-448 | normalising keeps the words and normalising again changes nothing |
| `ChatCommand.CommandRoundTrip` | crates/gateway/src/stage2_chat_execute.rs:292-346 | a rendered command parses to its tokens and trimmed phrase, marker inside the phrase or not; an empty trim is the typed error |
| `ChatCommand.ParsesIffCommand` | crates/gateway/src/stage2_chat_execute.rs:292-346 | for every text and request: parsed as the request iff the first prefix is followed by a 32-digit id and a 64-digit hash and, after the first marker, by the trimmed non-empty phrase |
| `ChatCommand.ApprovalRoundTrip` | frontend/src/app/chat/page.tsx:83-88 | for every id, hash and non-blank phrase the rendered command parses back to that id and that hash |
| `ApprovalWorkflow.CurrentStage` | crates/types/src/approval.rs:359-361 | the first stage that is short of its quorum and has no rejection |
| `ApprovalWorkflow.CastVote` | crates/gateway/src/approval_store.rs:103-227 | the branch-for-branch decision computes the specified outcome and workflow |
| `ApprovalWorkflow.VoteIsCountedIff` | crates/gateway/src/approval_store.rs:117-180 | a live workflow refuses a vote iff its lease ended, else its role does not fit, else its operator already voted in the stage; every other vote is recorded in the current stage |
| `ApprovalWorkflow.ApprovedIff` | crates/gateway/src/approval_store.rs:103-227 | after any decisions: approved iff every stage holds exactly its quorum and no rejection, and the chain asked for some approval |
| `ApprovalWorkflow.ApprovalIsWithinReach` | crates/gateway/src/approval_store.rs:103-227 | on a fresh workflow without a lease, as many approvals as are missing, from different operators with the roles of the stages in turn, approve it |
| `ApprovalWorkflow.NothingAskedNothingSettled` | crates/types/src/approval.rs:359-361 | a chain that asks for no approval takes no vote from any sequence of decisions: without a lease it never changes, with one it can only expire |
| `ApprovalWorkflow.VotesAreProper` | crates/gateway/src/approval_store.rs:139-180 | votes come from allowed roles, once per named operator, stages fill strictly in order, and rejected iff some stage holds a rejection |
| `ApprovalWorkflow.OutcomeMeaning` | crates/gateway/src/approval_store.rs:183-226 | each progress answer is one missing approval fewer, names the stage that is really next, and refusals change nothing |
| `ApprovalWorkflow.TerminalWorkflowIsFrozen` | crates/types/src/approval.rs:372-375 | no decision changes a terminal workflow |
| `ApprovalWorkflow.MissingNeverGrows` | crates/types/src/approval.rs:372-400 | no sequence of decisions raises the number of missing approvals |
| `ApprovalStore.RegistryInvPreserved` | crates/gateway/src/approval_store.rs:47-52 | every operation keeps: a request is pending iff its workflow is not terminal |
| `ApprovalStore.SettledForGood` | crates/gateway/src/approval_store.rs:113-132 | a settled request stays settled, unchanged and out of the pending map in every run |
| `ApprovalStore.DecisionEffects` | crates/gateway/src/approval_store.rs:183-226 | a decision touches only its request, which leaves the pending map iff the answer settles it, and is handed back iff the verdict is human |
| `ApprovalStore.ApprovalStore.Decide` | crates/gateway/src/approval_store.rs:103-227 | the store's maps, outcome and returned request are the specified ones |
| `ApprovalStore.ApprovalStore.PendingForSession` | crates/gateway/src/approval_store.rs:65-74 | lists exactly the session's undecided requests, once each, oldest first |
| `PendingSigning.OneShotDelivery` | crates/gateway/src/pending_signing.rs:84-158 | of all receivers ever issued for one parking at most one is sent a value |
| `PendingSigning.SignalReachesLatest` | crates/gateway/src/pending_signing.rs:117-158 | a successful signal is its parking's first and reaches the receiver issued last |
| `PendingSigning.SignalSpendsTheParking` | crates/gateway/src/pending_signing.rs:117-125 | after a signal no other succeeds until the id is parked again |
| `PendingSigning.ParkedUntilTaken` | crates/gateway/src/pending_signing.rs:84-132 | what is there to be taken is what was parked last, whatever signals and channel replacements came in between |
| `PendingSigning.TakenOnce` | crates/gateway/src/pending_signing.rs:127-132 | over all operation sequences, of all takes of one parking at most one returns it |
| `PendingSigning.PendingSigningStore.TakeDecisionRx` | crates/gateway/src/pending_signing.rs:151-158 | replaces the channel of an unused entry and returns the new receiver |
| `ApprovalRouting.AuditLog.EmitDecideAudit` | crates/gateway/src/approval_audit.rs:28-135 | appends exactly the row the outcome implies, if the log takes it |
| `ApprovalRouting.ParkStores.RouteApprovalOutcome` | crates/gateway/src/approval_routing.rs:37-119 | signals all four stores on a terminal outcome with its state, and none otherwise |
| `ApprovalRouting.OneSignalPerRequest` | crates/gateway/src/daemon.rs:1971-2017 | over every interleaving a request gets at most one terminal signal, the state its workflow ended in |
| `ApprovalRouting.OneHumanRowPerRequest` | crates/gateway/src/approval_audit.rs:103-133 | in one daemon lifetime at most one human row per request; its kind, taken from the vote, is the signalled state, and its session the one the request was registered with; none for an expired request |
| `ApprovalRouting.EveryDecisionIsLogged` | crates/gateway/src/approval_audit.rs:28-135 | while the log takes its rows, every audited decision has its row unless it was refused as unknown, already decided or a second vote |
| `ApprovalRouting.RowsTellTheTruth` | crates/gateway/src/approval_audit.rs:28-135 | over every interleaving each row was written for a decision on its request, its kind names what that decision answered, and only human rows name a session |
| `ApprovalRouting.SignalledIffSettled` | crates/gateway/src/daemon.rs:2001-2014 | once all calls have ended, exactly the settled requests have been signalled |
| `ApprovalRouting.AuditPrecedesSignal` | crates/gateway/src/approval_audit.rs:19-27 | while the log takes its rows, no verdict is signalled before its human row is stored |
| `ApprovalRouting.WokenWithTheVerdict` | crates/gateway/src/approval_routing.rs:75-118 | whatever wakes a parked task is its own request's terminal state, approved only with every quorum met |
| `ApprovalRouting.HandlerCallIsAFlight` | crates/gateway/src/daemon.rs:1971-2017 | decide, audit, route in that order is a run of the system with the handler's end state |
| `ApprovalRouting.GatewayApprovalHandler.DecideInner` | crates/gateway/src/daemon.rs:1971-2017 | wherever the daemon dies, store, audit log and all four park stores are as the decide, audit and route steps so far specify |
| `DurableRecovery.BuildersAgreeIff` | crates/gateway/src/tools/signing.rs:429-457 | recovery rebuilds the workflow the tool opened, without its lease, iff a chain decides or the request carries the verdict's role |
| `DurableRecovery.BothAskForTheVerdict` | crates/gateway/src/durable_pending.rs:365-397 | the workflow before and after a crash asks each stage of the chain for its role and its number of approvals, and without a chain for one approval |
| `DurableRecovery.CrashNeverLowersTheBar` | crates/gateway/src/durable_pending.rs:365-397 | the rebuilt workflow keeps roles and quorums, holds no vote and misses at least as many approvals as before the crash |
| `DurableRecovery.CrashLiftsTheLease` | crates/gateway/src/durable_pending.rs:382-397 | the rebuilt workflow judges all decision sequences as the original iff that had no lease |
| `DurableRecovery.PersistRecoverRoundTrip` | crates/gateway/src/durable_pending.rs:78-103 | recovering any number of persisted requests gives back each request, transaction and workflow as first opened, but for lease and block height, and nothing else |
| `DurableRecovery.DurablePendingState.OpenApproval` | crates/gateway/src/tools/signing.rs:459-481 | row, parking, registration in this order, however far the daemon gets; where durable state is wired nothing is in memory without a row, else nothing is written |
| `DurableRecovery.RegisteredAfter` | crates/gateway/src/durable_pending.rs:343-398 | exactly the rows that decode up to their transaction become live pending workflows without votes |
| `DurableRecovery.ParkedAfter` | crates/gateway/src/durable_pending.rs:400-410 | exactly the fully decodable rows are parked with an unused sender |
| `DurableRecovery.FaultTells` | crates/gateway/src/durable_pending.rs:336-411 | a row is recovered iff all of it decodes and registered iff all but its transaction does; the fault names the part that does not |
| `DurableRecovery.OrphanIff` | crates/gateway/src/durable_pending.rs:336-411 | parked implies registered; registered without being parked iff only the transaction bytes fail to decode |
| `DurableRecovery.OrphanExists` | crates/gateway/src/durable_pending.rs:336-411 | a row that is counted corrupt and yet leaves its request live with nothing parked |
| `DurableRecovery.RejectedIffCorrupt` | crates/gateway/src/durable_pending.rs:256-268 | recovery rejects exactly the corrupt rows whose mark is not lost and touches no other |
| `DurableRecovery.FirstMarkStays` | crates/state-store/src/pending_state.rs:147-162 | the first terminal mark that is written decides a row and is never overwritten |
| `DurableRecovery.DurablePendingState.Recover` | crates/gateway/src/durable_pending.rs:220-275 | without failing statements exactly the live rows that reached the maximum age expire and are counted; exactly the younger live rows are loaded, once and oldest first, and each that decodes is pending and parked; recovered plus corrupt equals rows loaded |
| `ApprovalCustody.HandedOnlyWhenApproved` | crates/gateway/src/tools/signing.rs:913-945 | what a task hands over was approved in its lifetime by every quorum of the chain on its durable row |
| `ApprovalCustody.LifetimesMatchTheStores` | crates/gateway/src/daemon.rs:695-733 | opening and reviving a request here do to the stores what the tool and the recovery of its persisted row do |
| `ApprovalCustody.FreshRowsComeBack` | crates/state-store/src/pending_state.rs:405-417 | a restart without failing statements brings back exactly the pending rows younger than 120 seconds; no other row stays pending |
| `ApprovalCustody.ResumptionIsARun` | crates/gateway/src/tools/signing.rs:807-960 | an undisturbed resumption is a run: row marked, entry dropped, transaction handed over iff the message is an approval and the entry is there |
| `ApprovalHandover.HandedOverOnceIff` | crates/gateway/src/tools/signing.rs:932-949 | a transaction is handed over at most once in every run over all lifetimes iff the terminal mark is never lost |
| `ApprovalHandover.HandedOverTwice` | crates/gateway/src/durable_pending.rs:112-118 | a run in which two lost marks around a crash hand one transaction over twice |
| `ApprovalHandover.ResumeAfterApproval` | crates/gateway/src/tools/signing.rs:807-960 | however the wait ends and wherever the daemon dies: the row is marked first, then the parked entry goes, and only an approval hands it over |
| `ApprovalVerdicts.OneVerdictIff` | crates/gateway/src/daemon.rs:1971-2017 | over all lifetimes at most one human verdict per request iff the daemon never dies between a verdict's audit row and the durable mark |
| `ApprovalVerdicts.AnotherVerdictIff` | crates/gateway/src/durable_pending.rs:220-275 | in every reachable state with the daemon down: a request with a logged human verdict can get another one iff its row is still pending |
| `ApprovalVerdicts.ApprovedThenRejected` | crates/gateway/src/approval_audit.rs:103-133 | a run in which the log holds an approval and, a crash later, a rejection of the same request |
| `SignatureCustody.HandedOffOnce` | crates/gateway/src/daemon.rs:2162-2251 | with sticking marks and clients that wait, a transaction is sent at most once and its request is never live again, across crashes |
| `SignatureCustody.LostMarkRevives` | crates/gateway/src/durable_pending.rs:146-155 | a run in which a lost mark makes a sent request live again |
| `SignatureCustody.EarlySubmissionRevives` | crates/gateway/src/tools/signing.rs:692-736 | a run in which the durable insert lands behind an already sent transaction |
| `SignatureCustody.HandedOffOnceIff` | crates/gateway/src/durable_pending.rs:277-300 | single hand-off in all runs iff marks stick and clients wait for the durable row |
| `SignatureDaemon.SignatureDaemon.RequestSignature` | crates/gateway/src/tools/signing.rs:692-736 | opening is the protocol's open and persist under every fault; an insert that errs, even after it took effect, rolls the entry back; a live id is refused |
| `SignatureDaemon.SignatureDaemon.SubmitSignedTx` | crates/gateway/src/daemon.rs:2095-2251 | wherever the daemon dies, the owner's submission has gone through a prefix of the protocol's remove, mark, send, and is sent iff it verifies and nothing died before; anyone else's does nothing; other requests are untouched |
| `SignatureDaemon.SignatureDaemon.ReapExpired` | crates/gateway/src/daemon.rs:1361-1412 | one tick takes exactly the entries older than 120 seconds out of memory and marks their rows; every other entry stays as it was |
| `SignatureDaemon.RestartIsCrashAndRecover` | crates/gateway/src/durable_pending.rs:277-300 | restart does to every readable row what the protocol's crash and recovery do |
| `SignatureDaemon.SignatureDaemon.Restart` | crates/state-store/src/pending_state.rs:405-436 | exactly the pending, readable rows younger than 120 seconds are live afterwards, with a fresh time to live, none if the load fails; unreadable ones are rejected unless that mark is lost |
| `RateLimiter.QueueIsRecentHistory` | crates/api/src/rate_limit.rs:63-85 | the queue is the sorted admission history from sixty seconds before the last call on |
| `RateLimiter.EveryWindowIsSafe` | crates/api/src/rate_limit.rs:63-85 | any closed sixty-second window holds at most `limit` admissions |
| `RateLimiter.RejectedIffFull` | crates/api/src/rate_limit.rs:75-84 | a call is rejected iff the window ending with it holds exactly `limit` admissions |
| `RateLimiter.SilentTokenAdmittedIff` | crates/api/src/rate_limit.rs:69-73 | a silent rejected token is admitted iff its oldest admission is strictly older than sixty seconds |
| `RateLimiter.RetryAfterIsEnough` | crates/api/src/rate_limit.rs:75-80 | the delay is 1 to 60 seconds, one second more always suffices, and the delay alone does not when it exceeds one |
| `RateLimiter.RateLimiter.CheckToken` | crates/api/src/rate_limit.rs:63-85 | one call admits by the history specification, counts hits and leaves every bucket what its calls determine |
| `SignaturePoller.SleepSchedule` | crates/gateway/src/stage2_chat_execute.rs:2002-2052 | the k-th sleep is `min(initial * 2^k, cap)` despite saturation, one query per turn |
| `SignaturePoller.QueriesBeforeDeadline` | crates/gateway/src/stage2_chat_execute.rs:2010-2022 | every query is sent before the deadline |
| `SignaturePoller.AtMostSixteenQueries` | crates/gateway/src/stage2_chat_execute.rs:175-178 | the default schedule asks at most sixteen times |
| `SignaturePoller.SixteenQueriesHappen` | crates/gateway/src/stage2_chat_execute.rs:175-178 | sixteen queries are reached on an idle network |
| `SignaturePoller.ErrorExitIff` | crates/gateway/src/stage2_chat_execute.rs:2041-2047 | the error exit is taken iff the last query completes exactly `tolerance + 1` errors in a row |
| `SignaturePoller.OutcomeMeansLastReply` | crates/gateway/src/stage2_chat_execute.rs:1934-1971 | finality, its slot and failure are the last reply's own; a timeout means no reply was an error report or finalized, and it describes the last one |
| `SignaturePoller.NoQueryIff` | crates/gateway/src/stage2_chat_execute.rs:2010-2022 | the next query is left out iff the clock reaches the deadline before or during its sleep |
| `SignaturePoller.ConclusiveReplyEnds` | crates/gateway/src/stage2_chat_execute.rs:2023-2040 | a reply to a query made in time ends the loop as finalized iff it says so without error, and as failed iff it carries that error |
| `SignaturePoller.TerminatesIff` | crates/gateway/src/stage2_chat_execute.rs:2002-2052 | polling ends on every network iff the first sleep and the cap are positive or the deadline is zero |
| `SignaturePoller.PollSignatureWithBackoff` | crates/gateway/src/stage2_chat_execute.rs:2002-2052 | for every schedule the loop is after any number of turns where the specification says, and if the schedule terminates it has ended within a turn per millisecond of the deadline |
| `AgentLoop.TrimSparesTheRound` | crates/agent-runtime/src/llm/context.rs:262-309 | trimming drops whole turns from the front and never part of the round in progress |
| `AgentLoop.TrimIsNeeded` | crates/agent-runtime/src/llm/context.rs:262-282 | the last group trimming drops stood at the front of a history over budget |
| `AgentLoop.TrimFits` | crates/agent-runtime/src/llm/context.rs:262-282 | trimming ends within the budget, or where dropping the next group would leave fewer than two entries |
| `AgentLoop.PairedReadsAsConversation` | crates/agent-runtime/src/llm/context.rs:209-240 | a paired history is sent as requests each followed at once by exactly their results |
| `AgentLoop.MessagesSayTheHistory` | crates/agent-runtime/src/llm/context.rs:209-240 | the messages say the history's entries, all of them, word for word and in order, each by its speaker |
| `AgentLoop.ContextManager.PushEntry` | crates/agent-runtime/src/llm/context.rs:256-309 | the context is the trimmed extended history and the token estimate stays exact |
| `AgentLoop.ContextManager.BuildMessages` | crates/agent-runtime/src/llm/context.rs:209-240 | the grouping loop computes the specified messages |
| `AgentLoop.DispatchCalls` | crates/agent-runtime/src/agent.rs:89-164 | one round pushes every result in order, keeps the history paired and counts the calls |
| `AgentLoop.AskModel` | crates/agent-runtime/src/agent.rs:82-92 | a paired history is sent whole, once, and as a well-formed conversation: the client accepts nothing else |
| `AgentLoop.Agent.Run` | crates/agent-runtime/src/agent.rs:56-183 | on every exit the history is paired, at most 100 questions were asked, the first ending with the command and each later one with the calls asked for and all that they gave back; the counters are exact and the answer is the model's |
| `WalletChallenge.MessageIsInjective` | crates/gateway/src/wallet_challenge.rs:111-119 | the signed message determines session, wallet and nonce |
| `WalletChallenge.OneUseOnly` | crates/gateway/src/wallet_challenge.rs:148-240 | in every interleaving a challenge yields at most one success, which matches session and wallet, was checked in time and verifies over the stored message |
| `WalletChallenge.RefusalExplains` | crates/gateway/src/wallet_challenge.rs:158-222 | a refused claim is refused for what its error names |
| `WalletChallenge.HonestClaimVerifiesIff` | crates/gateway/src/wallet_challenge.rs:103-240 | in any state a claim on a created challenge is verified iff session, wallet and signature are right and it comes within five minutes; its answer consumes the challenge |
| `WalletChallenge.SignatureBindsOneWallet` | crates/gateway/src/wallet_challenge.rs:111-119 | successes over one message are for one session and wallet |
| `WalletChallenge.WalletChallengeService.VerifyChallenge` | crates/gateway/src/wallet_challenge.rs:148-240 | a call fails with the first failing check and changes nothing, or consumes the challenge |
| `ExternalWallet.VerifiedIff` | crates/gateway/src/external_wallet.rs:109-137 | verification accepts exactly the parked message signed by the expected signer in its own slot |
| `ExternalWallet.VerifyErrorMeans` | crates/gateway/src/external_wallet.rs:109-137 | what each verification error says is wrong with the transaction |
| `ExternalWallet.DeliveredIsVerified` | crates/gateway/src/external_wallet.rs:149-187 | a transaction delivered in any interleaving has the parked message and a valid signature of the expected signer |
| `ExternalWallet.RefusedForCause` | crates/gateway/src/external_wallet.rs:163-181 | in every interleaving, who is told that verification failed had submitted a transaction that fails it with that error, and the request is closed |
| `ExternalWallet.DeliveredOnce` | crates/gateway/src/external_wallet.rs:412-441 | what a waiting task was sent is all it is ever sent |
| `ExternalWallet.AcceptedIsDeliveredIff` | crates/gateway/src/external_wallet.rs:171-186 | in every run an accepted submission at its last step is heard, now or ever, iff the sender is still unused or an earlier submission of it was heard |
| `ExternalWallet.AcceptedButNotDelivered` | crates/gateway/src/external_wallet.rs:171-186 | a run in which an accepted submission is not what the task hears |
| `ExternalWallet.ExternalWalletStore.SubmitSignedTransaction` | crates/gateway/src/external_wallet.rs:149-187 | an undisturbed submission delivers iff it verifies and the sender is unused; unreadable input changes nothing |

## Left out

- HexCodec.DecodeRuleIdHex: the source slices by bytes and can panic on a 32-byte non-ASCII text; the model answers none there.
- ChatExecutor.Stage2ChatExecutor.Execute: the mode without a funding-intent repository, the informational fields of the outcome and the error texts are not modelled.
- LeaseProtocol.Reachable: the refund worker is not part of this model beyond its repository calls, so a refund is a lease, a payment and a closing update in that order.
- ApprovalRouting.OneHumanRowPerRequest: one daemon lifetime; over all lifetimes `ApprovalVerdicts.OneVerdictIff` gives the exact condition.
- ApprovalRouting.AuditLog.EmitDecideAudit: actor, severity and payload of a row are not modelled beyond request, session and kind.
- ApprovalRouting.ParkStores.RouteApprovalOutcome: the alerts it publishes are not modelled.
- ApprovalRouting.GatewayApprovalHandler.DecideInner: event publication is not modelled.
- ApprovalHandover.ResumeAfterApproval: the audit rows and events of a refusal and what the orchestrator answers are not modelled; a wallet key that does not parse stops before the hand-over.
- ApprovalCustody.ResumptionIsARun: opening parks, registers and starts the task in one step, as none of them awaits; the startup purge of old terminal rows is not modelled.
- DurableRecovery.PersistRecoverRoundTrip: that JSON, hex and bincode texts decode to what was encoded is taken as given.
- ApprovalWorkflow.CastVote: the role texts carried by a role mismatch and all timestamps are not modelled; expiry compares with one clock reading per decision.
- ApprovalStore.ApprovalStore.Decide: the workflow update and the removal from the pending map are one step.
- DurableRecovery.DurablePendingState.Recover: the recovery of completion metadata, which only copies a fee, is not modelled; signature rows are in `SignatureDaemon`.
- RateLimiter.RateLimiter.CheckToken: the clock is read before the bucket lock in the source; a call is one step here, so times per token do not go back.
- SignaturePoller.PollSignatureWithBackoff: the wording of status labels is a datatype.
- RuleBridge.Bridge.HandleDemoCommand: fetch failures, decision fields and the preview without a repository are not modelled.
- SignatureDaemon.SignatureDaemon.SubmitSignedTx: spend records, audit rows and tracking are not modelled and verification is a parameter.
- AgentLoop.Agent.Run: cancellation and traces are not modelled.
- AgentLoop.ContextManager.PushEntry: lengths count characters where the source counts UTF-8 bytes; the per-entry token formula is taken over as it stands.
- ExternalWallet.VerifiedIff: the laxer instruction-equivalence check of the orchestrator's external adapter is not modelled; `SignatureDaemon` takes it as a parameter.
- PendingSigning.PendingSigningStore.TakeDecisionRx: a receiver that was dropped is not distinguished from one that waits; a value sent to it counts as sent.
- Parsing of percent strings through floating point, command text matching beyond the approval command, and the language-model drafting paths.
- HTTP routes, middleware, configuration loading, alert payloads, event publication and metrics other than the limiter's hit counter.
- The live sender, Solana instruction building and reserve decoding, session bindings of wallets, completion metadata and the lifecycle tracker.
