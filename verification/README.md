# Veyronis: the verified-claim pipeline

A payment on a source chain becomes evidence for an escrow. The condition service takes a lease on the
transaction, the verifier has it proven, builds a normalized claim and hands it to the registry gateway; the
registry consumes the claim once and calls the escrow, which records it or settles. This project models that
pipeline, the stores and encodings it relies on, and the three self-contained pieces beside it, and proves what
holds over every run and every interleaving.

How the parts are modelled:

- **Contracts.** `Escrow` and `Registry` give every external call as a function from storage to storage or to a
  revert; `EscrowContract` is the same contract as a class whose methods follow those functions, re-entrant
  withdrawals included. A chain run is a sequence of deployments, participant calls and registry submissions.
- **Concurrency.** Every `await` is a scheduling point. `Gateway` steps the pending table, the promise queue and
  the suspended jobs of one gateway against a moving chain whose answers are arbitrary; `LeaseRuns` steps any
  number of `verify` calls against the SQL table; `VerifierRuns` places each of the verifier's reads at its own
  moment of a chain run, and `Pipeline` puts it on top of the gateway, so that nothing is assumed of a submission.
- **Classes and loops** (`EscrowContract`, `ClaimRegistryGateway`, `LeaseMap`, `AgreementRepository`,
  `RateLimiter`, and the loops of `Evaluator`, `Dashboard` and `ProofService`) are proved equal to specification
  functions, about which the theorems speak.
- **Exactness.** `EscrowTransitions`, `Submissions`, `Verdicts`, `GatewayHistory`, `LeaseSteps`, `RateWindows`,
  `ServiceFailures`, `CanonicalForm` and `LoadOrder` say when each operation accepts and what it answers or writes,
  over its inputs, the rows or the history of a run, without naming its steps.
- **Hashes** are free constructors: `keccak256` is injective and never zero. Addresses and 32-byte words are
  values, so spelling and checksums are already normalized; where letter case matters (hash texts, ids, the evidence
  type) texts are sequences of UTF-16 units. Integer widths are explicit where the code or the ABI bounds them.
- **`localeCompare`** is any strict total order on the strings in use; the orders of `uuid` and `jsonb` keys in
  Postgres are arbitrary comparisons.
- **Outside answers** (providers, the clock, the prover, the database's refusal of a constraint) are parameters.

What the code turned out not to guarantee, and when:

- The pending table cannot know of a broadcast whose call threw. Broadcasts of a claim are bounded by one plus the
  number of such sends (`AtMostOneBroadcast`). While the registry still accepts the claim, each such send can lead to
  another broadcast (`UnacknowledgedSendRepeats`), and two are reachable from a fresh gateway
  (`SecondBroadcastIsReachable`).
- `REPLAY_DETECTED` can concern the very same claim: the binding and the consumption are read by two calls, and
  the claim can land between them (`ReplayIsExact`, `SplitReadsReportReplay`).
- A retry of a settled direct claim succeeds exactly until the seller withdraws (`RetryConverges`).
- A row has one holder throughout a run if and only if no claim for its agreement and transaction is sent with a stamp
  more than five minutes after that of an attempt still at work on it (`LeaseIsExclusive`); attempts on the row that
  end in time are enough (`TimelyIsEnough`). A verified row changes only in a run with such a claim
  (`VerifiedChangesOnlyWhenOvertaken`); whenever two attempts, both still with the verifier, share a row whose
  transaction is free, it can (`SharedRowCanBeOverwritten`), and such sharing is reachable (`SharingIsReachable`).
- The two lease stores differ at exactly five minutes, on updates that leave old results in place or write empty
  texts, and on which of several rows submitted in the same millisecond is the latest (`StartAgreesExactly`,
  `UpdateAgreesExactly`, `LatestAgreesExactly`).
- One payment settles one escrow per evidence type: two types of it can settle two escrows
  (`OnePaymentOneEscrow`, `SecondEscrowExactly`, `TwoTypesSettleTwoEscrows`).
- A transaction mined after its receipt was given up leaves its entry stuck: the gateway fulfils no promise of the claim
  any more (`ConsumedEntryStalls`, `StallIsReachable`); it is the verifier that converges.
- A stored agreement keeps its commitment exactly when its ids are lower-case and its texts hold no unpaired
  surrogate (`CommitmentSurvives`).
- A draft whose evidence type is the disabled marker in another spelling changes its mode when normalized
  (`ModeIsStable`).
- The migration that added the mode column tests for the disabled marker the wrong way round: it gives an accepted
  agreement its declared mode exactly when the marker was so disguised (`BackfillIsInverted`). A blockchain-only
  agreement then fails verification exactly when just one of deployment and verification saw a mode that strayed
  (`ModesAgree`, `MismatchIsExact`).

## Model

| member | source | states |
|---|---|---|
| Escrow.FundsAreConserved | contracts/src/VeyronisEscrow.sol:120-271 | after every run and inside every re-entrant callback: accounted funds plus payouts equal what was deposited, which is zero or the required amount; the deposit is positive exactly in the three funded states; at most one party, the winner of the final state, is ever credited, once |
| Escrow.ExecKeepsInv | contracts/src/VeyronisEscrow.sol:103-271 | every accepted call, a withdrawal with any callback included, keeps the accounting invariant and leaves the re-entrancy lock as it found it |
| Escrow.CreditIsWithdrawable | contracts/src/VeyronisEscrow.sol:250-259 | in every reachable state a withdrawal that accepts the ether succeeds exactly when the credit is positive, and pays the whole required amount once whatever the callback re-enters |
| Escrow.SettlementHasAuthority | contracts/src/VeyronisEscrow.sol:130-248 | terminal states are final, and each way into Complete or Refunded has its own sender, prior state and, for direct settlement, recorded claim |
| Escrow.PaidOutIsFrozen | contracts/src/VeyronisEscrow.sol:250-271 | once the winner is paid no sequence of calls changes the escrow |
| Escrow.CallAdvances | contracts/src/VeyronisEscrow.sol:120-271 | a call never changes a recorded claim, a final state or a paid-out escrow, nor clears active evidence |
| EscrowTransitions.TransitionTable | contracts/src/VeyronisEscrow.sol:120-259 | in every accountable storage a call is accepted exactly on its row of a transition table, and state, active evidence, recorded claim, deposit, credits and payouts after it are those of the row |
| EscrowTransitions.CancelIsFinal | contracts/src/VeyronisEscrow.sol:120-133 | an accepted cancellation ends in Cancelled with no funds, and no sequence of calls changes that escrow again |
| EscrowTransitions.EvidenceIsTheLast | contracts/src/VeyronisEscrow.sol:142-230 | over every run, callbacks included, the active evidence is that of the last accepted refund request, dispute or direct settlement, and the recorded claim that of the last accepted registry call |
| EscrowContract.VeyronisEscrow.constructor | contracts/src/VeyronisEscrow.sol:68-101 | a fresh escrow of valid terms holds nothing and awaits payment |
| EscrowContract.VeyronisEscrow.Deposit | contracts/src/VeyronisEscrow.sol:120-128 | succeeds and changes storage as specified, or reverts and changes nothing: buyer, awaiting payment, the exact amount |
| EscrowContract.VeyronisEscrow.Cancel | contracts/src/VeyronisEscrow.sol:130-133 | likewise: buyer, awaiting payment; the escrow is cancelled for good |
| EscrowContract.VeyronisEscrow.CreditRecipient | contracts/src/VeyronisEscrow.sol:265-270 | moves the whole deposit into the recipient's credit and logs it, unless the sum overflows |
| EscrowContract.VeyronisEscrow.ConfirmDelivery | contracts/src/VeyronisEscrow.sol:135-140 | likewise: buyer, awaiting delivery, not a direct escrow; credits the seller |
| EscrowContract.VeyronisEscrow.RequestRefund | contracts/src/VeyronisEscrow.sol:142-154 | likewise: buyer, awaiting delivery, nonzero evidence, which becomes the active one |
| EscrowContract.VeyronisEscrow.ApproveRefund | contracts/src/VeyronisEscrow.sol:156-160 | likewise: seller, refund requested; credits the buyer |
| EscrowContract.VeyronisEscrow.OpenDispute | contracts/src/VeyronisEscrow.sol:162-174 | likewise: buyer or seller, awaiting delivery or refund requested, nonzero evidence, which becomes the active one |
| EscrowContract.VeyronisEscrow.RecordVerifiedEvidence | contracts/src/VeyronisEscrow.sol:176-191 | likewise: registry, disputed, the active evidence, not yet verified |
| EscrowContract.VeyronisEscrow.SettleVerifiedCondition | contracts/src/VeyronisEscrow.sol:193-212 | likewise: registry, awaiting delivery, direct, nothing active or verified; credits the seller |
| EscrowContract.VeyronisEscrow.RecordVerifiedCondition | contracts/src/VeyronisEscrow.sol:214-230 | likewise: registry, awaiting delivery, not direct, nothing active or verified |
| EscrowContract.VeyronisEscrow.ResolveDispute | contracts/src/VeyronisEscrow.sol:232-248 | likewise: arbitrator, disputed; credits the buyer or the seller as resolved |
| EscrowContract.VeyronisEscrow.Withdraw | contracts/src/VeyronisEscrow.sol:250-259 | zeroes the credit before the transfer, runs the recipient's calls against the locked contract, and reverts as a whole if the transfer fails |
| Dashboard.ActionsFor | backend/src/agreements/dashboard-service.ts:172-205 | the pushed actions are exactly those of a table by role, state and lifecycle, without repetition |
| Dashboard.ContractTable | contracts/src/VeyronisEscrow.sol:120-259 | in any accountable storage the contract accepts some message of an action from a role exactly as that table says, except delivery confirmation on direct escrows |
| Dashboard.OfferedActionsMatchContract | backend/src/agreements/dashboard-service.ts:172-205 | in every reachable state a participant is offered exactly the calls the contract would accept, direct escrows hiding refund and dispute calls; `canWithdrawEscrowFunds` is true exactly when the credit is positive |
| Registry.SubmitEffect | contracts/src/EvidenceClaimRegistry.sol:132-202 | an accepted claim was unconsumed, its source fact unbound, and matched the escrow's context and its own recomputed commitment; afterwards both are set and the escrow has made the transition of the mode |
| Submissions.AcceptanceIsExact | contracts/src/EvidenceClaimRegistry.sol:124-202 | from every reachable chain a submission is accepted exactly when the verifier sends it with its fields set and its own recomputed evidence, the escrow exists in that context, trusts this registry, knows the subject and is ready for the mode, and no claim of the same source fact was accepted before, for any escrow |
| Submissions.KeysAreExact | contracts/src/EvidenceClaimRegistry.sol:101-122 | claim ids name claims and source keys name source facts, both ways, and every hashed word stands under its own name |
| Registry.RunKeepsInv | contracts/src/EvidenceClaimRegistry.sol:48-202 | over every chain run: each consumed claim is the one accepted for its escrow, each bound source fact belongs to such a claim, each escrow trusting the registry carries that claim or none, and every escrow's accounting holds |
| Registry.RunMovesForward | contracts/src/EvidenceClaimRegistry.sol:48-202 | consumption, bindings, escrow terms, recorded claims and final states never change later in a run |
| Registry.ShortcutIsExact | backend/src/attestcoin/attestcoin-verifier.ts:137-154 | in every reachable state, for a claim in its escrow's context: the source key is bound to the escrow iff this claim is consumed iff the escrow trusts the registry and carries this claim id |
| Registry.ConsumedIsBound | contracts/src/EvidenceClaimRegistry.sol:184-201 | a consumed claim has its source fact bound to its own escrow, which matches it and carries it |
| Registry.BoundNamesClaim | contracts/src/EvidenceClaimRegistry.sol:184-201 | a bound source fact names a consumed claim of that escrow with that key |
| OnePayment.SecondEscrowExactly | contracts/src/EvidenceClaimRegistry.sol:124-194 | of two claims on different escrows, each acceptable, the second is still acceptable after the first exactly when the source facts differ; for one payment, exactly when the evidence types differ |
| OnePayment.OnePaymentOneClaim | contracts/src/EvidenceClaimRegistry.sol:184-201 | in every run, consumed claims of one payment and one evidence type are one claim |
| OnePayment.TwoTypesSettleTwoEscrows | contracts/src/EvidenceClaimRegistry.sol:124-201 | for any two direct escrows of one buyer, a run in which one payment under two evidence types settles both |
| Gateway.NextKeepsInv | backend/src/attestcoin/ethers-gateways.ts:176-293 | every scheduling step keeps the queue order, the pending table, the broadcast bound, the results and the ledger invariants together |
| GatewayRuns.AtMostOneBroadcast | backend/src/attestcoin/ethers-gateways.ts:214-275 | over every interleaving, modes, failures, reverts, lost receipts and retries: an acknowledged broadcast of a claim is its last, so there is at most one per claim if sends that broadcast never throw, and in general at most one more than sends that did |
| GatewayResends.UnacknowledgedSendRepeats | backend/src/attestcoin/ethers-gateways.ts:230-232 | the bound is reached: from every reachable system with a job broadcasting a claim the registry still accepts, whatever is queued behind it, a send that throws after broadcasting can lead, on retry, to a second broadcast |
| GatewayResends.SecondBroadcastIsReachable | backend/src/attestcoin/ethers-gateways.ts:214-232 | for every direct escrow of the registry, deployment, deposit, one call, such a send and a retry lead from a fresh gateway to two broadcasts of one claim |
| GatewayRuns.EntriesOutliveFailures | backend/src/attestcoin/ethers-gateways.ts:183-203 | over any run a pending entry stays in the table, same claim and mode, transaction never forgotten, until the registry has consumed its claim; settled promises keep their outcome |
| GatewayStalls.ConsumedEntryStalls | backend/src/attestcoin/ethers-gateways.ts:225-232 | once a claim is consumed with none of its jobs past the simulation, no run fulfils another promise of it or broadcasts it, and its entry stays in the table |
| GatewayStalls.StallIsReachable | backend/src/attestcoin/ethers-gateways.ts:214-293 | for every direct escrow: a broadcast, a lost receipt and the mined transaction lead from a fresh gateway to such a claim |
| GatewayHistory.StepTable | backend/src/attestcoin/ethers-gateways.ts:214-275 | a continued job moves exactly when its awaited calls have come back, along a table over the answers, and rejects in every other case |
| GatewayHistory.PromiseIsExact | backend/src/attestcoin/ethers-gateways.ts:176-203 | which promise a caller gets, and the table afterwards: refused on another mode, the promise of the claim's one unsettled job, or a new job on the claim's old entry with its stored transaction, or on a new one |
| GatewayHistory.CountsAreBroadcasts | backend/src/attestcoin/ethers-gateways.ts:225-232 | the counters of the broadcast bound are the answered sends of the run: those that returned a hash and those that threw |
| GatewayCompletion.BroadcastCompletes | backend/src/attestcoin/ethers-gateways.ts:225-275 | from every reachable broadcasting job, the hash, its mining, its receipt with the acceptance event and the two views fulfil the promise with that hash and remove the entry |
| GatewayRuns.QueueIsSerial | backend/src/attestcoin/ethers-gateways.ts:205-212 | when a job has started every earlier one has settled, and a queued job may start exactly when all earlier ones have settled, by success or failure |
| GatewayRuns.InFlightIsShared | backend/src/attestcoin/ethers-gateways.ts:183-203 | while a job of a claim is unsettled it is the only one; another caller in the same mode gets its promise, in another mode is refused, and neither changes anything |
| GatewayRuns.FulfilledIsAccepted | backend/src/attestcoin/ethers-gateways.ts:264-274 | a fulfilled promise names its claim's id, consumed and bound on chain and carried by the escrow |
| GatewayHistory.FulfilledIsSent | backend/src/attestcoin/ethers-gateways.ts:225-275 | over every run: the transaction hash of a fulfilled promise came back from an earlier broadcast of the same claim, and its job was earlier shown a successful receipt with this claim's acceptance event |
| GatewayHistory.PromiseIsSent | backend/src/attestcoin/ethers-gateways.ts:176-275 | the same for the claim a caller submitted, from the call that handed out the promise on |
| GatewayRuns.SubmissionIsObserved | backend/src/attestcoin/attestcoin-verifier.ts:272-298 | whatever happens before, during and after a submission: the chain below the gateway is a run of the ledger, and at the interior point of it where the promise handed to the caller has been fulfilled, the result's claim id is the submitted claim's and that claim is consumed |
| ClaimRegistryGateway.EthersEvidenceClaimRegistryGateway.SubmitClaim | backend/src/attestcoin/ethers-gateways.ts:176-203 | the synchronous part of a submission: table, current promise, queue and result become exactly those of the specification |
| ClaimRegistryGateway.EthersEvidenceClaimRegistryGateway.SerializeSubmission | backend/src/attestcoin/ethers-gateways.ts:205-212 | the work is chained to the old tail and becomes the new one |
| ClaimRegistryGateway.EthersEvidenceClaimRegistryGateway.Proceed | backend/src/attestcoin/ethers-gateways.ts:214-293 | each segment between awaits changes the gateway exactly as the specified step does |
| ClaimRegistryGateway.EthersEvidenceClaimRegistryGateway.Check | backend/src/attestcoin/ethers-gateways.ts:235-262 | goes on only with a successful receipt whose first acceptance event names this claim, escrow, evidence and source key |
| ClaimRegistryGateway.EthersEvidenceClaimRegistryGateway.Finish | backend/src/attestcoin/ethers-gateways.ts:268-274 | the entry is deleted and the promise fulfilled only if the registry shows the claim consumed and bound to its escrow |
| ClaimRegistryGateway.EthersEvidenceClaimRegistryGateway.Settle | backend/src/attestcoin/ethers-gateways.ts:197-201 | the finally callback forgets the settled promise and nothing else |
| Verifier.VerifyAndSubmit | backend/src/attestcoin/attestcoin-verifier.ts:38-420 | result and requested submission, in every branch and with every failure code, as functions of the awaited answers |
| Verdicts.SubmissionIsExact | backend/src/attestcoin/attestcoin-verifier.ts:46-297 | over the answers alone and per mode: a submission is requested exactly for a proven request whose source fact was read as neither consumed nor bound, in an escrow that fits it, and is of the requested claim in the requested mode |
| Verdicts.SuccessIsExact | backend/src/attestcoin/attestcoin-verifier.ts:38-420 | over the answers alone, success exactly when the request is proven, its fact unused and submitted or bound to its own escrow, the escrow fits and the final reads show the claim; and every field of the result, among them the proven sender, the policy's recipient and the submission's hash |
| Verdicts.FailureIsTheFirst | backend/src/attestcoin/attestcoin-verifier.ts:38-420 | every failure carries the code of the first broken check in the order the checks are made, over the answers |
| Pipeline.ServedIsObserved | backend/src/attestcoin/attestcoin-verifier.ts:139-298 | a verifier whose submission is a call on the gateway and whose answer is what that call's promise was fulfilled with meets everything the verifier's theorems require of the chain |
| Pipeline.ClaimLandsEndToEnd | backend/src/attestcoin/attestcoin-verifier.ts:139-297 | over any interleaving of gateway, chain and reads: a positive result means this very claim is consumed on chain when the submission phase ends, whether submitted or found bound |
| Pipeline.HashEndToEnd | backend/src/attestcoin/attestcoin-verifier.ts:272-298 | the transaction hash of a positive result is one that an earlier broadcast of this claim returned to the gateway, or the source transaction's if nothing was submitted |
| Pipeline.DirectSettlementEndToEnd | backend/src/attestcoin/attestcoin-verifier.ts:38-420 | the soundness of direct settlement with the gateway itself in place of an assumption on its answer |
| VerifierRuns.PaymentIsProven | backend/src/attestcoin/attestcoin-verifier.ts:46-136 | a positive result means the proven transaction is the requested one, admissible, and pays the reported amount under the only policy the claim's commitment can stand for |
| VerifierRuns.DirectSettlementIsSound | backend/src/attestcoin/attestcoin-verifier.ts:299-332 | direct mode, reads interleaved with anything: at the credit read the escrow is Complete with this claim, the seller is owed exactly the required amount, and the transaction satisfies the policy the escrow commits to |
| VerifierRuns.PrerequisiteIsSound | backend/src/attestcoin/attestcoin-verifier.ts:334-379 | prerequisite mode: at the state read the escrow still awaits delivery with this claim, the whole deposit and nothing credited |
| VerifierRuns.DisputeEvidenceIsSound | backend/src/attestcoin/attestcoin-verifier.ts:380-413 | dispute mode: the escrow was disputed with nobody credited, held this evidence as active, and finally carries this claim |
| VerifierRuns.OnePaymentOneEscrow | backend/src/attestcoin/attestcoin-verifier.ts:475-489 | two successful decisions anywhere on one run, for one transaction, subject and evidence type, are for one escrow and one claim, whatever their modes and times |
| VerifierRuns.BroadcastIsJustified | backend/src/attestcoin/attestcoin-verifier.ts:139-280 | a submission is requested only for a claim built from a proven admissible transaction, read as unconsumed and unbound, in an escrow context that matches claim and mode |
| VerifierRuns.RetryConverges | backend/src/attestcoin/attestcoin-verifier.ts:139-332 | after a first attempt whose direct claim landed, every later attempt with the same request and responsive oracles broadcasts nothing, and exactly while the seller has not withdrawn returns the first attempt's claim and id, and for the same proof its amount and facts |
| VerifierRuns.ReplayIsExact | backend/src/attestcoin/attestcoin-verifier.ts:141-154 | `REPLAY_DETECTED` exactly when the source fact was read as bound to another escrow, or this claim was accepted between the binding read and the consumption read |
| VerifierRuns.SplitReadsReportReplay | backend/src/attestcoin/attestcoin-verifier.ts:142-150 | at every acceptance, reading the binding before and the consumption after it reports a replay of the claim itself |
| Evaluator.EvaluateErc20 | backend/src/attestcoin/source-transaction-interpreter.ts:68-118 | the filtering loop with its early exits gives the verdict of the first well-formed transfer, with the code of each failure |
| Evaluator.FilteredLogs | backend/src/attestcoin/source-transaction-interpreter.ts:93-99 | the two filters are empty exactly when no log is a transfer, or none of the committed token, and keep the first carrier |
| Evaluator.AcceptanceIsExact | backend/src/attestcoin/source-transaction-interpreter.ts:14-126 | acceptance with an amount exactly when the scalar guards and the calldata clause hold and the first well-formed three-topic transfer of the committed token and parties carries that amount and meets the rule; for native payments, recipient and value |
| Evaluator.TransferIsExact | backend/src/attestcoin/source-transaction-interpreter.ts:68-118 | a transaction that calls the ABI-encoded `transfer(to, amount)` and emits its one `Transfer` event is accepted with that amount exactly when it is admissible and token, sender, recipient and amount are the committed ones |
| Evaluator.FirstCarrierDecides | backend/src/attestcoin/source-transaction-interpreter.ts:101-117 | logs after the first carrier never matter: a bad amount in it fails even if a later one would match |
| Evaluator.EvaluationFailsFirst | backend/src/attestcoin/source-transaction-interpreter.ts:14-126 | a transaction that does not pay is refused with the code of the first broken check in the order the checks are made |
| Evaluator.EvidenceTypeIsFree | backend/src/attestcoin/source-transaction-interpreter.ts:14-54 | a transaction pays a policy exactly when it pays the same policy under any other evidence type |
| Policies.TupleReadsBack | packages/shared/src/index.ts:549-588 | decoding the ABI words of any tuple that fits its layout returns the tuple |
| Policies.DecodeInvertsEncode | packages/shared/src/index.ts:549-588 | decoding the fourteen-word encoding returns the policy, for every policy in range |
| Policies.EncodingLayout | packages/shared/src/index.ts:549-588 | each of the fourteen words is the 32 bytes, most significant first, of the field the ABI puts there, the selector in the leading four |
| Policies.CommitmentBindsPolicy | packages/shared/src/index.ts:549-588 | equal policy commitments exactly for equal policies |
| Policies.CommitmentIsCaseBlind | packages/shared/src/index.ts:37-46 | for policies as the texts the schema accepts, equal commitments exactly when the texts agree up to hexadecimal case |
| Json.StringInverts | packages/shared/src/index.ts:656-665 | parsing an escaped string (section 7 of RFC 8259, unpaired surrogates escaped) returns the string |
| Json.ParseInverts | packages/shared/src/index.ts:656-665 | the parser returns every printed value, whatever follows it |
| Json.PrintIsUnambiguous | packages/shared/src/index.ts:656-665 | equal texts exactly for equal values |
| Json.PrintIsPaired | packages/shared/src/index.ts:656-665 | no printed text holds an unpaired surrogate, so its UTF-8 form exists |
| CanonicalForm.EscapesAreJson | packages/shared/src/index.ts:656-665 | how every UTF-16 unit of a string is written: the short escapes of section 7 of RFC 8259, four lower-case hexadecimal digits for other controls and unpaired surrogates, and itself otherwise |
| WorkTerms.ConfigurationIsSorted | packages/shared/src/index.ts:648-654 | sorting a configuration again while printing changes nothing |
| WorkTerms.RequirementListsAgree | packages/shared/src/index.ts:639-646 | requirement lists print alike exactly when they hold the same requirements, in any order, with the same configuration entries |
| WorkTerms.WorkTextIsCanonical | packages/shared/src/index.ts:523-546 | deliverable lists with distinct places print the same text exactly when they state the same terms up to the order of deliverables, requirements and configuration keys |
| CanonicalForm.WorkTextShows | packages/shared/src/index.ts:523-546 | the text parses, to its end, into exactly the work terms: each field under its own name and no other, keys in locale order at every depth, and each deliverable and requirement behind exactly those of a lower position, or of the same position and an earlier id |
| WorkTerms.AgreementCommitmentBinds | packages/shared/src/index.ts:591-628 | equal agreement commitments exactly for the same participants, amount, nonce, registry, policy and work terms |
| CanonicalForm.CommitmentNames | packages/shared/src/index.ts:591-628 | each term of the agreement is hashed under its own name, and the hash of the work text is joined exactly when there are deliverables |
| Persistence.StatementsAmount | backend/src/agreements/agreement-repository.ts:119-188 | the nested inserts succeed exactly when the rows are acceptable and the tables with all of them satisfy every unique key, and then amount to appending them |
| Persistence.AppendedKeepsConstraints | backend/sql/001_create_agreements.sql:1-19 | the stored tables satisfy the keys again: unique id, commitment and escrow address of agreements, unique ids and positions of deliverables and requirements, known agreements |
| Persistence.ColumnKeeps | backend/sql/003_create_work_evidence.sql:1-11 | a text column returns a text unchanged exactly when it holds no unpaired surrogate |
| PersistenceReads.LoadedTerms | backend/src/agreements/agreement-repository.ts:280-329 | what is selected, grouped and ordered back states the terms the columns kept, for every stored agreement among others |
| LoadOrder.LoadPlaces | backend/src/agreements/agreement-repository.ts:280-329 | a stored deliverable is read back behind exactly those of lower positions, its requirements likewise, every column with what it kept of its own field |
| PersistenceReads.ReadsAreStable | backend/src/agreements/agreement-repository.ts:119-329 | a stored agreement reads the same after any further creations, committed or rolled back |
| PersistenceReads.CommitmentSurvives | backend/src/agreements/agreement-repository.ts:119-329 | for an agreement stored at any point of any history of creations and read back at any later one, the commitment recomputed from the three tables equals the stored one exactly when ids are lower-case and texts hold no unpaired surrogate |
| AgreementRepository.SqlAgreementRepository.CreateAgreement | backend/src/agreements/agreement-repository.ts:119-188 | one transaction: all rows are stored exactly when the constraints allow it, and otherwise none |
| AgreementRepository.SqlAgreementRepository.GroupRows | backend/src/agreements/agreement-repository.ts:295-312 | the push loop gives each deliverable its requirement rows in row order |
| AgreementRepository.SqlAgreementRepository.WithDeliverables | backend/src/agreements/agreement-repository.ts:280-329 | reading returns the specified grouping of the two sorted selections |
| LeaseStore.StartKeepsConstraints | backend/src/agreements/agreement-condition-repository.ts:166-212 | the upsert keeps the primary key, the unique agreement and hash, and the unique verified hash |
| LeaseStore.UpdateKeepsConstraints | backend/sql/005_unique_verified_condition_transactions.sql:1-3 | an update is refused exactly when it would break a constraint |
| LeaseMap.InMemoryVerificationRepository.StartVerification | backend/src/agreements/agreement-condition-repository.ts:58-92 | the map and the answer become exactly those of the specification: held, restarted in place, or inserted |
| LeaseMap.InMemoryVerificationRepository.UpdateVerification | backend/src/agreements/agreement-condition-repository.ts:94-125 | given fields replace, absent ones stay, an unknown id changes nothing |
| LeaseMap.InMemoryVerificationRepository.FindVerifiedTransaction | backend/src/agreements/agreement-condition-repository.ts:138-148 | the first verified row of the transaction in insertion order, whatever the hash's case |
| LeaseMap.InMemoryVerificationRepository.LatestVerification | backend/src/agreements/agreement-condition-repository.ts:127-136 | the head of the agreement's rows, sorted stably by submission time with the latest first |
| LeaseRefinement.StartAgreesExactly | backend/src/agreements/agreement-condition-repository.ts:58-212 | on equal stores a fresh lower-case claim is decided and stored alike exactly when no lease is exactly five minutes old and no restarted row holds old facts |
| LeaseRefinement.UpdateAgreesExactly | backend/src/agreements/agreement-condition-repository.ts:94-237 | on equal stores an update is answered and stored alike exactly when it leaves no old field in place, writes no empty text and breaks no uniqueness |
| LeaseRefinement.FindAgrees | backend/src/agreements/agreement-condition-repository.ts:138-259 | on equal stores both find the same verified row for a lower-case hash |
| LeaseRefinement.StoresAgree | backend/src/agreements/agreement-condition-repository.ts:52-272 | over every disciplined history the two stores grant the same claims, expose the same rows and end with the same contents |
| LeaseLatest.LatestAgreesExactly | backend/src/agreements/agreement-condition-repository.ts:127-136 | on equal stores both name the same latest row exactly when, of rows submitted last at the same time, the one inserted first has the least id |
| LeaseLatest.SqlLatestIsLeast | backend/src/agreements/agreement-condition-repository.ts:239-248 | the SQL store answers with the row of the least id among those of the agreement that none was submitted after |
| LeaseRuns.LeaseExcludes | backend/src/agreements/agreement-condition-repository.ts:169-190 | after a claim of a row, and whatever happens to other rows, until a report other than a verification is written to it only a claim of it stamped more than five minutes later is granted |
| LeaseRuns.GrantsAreSeparated | backend/src/agreements/agreement-condition-repository.ts:166-237 | any two grants of one row in any history are separated by a report on it other than a verification, or by stamps more than five minutes apart |
| LeaseRuns.StaleHolderOverwrites | backend/src/agreements/agreement-condition-repository.ts:214-237 | an overtaken claimant's failure overwrites its successor's verification |
| LeaseRuns.OneVerificationPerTransaction | backend/sql/005_unique_verified_condition_transactions.sql:1-3 | in any interleaving at most one row is verified for a transaction |
| LeaseRuns.LateClaimsOvertake | backend/src/agreements/agreement-condition-repository.ts:184-189 | a step grants a held row to another claimant exactly when it sends a claim for the same agreement and transaction stamped more than five minutes after the holder's |
| LeaseRuns.LeaseIsExclusive | backend/src/agreements/agreement-condition-service.ts:83-139 | a row has at most one holder at every point of a run if and only if no step of it sends such a late claim while the earlier attempt is still at work |
| LeaseRuns.TimelyIsEnough | backend/src/agreements/agreement-condition-repository.ts:184-189 | if the attempts on a row end before it becomes reclaimable, whatever those on other rows do, there is no late claim of it |
| LeaseRuns.VerifiedChangesOnlyWhenOvertaken | backend/src/agreements/agreement-condition-repository.ts:214-237 | in any run a verified row stays exactly as it is, unless some step of the run granted a claim of it stamped more than five minutes after that of an attempt still at work on it |
| LeaseRuns.SharedRowCanBeOverwritten | backend/src/agreements/agreement-condition-repository.ts:214-237 | two attempts still with the verifier on one row, its transaction free, can verify it and then undo the verification, in either order |
| LeaseRuns.SharingIsReachable | backend/src/agreements/agreement-condition-service.ts:83-106 | two calls for one transaction more than five minutes apart, the first still with the verifier, share its row |
| LeaseRuns.CrossAgreementLoser | backend/src/agreements/agreement-condition-service.ts:111-131 | of two agreements that both prove one transaction, with no late claim of either row, at most one ends verified and the other ends failed with `REPLAY_DETECTED` |
| LeaseSteps.LookIsExact | backend/src/agreements/agreement-condition-service.ts:83-90 | in every reachable system an attempt that looks is refused exactly when some row is verified for its transaction and another agreement, and goes on otherwise |
| LeaseSteps.ClaimIsExact | backend/src/agreements/agreement-condition-service.ts:92-103 | in every reachable system a claim inserts a row, takes over a failed row or one in progress for more than five minutes, or is declined, field by field over the table's rows |
| LeaseSteps.WriteIsExact | backend/src/agreements/agreement-condition-service.ts:106-138 | a verdict is written whole into the attempt's own row and returned, unless it is a proof of a transaction that another row is verified for |
| LeaseSteps.ConcedeIsExact | backend/src/agreements/agreement-condition-service.ts:122-129 | such an attempt's row fails with the replay code and message, whatever it held |
| ProofService.Verify | backend/src/attestcoin/attestcoin-service.ts:55-403 | in every run a proof is asked for only after an attested height at or above the receipt's block was seen; success comes after the prover accepted that block and those bytes; every failure code as specified |
| ProofService.FindChain | backend/src/attestcoin/attestcoin-service.ts:136-139 | the first supported chain with the requested key |
| ProofService.ChainOfIsFirst | backend/src/attestcoin/attestcoin-service.ts:136-139 | a chain is found exactly when some entry has this key and chain and none before it has the key |
| ProofService.VerdictIsExact | backend/src/attestcoin/attestcoin-service.ts:55-399 | a transaction is returned exactly when transaction, receipt, block and proof name one block, receipt and proven bytes report success, the first supported entry of the configured key is the source node's chain, an attested height covers the block, the prover accepted the builder's proof, and the transaction is the one in the proven bytes with the requested hash |
| ServiceFailures.ServiceFailsFirst | backend/src/attestcoin/attestcoin-service.ts:55-403 | every failure of the proof service carries the code of the first broken check of a list over the oracle's answers, and there is none exactly when no check is broken |
| ProofService.BroadcastFollowsProof | backend/src/attestcoin/attestcoin-verifier.ts:80-297 | a claim is broadcast only after the prover accepted the same block and hash, which is the attested block the policy window was checked against |
| Modes.ModeIsStable | packages/shared/src/index.ts:465-477 | an accepted draft's mode derived again after normalization is the declared one exactly unless the evidence type is the disabled marker in another spelling |
| Modes.WorkIsInTheTerms | packages/shared/src/index.ts:453-463 | whether there is application work depends on the terms, not on their order |
| Modes.ModeSurvivesStorage | backend/src/agreements/agreement-repository.ts:322-328 | what the tables return implies the same mode as what was stored |
| Modes.AcceptedDraftDeploys | packages/shared/src/index.ts:667-715 | the terms an accepted draft is deployed with pass every guard of the escrow's constructor |
| Modes.BackfillIsInverted | backend/sql/006_add_agreement_mode.sql:15-27 | the migration gives an accepted agreement the declared mode exactly when its evidence type was a disguised marker |
| Modes.ModesAgree | backend/src/agreements/agreement-condition-service.ts:184-187 | declared, derived or backfilled at either end, the escrow is direct exactly when direct settlement is asked for, unless the draft is blockchain-only and just one of the two modes strayed |
| Modes.MismatchIsExact | backend/src/attestcoin/attestcoin-verifier.ts:186-254 | the verifier's context check fails on the mode exactly on such a conflict |
| RateLimiter.InMemoryRateLimiter.TryRequest | backend/src/agreements/agreement-http.ts:478-490 | the table and the answer become exactly those of the specification |
| RateLimiter.InMemoryRateLimiter.Prune | backend/src/agreements/agreement-http.ts:500-504 | deleting while iterating leaves the unexpired entries in order |
| RateLimiter.RunKeepsInv | backend/src/agreements/agreement-http.ts:465-505 | on a clock that never goes back: never more than `maxKeys` entries, one per key, in order of expiry, none counted past the limit |
| RateLimiter.EvictedIsNearestExpiry | backend/src/agreements/agreement-http.ts:482-483 | the entry evicted for a new key expires no later than any other |
| RateLimiter.WindowBound | backend/src/agreements/agreement-http.ts:478-504 | from any reachable table an interval of `windowMs` admits at most twice the limit for a key not evicted in it, and once the limit if the key starts without an entry |
| RateWindows.TableIsWindows | backend/src/agreements/agreement-http.ts:478-504 | after any history the table holds one entry for each window that has neither ended nor been evicted, counting what it has admitted |
| RateWindows.RefusalIsExact | backend/src/agreements/agreement-http.ts:478-490 | after any history a request is refused exactly when its key's window, opened by an earlier request and neither ended nor evicted since, has already admitted as many requests as the limit |
| RateWindows.FirstRequestsAreAdmitted | backend/src/agreements/agreement-http.ts:478-490 | so a key without a window gets its first `limit` requests of a window admitted |
| NimAmount.DisplayAgreesWithPayment | frontend/app/wallet/nim-amount.ts:36-108 | display refuses a value for the reason payment does, except for zero and for big integers beyond the safe range |
| NimAmount.FormatDenotes | frontend/app/wallet/nim-amount.ts:73-83 | the printed decimal denotes exactly the amount over 100000, in at most five decimals with no trailing zero |

## Left out

- VerifierRuns.RetryConverges: the returned transaction hash is not part of the agreement with the first attempt; the code returns the source transaction's hash when it did not submit itself.
- Gateway: liveness. That a claim is eventually fulfilled is not stated; convergence is stated at the verifier.
- Gateway: more than one gateway process sharing a signer, and transaction replacement or reorganisation after acceptance.
- Contracts at a claim's address that imitate an escrow's interface; every escrow here is a `VeyronisEscrow`.
- Re-entrancy across escrows: a withdrawal callback calls its own escrow, not others.
- keccak256, signatures, RLP and the decoding of attested bytes; UTF-8 is taken as injective on texts without unpaired surrogates.
- Malformed or wrongly checksummed address texts, which `getAddress` rejects, and comparisons that fall back to unequal on them.
- Sort keys that compare equal under `localeCompare` while being different strings.
- The SQL repositories' statements are functions of the table; the second query of a claim that was not granted is read at the same moment as the first.
- The foreign key of requirement rows to deliverables (each is inserted right after its deliverable) and the CHECK on kinds, which the schema has already enforced.
- The columns of agreements that no commitment depends on and no key constrains, deployment status updates, listing and reconciliation records.
- Submission times as ISO texts: `localeCompare` on them is taken as the order of the times.
- `AgreementCreationService.confirmAndDeploy` under concurrency, which checks and then updates without a guard.
- HTTP routing, sessions, cookies, configuration, logging, React components and wallet connectors.
