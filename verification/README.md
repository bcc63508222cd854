# Tgrade contracts: voting, escrow, rewards and complaints, verified

This project models four contracts of the Tgrade repository and proves what they guarantee in
every run: the trusted circle (membership, batches, escrow, reward distribution), the dispute
multisig, the arbiter pool's complaints, and the payments contract.

Each contract is written twice. Functions over a state value say what one message does, as a new
state or an error; runs are sequences of calls whose blocks do not go backwards, and a failing
message changes nothing. A class has the storage items as fields, and its methods, with the loops
of the entry points, are proved to do what the functions say. The theorems are about the functions
and so hold of the methods. A third description of each contract, its reference, has neither loops nor
any of these functions: it says when a message is accepted and what it leaves of every member, ballot,
amount and deadline, with the numbers written out. A message does exactly that, no more and no less:
`CircleExecution.HandleConforms`, `MultisigReference.HandleConforms`, `ComplaintReference.HandleConforms`
and `PaymentsReference.HandleConforms`. For the reward distribution the eager ledger is the reference.

| file | contents |
|---|---|
| `Base.dfy`, `Sums.dfy` | blocks, deadlines, results; sums over maps and ascending key lists |
| `Voting.dfy` | tallies, the two-stage rounding of needed votes, early passing and early rejection |
| `Multisig.dfy`, `MultisigProofs.dfy`, `MultisigReference.dfy` | the dispute multisig, its invariant over runs, and its reference |
| `Distribution.dfy` | reward distribution by points per share, in fixed-width arithmetic |
| `EagerLedger.dfy`, `DistributionProofs.dfy` | the ledger it stands for, and the refinement |
| `DistributionLimits.dfy`, `DoubleCorrection.dfy` | the largest amount it can distribute; what the circle's double correction does |
| `Circle.dfy`, `CircleContract.dfy` | the trusted circle as functions and as a class |
| `CircleEffects.dfy` | what its operations do to every member, said without their loops |
| `CircleInvariant.dfy`, `CirclePromotion.dfy`, `CircleGovernance.dfy`, `CircleRuns.dfy` | its invariant, operation by operation, and over runs |
| `CircleReference.dfy`, `CircleConformance.dfy`, `CircleExecution.dfy` | its reference, and that every message does what it says |
| `CircleLaws.dfy` | what follows over runs for tallies, escrows once met, and leavers |
| `CircleIndex.dfy`, `CircleApproval.dfy` | the index of open proposals, and which proposals are ever executed |
| `CircleWaiting.dfy` | who is still promoted |
| `CircleFounding.dfy`, `CircleExamples.dfy`, `CircleScenario.dfy` | runs of a small circle that show where the code falls short of its text, and one to a standstill |
| `Complaints.dfy` | the arbiter pool with the multisigs it creates |
| `ComplaintProofs.dfy`, `ComplaintLifecycle.dfy`, `ComplaintReference.dfy` | its books, solvency, lifecycle and liveness, and its reference |
| `TcPayments.dfy`, `PaymentsReference.dfy` | the payments contract and its splits, and its reference |

Conventions. An address is its rank in the byte order of storage keys, so ascending key order is
the order on numbers. A decimal is the number of its 10^-18 parts. Integers are unbounded, except in
`Distribution.dfy`, where casts and shifts drop bits as in the source and every other operation traps
when its result does not fit. The source's wide integer types always trap; plain integer arithmetic
traps in Rust builds with overflow checks, which the workspace's release profile does not turn on.
A result that says no operation overflows holds of either build. One that says where an overflow
first occurs (`OverflowFreeIff`, `BoundIsTight`, the price of 2^126 in `NewVoterWithdrawsIff`, and
the points of a proposal in `LeaveSucceedsIff`, `LeaveConforms` and `VoteConforms`) is about builds
with checks. Without them the
corrections wrap, and whether the values read back are still right beyond that bound is not part of
this model. The failing withdrawals of `DoubleCorrection.dfy` do not depend on this: the amount read
is more than the stored total, whose subtraction always traps. Elsewhere subtractions that would
trap are errors, and proved unreachable where the code relies on it.

Where the code does not do what its text says, the model follows the code:

- The comment on `is_rejected` (contracts/tgrade-dispute-multisig/src/state.rs:91-92) reads as if
  every poll that cannot pass were rejected early. It is sound but not complete: vetoes do not count.
  `RejectionMissesIff` gives the exact difference.
- The comment on `POINTS_SHIFT` (contracts/tgrade-trusted-circle/src/distribution.rs:16-20) speaks of
  96-bit amounts. Corrections are signed, so with overflow checks the bound is 2^95 tokens for members
  of one point: up to it no run overflows, and from it on one does (`BoundIsTight`).
- The promotion paths apply the correction of one change of points twice
  (contracts/tgrade-trusted-circle/src/contract.rs:220, 281 and 312). That is harmless only while the
  price of a point is zero (`CorrectTwiceIff`). Otherwise a new voter cannot withdraw at all until the
  price has doubled, and then gets less (`NewVoterWithdrawsIff`, with a run in
  `FreshVoterCannotWithdraw`).
- A comment (contracts/tgrade-trusted-circle/src/contract.rs:612-613) has it that a proposal approved on
  time can be executed any time. The approval has to be stored, which only a new proposal and a vote
  do, both before expiry: `ExecutedAfterExpiryIff` is exact, for all rules. A proposal that passes only
  when it expires, whether it may end early or not, is shown as passed by queries, is executed in no
  run, and can be closed as rejected by anybody: `ApprovalAtExpiryIsLost`, with a run in
  `ApprovalLostInARun`.
- A leaver's point is to be taken from all open proposals he has not voted on
  (contracts/tgrade-trusted-circle/src/contract.rs:714, 737). The index keeps one proposal per second:
  `ListedIff` is exact, `SecondHidesFirst` shows that one is lost, and `HiddenInARun` a run. His leaving
  fails exactly if such a proposal has no points left: `LeaveSucceedsIff`, with a run in
  `LeaverFailsInARun`.
- Taking that point may make an open proposal pass (contracts/tgrade-trusted-circle/src/contract.rs:752-755),
  but its status is not stored anew. `LeaveDriftsIff` says exactly when the two differ, `DriftInARun` is
  a run, and by `RunNoDrift` only leaving and executing (which may kick somebody out) make them differ.
- A comment (contracts/tgrade-trusted-circle/src/contract.rs:874-875) has it that a member who counts as
  paid after the escrow was lowered is still promoted with his batch. Not if the batch was promoted
  before: `LoweredEscrowStrands`, with a run in `StrandedInARun`, and exactly who still is:
  `PaidMemberVotesIff`.
- Leaving voters are to claim their escrow once their time has come
  (contracts/tgrade-trusted-circle/src/contract.rs:344-351). So they do, and not before, exactly two voting
  periods later: `LeaverRefundedIff`. But a punishment without a kick-out makes a leaver a pending member,
  who may pay, vote and be refunded at once: `LeaverRefundedAtOnceInARun`. And a leaver of whom nothing is
  left is not cleared out, though a comment (contracts/tgrade-trusted-circle/src/contract.rs:366) has it so:
  the refund of nothing returns before. `ReturnIff` is exact, and `EmptyLeaverStaysInARun` a run.
- A member who leaves before his batch is promoted makes `check_pending`, and with it every new
  proposal, fail (contracts/tgrade-trusted-circle/src/contract.rs:303). `CheckPendingSucceedsIff` is
  exact, and `LeaverStopsTheCircle` is a run after which nobody can ever make a proposal again.
- `end_block` calls a payment "already paid" (contracts/tgrade-tc-payments/src/contract.rs:209-222), but
  only empty payments are recorded. `RepeatHeldBackIffEmpty` gives the exact condition and `PaidTwice`
  a run of two blocks.
- Arbiters may be named more than once. The multisig then counts the repeated entries in its total but
  not in its voters, and may never be able to decide: `AssignedClosableIff`.

## Model

| member | source | states |
|---|---|---|
| Voting.VotesNeededExact | contracts/tgrade-dispute-multisig/src/state.rs:272-276 | the needed votes are the ceiling of weight times fraction, less one exactly when the exact product has a part of a vote below 10^-9 |
| Voting.NeedMetIff | contracts/tgrade-dispute-multisig/src/state.rs:270-276 | for every fraction: votes meet the needed votes exactly if they are at least that fraction of the weight, up to 10^-9 of a vote |
| Voting.PassedIff | contracts/tgrade-dispute-multisig/src/state.rs:60-89 | when a tally passes, for each kind of threshold, early and at expiry, as inequalities between votes, weight and fractions |
| Voting.RejectedIff | contracts/tgrade-dispute-multisig/src/state.rs:93-125 | when a tally counts as rejected, in the same terms |
| Voting.VotesNeededNinePlaces | contracts/tgrade-trusted-circle/src/state.rs:596-600 | fractions of at most nine decimal places round up to the exact ceiling |
| Voting.VotesNeededOneShort | contracts/tgrade-dispute-multisig/src/state.rs:270-276 | an input for which the result is one vote below the ceiling |
| Voting.VotesNeededMonotone | contracts/tgrade-dispute-multisig/src/state.rs:70-86 | the need grows with the weight and with the fraction |
| Voting.VotesNeededAtMostWeight | contracts/tgrade-dispute-multisig/src/state.rs:275 | for fractions up to one the need is at most the weight, so narrowing it to 64 bits loses nothing |
| Voting.VotesNeededComplement | contracts/tgrade-dispute-multisig/src/state.rs:104-108 | the needs of a fraction and of its complement cover the weight, with at most one vote to spare |
| Voting.EmptyPollPassesIff | contracts/tgrade-dispute-multisig/src/state.rs:73-82 | a quorum poll in which nobody votes passes at expiry exactly when total times quorum is below one nine-place unit |
| Voting.PassedSurvives | contracts/tgrade-dispute-multisig/src/state.rs:60-62 | once passed before expiry, every later tally within the total weight passes, early or at expiry, for all three kinds of threshold |
| Voting.PassedIffSureToPass | contracts/tgrade-dispute-multisig/src/state.rs:60-89 | before expiry a poll counts as passed if and only if every completion of the tally passes at expiry |
| Voting.AllForIsBest | contracts/tgrade-dispute-multisig/src/state.rs:91-93 | if any completion passes then the one in which all silent voters say yes does |
| Voting.SureToFailIff | contracts/tgrade-dispute-multisig/src/state.rs:91-125 | no completion passes if and only if No, Veto and the final need together exceed the opinions |
| Voting.RejectedImpliesSureToFail | contracts/tgrade-dispute-multisig/src/state.rs:93-125 | an early rejection is final: no later votes make the poll pass |
| Voting.RejectionMissesIff | contracts/tgrade-dispute-multisig/src/state.rs:91-93 | exactly which doomed polls are not reported as rejected: the No votes lie between what dooms the poll and what rejection allows |
| Voting.VetoesAreNotRejection | contracts/tgrade-dispute-multisig/src/state.rs:91-103 | an input that is sure to fail but is not reported as rejected |
| Voting.NeverPassedAndRejected | contracts/tgrade-dispute-multisig/src/state.rs:39-52 | passed and rejected exclude each other, before expiry and at it |
| Voting.EarlyVerdictIsFinal | contracts/tgrade-dispute-multisig/src/state.rs:39-52 | a status of Passed or Rejected reached before expiry is the status of every later tally |
| MultisigProofs.TallyTotal | contracts/tgrade-dispute-multisig/src/state.rs:246-248 | the tally's total is the sum of the points of all stored ballots |
| MultisigProofs.TableWithinTotal | contracts/tgrade-dispute-multisig/src/contract.rs:39-73 | the stored voters weigh at most the total weight, though a repeated address keeps only its last entry |
| MultisigProofs.TallyWithinTotal | contracts/tgrade-dispute-multisig/src/state.rs:70-86 | the ballots weigh no more than the stored voters, which weigh no more than the total: no weight subtraction underflows |
| MultisigProofs.CachedStatusAgrees | contracts/tgrade-dispute-multisig/src/state.rs:39-58 | in every state of the invariant and at every later block, the stored status gives what recomputing from an open status gives |
| MultisigProofs.HandleKeepsInv | contracts/tgrade-dispute-multisig/src/contract.rs:79-92 | every message keeps the invariant, and none meets an underflow |
| MultisigProofs.RunKeepsInv | contracts/tgrade-dispute-multisig/src/contract.rs:79-202 | every run over blocks that do not go backwards keeps the invariant |
| MultisigProofs.ReachableStatusAgrees | contracts/tgrade-dispute-multisig/src/contract.rs:30-202 | from instantiation on, stored and recomputed status agree, and at most one decision is ever sent |
| MultisigProofs.VerdictDependsOnBallots | contracts/tgrade-dispute-multisig/src/state.rs:36-58 | two runs that collect the same ballots have the same verdict at every later block, whatever the order of the votes |
| MultisigProofs.VerdictSurvivesRun | contracts/tgrade-dispute-multisig/src/state.rs:60-93 | once the verdict is Passed or Rejected no further run changes it |
| MultisigProofs.VoteSucceedsIff | contracts/tgrade-dispute-multisig/src/contract.rs:94-138 | a vote counts exactly for a stored voter of positive weight who has not voted, before expiry and decision, with his own weight |
| MultisigProofs.ExecuteIff | contracts/tgrade-dispute-multisig/src/contract.rs:140-178 | execution succeeds exactly when no decision was sent yet and the recomputed verdict is Passed |
| MultisigProofs.CloseIff | contracts/tgrade-dispute-multisig/src/contract.rs:180-209 | closing succeeds exactly for an open poll that expired without passing |
| MultisigProofs.DecisionNeedsDecidable | contracts/tgrade-dispute-multisig/src/contract.rs:147-158 | a run sends a decision only if a unanimous vote could pass the poll, or an empty one does |
| MultisigProofs.DecidableGivesDecision | contracts/tgrade-dispute-multisig/src/contract.rs:147-158 | and every such poll has a run of votes and one execution that sends it |
| MultisigReference.InstantiationResult | contracts/tgrade-dispute-multisig/src/contract.rs:30-76 | which lists and thresholds are accepted, and the poll that comes about, with the time at which voting ends and the last weight given for each address |
| MultisigReference.DistinctVotersMakeTotal | contracts/tgrade-dispute-multisig/src/contract.rs:39-73 | with no address named twice the stored weights add up to the total |
| MultisigReference.HandleConforms | contracts/tgrade-dispute-multisig/src/contract.rs:79-202 | a vote, an execution or a closing is accepted and leaves a storage if and only if the independent description of the poll has it so, option by option of the tally |
| MultisigReference.NewPollTakesVotes | contracts/tgrade-dispute-multisig/src/contract.rs:94-138 | a poll made at a time takes the votes of those named, with weight, exactly before that time plus its period, to the nanosecond |
| MultisigReference.PageIs | contracts/tgrade-dispute-multisig/src/contract.rs:282-302 | a page holds the first voters after its start, with their weights, ten unless asked otherwise and at most thirty |
| Multisig.DisputeMultisig.constructor | contracts/tgrade-dispute-multisig/src/contract.rs:30-76 | the stored config and voters are those of the specification, with the loop over the list of voters |
| Multisig.DisputeMultisig.Create | contracts/tgrade-dispute-multisig/src/contract.rs:36-41 | instantiation refuses an empty list and an invalid threshold, and otherwise gives a contract in the specified state |
| Multisig.DisputeMultisig.UpdateStatus | contracts/tgrade-dispute-multisig/src/state.rs:56-58 | the stored status becomes the current one |
| Multisig.DisputeMultisig.ExecuteVote | contracts/tgrade-dispute-multisig/src/contract.rs:94-138 | the new storage and the error of one vote |
| Multisig.DisputeMultisig.ExecuteExecute | contracts/tgrade-dispute-multisig/src/contract.rs:147-160 | the new storage and the error of an execution |
| Multisig.DisputeMultisig.ExecuteClose | contracts/tgrade-dispute-multisig/src/contract.rs:186-200 | the new storage and the error of closing |
| Multisig.DisputeMultisig.Transact | contracts/tgrade-dispute-multisig/src/contract.rs:79-91 | one transaction does the specified step, and undoes a failing message |
| Distribution.RewardDistribution.Distribute | contracts/tgrade-trusted-circle/src/distribution.rs:67-107 | the new config and amount of a distribution in fixed-width arithmetic |
| Distribution.RewardDistribution.Withdraw | contracts/tgrade-trusted-circle/src/distribution.rs:110-138 | the new config, adjustment and amount of a withdrawal |
| Distribution.RewardDistribution.CorrectPoints | contracts/tgrade-trusted-circle/src/distribution.rs:188-212 | the corrections of the whole list, in order |
| EagerLedger.RunConserves | contracts/tgrade-trusted-circle/src/distribution.rs:67-138 | the eager ledger, which credits every holder at once, loses and makes no tokens in any run |
| EagerLedger.SolventUpToDust | contracts/tgrade-trusted-circle/src/distribution.rs:91-104 | all debts together are within the pool, and the rest is below one token per account plus the leftover |
| EagerLedger.LeftoverBelowLastTotal | contracts/tgrade-trusted-circle/src/distribution.rs:91-93 | after any run the leftover is zero or below the total among which the last distribution divided |
| EagerLedger.LastTotalBound | contracts/tgrade-trusted-circle/src/distribution.rs:91-93 | that total is at most what the accounts there ever were can hold |
| EagerLedger.WithdrawalsDoNotMatter | contracts/tgrade-trusted-circle/src/distribution.rs:110-138 | leaving all withdrawals out of a run changes nothing but what was paid |
| DistributionProofs.WithdrawableExact | contracts/tgrade-trusted-circle/src/distribution.rs:216-230 | within the bounds both casts and the shift are exact, and the subtraction does not underflow |
| DistributionProofs.DistributeRefines | contracts/tgrade-trusted-circle/src/distribution.rs:71-104 | a distribution is the eager one, and fails only if there are no points |
| DistributionProofs.WithdrawRefines | contracts/tgrade-trusted-circle/src/distribution.rs:116-135 | a withdrawal never fails and pays what the eager ledger owes |
| DistributionProofs.SetPointsRefines | contracts/tgrade-trusted-circle/src/distribution.rs:193-210 | a change of points with its one correction keeps what every account has accrued |
| DistributionProofs.RunRefines | contracts/tgrade-trusted-circle/src/distribution.rs:67-230 | every bounded run of the fixed-width scheme is, step by step, the run of the eager ledger |
| DistributionProofs.BoundAtTheEnd | contracts/tgrade-trusted-circle/src/distribution.rs:13-21 | the bound need hold only for the total distributed in the end |
| DistributionProofs.ReachableSolvent | contracts/tgrade-trusted-circle/src/distribution.rs:95-104 | after every bounded run: exact conservation, everybody payable at once, the leftover below the last total, and the rest nobody can draw bounded by the accounts alone, with points of 0 and 1 by one token each, however many rounds there were |
| DistributionProofs.EntitlementIgnoresWithdrawals | contracts/tgrade-trusted-circle/src/distribution.rs:216-230 | what an account drew and may draw is independent of when and how often anybody withdrew |
| DistributionProofs.CorrectionsCompose | contracts/tgrade-trusted-circle/src/distribution.rs:195-210 | one list of corrections is the same as one call per entry |
| DoubleCorrection.CorrectTwiceIff | contracts/tgrade-trusted-circle/src/contract.rs:215-221 | correcting one change of points twice succeeds and keeps what the account has accrued exactly if the price of a point is still zero |
| DoubleCorrection.PromotedTwiceWithdrawsIff | contracts/tgrade-trusted-circle/src/contract.rs:298-323 | after any bounded run a member promoted with two corrections can draw exactly if what he truly accrued and has not drawn is worth the price at his promotion; else his withdrawal fails |
| DoubleCorrection.NewVoterWithdrawsIff | contracts/tgrade-trusted-circle/src/contract.rs:263-291 | a new voter so promoted can draw exactly once the price has doubled, and the promotion itself fails exactly above a price of 2^126 units |
| DoubleCorrection.FreshVoterCannotWithdraw | contracts/tgrade-trusted-circle/src/contract.rs:273-281 | a run in which the withdrawal of a freshly promoted voter fails |
| DistributionLimits.OverflowFreeIff | contracts/tgrade-trusted-circle/src/distribution.rs:16-21 | for every number of tokens: no run that distributes at most so many, with points of at most `most`, meets an overflow, if and only if the tokens, scaled and held `most` times, fit a positive signed 128-bit number |
| DistributionLimits.BoundIsTight | contracts/tgrade-trusted-circle/src/distribution.rs:16-21 | with points of 0 and 1 that is, if and only if they are fewer than 2^95 |
| CircleInvariant.CreateBatchKeeps | contracts/tgrade-trusted-circle/src/state.rs:419-439 | storing a batch gives a counter that covers everybody waiting for it |
| CirclePromotion.ConvertEachResult | contracts/tgrade-trusted-circle/src/contract.rs:273-279 | promotion makes exactly the paid members of the list voters, whatever its order |
| CirclePromotion.ConvertAllPaidKeeps | contracts/tgrade-trusted-circle/src/contract.rs:263-293 | promoting a batch whose counter is zero or whose time is over keeps points, total and counters in agreement |
| CirclePromotion.UpdateBatchKeeps | contracts/tgrade-trusted-circle/src/contract.rs:200-243 | the counter never underflows and the batch is always found when a member has paid |
| CirclePromotion.DepositKeeps | contracts/tgrade-trusted-circle/src/contract.rs:147-193 | a deposit keeps the invariant and conserves tokens |
| CirclePromotion.VoterKeepsStake | contracts/tgrade-trusted-circle/src/contract.rs:325-385 | a voter is refunded exactly if he has both the escrow in force and the pending one, down to the larger of the two amounts, at least one token, so never removed |
| CirclePromotion.ReturnKeeps | contracts/tgrade-trusted-circle/src/contract.rs:325-385 | a refund keeps the invariant and conserves tokens |
| CirclePromotion.LongLeaveKeeps | contracts/tgrade-trusted-circle/src/contract.rs:699-730 | the leaver's points and the total go down together, and the total never underflows |
| CirclePromotion.LeaveKeeps | contracts/tgrade-trusted-circle/src/contract.rs:662-680 | leaving keeps the invariant, and who leaves at once has no escrow to lose |
| CircleGovernance.DemotePromoteKeeps | contracts/tgrade-trusted-circle/src/contract.rs:823-891 | mass demotion and promotion succeed, move no tokens, and keep points, total and batches in agreement |
| CircleGovernance.CheckPendingEscrowKeeps | contracts/tgrade-trusted-circle/src/contract.rs:788-817 | a due change of escrow always succeeds and leaves valid settings |
| CircleGovernance.CheckAllPendingKeeps | contracts/tgrade-trusted-circle/src/contract.rs:777-786 | checking pending changes keeps the invariant |
| CircleGovernance.ValidatedEditIsChecked | contracts/tgrade-trusted-circle/src/contract.rs:465-478 | an edit that was validated when proposed installs only settings valid by themselves |
| CircleGovernance.CheckedEditKeepsValid | contracts/tgrade-trusted-circle/src/contract.rs:965-981 | such an edit keeps any valid circle valid when it is executed, though it is not validated again |
| CircleGovernance.ProposalTally | contracts/tgrade-trusted-circle/src/state.rs:567-591 | the circle's tally predicate is the quorum threshold's, early only if the rules allow it |
| CircleGovernance.ProposalPassesEarlyIff | contracts/tgrade-trusted-circle/src/state.rs:565-591 | before it expires a proposal passes exactly if it may end early and every completion of the tally passes |
| CircleGovernance.ProposeKeeps | contracts/tgrade-trusted-circle/src/contract.rs:387-457 | proposing keeps the invariant |
| CircleGovernance.VoteKeeps | contracts/tgrade-trusted-circle/src/contract.rs:541-591 | voting keeps the invariant |
| CircleGovernance.CloseKeeps | contracts/tgrade-trusted-circle/src/contract.rs:630-660 | closing keeps the invariant |
| CircleRuns.AddRemoveKeeps | contracts/tgrade-trusted-circle/src/contract.rs:1079-1132 | adding and removing non-voting members loses no escrow and keeps the invariant |
| CircleRuns.AddVotingKeeps | contracts/tgrade-trusted-circle/src/contract.rs:983-1032 | adding voting members succeeds exactly if nobody named is denied, its batch is new, and replacing non-voting entries loses nothing |
| CircleInvariant.SlashSplits | contracts/tgrade-trusted-circle/src/contract.rs:1172-1205 | what is sent, burned and kept is exactly the escrow, and dividing keeps back less than one unit per recipient |
| CircleRuns.PunishAllKeeps | contracts/tgrade-trusted-circle/src/contract.rs:1134-1248 | punishments keep the invariant and conserve tokens, for any list, with members repeated or not |
| CircleRuns.MarkExecuted | contracts/tgrade-trusted-circle/src/contract.rs:612-619 | the id of an executing proposal belongs to no batch and no pending escrow yet |
| CircleRuns.ExecuteKeeps | contracts/tgrade-trusted-circle/src/contract.rs:593-628 | executing any proposal keeps the invariant |
| CircleRuns.HandleKeeps | contracts/tgrade-trusted-circle/src/contract.rs:120-145 | every message keeps the invariant and meets no error that the code only guards against |
| CircleRuns.RunKeeps | contracts/tgrade-trusted-circle/src/contract.rs:120-144 | every run over blocks that do not go backwards keeps the invariant |
| CircleRuns.InstantiateEstablishes | contracts/tgrade-trusted-circle/src/contract.rs:45-116 | instantiation establishes the invariant |
| CircleExecution.InstantiateConforms | contracts/tgrade-trusted-circle/src/contract.rs:45-116 | instantiation gives a state if and only if the settings are valid, the escrow is paid and nobody is denied, and the state is the one described |
| CircleExecution.HandleConforms | contracts/tgrade-trusted-circle/src/contract.rs:120-144 | in every state of the invariant a message is accepted and leaves a state if and only if the independent description of the circle, without loops, has it so: for all eight messages |
| CircleExecution.ReachableConforms | contracts/tgrade-trusted-circle/src/contract.rs:120-1248 | the same of the next message after every run |
| CircleExecution.DepositIff | contracts/tgrade-trusted-circle/src/contract.rs:147-242 | which deposits are accepted, with both escrow amounts written out, and what they leave of every member and batch |
| CircleExecution.ReturnIff | contracts/tgrade-trusted-circle/src/contract.rs:325-385 | a voter above both escrow amounts gets back what exceeds the larger, a leaver whose time has come gets all and is gone, and nobody else gets anything |
| CircleExecution.CheckIff | contracts/tgrade-trusted-circle/src/contract.rs:777-920 | when the pending changes can be checked, and what becomes of every member, batch and setting |
| CircleExecution.ProposeConforms | contracts/tgrade-trusted-circle/src/contract.rs:387-457 | who may propose what, and the proposal that is stored, with its expiry and first vote |
| CircleExecution.VoteConforms | contracts/tgrade-trusted-circle/src/contract.rs:541-591 | which votes are accepted; the power is added to the option voted for, and to no other |
| CircleExecution.ExecuteConforms | contracts/tgrade-trusted-circle/src/contract.rs:593-628 | what executing a passed proposal does for each content: which of the two lists is added and which removed, which settings change, and who becomes pending |
| CircleExecution.EditConforms | contracts/tgrade-trusted-circle/src/state.rs:120-160 | an edit leaves each setting at the given value or as it was, and a changed escrow pending for one new voting period |
| CircleExecution.PunishEachConforms | contracts/tgrade-trusted-circle/src/contract.rs:1134-1232 | a list of punishments does one after the other what the description of one says, and demotes exactly those left below an escrow amount |
| CircleConformance.LeaveConforms | contracts/tgrade-trusted-circle/src/contract.rs:662-759 | leaving at once or for two voting periods, and whose points are taken from which proposals |
| CircleLaws.ReachableTalliesCount | contracts/tgrade-trusted-circle/src/state.rs:525-545 | after every run each option of each proposal's tally is the sum of the points of the ballots cast for it |
| CircleLaws.VoteResult | contracts/tgrade-trusted-circle/src/contract.rs:578-583 | a vote stores exactly the ballot of the voter with his option and power, raises that option alone, and changes nothing else |
| CircleLaws.MetStaysMet | contracts/tgrade-trusted-circle/src/contract.rs:832-855 | in every run in which a change of escrow is pending and falls due, who has met both amounts is not demoted, unless punished or leaving |
| CircleLaws.CompletedEscrowSuffices | contracts/tgrade-trusted-circle/src/contract.rs:163-171 | whoever completes his escrow or is refunded while a change is pending is not demoted when it falls due |
| CircleLaws.RunKeepsWaiting | contracts/tgrade-trusted-circle/src/contract.rs:344-374 | in every run nothing but a punishment touches the escrow of a leaver before his time has come |
| CircleLaws.LeaverRefundedIff | contracts/tgrade-trusted-circle/src/contract.rs:344-374 | who leaves and is not punished can take his escrow back exactly from two voting periods later on, all of it, and is gone then |
| CircleExamples.LeaverRefundedAtOnceInARun | contracts/tgrade-trusted-circle/src/contract.rs:1207-1226 | a run from instantiation in which a leaver is punished without a kick-out, pays, votes and is refunded, all in the block in which he left |
| CircleExamples.EmptyLeaverStaysInARun | contracts/tgrade-trusted-circle/src/contract.rs:359-371 | a leaver of whom everything was slashed keeps his entry in every run in which he is not punished again, though he may claim |
| CircleRuns.ReachableConsistent | contracts/tgrade-trusted-circle/src/contract.rs:120-1228 | after every run: members and escrows agree, the total counts the voters, every voter has a token at stake, settings are valid, and the escrows hold what came in less what went out |
| CircleRuns.ReachableBatches | contracts/tgrade-trusted-circle/src/contract.rs:206-241 | after every run a batch's counter covers its pending members, and a batch promoted before its grace period ended has none |
| CircleRuns.ConvertBatchesSucceedsIff | contracts/tgrade-trusted-circle/src/contract.rs:893-920 | promoting a list of batches succeeds exactly if all their members still have an entry |
| CircleRuns.CheckPendingSucceedsIff | contracts/tgrade-trusted-circle/src/contract.rs:298-304 | checking pending changes succeeds exactly if nobody named in a ready batch has left |
| CircleRuns.LeaverBlocksCheck | contracts/tgrade-trusted-circle/src/contract.rs:662-697 | one unpaid pending member who leaves makes the check fail once the batch's grace period is over |
| CircleEffects.EscrowChangeResult | contracts/tgrade-trusted-circle/src/contract.rs:832-887 | a raised escrow demotes exactly the voters below it, a lowered one lets exactly the pending members who reach it count as paid, in their own batch |
| CircleEffects.AddRemoveResult | contracts/tgrade-trusted-circle/src/contract.rs:1099-1127 | who is a member after both lists, nobody else is touched, and it fails exactly if somebody to be added is denied or somebody to be removed is more than a non-voting member |
| CircleEffects.AddVotingResult | contracts/tgrade-trusted-circle/src/contract.rs:998-1022 | unless somebody named is denied, exactly the named addresses that are not more than non-voting members become pending, and the batch names the whole list |
| CircleEffects.DepositResult | contracts/tgrade-trusted-circle/src/contract.rs:153-241 | a deposit adds to the sender's escrow alone, completes it exactly if both escrow amounts are met, and makes exactly the paid members voters whose turn it is |
| CircleIndex.HandleKeepsIndex | contracts/tgrade-trusted-circle/src/state.rs:611-621 | every message keeps the index of proposals by expiry, and a proposal is missing only if the sender named one that was never made |
| CircleIndex.ReachableIndexed | contracts/tgrade-trusted-circle/src/state.rs:605-621 | the index is sound in every reachable state |
| CircleIndex.ListedIff | contracts/tgrade-trusted-circle/src/contract.rs:736-743 | a proposal is listed as open exactly if its second lies ahead and no later one expires in the same second |
| CircleIndex.SecondHidesFirst | contracts/tgrade-trusted-circle/src/state.rs:611-621 | the second of two proposals made in one block hides the first for good |
| CircleExamples.HiddenInARun | contracts/tgrade-trusted-circle/src/state.rs:611-621 | a run from instantiation that makes two proposals in one block; who then leaves loses his point on the second alone |
| CircleIndex.LeaveAdjustsExactly | contracts/tgrade-trusted-circle/src/contract.rs:732-759 | a leaving voter's point is taken from exactly the open listed proposals he has not voted on |
| CircleIndex.LeaveSucceedsIff | contracts/tgrade-trusted-circle/src/contract.rs:662-730 | leaving works exactly for a member not leaving yet, unless he votes and a proposal his point is to be taken from has none left |
| CircleExamples.LeaverFailsInARun | contracts/tgrade-trusted-circle/src/contract.rs:752-755 | a run from instantiation after which a voter cannot leave, because an open proposal has no points left; its one vote is then more than its points |
| CircleApproval.ExecutedAfterExpiryIff | contracts/tgrade-trusted-circle/src/contract.rs:611-628 | for all rules: an expired proposal is executed in some run if and only if it was executed before, or its approval was stored before and its content goes through at some point of a run |
| CircleApproval.NeverApprovedAfterExpiry | contracts/tgrade-trusted-circle/src/contract.rs:541-591 | expired without a stored approval, a proposal is approved in no run, whoever votes, leaves or is punished |
| CircleApproval.ApprovedAdmissionExecutes | contracts/tgrade-trusted-circle/src/contract.rs:983-1032 | once approved, the admission of voting members can be executed at any time |
| CircleApproval.ApprovalAtExpiryIsLost | contracts/tgrade-trusted-circle/src/contract.rs:630-660 | a proposal that passes only at expiry is executed in no run, and anybody can have it stored as rejected |
| CircleExamples.ApprovalLostInARun | contracts/tgrade-trusted-circle/src/contract.rs:611-660 | a run from instantiation that reaches such a proposal, one that may end early |
| CircleApproval.NeverExecutedWithoutEarlyEnd | contracts/tgrade-trusted-circle/src/state.rs:565-591 | in particular no proposal whose rules forbid an early end is ever executed, in any run |
| CircleApproval.LeaveDriftsIff | contracts/tgrade-trusted-circle/src/contract.rs:732-759 | after a voter leaves, an open proposal passes by recomputation though stored as open exactly if its tally passes among one point fewer, where his point is taken, or did so before |
| CircleApproval.RunNoDrift | contracts/tgrade-trusted-circle/src/state.rs:545-563 | in runs in which nobody leaves and nothing is executed, stored and recomputed status do not come apart so |
| CircleExamples.DriftInARun | contracts/tgrade-trusted-circle/src/contract.rs:752-755 | a run from instantiation after which a proposal passes by recomputation, though stored as open |
| CircleWaiting.CheckAllPendingResult | contracts/tgrade-trusted-circle/src/contract.rs:777-920 | what checking the pending changes does to every member: the due escrow first, then the paid members named in ready batches |
| CircleWaiting.RunInVain | contracts/tgrade-trusted-circle/src/contract.rs:870-878 | a paid member named by no batch that can still be promoted becomes a voter in no run without an executed proposal |
| CircleWaiting.PaidMemberVotesIff | contracts/tgrade-trusted-circle/src/contract.rs:893-920 | a paid member can still become a voter without another executed proposal exactly if a batch not promoted yet names him, nobody it names is gone, and either somebody has yet to pay in it or, when its time is over, nobody named in any ready batch is gone |
| CircleWaiting.LoweredEscrowStrands | contracts/tgrade-trusted-circle/src/contract.rs:857-886 | a lowered escrow lets a member of an already promoted batch count as paid, but he is not promoted, though the comment says so |
| CircleExamples.StrandedInARun | contracts/tgrade-trusted-circle/src/contract.rs:857-886 | a run from instantiation that strands a member so |
| CircleScenario.StandstillLasts | contracts/tgrade-trusted-circle/src/contract.rs:298-304 | once somebody named in a ready batch is gone and no proposal is open or passed, nobody can make a proposal in any run that follows |
| CircleScenario.LeaverStopsTheCircle | contracts/tgrade-trusted-circle/src/contract.rs:400-412 | a run from instantiation that ends so |
| CircleEffects.PunishResult | contracts/tgrade-trusted-circle/src/contract.rs:1156-1232 | a punishment touches its member's escrow alone; what is paid to each recipient, burned and kept, and the new status: leaving, or to pay again if below either escrow amount |
| CircleContract.TrustedCircleContract.Create | contracts/tgrade-trusted-circle/src/contract.rs:45-118 | instantiation gives the specified storage or error |
| CircleContract.TrustedCircleContract.ConvertAllPaidMembersToVoters | contracts/tgrade-trusted-circle/src/contract.rs:263-291 | the loop over the batch, with the total written once, does what the specification does |
| CircleContract.TrustedCircleContract.UpdateBatch | contracts/tgrade-trusted-circle/src/contract.rs:200-242 | the three cases of a paid escrow |
| CircleContract.TrustedCircleContract.ExecuteDepositEscrow | contracts/tgrade-trusted-circle/src/contract.rs:147-192 | new storage or error of a deposit; DepositIff says which |
| CircleContract.TrustedCircleContract.ExecuteReturnEscrow | contracts/tgrade-trusted-circle/src/contract.rs:325-385 | new storage or error of a refund; ReturnIff says which |
| CircleContract.TrustedCircleContract.AdjustOpenProposalsForLeaver | contracts/tgrade-trusted-circle/src/contract.rs:732-760 | the loop over open proposals lowers the points of those the leaver has not voted on |
| CircleContract.TrustedCircleContract.LongLeave | contracts/tgrade-trusted-circle/src/contract.rs:699-730 | new storage or error of leaving with escrow |
| CircleContract.TrustedCircleContract.ExecuteLeaveTrustedCircle | contracts/tgrade-trusted-circle/src/contract.rs:662-697 | new storage or error of leaving |
| CircleContract.TrustedCircleContract.DemotePromoteMembers | contracts/tgrade-trusted-circle/src/contract.rs:823-890 | the loops over demoted and promoted members |
| CircleContract.TrustedCircleContract.ApplyPendingEscrow | contracts/tgrade-trusted-circle/src/contract.rs:788-816 | new storage or error when a pending escrow is due |
| CircleContract.TrustedCircleContract.CheckPendingBatches | contracts/tgrade-trusted-circle/src/contract.rs:893-920 | the loop over ready batches |
| CircleContract.TrustedCircleContract.ExecutePropose | contracts/tgrade-trusted-circle/src/contract.rs:387-457 | new storage or error of a new proposal |
| CircleContract.TrustedCircleContract.ValidateProposal | contracts/tgrade-trusted-circle/src/contract.rs:459-501 | which content is accepted, and the first error otherwise |
| CircleContract.TrustedCircleContract.ExecuteVote | contracts/tgrade-trusted-circle/src/contract.rs:541-591 | new storage or error of a vote; VoteConforms says which |
| CircleContract.TrustedCircleContract.ExecuteClose | contracts/tgrade-trusted-circle/src/contract.rs:630-660 | new storage or error of closing |
| CircleContract.TrustedCircleContract.AddRemoveNonVotingMembers | contracts/tgrade-trusted-circle/src/contract.rs:1079-1130 | the two loops: additions first, then removals |
| CircleContract.TrustedCircleContract.AddVotingMembers | contracts/tgrade-trusted-circle/src/contract.rs:983-1032 | the batch, and the loop over the new members |
| CircleContract.TrustedCircleContract.Slash | contracts/tgrade-trusted-circle/src/contract.rs:1172-1205 | what one punishment takes, with one payment to each recipient in order |
| CircleContract.TrustedCircleContract.PunishMember | contracts/tgrade-trusted-circle/src/contract.rs:1156-1232 | new storage or error of one punishment, and whether the member was demoted |
| CircleContract.TrustedCircleContract.PunishMembers | contracts/tgrade-trusted-circle/src/contract.rs:1134-1248 | the loop over punishments and the batch of the demoted |
| CircleContract.TrustedCircleContract.ExecuteExecute | contracts/tgrade-trusted-circle/src/contract.rs:593-628 | new storage or error of executing a proposal; ExecuteConforms says which |
| CircleContract.TrustedCircleContract.Transact | contracts/tgrade-trusted-circle/src/contract.rs:120-144 | one transaction does the specified step, and undoes a failing message |
| Complaints.QueryMultisigVoters | contracts/tgrade-ap-voting/src/contract.rs:117-140 | the pagination loop ends and returns every voter exactly once, in key order |
| Complaints.NextPage | contracts/tgrade-dispute-multisig/src/contract.rs:282-302 | the page after a prefix of the voters continues it, and is empty only at the end |
| Complaints.ArbiterPool.SendPayments | contracts/tgrade-ap-voting/src/contract.rs:175-189 | bank messages are paid one by one, or none is if the balance falls short |
| Complaints.ArbiterPool.ExecuteRegisterComplaint | contracts/tgrade-ap-voting/src/contract.rs:268-311 | new state or error of a new complaint |
| Complaints.ArbiterPool.ExecuteAcceptComplaint | contracts/tgrade-ap-voting/src/contract.rs:313-357 | new state or error of accepting |
| Complaints.ArbiterPool.ExecuteWithdrawComplaint | contracts/tgrade-ap-voting/src/contract.rs:359-420 | new state, refunds or error of withdrawing; WithdrawConforms says which |
| Complaints.ArbiterPool.ExecuteProposeArbiters | contracts/tgrade-ap-voting/src/contract.rs:220-266 | new state or error of handing a complaint to a new multisig |
| Complaints.ArbiterPool.MultisigInstantiateReply | contracts/tgrade-ap-voting/src/contract.rs:562-590 | the awaiting complaint becomes processed by the new contract |
| Complaints.ArbiterPool.ExecuteRenderDecision | contracts/tgrade-ap-voting/src/contract.rs:142-192 | new state, fees or error of a decision, with the loop over the members |
| Complaints.ArbiterPool.Transact | contracts/tgrade-ap-voting/src/contract.rs:65-114 | one transaction does the specified step, and undoes a failing message |
| ComplaintProofs.FeeSplit | contracts/tgrade-ap-voting/src/contract.rs:175-176 | the fees add up to at most two dispute costs, and fall short by less than one unit per voter |
| ComplaintProofs.NewMultisigIff | contracts/tgrade-ap-voting/src/contract.rs:231-249 | a multisig comes about exactly for a non-empty list of arbiters, with one entry per distinct arbiter |
| ComplaintProofs.ExecutionDelivers | contracts/tgrade-dispute-multisig/src/contract.rs:160-195 | when a multisig executes, the pool accepts its decision: the callback cannot fail, and closes and pays the complaint |
| ComplaintProofs.OnlyItsMultisigRenders | contracts/tgrade-ap-voting/src/contract.rs:150-172 | a decision is rendered exactly by the multisig the complaint is in the hands of, and by nobody else |
| ComplaintProofs.HandleKeeps | contracts/tgrade-ap-voting/src/contract.rs:65-115 | every message keeps the invariant of books, polls and complaints |
| ComplaintProofs.RunKeeps | contracts/tgrade-ap-voting/src/contract.rs:65-420 | every run keeps it |
| ComplaintReference.HandleConforms | contracts/tgrade-ap-voting/src/contract.rs:65-420 | in every state of the invariant a message is accepted and leaves a state if and only if the independent description of the pool has it so |
| ComplaintReference.ReachableConforms | contracts/tgrade-ap-voting/src/contract.rs:142-420 | the same of the next message after every run |
| ComplaintReference.WithdrawConforms | contracts/tgrade-ap-voting/src/contract.rs:359-420 | the plaintiff gets 80% back if the complaint is initiated, he and the defendant that each if it is waiting, and he all if it lapsed; nothing else changes |
| ComplaintReference.AssignConforms | contracts/tgrade-ap-voting/src/contract.rs:220-266 | arbiters are assigned to a complaint accepted for good, with a fresh poll of one vote each, more than half needed, for one waiting period |
| ComplaintReference.ExecuteConforms | contracts/tgrade-ap-voting/src/contract.rs:150-192 | an execution closes the complaint and pays every voter the same fee, in the order of addresses |
| ComplaintLifecycle.Solvent | contracts/tgrade-ap-voting/src/contract.rs:359-420 | whatever the clock says, the balance covers one dispute cost for each initiated or aborted complaint and two for each waiting, accepted or processed one |
| ComplaintLifecycle.ReachableSolvent | contracts/tgrade-ap-voting/src/contract.rs:142-420 | the same after every run from instantiation |
| ComplaintLifecycle.PaymentsNeverFail | contracts/tgrade-ap-voting/src/contract.rs:374-404 | no payment fails for lack of funds, and the division by the number of members is never by zero |
| ComplaintLifecycle.WithdrawalSucceedsIff | contracts/tgrade-ap-voting/src/contract.rs:366-415 | a withdrawal succeeds exactly for the plaintiff of an initiated, waiting or aborted complaint |
| ComplaintLifecycle.AssignmentSucceedsIff | contracts/tgrade-ap-voting/src/contract.rs:226-229 | arbiters are assigned exactly to a complaint accepted for good, from a non-empty list |
| ComplaintLifecycle.DecisionSucceedsIff | contracts/tgrade-ap-voting/src/contract.rs:151-172 | a decision goes through exactly while the complaint is in the multisig's hands and its ballots pass |
| ComplaintLifecycle.RunFollows | contracts/tgrade-ap-voting/src/state.rs:56-71 | over every run a complaint moves only forward in its lifecycle, and a finished one and its account never change |
| ComplaintLifecycle.PaysAtMostOnce | contracts/tgrade-ap-voting/src/contract.rs:374-412 | each complaint pays in at most one transaction and only when finished, never more than it brought in; Aborted and Accepted are never stored |
| ComplaintLifecycle.DecisionPaysEachVoterOnce | contracts/tgrade-ap-voting/src/contract.rs:173-189 | a decision pays every voter exactly once, all the same, and nobody else |
| ComplaintLifecycle.LazyUpdateAgrees | contracts/tgrade-ap-voting/src/state.rs:68-71 | updating a complaint early does not change what it becomes later |
| ComplaintLifecycle.ClosableIffDecidable | contracts/tgrade-ap-voting/src/contract.rs:231-253 | a complaint handed to a fresh multisig can be closed by some run exactly if the poll is decidable |
| ComplaintLifecycle.NewPollDecidableIff | contracts/tgrade-ap-voting/src/contract.rs:231-246 | a new multisig can decide exactly if the waiting period is not zero and the distinct arbiters are more than half the entries |
| ComplaintLifecycle.AssignedClosableIff | contracts/tgrade-ap-voting/src/contract.rs:194-218 | after arbiters are assigned, some run closes the complaint exactly under that condition |
| ComplaintLifecycle.RegistrationResult | contracts/tgrade-ap-voting/src/contract.rs:268-311 | a complaint is registered exactly for the dispute cost, if that is not zero, under a new id, and its state at every later time |
| ComplaintLifecycle.AcceptanceResult | contracts/tgrade-ap-voting/src/contract.rs:313-357 | it is accepted exactly by its defendant, for the same price, while it is initiated, and its state at every later time |
| ComplaintLifecycle.NewComplaintCanBeClosed | contracts/tgrade-ap-voting/src/contract.rs:220-357 | between any two parties a complaint can be made, accepted, handed to any list of arbiters more than half distinct, and closed, in one run |
| ComplaintLifecycle.NewComplaintClosableIff | contracts/tgrade-ap-voting/src/contract.rs:268-357 | at any point of any run some new complaint can still be brought to a decision if and only if dispute cost and waiting period are not zero |
| ComplaintLifecycle.SameArbiterTwiceNeverDecides | contracts/tgrade-ap-voting/src/state.rs:117-134 | naming one arbiter twice leaves the complaint in processing in every run |
| ComplaintLifecycle.LostPollLocksComplaint | contracts/tgrade-dispute-multisig/src/contract.rs:180-209 | once its poll is lost a complaint stays in processing in every run |
| TcPayments.ComplementaryRatios | contracts/tgrade-tc-payments/src/contract.rs:243-262 | the two rounded ratios add up to one, or to one less the last decimal place |
| TcPayments.SharesCovered | contracts/tgrade-tc-payments/src/contract.rs:240-275 | both shares are within the funds, and the residue of the double rounding is below two units and one part in 10^18 of the funds |
| TcPayments.ShareIsFair | contracts/tgrade-tc-payments/src/contract.rs:240-244 | no group gets more than its exact proportion, nor less by one unit and one part in 10^18 of the funds |
| TcPayments.NeverShort | contracts/tgrade-tc-payments/src/contract.rs:139-147 | no message fails for lack of funds or for a payment already recorded |
| TcPayments.ReachableConserves | contracts/tgrade-tc-payments/src/contract.rs:103-275 | in every run, tokens received are those forwarded, paid to either group, or held |
| TcPayments.KeepsWhatIsNeeded | contracts/tgrade-tc-payments/src/contract.rs:128-138 | all received funds go on exactly if what is left pays every member; otherwise the configured part, rounded up, stays |
| TcPayments.DuePayment | contracts/tgrade-tc-payments/src/contract.rs:229-275 | a due payment is fair to each group, leaves at most the residue and records nothing; only an empty payment is recorded |
| TcPayments.RepeatHeldBackIffEmpty | contracts/tgrade-tc-payments/src/contract.rs:211-222 | a second payment within the period is held back exactly if the first one was empty |
| TcPayments.PaidTwice | contracts/tgrade-tc-payments/src/contract.rs:211-243 | a run of two blocks in one hour that both pay |
| TcPayments.LastPaymentIsLatest | contracts/tgrade-tc-payments/src/payment.rs:86-96 | the last payment is the latest recorded, if there is one |
| PaymentsReference.HandleConforms | contracts/tgrade-tc-payments/src/contract.rs:103-275 | in every state a message is accepted and leaves a state if and only if the independent description of the contract has it so |
| PaymentsReference.DueIff | contracts/tgrade-tc-payments/src/contract.rs:199-222 | a payment is due exactly in the first hour after midnight, on the first day of its period, and if no recorded one is less than the period, short of an hour, ago |
| PaymentsReference.EndBlockConforms | contracts/tgrade-tc-payments/src/contract.rs:199-286 | what the end of a block pays to each group, with both roundings, or records |
| PaymentsReference.ForwardConforms | contracts/tgrade-tc-payments/src/contract.rs:103-158 | what of the received funds goes on, and what stays |
| PaymentsReference.MidnightPays | contracts/tgrade-tc-payments/src/contract.rs:201-204 | in the first hour after midnight of a first day, with no payment recorded, what is held is paid out up to the residue |
| TcPayments.PaymentsContract.ExecuteDistributeRewards | contracts/tgrade-tc-payments/src/contract.rs:103-158 | new storage or error of incoming rewards |
| TcPayments.PaymentsContract.ExecuteUpdateConfig | contracts/tgrade-tc-payments/src/contract.rs:160-179 | only the admin changes the payment amount |
| TcPayments.PaymentsContract.EndOfBlock | contracts/tgrade-tc-payments/src/contract.rs:199-286 | new storage or error at the end of a block, given whether its day starts a period |
| TcPayments.PaymentsContract.Transact | contracts/tgrade-tc-payments/src/contract.rs:71-90 | one transaction does the specified step, and undoes a failing message |

## Left out

- JSON, events, attributes, schemas, migrations, privileges, admin queries and all queries other than the pagination of voters.
- Address syntax: it only adds refusals before the modelled code.
- Coins of other denominations and payments sent along with messages that accept none: refused before the modelled code. The reward denomination is taken to differ from the escrow denomination.
- Bank rules: zero-amount coins, blocked accounts, and payments to a contract's own address. A payment leaves the sender's balance.
- Integer widths other than in `Distribution.dfy`: sums of weights, amounts and times are taken to fit their types.
- The voting on proposals inside the arbiter pool, and the oversight community's proposals: the voting library is not part of this model. `ProposeArbiters` is the execution of a passed proposal, with any list of arbiters.
- What a multisig created by the pool sends to the pool other than its decision: it sends nothing else.
- The chain's choice of an address for a new multisig is a parameter; an address in use is refused.
- Which of several errors a refused message gives: the methods agree with the functions on it, and the references only say when a message is refused.
- A failing engagement or group contract, which would undo a payment.
- The composition of distribution and membership: the circle corrects points twice when it promotes, so the client's duty that `DistributionProofs` states is not met. What follows for one promoted member is in `DoubleCorrection`; nothing is claimed about the circle's rewards as a whole.
- A bound of the circle's tallies by `total_points`: there is none, because it is lowered for leavers who were not entitled to vote (the run of `LeaverFailsInARun` ends with one vote and no points), so `ProposalPassesEarlyIff` is stated on the tally alone, where it is within the total.
- CircleRuns.ReachableConsistent: claims at least one token at stake for every voter, not the current escrow, because members who already paid are not checked again when the escrow rises.
- CircleGovernance.CheckAllPendingKeeps: says what holds after a successful check; when it succeeds is CheckPendingSucceedsIff.
- CircleContract.TrustedCircleContract.Create: does not set up the reward distribution, which is `Distribution.dfy` alone.
- CircleContract.TrustedCircleContract.ConvertAllPaidMembersToVoters: does not make the reward corrections of the promoted, which `DoubleCorrection` is about.
- CircleContract.TrustedCircleContract.UpdateBatch: does not make the reward correction of the late voter.
- CircleContract.TrustedCircleContract.LongLeave: does not make the reward correction of the leaver.
- CircleContract.TrustedCircleContract.DemotePromoteMembers: does not make the reward corrections of the demoted.
- CircleContract.TrustedCircleContract.PunishMember: does not make the reward correction of a demoted member.
- CircleContract.TrustedCircleContract.Transact: does not dispatch the two reward messages, which are `Distribution.dfy` alone.
- CircleContract.TrustedCircleContract.ValidateProposal: takes the deny list and the set of contracts from the call, as other contracts answer them, and does not model those queries failing.
- CircleContract.TrustedCircleContract.ExecuteVote: takes the voting power from the call, because the history of members that it is looked up in is not kept.
- CircleContract.TrustedCircleContract.CheckPendingBatches: visits ready batches in the order of their ids; the index orders them by the end of grace first. CheckAllPendingResult does not depend on the order.
- Complaints.ArbiterPool.Transact: does not dispatch the proposing, voting and closing of the pool's own proposals, which belong to the voting library.
- TcPayments.PaymentsContract.EndOfBlock: takes from the call whether the day is the first of the month or year, and the numbers of members; the hour of the day is computed.
