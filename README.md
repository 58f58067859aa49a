# MilestoneFund escrow, modelled in Dafny

MilestoneFund is a Soroban smart contract for milestone-gated crowdfunding.
Its storage holds one `Project` record. The record has a creator, a token, a
funding goal, the amount raised, a deadline given as a ledger sequence
number, a list of milestones and a map from each backer to the amount that
backer funded. Five entry points act on the record:

- `initialize` validates the configuration and stores the record, once.
- `fund` credits a fixed 100 units to the caller and latches `goal_met`.
- `vote` records one YES per backer per milestone.
- `release_funds` completes a milestone. The voters' current funding must be
  strictly more than half of everything raised.
- `claim_refund` only checks whether a refund would be allowed.

The model has four layers:

- `FundTypes` (types.dfy) holds the error codes and the `Milestone` and
  `Project` records. Addresses are a type parameter `A`.
- `Weights` (weights.dfy) holds the sums: one backer's amount (absent counts
  as 0), the combined amount of a set of voters, and the total over all
  backers.
- `Transitions` (transitions.dfy) gives each state-changing entry point as a
  pure function. It maps the stored record (`None` while uninitialized) to
  the record the call writes back, or to its error. Each function's
  contract lists the error cases in the order the code checks them and
  states the new record field by field.
- `MilestoneFundContract` (contract.dfy) is the contract itself. The class
  `MilestoneFund` has the field `project`, which stands for instance
  storage. Each method loads the record, checks its guards, updates a local
  copy and stores it back, as the Rust code does. The two accumulating loops
  are kept: the milestone-amount sum in `initialize` and the vote-weight sum
  in `release_funds`. Each method is proved to return what its transition
  function returns and to store what it stores. Each method also keeps the
  object invariant `Valid()`, which the constructor establishes.

`Invariants` (invariants.dfy) states what holds after any session of calls,
starting from the uninitialized contract. `raised` equals the sum of all
backers' amounts. `goal_met` holds exactly when `raised >= goal`. Every
recorded amount is positive. Voters are backers. Votes and completed
milestones exist only once the goal is met. The lemmas also say how records
evolve. The configuration is fixed. Amounts and votes only grow. Completion
and `goal_met` are never undone. Once the goal is met, `backers` and
`raised` are frozen. Vote weight is recomputed at release time from each
voter's current entry. A vote needs `goal_met`, and funding stops once
`goal_met` is set, so that weight always equals the voter's funding when
the vote was cast (Invariants.VoteWeightFixed).

The documented design of this contract differs from the code. It describes
a caller-chosen funding amount, vote weight fixed at cast time, a
per-backer refunded flag and refunds that zero the balance. This model
follows the code: a fixed amount of 100, weight recomputed at release time,
and a `claim_refund` that writes nothing.

## Model

| member | source | states |
|---|---|---|
| FundTypes.ErrorCode | contract/src/lib.rs:10-29 | each error code carries a number from 1 to 18 |
| Weights.Amount | contract/src/lib.rs:170 | a backer's recorded amount; an absent backer counts as 0 (`unwrap_or(0)`) |
| Weights.WeightRemove | contract/src/lib.rs:245-249 | the vote-weight sum does not depend on the order voters are visited: any voter can be split off as its amount plus the weight of the rest |
| Weights.WeightFrame | contract/src/lib.rs:245-249 | the vote weight of a set depends only on the recorded amounts of its own members |
| Weights.TotalAfterCredit | contract/src/lib.rs:169-173 | crediting an amount to one backer, creating the entry if absent, raises the sum over all backers by exactly that amount |
| Transitions.SumAppend | contract/src/lib.rs:101-105 | adding one more milestone amount to the running total adds exactly that amount |
| Transitions.NewMilestones | contract/src/lib.rs:104-112 | the stored milestones follow the input entries in order; each is open, unvoted and keeps its title and amount |
| Transitions.InitializeTransition | contract/src/lib.rs:85-129 | a stored record gives ProjectAlreadyInitialized; otherwise the errors come in this order: DeadlineMustBeInFuture if deadline <= sequence, GoalMustBePositive if goal is 0, MilestoneListEmpty if there are no entries, MilestoneAmountsMismatchGoal if the amounts do not sum to goal; success exactly when none applies; the new record has raised 0, goal_met false, no backers and the milestones in input order, open and unvoted |
| Transitions.FundTransition | contract/src/lib.rs:144-179 | ProjectNotInitialized without a record, GoalAlreadyMet once goal_met, DeadlinePassed when sequence > deadline; success exactly otherwise; on success raised and the caller's entry (absent as 0) each grow by exactly 100, other backers' entries are unchanged, goal_met becomes raised >= goal, and nothing else changes |
| Transitions.VoteTransition | contract/src/lib.rs:197-219 | errors in order: ProjectNotInitialized, GoalNotMet, NotABacker, MilestoneInvalidIndex, MilestoneAlreadyCompleted, AlreadyVoted; success exactly when none applies; on success only that milestone's voters change, gaining the caller |
| Transitions.ReleaseTransition | contract/src/lib.rs:228-258 | errors in order: ProjectNotInitialized, GoalNotMet, MilestoneInvalidIndex, MilestoneAlreadyCompleted, then MilestoneNotYetApproved when 2 x (current funding of the voters) <= raised, so exactly 50% fails; success exactly when goal_met, valid index, open milestone and 2 x weight > raised; on success only that milestone changes, becoming complete |
| Invariants.InitializeEstablishes | contract/src/lib.rs:119-129 | the record `initialize` stores satisfies the invariant |
| Invariants.FundPreserves | contract/src/lib.rs:168-179 | `fund` keeps the invariant, in particular raised == sum of all backers' amounts and goal_met <==> raised >= goal |
| Invariants.VotePreserves | contract/src/lib.rs:217-219 | `vote` keeps the invariant, including that every voter is a backer and votes exist only after the goal is met |
| Invariants.ReleasePreserves | contract/src/lib.rs:256-258 | `release_funds` keeps the invariant, including that completed milestones exist only after the goal is met |
| Invariants.StepPreserves | contract/src/lib.rs:77-304 | every entry point, on success or failure, keeps the invariant |
| Invariants.RunPreserves | contract/src/lib.rs:77-304 | every record reachable by any session of calls satisfies the invariant |
| Invariants.EvolvesTransitive | contract/src/lib.rs:77-304 | the "may evolve into" relation between records composes |
| Invariants.StepEvolves | contract/src/lib.rs:77-304 | one call never changes the configuration, never lowers amounts, never removes votes, never reopens a milestone or resets goal_met, and freezes funding once goal_met |
| Invariants.RunEvolves | contract/src/lib.rs:77-304 | the same holds between any record and every record a session of calls leads to |
| Invariants.InitializeOnce | contract/src/lib.rs:86-88 | once a record exists, `initialize` after any later session fails with ProjectAlreadyInitialized and the stored record stays as it was |
| Invariants.ReleaseOnce | contract/src/lib.rs:239-241 | after a successful release of a milestone, releasing it again fails with MilestoneAlreadyCompleted |
| Invariants.VoteOnce | contract/src/lib.rs:213-215 | after a successful vote, the same backer voting again on the same milestone fails with AlreadyVoted |
| Invariants.VoteNeverTwice | contract/src/lib.rs:213-215 | after a successful vote, no later session of calls lets the same backer vote on the same milestone again |
| Invariants.ReleaseNeverTwice | contract/src/lib.rs:239-241 | after a successful release, that milestone fails with MilestoneAlreadyCompleted after any later session of calls |
| Invariants.VoteWeightFixed | contract/src/lib.rs:245-249 | a vote leaves `backers` as they were, and after any later session `backers` and `raised` are still the same, so the weight a release computes from current entries equals the voters' funding when the vote was cast |
| Invariants.NoVotesNoRelease | contract/src/lib.rs:245-253 | a milestone without votes is never released, because 2 x 0 never exceeds raised |
| Invariants.UnanimousRelease | contract/src/lib.rs:245-258 | in a consistent record with the goal met, an open milestone that every backer voted for is released |
| Invariants.ReleaseExcludesRefund | contract/src/lib.rs:278-280 | in every reachable record, a completed milestone implies goal_met, so refunds are closed once anything was released |
| Invariants.OpenMeansBelowGoal | contract/src/lib.rs:176-179 | in every reachable record where goal_met is false, raised is below the goal |
| MilestoneFundContract.MilestoneFund.constructor | contract/src/lib.rs:86 | a fresh contract has no stored record |
| MilestoneFundContract.MilestoneFund.GetProject | contract/src/lib.rs:309-314 | the stored record, or ProjectNotInitialized exactly when there is none |
| MilestoneFundContract.MilestoneFund.GetBackerInfo | contract/src/lib.rs:317-320 | ProjectNotInitialized without a record; otherwise the backer's amount, or 0 for a backer never seen |
| MilestoneFundContract.MilestoneFund.Initialize | contract/src/lib.rs:77-139 | runs the checks and the milestone loop in place; returns and stores exactly what InitializeTransition gives; a failed call leaves the stored record unchanged; keeps the invariant |
| MilestoneFundContract.MilestoneFund.Fund | contract/src/lib.rs:142-190 | returns and stores exactly what FundTransition gives; keeps the invariant |
| MilestoneFundContract.MilestoneFund.Vote | contract/src/lib.rs:193-224 | returns and stores exactly what VoteTransition gives; keeps the invariant |
| MilestoneFundContract.MilestoneFund.ReleaseFunds | contract/src/lib.rs:227-270 | sums the voters' current funding in a loop; returns and stores exactly what ReleaseTransition gives; keeps the invariant |
| MilestoneFundContract.MilestoneFund.ClaimRefund | contract/src/lib.rs:273-304 | ProjectNotInitialized without a record; RefundsNotAvailable unless sequence > deadline and goal_met is false; NoRefundsToClaim when the caller is absent or has 0; success exactly otherwise; it has no modifies clause, so the stored record is never changed and a repeated call gives the same answer |

## Left out

- Instance storage and its time-to-live extension (contract/src/lib.rs:131-136) are the field `project`. The TTL is not modelled.
- Event publishing (contract/src/lib.rs:186-187, 266-267) is not modelled. It has no effect on the record.
- `require_auth` (contract/src/lib.rs:143, 194, 274) is host authentication. The `backer` argument is taken to be the authenticated caller.
- Token transfers are not modelled. The code has them commented out (contract/src/lib.rs:164-166, 261-263, 291-293), so no value moves.
- The host clock is the `sequence` parameter, standing for `env.ledger().sequence()`.
- `Env`, `Address`, `String`, `Map` and `Vec` are replaced by a type parameter, `string`, `map`, `set` and `seq`. Milestone titles are never inspected.
- A milestone's `votes` map always stores `true` and is never read by value. It is modelled as the set of voters.
- The host map iterates votes in key order. The model visits voters in any order, and Weights.WeightRemove shows that the total does not depend on the order.
- FundTransition: does not model the u128 overflow trap (or wrap, if overflow checks are off) of `raised += 100` and of the backer's entry (lines 169, 173). Amounts are unbounded `nat`.
- InitializeTransition: does not model the u128 overflow trap (or wrap) of `total_milestone_amount += amount` (line 105). With wrapping, the code could accept amounts whose true sum differs from `goal` (line 115); the model's sum is exact.
- ReleaseTransition: does not model the u128 overflow trap (or wrap) of `total_vote_weight += …` and `* 2` (lines 248, 252).
- The u64 `deadline` (lines 51, 82), the u32 ledger sequence (lines 91, 150, 278) and the u32 milestone index (lines 193, 227) are `nat`. They are only compared, never computed on, so no behaviour is lost.
- The error `FundingIsClosed` is declared but never returned by the code. `FundingAmountTooLow` is guarded by a branch that can never be taken, because the amount is the constant 100. The model keeps that branch.
- A caller-supplied funding amount, a refunded flag, vote weight fixed at cast time and zeroing a balance on refund do not exist in the code. They are not modelled.
