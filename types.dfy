/** The data of the MilestoneFund escrow contract: its error codes, the single
    stored project record and the milestones it holds.  The type parameter `A`
    stands for the host's account addresses. */
module FundTypes {

  datatype Option<T> = None | Some(value: T)

  /** The contract's error codes. */
  datatype Error =
    | ProjectAlreadyInitialized
    | DeadlineMustBeInFuture
    | GoalMustBePositive
    | MilestoneListEmpty
    | MilestoneAmountsMismatchGoal
    | ProjectNotInitialized
    | DeadlinePassed
    | FundingIsClosed
    | FundingAmountTooLow
    | GoalNotMet
    | GoalAlreadyMet
    | MilestoneInvalidIndex
    | MilestoneAlreadyCompleted
    | MilestoneNotYetApproved
    | NotABacker
    | AlreadyVoted
    | RefundsNotAvailable
    | NoRefundsToClaim

  /** The numeric value each error code carries on the host. */
  function ErrorCode(e: Error): (code: nat)
    ensures 1 <= code <= 18
  {
    match e
    case ProjectAlreadyInitialized => 1
    case DeadlineMustBeInFuture => 2
    case GoalMustBePositive => 3
    case MilestoneListEmpty => 4
    case MilestoneAmountsMismatchGoal => 5
    case ProjectNotInitialized => 6
    case DeadlinePassed => 7
    case FundingIsClosed => 8
    case FundingAmountTooLow => 9
    case GoalNotMet => 10
    case GoalAlreadyMet => 11
    case MilestoneInvalidIndex => 12
    case MilestoneAlreadyCompleted => 13
    case MilestoneNotYetApproved => 14
    case NotABacker => 15
    case AlreadyVoted => 16
    case RefundsNotAvailable => 17
    case NoRefundsToClaim => 18
  }

  /** What an entry point returns: a value, or one of the error codes. */
  datatype Result<T> = Ok(value: T) | Err(error: Error)

  /** One funding tranche.  `votes` is the set of backers that voted YES:
      the contract stores `true` against each voter and never reads it back. */
  datatype Milestone<A> = Milestone(
    title: string,
    amountToRelease: nat,
    isComplete: bool,
    votes: set<A>)

  /** The single stored project record.  `deadline` is a ledger sequence
      number; `backers` maps each backer to the total it has funded. */
  datatype Project<A> = Project(
    creator: A,
    token: A,
    goal: nat,
    raised: nat,
    deadline: nat,
    milestones: seq<Milestone<A>>,
    backers: map<A, nat>,
    goalMet: bool)
}
