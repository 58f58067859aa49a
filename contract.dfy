/** The MilestoneFund contract.  Its instance storage holds at most one
    project record, the field `project`; each entry point loads the record,
    checks its guards in order, updates a local copy and stores it back.  The
    calling address is the authenticated caller and the current ledger
    sequence number is passed in as `sequence`. */
module MilestoneFundContract {
  import opened FundTypes
  import opened Weights
  import opened Transitions
  import Invariants

  class MilestoneFund<A(==)> {
    var project: Option<Project<A>>

    /** A freshly deployed contract has no record yet. */
    constructor ()
      ensures project == None && Valid()
    {
      project := None;
    }

    ghost predicate Valid()
      reads this
    {
      Invariants.Valid(project)
    }

    /** The stored record, or ProjectNotInitialized when there is none. */
    function GetProject(): (r: Result<Project<A>>)
      reads this
      ensures r.Err? <==> project.None?
      ensures r.Err? ==> r.error == ProjectNotInitialized
      ensures r.Ok? ==> project == Some(r.value)
    {
      if project.Some? then Ok(project.value) else Err(ProjectNotInitialized)
    }

    /** What `backer` has funded; a backer never seen reads as 0. */
    function GetBackerInfo(backer: A): (r: Result<nat>)
      reads this
      ensures project.None? ==> r == Err(ProjectNotInitialized)
      ensures project.Some? && backer !in project.value.backers ==> r == Ok(0)
      ensures project.Some? && backer in project.value.backers ==> r == Ok(project.value.backers[backer])
    {
      var loaded := GetProject();
      if loaded.Err? then Err(loaded.error) else Ok(Amount(loaded.value.backers, backer))
    }

    method Initialize(sequence: nat, creator: A, token: A, goal: nat, deadline: nat,
                      entries: seq<(string, nat)>) returns (r: Result<()>)
      requires Valid()
      modifies this
      ensures Valid()
      ensures var t := InitializeTransition(old(project), sequence, creator, token, goal, deadline, entries);
              r == Status(t) && project == Commit(old(project), t)
    {
      if project.Some? {
        return Err(ProjectAlreadyInitialized);
      }
      if deadline <= sequence {
        return Err(DeadlineMustBeInFuture);
      }
      if goal == 0 {
        return Err(GoalMustBePositive);
      }
      if |entries| == 0 {
        return Err(MilestoneListEmpty);
      }

      var totalMilestoneAmount: nat := 0;
      var schedule: seq<Milestone<A>> := [];
      for i := 0 to |entries|
        invariant project == old(project)
        invariant totalMilestoneAmount == Sum(EntryAmounts(entries[..i]))
        invariant schedule == NewMilestones(entries[..i])
      {
        var (title, amount) := entries[i];
        assert EntryAmounts(entries[..i + 1]) == EntryAmounts(entries[..i]) + [amount];
        SumAppend(EntryAmounts(entries[..i]), amount);
        totalMilestoneAmount := totalMilestoneAmount + amount;
        schedule := schedule + [Milestone(title, amount, false, {})];
      }
      assert entries[..|entries|] == entries;

      if totalMilestoneAmount != goal {
        return Err(MilestoneAmountsMismatchGoal);
      }

      project := Some(Project(creator, token, goal, 0, deadline, schedule, map[], false));
      Invariants.InitializeEstablishes(old(project), sequence, creator, token, goal, deadline, entries);
      r := Ok(());
    }

    method Fund(sequence: nat, backer: A) returns (r: Result<()>)
      requires Valid()
      modifies this
      ensures Valid()
      ensures var t := FundTransition(old(project), sequence, backer);
              r == Status(t) && project == Commit(old(project), t)
    {
      var loaded := GetProject();
      if loaded.Err? {
        return Err(loaded.error);
      }
      var p := loaded.value;

      if p.goalMet {
        return Err(GoalAlreadyMet);
      }
      if sequence > p.deadline {
        return Err(DeadlinePassed);
      }

      var amountToFund := FundAmount;
      if amountToFund == 0 {
        return Err(FundingAmountTooLow);
      }

      p := p.(raised := p.raised + amountToFund);
      var currentFunding := if backer in p.backers then p.backers[backer] else 0;
      p := p.(backers := p.backers[backer := currentFunding + amountToFund]);

      if p.raised >= p.goal {
        p := p.(goalMet := true);
      }

      Invariants.FundPreserves(loaded.value, sequence, backer);
      project := Some(p);
      r := Ok(());
    }

    method Vote(backer: A, milestoneIndex: nat) returns (r: Result<()>)
      requires Valid()
      modifies this
      ensures Valid()
      ensures var t := VoteTransition(old(project), backer, milestoneIndex);
              r == Status(t) && project == Commit(old(project), t)
    {
      var loaded := GetProject();
      if loaded.Err? {
        return Err(loaded.error);
      }
      var p := loaded.value;

      if !p.goalMet {
        return Err(GoalNotMet);
      }
      if backer !in p.backers {
        return Err(NotABacker);
      }
      if milestoneIndex >= |p.milestones| {
        return Err(MilestoneInvalidIndex);
      }
      var milestone := p.milestones[milestoneIndex];

      if milestone.isComplete {
        return Err(MilestoneAlreadyCompleted);
      }
      if backer in milestone.votes {
        return Err(AlreadyVoted);
      }

      milestone := milestone.(votes := milestone.votes + {backer});
      p := p.(milestones := p.milestones[milestoneIndex := milestone]);

      Invariants.VotePreserves(loaded.value, backer, milestoneIndex);
      project := Some(p);
      r := Ok(());
    }

    method ReleaseFunds(milestoneIndex: nat) returns (r: Result<()>)
      requires Valid()
      modifies this
      ensures Valid()
      ensures var t := ReleaseTransition(old(project), milestoneIndex);
              r == Status(t) && project == Commit(old(project), t)
    {
      var loaded := GetProject();
      if loaded.Err? {
        return Err(loaded.error);
      }
      var p := loaded.value;

      if !p.goalMet {
        return Err(GoalNotMet);
      }
      if milestoneIndex >= |p.milestones| {
        return Err(MilestoneInvalidIndex);
      }
      var milestone := p.milestones[milestoneIndex];

      if milestone.isComplete {
        return Err(MilestoneAlreadyCompleted);
      }

      // Add up each voter's current funding.
      var totalVoteWeight: nat := 0;
      var pending := milestone.votes;
      while pending != {}
        invariant project == old(project)
        invariant pending <= milestone.votes
        invariant totalVoteWeight + Weight(pending, p.backers) == Weight(milestone.votes, p.backers)
        decreases pending
      {
        var voter :| voter in pending;
        WeightRemove(pending, p.backers, voter);
        var backerAmount := if voter in p.backers then p.backers[voter] else 0;
        totalVoteWeight := totalVoteWeight + backerAmount;
        pending := pending - {voter};
      }

      if totalVoteWeight * 2 <= p.raised {
        return Err(MilestoneNotYetApproved);
      }

      milestone := milestone.(isComplete := true);
      p := p.(milestones := p.milestones[milestoneIndex := milestone]);

      Invariants.ReleasePreserves(loaded.value, milestoneIndex);
      project := Some(p);
      r := Ok(());
    }

    /** Checks whether `backer` may claim a refund.  The record is never
        written, so a repeated call sees the same record and gives the same
        answer. */
    method ClaimRefund(sequence: nat, backer: A) returns (r: Result<()>)
      ensures project.None? ==> r == Err(ProjectNotInitialized)
      ensures project.Some? && (sequence <= project.value.deadline || project.value.goalMet)
              ==> r == Err(RefundsNotAvailable)
      ensures project.Some? && sequence > project.value.deadline && !project.value.goalMet
              && Amount(project.value.backers, backer) == 0
              ==> r == Err(NoRefundsToClaim)
      ensures r.Ok? <==> project.Some? && sequence > project.value.deadline && !project.value.goalMet
                         && Amount(project.value.backers, backer) > 0
    {
      var loaded := GetProject();
      if loaded.Err? {
        return Err(loaded.error);
      }
      var p := loaded.value;

      if sequence <= p.deadline || p.goalMet {
        return Err(RefundsNotAvailable);
      }

      if backer !in p.backers {
        return Err(NoRefundsToClaim);
      }
      var amountToRefund := p.backers[backer];
      if amountToRefund == 0 {
        return Err(NoRefundsToClaim);
      }

      r := Ok(());
    }
  }
}
