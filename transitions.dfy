/** Each entry point of the contract as a transition of the stored record:
    from the record before the call (None while uninitialized) it gives either
    the record the call writes back or the error it returns.  A failed call
    writes nothing. */
module Transitions {
  import opened FundTypes
  import opened Weights

  /** The fixed amount every successful `fund` call credits. */
  const FundAmount: nat := 100

  /** The sum of a sequence of amounts, added up front to back as the
      initialization loop does. */
  function Sum(xs: seq<nat>): nat
  {
    if xs == [] then 0 else Sum(xs[..|xs| - 1]) + xs[|xs| - 1]
  }

  lemma {:induction false} SumAppend(xs: seq<nat>, x: nat)
    ensures Sum(xs + [x]) == Sum(xs) + x
  {
    assert (xs + [x])[..|xs + [x]| - 1] == xs;
  }

  /** The amounts of the `(title, amount)` entries given to `initialize`. */
  function EntryAmounts(entries: seq<(string, nat)>): (r: seq<nat>)
    ensures |r| == |entries|
    ensures forall k :: 0 <= k < |entries| ==> r[k] == entries[k].1
  {
    seq(|entries|, k requires 0 <= k < |entries| => entries[k].1)
  }

  /** The release amounts of a milestone list. */
  function ReleaseAmounts<A>(milestones: seq<Milestone<A>>): (r: seq<nat>)
    ensures |r| == |milestones|
    ensures forall k :: 0 <= k < |milestones| ==> r[k] == milestones[k].amountToRelease
  {
    seq(|milestones|, k requires 0 <= k < |milestones| => milestones[k].amountToRelease)
  }

  /** The fresh milestone for one `(title, amount)` entry: not complete, no votes. */
  function NewMilestone<A>(entry: (string, nat)): (m: Milestone<A>)
    ensures m.title == entry.0 && m.amountToRelease == entry.1
    ensures !m.isComplete && m.votes == {}
  {
    Milestone(entry.0, entry.1, false, {})
  }

  /** The milestone list built from the entries, in input order. */
  function NewMilestones<A>(entries: seq<(string, nat)>): (r: seq<Milestone<A>>)
    ensures |r| == |entries|
    ensures forall k :: 0 <= k < |entries| ==> r[k] == NewMilestone(entries[k])
  {
    seq(|entries|, k requires 0 <= k < |entries| => NewMilestone(entries[k]))
  }

  /** The record a call stores: the new record on success, the old one on failure. */
  function Commit<A>(stored: Option<Project<A>>, outcome: Result<Project<A>>): (s: Option<Project<A>>)
    ensures outcome.Ok? ==> s == Some(outcome.value)
    ensures outcome.Err? ==> s == stored
  {
    if outcome.Ok? then Some(outcome.value) else stored
  }

  /** What the entry point returns to its caller: `Ok(())` or the error. */
  function Status<T>(outcome: Result<T>): (r: Result<()>)
    ensures r.Ok? <==> outcome.Ok?
    ensures outcome.Err? ==> r.error == outcome.error
  {
    if outcome.Ok? then Ok(()) else Err(outcome.error)
  }

  /** `initialize`: the checks run in source order, and the new record starts
      with nothing raised, no backers and every milestone open and unvoted. */
  function InitializeTransition<A>(stored: Option<Project<A>>, sequence: nat, creator: A, token: A,
                                   goal: nat, deadline: nat, entries: seq<(string, nat)>): (r: Result<Project<A>>)
    ensures stored.Some? ==> r == Err(ProjectAlreadyInitialized)
    ensures stored.None? && deadline <= sequence ==> r == Err(DeadlineMustBeInFuture)
    ensures stored.None? && sequence < deadline && goal == 0 ==> r == Err(GoalMustBePositive)
    ensures stored.None? && sequence < deadline && goal > 0 && entries == []
            ==> r == Err(MilestoneListEmpty)
    ensures stored.None? && sequence < deadline && goal > 0 && entries != [] && Sum(EntryAmounts(entries)) != goal
            ==> r == Err(MilestoneAmountsMismatchGoal)
    ensures r.Ok? <==> stored.None? && sequence < deadline && goal > 0 && entries != []
                       && Sum(EntryAmounts(entries)) == goal
    ensures r.Ok? ==> var p := r.value;
                      && p.creator == creator && p.token == token
                      && p.goal == goal && p.deadline == deadline
                      && p.raised == 0 && !p.goalMet && p.backers == map[]
                      && |p.milestones| == |entries|
                      && forall k :: 0 <= k < |entries| ==>
                           && p.milestones[k].title == entries[k].0
                           && p.milestones[k].amountToRelease == entries[k].1
                           && !p.milestones[k].isComplete
                           && p.milestones[k].votes == {}
  {
    if stored.Some? then Err(ProjectAlreadyInitialized)
    else if deadline <= sequence then Err(DeadlineMustBeInFuture)
    else if goal == 0 then Err(GoalMustBePositive)
    else if entries == [] then Err(MilestoneListEmpty)
    else if Sum(EntryAmounts(entries)) != goal then Err(MilestoneAmountsMismatchGoal)
    else Ok(Project(creator, token, goal, 0, deadline, NewMilestones(entries), map[], false))
  }

  /** `fund`: credits exactly `FundAmount` to `raised` and to the caller, and
      latches `goalMet` once `raised` reaches the goal. */
  function FundTransition<A>(stored: Option<Project<A>>, sequence: nat, backer: A): (r: Result<Project<A>>)
    ensures stored.None? ==> r == Err(ProjectNotInitialized)
    ensures stored.Some? && stored.value.goalMet ==> r == Err(GoalAlreadyMet)
    ensures stored.Some? && !stored.value.goalMet && sequence > stored.value.deadline
            ==> r == Err(DeadlinePassed)
    ensures r.Ok? <==> stored.Some? && !stored.value.goalMet && sequence <= stored.value.deadline
    ensures r.Ok? ==> var p, q := stored.value, r.value;
                      && q.raised == p.raised + 100
                      && q.backers.Keys == p.backers.Keys + {backer}
                      && q.backers[backer] == Amount(p.backers, backer) + 100
                      && (forall b :: b in p.backers && b != backer ==> q.backers[b] == p.backers[b])
                      && (q.goalMet <==> q.raised >= q.goal)
                      && q.(raised := p.raised, backers := p.backers, goalMet := p.goalMet) == p
  {
    if stored.None? then Err(ProjectNotInitialized)
    else
      var p := stored.value;
      if p.goalMet then Err(GoalAlreadyMet)
      else if sequence > p.deadline then Err(DeadlinePassed)
      else if FundAmount == 0 then Err(FundingAmountTooLow)
      else
        var raised := p.raised + FundAmount;
        var backers := p.backers[backer := Amount(p.backers, backer) + FundAmount];
        var funded := p.(raised := raised, backers := backers);
        if funded.raised >= funded.goal then Ok(funded.(goalMet := true)) else Ok(funded)
  }

  /** `vote`: adds the caller to one open milestone's voters and changes
      nothing else. */
  function VoteTransition<A>(stored: Option<Project<A>>, backer: A, index: nat): (r: Result<Project<A>>)
    ensures stored.None? ==> r == Err(ProjectNotInitialized)
    ensures stored.Some? && !stored.value.goalMet ==> r == Err(GoalNotMet)
    ensures stored.Some? && stored.value.goalMet && backer !in stored.value.backers ==> r == Err(NotABacker)
    ensures stored.Some? && stored.value.goalMet && backer in stored.value.backers
            && index >= |stored.value.milestones|
            ==> r == Err(MilestoneInvalidIndex)
    ensures stored.Some? && stored.value.goalMet && backer in stored.value.backers
            && index < |stored.value.milestones| && stored.value.milestones[index].isComplete
            ==> r == Err(MilestoneAlreadyCompleted)
    ensures stored.Some? && stored.value.goalMet && backer in stored.value.backers
            && index < |stored.value.milestones| && !stored.value.milestones[index].isComplete
            && backer in stored.value.milestones[index].votes
            ==> r == Err(AlreadyVoted)
    ensures r.Ok? <==> stored.Some? && stored.value.goalMet && backer in stored.value.backers
                       && index < |stored.value.milestones| && !stored.value.milestones[index].isComplete
                       && backer !in stored.value.milestones[index].votes
    ensures r.Ok? ==> var p, q := stored.value, r.value;
                      && |q.milestones| == |p.milestones|
                      && q.milestones[index].votes == p.milestones[index].votes + {backer}
                      && q.milestones[index].(votes := p.milestones[index].votes) == p.milestones[index]
                      && (forall k :: 0 <= k < |p.milestones| && k != index ==> q.milestones[k] == p.milestones[k])
                      && q.(milestones := p.milestones) == p
  {
    if stored.None? then Err(ProjectNotInitialized)
    else
      var p := stored.value;
      if !p.goalMet then Err(GoalNotMet)
      else if backer !in p.backers then Err(NotABacker)
      else if index >= |p.milestones| then Err(MilestoneInvalidIndex)
      else
        var m := p.milestones[index];
        if m.isComplete then Err(MilestoneAlreadyCompleted)
        else if backer in m.votes then Err(AlreadyVoted)
        else Ok(p.(milestones := p.milestones[index := m.(votes := m.votes + {backer})]))
  }

  /** `release_funds`: completes one open milestone when its voters' current
      funding is strictly more than half of everything raised. */
  ghost function ReleaseTransition<A>(stored: Option<Project<A>>, index: nat): (r: Result<Project<A>>)
    ensures stored.None? ==> r == Err(ProjectNotInitialized)
    ensures stored.Some? && !stored.value.goalMet ==> r == Err(GoalNotMet)
    ensures stored.Some? && stored.value.goalMet && index >= |stored.value.milestones|
            ==> r == Err(MilestoneInvalidIndex)
    ensures stored.Some? && stored.value.goalMet && index < |stored.value.milestones|
            && stored.value.milestones[index].isComplete
            ==> r == Err(MilestoneAlreadyCompleted)
    ensures stored.Some? && stored.value.goalMet && index < |stored.value.milestones|
            && !stored.value.milestones[index].isComplete
            && 2 * Weight(stored.value.milestones[index].votes, stored.value.backers) <= stored.value.raised
            ==> r == Err(MilestoneNotYetApproved)
    ensures r.Ok? <==> stored.Some? && stored.value.goalMet && index < |stored.value.milestones|
                       && !stored.value.milestones[index].isComplete
                       && 2 * Weight(stored.value.milestones[index].votes, stored.value.backers) > stored.value.raised
    ensures r.Ok? ==> var p, q := stored.value, r.value;
                      && |q.milestones| == |p.milestones|
                      && q.milestones[index].isComplete
                      && q.milestones[index].(isComplete := false) == p.milestones[index]
                      && (forall k :: 0 <= k < |p.milestones| && k != index ==> q.milestones[k] == p.milestones[k])
                      && q.(milestones := p.milestones) == p
  {
    if stored.None? then Err(ProjectNotInitialized)
    else
      var p := stored.value;
      if !p.goalMet then Err(GoalNotMet)
      else if index >= |p.milestones| then Err(MilestoneInvalidIndex)
      else
        var m := p.milestones[index];
        if m.isComplete then Err(MilestoneAlreadyCompleted)
        else if 2 * Weight(m.votes, p.backers) <= p.raised then Err(MilestoneNotYetApproved)
        else Ok(p.(milestones := p.milestones[index := m.(isComplete := true)]))
  }
}
