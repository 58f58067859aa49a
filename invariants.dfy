/** What holds of every record the contract can reach, and how a record may
    change from one call to the next.  A session is any sequence of calls,
    each with the ledger sequence number current when it is made. */
module Invariants {
  import opened FundTypes
  import opened Weights
  import opened Transitions

  /** One call to an entry point, with its arguments. */
  datatype Call<A> =
    | InitializeCall(creator: A, token: A, goal: nat, deadline: nat, entries: seq<(string, nat)>)
    | FundCall(backer: A)
    | VoteCall(voter: A, index: nat)
    | ReleaseCall(index: nat)
    | RefundCall(claimant: A)
    | ViewCall

  /** A call together with the ledger sequence number at which it runs. */
  datatype Invocation<A> = Invocation(call: Call<A>, sequence: nat)

  /** The record stored after one call.  `claim_refund` and the views never
      write the record. */
  ghost function Step<A>(stored: Option<Project<A>>, inv: Invocation<A>): Option<Project<A>>
  {
    match inv.call
    case InitializeCall(creator, token, goal, deadline, entries) =>
      Commit(stored, InitializeTransition(stored, inv.sequence, creator, token, goal, deadline, entries))
    case FundCall(backer) => Commit(stored, FundTransition(stored, inv.sequence, backer))
    case VoteCall(voter, index) => Commit(stored, VoteTransition(stored, voter, index))
    case ReleaseCall(index) => Commit(stored, ReleaseTransition(stored, index))
    case RefundCall(_) => stored
    case ViewCall => stored
  }

  /** The record stored after a whole session. */
  ghost function Run<A>(stored: Option<Project<A>>, session: seq<Invocation<A>>): Option<Project<A>>
    decreases |session|
  {
    if session == [] then stored else Run(Step(stored, session[0]), session[1..])
  }

  /** The invariant of a stored record. */
  ghost predicate Consistent<A>(p: Project<A>)
  {
    && p.goal > 0
    && p.milestones != []
    && Sum(ReleaseAmounts(p.milestones)) == p.goal
    // the amount raised is the sum of all backers' amounts
    && p.raised == Total(p.backers)
    // the goal latch is exactly "raised has reached the goal"
    && (p.goalMet <==> p.raised >= p.goal)
    // every recorded backer has funded something
    && (forall b :: b in p.backers ==> p.backers[b] > 0)
    && (forall k :: 0 <= k < |p.milestones| ==> p.milestones[k].votes <= p.backers.Keys)
    // votes and completions happen only after the goal was met
    && (forall k :: 0 <= k < |p.milestones| && p.milestones[k].votes != {} ==> p.goalMet)
    && (forall k :: 0 <= k < |p.milestones| && p.milestones[k].isComplete ==> p.goalMet)
  }

  ghost predicate Valid<A>(stored: Option<Project<A>>)
  {
    stored.Some? ==> Consistent(stored.value)
  }

  lemma InitializeEstablishes<A>(stored: Option<Project<A>>, sequence: nat, creator: A, token: A,
                                 goal: nat, deadline: nat, entries: seq<(string, nat)>)
    requires InitializeTransition(stored, sequence, creator, token, goal, deadline, entries).Ok?
    ensures Consistent(InitializeTransition(stored, sequence, creator, token, goal, deadline, entries).value)
  {
    var p := InitializeTransition(stored, sequence, creator, token, goal, deadline, entries).value;
    assert ReleaseAmounts(p.milestones) == EntryAmounts(entries);
  }

  lemma FundPreserves<A>(p: Project<A>, sequence: nat, backer: A)
    requires Consistent(p)
    requires FundTransition(Some(p), sequence, backer).Ok?
    ensures Consistent(FundTransition(Some(p), sequence, backer).value)
  {
    var q := FundTransition(Some(p), sequence, backer).value;
    TotalAfterCredit(p.backers, backer, 100);
    assert q.backers == p.backers[backer := Amount(p.backers, backer) + 100];
    assert q.milestones == p.milestones;
  }

  lemma VotePreserves<A>(p: Project<A>, voter: A, index: nat)
    requires Consistent(p)
    requires VoteTransition(Some(p), voter, index).Ok?
    ensures Consistent(VoteTransition(Some(p), voter, index).value)
  {
    var q := VoteTransition(Some(p), voter, index).value;
    assert ReleaseAmounts(q.milestones) == ReleaseAmounts(p.milestones);
  }

  lemma ReleasePreserves<A>(p: Project<A>, index: nat)
    requires Consistent(p)
    requires ReleaseTransition(Some(p), index).Ok?
    ensures Consistent(ReleaseTransition(Some(p), index).value)
  {
    var q := ReleaseTransition(Some(p), index).value;
    assert ReleaseAmounts(q.milestones) == ReleaseAmounts(p.milestones);
  }

  /** Every entry point keeps the invariant. */
  lemma StepPreserves<A>(stored: Option<Project<A>>, inv: Invocation<A>)
    requires Valid(stored)
    ensures Valid(Step(stored, inv))
  {
    match inv.call
    case InitializeCall(creator, token, goal, deadline, entries) =>
      if InitializeTransition(stored, inv.sequence, creator, token, goal, deadline, entries).Ok? {
        InitializeEstablishes(stored, inv.sequence, creator, token, goal, deadline, entries);
      }
    case FundCall(backer) =>
      if FundTransition(stored, inv.sequence, backer).Ok? {
        FundPreserves(stored.value, inv.sequence, backer);
      }
    case VoteCall(voter, index) =>
      if VoteTransition(stored, voter, index).Ok? {
        VotePreserves(stored.value, voter, index);
      }
    case ReleaseCall(index) =>
      if ReleaseTransition(stored, index).Ok? {
        ReleasePreserves(stored.value, index);
      }
    case RefundCall(_) =>
    case ViewCall =>
  }

  /** Every record reachable from the uninitialized contract is consistent. */
  lemma {:induction false} RunPreserves<A>(stored: Option<Project<A>>, session: seq<Invocation<A>>)
    requires Valid(stored)
    ensures Valid(Run(stored, session))
    decreases |session|
  {
    if session != [] {
      StepPreserves(stored, session[0]);
      RunPreserves(Step(stored, session[0]), session[1..]);
    }
  }

  /** How a record may change over any number of calls: the configuration is
      fixed, amounts and votes only grow, completion and the goal latch are
      never undone, and once the goal is met the funding (hence every vote's
      weight) is frozen. */
  ghost predicate Evolves<A>(s: Option<Project<A>>, t: Option<Project<A>>)
  {
    s.Some? ==>
      && t.Some?
      && var p, q := s.value, t.value;
      && q.creator == p.creator && q.token == p.token
      && q.goal == p.goal && q.deadline == p.deadline
      && |q.milestones| == |p.milestones|
      && (forall k :: 0 <= k < |p.milestones| ==>
            && q.milestones[k].title == p.milestones[k].title
            && q.milestones[k].amountToRelease == p.milestones[k].amountToRelease
            && p.milestones[k].votes <= q.milestones[k].votes
            && (p.milestones[k].isComplete ==> q.milestones[k].isComplete))
      && p.raised <= q.raised
      && (forall b :: b in p.backers ==> b in q.backers && p.backers[b] <= q.backers[b])
      && (p.goalMet ==> q.goalMet && q.raised == p.raised && q.backers == p.backers)
  }

  lemma EvolvesTransitive<A>(s: Option<Project<A>>, t: Option<Project<A>>, u: Option<Project<A>>)
    requires Evolves(s, t) && Evolves(t, u)
    ensures Evolves(s, u)
  {
  }

  lemma StepEvolves<A>(stored: Option<Project<A>>, inv: Invocation<A>)
    ensures Evolves(stored, Step(stored, inv))
  {
  }

  lemma {:induction false} RunEvolves<A>(stored: Option<Project<A>>, session: seq<Invocation<A>>)
    ensures Evolves(stored, Run(stored, session))
    decreases |session|
  {
    if session != [] {
      var next := Step(stored, session[0]);
      StepEvolves(stored, session[0]);
      RunEvolves(next, session[1..]);
      EvolvesTransitive(stored, next, Run(next, session[1..]));
    }
  }

  /** Once initialized, `initialize` fails with ProjectAlreadyInitialized after
      any session, and the failed call leaves the record as it was. */
  lemma {:induction false} InitializeOnce<A>(stored: Option<Project<A>>, session: seq<Invocation<A>>,
                                             sequence: nat, creator: A, token: A, goal: nat, deadline: nat,
                                             entries: seq<(string, nat)>)
    requires stored.Some?
    ensures var s := Run(stored, session);
            && InitializeTransition(s, sequence, creator, token, goal, deadline, entries) == Err(ProjectAlreadyInitialized)
            && Step(s, Invocation(InitializeCall(creator, token, goal, deadline, entries), sequence)) == s
  {
    RunEvolves(stored, session);
  }

  /** A release that succeeded cannot be repeated. */
  lemma ReleaseOnce<A>(stored: Option<Project<A>>, index: nat)
    requires ReleaseTransition(stored, index).Ok?
    ensures ReleaseTransition(Some(ReleaseTransition(stored, index).value), index) == Err(MilestoneAlreadyCompleted)
  {
  }

  /** Voting twice on the same milestone is refused. */
  lemma VoteOnce<A>(stored: Option<Project<A>>, voter: A, index: nat)
    requires VoteTransition(stored, voter, index).Ok?
    ensures VoteTransition(Some(VoteTransition(stored, voter, index).value), voter, index) == Err(AlreadyVoted)
  {
  }

  /** A milestone nobody voted for is never released: an empty tally weighs
      0, and 2 * 0 is never more than what was raised. */
  lemma NoVotesNoRelease<A>(p: Project<A>, index: nat)
    requires index < |p.milestones| && p.milestones[index].votes == {}
    ensures ReleaseTransition(Some(p), index).Err?
  {
  }

  /** After a successful vote, no later session of calls lets the same
      backer vote on the same milestone again. */
  lemma {:induction false} VoteNeverTwice<A>(stored: Option<Project<A>>, voter: A, index: nat,
                                             session: seq<Invocation<A>>)
    requires VoteTransition(stored, voter, index).Ok?
    ensures VoteTransition(Run(Some(VoteTransition(stored, voter, index).value), session), voter, index).Err?
  {
    RunEvolves(Some(VoteTransition(stored, voter, index).value), session);
  }

  /** After a successful release, no later session of calls lets that
      milestone be released again. */
  lemma {:induction false} ReleaseNeverTwice<A>(stored: Option<Project<A>>, index: nat,
                                                session: seq<Invocation<A>>)
    requires ReleaseTransition(stored, index).Ok?
    ensures ReleaseTransition(Run(Some(ReleaseTransition(stored, index).value), session), index)
            == Err(MilestoneAlreadyCompleted)
  {
    RunEvolves(Some(ReleaseTransition(stored, index).value), session);
  }

  /** The funding a vote is weighed by at release time is the funding when
      the vote was cast: a vote needs the goal met, after which the record's
      `backers` never change, so the milestone's tally is the same at any
      later point. */
  lemma {:induction false} VoteWeightFixed<A>(stored: Option<Project<A>>, voter: A, index: nat,
                                              session: seq<Invocation<A>>)
    requires VoteTransition(stored, voter, index).Ok?
    ensures var cast := VoteTransition(stored, voter, index).value;
            var later := Run(Some(cast), session);
            && cast.backers == stored.value.backers
            && later.Some? && later.value.backers == cast.backers
            && later.value.raised == cast.raised
            && (forall votes: set<A> ::
                  Weight(votes, later.value.backers) == Weight(votes, stored.value.backers))
  {
    RunEvolves(Some(VoteTransition(stored, voter, index).value), session);
  }

  /** In a consistent record with the goal met, a milestone every backer voted
      for is released. */
  lemma UnanimousRelease<A>(p: Project<A>, index: nat)
    requires Consistent(p) && p.goalMet
    requires index < |p.milestones| && !p.milestones[index].isComplete
    requires p.milestones[index].votes == p.backers.Keys
    ensures ReleaseTransition(Some(p), index).Ok?
  {
  }

  /** A completed milestone means the goal was met, so in every reachable
      record refunds are closed once any milestone has been released. */
  lemma ReleaseExcludesRefund<A>(session: seq<Invocation<A>>, index: nat)
    requires var s := Run(None, session); s.Some? && index < |s.value.milestones|
                                          && s.value.milestones[index].isComplete
    ensures Run(None, session).value.goalMet
  {
    RunPreserves(None, session);
  }

  /** While the goal is not met, what has been raised is below the goal. */
  lemma OpenMeansBelowGoal<A>(session: seq<Invocation<A>>)
    requires var s := Run(None, session); s.Some? && !s.value.goalMet
    ensures Run(None, session).value.raised < Run(None, session).value.goal
  {
    RunPreserves(None, session);
  }
}
