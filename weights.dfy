/** Sums of funded amounts: the amount recorded for one backer, the combined
    amount of a set of backers (the vote weight of a milestone) and the total
    over every backer. */
module Weights {

  /** The amount funded by `who`; a missing entry counts as 0. */
  function Amount<A>(backers: map<A, nat>, who: A): (n: nat)
    ensures who !in backers ==> n == 0
    ensures who in backers ==> n == backers[who]
  {
    if who in backers then backers[who] else 0
  }

  /** The combined current amount of the backers in `voters`, each counted once. */
  ghost function Weight<A>(voters: set<A>, backers: map<A, nat>): nat
    decreases voters
  {
    if voters == {} then 0
    else
      var v :| v in voters;
      Amount(backers, v) + Weight(voters - {v}, backers)
  }

  /** The sum of every value in `backers`. */
  ghost function Total<A>(backers: map<A, nat>): nat
  {
    Weight(backers.Keys, backers)
  }

  /** Weight does not depend on the order in which voters are added up:
      any one voter can be split off. */
  lemma {:induction false} WeightRemove<A>(voters: set<A>, backers: map<A, nat>, v: A)
    requires v in voters
    ensures Weight(voters, backers) == Amount(backers, v) + Weight(voters - {v}, backers)
    decreases voters
  {
    var w :| w in voters && Weight(voters, backers) == Amount(backers, w) + Weight(voters - {w}, backers);
    if w != v {
      WeightRemove(voters - {w}, backers, v);
      WeightRemove(voters - {v}, backers, w);
      assert voters - {w} - {v} == voters - {v} - {w};
    }
  }

  /** Weight only reads the entries of the voters themselves. */
  lemma {:induction false} WeightFrame<A>(voters: set<A>, m: map<A, nat>, m': map<A, nat>)
    requires forall v :: v in voters ==> Amount(m, v) == Amount(m', v)
    ensures Weight(voters, m) == Weight(voters, m')
    decreases voters
  {
    if voters != {} {
      var v :| v in voters;
      WeightRemove(voters, m, v);
      WeightRemove(voters, m', v);
      WeightFrame(voters - {v}, m, m');
    }
  }

  /** Crediting `amount` to one backer (creating its entry if absent) raises
      the total by exactly `amount`. */
  lemma TotalAfterCredit<A>(backers: map<A, nat>, who: A, amount: nat)
    ensures Total(backers[who := Amount(backers, who) + amount]) == Total(backers) + amount
  {
    var credited := backers[who := Amount(backers, who) + amount];
    var others := backers.Keys - {who};
    assert credited.Keys == others + {who};
    assert credited.Keys - {who} == others;
    WeightRemove(credited.Keys, credited, who);
    WeightFrame(others, backers, credited);
    if who in backers {
      WeightRemove(backers.Keys, backers, who);
    } else {
      assert backers.Keys == others;
    }
  }
}
