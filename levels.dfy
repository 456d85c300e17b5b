/** The complexity classes a routine can be assigned to, the order in which
    candidates are proposed, and the word that qualifies a report. */
module Levels {
  import opened Optional
  import opened Selection

  /** `ComplexityLevel`: O(n), O(n log n) and O(n²). */
  datatype ComplexityLevel = N | NLogN | N2

  /** `best_complexity` builds one candidate per class, in this order. */
  const ProposalOrder: seq<ComplexityLevel> := [NLogN, N, N2]

  /** The qualifier `__str__` puts in front of the class. */
  datatype Modifier = BetterThan | NoModifier | WorseThan

  /** The two `if`s of `__str__`, run one after the other: a key factor below
      `betterBelow` says "better than", then one above `worseAbove` says
      "worse than" (the second overrides the first). */
  function ModifierFor(keyFactor: real, betterBelow: real, worseAbove: real): (m: Modifier)
    ensures m == WorseThan <==> keyFactor > worseAbove
    ensures m == BetterThan <==> keyFactor < betterBelow && keyFactor <= worseAbove
    ensures m == NoModifier <==> betterBelow <= keyFactor <= worseAbove
  {
    var first := if keyFactor < betterBelow then BetterThan else NoModifier;
    if keyFactor > worseAbove then WorseThan else first
  }

  /** The position of a class in ProposalOrder: every class is proposed, once. */
  function Rank(l: ComplexityLevel): (i: nat)
    ensures i < |ProposalOrder| && ProposalOrder[i] == l
  {
    match l
    case NLogN => 0
    case N => 1
    case N2 => 2
  }

  /** Rank undoes the indexing of ProposalOrder: no class is proposed twice. */
  lemma RankOfProposal(i: nat)
    requires i < |ProposalOrder|
    ensures Rank(ProposalOrder[i]) == i
  {
    if i == 0 {
      assert ProposalOrder[0] == NLogN;
    } else if i == 1 {
      assert ProposalOrder[1] == N;
    } else {
      assert ProposalOrder[2] == N2;
    }
  }

  /** The class `min(filter(...))` picks from the candidates proposed in
      ProposalOrder, given which of them are kept and their errors, both
      listed in that order: a kept class of least error, the earliest on a
      tie, or None when nothing is kept. */
  function ChooseLevel(keep: seq<bool>, cost: seq<real>): (r: Option<ComplexityLevel>)
    requires |keep| == |cost| == |ProposalOrder|
    ensures r.None? <==> forall l :: !keep[Rank(l)]
    ensures r.Some? ==> keep[Rank(r.value)]
    ensures r.Some? ==> forall l :: keep[Rank(l)] ==> cost[Rank(r.value)] <= cost[Rank(l)]
    ensures r.Some? ==> forall l :: Rank(l) < Rank(r.value) && keep[Rank(l)] ==> cost[Rank(l)] > cost[Rank(r.value)]
  {
    var best := BestIndex(keep, cost);
    if best.None? then
      assert forall l :: !keep[Rank(l)];
      None
    else
      RankOfProposal(best.value);
      Some(ProposalOrder[best.value])
  }
}
