/** The package's complexity.py: two-term bases for each complexity class,
    the validity and report rules for one fitted class, the choice among the
    three candidates, and `determine`, which measures the tested function on
    every problem of a map before choosing. */
module PackageComplexity {
  import opened Optional
  import opened Matrix
  import opened Approximation
  import opened Levels
  import opened Selection
  import opened Dict
  import opened Measuring

  /** The term that distinguishes a class: x, x·x or x·log(x). */
  function LeadingTerm(level: ComplexityLevel, log: real -> real, x: real): real {
    match level
    case N => x
    case N2 => x * x
    case NLogN => x * log(x)
  }

  /** `ComplexityLevel.bases()[level]`: the constant 1, then the class's own term. */
  function Bases(level: ComplexityLevel, log: real -> real): (base: Basis)
    ensures |base| == 2
    ensures forall x :: base[0](x) == 1.0
    ensures forall x :: base[1](x) == LeadingTerm(level, log, x)
  {
    match level
    case N => [x => 1.0, x => x]
    case N2 => [x => 1.0, x => x * x]
    case NLogN => [x => 1.0, x => x * log(x)]
  }

  /** A class with the approximation fitted for it. */
  datatype Complexity = Complexity(level: ComplexityLevel, approximation: Approximation)

  /** The two-term fit is determined: AᵀA has a nonzero determinant. */
  predicate Determined(level: ComplexityLevel, ms: seq<Sample>, log: real -> real) {
    Det2(NormalMatrix(Bases(level, log), ms)) != 0.0
  }

  /** For a two-term basis, a nonzero determinant is what fitting needs. */
  lemma DeterminedIsFittable(level: ComplexityLevel, ms: seq<Sample>, log: real -> real)
    ensures Determined(level, ms, log) <==> Fittable(Bases(level, log), ms)
  {
    Invertible2(NormalMatrix(Bases(level, log), ms));
  }

  /** `Complexity(level, measurements)`: the class is kept and its basis is
      fitted to the samples, the factors coming from the closed-form 2×2 inverse. */
  function NewComplexity(level: ComplexityLevel, ms: seq<Sample>, log: real -> real): (c: Complexity)
    requires Determined(level, ms, log)
    ensures c.level == level && WellFormed(c.approximation) && |c.approximation.factors| == 2
    ensures c.approximation.base == Bases(level, log) && c.approximation.measurements == ms
  {
    var base := Bases(level, log);
    var x := FactorsVector2(DesignMatrix(base, ms), Observations(ms));
    Complexity(level, Approximation(base, ms, x))
  }

  /** The closed-form solve satisfies the normal equations, and is the
      general least-squares fit. */
  lemma NewComplexityIsFit(level: ComplexityLevel, ms: seq<Sample>, log: real -> real)
    requires Determined(level, ms, log)
    ensures NormalEquations(DesignMatrix(Bases(level, log), ms), Observations(ms), 2,
      NewComplexity(level, ms, log).approximation.factors)
    ensures Fittable(Bases(level, log), ms)
    ensures NewComplexity(level, ms, log).approximation == Fit(Bases(level, log), ms)
  {
    DeterminedIsFittable(level, ms, log);
  }

  /** `factors[-1][-1]`: the factor of the class's own term. */
  function KeyFactor(c: Complexity): real
    requires |c.approximation.factors| > 0
  {
    c.approximation.factors[|c.approximation.factors| - 1]
  }

  /** Below this a leading factor counts as not significant (`10e-10`). */
  const Epsilon: real := 0.000000001

  /** `is_valid`: the linear class always passes; the others need a leading
      factor strictly above Epsilon, so a negative one fails. */
  function IsValid(c: Complexity): (b: bool)
    requires |c.approximation.factors| > 0
    ensures c.level == N ==> b
    ensures c.level != N ==> (b <==> KeyFactor(c) > 0.000000001)
    ensures KeyFactor(c) <= 0.0 ==> (b <==> c.level == N)
  {
    if c.level == N then true else KeyFactor(c) > Epsilon
  }

  /** The qualifier `__str__` chooses: "better than" below 0.05, "worse than"
      above 10, nothing in between; never both. */
  function ReportModifier(c: Complexity): (m: Modifier)
    requires |c.approximation.factors| > 0
    ensures m == BetterThan <==> KeyFactor(c) < 0.05
    ensures m == WorseThan <==> KeyFactor(c) > 10.0
    ensures m == NoModifier <==> 0.05 <= KeyFactor(c) <= 10.0
  {
    ModifierFor(KeyFactor(c), 0.05, 10.0)
  }

  /** `execution_time`: the fitted approximation at the given size. */
  function ExecutionTime(c: Complexity, size: real): real
    requires WellFormed(c.approximation)
  {
    Evaluate(c.approximation, size)
  }

  /** A class with its own basis predicts f0 + f1·t(n), where t is its leading term. */
  lemma ExecutionTimeIsFittedCurve(c: Complexity, log: real -> real, size: real)
    requires c.approximation.base == Bases(c.level, log) && |c.approximation.factors| == 2
    ensures ExecutionTime(c, size)
      == c.approximation.factors[0] + c.approximation.factors[1] * LeadingTerm(c.level, log, size)
  {
    Dot2(c.approximation.factors, Row(c.approximation.base, size));
  }

  /** Every class can be fitted to the samples. */
  predicate AllDetermined(ms: seq<Sample>, log: real -> real) {
    forall level :: Determined(level, ms, log)
  }

  /** Whether the candidate fitted for a class passes `filter_invalid`. */
  function Survives(level: ComplexityLevel, ms: seq<Sample>, log: real -> real): bool
    requires Determined(level, ms, log)
  {
    IsValid(NewComplexity(level, ms, log))
  }

  /** The mean squared error of the candidate fitted for a class; it is never negative. */
  function LevelError(level: ComplexityLevel, ms: seq<Sample>, log: real -> real): (e: real)
    requires Determined(level, ms, log) && |ms| > 0
    ensures e >= 0.0
  {
    var c := NewComplexity(level, ms, log);
    MseZero(c.approximation);
    Mse(c.approximation)
  }

  /** `filter_invalid` applied to the candidates, listed in ProposalOrder. */
  function Kept(ms: seq<Sample>, log: real -> real): (keep: seq<bool>)
    requires AllDetermined(ms, log)
    ensures |keep| == |ProposalOrder|
    ensures forall level :: keep[Rank(level)] == Survives(level, ms, log)
  {
    seq(3, i requires 0 <= i < 3 => Survives(ProposalOrder[i], ms, log))
  }

  /** The candidates' mean squared errors, listed in ProposalOrder. */
  function Errors(ms: seq<Sample>, log: real -> real): (cost: seq<real>)
    requires AllDetermined(ms, log) && |ms| > 0
    ensures |cost| == |ProposalOrder|
    ensures forall level :: cost[Rank(level)] == LevelError(level, ms, log)
  {
    seq(3, i requires 0 <= i < 3 => LevelError(ProposalOrder[i], ms, log))
  }

  /** `best_complexity`: no result for fewer than two samples; otherwise the
      candidate of the class `min` picks among the valid ones. The linear
      candidate is always valid, so with two samples or more there is always
      a result. */
  function BestComplexity(ms: seq<Sample>, log: real -> real): (r: Option<Complexity>)
    requires |ms| >= 2 ==> AllDetermined(ms, log)
    ensures r.None? <==> |ms| < 2
    ensures r.Some? ==> r.value == NewComplexity(r.value.level, ms, log)
  {
    if |ms| < 2 then None
    else
      ChoiceExists(ms, log);
      var chosen := ChooseLevel(Kept(ms, log), Errors(ms, log)).value;
      Some(NewComplexity(chosen, ms, log))
  }

  /** The linear candidate always passes, so `min` has a class to pick. */
  lemma ChoiceExists(ms: seq<Sample>, log: real -> real)
    requires |ms| >= 2 && AllDetermined(ms, log)
    ensures ChooseLevel(Kept(ms, log), Errors(ms, log)).Some?
  {
    assert Kept(ms, log)[Rank(N)];
  }

  /** The class of the best complexity is the one `min` picks. */
  lemma BestLevel(ms: seq<Sample>, log: real -> real)
    requires |ms| >= 2 && AllDetermined(ms, log)
    ensures var choice := ChooseLevel(Kept(ms, log), Errors(ms, log));
      choice.Some? && BestComplexity(ms, log).value.level == choice.value
  {
    ChoiceExists(ms, log);
  }

  /** The class chosen passes `filter_invalid`, and no valid class has a
      smaller mean squared error. */
  lemma BestComplexityIsMinimal(ms: seq<Sample>, log: real -> real, level: ComplexityLevel)
    requires |ms| >= 2 && AllDetermined(ms, log)
    ensures var c := BestComplexity(ms, log).value;
      && Survives(c.level, ms, log)
      && (Survives(level, ms, log) ==> LevelError(c.level, ms, log) <= LevelError(level, ms, log))
  {
    BestLevel(ms, log);
  }

  /** On a tie the class proposed first wins: a valid class proposed before
      the chosen one has a strictly greater error. */
  lemma BestComplexityEarliest(ms: seq<Sample>, log: real -> real, level: ComplexityLevel)
    requires |ms| >= 2 && AllDetermined(ms, log)
    ensures var c := BestComplexity(ms, log).value;
      Rank(level) < Rank(c.level) && Survives(level, ms, log) ==>
        LevelError(level, ms, log) > LevelError(c.level, ms, log)
  {
    BestLevel(ms, log);
  }

  /** The first call that timed out; `determine` re-raises both kinds, so
      either one ends the loop. */
  function FirstTimeout(outcomes: seq<CallOutcome>): (k: nat)
    ensures k <= |outcomes|
    ensures forall i :: 0 <= i < k ==> !IsTimeout(outcomes[i])
    ensures k < |outcomes| ==> IsTimeout(outcomes[k])
    decreases |outcomes|
  {
    if |outcomes| == 0 then 0
    else if IsTimeout(outcomes[0]) then 0
    else 1 + FirstTimeout(outcomes[1..])
  }

  /** The table `determine` hands to `best_complexity`: the successful calls
      before the first timeout. */
  function Table<P>(structure: seq<(real, P)>, outcomes: seq<CallOutcome>): (r: seq<Sample>)
    requires |structure| == |outcomes|
    ensures |r| <= FirstTimeout(outcomes)
  {
    var k := FirstTimeout(outcomes);
    SuccessEntriesLength(structure[..k], outcomes[..k]);
    SuccessEntries(structure[..k], outcomes[..k])
  }

  /** `measure_time` inside `determine`: every problem is tried in the map's
      order; a success stores `measurements[size]`, a raising call is logged
      and skipped, and a timeout leaves the loop with what has been stored. */
  method MeasureTime<P>(structure: seq<(real, P)>, outcomes: seq<CallOutcome>)
    returns (measurements: seq<Sample>, tested: seq<Event>, timedOut: bool)
    requires |structure| == |outcomes| && DistinctKeys(structure)
    ensures measurements == Table(structure, outcomes)
    ensures tested == TestedEvents(structure[..Started(FirstTimeout(outcomes), |structure|)])
    ensures timedOut <==> FirstTimeout(outcomes) < |structure|
  {
    measurements := [];
    tested := [];
    timedOut := false;
    var i := 0;
    while i < |structure|
      invariant i <= FirstTimeout(outcomes)
      invariant measurements == SuccessEntries(structure[..i], outcomes[..i])
      invariant tested == TestedEvents(structure[..i])
      decreases |structure| - i
    {
      var size := structure[i].0;
      TestedEventsSnoc(structure, i);
      tested := tested + [Tested(size)];
      SuccessEntriesStep(structure, outcomes, i);
      match outcomes[i] {
        case Success(time) =>
          measurements := Put(measurements, size, time);
        case Raised =>
        case SingleTimeout | TotalTimeout =>
          assert FirstTimeout(outcomes) == i;
          timedOut := true;
          break;
      }
      assert measurements == SuccessEntries(structure[..i + 1], outcomes[..i + 1]);
      assert tested == TestedEvents(structure[..i + 1]);
      i := i + 1;
    }
  }

  /** `determine`: measure, then call the clean-up function once, whether the
      loop ran through or was cut short by a timeout, then choose. */
  method Determine<P>(structure: seq<(real, P)>, outcomes: seq<CallOutcome>, log: real -> real)
    returns (result: Option<Complexity>, trace: seq<Event>)
    requires |structure| == |outcomes| && DistinctKeys(structure)
    requires |Table(structure, outcomes)| >= 2 ==> AllDetermined(Table(structure, outcomes), log)
    ensures trace == TestedEvents(structure[..Started(FirstTimeout(outcomes), |structure|)]) + [CleanedUp]
    ensures trace[|trace| - 1] == CleanedUp && forall i :: 0 <= i < |trace| - 1 ==> trace[i].Tested?
    ensures result == BestComplexity(Table(structure, outcomes), log)
  {
    var measurements, tested, timedOut := MeasureTime(structure, outcomes);
    trace := tested + [CleanedUp];
    result := BestComplexity(measurements, log);
  }

  /** The table has an entry for a size exactly when that size was reached
      before the first timeout and its call succeeded, with that call's time;
      every key is a size of the map. */
  lemma TableLookup<P>(structure: seq<(real, P)>, outcomes: seq<CallOutcome>)
    requires |structure| == |outcomes| && DistinctKeys(structure)
    ensures DistinctKeys(Table(structure, outcomes))
    ensures Keys(Table(structure, outcomes)) <= Keys(structure)
    ensures forall i :: 0 <= i < |structure| ==>
      Get(Table(structure, outcomes), structure[i].0)
        == if i < FirstTimeout(outcomes) && outcomes[i].Success? then Some(outcomes[i].time) else None
  {
    var k := FirstTimeout(outcomes);
    var items, os := structure[..k], outcomes[..k];
    assert DistinctKeys(items);
    SuccessEntriesLookup(items, os);
    assert Keys(items) <= Keys(structure) by {
      forall x | x in Keys(items) ensures x in Keys(structure) {
        var i :| 0 <= i < k && items[i].0 == x;
        assert structure[i].0 == x;
      }
    }
    forall i | 0 <= i < |structure|
      ensures Get(Table(structure, outcomes), structure[i].0)
        == if i < k && outcomes[i].Success? then Some(outcomes[i].time) else None
    {
      if i < k {
        assert items[i] == structure[i] && os[i] == outcomes[i];
      } else {
        assert structure[i].0 !in Keys(items) by {
          forall j | 0 <= j < k ensures items[j].0 != structure[i].0 { assert items[j] == structure[j]; }
        }
      }
    }
  }
}
