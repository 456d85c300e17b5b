/** The script variant of complexity.py: bases of two, three and four terms,
    the validity and report rules for one fitted class, and the choice among
    the three candidates, which needs at least four samples. */
module ScriptComplexity {
  import opened Matrix
  import opened Approximation
  import opened Levels

  /** How many terms the basis of a class has. */
  function TermCount(level: ComplexityLevel): nat {
    match level
    case N => 2
    case N2 => 3
    case NLogN => 4
  }

  /** `Complexity.__BASES[level]`: N is [1, x], N2 is [1, x, x·x] and NLOGN
      is [1, log x, x, x·log x]. */
  function Bases(level: ComplexityLevel, log: real -> real): (base: Basis)
    ensures |base| == TermCount(level)
    ensures forall x :: base[0](x) == 1.0
    ensures level == N ==> forall x :: base[1](x) == x
    ensures level == N2 ==> forall x :: base[1](x) == x && base[2](x) == x * x
    ensures level == NLogN ==> forall x ::
      base[1](x) == log(x) && base[2](x) == x && base[3](x) == x * log(x)
  {
    match level
    case N => [x => 1.0, x => x]
    case N2 => [x => 1.0, x => x, x => x * x]
    case NLogN => [x => 1.0, x => log(x), x => x, x => x * log(x)]
  }

  /** The curve a class fits, written out with its factors f. */
  function Curve(level: ComplexityLevel, f: Vector, log: real -> real, x: real): real
    requires |f| == TermCount(level)
  {
    match level
    case N => f[0] + f[1] * x
    case N2 => f[0] + f[1] * x + f[2] * (x * x)
    case NLogN => f[0] + f[1] * log(x) + f[2] * x + f[3] * (x * log(x))
  }

  /** A class with the approximation fitted for it. */
  datatype Complexity = Complexity(level: ComplexityLevel, approximation: Approximation)

  /** `Complexity(level, measurements)`: the class is kept and its basis is
      fitted to the samples by least squares. */
  function NewComplexity(level: ComplexityLevel, ms: seq<Sample>, log: real -> real): (c: Complexity)
    requires Fittable(Bases(level, log), ms)
    ensures c.level == level && WellFormed(c.approximation)
    ensures c.approximation.base == Bases(level, log) && c.approximation.measurements == ms
    ensures |c.approximation.factors| == TermCount(level)
  {
    Complexity(level, Fit(Bases(level, log), ms))
  }

  /** The factors of a new complexity solve the normal equations of its basis. */
  lemma NewComplexitySolves(level: ComplexityLevel, ms: seq<Sample>, log: real -> real)
    requires Fittable(Bases(level, log), ms)
    ensures NormalEquations(DesignMatrix(Bases(level, log), ms), Observations(ms), TermCount(level),
      NewComplexity(level, ms, log).approximation.factors)
  {
  }

  /** `factors[-1][-1]`: the factor of the class's own leading term. */
  function KeyFactor(c: Complexity): real
    requires |c.approximation.factors| > 0
  {
    c.approximation.factors[|c.approximation.factors| - 1]
  }

  /** Below this a leading factor counts as not significant (`10e-3`). */
  const Epsilon: real := 0.01

  /** `is_valid`. Its shortcut for the linear class compares the bound method
      `complexity_info`, not the class, with `ComplexityLevel.N`; a method is
      never equal to an enum member, so the shortcut is never taken and every
      class, the linear one included, needs a leading factor above 0.01. */
  function IsValid(c: Complexity): (b: bool)
    requires |c.approximation.factors| > 0
    ensures b <==> KeyFactor(c) > 0.01
    ensures c.level == N && KeyFactor(c) <= 0.01 ==> !b
  {
    KeyFactor(c) > Epsilon
  }

  /** The qualifier `__str__` chooses: "better than" below 0.5, "worse than"
      above 5, nothing in between; never both. */
  function ReportModifier(c: Complexity): (m: Modifier)
    requires |c.approximation.factors| > 0
    ensures m == BetterThan <==> KeyFactor(c) < 0.5
    ensures m == WorseThan <==> KeyFactor(c) > 5.0
    ensures m == NoModifier <==> 0.5 <= KeyFactor(c) <= 5.0
  {
    ModifierFor(KeyFactor(c), 0.5, 5.0)
  }

  /** `execution_time`: the fitted approximation at the given size. */
  function ExecutionTime(c: Complexity, size: real): real
    requires WellFormed(c.approximation)
  {
    Evaluate(c.approximation, size)
  }

  /** A class with its own basis predicts its curve, term by term. */
  lemma ExecutionTimeIsCurve(c: Complexity, log: real -> real, size: real)
    requires c.approximation.base == Bases(c.level, log) && WellFormed(c.approximation)
    ensures ExecutionTime(c, size) == Curve(c.level, c.approximation.factors, log, size)
  {
    var f, r := c.approximation.factors, Row(c.approximation.base, size);
    match c.level {
      case N => Dot2(f, r);
      case N2 => Dot3(f, r);
      case NLogN => Dot4(f, r);
    }
  }

  /** Every class can be fitted to the samples. */
  ghost predicate AllFittable(ms: seq<Sample>, log: real -> real) {
    forall level :: Fittable(Bases(level, log), ms)
  }

  /** Whether the candidate fitted for a class passes `filter_invalid`. */
  function Survives(level: ComplexityLevel, ms: seq<Sample>, log: real -> real): bool
    requires Fittable(Bases(level, log), ms)
  {
    IsValid(NewComplexity(level, ms, log))
  }

  /** The mean squared error of the candidate fitted for a class; it is never negative. */
  function LevelError(level: ComplexityLevel, ms: seq<Sample>, log: real -> real): (e: real)
    requires Fittable(Bases(level, log), ms) && |ms| > 0
    ensures e >= 0.0
  {
    var c := NewComplexity(level, ms, log);
    MseZero(c.approximation);
    Mse(c.approximation)
  }

  /** `filter_invalid` applied to the candidates, listed in ProposalOrder. */
  function Kept(ms: seq<Sample>, log: real -> real): (keep: seq<bool>)
    requires AllFittable(ms, log)
    ensures |keep| == |ProposalOrder|
    ensures forall level :: keep[Rank(level)] == Survives(level, ms, log)
  {
    seq(3, i requires 0 <= i < 3 => Survives(ProposalOrder[i], ms, log))
  }

  /** The candidates' mean squared errors, listed in ProposalOrder. */
  function Errors(ms: seq<Sample>, log: real -> real): (cost: seq<real>)
    requires AllFittable(ms, log) && |ms| > 0
    ensures |cost| == |ProposalOrder|
    ensures forall level :: cost[Rank(level)] == LevelError(level, ms, log)
  {
    seq(3, i requires 0 <= i < 3 => LevelError(ProposalOrder[i], ms, log))
  }

  /** What `best_complexity` ends with: None for fewer than four samples, the
      ValueError `min` raises when the filter keeps nothing, or a complexity. */
  datatype Selected = TooFewMeasurements | NoValidCandidate | Chosen(complexity: Complexity)

  /** `best_complexity`: too few samples below four; otherwise the candidate
      of the class `min` picks among the valid ones, or no valid candidate. */
  function BestComplexity(ms: seq<Sample>, log: real -> real): (r: Selected)
    requires |ms| >= 4 ==> AllFittable(ms, log)
    ensures r.TooFewMeasurements? <==> |ms| < 4
    ensures r.NoValidCandidate? <==> |ms| >= 4 && forall level :: !Survives(level, ms, log)
    ensures r.Chosen? ==> r.complexity == NewComplexity(r.complexity.level, ms, log)
  {
    if |ms| < 4 then TooFewMeasurements
    else
      var choice := ChooseLevel(Kept(ms, log), Errors(ms, log));
      if choice.None? then NoValidCandidate
      else Chosen(NewComplexity(choice.value, ms, log))
  }

  /** With four samples or more, the best complexity is for the class `min`
      picks, and there is none exactly when `min` has nothing to pick from. */
  lemma BestLevel(ms: seq<Sample>, log: real -> real)
    requires |ms| >= 4 && AllFittable(ms, log)
    ensures var choice := ChooseLevel(Kept(ms, log), Errors(ms, log));
      var r := BestComplexity(ms, log);
      && (r.Chosen? <==> choice.Some?)
      && (r.Chosen? ==> r.complexity.level == choice.value)
  {
  }

  /** The class chosen passes `filter_invalid`, and no valid class has a
      smaller mean squared error. */
  lemma BestComplexityIsMinimal(ms: seq<Sample>, log: real -> real, level: ComplexityLevel)
    requires |ms| >= 4 && AllFittable(ms, log)
    ensures var r := BestComplexity(ms, log);
      r.Chosen? ==>
        && Survives(r.complexity.level, ms, log)
        && (Survives(level, ms, log) ==>
          LevelError(r.complexity.level, ms, log) <= LevelError(level, ms, log))
  {
    BestLevel(ms, log);
  }

  /** On a tie the class proposed first wins: a valid class proposed before
      the chosen one has a strictly greater error. */
  lemma BestComplexityEarliest(ms: seq<Sample>, log: real -> real, level: ComplexityLevel)
    requires |ms| >= 4 && AllFittable(ms, log)
    ensures var r := BestComplexity(ms, log);
      r.Chosen? ==> Rank(level) < Rank(r.complexity.level) && Survives(level, ms, log) ==>
        LevelError(level, ms, log) > LevelError(r.complexity.level, ms, log)
  {
    BestLevel(ms, log);
  }
}
