/** The script variant's `ComplexityDeterminant`: it keeps a size→time table
    across calls, fills it by running the tested function on every problem of
    its map, wipes it whenever a call raises, and hands it to
    `best_complexity` after calling the clean-up function. */
module Determinant {
  import opened Optional
  import opened Dict
  import opened Measuring
  import opened Approximation
  import opened ScriptComplexity

  /** The calls before the first total timeout (the 30 s `TOTAL_TIMEOUT`
      alarm around the whole loop), which ends the loop. */
  function FirstTotalTimeout(outcomes: seq<CallOutcome>): (k: nat)
    ensures k <= |outcomes|
    ensures forall i :: 0 <= i < k ==> !outcomes[i].TotalTimeout?
    ensures k < |outcomes| ==> outcomes[k].TotalTimeout?
    decreases |outcomes|
  {
    if |outcomes| == 0 then 0
    else if outcomes[0].TotalTimeout? then 0
    else 1 + FirstTotalTimeout(outcomes[1..])
  }

  /** One pass of the loop body of `__measure_time`: a success stores its
      time under its size, a raising call replaces the whole table by `{}`,
      and a per-problem timeout (the 10 s `SINGLE_TIMEOUT`) is logged and
      changes nothing. */
  function Step(table: seq<Sample>, size: real, o: CallOutcome): (r: seq<Sample>)
    requires DistinctKeys(table) && !o.TotalTimeout?
    ensures DistinctKeys(r)
  {
    match o
    case Success(time) => Put(table, size, time)
    case Raised => []
    case SingleTimeout => table
  }

  /** The table after the loop body has run for every problem of items. */
  function Processed<P>(table: seq<Sample>, items: seq<(real, P)>, outcomes: seq<CallOutcome>): (r: seq<Sample>)
    requires DistinctKeys(table) && |items| == |outcomes|
    requires forall i :: 0 <= i < |outcomes| ==> !outcomes[i].TotalTimeout?
    ensures DistinctKeys(r)
    decreases |items|
  {
    if |items| == 0 then table
    else
      var n := |items| - 1;
      Step(Processed(table, items[..n], outcomes[..n]), items[n].0, outcomes[n])
  }

  /** The table `__measure_time` leaves: the loop runs up to the first total timeout. */
  function Run<P>(table: seq<Sample>, items: seq<(real, P)>, outcomes: seq<CallOutcome>): (r: seq<Sample>)
    requires DistinctKeys(table) && |items| == |outcomes|
    ensures DistinctKeys(r)
  {
    var k := FirstTotalTimeout(outcomes);
    Processed(table, items[..k], outcomes[..k])
  }

  /** Where the last wipe happened: one past the last raising call, or 0
      when no call raised. */
  function AfterLastRaise(outcomes: seq<CallOutcome>): (s: nat)
    ensures s <= |outcomes|
    ensures s > 0 ==> outcomes[s - 1].Raised?
    ensures forall i :: s <= i < |outcomes| ==> !outcomes[i].Raised?
    decreases |outcomes|
  {
    if |outcomes| == 0 then 0
    else if outcomes[|outcomes| - 1].Raised? then |outcomes|
    else AfterLastRaise(outcomes[..|outcomes| - 1])
  }

  /** The loop body run once more extends the run by one Step. */
  lemma ProcessedSnoc<P>(table: seq<Sample>, items: seq<(real, P)>, outcomes: seq<CallOutcome>, i: nat)
    requires DistinctKeys(table) && |items| == |outcomes| && i < FirstTotalTimeout(outcomes)
    ensures Processed(table, items[..i + 1], outcomes[..i + 1])
      == Step(Processed(table, items[..i], outcomes[..i]), items[i].0, outcomes[i])
  {
    assert items[..i + 1][..i] == items[..i];
    assert outcomes[..i + 1][..i] == outcomes[..i];
  }

  /** A last call that does not raise extends the last stretch by one Step. */
  lemma StretchStep<P>(base: seq<Sample>, items: seq<(real, P)>, outcomes: seq<CallOutcome>, s: nat)
    requires DistinctKeys(base) && |items| == |outcomes| && s < |items|
    requires !outcomes[|items| - 1].Raised? && !outcomes[|items| - 1].TotalTimeout?
    ensures var n := |items| - 1;
      PutAll(base, SuccessEntries(items[s..], outcomes[s..]))
        == Step(PutAll(base, SuccessEntries(items[s..n], outcomes[s..n])), items[n].0, outcomes[n])
  {
    var n := |items| - 1;
    SuccessEntriesLast(items, outcomes, s);
    var e := SuccessEntries(items[s..n], outcomes[s..n]);
    if outcomes[n].Success? {
      var x := (items[n].0, outcomes[n].time);
      assert SuccessEntries(items[s..], outcomes[s..]) == e + [x];
      PutAllSnoc(base, e, x);
    } else {
      assert SuccessEntries(items[s..], outcomes[s..]) == e + [];
      assert e + [] == e;
    }
  }

  /** The table after a run is the old table, or `{}` if some call raised,
      with the successes after the last raising call stored into it in order. */
  predicate IsLastStretch<P>(table: seq<Sample>, items: seq<(real, P)>, outcomes: seq<CallOutcome>)
    requires DistinctKeys(table) && |items| == |outcomes|
    requires forall i :: 0 <= i < |outcomes| ==> !outcomes[i].TotalTimeout?
  {
    var s := AfterLastRaise(outcomes);
    Processed(table, items, outcomes)
      == PutAll(if s == 0 then table else [], SuccessEntries(items[s..], outcomes[s..]))
  }

  /** Every run ends in the table IsLastStretch describes, by induction on
      the number of calls. */
  lemma {:induction false} ProcessedIsLastStretch<P>(table: seq<Sample>, items: seq<(real, P)>, outcomes: seq<CallOutcome>)
    requires DistinctKeys(table) && |items| == |outcomes|
    requires forall i :: 0 <= i < |outcomes| ==> !outcomes[i].TotalTimeout?
    ensures var s := AfterLastRaise(outcomes);
      Processed(table, items, outcomes)
        == PutAll(if s == 0 then table else [], SuccessEntries(items[s..], outcomes[s..]))
    decreases |items|
  {
    if |items| > 0 {
      var n := |items| - 1;
      ProcessedIsLastStretch(table, items[..n], outcomes[..n]);
      LastStretchStep(table, items, outcomes);
    }
  }

  /** One more call keeps the table the last stretch of the run. */
  lemma LastStretchStep<P>(table: seq<Sample>, items: seq<(real, P)>, outcomes: seq<CallOutcome>)
    requires DistinctKeys(table) && |items| == |outcomes| && |items| > 0
    requires forall i :: 0 <= i < |outcomes| ==> !outcomes[i].TotalTimeout?
    requires IsLastStretch(table, items[..|items| - 1], outcomes[..|items| - 1])
    ensures IsLastStretch(table, items, outcomes)
  {
    var n := |items| - 1;
    var front, frontO := items[..n], outcomes[..n];
    assert Processed(table, items, outcomes) == Step(Processed(table, front, frontO), items[n].0, outcomes[n]);
    if outcomes[n].Raised? {
      assert AfterLastRaise(outcomes) == n + 1;
      assert items[n + 1..] == [] && outcomes[n + 1..] == [];
    } else {
      var s := AfterLastRaise(frontO);
      assert AfterLastRaise(outcomes) == s;
      StretchStep(if s == 0 then table else [], items, outcomes, s);
    }
  }

  /** A run only adds sizes of the map to the table; when no call raised,
      every old key is still there. */
  lemma ProcessedKeys<P>(table: seq<Sample>, items: seq<(real, P)>, outcomes: seq<CallOutcome>)
    requires DistinctKeys(table) && DistinctKeys(items) && |items| == |outcomes|
    requires forall i :: 0 <= i < |outcomes| ==> !outcomes[i].TotalTimeout?
    ensures var s, r := AfterLastRaise(outcomes), Processed(table, items, outcomes);
      && Keys(r) <= (if s == 0 then Keys(table) else {}) + Keys(items)
      && (s == 0 ==> Keys(table) <= Keys(r))
  {
    var s := AfterLastRaise(outcomes);
    ProcessedIsLastStretch(table, items, outcomes);
    KeysOfDrop(items, s);
    SuccessEntriesKeys(items[s..], outcomes[s..]);
  }

  /** Storing the successes of a stretch of calls into a dict: the size of
      call j reads its time if the call succeeded, and as before otherwise. */
  lemma StretchAt<P>(base: seq<Sample>, later: seq<(real, P)>, laterO: seq<CallOutcome>, j: nat)
    requires DistinctKeys(base) && DistinctKeys(later) && |later| == |laterO| && j < |later|
    ensures Get(PutAll(base, SuccessEntries(later, laterO)), later[j].0)
      == if laterO[j].Success? then Some(laterO[j].time) else Get(base, later[j].0)
  {
    var e := SuccessEntries(later, laterO);
    SuccessEntriesKeys(later, laterO);
    SuccessEntriesAt(later, laterO, j);
    GetPutAll(base, e, later[j].0);
  }

  /** A key that is no size of the stretch reads as before. */
  lemma StretchElsewhere<P>(base: seq<Sample>, later: seq<(real, P)>, laterO: seq<CallOutcome>, x: real)
    requires DistinctKeys(base) && DistinctKeys(later) && |later| == |laterO| && x !in Keys(later)
    ensures Get(PutAll(base, SuccessEntries(later, laterO)), x) == Get(base, x)
  {
    var e := SuccessEntries(later, laterO);
    SuccessEntriesKeys(later, laterO);
    GetPutAll(base, e, x);
  }

  /** The size of a call after the last raising one reads that call's time
      if it succeeded; otherwise it reads as before the run when no call
      raised, and is absent after a wipe. */
  lemma ProcessedAt<P>(table: seq<Sample>, items: seq<(real, P)>, outcomes: seq<CallOutcome>, i: nat)
    requires DistinctKeys(table) && DistinctKeys(items) && |items| == |outcomes|
    requires forall j :: 0 <= j < |outcomes| ==> !outcomes[j].TotalTimeout?
    requires AfterLastRaise(outcomes) <= i < |items|
    ensures var s := AfterLastRaise(outcomes);
      Get(Processed(table, items, outcomes), items[i].0)
        == if outcomes[i].Success? then Some(outcomes[i].time)
           else if s == 0 then Get(table, items[i].0) else None
  {
    var s := AfterLastRaise(outcomes);
    ProcessedIsLastStretch(table, items, outcomes);
    KeysOfDrop(items, s);
    StretchAt(if s == 0 then table else [], items[s..], outcomes[s..], i - s);
  }

  /** A key that is the size of no call after the last raising one reads as
      before the run when no call raised, and is absent after a wipe. */
  lemma ProcessedElsewhere<P>(table: seq<Sample>, items: seq<(real, P)>, outcomes: seq<CallOutcome>, x: real)
    requires DistinctKeys(table) && DistinctKeys(items) && |items| == |outcomes|
    requires forall j :: 0 <= j < |outcomes| ==> !outcomes[j].TotalTimeout?
    requires x !in Keys(items[AfterLastRaise(outcomes)..])
    ensures Get(Processed(table, items, outcomes), x)
      == if AfterLastRaise(outcomes) == 0 then Get(table, x) else None
  {
    var s := AfterLastRaise(outcomes);
    ProcessedIsLastStretch(table, items, outcomes);
    KeysOfDrop(items, s);
    StretchElsewhere(if s == 0 then table else [], items[s..], outcomes[s..], x);
  }

  /** The table is never reset by a run in which no call raised: the old
      keys stay, and a key no call succeeded for keeps its old time. */
  lemma RunKeepsTable<P>(table: seq<Sample>, items: seq<(real, P)>, outcomes: seq<CallOutcome>)
    requires DistinctKeys(table) && DistinctKeys(items) && |items| == |outcomes|
    requires forall i :: 0 <= i < |outcomes| ==> !outcomes[i].Raised?
    ensures Keys(table) <= Keys(Run(table, items, outcomes))
    ensures forall x :: (forall i :: 0 <= i < |items| && items[i].0 == x ==> !outcomes[i].Success?) ==>
      Get(Run(table, items, outcomes), x) == Get(table, x)
  {
    var k := FirstTotalTimeout(outcomes);
    var front, frontO := items[..k], outcomes[..k];
    assert DistinctKeys(front);
    assert AfterLastRaise(frontO) == 0;
    ProcessedKeys(table, front, frontO);
    forall x | forall i :: 0 <= i < |items| && items[i].0 == x ==> !outcomes[i].Success?
      ensures Get(Processed(table, front, frontO), x) == Get(table, x)
    {
      if i :| 0 <= i < k && front[i].0 == x {
        assert front[i] == items[i] && frontO[i] == outcomes[i];
        ProcessedAt(table, front, frontO, i);
      } else {
        assert front[0..] == front;
        ProcessedElsewhere(table, front, frontO, x);
      }
    }
  }

  /** What `complexity` ends with: the total timeout escaping it, or the
      result of `best_complexity`. */
  datatype Answer = Escaped | Returned(selected: Selected)

  /** `ComplexityDeterminant`: the problem map, the table of measurements,
      and the calls made so far of the tested and the clean-up function. */
  class ComplexityDeterminant<P> {
    const structuresMap: seq<(real, P)>
    var measurements: seq<Sample>
    var trace: seq<Event>

    predicate Valid()
      reads this
    {
      DistinctKeys(structuresMap) && DistinctKeys(measurements)
    }

    /** `__init__`: keeps the map and starts with an empty table. */
    constructor (structuresMap: seq<(real, P)>)
      requires DistinctKeys(structuresMap)
      ensures Valid()
      ensures this.structuresMap == structuresMap && measurements == [] && trace == []
    {
      this.structuresMap := structuresMap;
      measurements := [];
      trace := [];
    }

    /** `__measure_time`: runs the tested function on every problem in the
      map's order and updates the table in place; a total timeout stops the
      loop and escapes, reported here as `interrupted`. */
    method MeasureTime(outcomes: seq<CallOutcome>) returns (interrupted: bool)
      requires Valid() && |outcomes| == |structuresMap|
      modifies this
      ensures Valid()
      ensures measurements == Run(old(measurements), structuresMap, outcomes)
      ensures trace == old(trace) + TestedEvents(structuresMap[..Started(FirstTotalTimeout(outcomes), |structuresMap|)])
      ensures interrupted <==> FirstTotalTimeout(outcomes) < |structuresMap|
    {
      interrupted := false;
      ghost var start, log := measurements, trace;
      var i := 0;
      while i < |structuresMap|
        invariant i <= FirstTotalTimeout(outcomes)
        invariant Valid()
        invariant measurements == Processed(start, structuresMap[..i], outcomes[..i])
        invariant trace == log + TestedEvents(structuresMap[..i])
        decreases |structuresMap| - i
      {
        var size := structuresMap[i].0;
        TraceSnoc(log, structuresMap, i);
        trace := trace + [Tested(size)];
        if outcomes[i].TotalTimeout? {
          interrupted := true;
          break;
        }
        ProcessedSnoc(start, structuresMap, outcomes, i);
        Record(size, outcomes[i]);
        i := i + 1;
      }
    }

    /** The handlers of one call of the tested function in `__measure_time`:
      a success stores its time under its size, an exception replaces the
      table by `{}`, and a per-problem timeout is only logged. */
    method Record(size: real, o: CallOutcome)
      requires Valid() && !o.TotalTimeout?
      modifies this
      ensures Valid() && measurements == Step(old(measurements), size, o) && trace == old(trace)
    {
      match o {
        case Success(time) =>
          measurements := Put(measurements, size, time);
        case Raised =>
          measurements := [];
        case SingleTimeout =>
      }
    }

    /** The `complexity` property: measure, then call the clean-up function,
      then choose. A total timeout escapes from the measuring before the
      clean-up call; the table is not reset first, so it builds on what
      earlier calls left. */
    method Complexity(outcomes: seq<CallOutcome>, log: real -> real) returns (r: Answer)
      requires Valid() && |outcomes| == |structuresMap|
      requires FirstTotalTimeout(outcomes) == |structuresMap| ==>
        var table := Run(measurements, structuresMap, outcomes);
        |table| >= 4 ==> AllFittable(table, log)
      modifies this
      ensures Valid()
      ensures measurements == Run(old(measurements), structuresMap, outcomes)
      ensures FirstTotalTimeout(outcomes) < |structuresMap| ==>
        && r == Escaped
        && trace == old(trace) + TestedEvents(structuresMap[..FirstTotalTimeout(outcomes) + 1])
      ensures FirstTotalTimeout(outcomes) == |structuresMap| ==>
        && r == Returned(BestComplexity(measurements, log))
        && trace == old(trace) + TestedEvents(structuresMap) + [CleanedUp]
    {
      var interrupted := MeasureTime(outcomes);
      if interrupted {
        r := Escaped;
        return;
      }
      trace := trace + [CleanedUp];
      r := Returned(BestComplexity(measurements, log));
    }
  }
}
