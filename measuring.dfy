/** What a measurement loop sees of one call of the tested function, and the
    table of times that the successful calls leave behind. */
module Measuring {
  import opened Optional
  import opened Dict

  /** How one timed call of the tested function ended, as seen by the loop
      that made it: with a measured CPU time, with an exception of its own,
      with the per-problem timeout, or with the timeout for all problems. */
  datatype CallOutcome = Success(time: real) | Raised | SingleTimeout | TotalTimeout

  /** The observable steps of a run: a call of the tested function on the
      problem of one size, and the call of the clean-up function. */
  datatype Event = Tested(size: real) | CleanedUp

  /** A call cut short by one of the two timeouts. */
  predicate IsTimeout(o: CallOutcome) {
    o.SingleTimeout? || o.TotalTimeout?
  }

  /** How many of n calls were started when a loop stops at position stop:
      the call that was cut short was started too. */
  function Started(stop: nat, n: nat): nat
    requires stop <= n
  {
    if stop < n then stop + 1 else n
  }

  /** One Tested event per problem, in the problem map's order. */
  function TestedEvents<P>(items: seq<(real, P)>): (r: seq<Event>)
    ensures |r| == |items| && forall i :: 0 <= i < |items| ==> r[i] == Tested(items[i].0)
  {
    seq(|items|, i requires 0 <= i < |items| => Tested(items[i].0))
  }

  /** One more problem is one more Tested event, at the end. */
  lemma TestedEventsSnoc<P>(items: seq<(real, P)>, i: nat)
    requires i < |items|
    ensures TestedEvents(items[..i + 1]) == TestedEvents(items[..i]) + [Tested(items[i].0)]
  {
    var a, b := TestedEvents(items[..i + 1]), TestedEvents(items[..i]) + [Tested(items[i].0)];
    assert |a| == |b|;
    forall j | 0 <= j <= i ensures a[j] == b[j] { }
  }

  /** A log that already holds the events of a prefix grows by one Tested
      event for the next problem. */
  lemma TraceSnoc<P>(before: seq<Event>, items: seq<(real, P)>, i: nat)
    requires i < |items|
    ensures before + TestedEvents(items[..i + 1]) == before + TestedEvents(items[..i]) + [Tested(items[i].0)]
  {
    TestedEventsSnoc(items, i);
  }

  /** The (size, time) entries of the calls that succeeded, in order. */
  function SuccessEntries<P>(items: seq<(real, P)>, outcomes: seq<CallOutcome>): seq<(real, real)>
    requires |items| == |outcomes|
    decreases |items|
  {
    if |items| == 0 then []
    else
      var n := |items| - 1;
      SuccessEntries(items[..n], outcomes[..n])
        + (if outcomes[n].Success? then [(items[n].0, outcomes[n].time)] else [])
  }

  /** The successful calls' sizes are distinct sizes of the map. */
  lemma {:induction false} SuccessEntriesKeys<P>(items: seq<(real, P)>, outcomes: seq<CallOutcome>)
    requires |items| == |outcomes| && DistinctKeys(items)
    ensures DistinctKeys(SuccessEntries(items, outcomes))
    ensures Keys(SuccessEntries(items, outcomes)) <= Keys(items)
    decreases |items|
  {
    if |items| > 0 {
      var n := |items| - 1;
      KeysOfFront(items);
      SuccessEntriesKeys(items[..n], outcomes[..n]);
      if outcomes[n].Success? {
        PutNewKey(SuccessEntries(items[..n], outcomes[..n]), (items[n].0, outcomes[n].time));
      }
    }
  }

  /** One more problem: a success is one more `measurements[size] = time`. */
  lemma SuccessEntriesStep<P>(items: seq<(real, P)>, outcomes: seq<CallOutcome>, i: nat)
    requires |items| == |outcomes| && DistinctKeys(items) && i < |items|
    ensures DistinctKeys(SuccessEntries(items[..i], outcomes[..i]))
    ensures SuccessEntries(items[..i + 1], outcomes[..i + 1])
      == if outcomes[i].Success? then Put(SuccessEntries(items[..i], outcomes[..i]), items[i].0, outcomes[i].time)
         else SuccessEntries(items[..i], outcomes[..i])
  {
    var front := items[..i + 1];
    assert front[..i] == items[..i];
    assert outcomes[..i + 1][..i] == outcomes[..i];
    assert DistinctKeys(front);
    KeysOfFront(front);
    SuccessEntriesKeys(items[..i], outcomes[..i]);
    var e := SuccessEntries(items[..i], outcomes[..i]);
    if outcomes[i].Success? {
      PutNewKey(e, (items[i].0, outcomes[i].time));
    } else {
      assert e + [] == e;
    }
  }

  /** The entry for the size of problem i is that call's time when it succeeded. */
  lemma {:induction false} SuccessEntriesAt<P>(items: seq<(real, P)>, outcomes: seq<CallOutcome>, i: nat)
    requires |items| == |outcomes| && DistinctKeys(items) && i < |items|
    ensures Get(SuccessEntries(items, outcomes), items[i].0)
      == if outcomes[i].Success? then Some(outcomes[i].time) else None
    decreases |items|
  {
    var n := |items| - 1;
    var front, frontO := items[..n], outcomes[..n];
    KeysOfFront(items);
    SuccessEntriesKeys(front, frontO);
    var e := SuccessEntries(front, frontO);
    assert items[..n + 1] == items && outcomes[..n + 1] == outcomes;
    SuccessEntriesStep(items, outcomes, n);
    if i < n {
      assert front[i] == items[i] && frontO[i] == outcomes[i];
      SuccessEntriesAt(front, frontO, i);
      if outcomes[n].Success? {
        GetPut(e, items[n].0, outcomes[n].time, items[i].0);
      }
    } else if outcomes[n].Success? {
      GetPut(e, items[n].0, outcomes[n].time, items[n].0);
    } else {
      assert Keys(e) <= Keys(front);
    }
  }

  /** A size has an entry exactly when its call succeeded, and the entry is
      that call's time; no other key appears. */
  lemma SuccessEntriesLookup<P>(items: seq<(real, P)>, outcomes: seq<CallOutcome>)
    requires |items| == |outcomes| && DistinctKeys(items)
    ensures DistinctKeys(SuccessEntries(items, outcomes))
    ensures Keys(SuccessEntries(items, outcomes)) <= Keys(items)
    ensures forall i :: 0 <= i < |items| ==>
      Get(SuccessEntries(items, outcomes), items[i].0)
        == if outcomes[i].Success? then Some(outcomes[i].time) else None
  {
    SuccessEntriesKeys(items, outcomes);
    forall i | 0 <= i < |items|
      ensures Get(SuccessEntries(items, outcomes), items[i].0)
        == if outcomes[i].Success? then Some(outcomes[i].time) else None
    {
      SuccessEntriesAt(items, outcomes, i);
    }
  }

  /** A stretch that runs to the last problem ends with that problem's entry, if it succeeded. */
  /** At most one entry per call. */
  lemma {:induction false} SuccessEntriesLength<P>(items: seq<(real, P)>, outcomes: seq<CallOutcome>)
    requires |items| == |outcomes|
    ensures |SuccessEntries(items, outcomes)| <= |items|
    decreases |items|
  {
    if |items| > 0 {
      var n := |items| - 1;
      SuccessEntriesLength(items[..n], outcomes[..n]);
    }
  }

  lemma SuccessEntriesLast<P>(items: seq<(real, P)>, outcomes: seq<CallOutcome>, s: nat)
    requires |items| == |outcomes| && s < |items|
    ensures var n := |items| - 1;
      SuccessEntries(items[s..], outcomes[s..])
        == SuccessEntries(items[s..n], outcomes[s..n])
           + (if outcomes[n].Success? then [(items[n].0, outcomes[n].time)] else [])
  {
    var n := |items| - 1;
    assert items[s..][..n - s] == items[s..n];
    assert outcomes[s..][..n - s] == outcomes[s..n];
  }
}
