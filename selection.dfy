/** Python's `filter` / list comprehension over a list, and `min` with a key,
    as used to pick the winning candidate. */
module Selection {
  import opened Optional

  /** `min(xs, key=...)` given the keys: it keeps the first element and
      replaces it only by a strictly smaller one, so the first minimum wins. */
  function FirstMin(keys: seq<real>): (i: nat)
    requires |keys| > 0
    ensures i < |keys|
    ensures forall j :: 0 <= j < |keys| ==> keys[i] <= keys[j]
    ensures forall j :: 0 <= j < i ==> keys[j] > keys[i]
    decreases |keys|
  {
    var n := |keys| - 1;
    if n == 0 then 0
    else
      var best := FirstMin(keys[..n]);
      assert forall j :: 0 <= j < n ==> keys[..n][j] == keys[j];
      if keys[n] < keys[best] then n else best
  }

  /** The positions whose flag is set, in increasing order: what a filter keeps. */
  function KeptIndices(flags: seq<bool>): (idx: seq<nat>)
    ensures forall j :: 0 <= j < |idx| ==> idx[j] < |flags| && flags[idx[j]]
    ensures forall j, j' :: 0 <= j < j' < |idx| ==> idx[j] < idx[j']
    ensures forall i :: 0 <= i < |flags| && flags[i] ==> i in idx
    decreases |flags|
  {
    if |flags| == 0 then []
    else
      var n := |flags| - 1;
      var front := KeptIndices(flags[..n]);
      assert forall j :: 0 <= j < |front| ==> flags[front[j]] == flags[..n][front[j]];
      if flags[n] then front + [n] else front
  }

  /** The costs at the given positions, in the same order. */
  function CostsAt(cost: seq<real>, idx: seq<nat>): (keys: seq<real>)
    requires forall j :: 0 <= j < |idx| ==> idx[j] < |cost|
    ensures |keys| == |idx| && forall j :: 0 <= j < |idx| ==> keys[j] == cost[idx[j]]
  {
    seq(|idx|, j requires 0 <= j < |idx| => cost[idx[j]])
  }

  /** The first minimum over the kept positions is a minimum over every kept
      position. */
  lemma FirstMinOfKeptIsMinimal(keep: seq<bool>, cost: seq<real>)
    requires |keep| == |cost| && |KeptIndices(keep)| > 0
    ensures var idx := KeptIndices(keep);
      var best := idx[FirstMin(CostsAt(cost, idx))];
      forall i :: 0 <= i < |keep| && keep[i] ==> cost[best] <= cost[i]
  {
    var idx := KeptIndices(keep);
    var keys := CostsAt(cost, idx);
    var best := idx[FirstMin(keys)];
    forall i | 0 <= i < |keep| && keep[i] ensures cost[best] <= cost[i] {
      var j :| 0 <= j < |idx| && idx[j] == i;
      assert keys[j] == cost[i];
    }
  }

  /** Every kept position before the first minimum over the kept positions
      costs strictly more. */
  lemma FirstMinOfKeptIsEarliest(keep: seq<bool>, cost: seq<real>)
    requires |keep| == |cost| && |KeptIndices(keep)| > 0
    ensures var idx := KeptIndices(keep);
      var best := idx[FirstMin(CostsAt(cost, idx))];
      forall i :: 0 <= i < best && keep[i] ==> cost[i] > cost[best]
  {
    var idx := KeptIndices(keep);
    var keys := CostsAt(cost, idx);
    var m := FirstMin(keys);
    var best := idx[m];
    forall i | 0 <= i < best && keep[i] ensures cost[i] > cost[best] {
      var j :| 0 <= j < |idx| && idx[j] == i;
      assert j < m;
      assert keys[j] == cost[i];
    }
  }

  /** The position of `min(filter(keep, xs), key=cost)` in xs, or None when
      nothing is kept (where Python's `min` raises ValueError). */
  function BestIndex(keep: seq<bool>, cost: seq<real>): (r: Option<nat>)
    requires |keep| == |cost|
    ensures r.None? <==> forall i :: 0 <= i < |keep| ==> !keep[i]
    ensures r.Some? ==> r.value < |keep| && keep[r.value]
    ensures r.Some? ==> forall i :: 0 <= i < |keep| && keep[i] ==> cost[r.value] <= cost[i]
    ensures r.Some? ==> forall i :: 0 <= i < r.value && keep[i] ==> cost[i] > cost[r.value]
  {
    var idx := KeptIndices(keep);
    if |idx| == 0 then
      None
    else
      var best := idx[FirstMin(CostsAt(cost, idx))];
      assert keep[best];
      FirstMinOfKeptIsMinimal(keep, cost);
      FirstMinOfKeptIsEarliest(keep, cost);
      Some(best)
  }
}
