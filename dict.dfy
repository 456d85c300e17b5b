/** A Python dict, seen as the list of its (key, value) entries in insertion
    order, which is the order `items()` yields them in. */
module Dict {
  import opened Optional

  function Keys<K, V>(d: seq<(K, V)>): set<K> {
    set i | 0 <= i < |d| :: d[i].0
  }

  predicate DistinctKeys<K(==), V>(d: seq<(K, V)>) {
    forall i, j :: 0 <= i < j < |d| ==> d[i].0 != d[j].0
  }

  /** d[k], or None when k is not a key of d. */
  function Get<K(==), V>(d: seq<(K, V)>, k: K): (r: Option<V>)
    ensures r.None? <==> k !in Keys(d)
    decreases |d|
  {
    if |d| == 0 then None
    else if d[0].0 == k then Some(d[0].1)
    else Get(d[1..], k)
  }

  /** `d[k] = v`: an existing key keeps its place and takes the new value,
      a new key is added last. */
  function Put<K(==), V>(d: seq<(K, V)>, k: K, v: V): (r: seq<(K, V)>)
    requires DistinctKeys(d)
    ensures DistinctKeys(r) && Keys(r) == Keys(d) + {k}
    ensures k !in Keys(d) ==> r == d + [(k, v)]
    decreases |d|
  {
    if |d| == 0 then
      assert Keys([(k, v)]) == {k} by { assert [(k, v)][0].0 == k; }
      [(k, v)]
    else if d[0].0 == k then
      var r := [(k, v)] + d[1..];
      assert r == d[0 := (k, v)];
      forall i, j | 0 <= i < j < |r| ensures r[i].0 != r[j].0 {
        assert r[i].0 == d[i].0 && r[j].0 == d[j].0;
      }
      assert Keys(r) == Keys(d) by {
        forall x ensures x in Keys(r) <==> x in Keys(d) {
          if x in Keys(d) { var i :| 0 <= i < |d| && d[i].0 == x; assert r[i].0 == x; }
          if x in Keys(r) { var i :| 0 <= i < |r| && r[i].0 == x; assert d[i].0 == x; }
        }
      }
      r
    else
      KeysOfTail(d);
      var rest := Put(d[1..], k, v);
      PutBehindHead(d, k, v, rest);
      [d[0]] + rest
  }

  /** Put on a dict whose first key is not k keeps that first entry and
      puts into the rest. */
  lemma PutBehindHead<K, V>(d: seq<(K, V)>, k: K, v: V, rest: seq<(K, V)>)
    requires DistinctKeys(d) && |d| > 0 && d[0].0 != k
    requires DistinctKeys(rest) && Keys(rest) == Keys(d[1..]) + {k}
    requires k !in Keys(d[1..]) ==> rest == d[1..] + [(k, v)]
    ensures DistinctKeys([d[0]] + rest) && Keys([d[0]] + rest) == Keys(d) + {k}
    ensures k !in Keys(d) ==> [d[0]] + rest == d + [(k, v)]
  {
    KeysOfTail(d);
    KeysCons(d[0], rest);
    var r := [d[0]] + rest;
    forall i, j | 0 <= i < j < |r| ensures r[i].0 != r[j].0 {
      if i > 0 { assert r[i] == rest[i - 1] && r[j] == rest[j - 1]; }
      else { assert r[j].0 in Keys(rest); }
    }
    if k !in Keys(d) {
      assert d == [d[0]] + d[1..];
    }
  }

  /** Put on an existing key overwrites its entry in place. */
  lemma {:induction false} PutExistingKey<K, V>(d: seq<(K, V)>, k: K, v: V, i: nat)
    requires DistinctKeys(d) && i < |d| && d[i].0 == k
    ensures Put(d, k, v) == d[i := (k, v)]
    decreases |d|
  {
    if d[0].0 != k {
      KeysOfTail(d);
      PutExistingKey(d[1..], k, v, i - 1);
      assert [d[0]] + d[1..][i - 1 := (k, v)] == d[i := (k, v)];
    }
  }

  lemma KeysCons<K, V>(x: (K, V), s: seq<(K, V)>)
    ensures Keys([x] + s) == {x.0} + Keys(s)
  {
    var r := [x] + s;
    forall y | y in Keys(r) ensures y in {x.0} + Keys(s) {
      var i :| 0 <= i < |r| && r[i].0 == y;
      if i > 0 { assert s[i - 1].0 == y; }
    }
    forall y | y in Keys(s) ensures y in Keys(r) {
      var i :| 0 <= i < |s| && s[i].0 == y;
      assert r[i + 1].0 == y;
    }
    assert r[0].0 == x.0;
  }

  lemma KeysOfTail<K, V>(d: seq<(K, V)>)
    requires DistinctKeys(d) && |d| > 0
    ensures DistinctKeys(d[1..]) && Keys(d) == {d[0].0} + Keys(d[1..]) && d[0].0 !in Keys(d[1..])
  {
    assert d == [d[0]] + d[1..];
    KeysCons(d[0], d[1..]);

  }

  lemma KeysOfFront<K, V>(d: seq<(K, V)>)
    requires DistinctKeys(d) && |d| > 0
    ensures var n := |d| - 1;
      DistinctKeys(d[..n]) && Keys(d) == Keys(d[..n]) + {d[n].0} && d[n].0 !in Keys(d[..n])
  {
    var n := |d| - 1;
    assert forall i :: 0 <= i < n ==> d[..n][i] == d[i];
    assert d[n].0 in Keys(d);
  }

  /** The entries from position s on keep distinct keys, all keys of d. */
  lemma KeysOfDrop<K, V>(d: seq<(K, V)>, s: nat)
    requires DistinctKeys(d) && s <= |d|
    ensures DistinctKeys(d[s..]) && Keys(d[s..]) <= Keys(d)
  {
    forall x | x in Keys(d[s..]) ensures x in Keys(d) {
      var j :| 0 <= j < |d[s..]| && d[s..][j].0 == x;
      assert d[s + j].0 == x;
    }
  }

  /** Reading back what Put stored, and that Put leaves other keys alone. */
  lemma {:induction false} GetPut<K, V>(d: seq<(K, V)>, k: K, v: V, k': K)
    requires DistinctKeys(d)
    ensures Get(Put(d, k, v), k') == if k' == k then Some(v) else Get(d, k')
    decreases |d|
  {
    if |d| > 0 && d[0].0 != k {
      KeysOfTail(d);
      GetPut(d[1..], k, v, k');
    }
  }

  /** The entries of e stored one after the other with Put. */
  function PutAll<K(==), V>(d: seq<(K, V)>, e: seq<(K, V)>): (r: seq<(K, V)>)
    requires DistinctKeys(d)
    ensures DistinctKeys(r) && Keys(r) == Keys(d) + Keys(e)
    decreases |e|
  {
    if |e| == 0 then d
    else
      var front := e[..|e| - 1];
      assert Keys(e) == Keys(front) + {e[|e| - 1].0} by {
        assert forall i :: 0 <= i < |e| - 1 ==> front[i] == e[i];
      }
      Put(PutAll(d, front), e[|e| - 1].0, e[|e| - 1].1)
  }

  /** Storing one more entry is one more Put. */
  lemma PutAllSnoc<K, V>(d: seq<(K, V)>, e: seq<(K, V)>, x: (K, V))
    requires DistinctKeys(d)
    ensures PutAll(d, e + [x]) == Put(PutAll(d, e), x.0, x.1)
  {
    assert (e + [x])[..|e|] == e;
  }

  /** Storing entries with distinct keys into an empty dict gives them back in order. */
  lemma {:induction false} PutAllIntoEmpty<K, V>(e: seq<(K, V)>)
    requires DistinctKeys(e)
    ensures PutAll([], e) == e
    decreases |e|
  {
    if |e| > 0 {
      var front := e[..|e| - 1];
      PutAllIntoEmpty(front);
      assert e[|e| - 1].0 !in Keys(front);
      assert front + [e[|e| - 1]] == e;
    }
  }

  /** Storing a new key appends its entry. */
  lemma PutNewKey<K, V>(d: seq<(K, V)>, x: (K, V))
    requires DistinctKeys(d) && x.0 !in Keys(d)
    ensures Put(d, x.0, x.1) == d + [x]
  {
  }

  /** After storing the entries of e, a key of e reads as in e and any other
      key reads as before. */
  lemma {:induction false} GetPutAll<K, V>(d: seq<(K, V)>, e: seq<(K, V)>, k: K)
    requires DistinctKeys(d) && DistinctKeys(e)
    ensures Get(PutAll(d, e), k) == if k in Keys(e) then Get(e, k) else Get(d, k)
    decreases |e|
  {
    if |e| > 0 {
      var front, x := e[..|e| - 1], e[|e| - 1];
      KeysOfFront(e);
      assert front + [x] == e;
      PutAllSnoc(d, front, x);
      PutNewKey(front, x);
      GetPutAll(d, front, k);
      GetPut(PutAll(d, front), x.0, x.1, k);
      GetPut(front, x.0, x.1, k);
    }
  }
}
