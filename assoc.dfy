/** A JavaScript object used as a dictionary: string keys mapped to values, enumerated in the order
    the keys were first assigned. */
module Assoc {
  import opened Wrappers

  type List<V> = seq<(string, V)>

  function Keys<V>(l: List<V>): (r: seq<string>)
    ensures |r| == |l| && forall i :: 0 <= i < |l| ==> r[i] == l[i].0
  {
    seq(|l|, i requires 0 <= i < |l| => l[i].0)
  }

  /** No key appears twice. */
  ghost predicate Distinct<V>(l: List<V>) {
    forall i, j :: 0 <= i < j < |l| ==> l[i].0 != l[j].0
  }

  /** The position of `k`, or -1 when `k` is not a key. */
  function Find<V>(l: List<V>, k: string): (r: int)
    ensures -1 <= r < |l|
    ensures r >= 0 ==> l[r].0 == k && forall j :: 0 <= j < r ==> l[j].0 != k
    ensures r == -1 <==> k !in Keys(l)
  {
    if |l| == 0 then -1
    else if l[0].0 == k then 0
    else
      var r := Find(l[1..], k);
      assert Keys(l) == [l[0].0] + Keys(l[1..]);
      if r == -1 then -1 else r + 1
  }

  /** `o[k]`: the value stored under `k`, or `None` for `undefined`. */
  function Get<V>(l: List<V>, k: string): (r: Option<V>)
    ensures r.Some? <==> k in Keys(l)
  {
    var i := Find(l, k);
    if i == -1 then None else Some(l[i].1)
  }

  lemma GetAt<V>(l: List<V>, i: int)
    requires Distinct(l) && 0 <= i < |l|
    ensures Get(l, l[i].0) == Some(l[i].1)
  {
  }

  /** Two lists with the same keys in the same order find every key at the same position. */
  lemma FindByKeys<V, W>(a: List<V>, b: List<W>, k: string)
    requires Keys(a) == Keys(b)
    ensures Find(a, k) == Find(b, k)
  {
    var i, j := Find(a, k), Find(b, k);
    if i >= 0 && j >= 0 {
      assert Keys(a)[i] == k && Keys(b)[j] == k;
    }
  }

  lemma FindAppend<V>(l: List<V>, k: string, v: V, k': string)
    requires k !in Keys(l) && k' != k
    ensures Find(l + [(k, v)], k') == Find(l, k')
  {
    var r := l + [(k, v)];
    assert Keys(r) == Keys(l) + [k];
    var i, j := Find(r, k'), Find(l, k');
    if j >= 0 {
      assert r[j] == l[j];
    }
  }

  /** `o[k] = v`: an existing key keeps its position and takes the new value; a new key goes last. */
  function Put<V>(l: List<V>, k: string, v: V): (r: List<V>)
    ensures Get(r, k) == Some(v)
    ensures forall k' :: k' != k ==> Get(r, k') == Get(l, k')
    ensures k in Keys(l) ==> Keys(r) == Keys(l)
    ensures k !in Keys(l) ==> Keys(r) == Keys(l) + [k]
  {
    var i := Find(l, k);
    if i == -1 then
      var r := l + [(k, v)];
      assert Keys(r) == Keys(l) + [k];
      assert forall k' :: k' != k ==> Find(r, k') == Find(l, k') by {
        forall k' | k' != k { FindAppend(l, k, v, k'); }
      }
      r
    else
      var r := l[i := (k, v)];
      assert Keys(r) == Keys(l);
      assert forall k' :: Find(r, k') == Find(l, k') by {
        forall k' { FindByKeys(r, l, k'); }
      }
      r
  }

  lemma PutDistinct<V>(l: List<V>, k: string, v: V)
    requires Distinct(l)
    ensures Distinct(Put(l, k, v))
  {
    var r := Put(l, k, v);
    if k !in Keys(l) {
      forall i, j | 0 <= i < j < |r| ensures r[i].0 != r[j].0 {
        if j == |l| { assert Keys(l)[i] == l[i].0; }
      }
    }
  }

  /** Assigning an existing key replaces its entry where it stands. */
  lemma PutExisting<V>(l: List<V>, i: int, v: V)
    requires 0 <= i < |l| && Distinct(l)
    ensures Put(l, l[i].0, v) == l[i := (l[i].0, v)]
  {
  }

  /** Assigning a new key appends one entry. */
  lemma PutNew<V>(l: List<V>, k: string, v: V)
    requires k !in Keys(l)
    ensures Put(l, k, v) == l + [(k, v)]
  {
  }

  /** Assigning the same key twice keeps only the second value, where the first put it. */
  lemma PutPut<V>(l: List<V>, k: string, v: V, w: V)
    requires Distinct(l)
    ensures Put(Put(l, k, v), k, w) == Put(l, k, w)
  {
    PutDistinct(l, k, v);
    if k in Keys(l) {
      var i := Find(l, k);
      PutExisting(l, i, v);
      PutExisting(Put(l, k, v), i, w);
      PutExisting(l, i, w);
    } else {
      PutNew(l, k, v);
      PutNew(l, k, w);
      assert (l + [(k, v)])[|l|].0 == k;
      PutExisting(l + [(k, v)], |l|, w);
    }
  }
}
