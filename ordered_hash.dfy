/** A Ruby Hash with string keys: its entries in insertion order. */
module OrderedHash {
  import opened Ruby

  type Hash<V> = seq<(string, V)>

  function Keys<V>(h: Hash<V>): seq<string>
  {
    seq(|h|, i requires 0 <= i < |h| => h[i].0)
  }

  /** Every key occurs once, as in any Hash built by `Put`. */
  predicate DistinctKeys<V>(h: Hash<V>)
  {
    forall i, j :: 0 <= i < j < |h| ==> h[i].0 != h[j].0
  }

  /** Position of the entry for `k`, if any. */
  function IndexOf<V>(h: Hash<V>, k: string): (r: Option<nat>)
    ensures r.None? <==> k !in Keys(h)
    ensures r.Some? ==> r.value < |h| && h[r.value].0 == k
    ensures r.Some? ==> forall j :: 0 <= j < r.value ==> h[j].0 != k
    decreases |h|
  {
    if h == [] then None
    else if h[0].0 == k then
      assert Keys(h)[0] == k;
      Some(0)
    else
      assert Keys(h) == [h[0].0] + Keys(h[1..]);
      match IndexOf(h[1..], k)
      case None => None
      case Some(i) => Some(i + 1)
  }

  /** `h[k]`: the value stored under `k`, or nil. */
  function Lookup<V>(h: Hash<V>, k: string): Option<V>
  {
    match IndexOf(h, k)
    case None => None
    case Some(i) => Some(h[i].1)
  }

  /** Two hashes with the same keys in the same order place every key alike. */
  lemma {:induction false} IndexOfSameKeys<V, W>(a: Hash<V>, b: Hash<W>, k: string)
    requires Keys(a) == Keys(b)
    ensures IndexOf(a, k) == IndexOf(b, k)
  {
    if a != [] {
      assert |b| == |a|;
      assert a[0].0 == Keys(a)[0] == Keys(b)[0] == b[0].0;
      assert Keys(a[1..]) == Keys(a)[1..] == Keys(b)[1..] == Keys(b[1..]);
      IndexOfSameKeys(a[1..], b[1..], k);
    }
  }

  /** `h[k] = v`: replaces the value of an existing key in its place, and
      appends a new key at the end. */
  function Put<V>(h: Hash<V>, k: string, v: V): (r: Hash<V>)
    ensures k in Keys(h) ==> Keys(r) == Keys(h)
    ensures k !in Keys(h) ==> r == h + [(k, v)]
    ensures Lookup(r, k) == Some(v)
    ensures forall k' :: k' != k ==> Lookup(r, k') == Lookup(h, k')
    ensures DistinctKeys(h) ==> DistinctKeys(r)
  {
    match IndexOf(h, k)
    case None =>
      var r := h + [(k, v)];
      assert Keys(r) == Keys(h) + [k];
      assert Keys(r)[|h|] == k;
      assert forall j :: 0 <= j < |h| ==> r[j] == h[j] && Keys(h)[j] == h[j].0;
      assert IndexOf(r, k) == Some(|h|);
      assert forall k' :: k' != k ==> IndexOf(r, k') == IndexOf(h, k') by {
        forall k' | k' != k ensures IndexOf(r, k') == IndexOf(h, k') {
          if k' in Keys(h) {
            var i := IndexOf(h, k').value;
            assert Keys(r)[i] == k';
          }
        }
      }
      r
    case Some(i) =>
      var r := h[i := (k, v)];
      assert Keys(r) == Keys(h);
      assert forall k' :: IndexOf(r, k') == IndexOf(h, k') by {
        forall k' ensures IndexOf(r, k') == IndexOf(h, k') { IndexOfSameKeys(r, h, k'); }
      }
      r
  }
}
