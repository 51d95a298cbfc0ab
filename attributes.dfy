/** Attribute resolution: the trackable procs applied to one mailer. */
module Attributes {
  import opened Ruby
  import opened OrderedHash

  /** What `proc.call(mailer)` does: returns a value or raises. */
  datatype Call<V> = Returned(value: V) | Raised(error: Exception)

  /** A trackable proc. Its body is user code, so it is an uninterpreted
      function of the mailer instance. */
  type Proc<!M, V> = M -> Call<V>

  /** The configured trackables: attribute name to proc, in insertion order. */
  type Trackables<!M, V> = Hash<Proc<M, V>>

  /** What `fetch_attributes` produces: the fresh Hash of attribute name to
      value, or the exception a proc raised, which propagates. */
  datatype Fetch<V> = Fetched(attributes: Hash<V>) | Propagated(error: Exception)

  /** The position of the first proc that raises on `m`, if any. */
  function FirstRaise<M, V>(t: Trackables<M, V>, m: M): (r: Option<nat>)
    ensures r.None? <==> forall i :: 0 <= i < |t| ==> t[i].1(m).Returned?
    ensures r.Some? ==> r.value < |t| && t[r.value].1(m).Raised?
    ensures r.Some? ==> forall i :: 0 <= i < r.value ==> t[i].1(m).Returned?
    decreases |t|
  {
    if t == [] then None
    else if t[0].1(m).Raised? then Some(0)
    else
      match FirstRaise(t[1..], m)
      case None => None
      case Some(k) => Some(k + 1)
  }

  /** How many procs are called: all of them, or up to and including the
      first that raises. */
  function Invoked<M, V>(t: Trackables<M, V>, m: M): (n: nat)
    ensures n <= |t|
    ensures (forall i :: 0 <= i < |t| ==> t[i].1(m).Returned?) ==> n == |t|
    ensures (exists i :: 0 <= i < |t| && t[i].1(m).Raised?) ==> 0 < n && t[n - 1].1(m).Raised?
    ensures forall i :: 0 <= i < n - 1 ==> t[i].1(m).Returned?
  {
    match FirstRaise(t, m)
    case None => |t|
    case Some(k) => k + 1
  }

  /** Reference definition of `fetch_attributes`: every proc is called on
      `m`; if one raises, its exception (the first) is all that comes out;
      otherwise each name maps to its proc's value, in trackables order. */
  function Resolve<M, V>(t: Trackables<M, V>, m: M): (r: Fetch<V>)
    ensures t == [] ==> r == Fetched([])
    ensures r.Fetched? <==> forall i :: 0 <= i < |t| ==> t[i].1(m).Returned?
    ensures r.Fetched? ==> Keys(r.attributes) == Keys(t)
    ensures r.Fetched? ==> forall i :: 0 <= i < |t| ==> r.attributes[i] == (t[i].0, t[i].1(m).value)
    ensures r.Propagated? ==>
      exists k :: 0 <= k < |t| && t[k].1(m) == Raised(r.error) &&
        forall i :: 0 <= i < k ==> t[i].1(m).Returned?
  {
    match FirstRaise(t, m)
    case Some(k) => Propagated(t[k].1(m).error)
    case None => Fetched(seq(|t|, i requires 0 <= i < |t| => (t[i].0, t[i].1(m).value)))
  }

  /** Looking up a name in the fetched Hash gives what calling that name's
      proc gives, as returned; a name that is not trackable is absent. */
  lemma FetchedLookup<M, V>(t: Trackables<M, V>, m: M, k: string)
    requires Resolve(t, m).Fetched?
    ensures Lookup(Resolve(t, m).attributes, k) ==
      match Lookup(t, k)
      case None => None
      case Some(p) => Some(p(m).value)
  {
  }
}
