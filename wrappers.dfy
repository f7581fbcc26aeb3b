/** Optional values and results with an error, used for Python's `None`
    and for the exceptions the extraction code raises or catches; and the
    values of a run of optional results, which is how a loop that skips
    failed items collects the others. */
module Wrappers {

  datatype Option<+T> = None | Some(value: T)

  datatype Result<+T, +E> = Ok(value: T) | Err(error: E)

  /** The values of the Some entries of xs, in order. */
  function Somes<T>(xs: seq<Option<T>>): (r: seq<T>)
    ensures |r| <= |xs|
  {
    if |xs| == 0 then []
    else
      var last := xs[|xs| - 1];
      Somes(xs[..|xs| - 1]) + (if last.Some? then [last.value] else [])
  }

  /** f applied to each element of xs, in order. */
  function Map<A, B>(xs: seq<A>, f: A --> B): (r: seq<B>)
    requires forall i :: 0 <= i < |xs| ==> f.requires(xs[i])
    ensures |r| == |xs| && forall i :: 0 <= i < |xs| ==> r[i] == f(xs[i])
  {
    seq(|xs|, i requires 0 <= i < |xs| => f(xs[i]))
  }

  /** Mapping distributes over concatenation. */
  lemma MapAppend<A, B>(a: seq<A>, b: seq<A>, f: A --> B)
    requires forall i :: 0 <= i < |a| ==> f.requires(a[i])
    requires forall i :: 0 <= i < |b| ==> f.requires(b[i])
    ensures forall i :: 0 <= i < |a + b| ==> f.requires((a + b)[i])
    ensures Map(a + b, f) == Map(a, f) + Map(b, f)
  {
    assert forall i :: 0 <= i < |a + b| ==> (a + b)[i] == if i < |a| then a[i] else b[i - |a|];
  }

  /** Mapping a prefix one element longer adds that element's image. */
  lemma MapSnoc<A, B>(xs: seq<A>, i: nat, f: A -> B)
    requires i < |xs|
    ensures Map(xs[..i + 1], f) == Map(xs[..i], f) + [f(xs[i])]
  {
  }

  /** Collecting distributes over concatenation. */
  lemma {:induction false} SomesAppend<T>(a: seq<Option<T>>, b: seq<Option<T>>)
    ensures Somes(a + b) == Somes(a) + Somes(b)
    decreases |b|
  {
    if |b| == 0 {
      assert a + b == a;
    } else {
      var n := |b| - 1;
      assert (a + b)[..|a + b| - 1] == a + b[..n];
      assert (a + b)[|a + b| - 1] == b[n];
      SomesAppend(a, b[..n]);
    }
  }

  /** The positions of the Some entries of xs, in increasing order. */
  function SomeIndices<T>(xs: seq<Option<T>>): (idx: seq<nat>)
    ensures forall k :: 0 <= k < |idx| ==> idx[k] < |xs| && xs[idx[k]].Some?
    ensures forall k, l :: 0 <= k < l < |idx| ==> idx[k] < idx[l]
    ensures forall i :: 0 <= i < |xs| && xs[i].Some? ==> i in idx
  {
    if |xs| == 0 then []
    else
      var n := |xs| - 1;
      var rest := SomeIndices(xs[..n]);
      assert forall i :: 0 <= i < n ==> xs[..n][i] == xs[i];
      rest + (if xs[n].Some? then [n] else [])
  }

  /** Each collected value is the value of one Some entry, and they come
      in the order of their entries: the k-th value is the value at the
      k-th Some position. */
  lemma {:induction false} SomesOrigin<T>(xs: seq<Option<T>>)
    ensures |Somes(xs)| == |SomeIndices(xs)|
    ensures forall k :: 0 <= k < |Somes(xs)| ==> Some(Somes(xs)[k]) == xs[SomeIndices(xs)[k]]
  {
    if |xs| > 0 {
      var n := |xs| - 1;
      SomesOrigin(xs[..n]);
      assert forall i :: 0 <= i < n ==> xs[..n][i] == xs[i];
    }
  }

  /** Every collected value comes from some entry. */
  lemma SomesMember<T>(xs: seq<Option<T>>, t: T)
    requires t in Somes(xs)
    ensures exists i :: 0 <= i < |xs| && xs[i] == Some(t)
  {
    SomesOrigin(xs);
    var k :| 0 <= k < |Somes(xs)| && Somes(xs)[k] == t;
    assert xs[SomeIndices(xs)[k]] == Some(t);
  }

  /** The index of the first Some entry of xs: where a leftmost search
      over the offsets of a text succeeds first. */
  function FirstSome<T>(xs: seq<Option<T>>): (r: Option<nat>)
    ensures r.Some? ==> r.value < |xs| && xs[r.value].Some?
    ensures r.Some? ==> forall i :: 0 <= i < r.value ==> xs[i].None?
    ensures r.None? ==> forall i :: 0 <= i < |xs| ==> xs[i].None?
  {
    if |xs| == 0 then None
    else if xs[0].Some? then Some(0)
    else
      match FirstSome(xs[1..])
      case Some(i) => Some(i + 1)
      case None => None
  }
}
