/** Options, results, and the order-preserving sequence operations that the
    rest of the model shares. */
module Sequences {

  datatype Option<+T> = None | Some(value: T)

  datatype Result<+T, +E> = Ok(value: T) | Err(error: E) {
    predicate IsFailure() { Err? }

    function PropagateFailure<U>(): Result<U, E>
      requires Err?
    {
      Err(error)
    }

    function Extract(): T
      requires Ok?
    {
      value
    }
  }

  lemma ConcatUnit<T>(xs: seq<T>)
    ensures [] + xs == xs && xs + [] == xs
  {
  }

  lemma ConcatAssoc<T>(a: seq<T>, b: seq<T>, c: seq<T>)
    ensures a + (b + c) == a + b + c
  {
  }

  ghost predicate Distinct<T(!new)>(xs: seq<T>) {
    forall i, j :: 0 <= i < j < |xs| ==> xs[i] != xs[j]
  }

  /** The distinct elements of `xs`, each at the place of its first occurrence. */
  function Dedupe<T(==)>(xs: seq<T>): seq<T> {
    if xs == [] then []
    else
      var init, last := xs[..|xs| - 1], xs[|xs| - 1];
      if last in init then Dedupe(init) else Dedupe(init) + [last]
  }

  lemma {:induction false} DedupeMembers<T(!new)>(xs: seq<T>)
    ensures Distinct(Dedupe(xs))
    ensures forall x :: x in Dedupe(xs) <==> x in xs
  {
    if xs != [] {
      var init, last := xs[..|xs| - 1], xs[|xs| - 1];
      assert xs == init + [last];
      DedupeMembers(init);
    }
  }

  function FirstIndex<T(==, !new)>(xs: seq<T>, x: T): (i: nat)
    requires x in xs
    ensures i < |xs| && xs[i] == x && x !in xs[..i]
  {
    if xs[0] == x then 0
    else
      assert xs == [xs[0]] + xs[1..];
      var k := FirstIndex(xs[1..], x);
      assert xs[..1 + k] == [xs[0]] + xs[1..][..k];
      1 + k
  }

  /** Every element of `xs` occurs in `ys`, and they occur there in the order of `xs`. */
  ghost predicate InOrder<T(!new)>(xs: seq<T>, ys: seq<T>) {
    && (forall x :: x in xs ==> x in ys)
    && (forall i, j, p, q ::
          0 <= i < j < |xs| && 0 <= p < |ys| && 0 <= q < |ys| && ys[p] == xs[i] && ys[q] == xs[j]
          ==> p < q)
  }

  lemma DedupeSnoc<T(!new)>(xs: seq<T>, x: T)
    ensures Dedupe(xs + [x]) == if x in xs then Dedupe(xs) else Dedupe(xs) + [x]
  {
    assert (xs + [x])[..|xs + [x]| - 1] == xs;
  }

  /** `Dedupe` keeps the elements in the order of their first occurrences. */
  lemma {:induction false} DedupeKeepsFirstOccurrences<T(!new)>(xs: seq<T>, i: nat, j: nat)
    requires i < j < |Dedupe(xs)|
    ensures Dedupe(xs)[i] in xs && Dedupe(xs)[j] in xs
    ensures FirstIndex(xs, Dedupe(xs)[i]) < FirstIndex(xs, Dedupe(xs)[j])
  {
    var init, last := xs[..|xs| - 1], xs[|xs| - 1];
    assert xs == init + [last];
    var d := Dedupe(init);
    DedupeMembers(init);
    DedupeMembers(xs);
    FirstIndexOfPrefix(init, [last], Dedupe(xs)[i]);
    if j < |d| {
      DedupeKeepsFirstOccurrences(init, i, j);
      FirstIndexOfPrefix(init, [last], Dedupe(xs)[j]);
    } else {
      assert last !in init && Dedupe(xs)[j] == last;
      assert d[i] in init;
      assert xs[FirstIndex(xs, last)] == last;
    }
  }

  lemma FirstIndexOfPrefix<T(!new)>(a: seq<T>, b: seq<T>, x: T)
    ensures x in a ==> x in a + b && FirstIndex(a + b, x) == FirstIndex(a, x)
  {
    if x in a {
      var k := FirstIndex(a, x);
      assert (a + b)[k] == x && (a + b)[..k] == a[..k];
      FirstIndexIs(a + b, x, k);
    }
  }

  lemma FirstIndexIs<T(!new)>(xs: seq<T>, x: T, k: nat)
    requires k < |xs| && xs[k] == x && x !in xs[..k]
    ensures FirstIndex(xs, x) == k
  {
    var i := FirstIndex(xs, x);
    assert forall m :: 0 <= m < k ==> xs[m] == xs[..k][m];
    assert forall m :: 0 <= m < i ==> xs[m] == xs[..i][m];
  }

  lemma {:induction false} DedupeOfDistinct<T(!new)>(xs: seq<T>)
    requires Distinct(xs)
    ensures Dedupe(xs) == xs
  {
    if xs != [] {
      var init, last := xs[..|xs| - 1], xs[|xs| - 1];
      assert xs == init + [last];
      forall i, j | 0 <= i < j < |init| ensures init[i] != init[j] {
        assert xs[i] != xs[j];
      }
      DedupeOfDistinct(init);
      assert forall k :: 0 <= k < |init| ==> init[k] == xs[k];
    }
  }

  /** Filters a sequence by a predicate, in order. */
  function Select<T(!new)>(xs: seq<T>, keep: T -> bool): (r: seq<T>)
    ensures forall x :: x in r <==> x in xs && keep(x)
  {
    if xs == [] then []
    else
      var init, last := xs[..|xs| - 1], xs[|xs| - 1];
      assert xs == init + [last];
      Select(init, keep) + (if keep(last) then [last] else [])
  }
}
