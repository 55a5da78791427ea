/** Small value types and collection helpers shared by the whole model. */
module Common {

  /** A value that may be absent (Python's `None`). */
  datatype Option<T> = None | Some(value: T)

  /** The outcome of an operation that can raise. */
  datatype Result<T, E> = Ok(value: T) | Err(error: E)

  /** The integers `lo..hi`, both ends included (`range(lo, hi + 1)` as a set). */
  function Range(lo: int, hi: int): (s: set<int>)
    ensures forall i :: i in s <==> lo <= i <= hi
    decreases hi - lo
  {
    if lo > hi then {} else Range(lo, hi - 1) + {hi}
  }

  /** The elements of a list, as Python's `set(list)`. */
  function SetOf(xs: seq<int>): (s: set<int>)
    ensures forall x :: x in s <==> x in xs
  {
    set x | x in xs
  }

  /** No element occurs twice. */
  predicate Distinct(xs: seq<int>)
  {
    forall a, b :: 0 <= a < b < |xs| ==> xs[a] != xs[b]
  }

  /** `order` lists every element of `u` exactly once (one iteration of a Python set). */
  predicate IsEnumeration(order: seq<int>, u: set<int>)
  {
    Distinct(order) && SetOf(order) == u
  }

  /** A list without repetitions has as many distinct elements as entries. */
  lemma {:induction false} DistinctCard(xs: seq<int>)
    requires Distinct(xs)
    ensures |SetOf(xs)| == |xs|
  {
    if xs != [] {
      var rest := xs[1..];
      assert Distinct(rest) by {
        forall a, b | 0 <= a < b < |rest| ensures rest[a] != rest[b] {
          assert rest[a] == xs[a + 1] && rest[b] == xs[b + 1];
        }
      }
      DistinctCard(rest);
      assert xs[0] !in rest by {
        forall k | 0 <= k < |rest| ensures rest[k] != xs[0] {
          assert rest[k] == xs[k + 1];
        }
      }
      assert SetOf(xs) == {xs[0]} + SetOf(rest) by {
        assert xs == [xs[0]] + rest;
      }
    }
  }

  /** Appending an element not yet present keeps a list free of repetitions. */
  lemma {:induction false} DistinctAppend(xs: seq<int>, x: int)
    requires Distinct(xs) && x !in xs
    ensures Distinct(xs + [x]) && SetOf(xs + [x]) == SetOf(xs) + {x}
  {
    var ys := xs + [x];
    forall a, b | 0 <= a < b < |ys| ensures ys[a] != ys[b] {
      if b == |xs| {
        assert ys[a] == xs[a] && xs[a] in xs;
      } else {
        assert ys[a] == xs[a] && ys[b] == xs[b];
      }
    }
  }

  /** An enumeration of a set is exactly as long as the set is large. */
  lemma {:induction false} EnumerationLength(order: seq<int>, u: set<int>)
    requires IsEnumeration(order, u)
    ensures |order| == |u|
  {
    DistinctCard(order);
  }

  /** A non-empty set has an element to pick. */
  lemma {:induction false} NonEmptyHasElement(s: set<int>)
    requires s != {}
    ensures exists x :: x in s
  {
    if forall x :: x !in s {
      assert false;
    }
  }

  /** The union of a list of sets, as `set.union(*sets)`; the empty set for an empty list. */
  function Union(sets: seq<set<int>>): (u: set<int>)
    ensures forall e :: e in u <==> exists k :: 0 <= k < |sets| && e in sets[k]
  {
    if sets == [] then {}
    else
      var init := sets[..|sets| - 1];
      assert forall k :: 0 <= k < |init| ==> init[k] == sets[k];
      Union(init) + sets[|sets| - 1]
  }

  /** The sum of a list of numbers. */
  function Sum(xs: seq<real>): real
  {
    if xs == [] then 0.0 else xs[0] + Sum(xs[1..])
  }

  /** Summing a concatenation is adding the two sums. */
  lemma {:induction false} SumAppend(xs: seq<real>, ys: seq<real>)
    ensures Sum(xs + ys) == Sum(xs) + Sum(ys)
  {
    if xs == [] {
      assert xs + ys == ys;
    } else {
      assert (xs + ys)[1..] == xs[1..] + ys;
      SumAppend(xs[1..], ys);
    }
  }

  /** A list of zeros sums to zero. */
  lemma {:induction false} SumZeros(xs: seq<real>)
    requires forall k :: 0 <= k < |xs| ==> xs[k] == 0.0
    ensures Sum(xs) == 0.0
  {
    if xs != [] {
      SumZeros(xs[1..]);
    }
  }
}
