/** `gen_subsets(n)`, identical in both generator scripts: `n` subsets of the universe `{1..n}`,
    each first sampled without replacement at a random size, after which every element of the
    universe is forced into a randomly chosen subset. The random draws are parameters:
    `sizes[k]` is `random.randint(0, n)`, `samples[k]` is `random.sample(n_set, sizes[k])` and
    `picks[i - 1]` is the `random.randint(0, n - 1)` that places element `i`. */
module SubsetGen {
  import opened Common

  /** `xs` is a possible result of `random.sample(range(1, n + 1), size)`: `size` distinct
      elements of the universe. */
  predicate IsSample(xs: seq<int>, n: int, size: int)
  {
    |xs| == size && Distinct(xs) && forall t :: 0 <= t < |xs| ==> 1 <= xs[t] <= n
  }

  /** The first loop's draws: `n` sizes in `[0, n]`, each with a sample of that size. */
  predicate SampleDraws(n: nat, sizes: seq<int>, samples: seq<seq<int>>)
  {
    && |sizes| == n && |samples| == n
    && forall k :: 0 <= k < n ==> 0 <= sizes[k] <= n && IsSample(samples[k], n, sizes[k])
  }

  /** The second loop's draws: one subset index in `[0, n - 1]` per element of the universe. */
  predicate PickDraws(n: nat, picks: seq<int>)
  {
    |picks| == n && forall i :: 0 <= i < n ==> 0 <= picks[i] < n
  }

  /** The elements the forcing loop adds to subset `k`: those `i` whose draw `picks[i - 1]` is `k`. */
  function ForcedInto(picks: seq<int>, k: int): (s: set<int>)
    ensures forall x :: x in s <==> 1 <= x <= |picks| && picks[x - 1] == k
  {
    if picks == [] then {}
    else
      var init := picks[..|picks| - 1];
      assert forall t :: 0 <= t < |init| ==> init[t] == picks[t];
      ForcedInto(init, k) + (if picks[|picks| - 1] == k then {|picks|} else {})
  }

  /** The first loop: subset `k` is the set of its sample, so it has exactly the drawn size and
      lies in the universe. */
  method SampleSubsets(n: nat, sizes: seq<int>, samples: seq<seq<int>>) returns (subsets: seq<set<int>>)
    requires SampleDraws(n, sizes, samples)
    ensures |subsets| == n
    ensures forall k :: 0 <= k < n ==>
      && subsets[k] == SetOf(samples[k])
      && |subsets[k]| == sizes[k]
      && subsets[k] <= Range(1, n)
  {
    subsets := [];
    var k := 0;
    while k < n
      invariant 0 <= k <= n && |subsets| == k
      invariant forall j :: 0 <= j < k ==> subsets[j] == SetOf(samples[j]) && |subsets[j]| == sizes[j]
    {
      DistinctCard(samples[k]);
      subsets := subsets + [SetOf(samples[k])];
      k := k + 1;
    }
  }

  /** The forcing loop: element `i` is added to subset `picks[i - 1]`; subsets only grow, and
      subset `k` ends as its sample plus the elements forced into it. */
  method ForceCoverage(n: nat, sampled: seq<set<int>>, picks: seq<int>) returns (subsets: seq<set<int>>)
    requires |sampled| == n && PickDraws(n, picks)
    ensures |subsets| == n
    ensures forall k :: 0 <= k < n ==> subsets[k] == sampled[k] + ForcedInto(picks, k)
  {
    subsets := sampled;
    var i := 1;
    while i <= n
      invariant 1 <= i <= n + 1 && |subsets| == n
      invariant forall k :: 0 <= k < n ==> subsets[k] == sampled[k] + ForcedInto(picks[..i - 1], k)
    {
      var p := picks[i - 1];
      assert picks[..i][..i - 1] == picks[..i - 1];
      subsets := subsets[p := subsets[p] + {i}];
      i := i + 1;
    }
    assert picks[..n] == picks;
  }

  /** After the forcing pass every subset still lies in the universe and every element of the
      universe lies in the subset its draw chose, so the union is exactly `{1..n}`. */
  lemma {:induction false} ForcingCoversUniverse(n: nat, sampled: seq<set<int>>, picks: seq<int>, subsets: seq<set<int>>)
    requires |sampled| == n && PickDraws(n, picks) && |subsets| == n
    requires forall k :: 0 <= k < n ==> sampled[k] <= Range(1, n)
    requires forall k :: 0 <= k < n ==> subsets[k] == sampled[k] + ForcedInto(picks, k)
    ensures forall k :: 0 <= k < n ==> subsets[k] <= Range(1, n)
    ensures Union(subsets) == Range(1, n)
  {
    forall k | 0 <= k < n ensures subsets[k] <= Range(1, n) {
      assert sampled[k] <= Range(1, n);
      assert ForcedInto(picks, k) <= Range(1, n);
    }
    var u := Union(subsets);
    assert u <= Range(1, n) by {
      forall e | e in u ensures e in Range(1, n) {
        var k :| 0 <= k < n && e in subsets[k];
      }
    }
    assert Range(1, n) <= u by {
      forall e | e in Range(1, n) ensures e in u {
        var k := picks[e - 1];
        assert e in ForcedInto(picks, k);
        assert e in subsets[k];
      }
    }
  }

  /** `gen_subsets(n)`: exactly `n` subsets, each its sample plus what the forcing loop put in it,
      each inside the universe `{1..n}`, none losing a sampled element, and together covering the
      whole universe. */
  method GenSubsets(n: nat, sizes: seq<int>, samples: seq<seq<int>>, picks: seq<int>)
    returns (subsets: seq<set<int>>)
    requires SampleDraws(n, sizes, samples) && PickDraws(n, picks)
    ensures |subsets| == n
    ensures forall k :: 0 <= k < n ==> subsets[k] == SetOf(samples[k]) + ForcedInto(picks, k)
    ensures forall k :: 0 <= k < n ==> SetOf(samples[k]) <= subsets[k] <= Range(1, n)
    ensures Union(subsets) == Range(1, n)
  {
    var sampled := SampleSubsets(n, sizes, samples);
    subsets := ForceCoverage(n, sampled, picks);
    ForcingCoversUniverse(n, sampled, picks, subsets);
  }
}
