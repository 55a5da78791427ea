/** The parsed MAX-SC-QBF instance `(n, subsets, A)` that the reader returns and the builder consumes. */
module QbfInstance {

  /** `n` is the number of decision variables, `sets` the candidate subsets in file order and
      `a` the coefficient matrix, row-major, 0-based. */
  datatype Instance = Instance(n: int, sets: seq<set<int>>, a: seq<seq<real>>)

  /** `a[r][c]` exists for every `0 <= r, c < n`, so `A[i-1][j-1]` can be read for `1 <= i, j <= n`. */
  predicate AtLeastSquare(a: seq<seq<real>>, n: int)
  {
    |a| >= n && forall r :: 0 <= r < n ==> |a[r]| >= n
  }

  /** `a` is exactly `n` by `n`. */
  predicate IsSquare(a: seq<seq<real>>, n: int)
  {
    n >= 0 && |a| == n && forall r :: 0 <= r < n ==> |a[r]| == n
  }

  /** `a` is `n` by `n` and zero strictly below its diagonal. */
  predicate UpperTriangular(a: seq<seq<real>>, n: int)
  {
    IsSquare(a, n) && forall r, c :: 0 <= c < r < n ==> a[r][c] == 0.0
  }
}
