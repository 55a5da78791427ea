/** `create_instance` of the third generator script: as the first, except that each coefficient
    is non-negative with probability `num_positive_coeff` (the second command-line argument, here
    the parameter `p`): a draw `random.random() <= p` gives `uniform(0, 10)`, any other draw
    `uniform(-10, 0)`. */
module InstanceGen3 {
  import opened Common
  import opened QbfInstance
  import opened InstanceReader
  import opened InstanceWriter
  import opened SubsetGen
  import opened RandomDraws

  /** One coefficient: `coin` is the `random.random()` compared with `p`, `u` the draw inside
      `random.uniform`. It is in `[0, 10]` when `coin <= p` and in `[-10, 0]` otherwise. */
  function Coefficient(p: real, coin: real, u: real): (x: real)
    requires 0.0 <= coin < 1.0 && 0.0 <= u < 1.0
    ensures coin <= p ==> 0.0 <= x <= 10.0
    ensures coin > p ==> -10.0 <= x <= 0.0
  {
    if coin <= p then Uniform(0.0, 10.0, u) else Uniform(-10.0, 0.0, u)
  }

  /** One row of the matrix block: `len` signed coefficients. */
  method WriteRow(len: nat, p: real, coins: seq<real>, units: seq<real>) returns (row: seq<real>, line: Line)
    requires |coins| == len && forall j :: 0 <= j < len ==> 0.0 <= coins[j] < 1.0
    requires |units| == len && forall j :: 0 <= j < len ==> 0.0 <= units[j] < 1.0
    ensures |row| == len && line == NumberLine(row)
    ensures forall j :: 0 <= j < len ==> row[j] == Coefficient(p, coins[j], units[j])
  {
    row := [];
    line := [];
    for j := 0 to len
      invariant |row| == j && line == NumberLine(row)
      invariant forall t :: 0 <= t < j ==> row[t] == Coefficient(p, coins[t], units[t])
    {
      var x: real;
      if coins[j] <= p {
        x := Uniform(0.0, 10.0, units[j]);
      } else {
        x := Uniform(-10.0, 0.0, units[j]);
      }
      assert NumberLine(row + [x]) == line + [RealTok(x)];
      row := row + [x];
      line := line + [RealTok(x)];
    }
  }

  /** The matrix block: for `i` in `range(n, 0, -1)` a line of `i` signed coefficients. */
  method WriteCoefficients(n: nat, p: real, coins: seq<seq<real>>, units: seq<seq<real>>)
    returns (rows: seq<seq<real>>, rowLines: seq<Line>)
    requires UnitRows(coins, n) && UnitRows(units, n)
    ensures Triangular(rows, n) && |rowLines| == n
    ensures forall r :: 0 <= r < n ==> rowLines[r] == NumberLine(rows[r])
    ensures forall r, j :: 0 <= r < n && 0 <= j < n - r ==> rows[r][j] == Coefficient(p, coins[r][j], units[r][j])
  {
    rows := [];
    rowLines := [];
    var i := n;
    while i > 0
      invariant 0 <= i <= n && |rows| == n - i && |rowLines| == n - i
      invariant forall r :: 0 <= r < n - i ==> |rows[r]| == n - r && rowLines[r] == NumberLine(rows[r])
      invariant forall r, j :: 0 <= r < n - i && 0 <= j < n - r ==> rows[r][j] == Coefficient(p, coins[r][j], units[r][j])
    {
      var row, line := WriteRow(i, p, coins[n - i], units[n - i]);
      rows := rows + [row];
      rowLines := rowLines + [line];
      i := i - 1;
    }
  }

  /** In the matrix read back, the entry at row `r`, column `c >= r` has the sign its draw
      decided: non-negative (in `[0, 10]`) when `coins[r][c - r] <= p`, non-positive (in
      `[-10, 0]`) otherwise. */
  lemma {:induction false} SignedEntries(n: nat, p: real, coins: seq<seq<real>>, units: seq<seq<real>>, rows: seq<seq<real>>)
    requires UnitRows(coins, n) && UnitRows(units, n) && Triangular(rows, n)
    requires forall r, j :: 0 <= r < n && 0 <= j < n - r ==> rows[r][j] == Coefficient(p, coins[r][j], units[r][j])
    ensures forall r, c :: 0 <= r <= c < n ==>
      (coins[r][c - r] <= p ==> 0.0 <= Matrix(n, rows)[r][c] <= 10.0) &&
      (coins[r][c - r] > p ==> -10.0 <= Matrix(n, rows)[r][c] <= 0.0)
  {
    forall r, c | 0 <= r <= c < n
      ensures coins[r][c - r] <= p ==> 0.0 <= Matrix(n, rows)[r][c] <= 10.0
      ensures coins[r][c - r] > p ==> -10.0 <= Matrix(n, rows)[r][c] <= 0.0
    {
      assert Matrix(n, rows)[r][c] == rows[r][c - r];
    }
  }

  /** `create_instance`: as in the first script, with each coefficient signed by its draw; the
      lines written read back without error as exactly the generated instance. */
  method CreateInstance(choice: nat, p: real, sizes: seq<int>, samples: seq<seq<int>>, picks: seq<int>,
                        coins: seq<seq<real>>, units: seq<seq<real>>)
    returns (subsets: seq<set<int>>, rows: seq<seq<real>>, lines: seq<Line>)
    requires choice < |Candidates|
    requires SampleDraws(Candidates[choice], sizes, samples) && PickDraws(Candidates[choice], picks)
    requires UnitRows(coins, Candidates[choice]) && UnitRows(units, Candidates[choice])
    ensures |subsets| == Candidates[choice] && Union(subsets) == Range(1, Candidates[choice])
    ensures forall k :: 0 <= k < |subsets| ==> subsets[k] == SetOf(samples[k]) + ForcedInto(picks, k)
    ensures Triangular(rows, Candidates[choice])
    ensures forall r, j :: 0 <= r < |rows| && 0 <= j < |rows[r]| ==>
      rows[r][j] == Coefficient(p, coins[r][j], units[r][j])
    ensures Layout(lines, Candidates[choice], subsets, rows)
    ensures Read(lines) == Ok(Instance(Candidates[choice], subsets, Matrix(Candidates[choice], rows)))
    ensures Read(lines).value.n in Candidates
    ensures forall r, c :: 0 <= r <= c < Candidates[choice] ==>
      (coins[r][c - r] <= p ==> 0.0 <= Read(lines).value.a[r][c] <= 10.0) &&
      (coins[r][c - r] > p ==> -10.0 <= Read(lines).value.a[r][c] <= 0.0)
  {
    var n := Candidates[choice];
    subsets := GenSubsets(n, sizes, samples, picks);
    var header := WriteHeader(n, subsets);
    var rowLines;
    rows, rowLines := WriteCoefficients(n, p, coins, units);
    lines := header + rowLines;
    ReadAssembled(header, rowLines, n, subsets, rows);
    assert Read(lines).value.a == Matrix(n, rows);
    SignedEntries(n, p, coins, units, rows);
  }
}
