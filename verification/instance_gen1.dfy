/** `create_instance` of the first generator script: `n` drawn from the candidate sizes, the
    subsets of `gen_subsets(n)`, and an upper triangle of coefficients `uniform(-10, 10)`, written
    in the layout the reader consumes. */
module InstanceGen1 {
  import opened Common
  import opened QbfInstance
  import opened InstanceReader
  import opened InstanceWriter
  import opened SubsetGen
  import opened RandomDraws

  /** One row of the matrix block: `len` values `uniform(-10, 10)`, from the draws `units`. */
  method WriteRow(len: nat, units: seq<real>) returns (row: seq<real>, line: Line)
    requires |units| == len && forall j :: 0 <= j < len ==> 0.0 <= units[j] < 1.0
    ensures |row| == len && line == NumberLine(row)
    ensures forall j :: 0 <= j < len ==> row[j] == Uniform(-10.0, 10.0, units[j]) && -10.0 <= row[j] <= 10.0
  {
    row := [];
    line := [];
    for j := 0 to len
      invariant |row| == j && line == NumberLine(row)
      invariant forall t :: 0 <= t < j ==> row[t] == Uniform(-10.0, 10.0, units[t])
    {
      var x := Uniform(-10.0, 10.0, units[j]);
      assert NumberLine(row + [x]) == line + [RealTok(x)];
      row := row + [x];
      line := line + [RealTok(x)];
    }
  }

  /** The matrix block: for `i` in `range(n, 0, -1)` a line of `i` values, so row `r` holds the
      `n - r` coefficients of matrix row `r` from the diagonal rightwards. */
  method WriteCoefficients(n: nat, units: seq<seq<real>>) returns (rows: seq<seq<real>>, rowLines: seq<Line>)
    requires UnitRows(units, n)
    ensures Triangular(rows, n) && |rowLines| == n
    ensures forall r :: 0 <= r < n ==> rowLines[r] == NumberLine(rows[r])
    ensures forall r, j :: 0 <= r < n && 0 <= j < n - r ==>
      rows[r][j] == Uniform(-10.0, 10.0, units[r][j]) && -10.0 <= rows[r][j] <= 10.0
  {
    rows := [];
    rowLines := [];
    var i := n;
    while i > 0
      invariant 0 <= i <= n && |rows| == n - i && |rowLines| == n - i
      invariant forall r :: 0 <= r < n - i ==> |rows[r]| == n - r && rowLines[r] == NumberLine(rows[r])
      invariant forall r, j :: 0 <= r < n - i && 0 <= j < n - r ==>
        rows[r][j] == Uniform(-10.0, 10.0, units[r][j]) && -10.0 <= rows[r][j] <= 10.0
    {
      var row, line := WriteRow(i, units[n - i]);
      rows := rows + [row];
      rowLines := rowLines + [line];
      i := i - 1;
    }
  }

  /** Every entry of the matrix read back from a file whose rows hold values in `[-10, 10]` lies in
      `[-10, 10]`. */
  lemma {:induction false} MatrixWithin(n: nat, rows: seq<seq<real>>, lo: real, hi: real)
    requires Triangular(rows, n) && lo <= 0.0 <= hi
    requires forall r, j :: 0 <= r < n && 0 <= j < n - r ==> lo <= rows[r][j] <= hi
    ensures forall r, c :: 0 <= r < n && 0 <= c < n ==> lo <= Matrix(n, rows)[r][c] <= hi
  {
    forall r, c | 0 <= r < n && 0 <= c < n ensures lo <= Matrix(n, rows)[r][c] <= hi {
      if r <= c {
        assert Matrix(n, rows)[r][c] == rows[r][c - r];
      }
    }
  }

  /** `create_instance`: `n` is a candidate size, the subsets are those of `gen_subsets(n)` (so
      they cover `{1..n}`), the coefficients are `uniform(-10, 10)` draws, and the lines written
      read back without error as exactly that instance, with zeros below the diagonal. */
  method CreateInstance(choice: nat, sizes: seq<int>, samples: seq<seq<int>>, picks: seq<int>, units: seq<seq<real>>)
    returns (subsets: seq<set<int>>, rows: seq<seq<real>>, lines: seq<Line>)
    requires choice < |Candidates|
    requires SampleDraws(Candidates[choice], sizes, samples) && PickDraws(Candidates[choice], picks)
    requires UnitRows(units, Candidates[choice])
    ensures |subsets| == Candidates[choice] && Union(subsets) == Range(1, Candidates[choice])
    ensures forall k :: 0 <= k < |subsets| ==> subsets[k] == SetOf(samples[k]) + ForcedInto(picks, k)
    ensures Triangular(rows, Candidates[choice])
    ensures forall r, j :: 0 <= r < |rows| && 0 <= j < |rows[r]| ==> rows[r][j] == Uniform(-10.0, 10.0, units[r][j])
    ensures Layout(lines, Candidates[choice], subsets, rows)
    ensures Read(lines) == Ok(Instance(Candidates[choice], subsets, Matrix(Candidates[choice], rows)))
    ensures Read(lines).value.n in Candidates
    ensures forall r, c :: 0 <= r < Candidates[choice] && 0 <= c < Candidates[choice] ==>
      -10.0 <= Read(lines).value.a[r][c] <= 10.0
  {
    var n := Candidates[choice];
    subsets := GenSubsets(n, sizes, samples, picks);
    var header := WriteHeader(n, subsets);
    var rowLines;
    rows, rowLines := WriteCoefficients(n, units);
    lines := header + rowLines;
    ReadAssembled(header, rowLines, n, subsets, rows);
    MatrixWithin(n, rows, -10.0, 10.0);
  }
}
