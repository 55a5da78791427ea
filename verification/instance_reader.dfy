/** `read_max_sc_qbf_instance`: the positional reader of the instance file, on lines that have
    already been split into whitespace-separated tokens. Line 0 holds `n`, line 1 the declared
    subset sizes, then one line per subset, then up to `n` rows of the upper triangle, row `r`
    giving the values of columns `r, r + 1, ...`. Blank lines are kept: a blank subset line is an
    empty subset and a blank row line leaves its row at zero. */
module InstanceReader {
  import opened Common
  import opened QbfInstance

  /** A whitespace-free piece of a line: one `int()` accepts, one only `float()` accepts, or
      one neither accepts. */
  datatype Token = IntTok(i: int) | RealTok(r: real) | Word(s: string)

  type Line = seq<Token>

  /** The exceptions the reader raises, with the 0-based line they come from: `IndexError` on a
      missing line, `ValueError` from `int()` / `float()`, the `ValueError` of the size check and
      the `IndexError` of a row that runs past column `n - 1`. */
  datatype ReadError =
    | MissingLine(line: nat)
    | NotAnInteger(line: nat)
    | NotANumber(line: nat)
    | SizeMismatch(line: nat, expected: int, got: int)
    | ColumnOutOfRange(line: nat)

  /** `int(line)`: the line must be exactly one integer token. */
  function ParseN(line: Line): (r: Option<int>)
    ensures r.Some? <==> |line| == 1 && line[0].IntTok?
  {
    if |line| == 1 && line[0].IntTok? then Some(line[0].i) else None
  }

  /** `list(map(int, line.split()))` */
  function IntsOf(line: Line): (r: Option<seq<int>>)
    ensures r.Some? <==> forall t :: 0 <= t < |line| ==> line[t].IntTok?
    ensures r.Some? ==> |r.value| == |line| && forall t :: 0 <= t < |line| ==> r.value[t] == line[t].i
  {
    if forall t :: 0 <= t < |line| ==> line[t].IntTok? then
      Some(seq(|line|, t requires 0 <= t < |line| => line[t].i))
    else None
  }

  /** `float(token)` */
  function NumberOf(t: Token): Option<real>
  {
    match t
    case IntTok(i) => Some(i as real)
    case RealTok(x) => Some(x)
    case Word(_) => None
  }

  /** `list(map(float, line.split()))` */
  function FloatsOf(line: Line): (r: Option<seq<real>>)
    ensures r.Some? <==> forall t :: 0 <= t < |line| ==> !line[t].Word?
    ensures r.Some? ==> |r.value| == |line|
    ensures r.Some? ==> forall t :: 0 <= t < |line| ==> Some(r.value[t]) == NumberOf(line[t])
  {
    if forall t :: 0 <= t < |line| ==> !line[t].Word? then
      Some(seq(|line|, t requires 0 <= t < |line| => NumberOf(line[t]).value))
    else None
  }

  // ---------------------------------------------------------------------------------------------
  // Subsets (instance_io.py:30-38)
  // ---------------------------------------------------------------------------------------------

  /** One pass of the subset loop: subset `k` is the set of the integers on line `2 + k`, and its
      distinct count must be the declared size. */
  function SubsetAt(lines: seq<Line>, k: nat, size: int): (r: Result<set<int>, ReadError>)
    ensures r.Ok? <==>
      2 + k < |lines| && IntsOf(lines[2 + k]).Some? && |SetOf(IntsOf(lines[2 + k]).value)| == size
    ensures r.Ok? ==> r.value == SetOf(IntsOf(lines[2 + k]).value) && |r.value| == size
  {
    var idx := 2 + k;
    if idx >= |lines| then Err(MissingLine(idx))
    else
      match IntsOf(lines[idx])
      case None => Err(NotAnInteger(idx))
      case Some(es) =>
        var elements := SetOf(es);
        if |elements| != size then Err(SizeMismatch(idx, size, |elements|)) else Ok(elements)
  }

  /** The subset loop over the declared sizes: one subset per size, in file order, failing with
      the error of the first line that fails. */
  function Subsets(lines: seq<Line>, sizes: seq<int>): (r: Result<seq<set<int>>, ReadError>)
    ensures r.Ok? <==> forall k :: 0 <= k < |sizes| ==> SubsetAt(lines, k, sizes[k]).Ok?
    ensures r.Ok? ==> |r.value| == |sizes|
    ensures r.Ok? ==> forall k :: 0 <= k < |sizes| ==> r.value[k] == SubsetAt(lines, k, sizes[k]).value
    ensures r.Err? ==> exists k :: (0 <= k < |sizes| && SubsetAt(lines, k, sizes[k]) == Err(r.error) &&
      forall j :: 0 <= j < k ==> SubsetAt(lines, j, sizes[j]).Ok?)
  {
    if sizes == [] then Ok([])
    else
      var last := |sizes| - 1;
      var init := sizes[..last];
      assert forall k :: 0 <= k < last ==> init[k] == sizes[k];
      match Subsets(lines, init)
      case Err(e) => Err(e)
      case Ok(prev) =>
        match SubsetAt(lines, last, sizes[last])
        case Err(e) => Err(e)
        case Ok(s) => Ok(prev + [s])
  }

  /** When the subset lines before `k` are fine and line `2 + k` fails, the loop fails with the
      error of line `2 + k`. */
  lemma {:induction false} SubsetsFirstError(lines: seq<Line>, sizes: seq<int>, k: nat)
    requires k < |sizes|
    requires forall j :: 0 <= j < k ==> SubsetAt(lines, j, sizes[j]).Ok?
    requires SubsetAt(lines, k, sizes[k]).Err?
    ensures Subsets(lines, sizes) == Err(SubsetAt(lines, k, sizes[k]).error)
  {
    var r := Subsets(lines, sizes);
    var k' :| 0 <= k' < |sizes| && SubsetAt(lines, k', sizes[k']) == Err(r.error) &&
      forall j :: 0 <= j < k' ==> SubsetAt(lines, j, sizes[j]).Ok?;
    assert k' == k;
  }

  // ---------------------------------------------------------------------------------------------
  // The triangular matrix (instance_io.py:40-48)
  // ---------------------------------------------------------------------------------------------

  /** Row `r` of the matrix, read from line `first + r`: its numbers, which land at columns
      `r, r + 1, ...`; a row with more than `n - r` numbers runs past the last column. */
  function RowAt(lines: seq<Line>, first: nat, r: nat, n: int): (res: Result<seq<real>, ReadError>)
    requires first + r < |lines|
    ensures res.Ok? <==> FloatsOf(lines[first + r]).Some? && r + |lines[first + r]| <= n
    ensures res.Ok? ==> res.value == FloatsOf(lines[first + r]).value
  {
    match FloatsOf(lines[first + r])
    case None => Err(NotANumber(first + r))
    case Some(values) =>
      if r + |values| > n then Err(ColumnOutOfRange(first + r)) else Ok(values)
  }

  /** How many rows the `while` loop visits: it stops at the end of the file or after `n` rows. */
  function RowCount(lines: seq<Line>, first: nat, n: int): (c: nat)
    requires first <= |lines|
    ensures first + c <= |lines| && c <= (if n < 0 then 0 else n)
    ensures c == |lines| - first || c == n || (n < 0 && c == 0)
  {
    if n <= 0 then 0 else if |lines| - first < n then |lines| - first else n
  }

  /** The first `count` rows, failing with the error of the first row that fails. */
  function Rows(lines: seq<Line>, first: nat, count: nat, n: int): (r: Result<seq<seq<real>>, ReadError>)
    requires first + count <= |lines|
    ensures r.Ok? <==> forall k :: 0 <= k < count ==> RowAt(lines, first, k, n).Ok?
    ensures r.Ok? ==> |r.value| == count
    ensures r.Ok? ==> forall k :: 0 <= k < count ==> r.value[k] == RowAt(lines, first, k, n).value
    ensures r.Err? ==> exists k :: (0 <= k < count && RowAt(lines, first, k, n) == Err(r.error) &&
      forall j :: 0 <= j < k ==> RowAt(lines, first, j, n).Ok?)
  {
    if count == 0 then Ok([])
    else
      match Rows(lines, first, count - 1, n)
      case Err(e) => Err(e)
      case Ok(prev) =>
        match RowAt(lines, first, count - 1, n)
        case Err(e) => Err(e)
        case Ok(values) => Ok(prev + [values])
  }

  /** When the rows before `k` are fine and row `k` fails, the loop fails with row `k`'s error. */
  lemma {:induction false} RowsFirstError(lines: seq<Line>, first: nat, count: nat, n: int, k: nat)
    requires first + count <= |lines| && k < count
    requires forall j :: 0 <= j < k ==> RowAt(lines, first, j, n).Ok?
    requires RowAt(lines, first, k, n).Err?
    ensures Rows(lines, first, count, n) == Err(RowAt(lines, first, k, n).error)
  {
    var r := Rows(lines, first, count, n);
    var k' :| 0 <= k' < count && RowAt(lines, first, k', n) == Err(r.error) &&
      forall j :: 0 <= j < k' ==> RowAt(lines, first, j, n).Ok?;
    assert k' == k;
  }

  /** The entry at row `r`, column `c` once the rows `vals` have been written into a zero matrix. */
  function Entry(vals: seq<seq<real>>, r: int, c: int): real
  {
    if 0 <= r < |vals| && r <= c < r + |vals[r]| then vals[r][c - r] else 0.0
  }

  /** The `n` by `n` zero matrix with the rows `vals` written in from the diagonal rightwards
      (nothing at all when `n` is not positive, as `[[0.0] * n for _ in range(n)]`). */
  function Matrix(n: int, vals: seq<seq<real>>): (m: seq<seq<real>>)
    ensures n >= 0 ==> UpperTriangular(m, n)
    ensures n < 0 ==> m == []
    ensures forall r, c :: 0 <= r < n && 0 <= c < n ==> m[r][c] == Entry(vals, r, c)
  {
    if n <= 0 then [] else seq(n, r => seq(n, c => Entry(vals, r, c)))
  }

  // ---------------------------------------------------------------------------------------------
  // The whole reader
  // ---------------------------------------------------------------------------------------------

  /** What `read_max_sc_qbf_instance` returns for the tokenised lines of a file, or the exception
      it raises. */
  function Read(lines: seq<Line>): (r: Result<Instance, ReadError>)
    ensures r.Ok? ==> |lines| >= 2 && ParseN(lines[0]) == Some(r.value.n)
    ensures r.Ok? && r.value.n >= 0 ==> UpperTriangular(r.value.a, r.value.n)
    ensures r.Ok? && r.value.n < 0 ==> r.value.a == []
  {
    if |lines| == 0 then Err(MissingLine(0))
    else
      match ParseN(lines[0])
      case None => Err(NotAnInteger(0))
      case Some(n) =>
        if |lines| == 1 then Err(MissingLine(1))
        else
          match IntsOf(lines[1])
          case None => Err(NotAnInteger(1))
          case Some(sizes) =>
            match Subsets(lines, sizes)
            case Err(e) => Err(e)
            case Ok(subsets) =>
              var first := 2 + |sizes|;
              assert first <= |lines| by {
                if sizes != [] {
                  assert SubsetAt(lines, |sizes| - 1, sizes[|sizes| - 1]).Ok?;
                }
              }
              match Rows(lines, first, RowCount(lines, first, n), n)
              case Err(e) => Err(e)
              case Ok(vals) => Ok(Instance(n, subsets, Matrix(n, vals)))
  }

  /** The matrix after writing the first `j` numbers of a row into it is one more entry than
      after writing `j - 1` of them. */
  lemma {:induction false} MatrixWrite(n: int, vals: seq<seq<real>>, values: seq<real>, j: nat)
    requires |vals| < n && j < |values| && |vals| + j < n
    ensures Matrix(n, vals + [values[..j]])[|vals| := Matrix(n, vals + [values[..j]])[|vals|][|vals| + j := values[j]]]
         == Matrix(n, vals + [values[..j + 1]])
  {
    var row := |vals|;
    var before := Matrix(n, vals + [values[..j]]);
    var after := Matrix(n, vals + [values[..j + 1]]);
    var written := before[row := before[row][row + j := values[j]]];
    assert |written| == |after| == n;
    forall r | 0 <= r < n ensures written[r] == after[r] {
      assert |written[r]| == |after[r]| == n;
      forall c | 0 <= c < n ensures written[r][c] == after[r][c] {
        if r != row {
          assert Entry(vals + [values[..j]], r, c) == Entry(vals + [values[..j + 1]], r, c);
        } else if c != row + j {
          assert Entry(vals + [values[..j]], r, c) == Entry(vals + [values[..j + 1]], r, c);
        }
      }
    }
  }

  /** An empty row leaves the matrix as it was. */
  lemma {:induction false} MatrixEmptyRow(n: int, vals: seq<seq<real>>)
    ensures Matrix(n, vals + [[]]) == Matrix(n, vals)
  {
    if n > 0 {
      var a := Matrix(n, vals + [[]]);
      var b := Matrix(n, vals);
      forall r | 0 <= r < n ensures a[r] == b[r] {
        forall c | 0 <= c < n ensures a[r][c] == b[r][c] {
          assert Entry(vals + [[]], r, c) == Entry(vals, r, c);
        }
      }
    }
  }

  /** `[[0.0] * n for _ in range(n)]` is the matrix with no rows written. */
  lemma {:induction false} ZeroMatrix(n: int, A: seq<seq<real>>)
    requires A == if n <= 0 then [] else seq(n, _ => seq(n, _ => 0.0))
    ensures A == Matrix(n, [])
  {
    if n > 0 {
      var z := Matrix(n, []);
      forall r | 0 <= r < n ensures A[r] == z[r] {
        forall c | 0 <= c < n ensures A[r][c] == z[r][c] {
          assert Entry([], r, c) == 0.0;
        }
      }
    }
  }

  /** One more row read successfully extends the rows read so far. */
  lemma {:induction false} RowsStep(lines: seq<Line>, first: nat, row: nat, n: int, vals: seq<seq<real>>, values: seq<real>)
    requires first + row < |lines| && Rows(lines, first, row, n) == Ok(vals)
    requires FloatsOf(lines[first + row]) == Some(values) && row + |values| <= n
    ensures Rows(lines, first, row + 1, n) == Ok(vals + [values])
  {
    assert RowAt(lines, first, row, n) == Ok(values);
  }

  /** The subset loop of the reader, from line 2 on: returns the subsets, or the error of the
      first subset line that fails. */
  method ReadSubsets(lines: seq<Line>, sizes: seq<int>) returns (r: Result<seq<set<int>>, ReadError>)
    ensures r == Subsets(lines, sizes)
  {
    var subsets: seq<set<int>> := [];
    var idx := 2;
    var k := 0;
    while k < |sizes|
      invariant 0 <= k <= |sizes| && idx == 2 + k
      invariant Subsets(lines, sizes[..k]) == Ok(subsets)
    {
      assert forall j :: 0 <= j < k ==> SubsetAt(lines, j, sizes[j]).Ok? by {
        forall j | 0 <= j < k ensures SubsetAt(lines, j, sizes[j]).Ok? {
          assert sizes[..k][j] == sizes[j];
        }
      }
      if idx >= |lines| {
        SubsetsFirstError(lines, sizes, k);
        return Err(MissingLine(idx));
      }
      var elements := IntsOf(lines[idx]);
      if elements.None? {
        SubsetsFirstError(lines, sizes, k);
        return Err(NotAnInteger(idx));
      }
      var subset := SetOf(elements.value);
      if |subset| != sizes[k] {
        SubsetsFirstError(lines, sizes, k);
        return Err(SizeMismatch(idx, sizes[k], |subset|));
      }
      assert sizes[..k + 1][..k] == sizes[..k];
      subsets := subsets + [subset];
      idx := idx + 1;
      k := k + 1;
    }
    assert sizes[..k] == sizes;
    r := Ok(subsets);
  }

  /** The `for col, val in enumerate(values, start=row)` loop: writes the numbers of row `row`
      (the row after those in `vals`) into `A` from the diagonal rightwards, or fails with the
      `IndexError` of a column past `n - 1`. */
  method WriteRow(A: seq<seq<real>>, n: int, row: nat, ghost vals: seq<seq<real>>, values: seq<real>)
    returns (r: Option<seq<seq<real>>>)
    requires A == Matrix(n, vals) && row == |vals| < n
    ensures r.Some? <==> row + |values| <= n
    ensures r.Some? ==> r.value == Matrix(n, vals + [values])
  {
    var B := A;
    MatrixEmptyRow(n, vals);
    assert values[..0] == [];
    var col := row;
    var j := 0;
    while j < |values|
      invariant 0 <= j <= |values| && col == row + j && col <= n
      invariant B == Matrix(n, vals + [values[..j]])
    {
      if col >= n {
        return None;
      }
      MatrixWrite(n, vals, values, j);
      B := B[row := B[row][col := values[j]]];
      j := j + 1;
      col := col + 1;
    }
    assert values[..j] == values;
    r := Some(B);
  }

  /** The `while` loop of the reader: fills the zero matrix row by row from line `first`, for at
      most `n` rows, and fails on a line that is not all numbers or that runs past column `n - 1`. */
  method ReadRows(lines: seq<Line>, first: nat, n: int) returns (r: Result<seq<seq<real>>, ReadError>)
    requires first <= |lines|
    ensures r == (match Rows(lines, first, RowCount(lines, first, n), n)
                  case Err(e) => Err(e)
                  case Ok(vals) => Ok(Matrix(n, vals)))
  {
    var count := RowCount(lines, first, n);
    var A: seq<seq<real>> := if n <= 0 then [] else seq(n, _ => seq(n, _ => 0.0));
    ZeroMatrix(n, A);
    var idx := first;
    var row := 0;
    ghost var vals: seq<seq<real>> := [];
    while idx < |lines| && row < n
      invariant first <= idx <= |lines| && row == idx - first && row <= count
      invariant Rows(lines, first, row, n) == Ok(vals)
      invariant A == Matrix(n, vals)
    {
      var values := FloatsOf(lines[idx]);
      if values.None? {
        RowsFirstError(lines, first, count, n, row);
        return Err(NotANumber(idx));
      }
      var written := WriteRow(A, n, row, vals, values.value);
      if written.None? {
        RowsFirstError(lines, first, count, n, row);
        return Err(ColumnOutOfRange(idx));
      }
      RowsStep(lines, first, row, n, vals, values.value);
      A := written.value;
      vals := vals + [values.value];
      idx := idx + 1;
      row := row + 1;
    }
    assert row == count;
    r := Ok(A);
  }

  /** `read_max_sc_qbf_instance`, step by step: `n`, the sizes, the subset loop, then the matrix
      loop; it returns exactly what `Read` describes. */
  method ReadInstance(lines: seq<Line>) returns (r: Result<Instance, ReadError>)
    ensures r == Read(lines)
  {
    if |lines| == 0 {
      return Err(MissingLine(0));
    }
    var parsedN := ParseN(lines[0]);
    if parsedN.None? {
      return Err(NotAnInteger(0));
    }
    var n := parsedN.value;
    if |lines| == 1 {
      return Err(MissingLine(1));
    }
    var parsedSizes := IntsOf(lines[1]);
    if parsedSizes.None? {
      return Err(NotAnInteger(1));
    }
    var sizes := parsedSizes.value;
    var subsets := ReadSubsets(lines, sizes);
    if subsets.Err? {
      return Err(subsets.error);
    }
    var first := 2 + |sizes|;
    assert first <= |lines| by {
      if sizes != [] {
        assert SubsetAt(lines, |sizes| - 1, sizes[|sizes| - 1]).Ok?;
      }
    }
    var matrix := ReadRows(lines, first, n);
    if matrix.Err? {
      return Err(matrix.error);
    }
    r := Ok(Instance(n, subsets.value, matrix.value));
  }

  // ---------------------------------------------------------------------------------------------
  // Properties of the reader
  // ---------------------------------------------------------------------------------------------

  /** The pieces of a successful read: the sizes of line 1, the subsets read from the lines after
      it, and the rows read from the line after the last subset line on. */
  lemma {:induction false} ReadParts(lines: seq<Line>) returns (sizes: seq<int>, subsets: seq<set<int>>, vals: seq<seq<real>>)
    requires Read(lines).Ok?
    ensures |lines| >= 2 && IntsOf(lines[1]) == Some(sizes) && 2 + |sizes| <= |lines|
    ensures Subsets(lines, sizes) == Ok(subsets)
    ensures var n := Read(lines).value.n;
      Rows(lines, 2 + |sizes|, RowCount(lines, 2 + |sizes|, n), n) == Ok(vals)
      && Read(lines).value == Instance(n, subsets, Matrix(n, vals))
  {
    var n := Read(lines).value.n;
    sizes := IntsOf(lines[1]).value;
    subsets := Subsets(lines, sizes).value;
    var first := 2 + |sizes|;
    assert first <= |lines| by {
      if sizes != [] {
        assert SubsetAt(lines, |sizes| - 1, sizes[|sizes| - 1]).Ok?;
      }
    }
    vals := Rows(lines, first, RowCount(lines, first, n), n).value;
  }

  /** A successful read returns one subset per token of line 1 (the count is not checked against
      `n`), in file order; subset `k` is the set of the integers of line `2 + k` (duplicates
      collapse) and has exactly the declared size. */
  lemma {:induction false} ReadSubsetsAsDeclared(lines: seq<Line>)
    requires Read(lines).Ok?
    ensures |Read(lines).value.sets| == |lines[1]|
    ensures 2 + |lines[1]| <= |lines|
    ensures forall k :: 0 <= k < |lines[1]| ==>
      && lines[1][k].IntTok?
      && IntsOf(lines[2 + k]).Some?
      && Read(lines).value.sets[k] == SetOf(IntsOf(lines[2 + k]).value)
      && |Read(lines).value.sets[k]| == lines[1][k].i
  {
    var sizes, subsets, vals := ReadParts(lines);
    forall k | 0 <= k < |sizes|
      ensures 2 + k < |lines| && IntsOf(lines[2 + k]).Some?
      ensures subsets[k] == SetOf(IntsOf(lines[2 + k]).value) && |subsets[k]| == lines[1][k].i
    {
      assert SubsetAt(lines, k, sizes[k]).Ok?;
      assert sizes[k] == lines[1][k].i;
    }
  }

  /** Each of the first `n` lines from `first` on is a line of numbers with no more numbers than
      its row has columns left. */
  predicate RowLinesFit(lines: seq<Line>, first: nat, n: int)
  {
    forall i :: first <= i < |lines| && i - first < n ==>
      FloatsOf(lines[i]).Some? && i - first + |lines[i]| <= n
  }

  /** Entry `(r, c)` of `a` is the number at column `c - r` of line `first + r` where that line has
      one, and zero everywhere else. */
  predicate EntriesFromLines(lines: seq<Line>, first: nat, n: int, a: seq<seq<real>>)
    requires AtLeastSquare(a, n)
  {
    && (forall r, c :: 0 <= r < n && 0 <= c < n && first + r < |lines| && r <= c < r + |lines[first + r]| ==>
          Some(a[r][c]) == NumberOf(lines[first + r][c - r]))
    && (forall r, c :: 0 <= r < n && 0 <= c < n && !(first + r < |lines| && r <= c < r + |lines[first + r]|) ==>
          a[r][c] == 0.0)
  }

  /** A successful read returns an `n` by `n` matrix (for `n >= 0`) that is zero below the
      diagonal. The matrix rows start on the line after the last subset line (`first`): no row
      line is longer than the columns it has left, row `r` holds the numbers of line `first + r`
      from column `r` on, and every other entry, including every entry of a row without a line,
      is zero. */
  lemma {:induction false} ReadMatrixLayout(lines: seq<Line>)
    requires Read(lines).Ok?
    ensures 2 + |lines[1]| <= |lines|
    ensures Read(lines).value.n >= 0 ==> UpperTriangular(Read(lines).value.a, Read(lines).value.n)
    ensures RowLinesFit(lines, 2 + |lines[1]|, Read(lines).value.n)
    ensures AtLeastSquare(Read(lines).value.a, Read(lines).value.n)
      && EntriesFromLines(lines, 2 + |lines[1]|, Read(lines).value.n, Read(lines).value.a)
  {
    var sizes, subsets, vals := ReadParts(lines);
    RowsLayout(lines, 2 + |sizes|, Read(lines).value.n, vals);
  }

  /** The rows the loop read, as lines of the file and as entries of the matrix. */
  lemma {:induction false} RowsLayout(lines: seq<Line>, first: nat, n: int, vals: seq<seq<real>>)
    requires first <= |lines| && Rows(lines, first, RowCount(lines, first, n), n) == Ok(vals)
    ensures RowLinesFit(lines, first, n)
    ensures AtLeastSquare(Matrix(n, vals), n) && EntriesFromLines(lines, first, n, Matrix(n, vals))
  {
    forall i | first <= i < |lines| && i - first < n
      ensures FloatsOf(lines[i]).Some? && i - first + |lines[i]| <= n
    {
      RowLine(lines, first, n, vals, i - first);
    }
    forall r, c | 0 <= r < n && 0 <= c < n
      ensures first + r < |lines| && r <= c < r + |lines[first + r]| ==>
        Some(Matrix(n, vals)[r][c]) == NumberOf(lines[first + r][c - r])
      ensures !(first + r < |lines| && r <= c < r + |lines[first + r]|) ==> Matrix(n, vals)[r][c] == 0.0
    {
      RowEntry(lines, first, n, vals, r, c);
    }
  }

  /** A row the loop read is a line of numbers short enough to fit, and is what was stored. */
  lemma {:induction false} RowLine(lines: seq<Line>, first: nat, n: int, vals: seq<seq<real>>, r: int)
    requires first <= |lines| && Rows(lines, first, RowCount(lines, first, n), n) == Ok(vals)
    requires 0 <= r < n && first + r < |lines|
    ensures r < |vals| && FloatsOf(lines[first + r]).Some? && r + |lines[first + r]| <= n
    ensures vals[r] == FloatsOf(lines[first + r]).value
  {
    assert r < RowCount(lines, first, n);
    assert RowAt(lines, first, r, n).Ok?;
  }

  /** Entry `(r, c)` of the matrix read is the number at column `c - r` of row line `r` when there
      is one, and zero otherwise. */
  lemma {:induction false} RowEntry(lines: seq<Line>, first: nat, n: int, vals: seq<seq<real>>, r: int, c: int)
    requires first <= |lines| && Rows(lines, first, RowCount(lines, first, n), n) == Ok(vals)
    requires 0 <= r < n && 0 <= c < n
    ensures first + r < |lines| && r <= c < r + |lines[first + r]| ==>
      Some(Matrix(n, vals)[r][c]) == NumberOf(lines[first + r][c - r])
    ensures !(first + r < |lines| && r <= c < r + |lines[first + r]|) ==> Matrix(n, vals)[r][c] == 0.0
  {
    assert Matrix(n, vals)[r][c] == Entry(vals, r, c);
    if first + r < |lines| {
      RowLine(lines, first, n, vals, r);
    } else {
      assert r >= RowCount(lines, first, n);
    }
  }

  /** A subset line whose distinct count differs from its declared size makes the read fail with
      `ValueError`, once everything before it was read. */
  lemma {:induction false} ReadSizeMismatch(lines: seq<Line>, k: nat)
    requires |lines| >= 2 && ParseN(lines[0]).Some? && IntsOf(lines[1]).Some?
    requires k < |lines[1]| && 2 + k < |lines|
    requires forall j :: 0 <= j < k ==> SubsetAt(lines, j, lines[1][j].i).Ok?
    requires IntsOf(lines[2 + k]).Some?
    requires |SetOf(IntsOf(lines[2 + k]).value)| != lines[1][k].i
    ensures Read(lines) == Err(SizeMismatch(2 + k, lines[1][k].i, |SetOf(IntsOf(lines[2 + k]).value)|))
  {
    var sizes := IntsOf(lines[1]).value;
    SubsetsFirstError(lines, sizes, k);
  }

  /** A row line with more numbers than columns left (`r + len(values) > n`) makes the read fail
      with `IndexError`, once everything before it was read. */
  lemma {:induction false} ReadOverlongRow(lines: seq<Line>, r: nat)
    requires |lines| >= 2 && ParseN(lines[0]).Some? && IntsOf(lines[1]).Some?
    requires Subsets(lines, IntsOf(lines[1]).value).Ok?
    requires var first := 2 + |lines[1]|;
      && r < ParseN(lines[0]).value && first + r < |lines|
      && (forall j :: 0 <= j < r ==> RowAt(lines, first, j, ParseN(lines[0]).value).Ok?)
      && FloatsOf(lines[first + r]).Some?
      && r + |lines[first + r]| > ParseN(lines[0]).value
    ensures Read(lines) == Err(ColumnOutOfRange(2 + |lines[1]| + r))
  {
    var n := ParseN(lines[0]).value;
    var sizes := IntsOf(lines[1]).value;
    var first := 2 + |sizes|;
    var count := RowCount(lines, first, n);
    assert r < count;
    RowsFirstError(lines, first, count, n, r);
  }

  /** Lines after the `n`-th row line are never looked at: appending anything to a file that
      already holds all `n` rows reads back the same instance. */
  lemma {:induction false} ReadIgnoresTrailingLines(lines: seq<Line>, extra: seq<Line>)
    requires Read(lines).Ok?
    requires 2 + |lines[1]| + Read(lines).value.n <= |lines|
    ensures Read(lines + extra) == Read(lines)
  {
    var all := lines + extra;
    var n := Read(lines).value.n;
    var sizes := IntsOf(lines[1]).value;
    assert all[0] == lines[0] && all[1] == lines[1];
    var first := 2 + |sizes|;
    forall k | 0 <= k < |sizes| ensures SubsetAt(all, k, sizes[k]) == SubsetAt(lines, k, sizes[k]) {
      assert Subsets(lines, sizes).Ok?;
      assert SubsetAt(lines, k, sizes[k]).Ok?;
      assert all[2 + k] == lines[2 + k];
    }
    var s1 := Subsets(lines, sizes);
    var s2 := Subsets(all, sizes);
    assert s1.Ok? && s2.Ok?;
    assert s2.value == s1.value;
    assert first <= |lines|;
    var count := RowCount(lines, first, n);
    assert RowCount(all, first, n) == count;
    forall k | 0 <= k < count ensures RowAt(all, first, k, n) == RowAt(lines, first, k, n) {
      assert all[first + k] == lines[first + k];
    }
    var r1 := Rows(lines, first, count, n);
    var r2 := Rows(all, first, count, n);
    assert r1.Ok? && r2.Ok?;
    assert r2.value == r1.value;
  }
}
