/** The instance file as the generator scripts write it: `n`, the subset sizes, one line per
    subset listing its elements, then `n` rows of the upper triangle holding `n, n - 1, ..., 1`
    values. The lines are given as the tokens the reader splits them into. */
module InstanceWriter {
  import opened Common
  import opened QbfInstance
  import opened InstanceReader

  /** A line listing every element of `s` exactly once, in some order (a Python set has no fixed
      iteration order). */
  predicate ListsSet(line: Line, s: set<int>)
  {
    IntsOf(line).Some? && |line| == |s| && SetOf(IntsOf(line).value) == s
  }

  /** The tokens `str(x)` for the integers `xs`. */
  function IntLine(xs: seq<int>): (line: Line)
    ensures IntsOf(line) == Some(xs)
  {
    var line := seq(|xs|, t requires 0 <= t < |xs| => IntTok(xs[t]));
    assert IntsOf(line).value == xs;
    line
  }

  /** The tokens `str(x)` for the numbers `xs`. */
  function NumberLine(xs: seq<real>): (line: Line)
    ensures FloatsOf(line) == Some(xs)
  {
    var line := seq(|xs|, t requires 0 <= t < |xs| => RealTok(xs[t]));
    assert FloatsOf(line).value == xs;
    line
  }

  /** The sizes line: `len(subset)` for each subset, in order. */
  function SizesLine(subsets: seq<set<int>>): (line: Line)
    ensures IntsOf(line).Some? && |line| == |subsets|
    ensures forall k :: 0 <= k < |subsets| ==> IntsOf(line).value[k] == |subsets[k]|
  {
    IntLine(seq(|subsets|, k requires 0 <= k < |subsets| => |subsets[k]|))
  }

  /** The first `2 + |subsets|` lines: `n`, the sizes, and each subset. */
  predicate Header(lines: seq<Line>, n: int, subsets: seq<set<int>>)
  {
    && |lines| >= 2 + |subsets|
    && lines[0] == [IntTok(n)]
    && lines[1] == SizesLine(subsets)
    && forall k :: 0 <= k < |subsets| ==> ListsSet(lines[2 + k], subsets[k])
  }

  /** `rows` holds `n` rows of `n, n - 1, ..., 1` values: row `r` is the part of matrix row `r`
      from the diagonal rightwards. */
  predicate Triangular(rows: seq<seq<real>>, n: int)
  {
    |rows| == n && forall r :: 0 <= r < |rows| ==> |rows[r]| == n - r
  }

  /** The whole file: the header followed by one line per row. */
  predicate Layout(lines: seq<Line>, n: int, subsets: seq<set<int>>, rows: seq<seq<real>>)
  {
    && Header(lines, n, subsets)
    && |lines| == 2 + |subsets| + |rows|
    && forall r :: 0 <= r < |rows| ==> lines[2 + |subsets| + r] == NumberLine(rows[r])
  }

  /** The inner `for element in subset` loop: writes each element of the subset once. */
  method WriteSubset(s: set<int>) returns (line: Line)
    ensures ListsSet(line, s)
  {
    line := [];
    var rest := s;
    ghost var order: seq<int> := [];
    while rest != {}
      invariant SetOf(order) <= s && rest == s - SetOf(order) && Distinct(order)
      invariant |line| == |order| && forall t :: 0 <= t < |line| ==> line[t] == IntTok(order[t])
      decreases |rest|
    {
      NonEmptyHasElement(rest);
      var e :| e in rest;
      TakeStep(s, rest, order, e);
      line := line + [IntTok(e)];
      order := order + [e];
      rest := rest - {e};
    }
    assert SetOf(order) == s;
    ListedInOrder(line, order);
  }

  /** Moving `e` from what is left of `s` to the written part keeps the two apart and complete. */
  lemma {:induction false} TakeStep(s: set<int>, rest: set<int>, order: seq<int>, e: int)
    requires SetOf(order) <= s && rest == s - SetOf(order) && Distinct(order) && e in rest
    ensures SetOf(order + [e]) <= s && rest - {e} == s - SetOf(order + [e]) && Distinct(order + [e])
    ensures |rest - {e}| < |rest|
  {
    assert e !in SetOf(order);
    DistinctAppend(order, e);
  }

  /** Writing the distinct integers `order` one per token lists the set of them. */
  lemma {:induction false} ListedInOrder(line: Line, order: seq<int>)
    requires Distinct(order)
    requires |line| == |order| && forall t :: 0 <= t < |line| ==> line[t] == IntTok(order[t])
    ensures ListsSet(line, SetOf(order))
  {
    assert line == IntLine(order);
    DistinctCard(order);
  }

  /** The header part of `create_instance`: line 0 is `n`, line 1 the sizes, then one line per
      subset listing its elements. */
  method WriteHeader(n: int, subsets: seq<set<int>>) returns (lines: seq<Line>)
    ensures |lines| == 2 + |subsets| && Header(lines, n, subsets)
  {
    var sizes: Line := [];
    for k := 0 to |subsets|
      invariant sizes == IntLine(seq(k, j requires 0 <= j < k => |subsets[j]|))
    {
      assert IntLine(seq(k + 1, j requires 0 <= j < k + 1 => |subsets[j]|))
          == sizes + [IntTok(|subsets[k]|)];
      sizes := sizes + [IntTok(|subsets[k]|)];
    }
    lines := [[IntTok(n)], sizes];
    for k := 0 to |subsets|
      invariant |lines| == 2 + k && lines[0] == [IntTok(n)] && lines[1] == SizesLine(subsets)
      invariant forall j :: 0 <= j < k ==> ListsSet(lines[2 + j], subsets[j])
    {
      var line := WriteSubset(subsets[k]);
      lines := lines + [line];
    }
  }

  /** Reading back a file with this layout yields the written `n` and subsets (as sets, in order)
      without error, and a matrix whose upper triangle holds the written rows and whose lower
      triangle is zero. */
  lemma {:induction false} ReadWritten(lines: seq<Line>, n: nat, subsets: seq<set<int>>, rows: seq<seq<real>>)
    requires Layout(lines, n, subsets, rows) && Triangular(rows, n)
    ensures Read(lines) == Ok(Instance(n, subsets, Matrix(n, rows)))
  {
    assert ParseN(lines[0]) == Some(n);
    var sizes := IntsOf(lines[1]).value;
    assert |sizes| == |subsets|;
    forall k | 0 <= k < |sizes| ensures SubsetAt(lines, k, sizes[k]) == Ok(subsets[k]) {
      assert ListsSet(lines[2 + k], subsets[k]);
    }
    var subs := Subsets(lines, sizes);
    assert subs.Ok? && subs.value == subsets;
    var first := 2 + |sizes|;
    assert RowCount(lines, first, n) == n;
    forall r | 0 <= r < n ensures RowAt(lines, first, r, n) == Ok(rows[r]) {
      assert lines[first + r] == NumberLine(rows[r]);
    }
    var rs := Rows(lines, first, n, n);
    assert rs.Ok? && rs.value == rows;
  }

  /** The header lines followed by one line per row have the file layout, and so read back as the
      written instance. */
  lemma {:induction false} ReadAssembled(header: seq<Line>, rowLines: seq<Line>, n: nat, subsets: seq<set<int>>, rows: seq<seq<real>>)
    requires |header| == 2 + |subsets| && Header(header, n, subsets)
    requires Triangular(rows, n) && |rowLines| == n
    requires forall r :: 0 <= r < n ==> rowLines[r] == NumberLine(rows[r])
    ensures Layout(header + rowLines, n, subsets, rows)
    ensures Read(header + rowLines) == Ok(Instance(n, subsets, Matrix(n, rows)))
  {
    var lines := header + rowLines;
    assert lines[..2 + |subsets|] == header;
    assert forall r :: 0 <= r < n ==> lines[2 + |subsets| + r] == rowLines[r];
    ReadWritten(lines, n, subsets, rows);
  }
}
