/** Row-major real matrices and the sequence reductions numpy applies along
    `axis=1`: sum, mean, max, first argmin / argmax, counting and search. */
module Matrices {
  import opened Wrappers

  /** A two-dimensional array: its rows and its column count (`shape[1]`),
      kept separately so that a batch with no rows still has a width. */
  datatype Grid = Grid(rows: seq<seq<real>>, width: nat) {
    predicate Rectangular() {
      forall i :: 0 <= i < |rows| ==> |rows[i]| == width
    }
  }

  /** numpy arrays are always rectangular. */
  type Matrix = g: Grid | g.Rectangular() witness Grid([], 0)

  function Abs(x: real): (r: real)
    ensures r >= 0.0 && (r == x || r == -x)
  {
    if x < 0.0 then -x else x
  }

  function Min(a: nat, b: nat): nat
  {
    if a < b then a else b
  }

  /** `np.sum` of one row. */
  function Sum(s: seq<real>): real
  {
    if |s| == 0 then 0.0 else s[0] + Sum(s[1..])
  }

  /** `np.mean` of one non-empty row. */
  function Mean(s: seq<real>): real
    requires |s| > 0
  {
    Sum(s) / (|s| as real)
  }

  predicate NonNegative(s: seq<real>) {
    forall k :: 0 <= k < |s| ==> 0.0 <= s[k]
  }

  /** `np.argmin`: the FIRST index holding the least value. */
  function ArgMin(s: seq<real>): (k: nat)
    requires |s| > 0
    ensures k < |s|
    ensures forall j :: 0 <= j < |s| ==> s[k] <= s[j]
    ensures forall j :: 0 <= j < k ==> s[k] < s[j]
  {
    if |s| == 1 then 0
    else
      var m := ArgMin(s[..|s| - 1]);
      if s[|s| - 1] < s[m] then |s| - 1 else m
  }

  /** `np.argmax`: the FIRST index holding the greatest value. */
  function ArgMax(s: seq<real>): (k: nat)
    requires |s| > 0
    ensures k < |s|
    ensures forall j :: 0 <= j < |s| ==> s[j] <= s[k]
    ensures forall j :: 0 <= j < k ==> s[j] < s[k]
  {
    if |s| == 1 then 0
    else
      var m := ArgMax(s[..|s| - 1]);
      if s[m] < s[|s| - 1] then |s| - 1 else m
  }

  /** `np.max` of one non-empty row. */
  function Max(s: seq<real>): (r: real)
    requires |s| > 0
    ensures forall k :: 0 <= k < |s| ==> s[k] <= r
    ensures r in s
  {
    s[ArgMax(s)]
  }

  /** How often `x` occurs in `s`. */
  function Count(s: seq<real>, x: real): nat
  {
    multiset(s)[x]
  }

  /** `np.where(s == x)[0][0]`, or None where numpy would raise IndexError. */
  function FirstIndexOf(s: seq<real>, x: real): (r: Option<nat>)
    ensures r.Some? ==> r.value < |s| && s[r.value] == x
    ensures r.Some? ==> forall j :: 0 <= j < r.value ==> s[j] != x
    ensures r.None? <==> x !in s
  {
    if |s| == 0 then None
    else if s[0] == x then Some(0)
    else
      match FirstIndexOf(s[1..], x)
      case None => None
      case Some(k) =>
        assert forall j :: 1 <= j <= k + 1 ==> s[j] == s[1..][j - 1];
        Some(k + 1)
  }

  /** `row[idxs]`: numpy fancy indexing of one row. */
  function Select(row: seq<real>, idxs: seq<nat>): (r: seq<real>)
    requires forall j :: 0 <= j < |idxs| ==> idxs[j] < |row|
    ensures |r| == |idxs|
    ensures forall j :: 0 <= j < |idxs| ==> r[j] == row[idxs[j]]
  {
    seq(|idxs|, j requires 0 <= j < |idxs| => row[idxs[j]])
  }

  /** `m[:, idxs]`: gathers the listed columns, in the listed order. */
  function SelectColumns(m: Matrix, idxs: seq<nat>): (r: Matrix)
    requires forall j :: 0 <= j < |idxs| ==> idxs[j] < m.width
    ensures |r.rows| == |m.rows| && r.width == |idxs|
    ensures forall i :: 0 <= i < |m.rows| ==> r.rows[i] == Select(m.rows[i], idxs)
  {
    Grid(seq(|m.rows|, i requires 0 <= i < |m.rows| => Select(m.rows[i], idxs)), |idxs|)
  }

  /** `m[:, k]`: one column, as a sequence with one entry per row. */
  function Column(m: Matrix, k: nat): (c: seq<real>)
    requires k < m.width
    ensures |c| == |m.rows|
    ensures forall i :: 0 <= i < |m.rows| ==> c[i] == m.rows[i][k]
  {
    seq(|m.rows|, i requires 0 <= i < |m.rows| => m.rows[i][k])
  }

  /** numpy's broadcast of two row counts: equal counts stay, a count of 1 is
      stretched to the other one, and any other pair raises ValueError (None). */
  function BroadcastRows(a: nat, b: nat): (r: Option<nat>)
    ensures r.Some? <==> a == b || a == 1 || b == 1
    ensures r.Some? ==> (r.value == a || a == 1) && (r.value == b || b == 1)
    ensures r.Some? ==> r.value == a || r.value == b
  {
    if a == b || b == 1 then Some(a)
    else if a == 1 then Some(b)
    else None
  }

  /** The row of an operand with `n` rows that row i of a broadcast reads:
      a single row is read by every result row. */
  function Source(i: nat, n: nat): (k: nat)
    ensures n == 1 ==> k == 0
    ensures n != 1 ==> k == i
  {
    if n == 1 then 0 else i
  }

  /** Without stretching, every result row reads its own row. */
  lemma SourceOfEqualRows(i: nat, n: nat)
    requires i < n
    ensures Source(i, n) == i
  {
  }

  /** `m / d` where `d` is an (n, 1) column: every entry of result row i is
      the entry of m's source row divided by d's source entry, with the rows
      of both operands broadcast as numpy does. */
  function BroadcastDivide(m: Matrix, d: seq<real>): (r: Matrix)
    requires BroadcastRows(|m.rows|, |d|).Some?
    requires forall i :: 0 <= i < |d| ==> d[i] != 0.0
    ensures |r.rows| == BroadcastRows(|m.rows|, |d|).value && r.width == m.width
    ensures forall i, j {:trigger r.rows[i][j]} :: 0 <= i < |r.rows| && 0 <= j < m.width ==>
              r.rows[i][j] * d[Source(i, |d|)] == m.rows[Source(i, |m.rows|)][j]
  {
    var n := BroadcastRows(|m.rows|, |d|).value;
    var r := Grid(seq(n, i requires 0 <= i < n => BroadcastDivideRow(m, d, i)), m.width);
    assert forall i :: 0 <= i < n ==> r.rows[i] == BroadcastDivideRow(m, d, i);
    r
  }

  /** Row i of `m / d` under broadcasting. */
  function BroadcastDivideRow(m: Matrix, d: seq<real>, i: nat): (row: seq<real>)
    requires BroadcastRows(|m.rows|, |d|).Some? && i < BroadcastRows(|m.rows|, |d|).value
    requires forall k :: 0 <= k < |d| ==> d[k] != 0.0
    ensures Source(i, |m.rows|) < |m.rows| && Source(i, |d|) < |d|
    ensures |row| == m.width
    ensures forall j :: 0 <= j < m.width ==> row[j] * d[Source(i, |d|)] == m.rows[Source(i, |m.rows|)][j]
  {
    SourceInBounds(i, |m.rows|, |d|);
    var x, y := m.rows[Source(i, |m.rows|)], d[Source(i, |d|)];
    var row := seq(m.width, j requires 0 <= j < m.width => x[j] / y);
    assert forall j :: 0 <= j < m.width ==> row[j] * y == x[j] by {
      forall j | 0 <= j < m.width ensures row[j] * y == x[j] {
        DivideThenMultiply(x[j], y);
      }
    }
    row
  }

  /** `c / d` for two (n, 1) columns, with their rows broadcast. */
  function BroadcastDivideColumn(c: seq<real>, d: seq<real>): (r: seq<real>)
    requires BroadcastRows(|c|, |d|).Some?
    requires forall i :: 0 <= i < |d| ==> d[i] != 0.0
    ensures |r| == BroadcastRows(|c|, |d|).value
    ensures forall i {:trigger r[i]} :: 0 <= i < |r| ==> r[i] * d[Source(i, |d|)] == c[Source(i, |c|)]
  {
    var n := BroadcastRows(|c|, |d|).value;
    var r := seq(n, i requires 0 <= i < n => BroadcastDivideEntry(c, d, i));
    r
  }

  /** Row i of `c / d` under broadcasting. */
  function BroadcastDivideEntry(c: seq<real>, d: seq<real>, i: nat): (x: real)
    requires BroadcastRows(|c|, |d|).Some? && i < BroadcastRows(|c|, |d|).value
    requires forall k :: 0 <= k < |d| ==> d[k] != 0.0
    ensures Source(i, |c|) < |c| && Source(i, |d|) < |d|
    ensures x * d[Source(i, |d|)] == c[Source(i, |c|)]
  {
    SourceInBounds(i, |c|, |d|);
    DivideThenMultiply(c[Source(i, |c|)], d[Source(i, |d|)]);
    c[Source(i, |c|)] / d[Source(i, |d|)]
  }

  /** Every row of a broadcast reads an existing row of each operand. */
  lemma SourceInBounds(i: nat, a: nat, b: nat)
    requires BroadcastRows(a, b).Some? && i < BroadcastRows(a, b).value
    ensures Source(i, a) < a && Source(i, b) < b
  {
  }

  lemma DivideThenMultiply(x: real, d: real)
    requires d != 0.0
    ensures (x / d) * d == x
  {
  }

  /** Sum distributes over concatenation. */
  lemma {:induction false} SumConcat(a: seq<real>, b: seq<real>)
    ensures Sum(a + b) == Sum(a) + Sum(b)
  {
    if |a| == 0 {
      assert a + b == b;
    } else {
      assert (a + b)[1..] == a[1..] + b;
      SumConcat(a[1..], b);
    }
  }

  /** Splitting a row at any point splits its sum. */
  lemma SumSplit(s: seq<real>, k: nat)
    requires k <= |s|
    ensures Sum(s) == Sum(s[..k]) + Sum(s[k..])
  {
    assert s == s[..k] + s[k..];
    SumConcat(s[..k], s[k..]);
  }

  lemma {:induction false} SumNonNegative(s: seq<real>)
    requires NonNegative(s)
    ensures Sum(s) >= 0.0
  {
    if |s| > 0 {
      SumNonNegative(s[1..]);
    }
  }

  /** Sum is monotone in every entry. */
  lemma {:induction false} SumMonotone(a: seq<real>, b: seq<real>)
    requires |a| == |b|
    requires forall k :: 0 <= k < |a| ==> a[k] <= b[k]
    ensures Sum(a) <= Sum(b)
  {
    if |a| > 0 {
      SumMonotone(a[1..], b[1..]);
    }
  }

  /** A row bounded entrywise by `c` sums to at most its length times `c`. */
  lemma {:induction false} SumAtMostLengthTimes(s: seq<real>, c: real)
    requires forall k :: 0 <= k < |s| ==> s[k] <= c
    ensures Sum(s) <= (|s| as real) * c
  {
    if |s| > 0 {
      var t := s[1..];
      SumAtMostLengthTimes(t, c);
      assert (|s| as real) * c == c + (|t| as real) * c;
    }
  }

  /** For a non-negative row, every entry is at most the sum. */
  lemma {:induction false} EntryAtMostSum(s: seq<real>, k: nat)
    requires NonNegative(s) && k < |s|
    ensures s[k] <= Sum(s)
  {
    if k == 0 {
      SumNonNegative(s[1..]);
    } else {
      EntryAtMostSum(s[1..], k - 1);
    }
  }

  /** For a non-negative row, the maximum is at most the sum. */
  lemma MaxAtMostSum(s: seq<real>)
    requires |s| > 0 && NonNegative(s)
    ensures Max(s) <= Sum(s)
  {
    EntryAtMostSum(s, ArgMax(s));
  }

  lemma DivNonNegative(a: real, s: real)
    requires a >= 0.0 && s > 0.0
    ensures a / s >= 0.0
  {
  }

  lemma DivAtMostOne(a: real, s: real)
    requires a <= s && s > 0.0
    ensures a / s <= 1.0
    ensures a == s ==> a / s == 1.0
  {
  }

  lemma AddDivide(a: real, b: real, c: real, s: real)
    requires s != 0.0
    ensures a / s + b / s + c / s == (a + b + c) / s
  {
  }

  /** A share x with x * d == a of a non-zero d equal to a is 1. */
  lemma ShareOfRow(x: real, a: real, d: real)
    requires d != 0.0 && x * d == a && a == d
    ensures x == 1.0
  {
    assert (x - 1.0) * d == 0.0;
  }

  /** With s <= n m and m <= s, the ratio m / (s / n) lies in [1, n]. */
  lemma RatioBounds(m: real, s: real, n: real)
    requires s > 0.0 && n >= 1.0
    requires s <= n * m && m <= s
    ensures 1.0 <= m / (s / n) <= n
  {
    assert m / (s / n) == m * n / s;
  }

  lemma SumSingleton(x: real)
    ensures Sum([x]) == x
  {
    assert [x][1..] == [];
  }

  lemma MeanSingleton(x: real)
    ensures Mean([x]) == x
  {
    SumSingleton(x);
  }

  function Constant(n: nat, c: real): (s: seq<real>)
    ensures |s| == n && forall k :: 0 <= k < n ==> s[k] == c
  {
    seq(n, _ => c)
  }

  lemma {:induction false} SumConstant(n: nat, c: real)
    ensures Sum(Constant(n, c)) == (n as real) * c
  {
    if n > 0 {
      assert Constant(n, c)[1..] == Constant(n - 1, c);
      SumConstant(n - 1, c);
    }
  }

  /** Scaling a non-negative value by a gain in [0, 1] cannot make it grow. */
  lemma ScaleAtMost(a: real, g: real)
    requires 0.0 <= a && 0.0 <= g <= 1.0
    ensures 0.0 <= a * g <= a
  {
  }

  /** The same bound for a value already known to be the scaled one. */
  lemma ScaledAtMost(v: real, a: real, g: real)
    requires v == a * g && 0.0 <= a && 0.0 <= g <= 1.0
    ensures 0.0 <= v <= a
  {
    ScaleAtMost(a, g);
  }

  lemma DivideAtMost(x: real, y: real, w: real)
    requires x <= y && w > 0.0
    ensures x / w <= y / w
  {
  }

  lemma DivideMonotone(x: real, y: real, d: real)
    requires x < y && d > 0.0
    ensures x / d < y / d
  {
  }

  /** Three non-negative shares of a positive total, as fractions of it. */
  lemma QuotientBounds(t: seq<real>, a: real, b: real, c: real, s: real)
    requires a >= 0.0 && b >= 0.0 && c >= 0.0 && s > 0.0 && a + b + c <= s
    requires |t| == 3 && t[0] == a / s && t[1] == b / s && t[2] == c / s
    ensures t[0] >= 0.0 && t[1] >= 0.0 && t[2] >= 0.0
    ensures t[0] + t[1] + t[2] <= 1.0
    ensures a + b + c == s ==> t[0] + t[1] + t[2] == 1.0
  {
    DivNonNegative(a, s);
    DivNonNegative(b, s);
    DivNonNegative(c, s);
    AddDivide(a, b, c, s);
    DivAtMostOne(a + b + c, s);
  }
}
