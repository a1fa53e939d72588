/**
 * The computations behind the charts of graphics.py: the interquartile-range
 * outlier report of `generar_estadisticas_outliers`, and the two per-seller
 * aggregations that feed the bar charts (`value_counts` of the seller column
 * and the mean price per seller sorted ascending).
 *
 * A table row is a record of the four columns written by the scraper; prices
 * are reals. Quartiles are pandas' default linear interpolation at position
 * q·(n−1) of the sorted prices.
 */
module Graphics {
  import opened Wrappers

  /** One row of the price table. */
  datatype Row = Row(imagen: string, producto: string, precio: real, vendedor: string)

  // ---------------------------------------------------------------------------
  // Sorting by a key
  // ---------------------------------------------------------------------------

  predicate SortedBy<T>(s: seq<T>, key: T -> real) {
    forall i, j :: 0 <= i < j < |s| ==> key(s[i]) <= key(s[j])
  }

  /** Inserts `x` before the first element whose key is not smaller. */
  function Insert<T>(x: T, s: seq<T>, key: T -> real): (r: seq<T>)
    ensures multiset(r) == multiset{x} + multiset(s)
  {
    if s == [] then [x]
    else if key(x) <= key(s[0]) then [x] + s
    else
      assert s == [s[0]] + s[1..];
      [s[0]] + Insert(x, s[1..], key)
  }

  /** Insertion sort by key, ascending. */
  function SortBy<T>(xs: seq<T>, key: T -> real): (r: seq<T>)
    ensures multiset(r) == multiset(xs)
  {
    if xs == [] then []
    else
      assert xs == [xs[0]] + xs[1..];
      Insert(xs[0], SortBy(xs[1..], key), key)
  }

  /** Every key of `Insert(x, s)` stays at or above a bound that `x` and all of `s` respect. */
  lemma {:induction false} InsertBounded<T>(x: T, s: seq<T>, key: T -> real, b: real)
    requires b <= key(x) && forall i :: 0 <= i < |s| ==> b <= key(s[i])
    ensures forall i :: 0 <= i < |Insert(x, s, key)| ==> b <= key(Insert(x, s, key)[i])
  {
    if s != [] && key(x) > key(s[0]) {
      InsertBounded(x, s[1..], key, b);
    }
  }

  lemma ConsSorted<T>(a: T, t: seq<T>, key: T -> real)
    requires SortedBy(t, key) && forall k :: 0 <= k < |t| ==> key(a) <= key(t[k])
    ensures SortedBy([a] + t, key)
  {
    var r := [a] + t;
    forall i, j | 0 <= i < j < |r|
      ensures key(r[i]) <= key(r[j])
    {
      assert r[j] == t[j - 1];
      if i > 0 {
        assert r[i] == t[i - 1];
      }
    }
  }

  lemma {:induction false} InsertSorted<T>(x: T, s: seq<T>, key: T -> real)
    requires SortedBy(s, key)
    ensures SortedBy(Insert(x, s, key), key)
  {
    if s == [] {
    } else if key(x) <= key(s[0]) {
      ConsSorted(x, s, key);
    } else {
      assert SortedBy(s[1..], key);
      InsertSorted(x, s[1..], key);
      InsertBounded(x, s[1..], key, key(s[0]));
      ConsSorted(s[0], Insert(x, s[1..], key), key);
    }
  }

  /** The result of `SortBy` is ordered by the key. */
  lemma {:induction false} SortBySorted<T>(xs: seq<T>, key: T -> real)
    ensures SortedBy(SortBy(xs, key), key)
  {
    if xs != [] {
      SortBySorted(xs[1..], key);
      InsertSorted(xs[0], SortBy(xs[1..], key), key);
    }
  }

  /** The reals as their own sort key. */
  function Self(x: real): real { x }

  function Ascending(s: seq<real>): seq<real> {
    SortBy(s, Self)
  }

  predicate IsAscending(s: seq<real>) {
    forall i, j :: 0 <= i < j < |s| ==> s[i] <= s[j]
  }

  /** `Ascending` is ordered and a permutation of its input. */
  lemma AscendingFacts(s: seq<real>)
    ensures IsAscending(Ascending(s))
    ensures multiset(Ascending(s)) == multiset(s)
    ensures |Ascending(s)| == |s|
  {
    SortBySorted(s, Self);
    assert |multiset(Ascending(s))| == |multiset(s)|;
  }

  // ---------------------------------------------------------------------------
  // Percentiles by linear interpolation
  // ---------------------------------------------------------------------------

  /**
   * The value at position m/4 of the sorted data `s`: the element at the whole
   * part of the position plus the fractional part of the way to the next one.
   */
  function Quarter(s: seq<real>, m: nat): (v: real)
    requires s != [] && m <= 4 * (|s| - 1)
  {
    var lo := m / 4;
    var frac := (m % 4) as real / 4.0;
    if lo + 1 < |s| then s[lo] + frac * (s[lo + 1] - s[lo]) else s[lo]
  }

  lemma MulAtMostFour(k: nat, n: nat)
    requires k <= 4
    ensures k * n <= 4 * n
  {
  }

  /** The k/4 quantile of sorted data: position k·(n−1)/4. */
  function Quartile(s: seq<real>, k: nat): real
    requires s != [] && k <= 4
  {
    MulAtMostFour(k, |s| - 1);
    Quarter(s, k * (|s| - 1))
  }

  lemma QuarterStep(s: seq<real>, m: nat)
    requires s != [] && IsAscending(s) && m < 4 * (|s| - 1)
    ensures Quarter(s, m) <= Quarter(s, m + 1)
  {
    var lo := m / 4;
    var d := s[lo + 1] - s[lo];
    assert d >= 0.0;
    if (m + 1) % 4 == 0 {
      assert (m + 1) / 4 == lo + 1 && m % 4 == 3;
      assert Quarter(s, m) == s[lo] + 0.75 * d;
    } else {
      assert (m + 1) / 4 == lo && (m + 1) % 4 == m % 4 + 1;
      var f := (m % 4) as real / 4.0;
      assert Quarter(s, m) == s[lo] + f * d;
      assert Quarter(s, m + 1) == s[lo] + (f + 0.25) * d;
      assert (f + 0.25) * d == f * d + 0.25 * d;
    }
  }

  /** Interpolated values never decrease with the position. */
  lemma {:induction false} QuarterMonotone(s: seq<real>, m: nat, m': nat)
    requires s != [] && IsAscending(s) && m <= m' <= 4 * (|s| - 1)
    ensures Quarter(s, m) <= Quarter(s, m')
    decreases m' - m
  {
    if m < m' {
      QuarterStep(s, m);
      QuarterMonotone(s, m + 1, m');
    }
  }

  /** Quantiles are monotone in q, start at the minimum and end at the maximum. */
  lemma QuartileFacts(s: seq<real>, k: nat, k': nat)
    requires s != [] && IsAscending(s) && k <= k' <= 4
    ensures Quartile(s, k) <= Quartile(s, k')
    ensures Quartile(s, 0) == s[0] && Quartile(s, 4) == s[|s| - 1]
    ensures s[0] <= Quartile(s, k) && Quartile(s, k') <= s[|s| - 1]
  {
    var n := |s| - 1;
    MulAtMostFour(k', n);
    assert k * n <= k' * n;
    QuarterMonotone(s, k * n, k' * n);
    QuarterMonotone(s, 0, k * n);
    QuarterMonotone(s, k' * n, 4 * n);
    assert (4 * n) / 4 == n && (4 * n) % 4 == 0;
  }

  // ---------------------------------------------------------------------------
  // The outlier report
  // ---------------------------------------------------------------------------

  /** A statistic that pandas may report as NaN. */
  datatype Num = Real(v: real) | NaN

  /** `describe()` of the price column, restricted to the order statistics (no mean, no std). */
  datatype Stats =
    | EmptySeries
    | Describe(count: nat, min: Num, q1: Num, median: Num, q3: Num, max: Num)

  /** The five-tuple returned by `generar_estadisticas_outliers`. */
  datatype Report = Report(stats: Stats, threshold: real, lower: Num, upper: Num, outliers: seq<Row>)

  const OutlierThreshold: real := 1.5

  /** Line 22: Q1 − threshold·IQR. */
  function LowerFence(q1: real, q3: real): real { q1 - OutlierThreshold * (q3 - q1) }

  /** Line 23: Q3 + threshold·IQR. */
  function UpperFence(q1: real, q3: real): real { q3 + OutlierThreshold * (q3 - q1) }

  /** `data_frame['Precio']`: the price column, in table order. */
  function Prices(rows: seq<Row>): seq<real> {
    seq(|rows|, i requires 0 <= i < |rows| => rows[i].precio)
  }

  /** `x < bound`, false when the bound is NaN. */
  predicate Below(x: real, bound: Num) { bound.Real? && x < bound.v }

  /** `x > bound`, false when the bound is NaN. */
  predicate Above(x: real, bound: Num) { bound.Real? && x > bound.v }

  predicate Outside(r: Row, lower: Num, upper: Num) {
    Below(r.precio, lower) || Above(r.precio, upper)
  }

  /** The boolean-mask selection of line 24: the rows outside the fences, in table order. */
  function Outliers(rows: seq<Row>, lower: Num, upper: Num): seq<Row> {
    if rows == [] then []
    else (if Outside(rows[0], lower, upper) then [rows[0]] else []) + Outliers(rows[1..], lower, upper)
  }

  /** `a` is obtained from `b` by deleting elements. */
  predicate IsSubsequence(a: seq<Row>, b: seq<Row>) {
    if a == [] then true
    else if b == [] then false
    else (a[0] == b[0] && IsSubsequence(a[1..], b[1..])) || IsSubsequence(a, b[1..])
  }

  lemma {:induction false} SubsequenceOfTail(a: seq<Row>, b: seq<Row>)
    requires b != [] && IsSubsequence(a, b[1..])
    ensures IsSubsequence(a, b)
  {
  }

  /** The outliers are a subsequence of the table and exactly its rows strictly outside the fences. */
  lemma {:induction false} OutliersFacts(rows: seq<Row>, lower: Num, upper: Num)
    ensures IsSubsequence(Outliers(rows, lower, upper), rows)
    ensures forall r :: r in Outliers(rows, lower, upper) <==> r in rows && Outside(r, lower, upper)
  {
    if rows != [] {
      OutliersFacts(rows[1..], lower, upper);
      var rest := Outliers(rows[1..], lower, upper);
      assert rows == [rows[0]] + rows[1..];
      if Outside(rows[0], lower, upper) {
        assert Outliers(rows, lower, upper) == [rows[0]] + rest;
        assert Outliers(rows, lower, upper)[1..] == rest;
      } else {
        assert Outliers(rows, lower, upper) == rest;
        if rest != [] {
          SubsequenceOfTail(rest, rows);
        }
      }
    }
  }

  /** The mask keeps every copy of a row outside the fences and no copy of any other row. */
  lemma {:induction false} OutliersCopies(rows: seq<Row>, lower: Num, upper: Num)
    ensures forall r :: multiset(Outliers(rows, lower, upper))[r] == if Outside(r, lower, upper) then multiset(rows)[r] else 0
  {
    if rows != [] {
      OutliersCopies(rows[1..], lower, upper);
      assert rows == [rows[0]] + rows[1..];
      assert multiset(rows) == multiset{rows[0]} + multiset(rows[1..]);
      var head := if Outside(rows[0], lower, upper) then [rows[0]] else [];
      assert Outliers(rows, lower, upper) == head + Outliers(rows[1..], lower, upper);
      assert multiset(Outliers(rows, lower, upper)) == multiset(head) + multiset(Outliers(rows[1..], lower, upper));
    }
  }

  /** `generar_estadisticas_outliers`: `None` gives the zeroed tuple of line 28. */
  function GenerarEstadisticasOutliers(df: Option<seq<Row>>): (r: Report) {
    match df
    case None => Report(EmptySeries, 0.0, Real(0.0), Real(0.0), [])
    case Some(rows) =>
      if rows == [] then
        // describe() of an empty column: count 0 and NaN for every order statistic
        Report(Describe(0, NaN, NaN, NaN, NaN, NaN), OutlierThreshold, NaN, NaN, Outliers(rows, NaN, NaN))
      else
        var s := Ascending(Prices(rows));
        AscendingFacts(Prices(rows));
        var q1 := Quartile(s, 1);
        var q3 := Quartile(s, 3);
        var lower := LowerFence(q1, q3);
        var upper := UpperFence(q1, q3);
        Report(Describe(|rows|, Real(s[0]), Real(q1), Real(Quartile(s, 2)), Real(q3), Real(s[|s| - 1])),
               OutlierThreshold, Real(lower), Real(upper), Outliers(rows, Real(lower), Real(upper)))
  }

  /** Lines 19 and 28: without a table the report is empty stats, threshold 0, fences 0 and no outliers. */
  lemma ReportOfNone()
    ensures GenerarEstadisticasOutliers(None) == Report(EmptySeries, 0.0, Real(0.0), Real(0.0), [])
  {
  }

  /**
   * Lines 20 to 23: on a non-empty table the threshold is 1.5, the fences are
   * Q1 − 1.5·IQR and Q3 + 1.5·IQR, and they enclose the order statistics:
   * lower ≤ Q1 ≤ median ≤ Q3 ≤ upper, with min and max the smallest and largest prices.
   */
  lemma ReportFences(rows: seq<Row>)
    requires rows != []
    ensures var r := GenerarEstadisticasOutliers(Some(rows));
            && r.stats.Describe? && r.stats.count == |rows|
            && r.stats.min.Real? && r.stats.q1.Real? && r.stats.median.Real? && r.stats.q3.Real? && r.stats.max.Real?
            && r.lower.Real? && r.upper.Real?
            && r.threshold == 1.5
            && r.lower.v == r.stats.q1.v - 1.5 * (r.stats.q3.v - r.stats.q1.v)
            && r.upper.v == r.stats.q3.v + 1.5 * (r.stats.q3.v - r.stats.q1.v)
            && r.lower.v <= r.stats.q1.v <= r.stats.median.v <= r.stats.q3.v <= r.upper.v
            && r.stats.min.v <= r.stats.q1.v && r.stats.q3.v <= r.stats.max.v
            && (forall i :: 0 <= i < |rows| ==> r.stats.min.v <= rows[i].precio <= r.stats.max.v)
            && (exists i :: 0 <= i < |rows| && rows[i].precio == r.stats.min.v)
            && (exists i :: 0 <= i < |rows| && rows[i].precio == r.stats.max.v)
  {
    var ps := Prices(rows);
    var s := Ascending(ps);
    AscendingFacts(ps);
    QuartileFacts(s, 1, 2);
    QuartileFacts(s, 2, 3);
    ReportFromQuartiles(rows, s, Quartile(s, 1), Quartile(s, 2), Quartile(s, 3));
    FencesEnclose(Quartile(s, 1), Quartile(s, 3));
    ExtremesOfSorted(ps, s);
    assert forall i :: 0 <= i < |rows| ==> ps[i] == rows[i].precio;
  }

  /** Lines 22 to 23: with Q1 ≤ Q3 the fences lie outside [Q1, Q3]. */
  lemma FencesEnclose(q1: real, q3: real)
    requires q1 <= q3
    ensures LowerFence(q1, q3) <= q1 && q3 <= UpperFence(q1, q3)
  {
  }

  /** The first and last sorted values are the smallest and largest of the data, and occur in it. */
  lemma ExtremesOfSorted(ps: seq<real>, s: seq<real>)
    requires s != [] && IsAscending(s) && multiset(s) == multiset(ps)
    ensures forall i :: 0 <= i < |ps| ==> s[0] <= ps[i] <= s[|s| - 1]
    ensures s[0] in ps && s[|s| - 1] in ps
  {
    forall i | 0 <= i < |ps|
      ensures s[0] <= ps[i] <= s[|s| - 1]
    {
      assert ps[i] in multiset(s);
      var j :| 0 <= j < |s| && s[j] == ps[i];
    }
    assert s[0] in multiset(ps) && s[|s| - 1] in multiset(ps);
  }

  /**
   * Line 24: a row is reported exactly when its price is strictly below the
   * lower fence or strictly above the upper one; the report keeps whole rows
   * in table order; a price within [Q1, Q3], or exactly on a fence, is never reported.
   */
  lemma ReportOutliers(rows: seq<Row>)
    ensures var r := GenerarEstadisticasOutliers(Some(rows));
            && IsSubsequence(r.outliers, rows)
            && (forall x :: x in r.outliers <==> x in rows && (Below(x.precio, r.lower) || Above(x.precio, r.upper)))
            && forall x :: multiset(r.outliers)[x] == if Below(x.precio, r.lower) || Above(x.precio, r.upper) then multiset(rows)[x] else 0
    ensures var r := GenerarEstadisticasOutliers(Some(rows));
            rows != [] ==>
              forall x ::
                x in rows && (x.precio == r.lower.v || x.precio == r.upper.v || r.stats.q1.v <= x.precio <= r.stats.q3.v)
                ==> x !in r.outliers
  {
    var r := GenerarEstadisticasOutliers(Some(rows));
    OutliersFacts(rows, r.lower, r.upper);
    OutliersCopies(rows, r.lower, r.upper);
    if rows != [] {
      ReportFences(rows);
    }
  }

  /** An empty, non-missing table has NaN order statistics and no outliers. */
  lemma ReportOfEmptyTable()
    ensures GenerarEstadisticasOutliers(Some([])) == Report(Describe(0, NaN, NaN, NaN, NaN, NaN), 1.5, NaN, NaN, [])
  {
  }

  // ---------------------------------------------------------------------------
  // The worked example of the fence rule
  // ---------------------------------------------------------------------------

  lemma InsertExample1(s: seq<real>)
    requires s == [100.0]
    ensures Insert(12.0, s, Self) == [12.0, 100.0]
  {
  }

  lemma InsertExample2(s: seq<real>)
    requires s == [12.0, 100.0]
    ensures Insert(13.0, s, Self) == [12.0, 13.0, 100.0]
  {
    assert s[1..] == [100.0];
  }

  lemma InsertExample3(s: seq<real>)
    requires s == [12.0, 13.0, 100.0]
    ensures Insert(11.0, s, Self) == [11.0, 12.0, 13.0, 100.0]
    ensures Insert(12.0, s, Self) == [12.0, 12.0, 13.0, 100.0]
  {
  }

  lemma InsertExample4(s: seq<real>)
    requires s == [11.0, 12.0, 13.0, 100.0]
    ensures Insert(12.0, s, Self) == [11.0, 12.0, 12.0, 13.0, 100.0]
  {
    assert s[1..] == [12.0, 13.0, 100.0];
    InsertExample3(s[1..]);
  }

  lemma InsertExample5(s: seq<real>)
    requires s == [11.0, 12.0, 12.0, 13.0, 100.0]
    ensures Insert(10.0, s, Self) == [10.0, 11.0, 12.0, 12.0, 13.0, 100.0]
  {
  }

  lemma SortByStep(xs: seq<real>, sorted: seq<real>)
    requires xs != [] && SortBy(xs[1..], Self) == sorted
    ensures SortBy(xs, Self) == Insert(xs[0], sorted, Self)
  {
  }

  lemma SortExamplePrices(ps: seq<real>)
    requires ps == [10.0, 12.0, 11.0, 13.0, 12.0, 100.0]
    ensures Ascending(ps) == [10.0, 11.0, 12.0, 12.0, 13.0, 100.0]
  {
    assert ps[5..][1..] == [];
    SortByStep(ps[5..], []);
    assert ps[4..][1..] == ps[5..];
    SortByStep(ps[4..], [100.0]);
    InsertExample1([100.0]);
    assert ps[3..][1..] == ps[4..];
    SortByStep(ps[3..], [12.0, 100.0]);
    InsertExample2([12.0, 100.0]);
    assert ps[2..][1..] == ps[3..];
    SortByStep(ps[2..], [12.0, 13.0, 100.0]);
    InsertExample3([12.0, 13.0, 100.0]);
    assert ps[1..][1..] == ps[2..];
    SortByStep(ps[1..], [11.0, 12.0, 13.0, 100.0]);
    InsertExample4([11.0, 12.0, 13.0, 100.0]);
    SortByStep(ps, [11.0, 12.0, 12.0, 13.0, 100.0]);
    InsertExample5([11.0, 12.0, 12.0, 13.0, 100.0]);
  }

  lemma ExampleQuartiles(s: seq<real>)
    requires s == [10.0, 11.0, 12.0, 12.0, 13.0, 100.0]
    ensures Quartile(s, 1) == 11.25 && Quartile(s, 2) == 12.0 && Quartile(s, 3) == 12.75
  {
    assert Quartile(s, 1) == Quarter(s, 5) == 11.0 + 0.25 * (12.0 - 11.0);
    assert Quartile(s, 2) == Quarter(s, 10) == 12.0 + 0.5 * (12.0 - 12.0);
    assert Quartile(s, 3) == Quarter(s, 15) == 12.0 + 0.75 * (13.0 - 12.0);
  }

  function ExampleRows(): seq<Row> {
    [Row("", "a", 10.0, "X"), Row("", "b", 12.0, "Y"), Row("", "c", 11.0, "X"),
     Row("", "d", 13.0, "Z"), Row("", "e", 12.0, "Y"), Row("", "f", 100.0, "X")]
  }

  lemma ExampleOutliers(rows: seq<Row>)
    requires rows == ExampleRows()
    ensures Outliers(rows, Real(9.0), Real(15.0)) == [rows[5]]
  {
    assert Outliers(rows[5..], Real(9.0), Real(15.0)) == [rows[5]];
    assert Outliers(rows[4..], Real(9.0), Real(15.0)) == [rows[5]];
    assert Outliers(rows[3..], Real(9.0), Real(15.0)) == [rows[5]];
    assert Outliers(rows[2..], Real(9.0), Real(15.0)) == [rows[5]];
    assert Outliers(rows[1..], Real(9.0), Real(15.0)) == [rows[5]];
  }

  lemma ExamplePriceColumn(rows: seq<Row>)
    requires rows == ExampleRows()
    ensures Prices(rows) == [10.0, 12.0, 11.0, 13.0, 12.0, 100.0]
  {
  }

  /** The report of a non-empty table, given its sorted prices and quartiles. */
  lemma ReportFromQuartiles(rows: seq<Row>, s: seq<real>, q1: real, q2: real, q3: real)
    requires rows != [] && Ascending(Prices(rows)) == s && |s| == |rows|
    requires Quartile(s, 1) == q1 && Quartile(s, 2) == q2 && Quartile(s, 3) == q3
    ensures var lower, upper := LowerFence(q1, q3), UpperFence(q1, q3);
            GenerarEstadisticasOutliers(Some(rows))
            == Report(Describe(|rows|, Real(s[0]), Real(q1), Real(q2), Real(q3), Real(s[|s| - 1])),
                      1.5, Real(lower), Real(upper), Outliers(rows, Real(lower), Real(upper)))
  {
  }

  /**
   * Prices 10, 12, 11, 13, 12, 100: Q1 = 11.25, median 12, Q3 = 12.75, the
   * fences are 9.0 and 15.0, and only the row priced 100 is reported.
   */
  lemma ExampleReport()
    ensures var r := GenerarEstadisticasOutliers(Some(ExampleRows()));
            && r.stats == Describe(6, Real(10.0), Real(11.25), Real(12.0), Real(12.75), Real(100.0))
            && r.lower == Real(9.0) && r.upper == Real(15.0)
            && r.outliers == [Row("", "f", 100.0, "X")]
  {
    var rows := ExampleRows();
    ExamplePriceColumn(rows);
    var s := [10.0, 11.0, 12.0, 12.0, 13.0, 100.0];
    SortExamplePrices(Prices(rows));
    ExampleQuartiles(s);
    ReportFromQuartiles(rows, s, 11.25, 12.0, 12.75);
    assert LowerFence(11.25, 12.75) == 9.0;
    assert UpperFence(11.25, 12.75) == 15.0;
    ExampleOutliers(rows);
  }

  // ---------------------------------------------------------------------------
  // Per-seller aggregation (lines 72 and 91)
  // ---------------------------------------------------------------------------

  /** The rows of one seller seen so far: how many and the sum of their prices. */
  datatype Group = Group(vendedor: string, count: nat, total: real)

  /** Number of rows of seller `v`. */
  function CountOf(rows: seq<Row>, v: string): (n: nat)
    ensures n <= |rows|
  {
    if rows == [] then 0
    else CountOf(rows[..|rows| - 1], v) + (if rows[|rows| - 1].vendedor == v then 1 else 0)
  }

  /** Sum of the prices of seller `v`. */
  function TotalOf(rows: seq<Row>, v: string): real {
    if rows == [] then 0.0
    else TotalOf(rows[..|rows| - 1], v) + (if rows[|rows| - 1].vendedor == v then rows[|rows| - 1].precio else 0.0)
  }

  lemma {:induction false} CountOfPositive(rows: seq<Row>, v: string)
    ensures CountOf(rows, v) > 0 <==> exists i :: 0 <= i < |rows| && rows[i].vendedor == v
  {
    if rows != [] {
      var init := rows[..|rows| - 1];
      CountOfPositive(init, v);
      if exists i :: 0 <= i < |rows| && rows[i].vendedor == v {
        var i :| 0 <= i < |rows| && rows[i].vendedor == v;
        if i < |rows| - 1 {
          assert init[i] == rows[i];
        }
      }
      if exists i :: 0 <= i < |init| && init[i].vendedor == v {
        var i :| 0 <= i < |init| && init[i].vendedor == v;
        assert rows[i] == init[i];
      }
    }
  }

  /** The group of seller `v`, if any. */
  function GroupOf(gs: seq<Group>, v: string): (r: Option<Group>)
    ensures r.Some? ==> r.value.vendedor == v
  {
    if gs == [] then None
    else if gs[0].vendedor == v then Some(gs[0])
    else GroupOf(gs[1..], v)
  }

  /** A lookup that succeeds returns the first group of that seller. */
  lemma {:induction false} GroupOfIndex(gs: seq<Group>, v: string) returns (k: nat)
    requires GroupOf(gs, v).Some?
    ensures k < |gs| && gs[k] == GroupOf(gs, v).value
    ensures forall j :: 0 <= j < k ==> gs[j].vendedor != v
  {
    if gs[0].vendedor == v {
      k := 0;
    } else {
      var k' := GroupOfIndex(gs[1..], v);
      k := k' + 1;
      assert gs[k] == gs[1..][k'];
      forall j | 0 < j < k
        ensures gs[j].vendedor != v
      {
        assert gs[j] == gs[1..][j - 1];
      }
    }
  }

  /** A lookup fails exactly when no group has that seller. */
  lemma {:induction false} GroupOfNone(gs: seq<Group>, v: string)
    ensures GroupOf(gs, v).None? <==> forall i :: 0 <= i < |gs| ==> gs[i].vendedor != v
  {
    if gs != [] && gs[0].vendedor != v {
      GroupOfNone(gs[1..], v);
      assert forall i :: 1 <= i < |gs| ==> gs[i] == gs[1..][i - 1];
    }
  }

  function CountIn(gs: seq<Group>, v: string): nat {
    match GroupOf(gs, v)
    case None => 0
    case Some(g) => g.count
  }

  function TotalIn(gs: seq<Group>, v: string): real {
    match GroupOf(gs, v)
    case None => 0.0
    case Some(g) => g.total
  }

  predicate DistinctSellers(gs: seq<Group>) {
    forall i, j :: 0 <= i < j < |gs| ==> gs[i].vendedor != gs[j].vendedor
  }

  predicate NonEmptyGroups(gs: seq<Group>) {
    forall i :: 0 <= i < |gs| ==> gs[i].count > 0
  }

  function SumGroups(gs: seq<Group>): nat {
    if gs == [] then 0 else gs[0].count + SumGroups(gs[1..])
  }

  /** Adds one row to its seller's group, opening a group at the end for a new seller. */
  function AddTo(gs: seq<Group>, r: Row): seq<Group> {
    if gs == [] then [Group(r.vendedor, 1, r.precio)]
    else if gs[0].vendedor == r.vendedor then [gs[0].(count := gs[0].count + 1, total := gs[0].total + r.precio)] + gs[1..]
    else [gs[0]] + AddTo(gs[1..], r)
  }

  /** Looking a seller up after adding a row: that seller's group is opened or incremented, the others are untouched. */
  lemma {:induction false} AddToGroupOf(gs: seq<Group>, r: Row, v: string)
    ensures GroupOf(AddTo(gs, r), v)
            == if v != r.vendedor then GroupOf(gs, v)
               else match GroupOf(gs, v)
                    case None => Some(Group(v, 1, r.precio))
                    case Some(g) => Some(g.(count := g.count + 1, total := g.total + r.precio))
  {
    if gs != [] {
      var a := AddTo(gs, r);
      var g := gs[0];
      if g.vendedor == r.vendedor {
        var g' := g.(count := g.count + 1, total := g.total + r.precio);
        assert a == [g'] + gs[1..];
        assert a[0] == g' && a[1..] == gs[1..];
        if v == r.vendedor {
          assert GroupOf(a, v) == Some(g');
          assert GroupOf(gs, v) == Some(g);
        } else {
          assert GroupOf(a, v) == GroupOf(gs[1..], v);
          assert GroupOf(gs, v) == GroupOf(gs[1..], v);
        }
      } else {
        assert a == [g] + AddTo(gs[1..], r);
        assert a[0] == g && a[1..] == AddTo(gs[1..], r);
        if g.vendedor == v {
          assert GroupOf(a, v) == Some(g) == GroupOf(gs, v);
        } else {
          assert GroupOf(a, v) == GroupOf(AddTo(gs[1..], r), v);
          assert GroupOf(gs, v) == GroupOf(gs[1..], v);
          AddToGroupOf(gs[1..], r, v);
        }
      }
    }
  }

  /** Adding a row keeps every group in place, never lowers a count, and appends a group only for a new seller. */
  lemma {:induction false} AddToShape(gs: seq<Group>, r: Row)
    ensures |AddTo(gs, r)| == |gs| || |AddTo(gs, r)| == |gs| + 1
    ensures forall i :: 0 <= i < |gs| ==>
              AddTo(gs, r)[i].vendedor == gs[i].vendedor && AddTo(gs, r)[i].count >= gs[i].count
    ensures |AddTo(gs, r)| == |gs| + 1 ==>
              AddTo(gs, r)[|gs|] == Group(r.vendedor, 1, r.precio)
              && forall i :: 0 <= i < |gs| ==> gs[i].vendedor != r.vendedor
  {
    if gs != [] && gs[0].vendedor != r.vendedor {
      AddToShape(gs[1..], r);
      var a := AddTo(gs, r);
      assert forall i :: 1 <= i < |a| ==> a[i] == AddTo(gs[1..], r)[i - 1];
      assert forall i :: 1 <= i < |gs| ==> gs[i] == gs[1..][i - 1];
    }
  }

  lemma {:induction false} AddToSum(gs: seq<Group>, r: Row)
    ensures SumGroups(AddTo(gs, r)) == SumGroups(gs) + 1
  {
    if gs != [] {
      var a := AddTo(gs, r);
      if gs[0].vendedor == r.vendedor {
        assert a[1..] == gs[1..];
      } else {
        assert a[1..] == AddTo(gs[1..], r);
        AddToSum(gs[1..], r);
      }
    }
  }

  lemma AddToFacts(gs: seq<Group>, r: Row)
    requires DistinctSellers(gs) && NonEmptyGroups(gs)
    ensures DistinctSellers(AddTo(gs, r)) && NonEmptyGroups(AddTo(gs, r))
    ensures SumGroups(AddTo(gs, r)) == SumGroups(gs) + 1
    ensures forall v :: CountIn(AddTo(gs, r), v) == CountIn(gs, v) + (if v == r.vendedor then 1 else 0)
    ensures forall v :: TotalIn(AddTo(gs, r), v) == TotalIn(gs, v) + (if v == r.vendedor then r.precio else 0.0)
  {
    AddToShape(gs, r);
    AddToSum(gs, r);
    var a := AddTo(gs, r);
    forall i, j | 0 <= i < j < |a|
      ensures a[i].vendedor != a[j].vendedor
    {
      if j == |gs| {
        assert a[j].vendedor == r.vendedor;
      }
    }
    forall i | 0 <= i < |a|
      ensures a[i].count > 0
    {
      if i == |gs| {
        assert a[i].count == 1;
      }
    }
    forall v
      ensures CountIn(AddTo(gs, r), v) == CountIn(gs, v) + (if v == r.vendedor then 1 else 0)
      ensures TotalIn(AddTo(gs, r), v) == TotalIn(gs, v) + (if v == r.vendedor then r.precio else 0.0)
    {
      AddToGroupOf(gs, r, v);
    }
  }

  /** Groups the rows by seller, in order of first appearance. */
  function Tally(rows: seq<Row>): seq<Group> {
    if rows == [] then [] else AddTo(Tally(rows[..|rows| - 1]), rows[|rows| - 1])
  }

  /**
   * One group per distinct seller, none empty; each group's count and total
   * are the seller's row count and price sum; the counts add up to the rows.
   */
  lemma {:induction false} TallyFacts(rows: seq<Row>)
    ensures DistinctSellers(Tally(rows)) && NonEmptyGroups(Tally(rows))
    ensures SumGroups(Tally(rows)) == |rows|
    ensures forall v :: CountIn(Tally(rows), v) == CountOf(rows, v)
    ensures forall v :: TotalIn(Tally(rows), v) == TotalOf(rows, v)
  {
    if rows != [] {
      TallyFacts(rows[..|rows| - 1]);
      AddToFacts(Tally(rows[..|rows| - 1]), rows[|rows| - 1]);
    }
  }

  /** In distinct groups, a seller's lookup finds that seller's own group. */
  lemma GroupOfMember(gs: seq<Group>, i: nat)
    requires DistinctSellers(gs) && i < |gs|
    ensures GroupOf(gs, gs[i].vendedor) == Some(gs[i])
  {
    GroupOfNone(gs, gs[i].vendedor);
    var k := GroupOfIndex(gs, gs[i].vendedor);
  }

  // ---------------------------------------------------------------------------
  // Name-keyed pairs and what sorting keeps of them
  // ---------------------------------------------------------------------------

  predicate DistinctNames<V>(ps: seq<(string, V)>) {
    forall i, j :: 0 <= i < j < |ps| ==> ps[i].0 != ps[j].0
  }

  lemma ConsDistinct<V>(a: (string, V), t: seq<(string, V)>)
    requires DistinctNames(t) && forall k :: 0 <= k < |t| ==> t[k].0 != a.0
    ensures DistinctNames([a] + t)
  {
    var r := [a] + t;
    forall i, j | 0 <= i < j < |r|
      ensures r[i].0 != r[j].0
    {
      assert r[j] == t[j - 1];
      if i > 0 {
        assert r[i] == t[i - 1];
      }
    }
  }

  /** A name that neither `x` nor any element of `s` carries is not carried by `Insert(x, s)` either. */
  lemma {:induction false} InsertAvoids<V>(x: (string, V), s: seq<(string, V)>, key: ((string, V)) -> real, name: string)
    requires x.0 != name && forall i :: 0 <= i < |s| ==> s[i].0 != name
    ensures forall i :: 0 <= i < |Insert(x, s, key)| ==> Insert(x, s, key)[i].0 != name
  {
    if s != [] && key(x) > key(s[0]) {
      InsertAvoids(x, s[1..], key, name);
    }
  }

  lemma {:induction false} InsertDistinct<V>(x: (string, V), s: seq<(string, V)>, key: ((string, V)) -> real)
    requires DistinctNames(s) && forall i :: 0 <= i < |s| ==> s[i].0 != x.0
    ensures DistinctNames(Insert(x, s, key))
  {
    if s == [] {
    } else if key(x) <= key(s[0]) {
      ConsDistinct(x, s);
    } else {
      assert DistinctNames(s[1..]);
      InsertDistinct(x, s[1..], key);
      InsertAvoids(x, s[1..], key, s[0].0);
      ConsDistinct(s[0], Insert(x, s[1..], key));
    }
  }

  lemma {:induction false} SortByDistinct<V>(xs: seq<(string, V)>, key: ((string, V)) -> real)
    requires DistinctNames(xs)
    ensures DistinctNames(SortBy(xs, key))
  {
    if xs != [] {
      var rest := SortBy(xs[1..], key);
      SortByDistinct(xs[1..], key);
      forall k | 0 <= k < |rest|
        ensures rest[k].0 != xs[0].0
      {
        assert rest[k] in multiset(xs[1..]);
        var m :| 0 <= m < |xs[1..]| && xs[1..][m] == rest[k];
        assert xs[m + 1] == rest[k];
      }
      InsertDistinct(xs[0], rest, key);
    }
  }

  function SumCounts(ps: seq<(string, nat)>): nat {
    if ps == [] then 0 else ps[0].1 + SumCounts(ps[1..])
  }

  lemma {:induction false} InsertSum(x: (string, nat), s: seq<(string, nat)>, key: ((string, nat)) -> real)
    ensures SumCounts(Insert(x, s, key)) == x.1 + SumCounts(s)
  {
    if s != [] && key(x) > key(s[0]) {
      InsertSum(x, s[1..], key);
      assert Insert(x, s, key)[1..] == Insert(x, s[1..], key);
    } else if s != [] {
      assert Insert(x, s, key)[1..] == s;
    }
  }

  lemma {:induction false} SortBySum(xs: seq<(string, nat)>, key: ((string, nat)) -> real)
    ensures SumCounts(SortBy(xs, key)) == SumCounts(xs)
  {
    if xs != [] {
      SortBySum(xs[1..], key);
      InsertSum(xs[0], SortBy(xs[1..], key), key);
    }
  }

  // ---------------------------------------------------------------------------
  // value_counts of the seller column (line 72)
  // ---------------------------------------------------------------------------

  /** Each group as a (seller, count) entry, in group order. */
  function CountPairs(gs: seq<Group>): (ps: seq<(string, nat)>)
    ensures |ps| == |gs| && forall i :: 0 <= i < |gs| ==> ps[i] == (gs[i].vendedor, gs[i].count)
  {
    seq(|gs|, i requires 0 <= i < |gs| => (gs[i].vendedor, gs[i].count))
  }

  lemma {:induction false} SumCountPairs(gs: seq<Group>)
    ensures SumCounts(CountPairs(gs)) == SumGroups(gs)
  {
    if gs != [] {
      SumCountPairs(gs[1..]);
      assert CountPairs(gs)[1..] == CountPairs(gs[1..]);
    }
  }

  /** Sort key putting larger counts first. */
  function ByCountDesc(p: (string, nat)): real { -(p.1 as real) }

  /** `data_frame['Vendedor'].value_counts()`: each seller with its row count, largest count first. */
  function ValueCounts(rows: seq<Row>): seq<(string, nat)> {
    SortBy(CountPairs(Tally(rows)), ByCountDesc)
  }

  /**
   * One entry per distinct seller of the table, each with that seller's
   * number of rows, in non-increasing order of count; the counts add up to
   * the number of rows.
   */
  lemma ValueCountsSpec(rows: seq<Row>)
    ensures var vc := ValueCounts(rows);
            && DistinctNames(vc)
            && (forall i, j :: 0 <= i < j < |vc| ==> vc[i].1 >= vc[j].1)
            && (forall i :: 0 <= i < |vc| ==> vc[i].1 == CountOf(rows, vc[i].0) && vc[i].1 > 0)
            && (forall j :: 0 <= j < |rows| ==> (rows[j].vendedor, CountOf(rows, rows[j].vendedor)) in vc)
            && SumCounts(vc) == |rows|
  {
    var gs := Tally(rows);
    var ps := CountPairs(gs);
    var vc := ValueCounts(rows);
    TallyFacts(rows);
    SortBySorted(ps, ByCountDesc);
    SortByDistinct(ps, ByCountDesc);
    SortBySum(ps, ByCountDesc);
    SumCountPairs(gs);
    forall i | 0 <= i < |vc|
      ensures vc[i].1 == CountOf(rows, vc[i].0) && vc[i].1 > 0
    {
      assert vc[i] in multiset(ps);
      var k :| 0 <= k < |ps| && ps[k] == vc[i];
      GroupOfMember(gs, k);
      assert CountIn(gs, gs[k].vendedor) == gs[k].count;
    }
    forall j | 0 <= j < |rows|
      ensures (rows[j].vendedor, CountOf(rows, rows[j].vendedor)) in vc
    {
      var v := rows[j].vendedor;
      CountOfPositive(rows, v);
      assert CountIn(gs, v) > 0;
      var k := GroupOfIndex(gs, v);
      assert ps[k] == (v, CountOf(rows, v));
      assert ps[k] in multiset(vc);
    }
    forall i, j | 0 <= i < j < |vc|
      ensures vc[i].1 >= vc[j].1
    {
      assert ByCountDesc(vc[i]) <= ByCountDesc(vc[j]);
    }
  }

  // ---------------------------------------------------------------------------
  // Mean price per seller, ascending (line 91)
  // ---------------------------------------------------------------------------

  /** Each group as a (seller, mean price) entry, in group order. */
  function MeanPairs(gs: seq<Group>): (ps: seq<(string, real)>)
    requires NonEmptyGroups(gs)
    ensures |ps| == |gs|
    ensures forall i :: 0 <= i < |gs| ==> ps[i] == (gs[i].vendedor, gs[i].total / gs[i].count as real)
  {
    seq(|gs|, i requires 0 <= i < |gs| => (gs[i].vendedor, gs[i].total / gs[i].count as real))
  }

  function ByMean(p: (string, real)): real { p.1 }

  /** `groupby('Vendedor')['Precio'].mean().sort_values()`. */
  function MeanPrices(rows: seq<Row>): seq<(string, real)> {
    TallyFacts(rows);
    SortBy(MeanPairs(Tally(rows)), ByMean)
  }

  /** The grouped means before sorting: exactly one entry per seller, holding that seller's mean price. */
  lemma MeanPairsFacts(rows: seq<Row>)
    ensures NonEmptyGroups(Tally(rows))
    ensures var ps := MeanPairs(Tally(rows));
            && DistinctNames(ps)
            && (forall e :: e in ps ==> CountOf(rows, e.0) > 0 && e.1 == TotalOf(rows, e.0) / CountOf(rows, e.0) as real)
            && (forall j :: 0 <= j < |rows| ==>
                  && CountOf(rows, rows[j].vendedor) > 0
                  && (rows[j].vendedor, TotalOf(rows, rows[j].vendedor) / CountOf(rows, rows[j].vendedor) as real) in ps)
  {
    var gs := Tally(rows);
    TallyFacts(rows);
    var ps := MeanPairs(gs);
    forall e | e in ps
      ensures CountOf(rows, e.0) > 0 && e.1 == TotalOf(rows, e.0) / CountOf(rows, e.0) as real
    {
      var k :| 0 <= k < |ps| && ps[k] == e;
      GroupOfMember(gs, k);
      assert CountIn(gs, gs[k].vendedor) == gs[k].count;
      assert TotalIn(gs, gs[k].vendedor) == gs[k].total;
    }
    forall j | 0 <= j < |rows|
      ensures CountOf(rows, rows[j].vendedor) > 0
      ensures (rows[j].vendedor, TotalOf(rows, rows[j].vendedor) / CountOf(rows, rows[j].vendedor) as real) in ps
    {
      var v := rows[j].vendedor;
      CountOfPositive(rows, v);
      assert CountIn(gs, v) > 0;
      var k := GroupOfIndex(gs, v);
      GroupOfMember(gs, k);
      assert ps[k] == (v, TotalOf(rows, v) / CountOf(rows, v) as real);
    }
  }

  /**
   * One entry per distinct seller of the table, each with the mean of that
   * seller's prices, in non-decreasing order of mean, and a permutation of
   * the grouped means.
   */
  lemma MeanPricesSpec(rows: seq<Row>)
    ensures NonEmptyGroups(Tally(rows)) && multiset(MeanPrices(rows)) == multiset(MeanPairs(Tally(rows)))
    ensures var m := MeanPrices(rows);
            && DistinctNames(m)
            && (forall i, j :: 0 <= i < j < |m| ==> m[i].1 <= m[j].1)
            && (forall i :: 0 <= i < |m| ==>
                  CountOf(rows, m[i].0) > 0 && m[i].1 == TotalOf(rows, m[i].0) / CountOf(rows, m[i].0) as real)
            && (forall j :: 0 <= j < |rows| ==>
                  && CountOf(rows, rows[j].vendedor) > 0
                  && (rows[j].vendedor, TotalOf(rows, rows[j].vendedor) / CountOf(rows, rows[j].vendedor) as real) in m)
  {
    MeanPairsFacts(rows);
    var ps := MeanPairs(Tally(rows));
    var m := MeanPrices(rows);
    SortBySorted(ps, ByMean);
    SortByDistinct(ps, ByMean);
    forall i | 0 <= i < |m|
      ensures m[i] in ps
    {
      assert m[i] in multiset(ps);
    }
    forall e | e in ps
      ensures e in m
    {
      assert e in multiset(m);
    }
    forall i, j | 0 <= i < j < |m|
      ensures m[i].1 <= m[j].1
    {
      assert ByMean(m[i]) <= ByMean(m[j]);
    }
  }
}
