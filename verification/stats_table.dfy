/** The per-column view of a fetch result that the REST API answers with
    (`StatsAPI._stats` in stats_api.py): a `timestamps` list and, for every
    data source, the list of its values, all of equal length, with the rows
    in which every data source is null removed. */
module StatsTable {
  import opened Base
  import Rrd

  /** `self._stats`: the `timestamps` list and one value list per data
      source, the data sources in the order rrdtool named them. */
  datatype Table = Table(timestamps: seq<int>, names: seq<string>, columns: seq<seq<Cell>>)

  /** One list per data source, each as long as the timestamps list. */
  predicate Aligned(t: Table)
  {
    && |t.names| == |t.columns|
    && forall c :: 0 <= c < |t.columns| ==> |t.columns[c]| == |t.timestamps|
  }

  /** A row of the table read across all its lists. */
  datatype Row = Row(timestamp: int, values: seq<Cell>)

  /** The rows of an aligned table, in order. */
  function Rows(t: Table): (r: seq<Row>)
    requires Aligned(t)
    ensures |r| == |t.timestamps|
    ensures forall j :: 0 <= j < |r| ==> |r[j].values| == |t.columns|
  {
    seq(|t.timestamps|, j requires 0 <= j < |t.timestamps| =>
      Row(t.timestamps[j], seq(|t.columns|, c requires 0 <= c < |t.columns| => t.columns[c][j])))
  }

  // ------------------------------------------------------------- _fetch

  /** The values of one data source, one per row in row order (the loop
      `for col, value in zip(cols, row)` of StatsAPI._fetch). */
  function Column(rows: seq<seq<Cell>>, c: nat): (r: seq<Cell>)
    requires forall j :: 0 <= j < |rows| ==> c < |rows[j]|
    ensures |r| == |rows|
  {
    seq(|rows|, j requires 0 <= j < |rows| => rows[j][c])
  }

  /** The table StatsAPI._fetch builds before removing null rows. */
  function FetchTable(f: Rrd.Fetched): (t: Table)
    requires f.Shaped()
    ensures Aligned(t)
    ensures t.timestamps == f.timestamps && t.names == f.cols
  {
    Table(f.timestamps, f.cols, seq(|f.cols|, c requires 0 <= c < |f.cols| => Column(f.rows, c)))
  }

  /** Transposing the rows into lists and reading the lists back across
      gives every fetched row back, beside its timestamp. */
  lemma FetchTableRows(f: Rrd.Fetched)
    requires f.Shaped()
    ensures Rows(FetchTable(f)) == seq(|f.rows|, j requires 0 <= j < |f.rows| => Row(f.timestamps[j], f.rows[j]))
  {
    var t := FetchTable(f);
    forall j | 0 <= j < |f.rows|
      ensures Rows(t)[j] == Row(f.timestamps[j], f.rows[j])
    {
      assert Rows(t)[j].values == f.rows[j];
    }
  }

  // -------------------------------------------------------- null removal

  /** Whether some data source of row `j` has a value. */
  predicate HasValue(t: Table, j: nat)
    requires Aligned(t) && j < |t.timestamps|
  {
    exists c :: 0 <= c < |t.columns| && t.columns[c][j].Value?
  }

  /** For every row, whether _remove_null keeps it. */
  function Mask(t: Table): (m: seq<bool>)
    requires Aligned(t)
    ensures |m| == |t.timestamps|
  {
    seq(|t.timestamps|, j requires 0 <= j < |t.timestamps| => HasValue(t, j))
  }

  /** The elements of `s` whose flag in `m` is set, in order. */
  function Filter<T>(s: seq<T>, m: seq<bool>): (r: seq<T>)
    requires |s| == |m|
    ensures |r| == Count(m)
  {
    if |s| == 0 then []
    else (if m[0] then [s[0]] else []) + Filter(s[1..], m[1..])
  }

  function Count(m: seq<bool>): (n: nat)
    ensures n <= |m|
  {
    if |m| == 0 then 0 else (if m[0] then 1 else 0) + Count(m[1..])
  }

  /** The position of the k-th set flag. */
  function Nth(m: seq<bool>, k: nat): (i: nat)
    requires k < Count(m)
    ensures i < |m| && m[i]
  {
    if m[0] then (if k == 0 then 0 else 1 + Nth(m[1..], k - 1))
    else 1 + Nth(m[1..], k)
  }

  /** The k-th kept element is the element at the k-th set flag. */
  lemma {:induction false} FilterAt<T>(s: seq<T>, m: seq<bool>, k: nat)
    requires |s| == |m| && k < Count(m)
    ensures Filter(s, m)[k] == s[Nth(m, k)]
  {
    if m[0] {
      if k > 0 {
        FilterAt(s[1..], m[1..], k - 1);
      }
    } else {
      FilterAt(s[1..], m[1..], k);
    }
  }

  /** With every flag set, filtering keeps everything. */
  lemma {:induction false} FilterAll<T>(s: seq<T>, m: seq<bool>)
    requires |s| == |m|
    requires forall j :: 0 <= j < |m| ==> m[j]
    ensures Filter(s, m) == s
  {
    if |s| > 0 {
      FilterAll(s[1..], m[1..]);
      assert [s[0]] + s[1..] == s;
    }
  }

  /** Filtering the suffix from `i` on: the element at `i` is kept or not,
      then the rest is filtered. */
  lemma FilterFrom<T>(s: seq<T>, m: seq<bool>, i: nat)
    requires |s| == |m| && i < |s|
    ensures Filter(s[i..], m[i..]) == (if m[i] then [s[i]] else []) + Filter(s[i + 1..], m[i + 1..])
  {
    assert s[i..][1..] == s[i + 1..];
    assert m[i..][1..] == m[i + 1..];
  }

  /** StatsAPI._remove_null: every row in which all data sources are null is
      removed from the timestamps list and from every value list. */
  function RemoveNull(t: Table): (r: Table)
    requires Aligned(t)
    ensures Aligned(r)
    ensures r.names == t.names
    ensures |r.timestamps| <= |t.timestamps|
  {
    var m := Mask(t);
    Table(Filter(t.timestamps, m), t.names,
          seq(|t.columns|, c requires 0 <= c < |t.columns| => Filter(t.columns[c], m)))
  }

  /** Rows that keep at least one value, in order; a definition of null
      removal over rows, independent of the list layout. */
  function KeepRows(rows: seq<Row>): seq<Row>
  {
    if |rows| == 0 then []
    else ((if exists c :: 0 <= c < |rows[0].values| && rows[0].values[c].Value? then [rows[0]] else [])
          + KeepRows(rows[1..]))
  }

  lemma {:induction false} KeepRowsFilter(rows: seq<Row>)
    ensures KeepRows(rows) == Filter(rows, seq(|rows|, j requires 0 <= j < |rows| =>
      exists c :: 0 <= c < |rows[j].values| && rows[j].values[c].Value?))
  {
    var m := seq(|rows|, j requires 0 <= j < |rows| =>
      exists c :: 0 <= c < |rows[j].values| && rows[j].values[c].Value?);
    if |rows| > 0 {
      KeepRowsFilter(rows[1..]);
      assert m[1..] == seq(|rows[1..]|, j requires 0 <= j < |rows[1..]| =>
        exists c :: 0 <= c < |rows[1..][j].values| && rows[1..][j].values[c].Value?);
    }
  }

  /** Removing null rows list by list removes exactly the rows in which
      every data source is null, keeping the survivors in order and each
      timestamp beside its values. */
  lemma RemoveNullRows(t: Table)
    requires Aligned(t)
    ensures Rows(RemoveNull(t)) == KeepRows(Rows(t))
  {
    var m := Mask(t);
    var r := RemoveNull(t);
    var rows := Rows(t);
    var rm := seq(|rows|, j requires 0 <= j < |rows| =>
      exists c :: 0 <= c < |rows[j].values| && rows[j].values[c].Value?);
    assert rm == m by {
      forall j | 0 <= j < |rows|
        ensures rm[j] == m[j]
      {
        if m[j] {
          var c :| 0 <= c < |t.columns| && t.columns[c][j].Value?;
          assert rows[j].values[c].Value?;
        }
      }
    }
    KeepRowsFilter(rows);
    forall k | 0 <= k < Count(m)
      ensures Rows(r)[k] == Filter(rows, m)[k]
    {
      FilterAt(t.timestamps, m, k);
      FilterAt(rows, m, k);
      forall c | 0 <= c < |t.columns|
        ensures r.columns[c][k] == t.columns[c][Nth(m, k)]
      {
        FilterAt(t.columns[c], m, k);
      }
      assert Rows(r)[k].values == rows[Nth(m, k)].values;
    }
  }

  /** Every row left by RemoveNull has a value. */
  lemma RemoveNullHasValue(t: Table, k: nat)
    requires Aligned(t) && k < |RemoveNull(t).timestamps|
    ensures HasValue(RemoveNull(t), k)
  {
    var m := Mask(t);
    var r := RemoveNull(t);
    var j := Nth(m, k);
    var c :| 0 <= c < |t.columns| && t.columns[c][j].Value?;
    FilterAt(t.columns[c], m, k);
    assert r.columns[c][k].Value?;
  }

  /** _remove_null is idempotent: a second pass removes nothing. */
  lemma RemoveNullIdempotent(t: Table)
    requires Aligned(t)
    ensures RemoveNull(RemoveNull(t)) == RemoveNull(t)
  {
    var r := RemoveNull(t);
    var m := Mask(r);
    forall k | 0 <= k < |m|
      ensures m[k]
    {
      RemoveNullHasValue(t, k);
    }
    FilterAll(r.timestamps, m);
    forall c | 0 <= c < |r.columns|
      ensures Filter(r.columns[c], m) == r.columns[c]
    {
      FilterAll(r.columns[c], m);
    }
  }

  /** The inner loop of StatsAPI._remove_null for row `i`: the data sources
      are scanned until one has a value; when none has, the loop variable is
      left on the last data source. So the data source it ends on is null
      exactly when the whole row is. */
  method ScanRow(cols: seq<seq<Cell>>, i: nat) returns (c: nat)
    requires |cols| > 0
    requires forall d :: 0 <= d < |cols| ==> i < |cols[d]|
    ensures c < |cols|
    ensures cols[c][i].Null? <==> forall d :: 0 <= d < |cols| ==> cols[d][i].Null?
  {
    c := 0;
    while c + 1 < |cols| && cols[c][i].Null?
      invariant c < |cols|
      invariant forall d :: 0 <= d < c ==> cols[d][i].Null?
    {
      c := c + 1;
    }
  }

  /** The lists as they stand once the rows from `i` on have been visited:
      the unvisited prefix unchanged, the visited suffix filtered. */
  predicate Visited<T(==)>(cur: seq<T>, s: seq<T>, m: seq<bool>, i: nat)
    requires |s| == |m| && i <= |s|
  {
    cur == s[..i] + Filter(s[i..], m[i..])
  }

  /** Visiting row `i` of one list: a kept row leaves the list as it is, a
      removed row is popped. */
  lemma VisitStep<T>(cur: seq<T>, s: seq<T>, m: seq<bool>, i: nat)
    requires |s| == |m| && i < |s|
    requires Visited(cur, s, m, i + 1)
    ensures i < |cur| && cur[i] == s[i]
    ensures m[i] ==> Visited(cur, s, m, i)
    ensures !m[i] ==> Visited(cur[..i] + cur[i + 1..], s, m, i)
  {
    FilterFrom(s, m, i);
    assert s[..i + 1] == s[..i] + [s[i]];
  }

  /** `lst.pop(i)` on every list. */
  function PopAll(cols: seq<seq<Cell>>, i: nat): (r: seq<seq<Cell>>)
    requires forall d :: 0 <= d < |cols| ==> i < |cols[d]|
    ensures |r| == |cols|
  {
    seq(|cols|, d requires 0 <= d < |cols| => cols[d][..i] + cols[d][i + 1..])
  }

  /** VisitStep for every value list at once. */
  lemma VisitColumns(cols: seq<seq<Cell>>, columns: seq<seq<Cell>>, m: seq<bool>, i: nat)
    requires |cols| == |columns| && i < |m|
    requires forall d :: 0 <= d < |columns| ==> |columns[d]| == |m|
    requires forall d :: 0 <= d < |cols| ==> Visited(cols[d], columns[d], m, i + 1)
    ensures forall d :: 0 <= d < |cols| ==> i < |cols[d]| && cols[d][i] == columns[d][i]
    ensures m[i] ==> forall d :: 0 <= d < |cols| ==> Visited(cols[d], columns[d], m, i)
    ensures !m[i] ==> forall d :: 0 <= d < |cols| ==> Visited(PopAll(cols, i)[d], columns[d], m, i)
  {
    forall d | 0 <= d < |cols|
      ensures i < |cols[d]| && cols[d][i] == columns[d][i]
      ensures m[i] ==> Visited(cols[d], columns[d], m, i)
      ensures !m[i] ==> Visited(cols[d][..i] + cols[d][i + 1..], columns[d], m, i)
    {
      VisitStep(cols[d], columns[d], m, i);
    }
  }

  /** Row `i` is kept exactly when one of the lists, as they stand, has a
      value there. */
  lemma MaskAt(t: Table, cols: seq<seq<Cell>>, i: nat)
    requires Aligned(t) && i < |t.timestamps| && |cols| == |t.columns|
    requires forall d :: 0 <= d < |cols| ==> i < |cols[d]| && cols[d][i] == t.columns[d][i]
    ensures Mask(t)[i] <==> !forall d :: 0 <= d < |cols| ==> cols[d][i].Null?
  {
    if Mask(t)[i] {
      var d :| 0 <= d < |t.columns| && t.columns[d][i].Value?;
      assert !cols[d][i].Null?;
    }
  }

  /** The loop of StatsAPI._remove_null, list by list: rows are visited from
      the last to the first, and a row whose scan ended on a null is popped
      from every list. A table without data sources but with rows makes the
      loop read an unbound variable, so such a table is excluded. */
  method RemoveNullInPlace(t: Table) returns (r: Table)
    requires Aligned(t)
    requires |t.names| > 0 || |t.timestamps| == 0
    ensures r == RemoveNull(t)
  {
    var m := Mask(t);
    var ts := t.timestamps;
    var cols := t.columns;
    var i := |t.timestamps|;
    while i > 0
      invariant 0 <= i <= |t.timestamps|
      invariant Visited(ts, t.timestamps, m, i)
      invariant |cols| == |t.columns|
      invariant forall d :: 0 <= d < |cols| ==> Visited(cols[d], t.columns[d], m, i)
    {
      i := i - 1;
      VisitStep(ts, t.timestamps, m, i);
      VisitColumns(cols, t.columns, m, i);
      var c := ScanRow(cols, i);
      MaskAt(t, cols, i);
      if cols[c][i].Null? {
        ts := ts[..i] + ts[i + 1..];
        cols := PopAll(cols, i);
      }
    }
    assert t.timestamps[0..] == t.timestamps && m[0..] == m;
    assert ts == Filter(t.timestamps, m);
    forall d | 0 <= d < |cols|
      ensures cols[d] == Filter(t.columns[d], m)
    {
      assert t.columns[d][0..] == t.columns[d];
    }
    r := Table(ts, t.names, cols);
  }

  /** StatsAPI._fetch: the fetched rows as lists, null rows removed. */
  function FetchData(f: Rrd.Fetched): (t: Table)
    requires f.Shaped()
    ensures Aligned(t)
    ensures t.names == f.cols
    ensures var m := seq(|f.rows|, j requires 0 <= j < |f.rows| =>
        exists c :: 0 <= c < |f.cols| && f.rows[j][c].Value?);
      && t.timestamps == Filter(f.timestamps, m)
      && forall c :: 0 <= c < |f.cols| ==> t.columns[c] == Filter(Column(f.rows, c), m)
    ensures forall j :: 0 <= j < |t.timestamps| ==> HasValue(t, j)
  {
    var t0 := FetchTable(f);
    assert Mask(t0) == seq(|f.rows|, j requires 0 <= j < |f.rows| =>
        exists c :: 0 <= c < |f.cols| && f.rows[j][c].Value?) by {
      forall j | 0 <= j < |f.rows|
        ensures HasValue(t0, j) <==> exists c :: 0 <= c < |f.cols| && f.rows[j][c].Value?
      {
        if exists c :: 0 <= c < |f.cols| && f.rows[j][c].Value? {
          var c :| 0 <= c < |f.cols| && f.rows[j][c].Value?;
          assert t0.columns[c][j].Value?;
        }
      }
    }
    assert forall j :: 0 <= j < |RemoveNull(t0).timestamps| ==> HasValue(RemoveNull(t0), j) by {
      forall j | 0 <= j < |RemoveNull(t0).timestamps|
        ensures HasValue(RemoveNull(t0), j)
      {
        RemoveNullHasValue(t0, j);
      }
    }
    RemoveNull(t0)
  }
}
