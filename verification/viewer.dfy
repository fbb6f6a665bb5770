/** The report viewer (viewer/js/app.js): the string polyfills, the column filter
    shared by the pickers and the charts, the row comparator of `sort`, the row limit
    of `select`, and `convertData`, which turns a column into one chart row per page.

    The data set is a sequence of rows in its current order. A cell is absent from
    its row (undefined), empty (null) or a number, and the interval ends of a bar
    are computed from it with JavaScript's number coercion. */
module Viewer {
  import opened Results
  import opened Text

  /** The start position of `indexOf`, clamped into `0..n`. */
  function Clamp(from: int, n: nat): (r: nat)
    ensures r <= n
    ensures 0 <= from <= n ==> r == from
  {
    if from < 0 then 0 else if from > n then n else from
  }

  /** JavaScript's `s.indexOf(sub, from)`: the first occurrence at or after the
      clamped start, or -1. */
  function IndexOf(s: string, sub: string, from: int): (r: int)
    ensures r == -1 || (Clamp(from, |s|) <= r && OccursAt(s, sub, r))
    ensures r == -1 <==> forall i | Clamp(from, |s|) <= i :: !OccursAt(s, sub, i)
    ensures r >= 0 ==> forall i | Clamp(from, |s|) <= i < r :: !OccursAt(s, sub, i)
    decreases |s| - Clamp(from, |s|)
  {
    var start := Clamp(from, |s|);
    if OccursAt(s, sub, start) then start
    else if start == |s| then -1
    else IndexOf(s, sub, start + 1)
  }

  /** The `endsWith` polyfill: search from where the suffix would have to start. */
  predicate EndsWith(s: string, suffix: string) {
    IndexOf(s, suffix, |s| - |suffix|) != -1
  }

  /** The `startsWith` polyfill: the first occurrence is at the start. */
  predicate StartsWith(s: string, str: string) {
    IndexOf(s, str, 0) == 0
  }

  /** `endsWith` holds exactly for the suffixes, the empty one included. */
  lemma EndsWithIsSuffix(s: string, suffix: string)
    ensures EndsWith(s, suffix) <==> IsSuffix(suffix, s)
  {
    if IsSuffix(suffix, s) {
      assert OccursAt(s, suffix, |s| - |suffix|);
    }
  }

  /** `startsWith` holds exactly for the prefixes. */
  lemma StartsWithIsPrefix(s: string, str: string)
    ensures StartsWith(s, str) <==> IsPrefix(str, s)
  {
    if IsPrefix(str, s) {
      assert OccursAt(s, str, 0);
    }
  }

  /** The column filter of `loadToolbar` and `plotMetrics`. */
  predicate Plotted(name: string) {
    name != "X" && !EndsWith(name, "CI") && name != "Page" && name != "Browser"
    && name != "OS" && !EndsWith(name, "Impact") && name != "Iterations" && name != "Duration"
  }

  /** A column is plotted unless it is one of the six bookkeeping columns or its name
      ends in "CI" or "Impact". */
  lemma PlottedColumns(name: string)
    ensures Plotted(name) <==>
      name !in ["X", "Page", "Browser", "OS", "Iterations", "Duration"]
      && !IsSuffix("CI", name) && !IsSuffix("Impact", name)
  {
    EndsWithIsSuffix(name, "CI");
    EndsWithIsSuffix(name, "Impact");
  }

  /** The plotted columns, in column order. */
  function Charts(columns: seq<string>): (r: seq<string>)
    ensures forall k | 0 <= k < |r| :: Plotted(r[k]) && r[k] in columns
    ensures forall c | c in columns && Plotted(c) :: c in r
    ensures |r| <= |columns|
  {
    if |columns| == 0 then []
    else (if Plotted(columns[0]) then [columns[0]] else []) + Charts(columns[1..])
  }

  /** Extending the column list by one column extends the charts by that column
      exactly when it is plotted. */
  lemma {:induction false} ChartsAppend(columns: seq<string>, c: string)
    ensures Charts(columns + [c]) == Charts(columns) + (if Plotted(c) then [c] else [])
    decreases |columns|
  {
    var extended := columns + [c];
    if |columns| > 0 {
      assert extended[0] == columns[0];
      assert extended[1..] == columns[1..] + [c];
      ChartsAppend(columns[1..], c);
      assert Charts(extended) == (if Plotted(columns[0]) then [columns[0]] else []) + Charts(extended[1..]);
      assert Charts(columns) == (if Plotted(columns[0]) then [columns[0]] else []) + Charts(columns[1..]);
    } else {
      assert extended == [c] && extended[1..] == [];
    }
  }

  /** `loadToolbar`: pickers that both hold options already are left alone;
      otherwise the column picker gets an empty option and then, like the sort
      picker, one option per plotted column in column order, so that option k + 1
      of the column picker and option k of the sort picker name chart k. */
  method LoadToolbar(columns: seq<string>, picker0: seq<string>, sorter0: seq<string>)
    returns (picker: seq<string>, sorter: seq<string>)
    ensures |picker0| > 0 && |sorter0| > 0 ==> picker == picker0 && sorter == sorter0
    ensures !(|picker0| > 0 && |sorter0| > 0) ==>
      picker == picker0 + [""] + Charts(columns) && sorter == sorter0 + Charts(columns)
  {
    if |picker0| > 0 && |sorter0| > 0 {
      return picker0, sorter0;
    }
    var head := picker0 + [""];
    picker, sorter := head, sorter0;
    var i := 0;
    ghost var plotted: seq<string> := [];
    assert columns[..0] == [];
    while i < |columns|
      invariant i <= |columns|
      invariant plotted == Charts(columns[..i])
      invariant picker == head + plotted && sorter == sorter0 + plotted
    {
      var c, next := columns[i], columns[..i + 1];
      var added := if Plotted(c) then [c] else [];
      assert next == columns[..i] + [c];
      ChartsAppend(columns[..i], c);
      assert Charts(next) == plotted + added;
      AppendAssoc(head, plotted, added);
      AppendAssoc(sorter0, plotted, added);
      picker := picker + added;
      sorter := sorter + added;
      plotted := plotted + added;
      i := i + 1;
    }
    assert columns[..i] == columns;
  }

  /** `plotMetrics`: one chart per plotted column, in column order, each drawn into
      the container numbered by the counter `i`, so chart k sits in container k. */
  method PlotMetrics(columns: seq<string>) returns (charts: seq<(nat, string)>)
    ensures |charts| == |Charts(columns)|
    ensures forall k | 0 <= k < |charts| :: charts[k] == (k, Charts(columns)[k])
  {
    charts := [];
    var i: nat := 0;
    var j := 0;
    ghost var plotted: seq<string> := [];
    assert columns[..0] == [];
    while j < |columns|
      invariant j <= |columns|
      invariant plotted == Charts(columns[..j])
      invariant i == |charts| && Numbered(charts, plotted)
    {
      var c, next := columns[j], columns[..j + 1];
      assert next == columns[..j] + [c];
      ChartsAppend(columns[..j], c);
      if Plotted(c) {
        assert Charts(next) == plotted + [c];
        NumberedAppend(charts, plotted, c);
        plotted := plotted + [c];
        charts := charts + [(i, c)];
        i := i + 1;
      } else {
        assert Charts(next) == plotted;
      }
      j := j + 1;
    }
    assert columns[..j] == columns;
  }

  /** Entry k of `charts` is item k of `items`, numbered k. */
  predicate Numbered(charts: seq<(nat, string)>, items: seq<string>) {
    |charts| == |items| && forall k | 0 <= k < |charts| :: charts[k] == (k, items[k])
  }

  lemma NumberedAppend(charts: seq<(nat, string)>, items: seq<string>, item: string)
    requires Numbered(charts, items)
    ensures Numbered(charts + [(|charts|, item)], items + [item])
  {
  }

  /** A JavaScript number: a real, or NaN. */
  datatype Num = NaN | Num(v: real) {
    function Plus(other: Num): Num {
      if NaN? || other.NaN? then NaN else Num(v + other.v)
    }

    function Minus(other: Num): Num {
      if NaN? || other.NaN? then NaN else Num(v - other.v)
    }
  }

  /** A cell as the data set holds it: undefined when the row has no such column,
      null when the field of the report was empty, or a number. */
  datatype Field = Undefined | Null | Number(n: Num)

  /** JavaScript's ToNumber, which `-` and a `+` without a string operand apply to
      both operands: undefined is NaN and null is 0. */
  function ToNumber(f: Field): Num {
    match f
    case Undefined => NaN
    case Null => Num(0.0)
    case Number(n) => n
  }

  /** A row of the report: its page, its browser and its cells by column name. */
  datatype Row = Row(page: string, browser: string, cells: map<string, Field>) {
    /** `row[column]`: a missing column reads as undefined. */
    function Cell(column: string): Field {
      if column in cells then cells[column] else Undefined
    }
  }

  /** `ds.countBy('Browser').toJSON().length`: the number of distinct browsers. */
  function BrowserCount(rows: seq<Row>): (n: nat)
    ensures |rows| > 0 ==> n > 0
  {
    var browsers := set k | 0 <= k < |rows| :: rows[k].browser;
    assert |rows| > 0 ==> rows[0].browser in browsers;
    |browsers|
  }

  /** `select`: the limit picker's number times the number of browsers bounds the
      rows kept; a limit that is not a number keeps every row. `limit` is the result
      of `parseInt`, None for NaN. */
  method Select(rows: seq<Row>, limit: Option<int>) returns (kept: seq<Row>)
    ensures limit.None? ==> kept == rows
    ensures limit.Some? ==> var max := limit.value * BrowserCount(rows);
      kept == rows[..if max <= 0 then 0 else if max < |rows| then max else |rows|]
  {
    if limit.None? {
      return rows;
    }
    var max := limit.value * BrowserCount(rows);
    var index := 0;
    kept := [];
    for i := 0 to |rows|
      invariant index == i
      invariant kept == rows[..if max <= 0 then 0 else if max < i then max else i]
    {
      var keep := index < max;
      index := index + 1;
      if keep {
        kept := kept + [rows[i]];
      }
    }
  }

  /** A chart cell: the page label or a value. */
  datatype Cell = Label(text: string) | Value(f: Field)

  /** `base - ci`: the low end of a confidence interval. */
  function LowEnd(base: Field, ci: Field): Num {
    ToNumber(base).Minus(ToNumber(ci))
  }

  /** `base + ci`: the high end of a confidence interval; no cell is a string, so
      `+` adds. */
  function HighEnd(base: Field, ci: Field): Num {
    ToNumber(base).Plus(ToNumber(ci))
  }

  /** The interval ends the page computes: NaN when either cell is absent from the
      row, an empty cell counting as 0, and otherwise the difference and the sum. */
  lemma EndsCoerce(base: Field, ci: Field)
    ensures base.Undefined? || ci.Undefined? ==> LowEnd(base, ci) == HighEnd(base, ci) == NaN
    ensures base.Number? && ci.Null? ==> LowEnd(base, ci) == HighEnd(base, ci) == base.n
    ensures base.Null? && ci.Null? ==> LowEnd(base, ci) == HighEnd(base, ci) == Num(0.0)
    ensures base.Null? && ci.Number? && ci.n.Num? ==>
      LowEnd(base, ci) == Num(-ci.n.v) && HighEnd(base, ci) == ci.n
    ensures base.Number? && base.n.Num? && ci.Number? && ci.n.Num? ==>
      LowEnd(base, ci) == Num(base.n.v - ci.n.v) && HighEnd(base, ci) == Num(base.n.v + ci.n.v)
  {
    match base
    case Undefined =>
    case Null =>
      assert ToNumber(base) == Num(0.0);
    case Number(b) =>
      assert ToNumber(base) == b;
  }

  /** The three values a row contributes to its chart row: the mean as the data set
      holds it, then the two ends of its confidence interval. */
  function Bar(row: Row, column: string): seq<Cell> {
    var base := row.Cell(column);
    var ci := row.Cell(column + " CI");
    [Value(base), Value(Number(LowEnd(base, ci))), Value(Number(HighEnd(base, ci)))]
  }

  function Bars(group: seq<Row>, column: string): (r: seq<Cell>)
    ensures |r| == 3 * |group|
  {
    if |group| == 0 then [] else Bars(group[..|group| - 1], column) + Bar(group[|group| - 1], column)
  }

  /** The chart row of one group of consecutive rows: the page of its first row,
      then the bars of every row in order. */
  function ChartRow(group: seq<Row>, column: string): seq<Cell> {
    if |group| == 0 then [] else [Label(group[0].page)] + Bars(group, column)
  }

  /** One chart row per complete group of `n` consecutive rows, from the first row
      on; an incomplete last group gives none. */
  function Grouped(rows: seq<Row>, n: nat, column: string): seq<seq<Cell>>
    requires n > 0
  {
    Chunked(rows, n, group => ChartRow(group, column))
  }

  /** `chart` of every complete group of `n` consecutive items, from the first one
      on; an incomplete last group gives nothing. */
  function Chunked<T, U>(xs: seq<T>, n: nat, chart: seq<T> -> U): seq<U>
    requires n > 0
    decreases |xs|
  {
    if |xs| < n then [] else [chart(xs[..n])] + Chunked(xs[n..], n, chart)
  }

  /** There are as many chart rows as complete groups. */
  lemma GroupedCount(rows: seq<Row>, n: nat, column: string)
    requires n > 0
    ensures |Grouped(rows, n, column)| == |rows| / n
  {
    ChunkedCount(rows, n, group => ChartRow(group, column));
  }

  lemma {:induction false} ChunkedCount<T, U>(xs: seq<T>, n: nat, chart: seq<T> -> U)
    requires n > 0
    ensures |Chunked(xs, n, chart)| == |xs| / n
    decreases |xs|
  {
    if |xs| < n {
      DivModUnique(|xs|, n, 0, |xs|);
    } else {
      ChunkedCount(xs[n..], n, chart);
      var q, r := (|xs| - n) / n, (|xs| - n) % n;
      DivModUnique(|xs|, n, q + 1, r);
    }
  }

  /** Chart row k is built from rows k * n up to (k + 1) * n. */
  lemma GroupedRow(rows: seq<Row>, n: nat, column: string, k: nat)
    requires n > 0 && (k + 1) * n <= |rows|
    ensures k < |Grouped(rows, n, column)|
    ensures Grouped(rows, n, column)[k] == ChartRow(rows[k * n..k * n + n], column)
  {
    assert (k + 1) * n == k * n + n;
    ChunkedAt(rows, n, group => ChartRow(group, column), k, k * n);
  }

  lemma {:induction false} ChunkedAt<T, U>(xs: seq<T>, n: nat, chart: seq<T> -> U, k: nat, start: nat)
    requires n > 0 && start == k * n && start + n <= |xs|
    ensures k < |Chunked(xs, n, chart)|
    ensures Chunked(xs, n, chart)[k] == chart(xs[start..start + n])
    decreases k
  {
    if k > 0 {
      MulPred(k, n);
      ChunkedAt(xs[n..], n, chart, k - 1, start - n);
      assert xs[n..][start - n..start] == xs[start..start + n];
    }
  }

  lemma MulPred(k: nat, n: nat)
    requires k > 0
    ensures (k - 1) * n == k * n - n
  {
    assert k * n == (k - 1) * n + n;
  }

  /** Division with remainder has one answer. */
  lemma DivModUnique(a: int, n: int, q: int, r: int)
    requires n > 0 && 0 <= r < n && a == q * n + r
    ensures a / n == q && a % n == r
  {
    var q', r' := a / n, a % n;
    assert a == q' * n + r' && 0 <= r' < n;
    assert (q - q') * n == r' - r;
    MulSign(q - q', n);
  }

  lemma MulSign(d: int, n: int)
    requires n > 0
    ensures d >= 1 ==> d * n >= n
    ensures d <= -1 ==> d * n <= -n
  {
    if d >= 1 {
      assert d * n == (d - 1) * n + n;
    } else if d <= -1 {
      assert d * n == (d + 1) * n - n;
    }
  }

  /** The position after `i` within and across groups of `n`. */
  lemma DivModStep(i: nat, n: nat)
    requires n > 0
    ensures i % n == n - 1 ==> (i + 1) % n == 0 && (i + 1) / n == i / n + 1
    ensures i % n != n - 1 ==> (i + 1) % n == i % n + 1 && (i + 1) / n == i / n
  {
    var q, r := i / n, i % n;
    if r == n - 1 {
      DivModUnique(i + 1, n, q + 1, 0);
    } else {
      DivModUnique(i + 1, n, q, r + 1);
    }
  }

  lemma BarsAppend(group: seq<Row>, row: Row, column: string)
    ensures Bars(group + [row], column) == Bars(group, column) + Bar(row, column)
  {
    assert (group + [row])[..|group|] == group;
  }

  /** One row more for the chart row under construction, which started at `start`. */
  lemma PartialStep(rows: seq<Row>, column: string, start: nat, index: nat, partial: seq<Cell>)
    requires start <= index < |rows|
    requires start < index ==> partial == ChartRow(rows[start..index], column)
    ensures (if start == index then [Label(rows[index].page)] else partial) + Bar(rows[index], column)
            == ChartRow(rows[start..index + 1], column)
  {
    if start == index {
      ChartRowOne(rows, column, index);
    } else {
      ChartRowExtend(rows, column, start, index);
    }
  }

  lemma ChartRowOne(rows: seq<Row>, column: string, index: nat)
    requires index < |rows|
    ensures [Label(rows[index].page)] + Bar(rows[index], column) == ChartRow(rows[index..index + 1], column)
  {
    var group := rows[index..index + 1];
    assert group == [] + [rows[index]] && group[0] == rows[index];
    BarsAppend([], rows[index], column);
  }

  lemma ChartRowExtend(rows: seq<Row>, column: string, start: nat, index: nat)
    requires start < index < |rows|
    ensures ChartRow(rows[start..index], column) + Bar(rows[index], column) == ChartRow(rows[start..index + 1], column)
  {
    var group, next := rows[start..index], rows[start..index + 1];
    assert next == group + [rows[index]] && next[0] == group[0] == rows[start];
    BarsAppend(group, rows[index], column);
    AppendAssoc([Label(rows[start].page)], Bars(group, column), Bar(rows[index], column));
  }

  lemma AppendAssoc<T>(a: seq<T>, b: seq<T>, c: seq<T>)
    ensures (a + b) + c == a + (b + c)
  {
  }

  /** The rows from `start` to `index` complete a group: its chart row moves from
      the rows still to group to the result. */
  lemma CloseGroup(rows: seq<Row>, n: nat, column: string, start: nat, index: nat, partial: seq<Cell>, res: seq<seq<Cell>>)
    requires n > 0 && start <= index < |rows| && index + 1 - start == n
    requires partial == ChartRow(rows[start..index + 1], column)
    requires res + Grouped(rows[start..], n, column) == Grouped(rows, n, column)
    ensures (res + [partial]) + Grouped(rows[index + 1..], n, column) == Grouped(rows, n, column)
  {
    assert rows[start..][..n] == rows[start..index + 1];
    assert rows[start..][n..] == rows[index + 1..];
    assert Grouped(rows[start..], n, column) == [partial] + Grouped(rows[index + 1..], n, column);
  }

  /** The state of `convertData` before row `index`: the chart rows of the complete
      groups so far are in `res`, the group under construction started at `start`,
      and `partial` holds its chart row so far. */
  predicate Converting(rows: seq<Row>, n: nat, column: string, index: nat, start: nat,
                       partial: seq<Cell>, res: seq<seq<Cell>>)
    requires n > 0
  {
    && start <= index <= |rows|
    && index - start == index % n
    && res + Grouped(rows[start..], n, column) == Grouped(rows, n, column)
    && (index == 0 ==> partial == [])
    && (start < index ==> partial == ChartRow(rows[start..index], column))
  }

  /** One row of `convertData`: `after` is `partial` once the row is added. */
  lemma ConvertStep(rows: seq<Row>, n: nat, column: string, index: nat, start: nat,
                    partial: seq<Cell>, after: seq<Cell>, res: seq<seq<Cell>>)
    requires n > 0 && index < |rows| && Converting(rows, n, column, index, start, partial, res)
    requires after == (if index == 0 then partial + [Label(rows[index].page)]
                       else if index % n == 0 then [Label(rows[index].page)]
                       else partial) + Bar(rows[index], column)
    ensures var closes := index % n == n - 1;
      Converting(rows, n, column, index + 1, if closes then index + 1 else start, after, if closes then res + [after] else res)
  {
    PartialStep(rows, column, start, index, partial);
    DivModStep(index, n);
    if index % n == n - 1 {
      CloseGroup(rows, n, column, start, index, after, res);
    }
  }

  /** `convertData`: the rows are walked once; a row whose index is a multiple of
      the browser count starts a new chart row with its page, every row adds its
      bar, and the last row of a group hands the chart row over. The result is one
      chart row per complete group of browsers. */
  method ConvertData(rows: seq<Row>, column: string) returns (res: seq<seq<Cell>>)
    ensures |rows| == 0 ==> res == []
    ensures |rows| > 0 ==> res == Grouped(rows, BrowserCount(rows), column)
  {
    var n := BrowserCount(rows);
    res := [];
    if |rows| == 0 {
      return;
    }
    res := ConvertRows(rows, n, column);
  }

  /** The loop of `convertData` for groups of `n` rows. */
  method ConvertRows(rows: seq<Row>, n: nat, column: string) returns (res: seq<seq<Cell>>)
    requires n > 0
    ensures res == Grouped(rows, n, column)
  {
    res := [];
    var partial: seq<Cell> := [];
    ghost var start := 0;
    for index := 0 to |rows|
      invariant Converting(rows, n, column, index, start, partial, res)
    {
      var row := rows[index];
      var head := if index == 0 then partial + [Label(row.page)]
                  else if index % n == 0 then [Label(row.page)]
                  else partial;
      ConvertStep(rows, n, column, index, start, partial, head + Bar(row, column), res);
      partial := head + Bar(row, column);
      // the last row of a group hands its chart row over
      var closes := index % n == n - 1;
      res := if closes then res + [partial] else res;
      start := if closes then index + 1 else start;
    }
    ConvertDone(rows, n, column, start, partial, res);
  }

  /** After the last row, the rows of an incomplete last group add no chart row. */
  lemma ConvertDone(rows: seq<Row>, n: nat, column: string, start: nat, partial: seq<Cell>, res: seq<seq<Cell>>)
    requires n > 0 && Converting(rows, n, column, |rows|, start, partial, res)
    ensures res == Grouped(rows, n, column)
  {
    assert |rows[start..]| < n;
  }

  /** JavaScript's `<` on strings: lexicographic by character. */
  predicate Below(a: string, b: string)
    decreases |a|
  {
    if |a| == 0 then |b| > 0
    else if |b| == 0 then false
    else a[0] < b[0] || (a[0] == b[0] && Below(a[1..], b[1..]))
  }

  lemma {:induction false} BelowStrict(a: string, b: string)
    ensures !(Below(a, b) && Below(b, a))
    ensures a == b ==> !Below(a, b)
    ensures a != b ==> Below(a, b) || Below(b, a)
    decreases |a|
  {
    if |a| > 0 && |b| > 0 {
      BelowStrict(a[1..], b[1..]);
      if a[0] == b[0] && a != b {
        assert a == [a[0]] + a[1..] && b == [b[0]] + b[1..];
      }
    }
  }

  lemma {:induction false} BelowTransitive(a: string, b: string, c: string)
    requires Below(a, b) && Below(b, c)
    ensures Below(a, c)
    decreases |a|
  {
    if |a| > 0 && |b| > 0 && |c| > 0 && a[0] == b[0] == c[0] {
      BelowTransitive(a[1..], b[1..], c[1..]);
    }
  }

  /** The pair of string tests of `sort`: 1 when `a > b`, -1 when `a < b`, and 0
      when neither holds. */
  function Order(a: string, b: string): (r: int)
    ensures -1 <= r <= 1
  {
    if Below(b, a) then 1 else if Below(a, b) then -1 else 0
  }

  /** `Order` is a three-way comparison: 0 exactly on equal strings, antisymmetric
      and transitive. */
  lemma OrderCompares(a: string, b: string)
    ensures Order(a, b) == 0 <==> a == b
    ensures Order(a, b) == -Order(b, a)
  {
    BelowStrict(a, b);
  }

  lemma OrderTransitive(a: string, b: string, c: string)
    requires Order(a, b) == -1 && Order(b, c) == -1
    ensures Order(a, c) == -1
  {
    BelowStrict(a, b);
    BelowStrict(b, c);
    BelowTransitive(a, b, c);
    BelowStrict(a, c);
  }

  /** What `sort` reads of a row: its pvalue (NaN when it could not be computed)
      and its page and browser. */
  datatype Ranked = Ranked(pvalue: Num, page: string, browser: string)

  /** The pvalue tests of the comparator for a present pvalue `x` of the first row:
      of opposite signs the positive one comes first, otherwise the smaller; 0 when
      none of the tests decides, as for a NaN `y`, on which every test is false. */
  function PvalueOrder(x: real, y: Num): (r: int)
    ensures -1 <= r <= 1
  {
    if y.NaN? then 0
    else if x * y.v < 0.0 then (if x > 0.0 then -1 else 1)
    else if x > y.v then 1
    else if x < y.v then -1
    else 0
  }

  /** The comparator of `sort`: by pvalue when the first row has one, then by page,
      then by browser. */
  function Compare(a: Ranked, b: Ranked): (r: int)
    ensures -1 <= r <= 1
  {
    var byPvalue := if a.pvalue.NaN? then 0 else PvalueOrder(a.pvalue.v, b.pvalue);
    if byPvalue != 0 then byPvalue
    else if Order(a.page, b.page) != 0 then Order(a.page, b.page)
    else Order(a.browser, b.browser)
  }

  lemma ProductSign(x: real, y: real)
    ensures x * y < 0.0 <==> (x > 0.0 && y < 0.0) || (x < 0.0 && y > 0.0)
  {
    if (x > 0.0 && y > 0.0) || (x < 0.0 && y < 0.0) {
      assert x * y > 0.0;
    }
  }

  /** Of two pvalues of opposite signs the positive one sorts first. */
  lemma PositiveFirst(a: Ranked, b: Ranked)
    requires a.pvalue.Num? && b.pvalue.Num? && a.pvalue.v > 0.0 > b.pvalue.v
    ensures Compare(a, b) == -1 && Compare(b, a) == 1
  {
    ProductSign(a.pvalue.v, b.pvalue.v);
    ProductSign(b.pvalue.v, a.pvalue.v);
  }

  /** Otherwise the smaller pvalue sorts first. */
  lemma AscendingPvalue(a: Ranked, b: Ranked)
    requires a.pvalue.Num? && b.pvalue.Num? && a.pvalue.v < b.pvalue.v
    requires !(a.pvalue.v < 0.0 < b.pvalue.v)
    ensures Compare(a, b) == -1 && Compare(b, a) == 1
  {
    ProductSign(a.pvalue.v, b.pvalue.v);
    ProductSign(b.pvalue.v, a.pvalue.v);
  }

  /** A missing or equal pvalue leaves the order to the page, then the browser. */
  lemma PvalueTieFallsBack(a: Ranked, b: Ranked)
    requires a.pvalue.NaN? || b.pvalue.NaN? || a.pvalue == b.pvalue
    ensures Compare(a, b) == if a.page != b.page then Order(a.page, b.page) else Order(a.browser, b.browser)
  {
    OrderCompares(a.page, b.page);
    if a.pvalue.Num? && a.pvalue == b.pvalue {
      ProductSign(a.pvalue.v, a.pvalue.v);
    }
  }

  /** The comparator answers 0 exactly when the pvalues tie and the pages and the
      browsers are equal. */
  lemma CompareZero(a: Ranked, b: Ranked)
    ensures Compare(a, b) == 0 <==>
      (a.pvalue.NaN? || b.pvalue.NaN? || a.pvalue == b.pvalue) && a.page == b.page && a.browser == b.browser
  {
    OrderCompares(a.page, b.page);
    OrderCompares(a.browser, b.browser);
    if a.pvalue.Num? && b.pvalue.Num? {
      ProductSign(a.pvalue.v, b.pvalue.v);
    }
  }

  /** Swapping the rows swaps the answer. */
  lemma CompareAntisymmetric(a: Ranked, b: Ranked)
    ensures Compare(a, b) == -Compare(b, a)
  {
    OrderCompares(a.page, b.page);
    OrderCompares(a.browser, b.browser);
    if a.pvalue.Num? && b.pvalue.Num? {
      ProductSign(a.pvalue.v, b.pvalue.v);
      ProductSign(b.pvalue.v, a.pvalue.v);
    }
  }

  /** The order the pvalue tests aim at: non-negative pvalues before negative ones,
      ascending within a sign, then by page, then by browser. */
  function SignClass(x: real): int {
    if x < 0.0 then 1 else 0
  }

  function RealOrder(x: real, y: real): int {
    if x > y then 1 else if x < y then -1 else 0
  }

  function KeyCompare(a: Ranked, b: Ranked): (r: int)
    requires a.pvalue.Num? && b.pvalue.Num?
    ensures -1 <= r <= 1
  {
    var x, y := a.pvalue.v, b.pvalue.v;
    if SignClass(x) != SignClass(y) then SignClass(x) - SignClass(y)
    else if RealOrder(x, y) != 0 then RealOrder(x, y)
    else if Order(a.page, b.page) != 0 then Order(a.page, b.page)
    else Order(a.browser, b.browser)
  }

  /** The key order is transitive. */
  lemma KeyCompareTransitive(a: Ranked, b: Ranked, c: Ranked)
    requires a.pvalue.Num? && b.pvalue.Num? && c.pvalue.Num?
    requires KeyCompare(a, b) == -1 && KeyCompare(b, c) == -1
    ensures KeyCompare(a, c) == -1
  {
    OrderCompares(a.page, b.page);
    OrderCompares(b.page, c.page);
    OrderCompares(a.page, c.page);
    OrderCompares(a.browser, b.browser);
    OrderCompares(b.browser, c.browser);
    OrderCompares(a.browser, c.browser);
    if Order(a.page, b.page) == -1 && Order(b.page, c.page) == -1 {
      OrderTransitive(a.page, b.page, c.page);
    }
    if Order(a.browser, b.browser) == -1 && Order(b.browser, c.browser) == -1 {
      OrderTransitive(a.browser, b.browser, c.browser);
    }
  }

  /** Away from zero the comparator follows the key order. */
  lemma CompareNonZeroIsKeyOrder(a: Ranked, b: Ranked)
    requires a.pvalue.Num? && b.pvalue.Num? && a.pvalue.v != 0.0 && b.pvalue.v != 0.0
    ensures Compare(a, b) == KeyCompare(a, b)
  {
    ProductSign(a.pvalue.v, b.pvalue.v);
  }

  /** With a zero pvalue the comparator is not an order: pvalues 1, -1 and 0 each
      sort before the next, round in a circle, whatever the pages and browsers. */
  lemma ZeroPvalueCycle(page: string, browser: string)
    ensures var one, minusOne, zero := Ranked(Num(1.0), page, browser), Ranked(Num(-1.0), page, browser), Ranked(Num(0.0), page, browser);
      Compare(one, minusOne) == -1 && Compare(minusOne, zero) == -1 && Compare(zero, one) == -1
  {
    ProductSign(1.0, -1.0);
    ProductSign(-1.0, 0.0);
    ProductSign(0.0, 1.0);
  }

  /** The pvalue tests with the sign test made by class, a zero pvalue counting as
      non-negative. */
  function PvalueOrderBySign(x: real, y: Num): (r: int)
    ensures -1 <= r <= 1
  {
    if y.NaN? then 0
    else if SignClass(x) != SignClass(y.v) then (if x >= 0.0 then -1 else 1)
    else if x > y.v then 1
    else if x < y.v then -1
    else 0
  }

  /** The comparator with the corrected sign test. */
  function CompareBySign(a: Ranked, b: Ranked): (r: int)
    ensures -1 <= r <= 1
  {
    var byPvalue := if a.pvalue.NaN? then 0 else PvalueOrderBySign(a.pvalue.v, b.pvalue);
    if byPvalue != 0 then byPvalue
    else if Order(a.page, b.page) != 0 then Order(a.page, b.page)
    else Order(a.browser, b.browser)
  }

  /** With every pvalue present, the corrected comparator is the key order, so it is
      transitive and antisymmetric. */
  lemma CompareBySignIsKeyOrder(a: Ranked, b: Ranked)
    requires a.pvalue.Num? && b.pvalue.Num?
    ensures CompareBySign(a, b) == KeyCompare(a, b)
  {
  }

  lemma CompareBySignTransitive(a: Ranked, b: Ranked, c: Ranked)
    requires a.pvalue.Num? && b.pvalue.Num? && c.pvalue.Num?
    requires CompareBySign(a, b) == -1 && CompareBySign(b, c) == -1
    ensures CompareBySign(a, c) == -1
  {
    CompareBySignIsKeyOrder(a, b);
    CompareBySignIsKeyOrder(b, c);
    CompareBySignIsKeyOrder(a, c);
    KeyCompareTransitive(a, b, c);
  }

  /** The correction changes nothing unless a pvalue is zero. */
  lemma CompareBySignAgrees(a: Ranked, b: Ranked)
    requires a.pvalue.NaN? || b.pvalue.NaN? || (a.pvalue.v != 0.0 && b.pvalue.v != 0.0)
    ensures CompareBySign(a, b) == Compare(a, b)
  {
    if a.pvalue.Num? && b.pvalue.Num? {
      ProductSign(a.pvalue.v, b.pvalue.v);
    }
  }
}
