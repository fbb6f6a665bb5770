/** The IPPET wrapper (wrappers/IPPET.py): `parse_data`, a character-level state
    machine over the process log, and `get_browser_process_data`, which adds up the
    columns that belong to the browser.

    The log is the list `readlines()` returns, or None when the file is missing;
    `float()` is the conversion `toReal`. */
module Ippet {
  import opened Results
  import opened Text

  /** A column of the log: its quoted name and the values appended under it. */
  datatype Column = Column(name: string, values: seq<real>)

  /** The loop variables of `parse_data`. */
  datatype State = State(
    columns: seq<Column>,
    current: string,
    complete: bool,
    gathering: bool,
    count: int,
    index: int)

  const Initial := State([], "", false, true, 0, 0)

  /** Python's `a % b`: the result has the sign of `b`. */
  function PyMod(a: int, b: int): (r: int)
    requires b != 0
    ensures b > 0 ==> 0 <= r < b
    ensures b < 0 ==> b < r <= 0
    ensures 0 <= a < b ==> r == a
    ensures b == -1 ==> r == 0
    ensures a == FloorDiv(a, b) * b + r
  {
    var m := a % b;
    if b < 0 && m != 0 then
      assert a == (a / b) * b + m;
      assert (a / b - 1) * b == (a / b) * b - b;
      m + b
    else m
  }

  /** Python's `a // b`: the quotient rounded toward negative infinity. */
  function FloorDiv(a: int, b: int): int
    requires b != 0
  {
    if b < 0 && a % b != 0 then a / b - 1 else a / b
  }

  /** The position `list[i]` reads in a list of length `n`: a negative index counts
      from the end; outside `-n .. n-1` Python raises IndexError. */
  function PyIndex(n: nat, i: int): (r: Result<nat>)
    ensures r.Ok? <==> -(n as int) <= i < n
    ensures r.Ok? ==> r.value < n && (r.value == i || r.value == n + i)
    ensures r.Fail? ==> r.error == IndexError
  {
    if 0 <= i < n then Ok(i)
    else if -(n as int) <= i < 0 then Ok(n + i)
    else Fail(IndexError)
  }

  /** One character of the header phase. Names sit between double quotes; a
      character outside a name that is not a quote, `(` or a tab, arriving while
      the buffer is empty, ends the phase and is dropped. */
  function HeaderStep(s: State, ch: char): State
    requires s.gathering
  {
    if s.current == "" && ch != '"' && ch != '(' && ch != '\t' then
      s.(gathering := false, count := s.count - 1)
    else if ch == '"' && s.complete then
      s.(columns := s.columns + [Column(s.current, [])], count := s.count + 1, current := "", complete := false)
    else if ch == '"' then
      s.(complete := true)
    else
      s.(current := s.current + [ch])
  }

  /** The invariant of the loop: `count` is the number of columns in the header
      phase and one less afterwards, and `column_iterator` (`index` here) stays in `[0, count)`, or at 0
      while `count` is not positive. */
  predicate Inv(s: State) {
    && |s.columns| == (if s.gathering then s.count else s.count + 1)
    && 0 <= s.index
    && (s.index < s.count || s.index == 0)
    && (s.gathering ==> s.index == 0)
  }

  /** One character of the data phase: a tab ends a token, which goes to column
      `column_iterator % column_count` when that column's name contains the browser; any other
      character extends the token. */
  function DataStep(s: State, ch: char, browser: string, toReal: string -> Option<real>): (r: Result<State>)
    requires !s.gathering
    ensures ch != '\t' ==> r.Ok? && r.value.columns == s.columns && r.value.current == s.current + [ch]
    ensures ch == '\t' && s.count == 0 ==> r == Fail(ZeroDivisionError)
    ensures ch == '\t' && Inv(s) && s.count < 0 ==> r == Fail(IndexError)
    ensures r.Fail? ==> r.error in {ZeroDivisionError, IndexError, ValueError}
    ensures ch == '\t' && Inv(s) && s.count > 0 && r.Ok? ==>
      var t := r.value;
      var i := s.index;
      && t.current == ""
      && t.index == (s.index + 1) % s.count
      && |t.columns| == |s.columns|
      && (forall k | 0 <= k < |s.columns| :: t.columns[k].name == s.columns[k].name)
      && (forall k | 0 <= k < |s.columns| && k != i :: t.columns[k] == s.columns[k])
      && (Contains(s.columns[i].name, browser) ==>
            toReal(s.current).Some? && t.columns[i].values == s.columns[i].values + [toReal(s.current).value])
      && (!Contains(s.columns[i].name, browser) ==> t.columns[i] == s.columns[i])
    ensures ch == '\t' && Inv(s) && s.count > 0 && r.Fail? ==>
      Contains(s.columns[s.index].name, browser) && toReal(s.current).None?
  {
    if ch != '\t' then Ok(s.(current := s.current + [ch]))
    else if s.count == 0 then Fail(ZeroDivisionError)
    else
      var k :- PyIndex(|s.columns|, PyMod(s.index, s.count));
      var column := s.columns[k];
      var columns :-
        if Contains(column.name, browser) then
          var v :- Convert(toReal, s.current);
          Ok(s.columns[k := Column(column.name, column.values + [v])])
        else Ok(s.columns);
      var next := s.index + 1;
      WrapIndex(s.index, s.count);
      Ok(s.(columns := columns, current := "", index := if next >= s.count then 0 else next))
  }

  /** Resetting the iterator at the column count is taking it modulo that count. */
  lemma WrapIndex(index: int, count: int)
    ensures 0 <= index < count ==> (if index + 1 >= count then 0 else index + 1) == (index + 1) % count
  {
  }

  function Step(s: State, ch: char, browser: string, toReal: string -> Option<real>): Result<State> {
    if s.gathering then Ok(HeaderStep(s, ch)) else DataStep(s, ch, browser, toReal)
  }

  /** The loop over every character of `text`; the first exception ends it. */
  function Run(s: State, text: string, browser: string, toReal: string -> Option<real>): Result<State>
    decreases |text|
  {
    if |text| == 0 then Ok(s)
    else
      var next :- Step(s, text[0], browser, toReal);
      Run(next, text[1..], browser, toReal)
  }

  /** Running over `a + b` runs over `a`, then over `b` from where `a` ended. */
  lemma {:induction false} RunAppend(s: State, a: string, b: string, browser: string, toReal: string -> Option<real>)
    ensures Run(s, a + b, browser, toReal) ==
      match Run(s, a, browser, toReal)
      case Fail(e) => Fail(e)
      case Ok(t) => Run(t, b, browser, toReal)
    decreases |a|
  {
    if |a| > 0 {
      assert (a + b)[0] == a[0] && (a + b)[1..] == a[1..] + b;
      match Step(s, a[0], browser, toReal)
      case Fail(_) =>
      case Ok(next) =>
        RunAppend(next, a[1..], b, browser, toReal);
        assert Run(s, a + b, browser, toReal) == Run(next, a[1..] + b, browser, toReal);
    } else {
      assert a + b == b;
    }
  }

  /** Every step keeps the invariant. */
  lemma StepKeepsInv(s: State, ch: char, browser: string, toReal: string -> Option<real>)
    requires Inv(s)
    ensures Step(s, ch, browser, toReal).Ok? ==> Inv(Step(s, ch, browser, toReal).value)
  {
  }

  /** So the whole loop keeps it: `column_iterator` (`index` here) never leaves `[0, count)`. */
  lemma {:induction false} RunKeepsInv(s: State, text: string, browser: string, toReal: string -> Option<real>)
    requires Inv(s)
    ensures Run(s, text, browser, toReal).Ok? ==> Inv(Run(s, text, browser, toReal).value)
    decreases |text|
  {
    if |text| > 0 {
      StepKeepsInv(s, text[0], browser, toReal);
      match Step(s, text[0], browser, toReal)
      case Fail(_) =>
      case Ok(next) => RunKeepsInv(next, text[1..], browser, toReal);
    }
  }

  /** A column name as the header writes it. */
  function Quoted(name: string): string {
    "\"" + name + "\""
  }

  /** A header line: the quoted names separated by tabs. */
  function Header(names: seq<string>): string
    decreases |names|
  {
    if |names| == 0 then ""
    else if |names| == 1 then Quoted(names[0])
    else Header(names[..|names| - 1]) + "\t" + Quoted(names[|names| - 1])
  }

  /** The columns a header yields: the tab in front of every name but the first
      stays part of that name. */
  function HeaderColumns(names: seq<string>): (r: seq<Column>)
    ensures |r| == |names|
  {
    seq(|names|, k requires 0 <= k < |names| => Column(if k == 0 then names[k] else "\t" + names[k], []))
  }

  /** A name can open the header when it is empty or starts with `(` or a tab. */
  predicate CanOpen(name: string) {
    name == "" || name[0] == '(' || name[0] == '\t'
  }

  /** Inside quotes, the characters of a name without quotes accumulate. */
  lemma {:induction false} NameChars(s: State, name: string, browser: string, toReal: string -> Option<real>)
    requires s.gathering && s.complete && '"' !in name
    requires s.current != "" || CanOpen(name)
    ensures Run(s, name, browser, toReal) == Ok(s.(current := s.current + name))
    decreases |name|
  {
    if |name| > 0 {
      var next := s.(current := s.current + [name[0]]);
      assert Step(s, name[0], browser, toReal) == Ok(next);
      NameChars(next, name[1..], browser, toReal);
      assert next.current + name[1..] == s.current + name;
    } else {
      assert s.current + name == s.current;
    }
  }

  /** A quoted name appends one column holding the buffer and the name. */
  lemma QuotedField(s: State, name: string, browser: string, toReal: string -> Option<real>)
    requires s.gathering && !s.complete && '"' !in name
    requires s.current != "" || CanOpen(name)
    ensures Run(s, Quoted(name), browser, toReal) ==
      Ok(s.(columns := s.columns + [Column(s.current + name, [])], count := s.count + 1, current := "", complete := false))
  {
    var quoting := s.(complete := true);
    assert Run(s, "\"", browser, toReal) == Ok(quoting);
    NameChars(quoting, name, browser, toReal);
    var filled := quoting.(current := s.current + name);
    assert Run(filled, "\"", browser, toReal) ==
      Ok(s.(columns := s.columns + [Column(s.current + name, [])], count := s.count + 1, current := "", complete := false));
    RunAppend(s, "\"", name, browser, toReal);
    RunAppend(s, "\"" + name, "\"", browser, toReal);
  }

  /** The header phase reads back the names it is given: a header of quoted,
      tab-separated names yields one empty column per name, in order, and stays in
      the header phase with `count` equal to the number of names. */
  lemma {:induction false} HeaderRoundTrip(names: seq<string>, browser: string, toReal: string -> Option<real>)
    requires forall k | 0 <= k < |names| :: '"' !in names[k]
    requires |names| > 0 ==> CanOpen(names[0])
    ensures Run(Initial, Header(names), browser, toReal) == Ok(State(HeaderColumns(names), "", false, true, |names|, 0))
    decreases |names|
  {
    if |names| == 1 {
      QuotedField(Initial, names[0], browser, toReal);
      assert "" + names[0] == names[0];
      assert [] + [Column(names[0], [])] == [Column(names[0], [])] == HeaderColumns(names);
    } else if |names| > 1 {
      var init := names[..|names| - 1];
      var last := names[|names| - 1];
      HeaderRoundTrip(init, browser, toReal);
      HeaderAppend(init, last, browser, toReal);
      assert init + [last] == names;
    }
  }

  /** One more tab-separated quoted name after a header read so far appends its
      column, the tab in front of the name. */
  lemma HeaderAppend(init: seq<string>, last: string, browser: string, toReal: string -> Option<real>)
    requires |init| > 0 && '"' !in last
    requires Run(Initial, Header(init), browser, toReal) == Ok(State(HeaderColumns(init), "", false, true, |init|, 0))
    ensures Run(Initial, Header(init + [last]), browser, toReal) ==
      Ok(State(HeaderColumns(init + [last]), "", false, true, |init| + 1, 0))
  {
    var s := State(HeaderColumns(init), "", false, true, |init|, 0);
    var tabbed := s.(current := "\t");
    assert "\t"[0] == '\t' && "\t"[1..] == "";
    assert s.current + ['\t'] == "\t";
    assert Step(s, '\t', browser, toReal) == Ok(tabbed);
    assert Run(s, "\t", browser, toReal) == Ok(tabbed);
    QuotedField(tabbed, last, browser, toReal);
    assert HeaderColumns(init) + [Column("\t" + last, [])] == HeaderColumns(init + [last]);
    RunAppend(Initial, Header(init), "\t", browser, toReal);
    RunAppend(Initial, Header(init) + "\t", Quoted(last), browser, toReal);
    assert (init + [last])[..|init|] == init;
  }

  /** The first character after the header that is not a quote, `(` or a tab starts
      the data phase with `count` one less than the number of columns, so the last
      column is never the target of a token. */
  lemma HeaderEnds(names: seq<string>, ch: char, browser: string, toReal: string -> Option<real>)
    requires forall k | 0 <= k < |names| :: '"' !in names[k]
    requires |names| > 0 ==> CanOpen(names[0])
    requires ch != '"' && ch != '(' && ch != '\t'
    ensures Run(Initial, Header(names) + [ch], browser, toReal) ==
      Ok(State(HeaderColumns(names), "", false, false, |names| - 1, 0))
  {
    HeaderRoundTrip(names, browser, toReal);
    RunAppend(Initial, Header(names), [ch], browser, toReal);
  }

  /** The four totals `get_browser_process_data` returns. */
  datatype Totals = Totals(totCpu: real, totGpu: real, avgCpu: real, avgGpu: real) {
    function Plus(other: Totals): Totals {
      Totals(totCpu + other.totCpu, totGpu + other.totGpu, avgCpu + other.avgCpu, avgGpu + other.avgGpu)
    }
  }

  const Zero := Totals(0.0, 0.0, 0.0, 0.0)

  const TotCpuKey := "Total CPU Watts"
  const TotGpuKey := "Total GPU Watts"
  const AvgCpuKey := "Average CPU %"
  const AvgGpuKey := "Average GPU %"

  /** The wrapper's `_fields`. */
  const Fields: seq<string> := [TotCpuKey, TotGpuKey, AvgGpuKey, AvgCpuKey]

  /** The dictionary the totals are returned as. */
  function ToMap(t: Totals): (r: map<string, real>)
    ensures r.Keys == set f | f in Fields
    ensures r[TotCpuKey] == t.totCpu && r[TotGpuKey] == t.totGpu
    ensures r[AvgCpuKey] == t.avgCpu && r[AvgGpuKey] == t.avgGpu
  {
    map[TotCpuKey := t.totCpu, TotGpuKey := t.totGpu, AvgCpuKey := t.avgCpu, AvgGpuKey := t.avgGpu]
  }

  function Sum(xs: seq<real>): real {
    if |xs| == 0 then 0.0 else xs[0] + Sum(xs[1..])
  }

  /** The data type of a column: its name after the first `)` and the space that
      follows it; a name without `)` raises ValueError. */
  function DataType(name: string): (r: Result<string>)
    ensures r.Fail? <==> ')' !in name
    ensures r.Fail? ==> r.error == ValueError
    ensures r.Ok? ==> exists i :: 0 <= i < |name| && name[i] == ')' && ')' !in name[..i] && r.value == Slice(name, i + 2, |name|)
  {
    match Find(name, ')')
    case None => Fail(ValueError)
    case Some(i) => Ok(Slice(name, i + 2, |name|))
  }

  /** What one column adds: nothing unless its name contains the browser and it
      holds a value; then power columns add their sum and percentage columns their
      mean, by data type, and other data types add nothing. */
  function Contribution(column: Column, browser: string): (r: Result<Totals>)
    ensures !(Contains(column.name, browser) && |column.values| > 0) ==> r == Ok(Zero)
    ensures r.Fail? <==> Contains(column.name, browser) && |column.values| > 0 && ')' !in column.name
    ensures r.Ok? && r.value != Zero ==>
      && Contains(column.name, browser) && |column.values| > 0
      && DataType(column.name).Ok?
      && DataType(column.name).value in {"CPU Power W", "GPU Power W", "%CPU", "%GPU"}
    ensures Counted(column, browser, "CPU Power W") ==> r == Ok(Zero.(totCpu := Sum(column.values)))
    ensures Counted(column, browser, "GPU Power W") ==> r == Ok(Zero.(totGpu := Sum(column.values)))
    ensures Counted(column, browser, "%CPU") ==> r == Ok(Zero.(avgCpu := Mean(column.values)))
    ensures Counted(column, browser, "%GPU") ==> r == Ok(Zero.(avgGpu := Mean(column.values)))
    ensures (&& Contains(column.name, browser) && |column.values| > 0 && DataType(column.name).Ok?
             && DataType(column.name).value !in {"CPU Power W", "GPU Power W", "%CPU", "%GPU"}) ==> r == Ok(Zero)
  {
    if !(Contains(column.name, browser) && |column.values| > 0) then Ok(Zero)
    else
      var dataType :- DataType(column.name);
      if dataType == "CPU Power W" then Ok(Zero.(totCpu := Sum(column.values)))
      else if dataType == "GPU Power W" then Ok(Zero.(totGpu := Sum(column.values)))
      else if dataType == "%GPU" then Ok(Zero.(avgGpu := Mean(column.values)))
      else if dataType == "%CPU" then Ok(Zero.(avgCpu := Mean(column.values)))
      else Ok(Zero)
  }

  /** `sum(values) / len(values)`, 0 for no values. */
  function Mean(xs: seq<real>): real {
    if |xs| == 0 then 0.0 else Sum(xs) / (|xs| as real)
  }

  /** The column belongs to the browser, holds values, and has data type `dataType`. */
  predicate Counted(column: Column, browser: string, dataType: string) {
    Contains(column.name, browser) && |column.values| > 0 && DataType(column.name) == Ok(dataType)
  }

  /** The sum of the values of the columns counted for `dataType`. */
  function SumOver(columns: seq<Column>, browser: string, dataType: string): real {
    if |columns| == 0 then 0.0
    else (if Counted(columns[0], browser, dataType) then Sum(columns[0].values) else 0.0)
         + SumOver(columns[1..], browser, dataType)
  }

  /** The sum of the means of the columns counted for `dataType`. */
  function MeanOver(columns: seq<Column>, browser: string, dataType: string): real {
    if |columns| == 0 then 0.0
    else (if Counted(columns[0], browser, dataType) then Mean(columns[0].values) else 0.0)
         + MeanOver(columns[1..], browser, dataType)
  }

  /** The totals: the CPU and GPU power columns of the browser add their sums, its
      CPU and GPU percentage columns add their means, and nothing else counts. */
  lemma {:induction false} AggregateFields(columns: seq<Column>, browser: string)
    requires Aggregate(columns, browser).Ok?
    ensures Aggregate(columns, browser).value.totCpu == SumOver(columns, browser, "CPU Power W")
    ensures Aggregate(columns, browser).value.totGpu == SumOver(columns, browser, "GPU Power W")
    ensures Aggregate(columns, browser).value.avgCpu == MeanOver(columns, browser, "%CPU")
    ensures Aggregate(columns, browser).value.avgGpu == MeanOver(columns, browser, "%GPU")
    decreases |columns|
  {
    if |columns| > 0 {
      AggregateFields(columns[1..], browser);
    }
  }

  /** The loop over the columns, in order; the first column whose data type cannot
      be read raises. */
  function Aggregate(columns: seq<Column>, browser: string): (r: Result<Totals>)
    ensures r.Fail? <==> exists k :: 0 <= k < |columns| && Contribution(columns[k], browser).Fail?
    decreases |columns|
  {
    if |columns| == 0 then Ok(Zero)
    else
      var first :- Contribution(columns[0], browser);
      var rest := Aggregate(columns[1..], browser);
      if rest.Fail? then
        var k :| 0 <= k < |columns[1..]| && Contribution(columns[1..][k], browser).Fail?;
        assert columns[1..][k] == columns[k + 1];
        Fail(rest.error)
      else
        assert forall k | 1 <= k < |columns| :: columns[k] == columns[1..][k - 1];
        Ok(first.Plus(rest.value))
  }

  /** Aggregation is additive: the totals of two lists of columns are the sums of
      their totals. */
  lemma {:induction false} AggregateAppend(a: seq<Column>, b: seq<Column>, browser: string)
    requires Aggregate(a + b, browser).Ok?
    ensures Aggregate(a, browser).Ok? && Aggregate(b, browser).Ok?
    ensures Aggregate(a + b, browser).value == Aggregate(a, browser).value.Plus(Aggregate(b, browser).value)
    decreases |a|
  {
    if |a| == 0 {
      assert a + b == b;
    } else {
      assert (a + b)[0] == a[0] && (a + b)[1..] == a[1..] + b;
      AggregateAppend(a[1..], b, browser);
    }
  }

  /** Columns that do not belong to the browser leave the totals unchanged. */
  lemma {:induction false} ForeignColumnsIgnored(columns: seq<Column>, browser: string)
    requires forall k | 0 <= k < |columns| :: !Contains(columns[k].name, browser)
    ensures Aggregate(columns, browser) == Ok(Zero)
    decreases |columns|
  {
    if |columns| > 0 {
      ForeignColumnsIgnored(columns[1..], browser);
    }
  }

  /** `parse_data`: the lines are joined into one text and run through the state
      machine; a final `count` of 0 raises, otherwise the columns are aggregated. */
  function ParseData(lines: seq<string>, browser: string, toReal: string -> Option<real>): (r: Result<map<string, real>>)
    ensures r.Ok? ==> r.value.Keys == set f | f in Fields
    ensures r.Ok? ==> && Run(Initial, Concat(lines), browser, toReal).Ok?
                      && Run(Initial, Concat(lines), browser, toReal).value.count != 0
                      && Aggregate(Run(Initial, Concat(lines), browser, toReal).value.columns, browser).Ok?
                      && r.value == ToMap(Aggregate(Run(Initial, Concat(lines), browser, toReal).value.columns, browser).value)
    ensures Run(Initial, Concat(lines), browser, toReal).Ok? && Run(Initial, Concat(lines), browser, toReal).value.count == 0 ==>
      r == Fail(Raised("No data columns were found, the file is assumed invalid."))
  {
    var final :- Run(Initial, Concat(lines), browser, toReal);
    if final.count == 0 then Fail(Raised("No data columns were found, the file is assumed invalid."))
    else
      var totals :- Aggregate(final.columns, browser);
      Ok(ToMap(totals))
  }

  /** An empty log has no columns and raises. */
  lemma EmptyLogRaises(browser: string, toReal: string -> Option<real>)
    ensures ParseData([], browser, toReal) == Fail(Raised("No data columns were found, the file is assumed invalid."))
  {
  }

  /** A log that is only a header has columns but no values: it parses, to totals
      of zero. */
  lemma HeaderOnlyLog(names: seq<string>, browser: string, toReal: string -> Option<real>)
    requires |names| > 0 && CanOpen(names[0])
    requires forall k | 0 <= k < |names| :: '"' !in names[k]
    ensures ParseData([Header(names)], browser, toReal) == Ok(ToMap(Zero))
  {
    HeaderOnlyParse([Header(names)], names, browser, toReal);
  }

  /** `HeaderOnlyLog` for the log named `lines`. */
  lemma HeaderOnlyParse(lines: seq<string>, names: seq<string>, browser: string, toReal: string -> Option<real>)
    requires |names| > 0 && CanOpen(names[0])
    requires forall k | 0 <= k < |names| :: '"' !in names[k]
    requires lines == [Header(names)]
    ensures ParseData(lines, browser, toReal) == Ok(ToMap(Zero))
  {
    var st := State(HeaderColumns(names), "", false, true, |names|, 0);
    HeaderOnlyRun(lines, names, browser, toReal);
    EmptyColumnsAddNothing(HeaderColumns(names), browser);
    ParseDataOfRun(lines, browser, toReal, st, Zero);
  }

  /** The loop over a log that is one header line ends in the header phase. */
  lemma HeaderOnlyRun(lines: seq<string>, names: seq<string>, browser: string, toReal: string -> Option<real>)
    requires |names| > 0 && CanOpen(names[0])
    requires forall k | 0 <= k < |names| :: '"' !in names[k]
    requires lines == [Header(names)]
    ensures Run(Initial, Concat(lines), browser, toReal) ==
      Ok(State(HeaderColumns(names), "", false, true, |names|, 0))
  {
    HeaderRoundTrip(names, browser, toReal);
    assert Concat(lines) == Header(names) + Concat([]);
    assert Concat(lines) == Header(names);
  }

  /** A run that counted columns, and totals that aggregate them, decide the parse. */
  lemma ParseDataOfRun(lines: seq<string>, browser: string, toReal: string -> Option<real>, final: State, totals: Totals)
    requires Run(Initial, Concat(lines), browser, toReal) == Ok(final)
    requires final.count != 0 && Aggregate(final.columns, browser) == Ok(totals)
    ensures ParseData(lines, browser, toReal) == Ok(ToMap(totals))
  {
  }

  /** Columns without values add nothing. */
  lemma {:induction false} EmptyColumnsAddNothing(columns: seq<Column>, browser: string)
    requires forall k | 0 <= k < |columns| :: columns[k].values == []
    ensures Aggregate(columns, browser) == Ok(Zero)
    decreases |columns|
  {
    if |columns| > 0 {
      EmptyColumnsAddNothing(columns[1..], browser);
    }
  }

  /** `_parse`: a missing log raises, and so does a total CPU power that is not
      positive. */
  function Parse(log: Option<seq<string>>, browser: string, toReal: string -> Option<real>): (r: Result<map<string, real>>)
    ensures log.None? ==> r == Fail(Raised("IPPET failed to generate a valid logfile"))
    ensures r.Ok? ==> r.value.Keys == (set f | f in Fields) && r.value[TotCpuKey] > 0.0
  {
    match log
    case None => Fail(Raised("IPPET failed to generate a valid logfile"))
    case Some(lines) =>
      var summary :- ParseData(lines, browser, toReal);
      if !(summary[TotCpuKey] > 0.0) then Fail(AssertionError) else Ok(summary)
  }
}
