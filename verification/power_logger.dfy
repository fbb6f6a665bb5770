/** The stand-alone Power Gadget logger (power_logger.py): parsing one log into a
    power signal, the collection loop, the run nearest to the mean, and the
    argument checks of `main`.

    A log is the list `readlines()` returns; `float()` and `int()` are the
    conversions `toReal` and `toInt`, None where Python raises ValueError. */
module PowerLogger {
  import opened Results
  import opened Text
  import opened Patterns
  import opened Runs

  /** `Processor Energy_0\s?\(Joules\)\s?=\s?`, the pattern between the leading `.*`
      and the captured `(.*)`. */
  const EnergyPattern: seq<Token> :=
    Literal("Processor Energy_0") + [OptSpace] + Literal("(Joules)") + [OptSpace] + Literal("=") + [OptSpace]

  /** The data and metadata sections: at the first line equal to "\n", data is
      `lines[1:i]` (the header line is skipped) and metadata `lines[i+1:]`; a log
      without such a line has neither. */
  function Sections(lines: seq<string>): (r: (seq<string>, seq<string>))
    ensures FirstBlank(lines).None? ==> r == ([], [])
    ensures FirstBlank(lines).Some? ==>
      var i := FirstBlank(lines).value;
      && r.0 == (if i <= 1 then [] else lines[1..i])
      && r.1 == lines[i + 1..]
  {
    match FirstBlank(lines)
    case None => ([], [])
    case Some(i) => (Slice(lines, 1, i), lines[i + 1..])
  }

  /** `re.match('.*' + pat + '(.*)', line.strip())` as a function of the line: the
      captured group, or None. */
  function StrippedMatch(pat: seq<Token>): string -> Option<string> {
    (line: string) => Search(Strip(line), pat)
  }

  /** The metadata loop: each line that `matcher` accepts replaces `joules` with its
      converted group; a failed conversion raises. */
  function ScanJoules(metadata: seq<string>, matcher: string -> Option<string>, toReal: string -> Option<real>, joules: real): (r: Result<real>)
    ensures r.Fail? ==> r.error == ValueError
    decreases |metadata|
  {
    if |metadata| == 0 then Ok(joules)
    else
      match matcher(metadata[0])
      case None => ScanJoules(metadata[1..], matcher, toReal, joules)
      case Some(group) =>
        var j :- Convert(toReal, group);
        ScanJoules(metadata[1..], matcher, toReal, j)
  }

  /** Joules comes from the last matching metadata line and keeps its initial value
      when no line matches; the scan fails only when some matched group does not
      convert. */
  lemma {:induction false} ScanJoulesTakesLast(metadata: seq<string>, matcher: string -> Option<string>, toReal: string -> Option<real>, joules: real)
    ensures ScanJoules(metadata, matcher, toReal, joules).Ok? ==>
      ScanJoules(metadata, matcher, toReal, joules) ==
        match LastSome(metadata, matcher)
        case None => Ok(joules)
        case Some(group) => Convert(toReal, group)
    ensures ScanJoules(metadata, matcher, toReal, joules).Fail? <==>
      exists k :: 0 <= k < |metadata| && BadGroup(metadata[k], matcher, toReal)
    decreases |metadata|
  {
    if |metadata| > 0 {
      var rest := metadata[1..];
      var m := matcher(metadata[0]);
      var next := if m.Some? && toReal(m.value).Some? then toReal(m.value).value else joules;
      ScanJoulesTakesLast(rest, matcher, toReal, next);
      LastSomeCons(metadata, matcher);
      if !BadGroup(metadata[0], matcher, toReal) {
        assert ScanJoules(metadata, matcher, toReal, joules) == ScanJoules(rest, matcher, toReal, next);
        if ScanJoules(metadata, matcher, toReal, joules).Fail? {
          var k :| 0 <= k < |rest| && BadGroup(rest[k], matcher, toReal);
          assert rest[k] == metadata[k + 1];
        }
        if exists k :: 0 <= k < |metadata| && BadGroup(metadata[k], matcher, toReal) {
          var k :| 0 <= k < |metadata| && BadGroup(metadata[k], matcher, toReal);
          assert k > 0 && BadGroup(rest[k - 1], matcher, toReal);
        }
      }
    }
  }

  /** A scan in which no line matches keeps the initial value. */
  lemma {:induction false} ScanJoulesNoMatch(metadata: seq<string>, matcher: string -> Option<string>, toReal: string -> Option<real>, joules: real)
    requires forall k | 0 <= k < |metadata| :: matcher(metadata[k]).None?
    ensures ScanJoules(metadata, matcher, toReal, joules) == Ok(joules)
    decreases |metadata|
  {
    if |metadata| > 0 {
      assert forall k | 0 <= k < |metadata| - 1 :: metadata[1..][k] == metadata[k + 1];
      ScanJoulesNoMatch(metadata[1..], matcher, toReal, joules);
    }
  }

  /** `line` matches, and its group does not convert. */
  predicate BadGroup(line: string, matcher: string -> Option<string>, toReal: string -> Option<real>) {
    matcher(line).Some? && toReal(matcher(line).value).None?
  }

  function Abs(x: int): nat {
    if x < 0 then -x else x
  }

  /** The millisecond field of a data line: the last ':'-separated part of its first
      ','-separated field. */
  function Timestamp(line: string, toInt: string -> Option<int>): (r: Result<int>)
    ensures r.Fail? ==> r.error == ValueError
    ensures var parts := Split(Split(line, ',')[0], ':');
      r == Convert(toInt, parts[|parts| - 1])
  {
    var fields := Split(line, ',');
    var parts := Split(fields[0], ':');
    Convert(toInt, parts[|parts| - 1])
  }

  /** The sampling interval: the distance of two timestamps rounded down to tens. */
  function Interval(t1: int, t2: int): (ts: nat)
    ensures ts % 10 == 0
    ensures ts <= Abs(t1 - t2) < ts + 10
  {
    (Abs(t1 - t2) / 10) * 10
  }

  /** `int(1000.0 / ts)`: ZeroDivisionError when the interval is 0. For a positive
      integer `ts` the float quotient never rounds across an integer, so this is
      integer division. */
  function Frequency(ts: nat): (r: Result<nat>)
    ensures r.Fail? <==> ts == 0
    ensures r.Fail? ==> r.error == ZeroDivisionError
    ensures r.Ok? ==> r.value * ts <= 1000 < (r.value + 1) * ts
  {
    if ts == 0 then Fail(ZeroDivisionError)
    else
      var f := 1000 / ts;
      assert f * ts <= 1000 < (f + 1) * ts by {
        assert 1000 == f * ts + 1000 % ts;
      }
      Ok(f)
  }

  /** The power sample of a data line: its fifth ','-separated field. */
  function Sample(line: string, toReal: string -> Option<real>): (r: Result<real>)
    ensures r.Fail? ==> r.error == IndexError || r.error == ValueError
    ensures r.Fail? && r.error == IndexError ==> |Split(line, ',')| < 5
    ensures |Split(line, ',')| < 5 ==> r == Fail(IndexError)
    ensures |Split(line, ',')| >= 5 ==> r == Convert(toReal, Split(line, ',')[4])
  {
    var fields := Split(line, ',');
    if |fields| < 5 then Fail(IndexError) else Convert(toReal, fields[4])
  }

  /** One sample per line, in order; the first bad line raises. */
  function Samples(lines: seq<string>, toReal: string -> Option<real>): (r: Result<seq<real>>)
    ensures r.Ok? ==> |r.value| == |lines|
    ensures r.Ok? ==> forall k | 0 <= k < |lines| :: Sample(lines[k], toReal) == Ok(r.value[k])
    ensures r.Fail? ==> exists k :: 0 <= k < |lines| && Sample(lines[k], toReal) == Fail(r.error)
  {
    if |lines| == 0 then Ok([])
    else
      var first :- Sample(lines[0], toReal);
      var rest := Samples(lines[1..], toReal);
      if rest.Fail? then
        var k :| 0 <= k < |lines[1..]| && Sample(lines[1..][k], toReal) == Fail(rest.error);
        assert lines[1..][k] == lines[k + 1];
        Fail(rest.error)
      else
        assert forall k | 1 <= k < |lines| :: lines[k] == lines[1..][k - 1];
        Ok([first] + rest.value)
  }

  /** `data[1:-1]`. */
  function Trim(data: seq<string>): (r: seq<string>)
    ensures |data| >= 2 ==> r == data[1..|data| - 1]
    ensures |data| < 2 ==> r == []
  {
    if |data| < 2 then [] else data[1..|data| - 1]
  }

  /** The data lines `parse_signal` keeps are lines 2 .. i-2 of the log, where line i
      is the first blank one. */
  lemma DataLines(lines: seq<string>)
    ensures Trim(Sections(lines).0) ==
      if FirstBlank(lines).Some? && FirstBlank(lines).value >= 3 then lines[2..FirstBlank(lines).value - 1] else []
  {
    if FirstBlank(lines).Some? && FirstBlank(lines).value >= 3 {
      var i := FirstBlank(lines).value;
      var d := Sections(lines).0;
      var t := Trim(d);
      assert d == lines[1..i];
      assert t == d[1..|d| - 1];
      assert |t| == i - 3;
      forall k | 0 <= k < |t|
        ensures t[k] == lines[k + 2]
      {
        assert t[k] == d[k + 1];
        assert d[k + 1] == lines[k + 2];
      }
      assert t == lines[2..i - 1];
    }
  }

  /** When at least three data lines are kept, the blank line is at index 6 or later
      and the kept lines start at line 2. */
  lemma KeptLines(lines: seq<string>)
    requires |Trim(Sections(lines).0)| >= 3
    ensures FirstBlank(lines).Some? && FirstBlank(lines).value >= 6
    ensures Trim(Sections(lines).0) == lines[2..FirstBlank(lines).value - 1]
  {
    DataLines(lines);
  }

  /** What `parse_signal` returns. */
  datatype Signal = Signal(samples: seq<real>, freq: nat, joules: real)

  /** `parse_signal` on the lines of one log. */
  function ParseSignal(lines: seq<string>, toReal: string -> Option<real>, toInt: string -> Option<int>): (r: Result<Signal>)
  {
    var sections := Sections(lines);
    var joules :- ScanJoules(sections.1, StrippedMatch(EnergyPattern), toReal, 0.0);
    // the first and last data line are dropped: `data[1:-1]`
    ParseData(Trim(sections.0), joules, toReal, toInt)
  }

  /** The part of `parse_signal` after the metadata scan, on the kept data lines:
      the sampling frequency from the timestamps of `data[1]` and `data[2]`, one
      sample per line, then the two asserts. Indexing `data[2]` raises before any
      conversion when fewer than three lines are kept. */
  function ParseData(trimmed: seq<string>, joules: real, toReal: string -> Option<real>, toInt: string -> Option<int>): (r: Result<Signal>)
    ensures |trimmed| < 3 ==> r == Fail(IndexError)
    ensures r.Ok? ==>
      && |trimmed| >= 3
      && Samples(trimmed, toReal) == Ok(r.value.samples)
      && Timestamp(trimmed[1], toInt).Ok? && Timestamp(trimmed[2], toInt).Ok?
      && Frequency(Interval(Timestamp(trimmed[1], toInt).value, Timestamp(trimmed[2], toInt).value)) == Ok(r.value.freq)
      && r.value.joules == joules > 0.0
    ensures |trimmed| >= 3 && !(joules > 0.0) ==> r.Fail?
    ensures (&& |trimmed| >= 3 && !(joules > 0.0)
             && Timestamp(trimmed[1], toInt).Ok? && Timestamp(trimmed[2], toInt).Ok?
             && Frequency(Interval(Timestamp(trimmed[1], toInt).value, Timestamp(trimmed[2], toInt).value)).Ok?
             && Samples(trimmed, toReal).Ok?) ==> r == Fail(AssertionError)
    ensures (&& |trimmed| >= 3 && joules > 0.0
             && Timestamp(trimmed[1], toInt).Ok? && Timestamp(trimmed[2], toInt).Ok?
             && Frequency(Interval(Timestamp(trimmed[1], toInt).value, Timestamp(trimmed[2], toInt).value)).Ok?
             && Samples(trimmed, toReal).Ok?) ==>
      r == Ok(Signal(Samples(trimmed, toReal).value,
                     Frequency(Interval(Timestamp(trimmed[1], toInt).value, Timestamp(trimmed[2], toInt).value)).value,
                     joules))
  {
    var _ :- Require(|trimmed| >= 3, IndexError);
    var t1 :- Timestamp(trimmed[1], toInt);
    var t2 :- Timestamp(trimmed[2], toInt);
    var freq :- Frequency(Interval(t1, t2));
    var samples :- Samples(trimmed, toReal);
    if !(joules > 0.0) || |samples| == 0 then Fail(AssertionError)
    else Ok(Signal(samples, freq, joules))
  }

  /** The energy of a parsed signal is the converted group of the last stripped
      metadata line that matches the energy label, and it is positive: a log whose
      metadata has no such line never parses. */
  lemma ParseSignalJoules(lines: seq<string>, toReal: string -> Option<real>, toInt: string -> Option<int>)
    requires ParseSignal(lines, toReal, toInt).Ok?
    ensures LastSome(Sections(lines).1, StrippedMatch(EnergyPattern)).Some?
    ensures Convert(toReal, LastSome(Sections(lines).1, StrippedMatch(EnergyPattern)).value) ==
      Ok(ParseSignal(lines, toReal, toInt).value.joules)
    ensures ParseSignal(lines, toReal, toInt).value.joules > 0.0
  {
    var metadata := Sections(lines).1;
    ParseSignalSteps(lines, toReal, toInt);
    ScanJoulesTakesLast(metadata, StrippedMatch(EnergyPattern), toReal, 0.0);
  }

  /** `parse_signal` is the metadata scan followed by `ParseData` on its energy. */
  lemma ParseSignalSteps(lines: seq<string>, toReal: string -> Option<real>, toInt: string -> Option<int>)
    requires ParseSignal(lines, toReal, toInt).Ok?
    ensures var scan := ScanJoules(Sections(lines).1, StrippedMatch(EnergyPattern), toReal, 0.0);
      scan.Ok? && ParseSignal(lines, toReal, toInt) == ParseData(Trim(Sections(lines).0), scan.value, toReal, toInt)
  {
  }

  /** A parsed signal has one sample per data line between the header, the first and
      last data lines, and the blank line: the lines from 2 up to two before the
      first blank line give the samples in order, the frequency comes from the
      timestamps of lines 3 and 4, and the energy is positive. So the signal is never
      empty and its second `assert` can never fail. */
  lemma ParseSignalShape(lines: seq<string>, toReal: string -> Option<real>, toInt: string -> Option<int>)
    requires ParseSignal(lines, toReal, toInt).Ok?
    ensures FirstBlank(lines).Some? && FirstBlank(lines).value >= 6
    ensures var i := FirstBlank(lines).value;
      var s := ParseSignal(lines, toReal, toInt).value;
      && Samples(lines[2..i - 1], toReal) == Ok(s.samples)
      && |s.samples| == i - 3
      && Timestamp(lines[3], toInt).Ok? && Timestamp(lines[4], toInt).Ok?
      && Frequency(Interval(Timestamp(lines[3], toInt).value, Timestamp(lines[4], toInt).value)) == Ok(s.freq)
      && s.joules > 0.0
  {
    ParseSignalSteps(lines, toReal, toInt);
    ParseDataShape(lines, ScanJoules(Sections(lines).1, StrippedMatch(EnergyPattern), toReal, 0.0).value, toReal, toInt);
  }

  /** `ParseSignalShape` for the steps after the metadata scan. */
  lemma ParseDataShape(lines: seq<string>, joules: real, toReal: string -> Option<real>, toInt: string -> Option<int>)
    requires ParseData(Trim(Sections(lines).0), joules, toReal, toInt).Ok?
    ensures FirstBlank(lines).Some? && FirstBlank(lines).value >= 6
    ensures var i := FirstBlank(lines).value;
      var s := ParseData(Trim(Sections(lines).0), joules, toReal, toInt).value;
      && Samples(lines[2..i - 1], toReal) == Ok(s.samples)
      && |s.samples| == i - 3
      && Timestamp(lines[3], toInt).Ok? && Timestamp(lines[4], toInt).Ok?
      && Frequency(Interval(Timestamp(lines[3], toInt).value, Timestamp(lines[4], toInt).value)) == Ok(s.freq)
      && s.joules > 0.0
  {
    KeptLines(lines);
    SliceFrom2(lines, FirstBlank(lines).value - 1);
  }

  lemma SliceFrom2(lines: seq<string>, j: nat)
    requires 5 <= j <= |lines|
    ensures lines[2..j][1] == lines[3] && lines[2..j][2] == lines[4]
  {
  }

  /** No log without a positive energy line parses: the energy stays 0 and the
      `assert joules > 0` fails, unless an earlier step raises first. */
  lemma NoEnergyFails(lines: seq<string>, toReal: string -> Option<real>, toInt: string -> Option<int>)
    requires forall k | 0 <= k < |Sections(lines).1| :: Search(Strip(Sections(lines).1[k]), EnergyPattern).None?
    ensures ScanJoules(Sections(lines).1, StrippedMatch(EnergyPattern), toReal, 0.0) == Ok(0.0)
    ensures ParseSignal(lines, toReal, toInt) == ParseData(Trim(Sections(lines).0), 0.0, toReal, toInt)
    ensures ParseSignal(lines, toReal, toInt).Fail?
  {
    var metadata := Sections(lines).1;
    ScanJoulesNoMatch(metadata, StrippedMatch(EnergyPattern), toReal, 0.0);
  }

  /** The platforms `PowerGadget.log` runs on. */
  predicate Supported(system: string) {
    system == "Darwin" || system == "Linux"
  }

  /** One run: `PowerGadget.log` (which raises on any platform but Darwin and Linux),
      then the parser on the log it wrote. */
  function LoggedRun(system: string, log: seq<string>, parse: seq<string> -> Result<Signal>): (r: Result<Signal>)
    ensures !Supported(system) ==> r == Fail(Raised("Platform is not supported"))
    ensures Supported(system) ==> r == parse(log)
  {
    if system != "Darwin" && system != "Linux" then Fail(Raised("Platform is not supported"))
    else parse(log)
  }

  /** `collect_power_usage`: `iterations` runs, each logging with the platform's tool
      and parsing the log `logs(i)` with `parse_signal`; logging raises on any
      platform but Darwin and Linux. Returns the signals and the energies, entry i
      from run i. */
  function CollectPowerUsage(iterations: int, system: string, logs: nat -> seq<string>,
                             toReal: string -> Option<real>, toInt: string -> Option<int>): (r: Result<(seq<seq<real>>, seq<real>)>)
    ensures r.Ok? ==> |r.value.0| == |r.value.1| == (if iterations < 0 then 0 else iterations)
    ensures r.Ok? ==> forall i | 0 <= i < |r.value.0| ::
      && ParseSignal(logs(i), toReal, toInt).Ok?
      && r.value.0[i] == ParseSignal(logs(i), toReal, toInt).value.samples
      && r.value.1[i] == ParseSignal(logs(i), toReal, toInt).value.joules
    ensures iterations > 0 && !Supported(system) ==> r == Fail(Raised("Platform is not supported"))
  {
    Collect(iterations, system, logs, (log: seq<string>) => ParseSignal(log, toReal, toInt))
  }

  /** The same loop for any parser. */
  function Collect(iterations: int, system: string, logs: nat -> seq<string>,
                   parse: seq<string> -> Result<Signal>): (r: Result<(seq<seq<real>>, seq<real>)>)
    ensures r.Ok? ==> |r.value.0| == |r.value.1| == (if iterations < 0 then 0 else iterations)
    ensures r.Ok? ==> forall i | 0 <= i < |r.value.0| ::
      && parse(logs(i)).Ok?
      && r.value.0[i] == parse(logs(i)).value.samples
      && r.value.1[i] == parse(logs(i)).value.joules
    ensures iterations > 0 && !Supported(system) ==> r == Fail(Raised("Platform is not supported"))
  {
    var run := (i: nat) => LoggedRun(system, logs(i), parse);
    var r := Signals(iterations, run);
    if Supported(system) then
      assert forall i: nat :: run(i) == parse(logs(i));
      r
    else
      assert iterations > 0 ==> run(0) == Fail(Raised("Platform is not supported"));
      r
  }

  /** The loop of `collect_power_usage` for any run: the samples and the energy of
      run i, or the exception of the first run that raises. */
  function Signals(iterations: int, run: nat -> Result<Signal>): (r: Result<(seq<seq<real>>, seq<real>)>)
    ensures r.Ok? ==> |r.value.0| == |r.value.1| == (if iterations < 0 then 0 else iterations)
    ensures r.Ok? ==> forall i | 0 <= i < |r.value.0| ::
      run(i).Ok? && r.value.0[i] == run(i).value.samples && r.value.1[i] == run(i).value.joules
    ensures iterations > 0 && run(0).Fail? ==> r == Fail(run(0).error)
  {
    var signals :- CollectRows(iterations, run);
    Ok(Unzip(signals))
  }

  /** The samples and the energies of a list of signals, entry by entry. */
  function Unzip(signals: seq<Signal>): (r: (seq<seq<real>>, seq<real>))
    ensures |r.0| == |r.1| == |signals|
    ensures forall k | 0 <= k < |signals| :: r.0[k] == signals[k].samples && r.1[k] == signals[k].joules
  {
    (seq(|signals|, k requires 0 <= k < |signals| => signals[k].samples),
     seq(|signals|, k requires 0 <= k < |signals| => signals[k].joules))
  }

  function Dist(x: real, y: real): real {
    if x < y then y - x else x - y
  }

  /** `display_nearest_plot`'s choice: the first run whose energy is nearest to the
      mean (a later run replaces it only when strictly nearer). `joules[0]` raises
      IndexError on an empty list. */
  method NearestRun(joules: seq<real>, mean: real) returns (r: Result<nat>)
    ensures r.Fail? <==> |joules| == 0
    ensures r.Fail? ==> r.error == IndexError
    ensures r.Ok? ==> r.value < |joules|
    ensures r.Ok? ==> forall k | 0 <= k < |joules| :: Dist(joules[r.value], mean) <= Dist(joules[k], mean)
    ensures r.Ok? ==> forall k | 0 <= k < r.value :: Dist(joules[k], mean) > Dist(joules[r.value], mean)
  {
    if |joules| == 0 {
      return Fail(IndexError);
    }
    var minDist := Dist(joules[0], mean);
    var minElem := 0;
    var index := 0;
    while index < |joules|
      invariant 0 <= minElem < |joules| && minElem <= index <= |joules|
      invariant minElem < index || index == 0
      invariant minDist == Dist(joules[minElem], mean)
      invariant forall k | 0 <= k < index :: minDist <= Dist(joules[k], mean)
      invariant forall k | 0 <= k < minElem :: Dist(joules[k], mean) > minDist
    {
      var dist := Dist(joules[index], mean);
      if dist < minDist {
        minDist := dist;
        minElem := index;
      }
      index := index + 1;
    }
    return Ok(minElem);
  }

  /** The checks `main` makes before measuring. */
  function CheckArguments(iterations: int, duration: int, resolution: int): (r: Result<()>)
    ensures r.Ok? <==> iterations > 1 && duration > 0 && resolution >= 50
    ensures iterations <= 1 ==> r == Fail(Raised("iterations has to be greater than 1"))
    ensures iterations > 1 && duration <= 0 ==> r == Fail(Raised("duration has to be greater than 0"))
    ensures iterations > 1 && duration > 0 && resolution < 50 ==> r == Fail(Raised("resolution has to be greater or equal to 50"))
  {
    if iterations <= 1 then Fail(Raised("iterations has to be greater than 1"))
    else if duration <= 0 then Fail(Raised("duration has to be greater than 0"))
    else if resolution < 50 then Fail(Raised("resolution has to be greater or equal to 50"))
    else Ok(())
  }
}
