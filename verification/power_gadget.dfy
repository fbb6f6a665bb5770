/** `PowerGadget._parse`, shared word for word by the wrapper (wrappers/PowerGadget.py)
    and the benchmark copy (benchmarks/PowerGadget.py): split the log at its first
    blank line and take Joules and Watt from the last metadata lines that match.

    The log is the list `readlines()` returns, or None when the file is missing;
    `float()` is the conversion `toReal`. */
module PowerGadget {
  import opened Results
  import opened Text
  import opened Patterns

  /** `\(Joules\) = ` and `\(Watt\) = `, between the leading `.*` and the group. */
  const JoulesPattern: seq<Token> := Literal("(Joules) = ")
  const WattPattern: seq<Token> := Literal("(Watt) = ")

  /** The two matches the metadata loop tries on a line: the group after the Joules
      label and the group after the Watt label, None where the label is absent. */
  datatype Labels = Labels(joules: string -> Option<string>, watt: string -> Option<string>)

  const Log: Labels := Labels((line: string) => Search(line, JoulesPattern), (line: string) => Search(line, WattPattern))

  /** The fields `PowerGadgetBenchmark` and the wrapper declare. */
  const Fields: seq<string> := ["Joules", "Watt"]

  /** The two variables of the metadata loop; `watt` is None while it is unbound. */
  datatype Reading = Reading(joules: real, watt: Option<real>)

  /** The metadata section: the lines after the first line equal to "\n". Without
      such a line the loop never binds `metadata`, and reading it raises. */
  function Metadata(lines: seq<string>): (r: Result<seq<string>>)
    ensures r.Ok? <==> FirstBlank(lines).Some?
    ensures r.Ok? ==> r.value == lines[FirstBlank(lines).value + 1..]
    ensures r.Fail? ==> r.error == UnboundLocalError("metadata")
  {
    match FirstBlank(lines)
    case None => Fail(UnboundLocalError("metadata"))
    case Some(i) => Ok(lines[i + 1..])
  }

  /** One metadata line: the Joules pattern is tried first, then the Watt pattern;
      each match replaces its variable with the converted group. */
  function ReadLine(line: string, labels: Labels, toReal: string -> Option<real>, acc: Reading): (r: Result<Reading>)
    ensures r.Fail? ==> r.error == ValueError
  {
    var joules :- match labels.joules(line)
                  case None => Ok(acc.joules)
                  case Some(group) => Convert(toReal, group);
    var watt :- match labels.watt(line)
                case None => Ok(acc.watt)
                case Some(group) => var w :- Convert(toReal, group); Ok(Some(w));
    Ok(Reading(joules, watt))
  }

  /** The metadata loop, line by line from `acc`. */
  function ReadAll(metadata: seq<string>, labels: Labels, toReal: string -> Option<real>, acc: Reading): (r: Result<Reading>)
    ensures r.Fail? ==> r.error == ValueError
    ensures r.Ok? && acc.watt.Some? ==> r.value.watt.Some?
    decreases |metadata|
  {
    if |metadata| == 0 then Ok(acc)
    else
      var next :- ReadLine(metadata[0], labels, toReal, acc);
      ReadAll(metadata[1..], labels, toReal, next)
  }

  /** The value a variable ends with: the conversion of the last matching line's
      group, or what it started as when no line matches. */
  function Final<T>(last: Option<string>, convert: string -> Option<T>, initial: T): Result<T> {
    match last
    case None => Ok(initial)
    case Some(group) => Convert(convert, group)
  }

  /** The loop succeeds only if it converts every matched group, and then Joules and
      Watt each come from the last line matching their own pattern; a variable no
      line matches keeps its initial value. */
  lemma {:induction false} ReadAllTakesLast(metadata: seq<string>, labels: Labels, toReal: string -> Option<real>, acc: Reading)
    ensures ReadAll(metadata, labels, toReal, acc).Ok? ==>
      && Final(LastSome(metadata, labels.joules), toReal, acc.joules) == Ok(ReadAll(metadata, labels, toReal, acc).value.joules)
      && (ReadAll(metadata, labels, toReal, acc).value.watt ==
            if LastSome(metadata, labels.watt).None? then acc.watt
            else toReal(LastSome(metadata, labels.watt).value))
    decreases |metadata|
  {
    if |metadata| > 0 {
      var r := ReadLine(metadata[0], labels, toReal, acc);
      if r.Ok? {
        ReadAllTakesLast(metadata[1..], labels, toReal, r.value);
        LastSomeCons(metadata, labels.joules);
        LastSomeCons(metadata, labels.watt);
      }
    }
  }

  /** After the loop: reading an unbound `watt` raises, then both values must be
      positive; the result has the keys Watt and Joules. */
  function Finish(reading: Reading): (r: Result<map<string, real>>)
    ensures r.Ok? <==> reading.watt.Some? && reading.watt.value > 0.0 && reading.joules > 0.0
    ensures reading.watt.None? ==> r == Fail(UnboundLocalError("watt"))
    ensures reading.watt.Some? && r.Fail? ==> r.error == AssertionError
    ensures r.Ok? ==> r.value.Keys == {"Watt", "Joules"}
    ensures r.Ok? ==> r.value["Joules"] == reading.joules && r.value["Watt"] == reading.watt.value
  {
    match reading.watt
    case None => Fail(UnboundLocalError("watt"))
    case Some(watt) =>
      if watt > 0.0 && reading.joules > 0.0 then Ok(map["Watt" := watt, "Joules" := reading.joules])
      else Fail(AssertionError)
  }

  /** `_parse` from a given start: `joules = 0`, and `watt` as the start binds it. */
  function ParseFrom(log: Option<seq<string>>, labels: Labels, toReal: string -> Option<real>, start: Reading): (r: Result<map<string, real>>)
  {
    match log
    case None => Fail(Raised("PowerLog failed to generate a valid logfile"))
    case Some(lines) =>
      var metadata :- Metadata(lines);
      var reading :- ReadAll(metadata, labels, toReal, start);
      Finish(reading)
  }

  /** `_parse` as written: the initialiser binds `watts`, so `watt` starts unbound. */
  function ParseAsWritten(log: Option<seq<string>>, toReal: string -> Option<real>): (r: Result<map<string, real>>)
    ensures log.None? ==> r == Fail(Raised("PowerLog failed to generate a valid logfile"))
    ensures r.Ok? ==> r.value.Keys == {"Watt", "Joules"} && r.value["Watt"] > 0.0 && r.value["Joules"] > 0.0
  {
    ParseFrom(log, Log, toReal, Reading(0.0, None))
  }

  /** `_parse` as evidently intended: `watt` starts at 0. */
  function Parse(log: Option<seq<string>>, toReal: string -> Option<real>): (r: Result<map<string, real>>)
    ensures log.None? ==> r == Fail(Raised("PowerLog failed to generate a valid logfile"))
    ensures r.Ok? ==> r.value.Keys == {"Watt", "Joules"} && r.value["Watt"] > 0.0 && r.value["Joules"] > 0.0
    ensures r.Fail? ==> r.error != UnboundLocalError("watt")
  {
    ParseFrom(log, Log, toReal, Reading(0.0, Some(0.0)))
  }

  /** What a successful parse returns: Joules and Watt are the converted groups of
      the last metadata lines matching their patterns; both patterns must match,
      since the start values fail the assert. */
  lemma ParseTakesLast(lines: seq<string>, toReal: string -> Option<real>)
    requires Parse(Some(lines), toReal).Ok?
    ensures FirstBlank(lines).Some?
    ensures var metadata := lines[FirstBlank(lines).value + 1..];
      var r := Parse(Some(lines), toReal).value;
      && LastSome(metadata, Log.joules).Some?
      && LastSome(metadata, Log.watt).Some?
      && toReal(LastSome(metadata, Log.joules).value) == Some(r["Joules"])
      && toReal(LastSome(metadata, Log.watt).value) == Some(r["Watt"])
  {
    FromZeroTakesLast(lines, Log, toReal);
  }

  /** ParseTakesLast for any pair of matchers. */
  lemma FromZeroTakesLast(lines: seq<string>, labels: Labels, toReal: string -> Option<real>)
    requires ParseFrom(Some(lines), labels, toReal, Reading(0.0, Some(0.0))).Ok?
    ensures FirstBlank(lines).Some?
    ensures var metadata := lines[FirstBlank(lines).value + 1..];
      var r := ParseFrom(Some(lines), labels, toReal, Reading(0.0, Some(0.0))).value;
      && LastSome(metadata, labels.joules).Some?
      && LastSome(metadata, labels.watt).Some?
      && toReal(LastSome(metadata, labels.joules).value) == Some(r["Joules"])
      && toReal(LastSome(metadata, labels.watt).value) == Some(r["Watt"])
  {
    var metadata := Metadata(lines).value;
    var reading := ReadAll(metadata, labels, toReal, Reading(0.0, Some(0.0))).value;
    assert Finish(reading).Ok?;
    ReadAllTakesLast(metadata, labels, toReal, Reading(0.0, Some(0.0)));
  }

  /** The two versions differ only when no metadata line matches the Watt pattern:
      as soon as one does, `watt` is bound before it is read. */
  lemma AsWrittenAgrees(log: Option<seq<string>>, toReal: string -> Option<real>)
    requires log.Some? && FirstBlank(log.value).Some?
    requires LastSome(log.value[FirstBlank(log.value).value + 1..], Log.watt).Some?
    ensures ParseAsWritten(log, toReal) == Parse(log, toReal)
  {
    var metadata := Metadata(log.value).value;
    ReadAllTakesLast(metadata, Log, toReal, Reading(0.0, None));
    ReadAllTakesLast(metadata, Log, toReal, Reading(0.0, Some(0.0)));
    var written := ReadAll(metadata, Log, toReal, Reading(0.0, None));
    var intended := ReadAll(metadata, Log, toReal, Reading(0.0, Some(0.0)));
    ReadAllSameFailure(metadata, Log, toReal, 0.0, None, Some(0.0));
    if written.Ok? {
      assert written.value == intended.value;
    }
  }

  /** Whether the loop fails does not depend on the start values. */
  lemma {:induction false} ReadAllSameFailure(metadata: seq<string>, labels: Labels, toReal: string -> Option<real>,
                                              joules: real, watt1: Option<real>, watt2: Option<real>)
    ensures ReadAll(metadata, labels, toReal, Reading(joules, watt1)).Ok? <==> ReadAll(metadata, labels, toReal, Reading(joules, watt2)).Ok?
    ensures ReadAll(metadata, labels, toReal, Reading(joules, watt1)).Ok? ==>
      ReadAll(metadata, labels, toReal, Reading(joules, watt1)).value.joules == ReadAll(metadata, labels, toReal, Reading(joules, watt2)).value.joules
    decreases |metadata|
  {
    if |metadata| > 0 {
      var r1 := ReadLine(metadata[0], labels, toReal, Reading(joules, watt1));
      var r2 := ReadLine(metadata[0], labels, toReal, Reading(joules, watt2));
      if r1.Ok? && r2.Ok? {
        if r1.value.watt == r2.value.watt {
          assert r1.value == r2.value;
        } else {
          ReadAllSameFailure(metadata[1..], labels, toReal, r1.value.joules, r1.value.watt, r2.value.watt);
        }
      }
    }
  }

  /** The discrepancy on the smallest log: a file holding only a blank line. As
      written `_parse` raises UnboundLocalError for `watt`; as intended the values
      stay 0 and the assert fails. */
  lemma NoWattLine(toReal: string -> Option<real>)
    ensures ParseAsWritten(Some(["\n"]), toReal) == Fail(UnboundLocalError("watt"))
    ensures Parse(Some(["\n"]), toReal) == Fail(AssertionError)
  {
    assert FirstBlank(["\n"]) == Some(0);
    assert Metadata(["\n"]) == Ok([]);
  }

  /** On a metadata line as `readlines` gives it, each pattern yields the text after
      the LAST occurrence of its label, and matches exactly when the label occurs. */
  lemma GroupAfterLastLabel(body: string, tag: string)
    requires tag == "(Joules) = " || tag == "(Watt) = "
    requires '\n' !in body
    ensures Search(body + "\n", Literal(tag)).Some? <==> Contains(body, tag)
    ensures Search(body + "\n", Literal(tag)).Some? ==>
      exists p :: && OccursAt(body, tag, p)
                  && Search(body + "\n", Literal(tag)).value == body[p + |tag|..]
                  && forall q | p < q :: !OccursAt(body, tag, q)
  {
    SearchIgnoresNewline(body, tag);
    SearchLiteral(body, tag);
  }

  /** The fields the benchmark declares are exactly the keys `_parse` returns. */
  lemma FieldsAreKeys(log: Option<seq<string>>, toReal: string -> Option<real>)
    requires Parse(log, toReal).Ok?
    ensures Parse(log, toReal).value.Keys == set f | f in Fields
  {
  }
}
