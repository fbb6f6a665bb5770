/** The Battery Life Analyzer summaries: the wrapper (wrappers/BLA.py) and the
    stand-alone Windows script (windows/power_summary.py). Both normalise the image
    name of the process to watch and build one entry per run from BLA's "Active
    Analysis" table; the wrapper also reports the power impact.

    The table is an input (reading the UTF-16 CSV is I/O). Only the columns `join`
    reads matter: whether the table has each of them, and each row's image name and
    values. */
module Bla {
  import opened Results
  import opened Text
  import opened Runs

  /** The two copies of `BLA`. */
  datatype Flavour = Wrapper | Windows

  /** The numeric columns `join` reads. */
  datatype Measure = CpuPlatform | CpuLogical | FromIdle | Power

  function ColumnName(m: Measure): string {
    match m
    case CpuPlatform => "CPU % (Platform)"
    case CpuLogical => "CPU % (Logical)"
    case FromIdle => "CSwitches from Idle"
    case Power => "Power Impact (W) - HuronRiver - Sandybridge - Dual Core"
  }

  /** The columns a flavour reads, in the order it reads them. */
  function Measured(flavour: Flavour): seq<Measure> {
    match flavour
    case Wrapper => [CpuPlatform, CpuLogical, FromIdle, Power]
    case Windows => [CpuPlatform, CpuLogical, FromIdle]
  }

  /** An entry key: a measure over the whole system (first row) or summed over the
      process's rows. */
  datatype Key = System(m: Measure) | Process(m: Measure)

  function KeyName(k: Key): string {
    match k
    case System(CpuPlatform) => "CPU % (Platform)"
    case System(CpuLogical) => "CPU % (Logical)"
    case System(FromIdle) => "Idle Wakeups"
    case System(Power) => "Power Impact"
    case Process(CpuPlatform) => "CPU Proc % (Platform)"
    case Process(CpuLogical) => "CPU Proc % (Logical)"
    case Process(FromIdle) => "Idle Proc Wakeups"
    case Process(Power) => "Power Proc Impact"
  }

  /** The declared fields: `_fields` of the wrapper, the module-level `fields` of
      the Windows script. */
  function Fields(flavour: Flavour): seq<string> {
    match flavour
    case Wrapper => ["CPU % (Platform)", "CPU % (Logical)", "CPU Proc % (Platform)", "CPU Proc % (Logical)",
                     "Idle Wakeups", "Idle Proc Wakeups", "Power Impact", "Power Proc Impact"]
    case Windows => ["CPU % (Platform)", "CPU % (Logical)", "CPU Proc % (Platform)", "CPU Proc % (Logical)",
                     "Idle Wakeups", "Idle Proc Wakeups"]
  }

  /** The keys an entry of a flavour can hold. */
  function Keys(flavour: Flavour): set<Key> {
    (set m | m in Measured(flavour) :: System(m)) + (set m | m in Measured(flavour) :: Process(m))
  }

  /** Different keys have different names. */
  lemma KeyNameInjective(k1: Key, k2: Key)
    ensures KeyName(k1) == KeyName(k2) ==> k1 == k2
  {
  }

  /** The declared fields name exactly the keys `join` can produce. */
  lemma FieldsNameKeys(flavour: Flavour)
    ensures (set k | k in Keys(flavour) :: KeyName(k)) == set f | f in Fields(flavour)
  {
    var ks := {System(CpuPlatform), System(CpuLogical), System(FromIdle),
               Process(CpuPlatform), Process(CpuLogical), Process(FromIdle)};
    if flavour == Wrapper {
      ks := ks + {System(Power), Process(Power)};
    }
    assert Keys(flavour) == ks;
  }

  /** The image name from the arguments: none when it is absent or empty, otherwise
      with ".exe" appended unless it already ends with it. */
  function NormaliseImage(image: Option<string>): (r: Option<string>)
    ensures r.None? <==> image.None? || image.value == ""
    ensures r.Some? ==> IsSuffix(".exe", r.value)
    ensures r.Some? && IsSuffix(".exe", image.value) ==> r.value == image.value
    ensures r.Some? && !IsSuffix(".exe", image.value) ==> r.value == image.value + ".exe"
  {
    match image
    case None => None
    case Some(name) =>
      if name == "" then None
      else if IsSuffix(".exe", name) then Some(name)
      else
        var r := name + ".exe";
        assert r[|r| - 4..] == ".exe";
        Some(r)
  }

  /** Normalising twice is normalising once. */
  lemma NormaliseIdempotent(image: Option<string>)
    ensures NormaliseImage(NormaliseImage(image)) == NormaliseImage(image)
  {
  }

  datatype Row = Row(image: string, cpuPlatform: real, cpuLogical: real, fromIdle: real, power: real) {
    function Cell(m: Measure): real {
      match m
      case CpuPlatform => cpuPlatform
      case CpuLogical => cpuLogical
      case FromIdle => fromIdle
      case Power => power
    }
  }

  /** The analysis table: which of the read columns it has, and its rows. */
  datatype Table = Table(hasImageName: bool, columns: set<Measure>, rows: seq<Row>)

  /** `aa_df[name][0]`: KeyError for a missing column, and KeyError for label 0 when
      the table has no rows. */
  function First(t: Table, m: Measure): (r: Result<real>)
    ensures m !in t.columns ==> r == Fail(KeyError(ColumnName(m)))
    ensures m in t.columns && |t.rows| == 0 ==> r == Fail(KeyError("0"))
    ensures m in t.columns && |t.rows| > 0 ==> r == Ok(t.rows[0].Cell(m))
  {
    if m !in t.columns then Fail(KeyError(ColumnName(m)))
    else if |t.rows| == 0 then Fail(KeyError("0"))
    else Ok(t.rows[0].Cell(m))
  }

  /** The system-wide values of the measures `ms`, read in order; the first missing
      column, or an empty table, raises. */
  function SystemWide(t: Table, ms: seq<Measure>): (r: Result<map<Key, real>>)
    ensures r.Ok? <==> |ms| == 0 || (|t.rows| > 0 && forall m | m in ms :: m in t.columns)
    ensures r.Ok? ==> r.value.Keys == set m | m in ms :: System(m)
    ensures r.Ok? ==> forall m | m in ms :: r.value[System(m)] == t.rows[0].Cell(m)
    ensures r.Fail? ==> exists m | m in ms :: r.error == KeyError(ColumnName(m)) || r.error == KeyError("0")
    decreases |ms|
  {
    if |ms| == 0 then Ok(map[])
    else
      assert ms[0] in ms;
      assert forall m | m in ms[1..] :: m in ms;
      var value :- First(t, ms[0]);
      var rest :- SystemWide(t, ms[1..]);
      assert forall m | m in ms :: m == ms[0] || m in ms[1..];
      Ok(rest[System(ms[0]) := value])
  }

  /** The rows whose image name equals `image`, in order. */
  function Select(rows: seq<Row>, image: string): (r: seq<Row>)
    ensures forall k | 0 <= k < |r| :: r[k].image == image
    ensures |r| == 0 <==> forall k | 0 <= k < |rows| :: rows[k].image != image
  {
    if |rows| == 0 then []
    else
      var rest := Select(rows[1..], image);
      assert forall k | 1 <= k < |rows| :: rows[k] == rows[1..][k - 1];
      if rows[0].image == image then [rows[0]] + rest else rest
  }

  /** `.sum()` of one column over some rows. */
  function SumOf(rows: seq<Row>, m: Measure): real {
    if |rows| == 0 then 0.0 else rows[0].Cell(m) + SumOf(rows[1..], m)
  }

  /** The sum of a column over the rows of one image, row by row. */
  function SumIf(rows: seq<Row>, image: string, m: Measure): real {
    if |rows| == 0 then 0.0
    else (if rows[0].image == image then rows[0].Cell(m) else 0.0) + SumIf(rows[1..], image, m)
  }

  /** Summing the selection adds each row of the image once and no other row. */
  lemma {:induction false} SumOverSelection(rows: seq<Row>, image: string, m: Measure)
    ensures SumOf(Select(rows, image), m) == SumIf(rows, image, m)
    decreases |rows|
  {
    if |rows| > 0 {
      SumOverSelection(rows[1..], image, m);
      if rows[0].image == image {
        var rest := Select(rows[1..], image);
        assert ([rows[0]] + rest)[1..] == rest;
      }
    }
  }

  /** `join`: the system-wide values, then, when an image is set, the sums of the
      same columns over the rows of that image, provided there is such a row. */
  function Entry(flavour: Flavour, image: Option<string>, t: Table): (r: Result<map<Key, real>>)
    ensures r.Ok? <==> |t.rows| > 0 && (forall m | m in Measured(flavour) :: m in t.columns)
                       && (image.Some? ==> t.hasImageName)
    ensures r.Ok? ==> r.value.Keys <= Keys(flavour)
    ensures r.Ok? ==> forall m | m in Measured(flavour) :: System(m) in r.value && r.value[System(m)] == t.rows[0].Cell(m)
    ensures r.Ok? ==> forall m | m in Measured(flavour) ::
      (Process(m) in r.value <==> image.Some? && |Select(t.rows, image.value)| > 0)
    ensures r.Ok? ==> forall m | m in Measured(flavour) && Process(m) in r.value ::
      r.value[Process(m)] == SumOf(Select(t.rows, image.value), m)
    ensures r.Fail? && |t.rows| > 0 && (forall m | m in Measured(flavour) :: m in t.columns) ==> r.error == KeyError("Image Name")
  {
    var entry :- SystemWide(t, Measured(flavour));
    match image
    case None => Ok(entry)
    case Some(name) =>
      if !t.hasImageName then Fail(KeyError("Image Name"))
      else
        var selection := Select(t.rows, name);
        if |selection| == 0 then Ok(entry)
        else Ok(entry + PerProcess(Measured(flavour), selection))
  }

  /** The per-process sums of the measures `ms` over the selected rows. */
  function PerProcess(ms: seq<Measure>, selection: seq<Row>): (r: map<Key, real>)
    ensures r.Keys == set m | m in ms :: Process(m)
    ensures forall m | m in ms :: r[Process(m)] == SumOf(selection, m)
  {
    map m | m in ms :: Process(m) := SumOf(selection, m)
  }

  /** Without an image, or when no row has it, the entry holds only the system-wide
      keys. */
  lemma NoProcessKeys(flavour: Flavour, image: Option<string>, t: Table)
    requires Entry(flavour, image, t).Ok?
    requires image.None? || forall k | 0 <= k < |t.rows| :: t.rows[k].image != image.value
    ensures Entry(flavour, image, t).value.Keys == set m | m in Measured(flavour) :: System(m)
  {
  }

  lemma {:induction false} SelectAppend(rows: seq<Row>, extra: Row, image: string)
    requires extra.image != image
    ensures Select(rows + [extra], image) == Select(rows, image)
    decreases |rows|
  {
    if |rows| == 0 {
      assert rows + [extra] == [extra];
    } else {
      assert (rows + [extra])[1..] == rows[1..] + [extra];
      SelectAppend(rows[1..], extra, image);
    }
  }

  /** A row of another image appended to a non-empty table changes nothing in the
      entry. */
  lemma OtherImagesIgnored(flavour: Flavour, image: string, t: Table, extra: Row)
    requires |t.rows| > 0 && extra.image != image
    ensures Entry(flavour, Some(image), Table(t.hasImageName, t.columns, t.rows + [extra])) == Entry(flavour, Some(image), t)
  {
    var t' := Table(t.hasImageName, t.columns, t.rows + [extra]);
    assert t'.rows[0] == t.rows[0];
    SelectAppend(t.rows, extra, image);
    SystemWideFirstRow(t, t', Measured(flavour));
  }

  /** The system-wide values depend on the first row only. */
  lemma {:induction false} SystemWideFirstRow(t: Table, u: Table, ms: seq<Measure>)
    requires t.columns == u.columns && |t.rows| > 0 && |u.rows| > 0 && t.rows[0] == u.rows[0]
    ensures SystemWide(t, ms) == SystemWide(u, ms)
    decreases |ms|
  {
    if |ms| > 0 {
      SystemWideFirstRow(t, u, ms[1..]);
    }
  }

  /** A data-frame row: every declared field, with NaN (None) where the entry has
      no value. */
  function FrameRow(flavour: Flavour, entry: map<Key, real>): (r: map<Key, Option<real>>)
    ensures r.Keys == Keys(flavour)
    ensures forall k | k in r :: (r[k].Some? <==> k in entry) && (k in entry ==> r[k].value == entry[k])
  {
    map k | k in Keys(flavour) :: if k in entry then Some(entry[k]) else None
  }

  /** `_collect_power_usage` of the Windows script: one frame row per iteration,
      row i from the table of run i. */
  function CollectPowerUsage(iterations: int, image: Option<string>, tables: nat -> Table): (r: Result<seq<map<Key, Option<real>>>>)
    ensures r.Ok? ==> |r.value| == (if iterations < 0 then 0 else iterations)
    ensures r.Ok? ==> forall i | 0 <= i < |r.value| ::
      Entry(Windows, NormaliseImage(image), tables(i)).Ok?
      && r.value[i] == FrameRow(Windows, Entry(Windows, NormaliseImage(image), tables(i)).value)
    ensures r.Fail? ==> exists i: nat | i < iterations ::
      && Entry(Windows, NormaliseImage(image), tables(i)) == Fail(r.error)
      && forall j: nat | j < i :: Entry(Windows, NormaliseImage(image), tables(j)).Ok?
  {
    var collected := CollectRows(iterations, EntryRun(image, tables));
    CollectedEntries(iterations, image, tables);
    if collected.Fail? then Fail(collected.error)
    else
      var rows := collected.value;
      Ok(seq(|rows|, i requires 0 <= i < |rows| => FrameRow(Windows, rows[i])))
  }

  /** Run i of `collect_power_usage`: the entry of the i-th table. */
  function EntryRun(image: Option<string>, tables: nat -> Table): nat -> Result<map<Key, real>> {
    (i: nat) => Entry(Windows, NormaliseImage(image), tables(i))
  }

  /** The runs collected are the tables' entries, and a failure is the first
      failing entry. */
  lemma CollectedEntries(iterations: int, image: Option<string>, tables: nat -> Table)
    ensures var collected := CollectRows(iterations, EntryRun(image, tables));
      && (collected.Fail? ==> exists i: nat | i < iterations ::
            && Entry(Windows, NormaliseImage(image), tables(i)) == Fail(collected.error)
            && forall j: nat | j < i :: Entry(Windows, NormaliseImage(image), tables(j)).Ok?)
      && (collected.Ok? ==> forall i | 0 <= i < |collected.value| ::
            Entry(Windows, NormaliseImage(image), tables(i)) == Ok(collected.value[i]))
  {
    var run := EntryRun(image, tables);
    var collected := CollectRows(iterations, run);
    if collected.Fail? {
      var i: nat :| i < iterations && run(i) == Fail(collected.error) && forall j: nat | j < i :: run(j).Ok?;
      assert forall j: nat | j < i :: Entry(Windows, NormaliseImage(image), tables(j)) == run(j);
    } else {
      forall i | 0 <= i < |collected.value|
        ensures Entry(Windows, NormaliseImage(image), tables(i)) == Ok(collected.value[i])
      {
        assert run(i) == Ok(collected.value[i]);
      }
    }
  }
}
