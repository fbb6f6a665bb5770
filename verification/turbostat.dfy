/** The Linux power summary (linux/power_summary.py): `TurboStat.join` turns the
    second line of turbostat's stderr into one row keyed by the 17 turbostat
    fields, and `_collect_power_usage` gathers one such row per iteration.

    The stderr text of each run is an input; pandas' `convert_numeric` is the
    conversion `toReal`, None standing for the NaN it leaves behind. */
module TurboStat {
  import opened Results
  import opened Text
  import opened Runs

  const Fields: seq<string> := ["%c0", "GHz", "TSC", "SMI", "%c1", "%c3", "%c6", "%c7", "CTMP",
                                "PTMP", "%pc2", "%pc3", "%pc6", "%pc7", "Pkg_W", "Cor_W", "GFX_W"]

  predicate Distinct<T(==)>(xs: seq<T>) {
    forall i, j | 0 <= i < j < |xs| :: xs[i] != xs[j]
  }

  lemma FieldsDistinct()
    ensures |Fields| == 17 && Distinct(Fields)
  {
  }

  /** The loop `summary[val] = f[i]` over `keys`; the first key without a token
      raises IndexError. */
  function Zip(keys: seq<string>, tokens: seq<string>): (r: Result<map<string, string>>)
    ensures r.Ok? <==> |tokens| >= |keys|
    ensures r.Fail? ==> r.error == IndexError
    ensures r.Ok? ==> r.value.Keys == set k | k in keys
    ensures r.Ok? && Distinct(keys) ==> forall i | 0 <= i < |keys| :: r.value[keys[i]] == tokens[i]
    decreases |keys|
  {
    if |keys| == 0 then Ok(map[])
    else
      var init := keys[..|keys| - 1];
      var last := keys[|keys| - 1];
      var prefix :- Zip(init, tokens);
      if |tokens| < |keys| then Fail(IndexError)
      else
        var r := prefix[last := tokens[|keys| - 1]];
        assert keys == init + [last];
        assert Distinct(keys) ==> forall i | 0 <= i < |keys| :: r[keys[i]] == tokens[i] by {
          if Distinct(keys) {
            assert Distinct(init);
            forall i | 0 <= i < |keys|
              ensures r[keys[i]] == tokens[i]
            {
              if i < |init| {
                assert keys[i] == init[i] != last;
              }
            }
          }
        }
        Ok(r)
  }

  /** Only the first `|keys|` tokens matter. */
  lemma {:induction false} ZipPrefix(keys: seq<string>, a: seq<string>, b: seq<string>)
    requires |a| >= |keys| && |b| >= |keys| && a[..|keys|] == b[..|keys|]
    ensures Zip(keys, a) == Zip(keys, b)
    decreases |keys|
  {
    if |keys| > 0 {
      var n := |keys| - 1;
      assert a[..n] == a[..|keys|][..n];
      assert b[..n] == b[..|keys|][..n];
      ZipPrefix(keys[..n], a, b);
      assert a[n] == a[..|keys|][n];
    }
  }

  /** `join`: the second line of stderr, split on whitespace, zipped with the
      fields. Fewer than two lines, or fewer than 17 tokens, raise IndexError. */
  function Join(stderr: string): (r: Result<map<string, string>>)
    ensures r.Ok? <==> |Split(stderr, '\n')| >= 2 && |Words(Split(stderr, '\n')[1])| >= |Fields|
    ensures r.Fail? ==> r.error == IndexError
  {
    var lines := Split(stderr, '\n');
    if |lines| < 2 then Fail(IndexError)
    else Zip(Fields, Words(lines[1]))
  }

  /** A row has exactly the 17 fields as keys; field i holds the i-th token of the
      second line, so tokens past the 17th are ignored and nothing of the other
      lines is used. */
  lemma JoinFields(stderr: string)
    requires Join(stderr).Ok?
    ensures Join(stderr).value.Keys == set k | k in Fields
    ensures forall i | 0 <= i < |Fields| :: Join(stderr).value[Fields[i]] == Words(Split(stderr, '\n')[1])[i]
  {
    FieldsDistinct();
  }

  /** Two outputs whose second lines start with the same 17 tokens give the same
      row. */
  lemma OnlyFirstTokensMatter(a: string, b: string)
    requires Join(a).Ok? && Join(b).Ok?
    requires Words(Split(a, '\n')[1])[..|Fields|] == Words(Split(b, '\n')[1])[..|Fields|]
    ensures Join(a) == Join(b)
  {
    ZipPrefix(Fields, Words(Split(a, '\n')[1]), Words(Split(b, '\n')[1]));
  }

  /** `_collect_power_usage`: one row per iteration, row i from the output of run
      i, then every value converted to a number (None where it does not convert). */
  function CollectPowerUsage(iterations: int, stderr: nat -> string, toReal: string -> Option<real>): (r: Result<seq<map<string, Option<real>>>>)
    ensures r.Ok? ==> |r.value| == (if iterations < 0 then 0 else iterations)
    ensures r.Ok? ==> forall i | 0 <= i < |r.value| ::
      Join(stderr(i)).Ok? && r.value[i] == ConvertRow(Join(stderr(i)).value, toReal)
    ensures r.Fail? ==> r.error == IndexError
    ensures r.Fail? <==> exists i: nat | i < iterations :: Join(stderr(i)).Fail?
  {
    var run := (i: nat) => Join(stderr(i));
    var collected := CollectRows(iterations, run);
    if collected.Fail? then
      assert collected.error == IndexError by {
        var i: nat :| i < iterations && run(i) == Fail(collected.error);
        assert Join(stderr(i)).Fail?;
      }
      Fail(collected.error)
    else
      var rows := collected.value;
      assert forall i | 0 <= i < |rows| :: Join(stderr(i)) == Ok(rows[i]) by {
        forall i | 0 <= i < |rows|
          ensures Join(stderr(i)) == Ok(rows[i])
        {
          assert run(i) == Ok(rows[i]);
        }
      }
      Ok(seq(|rows|, i requires 0 <= i < |rows| => ConvertRow(rows[i], toReal)))
  }

  /** Every collected row has exactly the 17 fields as keys. */
  lemma RowsHaveFields(iterations: int, stderr: nat -> string, toReal: string -> Option<real>)
    requires CollectPowerUsage(iterations, stderr, toReal).Ok?
    ensures forall i | 0 <= i < |CollectPowerUsage(iterations, stderr, toReal).value| ::
      CollectPowerUsage(iterations, stderr, toReal).value[i].Keys == set k | k in Fields
  {
    var rows := CollectPowerUsage(iterations, stderr, toReal).value;
    forall i | 0 <= i < |rows|
      ensures rows[i].Keys == set k | k in Fields
    {
      JoinFields(stderr(i));
    }
  }

  /** Every value of a row converted. */
  function ConvertRow(row: map<string, string>, toReal: string -> Option<real>): (r: map<string, Option<real>>)
    ensures r.Keys == row.Keys
    ensures forall k | k in row :: r[k] == toReal(row[k])
  {
    map k | k in row :: toReal(row[k])
  }
}
