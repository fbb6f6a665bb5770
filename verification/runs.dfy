/** The measurement loop every collector shares: `for i in range(0, iterations)`
    run one measurement and keep its row. A run is an input here — the value it
    produces, or the exception it raises — since running the tools is I/O. */
module Runs {
  import opened Results

  /** The rows of runs 0 .. n-1, in order; the first run that raises ends the loop
      with its exception. A negative `n` is an empty range, as in Python. */
  function CollectRows<T>(n: int, run: nat -> Result<T>): (r: Result<seq<T>>)
    ensures r.Ok? <==> forall i: nat | i < n :: run(i).Ok?
    ensures r.Ok? ==> |r.value| == (if n < 0 then 0 else n)
    ensures r.Ok? ==> forall i | 0 <= i < |r.value| :: run(i) == Ok(r.value[i])
    ensures r.Fail? ==> exists i: nat | i < n :: run(i) == Fail(r.error) && forall j: nat | j < i :: run(j).Ok?
    ensures n > 0 && run(0).Fail? ==> r == Fail(run(0).error)
    decreases if n < 0 then 0 else n
  {
    if n <= 0 then Ok([])
    else
      var rows := CollectRows(n - 1, run);
      if rows.Fail? then
        Fail(rows.error)
      else
        match run(n - 1)
        case Fail(e) => Fail(e)
        case Ok(row) =>
          assert forall i: nat | i < n :: run(i).Ok? by {
            forall i: nat | i < n
              ensures run(i).Ok?
            {
              if i < n - 1 {
                assert run(i) == Ok(rows.value[i]);
              }
            }
          }
          Ok(rows.value + [row])
  }
}
