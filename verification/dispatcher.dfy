/** The push/pull work dispatcher (dispatcher.py).

    Construction binds one PUSH socket per OS named in the configuration; `_scatter`
    pushes every (OS, page, browser) combination to the socket of its OS, retrying a
    send that times out; `_gather` receives exactly as many results as were pushed.
    Sockets become port numbers, a send attempt's outcome becomes an input, and the
    stream of received results becomes a sequence. */
module Dispatcher {
  import opened Results
  import opened Config

  /** The `ports` table of `_create_scatter_socket`. */
  function PortOf(os: string): (r: Result<nat>)
    ensures r.Ok? <==> os == "Windows" || os == "Darwin" || os == "Linux"
    ensures r.Fail? ==> r.error == KeyError(os)
  {
    if os == "Windows" then Ok(9000)
    else if os == "Darwin" then Ok(9001)
    else if os == "Linux" then Ok(9002)
    else Fail(KeyError(os))
  }

  /** No two OS classes share a port, and none uses the gather port 9003. */
  lemma PortsDistinct(a: string, b: string)
    requires PortOf(a).Ok? && PortOf(b).Ok?
    ensures PortOf(a).value == PortOf(b).value <==> a == b
    ensures PortOf(a).value != 9003
  {
  }

  /** The scatter sockets bound at construction, OS by OS in configuration order;
      the first OS missing from the port table raises KeyError. */
  function Sockets(systems: seq<OsEntry>): (r: Result<map<string, nat>>)
    ensures r.Ok? ==> forall k | 0 <= k < |systems| ::
      systems[k].os in r.value && PortOf(systems[k].os) == Ok(r.value[systems[k].os])
    ensures r.Ok? ==> forall os | os in r.value :: exists k :: 0 <= k < |systems| && systems[k].os == os
    ensures r.Fail? <==> exists k :: 0 <= k < |systems| && PortOf(systems[k].os).Fail?
    ensures r.Fail? ==> exists k :: && 0 <= k < |systems|
                                    && r.error == KeyError(systems[k].os)
                                    && PortOf(systems[k].os).Fail?
                                    && forall i | 0 <= i < k :: PortOf(systems[i].os).Ok?
  {
    if |systems| == 0 then Ok(map[])
    else
      var port :- PortOf(systems[0].os);
      var rest := Sockets(systems[1..]);
      assert forall k | 1 <= k < |systems| :: systems[1..][k - 1] == systems[k];
      if rest.Fail? then
        var k :| && 0 <= k < |systems[1..]|
                 && rest.error == KeyError(systems[1..][k].os)
                 && PortOf(systems[1..][k].os).Fail?
                 && forall i | 0 <= i < k :: PortOf(systems[1..][i].os).Ok?;
        assert forall i | 0 <= i < k + 1 :: PortOf(systems[i].os).Ok? by {
          forall i | 0 <= i < k + 1
            ensures PortOf(systems[i].os).Ok?
          {
            if i > 0 {
              assert systems[i] == systems[1..][i - 1];
            }
          }
        }
        Fail(rest.error)
      else
        var r := rest.value[systems[0].os := port];
        assert forall os | os in r :: exists k :: 0 <= k < |systems| && systems[k].os == os by {
          forall os | os in r
            ensures exists k :: 0 <= k < |systems| && systems[k].os == os
          {
            if os != systems[0].os {
              var k :| 0 <= k < |systems[1..]| && systems[1..][k].os == os;
              assert systems[k + 1].os == os;
            }
          }
        }
        Ok(r)
  }

  datatype Dispatcher = Dispatcher(args: RunArgs, config: Config, sockets: map<string, nat>)

  /** `Dispatcher(args)` once the configuration is loaded. */
  function Create(args: RunArgs, config: Config): (r: Result<Dispatcher>)
    ensures r.Ok? <==> forall k | 0 <= k < |config.systems| :: PortOf(config.systems[k].os).Ok?
    ensures r.Ok? ==> r.value.args == args && r.value.config == config
  {
    var sockets :- Sockets(config.systems);
    Ok(Dispatcher(args, config, sockets))
  }

  /** Every OS of the configuration has its scatter socket. */
  predicate HasSockets(d: Dispatcher) {
    forall k | 0 <= k < |d.config.systems| :: d.config.systems[k].os in d.sockets
  }

  lemma CreateHasSockets(args: RunArgs, config: Config)
    requires Create(args, config).Ok?
    ensures HasSockets(Create(args, config).value)
    ensures forall k | 0 <= k < |config.systems| ::
      Create(args, config).value.sockets[config.systems[k].os] == PortOf(config.systems[k].os).value
  {
  }

  /** `_build_message`: the work item together with the whole run description. */
  datatype Message = Message(page: string, browser: Browser, args: RunArgs, config: Config)

  /** One push: the message and the socket (OS and port) it goes out on. */
  datatype Send = Send(os: string, port: nat, message: Message)

  function SendOf(d: Dispatcher, os: string, item: Item): Send
    requires os in d.sockets
  {
    Send(os, d.sockets[os], Message(item.page, item.browser, d.args, d.config))
  }

  /** The pushes for one OS entry: its pages × browsers, page-major. */
  function Block(d: Dispatcher, e: OsEntry): (r: seq<Send>)
    requires e.os in d.sockets
    ensures |r| == |Enumerate(d.config.pages, e.browsers)|
    ensures forall j | 0 <= j < |r| :: r[j] == SendOf(d, e.os, Enumerate(d.config.pages, e.browsers)[j])
  {
    var items := Enumerate(d.config.pages, e.browsers);
    seq(|items|, j requires 0 <= j < |items| => SendOf(d, e.os, items[j]))
  }

  /** `_scatter` over the entries `systems`, in order. */
  function ScatterFrom(d: Dispatcher, systems: seq<OsEntry>): seq<Send>
    requires forall k | 0 <= k < |systems| :: systems[k].os in d.sockets
  {
    if |systems| == 0 then []
    else Block(d, systems[0]) + ScatterFrom(d, systems[1..])
  }

  /** Everything `_scatter` pushes, in push order. */
  function Scatter(d: Dispatcher): seq<Send>
    requires HasSockets(d)
  {
    ScatterFrom(d, d.config.systems)
  }

  /** Σ |browsers(os)| over `systems`. */
  function TotalBrowsers(systems: seq<OsEntry>): nat {
    if |systems| == 0 then 0 else |systems[0].browsers| + TotalBrowsers(systems[1..])
  }

  lemma {:induction false} TotalAppend(a: seq<OsEntry>, b: seq<OsEntry>)
    ensures TotalBrowsers(a + b) == TotalBrowsers(a) + TotalBrowsers(b)
    decreases |a|
  {
    if |a| > 0 {
      assert (a + b)[1..] == a[1..] + b;
      TotalAppend(a[1..], b);
    } else {
      assert a + b == b;
    }
  }

  /** The number of pushes is |pages| · Σ |browsers(os)|. */
  lemma {:induction false} ScatterFromLength(d: Dispatcher, systems: seq<OsEntry>)
    requires forall k | 0 <= k < |systems| :: systems[k].os in d.sockets
    ensures |ScatterFrom(d, systems)| == |d.config.pages| * TotalBrowsers(systems)
    decreases |systems|
  {
    if |systems| > 0 {
      ScatterFromLength(d, systems[1..]);
      EnumerateLength(d.config.pages, systems[0].browsers);
      MulAdd(|d.config.pages|, |systems[0].browsers|, TotalBrowsers(systems[1..]));
    }
  }

  lemma MulAdd(p: nat, a: nat, b: nat)
    ensures p * a + p * b == p * (a + b)
  {
  }

  /** Where the pushes for entry `i` start: after the blocks of the entries before it. */
  function Offset(pages: seq<string>, systems: seq<OsEntry>, i: nat): nat
    requires i <= |systems|
  {
    |pages| * TotalBrowsers(systems[..i])
  }

  lemma {:induction false} ScatterAppend(d: Dispatcher, a: seq<OsEntry>, b: seq<OsEntry>)
    requires forall k | 0 <= k < |a| :: a[k].os in d.sockets
    requires forall k | 0 <= k < |b| :: b[k].os in d.sockets
    ensures ScatterFrom(d, a + b) == ScatterFrom(d, a) + ScatterFrom(d, b)
    decreases |a|
  {
    if |a| > 0 {
      assert (a + b)[0] == a[0] && (a + b)[1..] == a[1..] + b;
      ScatterAppend(d, a[1..], b);
    } else {
      assert a + b == b;
    }
  }

  /** The pushes for entry `i` follow those of every earlier entry. */
  lemma ScatterBlockAt(d: Dispatcher, systems: seq<OsEntry>, i: nat, j: nat)
    requires forall k | 0 <= k < |systems| :: systems[k].os in d.sockets
    requires i < |systems| && j < |Enumerate(d.config.pages, systems[i].browsers)|
    ensures |ScatterFrom(d, systems[..i])| + j < |ScatterFrom(d, systems)|
    ensures ScatterFrom(d, systems)[|ScatterFrom(d, systems[..i])| + j]
      == SendOf(d, systems[i].os, Enumerate(d.config.pages, systems[i].browsers)[j])
  {
    var before, after := systems[..i], systems[i + 1..];
    assert systems == before + ([systems[i]] + after);
    ScatterAppend(d, [systems[i]], after);
    ScatterAppend(d, before, [systems[i]] + after);
    assert ScatterFrom(d, [systems[i]]) == Block(d, systems[i]) by {
      assert [systems[i]][1..] == [];
    }
    var p, q := ScatterFrom(d, before), Block(d, systems[i]) + ScatterFrom(d, after);
    assert (p + q)[|p| + j] == q[j];
  }

  /** Push number Offset(i) + j is the j-th page-major, browser-minor item of entry
      `i`, sent on that entry's own socket: OS-major, then page, then browser. */
  lemma ScatterAt(d: Dispatcher, systems: seq<OsEntry>, i: nat, j: nat)
    requires forall k | 0 <= k < |systems| :: systems[k].os in d.sockets
    requires i < |systems| && j < |d.config.pages| * |systems[i].browsers|
    ensures Offset(d.config.pages, systems, i) + j < |ScatterFrom(d, systems)|
    ensures ScatterFrom(d, systems)[Offset(d.config.pages, systems, i) + j]
      == SendOf(d, systems[i].os, ItemAt(d.config.pages, systems[i].browsers, j))
  {
    EnumerateAt(d.config.pages, systems[i].browsers, j);
    ScatterFromLength(d, systems[..i]);
    ScatterBlockAt(d, systems, i, j);
  }

  /** `s` goes out on the socket bound for its own OS, carries the run description,
      and pairs a browser listed for that OS. */
  predicate OnOwnSocket(d: Dispatcher, systems: seq<OsEntry>, s: Send) {
    && s.os in d.sockets && s.port == d.sockets[s.os]
    && s.message.args == d.args && s.message.config == d.config
    && exists k :: 0 <= k < |systems| && systems[k].os == s.os && s.message.browser in systems[k].browsers
  }

  /** Every push goes out on the socket bound for its own OS. */
  lemma {:induction false} ScatterOnOwnSocket(d: Dispatcher, systems: seq<OsEntry>)
    requires forall k | 0 <= k < |systems| :: systems[k].os in d.sockets
    ensures forall n | 0 <= n < |ScatterFrom(d, systems)| :: OnOwnSocket(d, systems, ScatterFrom(d, systems)[n])
    decreases |systems|
  {
    if |systems| > 0 {
      ScatterOnOwnSocket(d, systems[1..]);
      var head := Block(d, systems[0]);
      var rest := ScatterFrom(d, systems[1..]);
      forall n | 0 <= n < |head + rest|
        ensures OnOwnSocket(d, systems, (head + rest)[n])
      {
        if n < |head| {
          EnumerateMembers(d.config.pages, systems[0].browsers, n);
          assert systems[0].os == head[n].os;
        } else {
          var s := rest[n - |head|];
          assert OnOwnSocket(d, systems[1..], s);
          var k :| 0 <= k < |systems[1..]| && systems[1..][k].os == s.os && s.message.browser in systems[1..][k].browsers;
          assert systems[k + 1] == systems[1..][k];
        }
      }
    }
  }

  /** Every item of the enumeration pairs a listed page with a listed browser. */
  lemma {:induction false} EnumerateMembers(pages: seq<string>, browsers: seq<Browser>, n: nat)
    requires n < |Enumerate(pages, browsers)|
    ensures Enumerate(pages, browsers)[n].page in pages
    ensures Enumerate(pages, browsers)[n].browser in browsers
    decreases |pages|
  {
    var head := PageItems(pages[0], browsers);
    var rest := Enumerate(pages[1..], browsers);
    assert Enumerate(pages, browsers) == head + rest;
    if n >= |head| {
      EnumerateMembers(pages[1..], browsers, n - |head|);
      assert (head + rest)[n] == rest[n - |head|];
    }
  }

  /** The number of successful attempts among the first `a` outcomes. */
  function Successes(outcomes: seq<bool>, a: nat): (n: nat)
    requires a <= |outcomes|
    ensures n <= a
  {
    if a == 0 then 0 else Successes(outcomes, a - 1) + (if outcomes[a - 1] then 1 else 0)
  }

  /** The retry loop of `_scatter`: `outcomes[a]` says whether attempt `a` went
      through (false is zmq's Again on the send timeout). Each attempt sends the
      first push not yet delivered, so a timed-out push is retried unchanged and the
      loop moves on only after a success. It stops when every push is delivered or
      the given outcomes run out. */
  method Transmit(sends: seq<Send>, outcomes: seq<bool>) returns (attempts: seq<Send>, delivered: nat)
    ensures |attempts| <= |outcomes| && delivered <= |sends|
    ensures delivered == |sends| || |attempts| == |outcomes|
    ensures delivered == Successes(outcomes, |attempts|)
    ensures forall a | 0 <= a < |attempts| :: Successes(outcomes, a) < |sends| && attempts[a] == sends[Successes(outcomes, a)]
    ensures forall a | 0 <= a < |attempts| - 1 :: !outcomes[a] ==> attempts[a + 1] == attempts[a]
  {
    attempts := [];
    delivered := 0;
    var i := 0;
    while delivered < |sends| && i < |outcomes|
      invariant i == |attempts| <= |outcomes|
      invariant delivered == Successes(outcomes, i) <= |sends|
      invariant Retried(sends, outcomes, attempts)
    {
      AttemptStep(sends, outcomes, attempts);
      attempts := attempts + [sends[delivered]];
      if outcomes[i] {
        delivered := delivered + 1;
      }
      i := i + 1;
    }
  }

  /** Attempt a sent the push after the first Successes(outcomes, a) delivered ones,
      so a timed-out push is sent again by the next attempt. */
  predicate Retried(sends: seq<Send>, outcomes: seq<bool>, attempts: seq<Send>)
    requires |attempts| <= |outcomes|
  {
    && (forall a | 0 <= a < |attempts| :: Successes(outcomes, a) < |sends| && attempts[a] == sends[Successes(outcomes, a)])
    && (forall a | 0 <= a < |attempts| - 1 :: !outcomes[a] ==> attempts[a + 1] == attempts[a])
  }

  /** One more attempt of the retry loop keeps its invariant. */
  lemma AttemptStep(sends: seq<Send>, outcomes: seq<bool>, attempts: seq<Send>)
    requires |attempts| < |outcomes| && Successes(outcomes, |attempts|) < |sends|
    requires Retried(sends, outcomes, attempts)
    ensures Retried(sends, outcomes, attempts + [sends[Successes(outcomes, |attempts|)]])
  {
    var next := attempts + [sends[Successes(outcomes, |attempts|)]];
    forall a | 0 <= a < |next|
      ensures Successes(outcomes, a) < |sends| && next[a] == sends[Successes(outcomes, a)]
    {
      if a < |attempts| {
        assert next[a] == attempts[a];
      } else {
        assert a == |attempts| && next[a] == sends[Successes(outcomes, |attempts|)];
      }
    }
    forall a | 0 <= a < |next| - 1
      ensures !outcomes[a] ==> next[a + 1] == next[a]
    {
      var n := |attempts|;
      if a < n - 1 {
        assert next[a] == attempts[a] && next[a + 1] == attempts[a + 1];
      } else {
        assert next[n - 1] == attempts[n - 1] == sends[Successes(outcomes, n - 1)];
        assert !outcomes[n - 1] ==> Successes(outcomes, n) == Successes(outcomes, n - 1);
      }
    }
  }

  /** `_gather`: count the expected results, then take exactly that many from the
      incoming stream, each once, in arrival order. None when the stream has fewer:
      the real loop would still be waiting for one. */
  method Gather<T>(config: Config, incoming: seq<T>) returns (r: Option<seq<T>>)
    ensures r.Some? <==> |incoming| >= |config.pages| * TotalBrowsers(config.systems)
    ensures r.Some? ==> r.value == incoming[..|config.pages| * TotalBrowsers(config.systems)]
  {
    var browsers := 0;
    var k := 0;
    while k < |config.systems|
      invariant k <= |config.systems|
      invariant browsers == TotalBrowsers(config.systems[..k])
    {
      TotalAppend(config.systems[..k], [config.systems[k]]);
      assert config.systems[..k + 1] == config.systems[..k] + [config.systems[k]];
      assert TotalBrowsers([config.systems[k]]) == |config.systems[k].browsers| by {
        assert [config.systems[k]][1..] == [];
      }
      browsers := browsers + |config.systems[k].browsers|;
      k := k + 1;
    }
    assert config.systems[..k] == config.systems;
    var nmsg := |config.pages| * browsers;
    var received: seq<T> := [];
    var nrcv := 0;
    while nrcv != nmsg && nrcv < |incoming|
      invariant nrcv <= nmsg && nrcv <= |incoming|
      invariant received == incoming[..nrcv]
    {
      received := received + [incoming[nrcv]];
      nrcv := nrcv + 1;
    }
    if nrcv == nmsg {
      r := Some(received);
    } else {
      r := None;
    }
  }

  /** Gather waits for exactly as many results as scatter pushes. */
  lemma GatherCountsScatter(d: Dispatcher)
    requires HasSockets(d)
    ensures |Scatter(d)| == |d.config.pages| * TotalBrowsers(d.config.systems)
  {
    ScatterFromLength(d, d.config.systems);
  }
}
