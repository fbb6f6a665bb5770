/** The request/reply work server (server.py).

    The server answers one request at a time on a REP socket, so once the socket is
    abstracted it is a state machine stepped by requests. Its state is one generator
    per OS class, created for Darwin, Linux and Windows; a generator is modelled by
    the number of items it has yielded so far (its cursor). */
module Server {
  import opened Results
  import opened Config

  /** The OS classes that get a generator at start-up. */
  datatype Os = Darwin | Linux | Windows

  function OsName(os: Os): string {
    match os
    case Darwin => "Darwin"
    case Linux => "Linux"
    case Windows => "Windows"
  }

  /** The generator dictionary's key lookup: which OS class, if any, `name` names. */
  function ParseOs(name: string): (r: Option<Os>)
    ensures r.Some? ==> OsName(r.value) == name
    ensures r.None? ==> forall os: Os :: OsName(os) != name
  {
    if name == "Darwin" then Some(Darwin)
    else if name == "Linux" then Some(Linux)
    else if name == "Windows" then Some(Windows)
    else None
  }

  lemma ParseOsName(os: Os)
    ensures ParseOs(OsName(os)) == Some(os)
  {
  }

  /** A request: a (header, payload) pair; the payload of "pull" is an OS name. */
  datatype Request = Request(header: string, payload: string)

  datatype Payload =
    | NoPayload
    | Configuration(args: RunArgs, config: Config)
    | Work(page: string, browser: Browser)

  /** A reply: a (header, payload) pair, as `_send` pickles it. */
  datatype Reply = Reply(header: string, payload: Payload)

  const EndReply := Reply("end", NoPayload)

  function PageReply(item: Item): Reply {
    Reply("page", Work(item.page, item.browser))
  }

  /** How many items each OS class's generator has yielded. */
  datatype Cursors = Cursors(darwin: nat, linux: nat, windows: nat) {
    function Get(os: Os): nat {
      match os
      case Darwin => darwin
      case Linux => linux
      case Windows => windows
    }

    function Advance(os: Os): (c: Cursors)
      ensures c.Get(os) == Get(os) + 1
      ensures forall other: Os | other != os :: c.Get(other) == Get(other)
    {
      match os
      case Darwin => this.(darwin := darwin + 1)
      case Linux => this.(linux := linux + 1)
      case Windows => this.(windows := windows + 1)
    }
  }

  datatype Server = Server(args: RunArgs, config: Config, cursors: Cursors)

  /** The server right after construction: every generator fresh. */
  function Start(args: RunArgs, config: Config): (s: Server)
    ensures forall os: Os :: s.cursors.Get(os) == 0
  {
    Server(args, config, Cursors(0, 0, 0))
  }

  /** The items the generator for `os` yields, in order, or the KeyError its first
      step raises when `os` is missing from the configuration (the browser list is
      looked up only once there is a page to pair it with). */
  function Items(config: Config, os: string): Result<seq<Item>> {
    if |config.pages| == 0 then Ok([])
    else
      var browsers :- BrowsersOf(config, os);
      Ok(Enumerate(config.pages, browsers))
  }

  /** One `next()` on the generator for `os` after it has yielded `cursor`
      items: the next item, None for StopIteration, or the error it raises. */
  function Next(config: Config, os: string, cursor: nat): (r: Result<Option<Item>>)
    ensures r.Fail? <==> Items(config, os).Fail?
    ensures r.Fail? ==> r.error == KeyError(os)
    ensures r.Ok? ==> (r.value.Some? <==> cursor < |Items(config, os).value|)
    ensures r.Ok? && r.value.Some? ==> r.value.value == Items(config, os).value[cursor]
  {
    var items :- Items(config, os);
    if cursor < |items| then Ok(Some(items[cursor])) else Ok(None)
  }

  /** `pull`: advance the generator named by `payload`, or answer "end" once it is
      exhausted. A name that is not a generator key raises KeyError. */
  function Pull(s: Server, payload: string): (r: Result<(Server, Reply)>)
    ensures ParseOs(payload).None? ==> r == Fail(KeyError(payload))
    ensures r.Fail? ==> r.error == KeyError(payload)
    ensures r.Ok? ==> r.value.0.args == s.args && r.value.0.config == s.config
    // an exhausted generator stays exhausted: "end" changes nothing
    ensures r.Ok? && r.value.1.header == "end" ==> r.value == (s, EndReply)
    ensures r.Ok? && r.value.1.header != "end" ==>
      && r.value.1.header == "page"
      && r.value.0.cursors == s.cursors.Advance(ParseOs(payload).value)
  {
    match ParseOs(payload)
    case None => Fail(KeyError(payload))
    case Some(os) =>
      var item :- Next(s.config, payload, s.cursors.Get(os));
      match item
      case Some(it) => Ok((s.(cursors := s.cursors.Advance(os)), PageReply(it)))
      case None => Ok((s, EndReply))
  }

  /** Pulling for one OS class never moves another OS class's generator. */
  lemma PullIsolated(s: Server, payload: string, other: Os)
    requires Pull(s, payload).Ok? && OsName(other) != payload
    ensures Pull(s, payload).value.0.cursors.Get(other) == s.cursors.Get(other)
  {
  }

  /** The generators are lazy: the browser list of an OS class the configuration
      omits is looked up only when there is a page to pair it with. So a pull for it
      raises KeyError when there are pages and is answered "end" when there are none. */
  lemma UnconfiguredOs(s: Server, os: Os)
    requires BrowsersOf(s.config, OsName(os)).Fail?
    ensures |s.config.pages| > 0 ==> Pull(s, OsName(os)) == Fail(KeyError(OsName(os)))
    ensures |s.config.pages| == 0 ==> Pull(s, OsName(os)) == Ok((s, EndReply))
  {
    ParseOsName(os);
  }

  /** One iteration of `run`: dispatch on the header. Anything other than
      "get_configuration" must be "pull", or the `assert` fails. */
  function Handle(s: Server, request: Request): (r: Result<(Server, Reply)>)
    ensures request.header == "get_configuration" ==>
      r == Ok((s, Reply("config", Configuration(s.args, s.config))))
    ensures request.header != "get_configuration" && request.header != "pull" ==>
      r == Fail(AssertionError)
    ensures r.Ok? ==> r.value.1.header in {"config", "page", "end"}
    ensures r.Ok? ==> (r.value.1.payload == NoPayload <==> r.value.1.header == "end")
  {
    if request.header == "get_configuration" then
      Ok((s, Reply("config", Configuration(s.args, s.config))))
    else if request.header != "pull" then
      Fail(AssertionError)
    else
      Pull(s, request.payload)
  }

  /** What `run` does with a stream of requests: the replies it sends, the state
      it reaches, and the exception that ends it, if one does. */
  datatype Transcript = Transcript(replies: seq<Reply>, last: Server, error: Option<Error>)

  function Serve(s: Server, requests: seq<Request>): (t: Transcript)
    ensures |t.replies| <= |requests|
    ensures t.error.None? ==> |t.replies| == |requests|
    ensures t.error.Some? ==> |t.replies| < |requests|
    decreases |requests|
  {
    if |requests| == 0 then Transcript([], s, None)
    else
      match Handle(s, requests[0])
      case Fail(e) => Transcript([], s, Some(e))
      case Ok((s', reply)) =>
        var t := Serve(s', requests[1..]);
        t.(replies := [reply] + t.replies)
  }

  /** The state `run` is in before request `k`: each earlier request handled from
      the state the one before it left, None once one of them has raised. */
  function Before(s: Server, requests: seq<Request>, k: nat): Option<Server>
    requires k <= |requests|
    decreases k
  {
    if k == 0 then Some(s)
    else
      match Before(s, requests, k - 1)
      case None => None
      case Some(p) =>
        match Handle(p, requests[k - 1])
        case Fail(_) => None
        case Ok((p', _)) => Some(p')
  }

  /** After a first request that succeeds, the states before the later requests are
      those of the rest of the stream from the state it leaves. */
  lemma {:induction false} BeforeTail(s: Server, requests: seq<Request>, k: nat)
    requires k < |requests| && Handle(s, requests[0]).Ok?
    ensures Before(s, requests, k + 1) == Before(Handle(s, requests[0]).value.0, requests[1..], k)
    decreases k
  {
    if k > 0 {
      BeforeTail(s, requests, k - 1);
      assert requests[k] == requests[1..][k - 1];
    }
  }

  /** `run` answers each request in turn from the state the previous requests left,
      and ends at the first request whose handling raises, with that exception. */
  lemma {:induction false} ServeStopsAtError(s: Server, requests: seq<Request>)
    ensures Before(s, requests, |Serve(s, requests).replies|) == Some(Serve(s, requests).last)
    ensures forall k | 0 <= k < |Serve(s, requests).replies| ::
      && Before(s, requests, k).Some?
      && Handle(Before(s, requests, k).value, requests[k]).Ok?
      && Handle(Before(s, requests, k).value, requests[k]).value.1 == Serve(s, requests).replies[k]
    ensures var t := Serve(s, requests);
      t.error.Some? ==> Handle(t.last, requests[|t.replies|]) == Fail(t.error.value)
    decreases |requests|
  {
    if |requests| > 0 && Handle(s, requests[0]).Ok? {
      var (s', reply) := Handle(s, requests[0]).value;
      var rest := requests[1..];
      ServeStopsAtError(s', rest);
      var t := Serve(s', rest);
      assert Serve(s, requests).replies == [reply] + t.replies;
      assert t.error.Some? ==> rest[|t.replies|] == requests[|t.replies| + 1];
      BeforeTail(s, requests, |t.replies|);
      forall k | 0 <= k < |Serve(s, requests).replies|
        ensures && Before(s, requests, k).Some?
                && Handle(Before(s, requests, k).value, requests[k]).Ok?
                && Handle(Before(s, requests, k).value, requests[k]).value.1 == Serve(s, requests).replies[k]
      {
        if k > 0 {
          BeforeTail(s, requests, k - 1);
          assert requests[k] == rest[k - 1];
        }
      }
    }
  }

  lemma ServeStep(s: Server, request: Request, rest: seq<Request>)
    requires Handle(s, request).Ok?
    ensures var t := Serve(Handle(s, request).value.0, rest);
      && Serve(s, [request] + rest).error == t.error
      && Serve(s, [request] + rest).replies == [Handle(s, request).value.1] + t.replies
  {
    assert ([request] + rest)[0] == request && ([request] + rest)[1..] == rest;
  }

  function Pulls(os: Os, n: nat): (r: seq<Request>)
    ensures |r| == n && forall j | 0 <= j < n :: r[j] == Request("pull", OsName(os))
  {
    seq(n, _ => Request("pull", OsName(os)))
  }

  /** The reply to the pull that finds `k` of `items` already yielded. */
  function ExpectedReply(items: seq<Item>, k: nat): Reply {
    if k < |items| then PageReply(items[k]) else EndReply
  }

  /** One pull for `os` answers the reply its cursor position calls for, and moves
      the cursor exactly when that reply is a "page". */
  lemma PullAnswersExpected(s: Server, os: Os, items: seq<Item>)
    requires Items(s.config, OsName(os)) == Ok(items)
    ensures Handle(s, Request("pull", OsName(os))).Ok?
    ensures var (s', reply) := Handle(s, Request("pull", OsName(os))).value;
      && reply == ExpectedReply(items, s.cursors.Get(os))
      && (reply == EndReply ==> s' == s)
      && (reply != EndReply ==> s'.cursors.Get(os) == s.cursors.Get(os) + 1)
  {
    ParseOsName(os);
  }

  /** The replies m pulls should get from a cursor at `c`: position c + j of the
      enumeration for pull j, and "end" past its last item. */
  function Expected(items: seq<Item>, c: nat, m: nat): (r: seq<Reply>)
    ensures |r| == m && forall j | 0 <= j < m :: r[j] == ExpectedReply(items, c + j)
  {
    seq(m, j requires 0 <= j < m => ExpectedReply(items, c + j))
  }

  /** m pulls for one OS class answer the next m positions of the page-major,
      browser-minor enumeration, then "end" for every pull after the last item. */
  lemma {:induction false} PullsFollowEnumeration(s: Server, os: Os, items: seq<Item>, m: nat)
    requires Items(s.config, OsName(os)) == Ok(items)
    ensures Serve(s, Pulls(os, m)).error.None?
    ensures Serve(s, Pulls(os, m)).replies == Expected(items, s.cursors.Get(os), m)
    decreases m
  {
    if m > 0 {
      var c := s.cursors.Get(os);
      var s', reply := PullStep(s, os, items, m);
      PullsFollowEnumeration(s', os, items, m - 1);
      ExpectedCons(items, c, s'.cursors.Get(os), reply, m);
    }
  }

  /** The first of m pulls, and the state the other m - 1 start from. */
  lemma PullStep(s: Server, os: Os, items: seq<Item>, m: nat) returns (s': Server, reply: Reply)
    requires Items(s.config, OsName(os)) == Ok(items) && m > 0
    ensures Items(s'.config, OsName(os)) == Ok(items)
    ensures reply == ExpectedReply(items, s.cursors.Get(os))
    ensures reply == EndReply ==> s'.cursors.Get(os) == s.cursors.Get(os)
    ensures reply != EndReply ==> s'.cursors.Get(os) == s.cursors.Get(os) + 1
    ensures Serve(s, Pulls(os, m)).error == Serve(s', Pulls(os, m - 1)).error
    ensures Serve(s, Pulls(os, m)).replies == [reply] + Serve(s', Pulls(os, m - 1)).replies
  {
    var request := Request("pull", OsName(os));
    PullAnswersExpected(s, os, items);
    s', reply := Handle(s, request).value.0, Handle(s, request).value.1;
    assert Pulls(os, m) == [request] + Pulls(os, m - 1);
    ServeStep(s, request, Pulls(os, m - 1));
  }

  /** The expected replies after one pull, given where that pull leaves the cursor. */
  lemma ExpectedCons(items: seq<Item>, c: nat, c': nat, reply: Reply, m: nat)
    requires m > 0
    requires reply == ExpectedReply(items, c)
    requires reply == EndReply ==> c' == c
    requires reply != EndReply ==> c' == c + 1
    ensures Expected(items, c, m) == [reply] + Expected(items, c', m - 1)
  {
    var later := Expected(items, c', m - 1);
    forall j | 0 <= j < m
      ensures ([reply] + later)[j] == ExpectedReply(items, c + j)
    {
      if j == 0 {
        assert ([reply] + later)[j] == reply && c + j == c;
      } else {
        assert ([reply] + later)[j] == later[j - 1];
        assert reply != EndReply ==> c' + (j - 1) == c + j;
      }
    }
  }

  /** `replies` answers one "page" per item, in order, then `extra` times "end". */
  predicate InOrderThenEnd(replies: seq<Reply>, items: seq<Item>, extra: nat) {
    && |replies| == |items| + extra
    && (forall j | 0 <= j < |items| :: replies[j] == PageReply(items[j]))
    && (forall j | |items| <= j < |items| + extra :: replies[j] == EndReply)
  }

  /** From start-up, the first |items| pulls for `os` are answered with the items of
      the page-major, browser-minor enumeration in order (`Config.EnumerateAt` gives
      the j-th as (pages[j / |browsers|], browsers[j % |browsers|]), and
      `Config.EnumerateLength` counts |pages|·|browsers| of them), and every later
      pull is answered "end". */
  lemma DrainInOrder(args: RunArgs, config: Config, os: Os, browsers: seq<Browser>, extra: nat)
    requires BrowsersOf(config, OsName(os)) == Ok(browsers)
    ensures Serve(Start(args, config), Pulls(os, |Enumerate(config.pages, browsers)| + extra)).error.None?
    ensures InOrderThenEnd(Serve(Start(args, config), Pulls(os, |Enumerate(config.pages, browsers)| + extra)).replies,
                           Enumerate(config.pages, browsers), extra)
  {
    StartItems(args, config, os, browsers);
    DrainStart(args, config, os, browsers, extra);
  }

  /** The started server's generator for `os` drains the enumeration. */
  lemma DrainStart(args: RunArgs, config: Config, os: Os, browsers: seq<Browser>, extra: nat)
    requires Items(Start(args, config).config, OsName(os)) == Ok(Enumerate(config.pages, browsers))
    ensures Serve(Start(args, config), Pulls(os, |Enumerate(config.pages, browsers)| + extra)).error.None?
    ensures InOrderThenEnd(Serve(Start(args, config), Pulls(os, |Enumerate(config.pages, browsers)| + extra)).replies,
                           Enumerate(config.pages, browsers), extra)
  {
    Drain(Start(args, config), os, Enumerate(config.pages, browsers), extra);
  }

  lemma StartItems(args: RunArgs, config: Config, os: Os, browsers: seq<Browser>)
    requires BrowsersOf(config, OsName(os)) == Ok(browsers)
    ensures Items(Start(args, config).config, OsName(os)) == Ok(Enumerate(config.pages, browsers))
    ensures Start(args, config).cursors.Get(os) == 0
  {
    assert |config.pages| == 0 ==> Enumerate(config.pages, browsers) == [];
  }

  /** A fresh generator answers its items in order, then "end". */
  lemma Drain(s: Server, os: Os, items: seq<Item>, extra: nat)
    requires Items(s.config, OsName(os)) == Ok(items) && s.cursors.Get(os) == 0
    ensures Serve(s, Pulls(os, |items| + extra)).error.None?
    ensures InOrderThenEnd(Serve(s, Pulls(os, |items| + extra)).replies, items, extra)
  {
    PullsFollowEnumeration(s, os, items, |items| + extra);
    ExpectedFromStart(items, extra);
  }

  lemma ExpectedFromStart(items: seq<Item>, extra: nat)
    ensures InOrderThenEnd(Expected(items, 0, |items| + extra), items, extra)
  {
  }

  /** Once a pull for `os` has been answered "end", every later pull for it is too. */
  lemma {:induction false} EndIsSticky(s: Server, os: Os, m: nat)
    requires Pull(s, OsName(os)) == Ok((s, EndReply))
    ensures var t := Serve(s, Pulls(os, m));
      t.error.None? && forall j | 0 <= j < m :: t.replies[j] == EndReply
    decreases m
  {
    if m > 0 {
      assert Pulls(os, m)[1..] == Pulls(os, m - 1);
      EndIsSticky(s, os, m - 1);
    }
  }
}
