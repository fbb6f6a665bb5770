/** The run configuration loaded from the JSON configuration file, and the
    (page, browser) work items it describes.

    The file is a JSON object with a "Pages" list and an "OS" object that maps an
    operating-system name to its list of browser descriptors. The "OS" object keeps
    the order of its keys, so it is modelled as a sequence of entries. */
module Config {
  import opened Results

  /** A browser descriptor from the configuration ({"name": …, "path": …}). */
  datatype Browser = Browser(name: string, path: string)

  datatype OsEntry = OsEntry(os: string, browsers: seq<Browser>)

  datatype Config = Config(pages: seq<string>, systems: seq<OsEntry>)

  /** The command-line arguments of the run, passed through to workers unread. */
  datatype RunArgs = RunArgs(options: map<string, string>)

  /** One unit of work: measure `page` in `browser`. */
  datatype Item = Item(page: string, browser: Browser)

  /** `config["OS"][os]`: the browsers listed for `os`, or KeyError. */
  function BrowsersOf(config: Config, os: string): (r: Result<seq<Browser>>)
    ensures r.Fail? ==> r.error == KeyError(os)
    decreases |config.systems|
  {
    if |config.systems| == 0 then Fail(KeyError(os))
    else if config.systems[0].os == os then Ok(config.systems[0].browsers)
    else BrowsersOf(config.(systems := config.systems[1..]), os)
  }

  /** The lookup finds the first entry named `os`, and fails only when none is. */
  lemma {:induction false} BrowsersOfFindsFirst(config: Config, os: string)
    ensures BrowsersOf(config, os).Ok? <==> exists k :: 0 <= k < |config.systems| && config.systems[k].os == os
    ensures BrowsersOf(config, os).Ok? ==>
      exists k :: && 0 <= k < |config.systems|
                  && config.systems[k] == OsEntry(os, BrowsersOf(config, os).value)
                  && forall i | 0 <= i < k :: config.systems[i].os != os
    decreases |config.systems|
  {
    if |config.systems| > 0 && config.systems[0].os != os {
      var rest := config.(systems := config.systems[1..]);
      BrowsersOfFindsFirst(rest, os);
      assert forall k | 1 <= k < |config.systems| :: config.systems[k] == rest.systems[k - 1];
      if BrowsersOf(config, os).Ok? {
        var k :| 0 <= k < |rest.systems| && rest.systems[k] == OsEntry(os, BrowsersOf(config, os).value)
          && forall i | 0 <= i < k :: rest.systems[i].os != os;
        assert config.systems[k + 1] == rest.systems[k];
        assert forall i | 1 <= i < k + 1 :: config.systems[i] == rest.systems[i - 1];
      }
    } else if |config.systems| > 0 {
      assert config.systems[0] == OsEntry(os, BrowsersOf(config, os).value);
    }
  }

  /** A decoded JSON object has distinct keys: no two entries name the same
      operating system. */
  predicate Valid(config: Config) {
    forall i, j | 0 <= i < j < |config.systems| :: config.systems[i].os != config.systems[j].os
  }

  /** In a decoded configuration the lookup returns the browsers of the one entry
      that names `os`. */
  lemma BrowsersOfEntry(config: Config, k: nat)
    requires Valid(config) && k < |config.systems|
    ensures BrowsersOf(config, config.systems[k].os) == Ok(config.systems[k].browsers)
  {
    var os := config.systems[k].os;
    BrowsersOfFindsFirst(config, os);
    var j :| && 0 <= j < |config.systems|
             && config.systems[j] == OsEntry(os, BrowsersOf(config, os).value)
             && forall i | 0 <= i < j :: config.systems[i].os != os;
    assert j == k;
  }

  /** The items of one page, in browser order. */
  function PageItems(page: string, browsers: seq<Browser>): (r: seq<Item>)
    ensures |r| == |browsers|
    ensures forall j | 0 <= j < |r| :: r[j] == Item(page, browsers[j])
  {
    seq(|browsers|, j requires 0 <= j < |browsers| => Item(page, browsers[j]))
  }

  /** `for page in pages: for browser in browsers: yield page, browser` — the
      reference enumeration every distributor of work follows. */
  function Enumerate(pages: seq<string>, browsers: seq<Browser>): seq<Item>
  {
    if |pages| == 0 then [] else PageItems(pages[0], browsers) + Enumerate(pages[1..], browsers)
  }

  /** The item at flat position `k` of the enumeration: page-major, browser-minor. */
  function ItemAt(pages: seq<string>, browsers: seq<Browser>, k: nat): Item
    requires k < |pages| * |browsers|
  {
    DivBound(k, |pages|, |browsers|);
    Item(pages[k / |browsers|], browsers[k % |browsers|])
  }

  lemma DivBound(k: nat, p: nat, b: nat)
    requires k < p * b
    ensures b > 0 && k / b < p
  {
    MulMono(0, p, b);
    if b > 0 {
      var q := k / b;
      assert q * b <= k;
      MulMono(p, q, b);
    }
  }

  /** The enumeration has |pages|·|browsers| items. */
  lemma {:induction false} EnumerateLength(pages: seq<string>, browsers: seq<Browser>)
    ensures |Enumerate(pages, browsers)| == |pages| * |browsers|
    decreases |pages|
  {
    if |pages| > 0 {
      EnumerateLength(pages[1..], browsers);
      MulSucc(|pages| - 1, |browsers|);
    }
  }

  /** The k-th item of the enumeration is the one the page-major, browser-minor
      formula picks. */
  lemma {:induction false} EnumerateAt(pages: seq<string>, browsers: seq<Browser>, k: nat)
    requires k < |pages| * |browsers|
    ensures |Enumerate(pages, browsers)| == |pages| * |browsers|
    ensures Enumerate(pages, browsers)[k] == ItemAt(pages, browsers, k)
    decreases |pages|
  {
    EnumerateLength(pages, browsers);
    DivBound(k, |pages|, |browsers|);
    var b := |browsers|;
    var head := PageItems(pages[0], browsers);
    var rest := Enumerate(pages[1..], browsers);
    assert Enumerate(pages, browsers) == head + rest;
    if k < b {
      UniqueDivMod(k, b, 0, k);
    } else {
      MulSucc(|pages| - 1, b);
      assert k - b < |pages[1..]| * b;
      EnumerateAt(pages[1..], browsers, k - b);
      ShiftDivMod(k, b);
      assert (head + rest)[k] == rest[k - b];
    }
  }

  lemma ShiftDivMod(k: nat, b: nat)
    requires 0 < b <= k
    ensures (k - b) / b == k / b - 1 && (k - b) % b == k % b
  {
    var q := k / b;
    MulSucc(q - 1, b);
    assert k - b == (q - 1) * b + k % b;
    UniqueDivMod(k - b, b, q - 1, k % b);
  }

  lemma MulMono(a: int, c: int, b: nat)
    ensures a <= c ==> a * b <= c * b
  {
    if a <= c {
      assert c * b - a * b == (c - a) * b;
    }
  }

  lemma MulSucc(a: int, b: int)
    ensures (a + 1) * b == a * b + b
  {
  }

  lemma UniqueDivMod(a: int, b: int, q: int, r: int)
    requires 0 < b && 0 <= r < b && a == q * b + r
    ensures a / b == q && a % b == r
  {
    var q', r' := a / b, a % b;
    assert a == q' * b + r';
    assert (q - q') * b == r' - r by {
      assert (q - q') * b == q * b - q' * b;
    }
    MulMono(1, q - q', b);
    MulMono(1, q' - q, b);
    assert (q' - q) * b == -((q - q') * b);
  }
}
