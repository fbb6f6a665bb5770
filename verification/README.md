# Energia power benchmarking — a Dafny model

Energia measures how much power web browsers draw while they load a list of pages.

**Distributing the work.** A work server (`server.py`) holds one generator of (page, browser) items per OS class. Each item is one unit of work: measure one page in one browser. The server answers "pull" requests from workers until its generators run dry. A push/pull dispatcher (`dispatcher.py`) is the alternative: it scatters the same work over one socket per OS and gathers the results.

**Reading the measurements.** Each measurement goes through a wrapper around a measurement tool. The wrapper launches the tool and parses the log it leaves:

- Intel Power Gadget: the stand-alone `power_logger.py`, plus the wrapper and benchmark copies of `PowerGadget._parse`;
- IPPET (`wrappers/IPPET.py`);
- the Battery Life Analyzer (`wrappers/BLA.py`, `windows/power_summary.py`);
- turbostat (`linux/power_summary.py`).

**Viewing the results.** The report viewer (`viewer/js/app.js`) filters the result table, groups it and sorts it for plotting. A chart row holds each row's cell and the two ends of its confidence interval, computed with JavaScript's number coercion.

**How the model is built.**

- Each parser is a pure function from the log's lines (or the tool's output text) to a `Result`.
- A `Result` either carries the value or the exception the Python code raises: `KeyError`, `IndexError`, `ValueError`, `ZeroDivisionError`, a failed `assert`, an `UnboundLocalError`, or a raised `Exception` with its message.
- The server and the dispatcher are state machines over immutable states.
- The viewer's loops are methods whose loop invariants tie them to functional definitions.
- Everything the code delegates is a parameter:
  - the number conversions `float()`, `int()`, `parseInt` and pandas' `convert_numeric`;
  - which files exist and are executable;
  - the logs themselves.

Modules, one per file:

- `Results` holds `Option`, `Result` and the exceptions.
- `Text` holds the Python string operations: split, strip, whitespace split, find and slicing.
- `Patterns` holds the `.*PATTERN(.*)` regular expressions and their backtracking.
- `Runs` holds the `for i in range(iterations)` collection loop.
- The remaining modules follow the source files: `Config`, `Server`, `Dispatcher`, `Tools`, `PowerLogger`, `PowerGadget`, `Ippet`, `Bla`, `TurboStat`, `Viewer`.

## Model

| member | source | states |
|---|---|---|
| Config.BrowsersOf | server.py:28-29 | Looking up an OS that is not configured raises KeyError naming that OS |
| Config.BrowsersOfFindsFirst | server.py:25-29 | The browser lookup succeeds exactly when some configured entry names the OS, and it returns the browsers of the first such entry |
| Config.BrowsersOfEntry | server.py:28-29 | In a configuration whose OS names are distinct, as the keys of a decoded JSON object are, looking up a configured OS returns the browsers of its entry |
| Config.PageItems | server.py:20-23 | The items of one page pair that page with each browser, in browser order |
| Config.EnumerateLength | server.py:20-23 | The generator yields exactly pages × browsers items |
| Config.EnumerateAt | server.py:20-23 | Item k is page k / B with browser k mod B, where B is the number of browsers: page-major, browser-minor |
| Server.ParseOs | server.py:16-18 | A payload names an OS class exactly when it equals that class's name; no other payload names one |
| Server.ParseOsName | server.py:16-18 | Every OS class's name parses back to that class |
| Server.Start | server.py:16-18 | At construction every generator is fresh: nothing has been yielded yet |
| Server.Next | server.py:20-23 | next() on a generator fails only for an unconfigured OS, with KeyError. Otherwise it yields the cursor's item, or nothing once the items are exhausted |
| Server.Pull | server.py:40-44 | A pull whose payload is not Darwin, Linux or Windows raises KeyError, and any failure is a KeyError naming the payload. A pull that gets "end" leaves the state unchanged. Otherwise it returns the next item and advances only that OS's generator by one |
| Server.PullIsolated | server.py:40-44 | Pulling for one OS class never moves another class's generator |
| Server.UnconfiguredOs | server.py:20-29 | The generators are lazy: a pull for an OS class the configuration omits raises KeyError when there are pages, and is answered "end" when there are none |
| Server.Handle | server.py:31-44 | "get_configuration" is answered with the configuration. Any header other than it and "pull" fails the assertion. Replies are "config", "page" or "end", and only "end" carries no payload |
| Server.Serve | server.py:31-44 | The loop answers every request until the first one whose handling raises; after an exception no reply is sent |
| Server.ServeStopsAtError | server.py:31-44 | Reply k is what Handle answers to request k in the state left by the k earlier requests, all of which succeeded. The final state is the state after every answered request. A transcript cut short carries the error Handle gives for the first unanswered request in that final state |
| Server.ServeStep | server.py:31-44 | A request that is handled successfully contributes its reply, and the loop continues from the new state |
| Server.PullAnswersExpected | server.py:40-44 | One pull answers the item at the generator's position, or "end" once the position is past the last item |
| Server.PullsFollowEnumeration | server.py:20-44 | m pulls for one OS never raise and answer the next m positions of the page-major enumeration, "end" past its last item |
| Server.DrainInOrder | server.py:20-44 | From start-up, the pulls for an OS receive every configured (page, browser) item exactly once, in page-major order, and then "end" for every further pull |
| Server.Drain | server.py:20-44 | A fresh generator answers its items in order, then "end" |
| Server.EndIsSticky | server.py:43-44 | Once a pull for an OS is answered "end", every later pull for it is answered "end" too |
| Dispatcher.PortOf | dispatcher.py:37 | Only Windows, Darwin and Linux have a scatter port; any other OS raises KeyError |
| Dispatcher.PortsDistinct | dispatcher.py:37 | The three ports are pairwise distinct, and none is the gather port 9003 |
| Dispatcher.Sockets | dispatcher.py:20-41 | Every configured OS gets the socket on its own port, and no other OS gets one. Construction fails exactly when some configured OS has no port, and then with that OS's KeyError |
| Dispatcher.Create | dispatcher.py:20-22 | Construction succeeds exactly when every configured OS has a port, and it keeps the arguments and the configuration |
| Dispatcher.CreateHasSockets | dispatcher.py:20-22 | After construction every configured OS has the socket on its port |
| Dispatcher.Block | dispatcher.py:49-61 | The pushes for one OS entry are its page × browser items, page-major, each sent on that OS's socket |
| Dispatcher.ScatterFromLength | dispatcher.py:49-61 | Scatter pushes exactly pages × (sum of each OS's browser count) messages |
| Dispatcher.ScatterAt | dispatcher.py:49-61 | Push Offset(i) + j is the j-th page-major item of OS entry i, where Offset(i) counts the pushes of the entries before i, sent on entry i's own socket: OS-major, then page, then browser |
| Dispatcher.ScatterOnOwnSocket | dispatcher.py:49-61 | Every push goes out on the socket bound to its own OS and carries the run description and a browser listed for that OS |
| Dispatcher.EnumerateMembers | dispatcher.py:49-55 | Every scattered item pairs a configured page with a browser listed for that OS |
| Dispatcher.Transmit | dispatcher.py:56-61 | Each attempt sends the first message not yet delivered. A failed attempt is repeated with the same message. The loop stops after delivering all messages or when the attempts run out |
| Dispatcher.Gather | dispatcher.py:63-78 | Gather takes exactly pages × (sum of browser counts) results, in arrival order, and needs that many to arrive |
| Dispatcher.GatherCountsScatter | dispatcher.py:49-78 | Gather waits for exactly as many results as scatter pushes messages |
| Tools.Resolve | power_logger.py:21-45 | A non-empty explicit path is used when it passes the check, and otherwise the tool is "not found". An empty path falls back to the system's default, which must be on PATH. A system without a default is "not supported" |
| Tools.LoggerTool | power_logger.py:21-45 | A non-empty path is accepted exactly when it exists, and otherwise raises "Intel Power Gadget executable not found". Without a path, Darwin, Linux and Windows use "PowerLog", "power_gadget" and "PowerLog" if it is on PATH, and raise the not-found message if it is not. Any other system raises "Platform is not supported." |
| Tools.GadgetTool | wrappers/PowerGadget.py:31-52 | A non-empty path is accepted exactly when it exists and is executable. Without a path, Darwin, Linux and Windows use "PowerLog", "power_gadget" and "PowerLog.exe" if it is on PATH, and raise "Intel Power Gadget executable not found" if it is not. Any other system raises "Platform is not supported." |
| Tools.IppetTool | wrappers/IPPET.py:34-45 | A non-empty path is accepted exactly when it exists and is executable, and otherwise raises "IPPET executable not found". Without a path, Windows uses "ippet.exe" if it is on PATH and raises the same message if it is not. Every other system raises "IPPET does not support your operating system" |
| Tools.GadgetStricterThanLogger | wrappers/PowerGadget.py:31-52 | A path passes the wrapper's check exactly when it passes the logger's and is executable; with no path the two copies agree except on Windows |
| Tools.UnsupportedSystem | power_logger.py:44-45 | With no path, every lookup rejects a system other than Darwin, Linux and Windows, each with its own message |
| Text.Split | power_logger.py:117-125 | `str.split(sep)` returns at least one piece and no piece contains the separator |
| Text.JoinSplit | power_logger.py:117-125 | Joining the pieces of a split with the separator gives back the original string |
| Text.Words | linux/power_summary.py:19 | `str.split()` returns non-empty words without whitespace |
| Text.WordsKeepVisible | linux/power_summary.py:19 | The words, put together, are exactly the non-whitespace characters of the line, in order |
| Text.WordsOfWord | linux/power_summary.py:19 | A non-empty run of non-whitespace characters splits into exactly itself |
| Text.WordsOfSpace | linux/power_summary.py:19 | A line of whitespace only has no words |
| Text.WordsSplitAtSpace | linux/power_summary.py:19 | Splitting at any whitespace character gives the words of the part before it followed by the words of the part after it, so no word spans whitespace and each word is as long as it can be |
| Text.Strip | power_logger.py:105 | `strip()` returns a substring that is surrounded only by whitespace and neither starts nor ends with whitespace |
| Text.Find | wrappers/IPPET.py:139 | The first occurrence of a character, or none when the character is absent |
| Text.Contains | wrappers/IPPET.py:137 | `sub in s` holds exactly when `sub` occurs at some position |
| Text.Slice | wrappers/IPPET.py:139 | Python slicing clamps both bounds: in range it is the ordinary slice, an upper bound past the end reads to the end, and it is empty when the bounds cross or the start is past the end |
| Text.FirstBlank | power_logger.py:96-100 | The first line equal to "\n", or none when no line is |
| Patterns.LiteralMatch | power_logger.py:103 | A literal pattern matches at a position exactly where its text occurs there, and the match ends right after that text |
| Patterns.LastStart | power_logger.py:103 | The greedy `.*` backtracks to the latest position at which the pattern matches |
| Patterns.Search | power_logger.py:103-109 | `re.match('.*PAT(.*)')` matches exactly when the pattern matches somewhere on the first line |
| Patterns.SearchLiteral | wrappers/PowerGadget.py:83-84 | On one line, a literal label matches exactly when the line contains it. The group is the text after the label's last occurrence |
| Patterns.SearchIgnoresNewline | wrappers/PowerGadget.py:97-104 | The trailing newline that `readlines` keeps does not change the match or its group |
| Patterns.SameLastStart | power_logger.py:103 | The backtracking result depends only on the positions at which the pattern matches |
| Patterns.LastSome | power_logger.py:104-109 | A loop that overwrites a variable on every match ends with the last match's value, or keeps the initial value when nothing matches |
| PowerLogger.Sections | power_logger.py:96-100 | At the first blank line the data is lines 1 up to it and the metadata is everything after it. Without a blank line both are empty |
| PowerLogger.ScanJoules | power_logger.py:103-109 | The metadata scan fails only with ValueError |
| PowerLogger.ScanJoulesTakesLast | power_logger.py:103-109 | Joules is the converted group of the last matching stripped line, or stays 0 when nothing matches. The scan fails exactly when some matching line has a group that does not convert |
| PowerLogger.ScanJoulesNoMatch | power_logger.py:103-109 | When no metadata line matches, Joules keeps its initial value |
| PowerLogger.Timestamp | power_logger.py:117-119 | The timestamp is the last ':'-separated part of the first ','-field; a failed conversion raises ValueError |
| PowerLogger.Interval | power_logger.py:119 | The interval is the distance between two timestamps, rounded down to a multiple of 10 |
| PowerLogger.Frequency | power_logger.py:121 | `int(1000.0 / ts)` raises ZeroDivisionError exactly when ts is 0 and is otherwise the floor of 1000 / ts |
| PowerLogger.Sample | power_logger.py:123-125 | The sample is the fifth ','-field. It raises IndexError when the line has fewer than five fields, and ValueError when the field does not convert |
| PowerLogger.Samples | power_logger.py:123-125 | There is one sample per data line, in order. A failure is the failure of some line |
| PowerLogger.Trim | power_logger.py:115 | `data[1:-1]` drops the first and last line, and gives nothing when there are fewer than two |
| PowerLogger.DataLines | power_logger.py:96-115 | The data kept are lines 2 to i-2 of the log, where line i is the first blank line |
| PowerLogger.KeptLines | power_logger.py:96-121 | When at least three data lines are kept, the blank line is at index 6 or later |
| PowerLogger.ParseData | power_logger.py:115-130 | Fewer than three kept lines raise IndexError. When both timestamps, the frequency and every sample convert, the parse succeeds exactly when Joules is positive: it then returns those samples, that frequency and Joules, and otherwise fails the assertion. On success there is one sample per kept line |
| PowerLogger.ParseSignalJoules | power_logger.py:103-130 | A parsed signal's Joules is the converted group of the last stripped metadata line that matches the energy label, such a line exists, and Joules is positive |
| PowerLogger.ParseSignalShape | power_logger.py:86-130 | A parsed log has a blank line at i >= 6. Its signal holds one sample per line 2 to i-2, and its Joules are positive |
| PowerLogger.NoEnergyFails | power_logger.py:103-128 | A log with no energy line scans to Joules 0. Its parse is then the parse of the kept data lines with Joules 0, which always fails: with IndexError, a conversion error, or the assertion |
| PowerLogger.LoggedRun | power_logger.py:53-61 | Logging on anything but Darwin or Linux raises "Platform is not supported"; otherwise the run yields the parse of its log |
| PowerLogger.CollectPowerUsage | power_logger.py:132-147 | There is one signal and one Joules value per iteration, run i giving entry i. An unsupported platform raises before any result |
| PowerLogger.Collect | power_logger.py:132-147 | The collection loop, for any parser, keeps run i at position i |
| PowerLogger.Signals | power_logger.py:132-147 | The samples and Joules lists are equally long, entry i taken from run i. A failing first run is the error |
| PowerLogger.Unzip | power_logger.py:143 | The tuple assignment fills both lists entry by entry from the same signal |
| PowerLogger.NearestRun | power_logger.py:156-164 | The chosen run's Joules are nearest to the mean, and earlier runs are strictly farther. An empty list raises IndexError |
| PowerLogger.CheckArguments | power_logger.py:181-186 | Measuring starts only when iterations > 1, duration > 0 and resolution >= 50. Each violation raises its own message, in the order checked |
| Runs.CollectRows | linux/power_summary.py:32-40 | Collection succeeds exactly when every run does, with row i from run i. Otherwise it fails with the error of the first failing run |
| PowerGadget.Metadata | wrappers/PowerGadget.py:90-95 | The metadata are the lines after the first blank line. Without one, reading `metadata` raises UnboundLocalError |
| PowerGadget.ReadLine | wrappers/PowerGadget.py:97-104 | A metadata line fails only with ValueError |
| PowerGadget.ReadAll | wrappers/PowerGadget.py:97-104 | The loop fails only with ValueError, and a bound `watt` stays bound |
| PowerGadget.ReadAllTakesLast | wrappers/PowerGadget.py:97-104 | On success Joules and Watt are the converted groups of the last lines matching their labels. Each keeps its start value when no line matches |
| PowerGadget.Finish | wrappers/PowerGadget.py:110-111 | An unbound `watt` raises UnboundLocalError. Otherwise the result is the Watt and Joules pair, and both must be positive or the assertion fails |
| PowerGadget.ParseAsWritten | wrappers/PowerGadget.py:80-111 | The code as written: a missing log raises, and a result holds positive Watt and Joules |
| PowerGadget.Parse | wrappers/PowerGadget.py:80-111 | The corrected parse: the same contract, and it never raises UnboundLocalError for `watt` |
| PowerGadget.ParseTakesLast | benchmarks/PowerGadget.py:79-110 | A successful parse returns the groups of the last Joules and last Watt metadata lines |
| PowerGadget.FromZeroTakesLast | benchmarks/PowerGadget.py:96-110 | From zero start values, a successful parse returns the last matched groups, for any pair of label patterns |
| PowerGadget.AsWrittenAgrees | wrappers/PowerGadget.py:81-110 | When some metadata line carries a Watt label, the as-written and corrected parses agree |
| PowerGadget.ReadAllSameFailure | wrappers/PowerGadget.py:97-104 | Whether the loop fails does not depend on the start value of `watt` |
| PowerGadget.NoWattLine | wrappers/PowerGadget.py:82-110 | On a log holding only a blank line, the code as written raises UnboundLocalError, while the corrected parse fails the assertion |
| PowerGadget.GroupAfterLastLabel | benchmarks/PowerGadget.py:82-83 | On a metadata line, a label pattern matches exactly when the line contains the label. Its group is the text after the label's last occurrence, without the newline |
| PowerGadget.FieldsAreKeys | benchmarks/PowerGadget.py:116 | The declared fields are exactly the keys a successful parse returns |
| Ippet.PyMod | wrappers/IPPET.py:119-120 | Python's `%` takes the sign of the divisor, and a equals the floor quotient times b plus the remainder |
| Ippet.PyIndex | wrappers/IPPET.py:113-114 | A list index is valid from -n to n-1, counting negatives from the end; any other index raises IndexError |
| Ippet.DataStep | wrappers/IPPET.py:112-122 | A non-tab character is appended to the token. A tab sends the token to column `index % count` when that column names the browser, clears it and moves to the next column, wrapping around. A tab with a count of 0, left by a header of exactly one column, raises ZeroDivisionError. With a count of -1, left by a header that ended with no column, the column lookup raises IndexError. A browser token that does not convert raises ValueError |
| Ippet.StepKeepsInv | wrappers/IPPET.py:97-122 | Every character keeps the column iterator within [0, count) (or at 0 while count is not positive), and count equal to the number of columns in the header phase and one less afterwards |
| Ippet.RunKeepsInv | wrappers/IPPET.py:88-122 | The whole loop keeps that invariant |
| Ippet.RunAppend | wrappers/IPPET.py:88-122 | Running over a + b is running over a, then over b from where a ended; the first exception ends it |
| Ippet.HeaderColumns | wrappers/IPPET.py:97-110 | A header yields one column per name |
| Ippet.NameChars | wrappers/IPPET.py:102-106 | Inside quotes, the characters of a name accumulate unchanged |
| Ippet.QuotedField | wrappers/IPPET.py:102-106 | A quoted name appends one column holding that name |
| Ippet.HeaderRoundTrip | wrappers/IPPET.py:97-110 | Reading a header of quoted names, none containing a quote and the first able to open the header, ends gathering with one column per name and a count of the names. The first column is named as given and every later one carries the separating tab in front of its name |
| Ippet.HeaderEnds | wrappers/IPPET.py:99-101 | The first character after the header that is not a quote, `(` or a tab ends the header phase, and count drops by one |
| Ippet.ToMap | wrappers/IPPET.py:21-31 | The returned dictionary has exactly the four declared fields, each holding its total |
| Ippet.DataType | wrappers/IPPET.py:139 | The data type is what follows the first `)` and the space after it; a name without `)` raises ValueError |
| Ippet.Contribution | wrappers/IPPET.py:137-147 | A column adds nothing unless its name contains the browser and it has values, and such a column without `)` fails. Otherwise its data type selects the field: "CPU Power W" and "GPU Power W" add the sum of the values, "%CPU" and "%GPU" add their mean, and any other type adds nothing |
| Ippet.Aggregate | wrappers/IPPET.py:129-149 | The totals fail exactly when some column's contribution fails |
| Ippet.AggregateFields | wrappers/IPPET.py:129-149 | Each total is the fold over the columns: the CPU and GPU power totals sum the values of the counted columns of that type, and the two percentages add up the means of theirs |
| Ippet.AggregateAppend | wrappers/IPPET.py:136-147 | The totals over two lists of columns are the sums of the totals over each |
| Ippet.ForeignColumnsIgnored | wrappers/IPPET.py:137 | Columns whose names do not mention the browser leave the totals at zero |
| Ippet.EmptyColumnsAddNothing | wrappers/IPPET.py:137 | Columns without values leave the totals at zero |
| Ippet.ParseData | wrappers/IPPET.py:82-127 | A final count of 0 raises "No data columns were found". That count is left by a log still in its header with no name read, or by a header of exactly one column that has ended, since the count drops by one when the header ends. Any other count, -1 included, goes on to the totals: a success comes from a run that did not raise, and it holds exactly the four totals of its columns |
| Ippet.EmptyLogRaises | wrappers/IPPET.py:124-125 | An empty log raises "No data columns were found" |
| Ippet.HeaderOnlyLog | wrappers/IPPET.py:82-127 | A log that is only a header parses to all-zero totals |
| Ippet.Parse | wrappers/IPPET.py:67-80 | A missing log raises "IPPET failed to generate a valid logfile". A result has the four fields with a positive total CPU power |
| Bla.KeyNameInjective | wrappers/BLA.py:18-20 | Different entry keys have different names |
| Bla.FieldsNameKeys | windows/power_summary.py:12 | The declared fields name exactly the keys an entry can hold, for either copy |
| Bla.NormaliseImage | wrappers/BLA.py:22-23 | An absent or empty image gives none. Otherwise the image ends in ".exe", with ".exe" appended only when missing |
| Bla.NormaliseIdempotent | windows/power_summary.py:19-22 | Normalising twice is normalising once |
| Bla.First | wrappers/BLA.py:35-38 | `df[col][0]` raises KeyError for a missing column or an empty table, and otherwise reads the first row |
| Bla.SystemWide | windows/power_summary.py:34-37 | The system-wide values are the first row's, one per measure; they fail exactly when a column is missing or the table is empty |
| Bla.Select | wrappers/BLA.py:41-43 | The selection holds only rows of the image and is empty exactly when no row has it |
| Bla.SumOverSelection | wrappers/BLA.py:44-47 | Summing the selection adds each row of the image exactly once and no other row |
| Bla.Entry | wrappers/BLA.py:29-50 | An entry holds the first-row system values. It holds the per-process sums exactly when an image is set and some row has it. It fails only on a missing column, an empty table, or a missing "Image Name" column when an image is set |
| Bla.PerProcess | windows/power_summary.py:40-45 | The per-process keys are the process sums of the selected rows |
| Bla.NoProcessKeys | wrappers/BLA.py:41-47 | Without an image, or when no row has it, the entry holds only system-wide keys |
| Bla.OtherImagesIgnored | wrappers/BLA.py:41-47 | A row of another image appended to a non-empty table changes nothing |
| Bla.FrameRow | windows/power_summary.py:57-65 | A data-frame row has every declared field, NaN exactly where the entry has no value |
| Bla.CollectPowerUsage | windows/power_summary.py:57-65 | There is one frame row per iteration, row i from the table of run i. A failure is the error of the first run whose entry raises |
| TurboStat.FieldsDistinct | linux/power_summary.py:6-7 | The 17 turbostat fields are distinct |
| TurboStat.Zip | linux/power_summary.py:19-23 | Zipping succeeds exactly when there are at least as many tokens as keys, and otherwise raises IndexError. The result maps key i to token i |
| TurboStat.ZipPrefix | linux/power_summary.py:19-23 | Only the first tokens, one per key, matter |
| TurboStat.Join | linux/power_summary.py:17-23 | A row is built exactly when stderr has a second line with at least 17 tokens, and otherwise IndexError is raised |
| TurboStat.JoinFields | linux/power_summary.py:17-23 | A row has the 17 fields as keys, field i holding token i of the second line |
| TurboStat.OnlyFirstTokensMatter | linux/power_summary.py:19-23 | Two outputs whose second lines start with the same 17 tokens give the same row |
| TurboStat.CollectPowerUsage | linux/power_summary.py:32-40 | There is one converted row per iteration, row i from run i. It fails, with IndexError, exactly when some run's output is short |
| TurboStat.RowsHaveFields | linux/power_summary.py:32-40 | Every collected row has exactly the 17 fields |
| TurboStat.ConvertRow | linux/power_summary.py:40 | Conversion keeps the keys and converts each value |
| Viewer.IndexOf | viewer/js/app.js:5 | `indexOf(sub, from)` finds the first occurrence at or after the clamped start, or -1 when there is none |
| Viewer.EndsWithIsSuffix | viewer/js/app.js:3-7 | The `endsWith` polyfill holds exactly for the suffixes, the empty one included |
| Viewer.StartsWithIsPrefix | viewer/js/app.js:9-13 | The `startsWith` polyfill holds exactly for the prefixes |
| Viewer.PlottedColumns | viewer/js/app.js:235-238 | A column is plotted unless it is one of six bookkeeping columns or its name ends in "CI" or "Impact" |
| Viewer.Charts | viewer/js/app.js:235-245 | The charts are exactly the plotted columns |
| Viewer.ChartsAppend | viewer/js/app.js:235-245 | One more column adds one more chart exactly when that column is plotted |
| Viewer.LoadToolbar | viewer/js/app.js:35-58 | Pickers that both already hold options are left alone. Otherwise the column picker gets an empty option and then, like the sort picker, the plotted columns in column order |
| Viewer.PlotMetrics | viewer/js/app.js:231-245 | There is one chart per plotted column, in column order, and chart k is drawn into container k |
| Viewer.BrowserCount | viewer/js/app.js:215-216 | A non-empty table has at least one browser |
| Viewer.Select | viewer/js/app.js:214-229 | Without a number in the limit picker every row is kept. Otherwise the first limit × browsers rows are kept |
| Viewer.GroupedCount | viewer/js/app.js:256-285 | There are as many chart rows as complete groups of one row per browser |
| Viewer.GroupedRow | viewer/js/app.js:256-285 | Chart row k is built from table rows k·n to (k+1)·n - 1: the page of the first, then each row's cell and the two ends of its interval |
| Viewer.EndsCoerce | viewer/js/app.js:272-277 | The interval ends `base - ci` and `base + ci` follow JavaScript's number coercion: a cell missing from the row makes both ends NaN, an empty (null) cell counts as 0, and two numbers give their difference and sum |
| Viewer.ConvertData | viewer/js/app.js:256-285 | `convertData` returns exactly the chart rows of the complete groups; an incomplete last group is dropped |
| Viewer.ConvertRows | viewer/js/app.js:264-282 | The row loop builds the grouped chart rows |
| Viewer.BelowStrict | viewer/js/app.js:126-142 | String `<` is a strict total order |
| Viewer.BelowTransitive | viewer/js/app.js:126-142 | String `<` is transitive |
| Viewer.OrderCompares | viewer/js/app.js:126-142 | The page and browser tests answer 0 exactly on equal strings and are antisymmetric |
| Viewer.OrderTransitive | viewer/js/app.js:126-142 | The page and browser tests are transitive |
| Viewer.Compare | viewer/js/app.js:105-145 | The comparator answers -1, 0 or 1 |
| Viewer.PositiveFirst | viewer/js/app.js:111-112 | Of two pvalues of opposite sign, the positive one sorts first |
| Viewer.AscendingPvalue | viewer/js/app.js:115-121 | Otherwise the smaller pvalue sorts first |
| Viewer.PvalueTieFallsBack | viewer/js/app.js:109-145 | A missing or tied pvalue leaves the order to the page, then the browser |
| Viewer.CompareZero | viewer/js/app.js:105-145 | The comparator answers 0 exactly when the pvalues tie and the pages and browsers are equal |
| Viewer.CompareAntisymmetric | viewer/js/app.js:105-145 | Swapping the rows swaps the answer |
| Viewer.KeyCompareTransitive | viewer/js/app.js:109-145 | The order the comparator aims at is transitive: non-negative before negative pvalues, then ascending, then page, then browser |
| Viewer.CompareNonZeroIsKeyOrder | viewer/js/app.js:109-145 | Away from zero pvalues the comparator is that order |
| Viewer.ZeroPvalueCycle | viewer/js/app.js:111-121 | With a zero pvalue the comparator as written is not an order: pvalues 1, -1 and 0 form a cycle |
| Viewer.CompareBySign | viewer/js/app.js:109-145 | The corrected comparator answers -1, 0 or 1 |
| Viewer.CompareBySignIsKeyOrder | viewer/js/app.js:109-145 | With every pvalue present, the corrected comparator is the intended key order |
| Viewer.CompareBySignTransitive | viewer/js/app.js:109-145 | The corrected comparator is transitive |
| Viewer.CompareBySignAgrees | viewer/js/app.js:111-121 | The correction changes nothing unless a pvalue is zero |
| Results.Convert | power_logger.py:109 | `float()` and `int()` fail with ValueError exactly when the text does not convert |
| Results.Require | power_logger.py:127-128 | An assertion passes exactly when its condition holds and otherwise raises its error |

## Left out

- Sockets, ZeroMQ, pickling and threads. The server and the dispatcher are modelled as functions over request and reply sequences. A send that can fail is an outcome list given as input.
- Dispatcher.Gather: when fewer results arrive than expected it returns none, where the real loop blocks forever waiting for them.
- Launching the tools (`os.system`, `subprocess`), temporary directories, file reading and the clock. The model takes the logs, the tool's stderr, and which paths exist and are executable as inputs.
- Floating-point arithmetic. Values are `real`, and `float()`, `int()`, `parseInt` and pandas' numeric conversion are abstract conversions that may fail.
- Statistics and plotting: `mean_confidence_interval`, `plot_signal`, the spectrum plot, and the viewer's `pvaluesForColumn` (jStat), `plot`, chart containers and scrolling. The pvalues are inputs of the comparator.
- The array sort algorithm of the viewer. Only the comparator it is given is modelled.
- Debug printing.
- Viewer.Bar: a cell is modelled as missing (undefined), empty (null) or a number. A cell the data set holds as text, where JavaScript's `+` would concatenate, is not modelled. The CSV parsing of the Miso data set is not part of this model, and an empty field is taken to arrive as null.
- Viewer.Below: compares characters as code points. JavaScript compares UTF-16 code units, which differs only for characters outside the Basic Multilingual Plane.
- Bla.Entry: the `len(selection > 0)` test of `wrappers/BLA.py:43` counts rows, as the comparison keeps the frame's shape. The entry therefore gains the per-process keys when the image has any row.
- The corrected comparator is transitive only when every pvalue is present. With a NaN pvalue the JavaScript comparator is not an order either way.
- Config.BrowsersOf: an "OS" object with a repeated key is collapsed by the JSON decoder, the last value winning, before the server sees it. The model keeps the entries as a sequence, so it can hold repeats, and its lookup takes the first. Config.Valid names the decoded configurations, whose OS names are distinct, and Config.BrowsersOfEntry states the lookup for them. Dispatcher.ScatterFrom and Dispatcher.Gather take the entries as given, so a repeated OS would be pushed and counted twice, which a decoded file never asks for.

## Findings

| source | as written | input that shows it | evidently intended | confidence | as-written member | corrected member |
|---|---|---|---|---|---|---|
| wrappers/PowerGadget.py:82,104,110 (also benchmarks/PowerGadget.py:81,103,109) | The initialiser binds `watts`, but the loop and the assertion use `watt`. A log without a Watt line raises UnboundLocalError instead of failing the assertion | A log holding only the line "\n" | `watt = 0`, so a log without a Watt line fails `assert(watt > 0 ...)` | high, not executed | PowerGadget.ParseAsWritten, PowerGadget.NoWattLine | PowerGadget.Parse, PowerGadget.AsWrittenAgrees |
| viewer/js/app.js:111-121 | The opposite-sign test `a * b < 0` treats a zero pvalue as neither sign, so zero is compared by value on both sides: after the negative pvalues and before the positive ones, while the positive ones sort before the negative ones | Rows with pvalues 1, -1 and 0 (same page and browser): 1 before -1, -1 before 0, 0 before 1 | Zero counted with the non-negative pvalues, giving a transitive order | medium, not executed | Viewer.ZeroPvalueCycle | Viewer.CompareBySign, Viewer.CompareBySignTransitive |
