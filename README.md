# Platter download engine, modelled in Dafny

Platter publishes local files over HTTP. Each file gets a short random route.
A downloader's progress is reported to observers through named signals.
This project models three pieces of it:

- **The single-file download engine** (`platter/server.py`). The server keeps
  two tables: `files` (source path to File) and `paths` (route to File).
  `serve` looks a path up or registers a new File. A request handler answers
  an unknown route with 404. For a known route it fires `start`, sends the
  headers and streams the file in 16 KiB chunks. After each chunk it fires
  `progress` with the accumulated percentage. It ends with `success`, with
  `failure`, or silently when the handler was canceled. `cancel` sets the
  flag and closes the handler's streams.
- **The event bus** (`platter/event.py`). `EventHandler` maps each signal
  name to a set of callbacks. `on` and `off` edit that table. `trigger` calls
  the callbacks of the exact signal, then the `"all"` wildcard callbacks
  with the signal name prepended.
- **The default-route lookup** (`platter/network.py`). It reads the kernel
  routing table as lines, skips the header and splits each row on tabs. It
  returns field 0 of the first matching row, one whose flags are odd and
  whose destination is 0. A row that raises before that (too few fields, or
  non-decimal flags or destination text) makes the lookup raise. `find_ip`
  gives `127.0.0.1` only when every row is rejected without raising.

Modules: `Results` (Option, Result and the Python exceptions involved),
`Decimal` (`str(n)` and the part of `int(s)` that is used), `Event`,
`Network`, `Server`.

How the outside world appears in the model:

- A request handler's HTTP output and the signals it fires become a log of
  `Action`s: error status, status line, header, end of headers, body write,
  signal.
- The file's bytes, its size on disk, the URL-quoting function and the random
  route token are parameters.
- A `Schedule` says when the environment interferes with one transfer:
  - the header flush raises;
  - `open` raises;
  - read number k raises;
  - the write of chunk k raises;
  - another thread calls `cancel` just before read k.
- `Served` is the closed-form log of one transfer. `RequestHandler.DoGet` is
  the imperative loop. Its `ensures` ties the log it produces to `Served`.
  The lemmas about `Served` state the event-order properties.
- Progress is computed with exact reals: after chunk k it is
  k × (BUF_SIZE / size × 100).
- Callbacks are identified by an id. A trigger returns the sequence of calls
  it performs.

Behaviour of the code worth knowing:

- `serve` deduplicates by the exact path string it is given
  (platter/server.py:89).
- The Content-Disposition value is `attachment;filename=` followed by the
  quoted basename, with no space (platter/server.py:25).
- `off` on a known signal with an unregistered callback raises `KeyError`
  (platter/event.py:17-18). Removing the last callback keeps the signal's
  key with an empty set (platter/event.py:14, 18).
- A short final chunk still adds a whole increment (platter/server.py:29,
  40). In exact arithmetic the last `progress` value is therefore exactly 100
  only when the size is a multiple of 16384, and above 100 otherwise
  (`Server.FinalProgress`). With floating point the value can end just
  below or just above 100.
- The route test parses fields with decimal `int()` (platter/network.py:12),
  while the kernel writes destinations in hexadecimal. A row with odd flags
  whose destination holds a letter, such as a LAN route `0001A8C0`, raises
  ValueError. When that row comes before any default route, the lookup
  raises instead of falling back to `127.0.0.1`, and so does
  `PlatterHTTPServer.__init__` (platter/server.py:86)
  (`Network.HexRouteFirstRaises`, `Network.FirstDefaultRaises`).
- For a zero-size file, computing the increment divides by zero
  (platter/server.py:29). The transfer fires `start` and then `failure`.
- `find_ip` gives None when no address entry of the interface has an
  `addr` key (platter/network.py:21-25). The URL then reads
  `http://None:…` (platter/server.py:76-77).

## Model

| member | source | states |
|---|---|---|
| `Decimal.ParseInt` | platter/network.py:12 | `int(s)` succeeds exactly on one or more ASCII digits, optionally preceded by one '+' or '-'; digits give their decimal value, '+' keeps it and '-' negates it; every other string raises ValueError |
| `Decimal.Show` | platter/server.py:26 | `str(n)` of a size is one or more ASCII digits without a leading zero, and a single digit exactly when n < 10 |
| `Decimal.ParseSignedShow` | platter/network.py:12 | a sign followed by the decimal text of n parses to n or to -n |
| `Decimal.ParseShow` | platter/server.py:26 | the decimal text of a size sent as `Content-Length` parses back to that size |
| `Event.EventHandler.constructor` | platter/event.py:4-5 | a new handler has an empty callback table |
| `Event.TriggerFresh` | platter/event.py:4-11 | triggering any signal on a freshly built handler invokes nothing |
| `Event.Lookup` | platter/event.py:8-10 | `get(signal, ())`: the signal's set when the signal is a key, and no callbacks otherwise |
| `Event.Add` | platter/event.py:13-14 | `setdefault(s, set()).add(cb)`: key s is present afterwards, its set gains exactly cb, and every other signal's set is unchanged |
| `Event.EventHandler.On` | platter/event.py:13-14 | `on` replaces the table by `Add` of the old table |
| `Event.AddIdempotent` | platter/event.py:13-14 | registering the same callback twice leaves the same table as registering it once |
| `Event.Remove` | platter/event.py:16-18 | unknown signal: no-op; known signal without cb: KeyError; otherwise cb is removed from that set, the keys stay the same and other signals are unchanged |
| `Event.EventHandler.Off` | platter/event.py:16-18 | `off` leaves the table as `Remove` says and reports its KeyError; on error the table is unchanged |
| `Event.RemoveAfterAdd` | platter/event.py:13-18 | `off(s, cb)` after `on(s, cb)` succeeds and leaves s mapped to its earlier set minus cb |
| `Event.RemoveLast` | platter/event.py:14-18 | removing the last callback of s keeps the key s with an empty set, so s has no exact-match callbacks |
| `Event.EventHandler.Dispatch` | platter/event.py:8-9 | one loop over a callback set calls each member exactly once, with the given arguments, and nothing else |
| `Event.EventHandler.Trigger` | platter/event.py:7-11 | every callback of the signal is called exactly once with args, and all of those calls come first; then every `"all"` callback is called exactly once with (signal, *args); for signal `"all"` each wildcard callback runs twice |
| `Event.WildcardTwice` | platter/event.py:8-11 | `trigger("all", *args)` calls each wildcard callback twice: first with args, then with ("all", *args) |
| `Network.StripNewlines` | platter/network.py:6 | `rstrip('\n')` keeps the longest prefix that does not end in a newline; only newlines are removed |
| `Network.Split` | platter/network.py:6 | `split('\t')` yields at least one field and no field contains a tab |
| `Network.JoinSplit` | platter/network.py:6 | joining the split fields with tabs gives the stripped row back |
| `Network.SplitJoin` | platter/network.py:6 | splitting tab-free fields joined with tabs gives the fields back |
| `Network.Fields` | platter/network.py:6 | `row.rstrip('\n').split('\t')`: at least one field, no field holds a tab, and the fields joined with tabs are the line without its trailing newlines |
| `Network.ParseTable` | platter/network.py:5-6 | each line becomes exactly its own stripped, tab-split row, in order |
| `Network.RowsRejoin` | platter/network.py:5-6 | every parsed row has at least one field, no field holds a tab, and the row rejoins to its stripped line |
| `Network.IsDefaultRoute` | platter/network.py:12 | a row matches exactly when it has more than three fields, field 3 parses to an odd integer and field 1 parses to 0; a row of three fields or fewer raises IndexError; every error is IndexError or ValueError |
| `Network.FirstDefault` | platter/network.py:11-14 | an interface returned is field 0 of some row that matches; an error raised is the error of some row |
| `Network.DefaultIface` | platter/network.py:8-14 | a table of at most one line gives None; an interface returned is field 0 of a matching row after the header line |
| `Network.DefaultIfaceFirst` | platter/network.py:8-13 | when every line between the header and line k is rejected without raising and line k matches, the result is field 0 of line k |
| `Network.UpFlags` | platter/network.py:12 | the flags text "0001" of an up route parses to 1 |
| `Network.HexDestinationRaises` | platter/network.py:12 | an up route whose destination is hexadecimal text with a letter, such as "0002A8C0", raises ValueError |
| `Network.HexRouteFirstRaises` | platter/network.py:11-13 | such a row as the first row makes the whole lookup raise ValueError, whatever follows |
| `Network.HeaderIgnored` | platter/network.py:10 | the first line never influences the result |
| `Network.EmptyTable` | platter/network.py:8-14 | a table with only a header, or with no line at all, has no default interface |
| `Network.ShortRowRaises` | platter/network.py:12 | a row of fewer than four fields raises IndexError instead of being skipped |
| `Network.BadFlagsRaise` | platter/network.py:12 | a flags field that is not an integer raises ValueError |
| `Network.FlagsShortCircuit` | platter/network.py:12 | with bit 0 of the flags clear the row is rejected and the destination field is never parsed, so even unparsable text there changes nothing |
| `Network.FlagsSetDecides` | platter/network.py:12 | with bit 0 set the row matches exactly when the destination parses to 0, and raises exactly when it does not parse |
| `Network.FirstDefaultAt` | platter/network.py:11-13 | if the first k rows are rejected without raising and row k matches, the result is field 0 of row k, whatever rows follow |
| `Network.FirstDefaultRaises` | platter/network.py:11-13 | a row that raises before any matching row makes the whole lookup raise that error |
| `Network.FirstDefaultNone` | platter/network.py:11-14 | the lookup returns None exactly when every row is rejected without raising |
| `Network.FirstDefaultCases` | platter/network.py:11-14 | every interface returned and every error raised comes from the earliest decisive row |
| `Network.FindIp` | platter/network.py:16-19 | no default interface gives the loopback address; an interface gives what the address lookup yields; an error propagates |
| `Network.FallbackExactly` | platter/network.py:16-19 | when no interface address is the loopback text, `find_ip` gives loopback exactly when `get_default_iface` gives None |
| `Server.Basename` | platter/server.py:67 | the basename is the longest suffix of the path without '/': it has no '/', and the path character before it is '/' |
| `Server.IpText` | platter/server.py:76-77 | `%s` of the address: the address text itself, or "None" when find_ip gave None |
| `Server.File.Url` | platter/server.py:74-78 | the URL starts with "http://" and reads back into the server's address ("None" when it is unknown), its port and the File's route, whenever the address has no ':' and the route does not start with a digit |
| `Server.FormatUrl` | platter/server.py:74-78 | the URL starts with "http://" and ends with the route |
| `Server.UrlRoundTrip` | platter/server.py:74-78 | "http://" + ip + ":" + decimal port + route reads back into the same ip, port and route when ip has no ':' and the route does not start with a digit |
| `Server.ResponseHeaders` | platter/server.py:23-27 | the response opens with status 200 and the three headers the handler sends itself, and closes with the end of the headers |
| `Server.DownloadHeaders` | platter/server.py:23-27 | status 200, then the octet-stream content type, then `attachment;filename=` and the quoted last component of the path, then a Content-Length that reads back as the size, then the end of the headers |
| `Server.ChunksFlatten` | platter/server.py:32-39 | the BUF_SIZE chunks of the file, concatenated, are the file |
| `Server.ChunkSizes` | platter/server.py:10 | there are ceil(size / 16384) chunks; every one but the last holds exactly 16384 bytes, and the last holds 1 to 16384 |
| `Server.Increment` | platter/server.py:29 | `float(BUF_SIZE)/float(f.size)*100`, defined only for size > 0 (`ReachesLoop` guards it; size 0 is the ZeroDivisionError path): positive, and times the size it gives BUF_SIZE × 100 |
| `Server.Accumulated` | platter/server.py:30-40 | `percent_complete` after m chunks: 0 before any chunk and, for a positive increment, positive exactly once a chunk was written |
| `Server.AccumulatedProduct` | platter/server.py:29-40 | adding the increment k times is k times the increment |
| `Server.AccumulatedIncreases` | platter/server.py:40 | a positive increment makes the running percentage strictly increase |
| `Server.StreamFrom` | platter/server.py:33-45 | the loop only writes chunks and fires `progress`, except that its very last action may be `success` or `failure` |
| `Server.StreamExit` | platter/server.py:34-43 | leaving at read k: a read error fires `failure`; an empty read fires `success`; a cancel seen after a non-empty read fires nothing; a write error fires `failure`; in each case k is the read at which the loop leaves |
| `Server.Served` | platter/server.py:21-45 | a transfer of a found File fires `start`, sends status 200 and the headers, and then does only what the loop may do |
| `Server.StreamWrites` | platter/server.py:33-39 | from any read on, the loop writes exactly the leading chunks of what remains, up to the read at which it leaves |
| `Server.StreamSignals` | platter/server.py:33-45 | the loop fires one `progress` per chunk written, then `failure`, `success` or nothing |
| `Server.ExitSignals` | platter/server.py:34-45 | a loop that leaves at its first read fires only its closing signal: `failure`, `success` or nothing |
| `Server.StreamProgress` | platter/server.py:40-41 | the j-th `progress` after read k carries k + j + 1 increments |
| `Server.LoopOutcome` | platter/server.py:32-45 | the whole loop writes the first m chunks and fires m `progress` signals before its closing signal |
| `Server.SuccessfulSignals` | platter/server.py:22-45 | an undisturbed transfer fires `start`, one `progress` per chunk, then `success`; `failure` never fires, and a cancel after the last write does not suppress `success` |
| `Server.SuccessfulBytes` | platter/server.py:32-39 | an undisturbed transfer writes the file's chunks in order, and together they are exactly the file |
| `Server.SuccessfulProgress` | platter/server.py:29-41 | an undisturbed transfer reports one value per chunk, the j-th carrying j + 1 increments of BUF_SIZE / size × 100 |
| `Server.ProgressIncreases` | platter/server.py:29-41 | the reported percentages strictly increase |
| `Server.CeilingProgress` | platter/server.py:29-40 | ceil(size / 16384) increments add up to at least 100, and to exactly 100 when 16384 divides the size |
| `Server.FinalProgress` | platter/server.py:29-41 | the last value of a complete transfer is at least 100, and exactly 100 only when the size is a multiple of BUF_SIZE |
| `Server.CanceledTransfer` | platter/server.py:34-38 | a cancel seen before read c (with c below the chunk count) writes exactly c chunks with one `progress` each, and fires neither `success` nor `failure` |
| `Server.FaultFails` | platter/server.py:42-43 | a read or write error at step k, before any cancel, fires `failure` after k `progress` signals and never `success` |
| `Server.FaultLeaves` | platter/server.py:34-43 | a read or write error at step k with nothing stopping the loop before is where the loop leaves, and it closes with `failure` |
| `Server.FailedBeforeStreaming` | platter/server.py:23-32 | a failed header flush, a zero size or a failed open fires `start` then `failure` and writes nothing |
| `Server.EveryTransferWrites` | platter/server.py:32-39 | whatever happens, the chunks written are the leading chunks of the file, in order |
| `Server.EveryTransferSignals` | platter/server.py:22-45 | every transfer fires `start`, then one `progress` per chunk written, then at most one of `failure` or `success`; `success` means the whole file was written; no terminal signal fires exactly when the loop saw the canceled flag |
| `Server.RegisterKeyed` | platter/server.py:71-72 | registering a File under its own source path and route keeps every table entry keyed by its File's own path and route |
| `Server.RegisterPaired` | platter/server.py:71-72 | registering a File whose source path and route are both new keeps the two tables holding the same Files |
| `Server.File.constructor` | platter/server.py:61-69 | a File records its server, path, basename, route "/" + code and size, and starts with an empty callback table |
| `Server.File.Register` | platter/server.py:71-72 | the File is added as `files[filepath]` and `paths[route]`; nothing else in the tables changes |
| `Server.PlatterServer.constructor` | platter/server.py:82-86 | a new server has two empty tables |
| `Server.PlatterServer.Serve` | platter/server.py:88-92 | a known path returns its File, which carries that path and this server, and leaves both tables unchanged; otherwise a new File is registered under the path and "/" + code; a failing size lookup raises OSError and registers nothing; the tables stay paired when the route is new |
| `Server.RequestHandler.constructor` | platter/server.py:12-13 | a new handler is not canceled and has open streams |
| `Server.RequestHandler.Cancel` | platter/server.py:47-58 | sets the flag and closes each stream that is still open, once; it never raises and a second call closes nothing; it sends and fires nothing |
| `Server.RequestHandler.DoGet` | platter/server.py:14-45 | an unknown route gets 404 and no signal; a known route produces exactly the log of `Served`; the handler ends canceled exactly when the cancel came before the loop left |
| `Server.RequestHandler.StreamFile` | platter/server.py:32-45 | the read-check-write loop produces exactly the log of the closed-form loop, with the percentage kept as the accumulated increment; it ends canceled exactly when the cancel came no later than the read at which it leaves |
| `Server.RequestHandler.StreamTurn` | platter/server.py:33-43 | one pass of the loop body either leaves the loop, doing what the closed-form loop does at that read, or writes the next chunk and fires its `progress` |

## Left out

- `Server.PlatterServer.constructor`: binding the socket and calling `find_ip` are not modelled. The address, which may be None, and the port are parameters; `Server.IpText` renders None as "None". `Network.FindIp` models the address lookup.
- `Server.RequestHandler.DoGet`: HTTP request parsing, `send_error`'s body, and the socket writes are not modelled. They are recorded as log actions. Exceptions raised by callbacks during `trigger` are not modelled.
- `Server.RequestHandler.DoGet`: the flag is only set between loop iterations, just before a read. This is the only point at which another thread's `cancel` can influence the loop.
- `Server.RequestHandler.DoGet`: requires a handler that is not canceled and has open streams, which is the state the HTTP server creates it in.
- `Server.File.constructor`: the random route token and the size on disk are parameters. The token comes from `os.urandom`; the size comes from `os.path.getsize`.
- `Server.File.constructor`: entering the File in the server's tables is the separate `Server.File.Register`, which `Serve` calls right after construction, as `__init__` does in its last two lines.
- `Server.RequestHandler.DoGet`: the signals are recorded as `Fire` actions in the handler's log; they are not dispatched through the File's own `EventHandler`. `Event.EventHandler.Trigger` states which callbacks each firing calls.
- `Event.EventHandler.Trigger`: the callbacks' own effects are not modelled, only which callbacks are called and with what. Changing the table while `trigger` runs is not modelled. Keyword arguments are not modelled.
- The order of calls within one group of a trigger is left open, since Python set iteration order is unspecified.
- `Network.FindIp`: the interface address lookup (`netifaces.ifaddresses`) is a parameter.
- `Network.FindIp`: the lookup parameter cannot raise. `netifaces.ifaddresses(iface)[netifaces.AF_INET]` (platter/network.py:21) raises KeyError for an interface without an IPv4 entry, and `find_ip` lets it propagate; the model does not capture that error.
- `Server.ResponseHeaders`: the `Server:` and `Date:` headers that `send_response(200)` adds are not listed separately; the `Status(200)` action stands for them.
- Reading `/proc/net/route` is replaced by its sequence of lines.
- `Decimal.ParseInt`: only an optional sign followed by ASCII digits is accepted. Python's `int` also allows surrounding whitespace, underscores between digits and non-ASCII Unicode decimal digits.
- `urllib.parse.quote` is a parameter.
- Floating-point rounding of the progress percentage is not modelled; the values are exact reals.
- The Qt front end, the D-Bus single-instance hand-off, `platter/util.py` and `setup.py` are not part of this model.
- Concurrency: thread-per-request and the background server thread are not modelled.
