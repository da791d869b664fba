/**
 * The single-file download engine: the server's two registration tables,
 * File registration, the URL and response headers of a File, and the
 * request handler that streams a File's bytes in fixed-size chunks while
 * firing "start", "progress", "success" and "failure" on it.
 *
 * The HTTP machinery is abstracted into a log of the actions a handler
 * performs (status line, headers, body writes, fired signals); the file's
 * bytes, its size, the URL-quoting function, the random route token, and
 * the moments at which I/O fails or another thread cancels are inputs.
 */
module Server {
  import opened Results
  import Decimal
  import Event

  /** Bytes are read from the file and written to the client in chunks of this size. */
  const BUF_SIZE: nat := 16 * 1024

  const SCHEME: string := "http://"
  const OCTET_STREAM: string := "application/octet-stream"
  const DISPOSITION_PREFIX: string := "attachment;filename="

  const START: string := "start"
  const PROGRESS: string := "progress"
  const SUCCESS: string := "success"
  const FAILURE: string := "failure"

  newtype byte = b: int | 0 <= b < 256

  function Min(a: nat, b: nat): nat {
    if a <= b then a else b
  }

  // ---------------------------------------------------------------------
  // Strings

  /** `os.path.basename(path)`: the longest suffix of path without '/'. */
  function Basename(path: string): (name: string)
    ensures |name| <= |path| && name == path[|path| - |name|..]
    ensures '/' !in name
    ensures |name| < |path| ==> path[|path| - |name| - 1] == '/'
  {
    if path == [] || path[|path| - 1] == '/' then []
    else
      var name := Basename(path[..|path| - 1]);
      assert path[..|path| - 1][|path| - 1 - |name|..] == path[|path| - 1 - |name|..|path| - 1];
      name + [path[|path| - 1]]
  }

  /** `"http://%s:%d%s" % (ip, port, route)`. */
  function FormatUrl(ip: string, port: nat, route: string): (u: string)
    ensures |u| >= |SCHEME| && u[..|SCHEME|] == SCHEME
    ensures |u| >= |route| && u[|u| - |route|..] == route
  {
    SCHEME + ip + ":" + Decimal.Show(port) + route
  }

  /** `"%s" % ip`: an address that find_ip could not determine prints as "None". */
  function IpText(ip: Option<string>): (text: string)
    ensures ip == Some(text) || (ip == None && text == "None")
  {
    if ip.Some? then ip.value else "None"
  }

  /** Index of the first c in s, or |s| when there is none. */
  function IndexOf(s: string, c: char): (i: nat)
    ensures i <= |s| && c !in s[..i]
    ensures i < |s| ==> s[i] == c
  {
    if s == [] then 0
    else if s[0] == c then 0
    else
      var i := 1 + IndexOf(s[1..], c);
      assert s[..i] == [s[0]] + s[1..][..i - 1];
      i
  }

  /** Length of the longest prefix of s made of decimal digits. */
  function DigitRun(s: string): (n: nat)
    ensures n <= |s| && Decimal.AllDigits(s[..n])
    ensures n < |s| ==> !Decimal.IsDigit(s[n])
  {
    if s == [] || !Decimal.IsDigit(s[0]) then 0
    else
      var n := 1 + DigitRun(s[1..]);
      assert s[..n] == [s[0]] + s[1..][..n - 1];
      n
  }

  /** Reads "http://host:port route" back into its three parts. */
  function SplitUrl(u: string): Option<(string, nat, string)> {
    if |u| < |SCHEME| || u[..|SCHEME|] != SCHEME then None
    else
      var rest := u[|SCHEME|..];
      var h := IndexOf(rest, ':');
      if h == |rest| then None
      else
        var after := rest[h + 1..];
        var d := DigitRun(after);
        if d == 0 then None
        else Some((rest[..h], Decimal.DigitsValue(after[..d]), after[d..]))
  }

  lemma {:induction false} IndexOfPrefix(s: string, t: string, c: char)
    requires c !in s
    ensures IndexOf(s + [c] + t, c) == |s|
  {
    if s != [] {
      assert (s + [c] + t)[1..] == s[1..] + [c] + t;
      IndexOfPrefix(s[1..], t, c);
    }
  }

  lemma {:induction false} DigitRunPrefix(s: string, t: string)
    requires Decimal.AllDigits(s)
    requires t == [] || !Decimal.IsDigit(t[0])
    ensures DigitRun(s + t) == |s|
  {
    if s != [] {
      assert (s + t)[1..] == s[1..] + t;
      DigitRunPrefix(s[1..], t);
    }
  }

  /**
   * A URL built from an address without ':' and a route that does not start
   * with a digit (a File's route starts with '/') gives back the address,
   * the port and the route.
   */
  lemma UrlRoundTrip(ip: string, port: nat, route: string)
    requires ':' !in ip
    requires route == [] || !Decimal.IsDigit(route[0])
    ensures SplitUrl(FormatUrl(ip, port, route)) == Some((ip, port, route))
  {
    var u := FormatUrl(ip, port, route);
    var digits := Decimal.Show(port);
    var rest := u[|SCHEME|..];
    assert u[..|SCHEME|] == SCHEME;
    assert rest == ip + [':'] + (digits + route);
    IndexOfPrefix(ip, digits + route, ':');
    assert rest[..|ip|] == ip;
    var after := rest[|ip| + 1..];
    assert after == digits + route;
    DigitRunPrefix(digits, route);
    assert after[..|digits|] == digits;
    assert after[|digits|..] == route;
    Decimal.ShowValue(port);
  }

  // ---------------------------------------------------------------------
  // What a request handler does, as a log

  /** One step a request handler takes towards the client or the File's observers. */
  datatype Action =
    | SendError(code: nat)                        // send_error(code)
    | Status(code: nat)                           // send_response(code)
    | Header(name: string, value: string)         // send_header(name, value)
    | EndHeaders                                  // end_headers(): the headers are flushed
    | Write(data: seq<byte>)                      // wfile.write(data)
    | Fire(signal: string, args: seq<Event.Value>) // File.trigger(signal, *args)

  /** The streams a handler closes when canceled. */
  datatype Stream = WFile | RFile

  /**
   * When the environment interferes with one transfer. Reads are numbered
   * from 0; read k returns the bytes from k * BUF_SIZE on.
   */
  datatype Schedule = Schedule(
    headersFail: bool,          // flushing the headers raises
    openFails: bool,            // open(f.filepath, 'rb') raises
    readFailsAt: Option<nat>,   // read number k raises
    writeFailsAt: Option<nat>,  // the write of chunk k raises
    cancelAt: Option<nat>)      // another thread calls cancel() just before read k

  function StartEvent(id: nat): Action { Fire(START, [Event.Ref(id)]) }
  function ProgressEvent(id: nat, percent: real): Action { Fire(PROGRESS, [Event.Ref(id), Event.Num(percent)]) }
  function SuccessEvent(id: nat): Action { Fire(SUCCESS, [Event.Ref(id)]) }
  function FailureEvent(id: nat): Action { Fire(FAILURE, [Event.Ref(id)]) }

  /**
   * The status line and headers of a download response, in the order they
   * are sent: status first, three headers, then the end of the headers.
   */
  function ResponseHeaders(basename: string, size: nat, quote: string -> string): (h: seq<Action>)
    ensures |h| == 5 && h[0] == Status(200) && h[4] == EndHeaders
    ensures forall i :: 1 <= i < 4 ==> h[i].Header?
  {
    [ Status(200),
      Header("Content-Type", OCTET_STREAM),
      Header("Content-Disposition", DISPOSITION_PREFIX + quote(basename)),
      Header("Content-Length", Decimal.Show(size)),
      EndHeaders ]
  }

  /** The percentage one chunk adds: BUF_SIZE / size * 100 (exact, not floating point). */
  function Increment(size: nat): (inc: real)
    requires size > 0
    ensures inc > 0.0 && inc * (size as real) == (BUF_SIZE as real) * 100.0
  {
    (BUF_SIZE as real) / (size as real) * 100.0
  }

  /** The percentage after m chunks: the increment added m times, as `percent += increment` does. */
  function Accumulated(inc: real, m: nat): (p: real)
    ensures m == 0 ==> p == 0.0
    ensures inc > 0.0 ==> (p > 0.0 <==> m > 0)
  {
    if m == 0 then 0.0 else Accumulated(inc, m - 1) + inc
  }

  /** Adding the increment m times is multiplying it by m. */
  lemma {:induction false} AccumulatedProduct(inc: real, m: nat)
    ensures Accumulated(inc, m) == m as real * inc
  {
    if m > 0 {
      AccumulatedProduct(inc, m - 1);
    }
  }

  /** With a positive increment the percentage strictly grows from chunk to chunk. */
  lemma {:induction false} AccumulatedIncreases(inc: real, i: nat, j: nat)
    requires inc > 0.0 && i < j
    ensures Accumulated(inc, i) < Accumulated(inc, j)
  {
    if i < j - 1 {
      AccumulatedIncreases(inc, i, j - 1);
    }
  }

  /** A body write or a "progress" signal: what one turn of the loop does. */
  predicate LoopStep(a: Action) {
    a.Write? || (a.Fire? && a.signal == PROGRESS)
  }

  /** A "success" or "failure" signal. */
  predicate Terminal(a: Action) {
    a.Fire? && (a.signal == SUCCESS || a.signal == FAILURE)
  }

  /** Loop steps only, except that the last action may be terminal. */
  predicate LoopShape(log: seq<Action>) {
    log == [] || (|log| == 1 && Terminal(log[0])) || (LoopStep(log[0]) && LoopShape(log[1..]))
  }

  /**
   * The loop of do_GET from read k on, where rest is what the file still
   * holds: read, stop on an empty read, return silently once canceled,
   * otherwise write the chunk and report the accumulated percentage. It
   * only writes and reports progress, except that its very last action
   * may be a "success" or "failure".
   */
  function StreamFrom(id: nat, rest: seq<byte>, k: nat, inc: real, sched: Schedule): (r: seq<Action>)
    ensures LoopShape(r)
    decreases |rest|
  {
    if sched.readFailsAt == Some(k) then [FailureEvent(id)]
    else if rest == [] then [SuccessEvent(id)]
    else if sched.cancelAt == Some(k) then []
    else if sched.writeFailsAt == Some(k) then [FailureEvent(id)]
    else
      var n := Min(BUF_SIZE, |rest|);
      var tail := StreamFrom(id, rest[n..], k + 1, inc, sched);
      var r := [Write(rest[..n]), ProgressEvent(id, Accumulated(inc, k + 1))] + tail;
      assert r[1..] == [ProgressEvent(id, Accumulated(inc, k + 1))] + tail && r[1..][1..] == tail;
      r
  }

  /** One turn of the loop that writes a chunk. */
  lemma StreamStep(id: nat, rest: seq<byte>, k: nat, inc: real, sched: Schedule)
    requires rest != [] && sched.readFailsAt != Some(k) && sched.cancelAt != Some(k) && sched.writeFailsAt != Some(k)
    ensures var n := Min(BUF_SIZE, |rest|);
      StreamFrom(id, rest, k, inc, sched)
        == [Write(rest[..n]), ProgressEvent(id, Accumulated(inc, k + 1))] + StreamFrom(id, rest[n..], k + 1, inc, sched) &&
      LastRead(rest, k, sched) == LastRead(rest[n..], k + 1, sched)
  {
  }

  /** The four ways the loop can leave at read k, and what it does then. */
  lemma StreamExit(id: nat, rest: seq<byte>, k: nat, inc: real, sched: Schedule)
    ensures sched.readFailsAt == Some(k) ==>
      StreamFrom(id, rest, k, inc, sched) == [FailureEvent(id)] && LastRead(rest, k, sched) == k
    ensures sched.readFailsAt != Some(k) && rest == [] ==>
      StreamFrom(id, rest, k, inc, sched) == [SuccessEvent(id)] && LastRead(rest, k, sched) == k
    ensures sched.readFailsAt != Some(k) && rest != [] && sched.cancelAt == Some(k) ==>
      StreamFrom(id, rest, k, inc, sched) == [] && LastRead(rest, k, sched) == k
    ensures sched.readFailsAt != Some(k) && rest != [] && sched.cancelAt != Some(k) && sched.writeFailsAt == Some(k) ==>
      StreamFrom(id, rest, k, inc, sched) == [FailureEvent(id)] && LastRead(rest, k, sched) == k
  {
  }

  /** Index of the read at which the loop of StreamFrom leaves. */
  function LastRead(rest: seq<byte>, k: nat, sched: Schedule): (last: nat)
    ensures k <= last <= k + |Chunks(rest)|
    decreases |rest|
  {
    if sched.readFailsAt == Some(k) || rest == [] || sched.cancelAt == Some(k) || sched.writeFailsAt == Some(k) then k
    else LastRead(rest[Min(BUF_SIZE, |rest|)..], k + 1, sched)
  }

  /** The headers could be sent, the increment computed and the file opened. */
  predicate ReachesLoop(size: nat, sched: Schedule) {
    !sched.headersFail && size > 0 && !sched.openFails
  }

  /**
   * Everything do_GET does for a File found in the table: fire "start",
   * send the headers, then stream. A zero size raises ZeroDivisionError when
   * the increment is computed; like every other exception after "start" it
   * is reported as "failure". "start" comes before the status line, and
   * after the headers there are only writes and "progress" signals, save
   * that the last action may be "success" or "failure".
   */
  function Served(id: nat, basename: string, size: nat, content: seq<byte>,
                  quote: string -> string, sched: Schedule): (r: seq<Action>)
    ensures |r| >= 6 && r[0] == StartEvent(id) && r[1] == Status(200) && r[5] == EndHeaders
    ensures LoopShape(r[6..])
  {
    [StartEvent(id)] + ResponseHeaders(basename, size, quote) +
    (if !ReachesLoop(size, sched) then [FailureEvent(id)]
     else StreamFrom(id, content, 0, Increment(size), sched))
  }

  /** Whether cancel() runs during the transfer, before the loop has left. */
  predicate CancelRuns(size: nat, content: seq<byte>, sched: Schedule) {
    ReachesLoop(size, sched) && sched.cancelAt.Some? && sched.cancelAt.value <= LastRead(content, 0, sched)
  }

  // ---------------------------------------------------------------------
  // Views of a log

  /** The signals fired, in order. */
  function Signals(log: seq<Action>): seq<string> {
    if log == [] then []
    else (if log[0].Fire? then [log[0].signal] else []) + Signals(log[1..])
  }

  /** The chunks written to the client, in order. */
  function WriteData(log: seq<Action>): seq<seq<byte>> {
    if log == [] then []
    else (if log[0].Write? then [log[0].data] else []) + WriteData(log[1..])
  }

  /** The percentages carried by the "progress" signals, in order. */
  function ProgressValues(log: seq<Action>): seq<real> {
    if log == [] then []
    else
      (if log[0].Fire? && log[0].signal == PROGRESS && |log[0].args| >= 2 && log[0].args[1].Num?
       then [log[0].args[1].x] else [])
      + ProgressValues(log[1..])
  }

  lemma {:induction false} LogAppend(a: seq<Action>, b: seq<Action>)
    ensures Signals(a + b) == Signals(a) + Signals(b)
    ensures WriteData(a + b) == WriteData(a) + WriteData(b)
    ensures ProgressValues(a + b) == ProgressValues(a) + ProgressValues(b)
  {
    if a != [] {
      assert (a + b)[0] == a[0];
      assert (a + b)[1..] == a[1..] + b;
      LogAppend(a[1..], b);
    } else {
      assert a + b == b;
    }
  }

  function Repeat(s: string, n: nat): (r: seq<string>)
    ensures |r| == n && forall i :: 0 <= i < n ==> r[i] == s
  {
    if n == 0 then [] else [s] + Repeat(s, n - 1)
  }

  // ---------------------------------------------------------------------
  // Chunking, as a reference definition

  /** The file's bytes cut into BUF_SIZE pieces; only the last may be shorter. */
  function Chunks(data: seq<byte>): seq<seq<byte>>
    decreases |data|
  {
    if data == [] then [] else [data[..Min(BUF_SIZE, |data|)]] + Chunks(data[Min(BUF_SIZE, |data|)..])
  }

  function Flatten(chunks: seq<seq<byte>>): seq<byte> {
    if chunks == [] then [] else chunks[0] + Flatten(chunks[1..])
  }

  /** The chunks, put back together, are the data. */
  lemma {:induction false} ChunksFlatten(data: seq<byte>)
    ensures Flatten(Chunks(data)) == data
  {
    if data != [] {
      var n := Min(BUF_SIZE, |data|);
      ChunksFlatten(data[n..]);
      assert data[..n] + data[n..] == data;
    }
  }

  /**
   * There are ceil(|data| / BUF_SIZE) chunks; all but the last hold exactly
   * BUF_SIZE bytes and the last holds between 1 and BUF_SIZE.
   */
  lemma {:induction false} ChunkSizes(data: seq<byte>)
    ensures |Chunks(data)| == (|data| + BUF_SIZE - 1) / BUF_SIZE
    ensures forall j :: 0 <= j < |Chunks(data)| - 1 ==> |Chunks(data)[j]| == BUF_SIZE
    ensures Chunks(data) != [] ==> 0 < |Chunks(data)[|Chunks(data)| - 1]| <= BUF_SIZE
  {
    if data != [] {
      var n := Min(BUF_SIZE, |data|);
      ChunkSizes(data[n..]);
      if |data| > BUF_SIZE {
        assert (|data| + BUF_SIZE - 1) / BUF_SIZE == (|data| - BUF_SIZE + BUF_SIZE - 1) / BUF_SIZE + 1;
      }
    }
  }

  // ---------------------------------------------------------------------
  // The streaming loop in closed form

  /** Read j ends the loop, when the empty read is number last. */
  predicate Stops(sched: Schedule, j: nat, last: nat) {
    sched.readFailsAt == Some(j) || j == last || sched.cancelAt == Some(j) || sched.writeFailsAt == Some(j)
  }

  /** The loop leaves at the first read that stops it. */
  lemma {:induction false} LastReadLeast(rest: seq<byte>, k: nat, sched: Schedule)
    ensures Stops(sched, LastRead(rest, k, sched), k + |Chunks(rest)|)
    ensures forall j :: k <= j < LastRead(rest, k, sched) ==>
      sched.readFailsAt != Some(j) && sched.cancelAt != Some(j) && sched.writeFailsAt != Some(j)
  {
    if !(sched.readFailsAt == Some(k) || rest == [] || sched.cancelAt == Some(k) || sched.writeFailsAt == Some(k)) {
      LastReadLeast(rest[Min(BUF_SIZE, |rest|)..], k + 1, sched);
    }
  }

  /** The signals that close a loop leaving at read last, after m chunks of the n. */
  function Closing(sched: Schedule, last: nat, m: nat, n: nat): seq<string> {
    if sched.readFailsAt == Some(last) then [FAILURE]
    else if m == n then [SUCCESS]
    else if sched.cancelAt == Some(last) then []
    else [FAILURE]
  }

  /** The views of a log that starts with one chunk written and its "progress". */
  lemma StepViews(id: nat, chunk: seq<byte>, percent: real, tail: seq<Action>)
    ensures var log := [Write(chunk), ProgressEvent(id, percent)] + tail;
      Signals(log) == [PROGRESS] + Signals(tail) &&
      WriteData(log) == [chunk] + WriteData(tail) &&
      ProgressValues(log) == [percent] + ProgressValues(tail)
  {
    var log := [Write(chunk), ProgressEvent(id, percent)] + tail;
    assert log[1..][1..] == tail;
  }

  /** The chunks the loop writes from read k on: the first LastRead - k chunks of rest. */
  lemma {:induction false} StreamWrites(id: nat, rest: seq<byte>, k: nat, inc: real, sched: Schedule)
    ensures WriteData(StreamFrom(id, rest, k, inc, sched)) == Chunks(rest)[..LastRead(rest, k, sched) - k]
  {
    if rest != [] && sched.readFailsAt != Some(k) && sched.cancelAt != Some(k) && sched.writeFailsAt != Some(k) {
      var n := Min(BUF_SIZE, |rest|);
      StreamWrites(id, rest[n..], k + 1, inc, sched);
      StepViews(id, rest[..n], Accumulated(inc, k + 1), StreamFrom(id, rest[n..], k + 1, inc, sched));
      ChunksPrefix(rest, LastRead(rest, k, sched) - k);
    } else {
      assert WriteData([FailureEvent(id)]) == [];
      assert WriteData([SuccessEvent(id)]) == [];
    }
  }

  /** The first m chunks of non-empty data: its first chunk, then the first m - 1 chunks of the rest. */
  lemma ChunksPrefix(data: seq<byte>, m: nat)
    requires data != [] && 1 <= m <= |Chunks(data)|
    ensures var n := Min(BUF_SIZE, |data|);
      Chunks(data)[..m] == [data[..n]] + Chunks(data[n..])[..m - 1]
  {
  }

  /**
   * The signals the loop fires from read k on: one "progress" per chunk
   * written, then "failure", "success" or nothing as Closing says.
   */
  lemma {:induction false} StreamSignals(id: nat, rest: seq<byte>, k: nat, inc: real, sched: Schedule)
    ensures Signals(StreamFrom(id, rest, k, inc, sched))
         == Repeat(PROGRESS, LastRead(rest, k, sched) - k)
          + Closing(sched, LastRead(rest, k, sched), LastRead(rest, k, sched) - k, |Chunks(rest)|)
  {
    if rest != [] && sched.readFailsAt != Some(k) && sched.cancelAt != Some(k) && sched.writeFailsAt != Some(k) {
      StreamSignals(id, rest[Min(BUF_SIZE, |rest|)..], k + 1, inc, sched);
      SignalsStep(id, rest, k, inc, sched);
    } else {
      ExitSignals(id, rest, k, inc, sched);
    }
  }

  /** One chunk written adds one "progress" in front of what the rest of the loop fires. */
  lemma SignalsStep(id: nat, rest: seq<byte>, k: nat, inc: real, sched: Schedule)
    requires rest != [] && sched.readFailsAt != Some(k) && sched.cancelAt != Some(k) && sched.writeFailsAt != Some(k)
    requires var n := Min(BUF_SIZE, |rest|); var last := LastRead(rest[n..], k + 1, sched);
      Signals(StreamFrom(id, rest[n..], k + 1, inc, sched))
        == Repeat(PROGRESS, last - (k + 1)) + Closing(sched, last, last - (k + 1), |Chunks(rest[n..])|)
    ensures Signals(StreamFrom(id, rest, k, inc, sched))
         == Repeat(PROGRESS, LastRead(rest, k, sched) - k)
          + Closing(sched, LastRead(rest, k, sched), LastRead(rest, k, sched) - k, |Chunks(rest)|)
  {
    var n := Min(BUF_SIZE, |rest|);
    var tail := StreamFrom(id, rest[n..], k + 1, inc, sched);
    StreamStep(id, rest, k, inc, sched);
    StepViews(id, rest[..n], Accumulated(inc, k + 1), tail);
    var last := LastRead(rest, k, sched);
    var m: nat := last - (k + 1);
    var closing := Closing(sched, last, m, |Chunks(rest[n..])|);
    assert closing == Closing(sched, last, m + 1, |Chunks(rest)|);
    RepeatCons(PROGRESS, m, closing);
  }

  lemma RepeatCons(s: string, m: nat, t: seq<string>)
    ensures [s] + (Repeat(s, m) + t) == Repeat(s, m + 1) + t
  {
    assert Repeat(s, m + 1) == [s] + Repeat(s, m);
  }

  /** Where the loop leaves at read k itself, it fires only what Closing says. */
  lemma ExitSignals(id: nat, rest: seq<byte>, k: nat, inc: real, sched: Schedule)
    requires rest == [] || sched.readFailsAt == Some(k) || sched.cancelAt == Some(k) || sched.writeFailsAt == Some(k)
    ensures LastRead(rest, k, sched) == k
    ensures Signals(StreamFrom(id, rest, k, inc, sched)) == Closing(sched, k, 0, |Chunks(rest)|)
  {
    assert Signals([FailureEvent(id)]) == [FAILURE];
    assert Signals([SuccessEvent(id)]) == [SUCCESS];
  }

  /** The j-th "progress" from read k on carries k + j + 1 increments. */
  lemma {:induction false} StreamProgress(id: nat, rest: seq<byte>, k: nat, inc: real, sched: Schedule)
    ensures |ProgressValues(StreamFrom(id, rest, k, inc, sched))| == LastRead(rest, k, sched) - k
    ensures forall j :: 0 <= j < LastRead(rest, k, sched) - k ==>
      ProgressValues(StreamFrom(id, rest, k, inc, sched))[j] == Accumulated(inc, k + j + 1)
  {
    if rest != [] && sched.readFailsAt != Some(k) && sched.cancelAt != Some(k) && sched.writeFailsAt != Some(k) {
      var n := Min(BUF_SIZE, |rest|);
      StreamProgress(id, rest[n..], k + 1, inc, sched);
      StepViews(id, rest[..n], Accumulated(inc, k + 1), StreamFrom(id, rest[n..], k + 1, inc, sched));
    } else {
      assert ProgressValues([FailureEvent(id)]) == [];
      assert ProgressValues([SuccessEvent(id)]) == [];
    }
  }

  /** A log that fires nothing and writes nothing has empty views. */
  lemma {:induction false} SilentLog(log: seq<Action>)
    requires forall i :: 0 <= i < |log| ==> !log[i].Fire? && !log[i].Write?
    ensures Signals(log) == [] && WriteData(log) == [] && ProgressValues(log) == []
  {
    if log != [] {
      SilentLog(log[1..]);
    }
  }

  lemma SingleFire(a: Action)
    requires a.Fire? && a.signal != PROGRESS
    ensures Signals([a]) == [a.signal] && WriteData([a]) == [] && ProgressValues([a]) == []
  {
    assert [a][1..] == [];
  }

  /** What the whole loop writes and fires, from the first read on. */
  lemma LoopOutcome(id: nat, content: seq<byte>, inc: real, sched: Schedule)
    ensures var out := StreamFrom(id, content, 0, inc, sched);
      var m := LastRead(content, 0, sched);
      WriteData(out) == Chunks(content)[..m] && |WriteData(out)| == m &&
      Signals(out) == Repeat(PROGRESS, m) + Closing(sched, m, m, |Chunks(content)|)
  {
    StreamWrites(id, content, 0, inc, sched);
    StreamSignals(id, content, 0, inc, sched);
  }

  /** The loop closes with nothing, one "failure" or, after the last chunk, one "success". */
  lemma ClosingCases(sched: Schedule, m: nat, n: nat)
    requires m <= n
    ensures Closing(sched, m, m, n) == [] || Closing(sched, m, m, n) == [FAILURE] ||
            (Closing(sched, m, m, n) == [SUCCESS] && m == n)
    ensures Closing(sched, m, m, n) == [] <==>
            (sched.cancelAt == Some(m) && sched.readFailsAt != Some(m) && m < n)
  {
  }

  lemma RepeatWithout(s: string, n: nat, t: string)
    requires s != t
    ensures t !in Repeat(s, n)
  {
  }

  /**
   * The three views of a transfer of a found File: "start", then either a
   * lone "failure" (headers, size or open failed) or what the loop does.
   */
  lemma {:induction false} ServedViews(id: nat, basename: string, size: nat, content: seq<byte>,
                                       quote: string -> string, sched: Schedule)
    ensures var log := Served(id, basename, size, content, quote, sched);
      var rest := if ReachesLoop(size, sched) then StreamFrom(id, content, 0, Increment(size), sched)
                  else [FailureEvent(id)];
      Signals(log) == [START] + Signals(rest) &&
      WriteData(log) == WriteData(rest) &&
      ProgressValues(log) == ProgressValues(rest)
  {
    var headers := ResponseHeaders(basename, size, quote);
    var rest := if ReachesLoop(size, sched) then StreamFrom(id, content, 0, Increment(size), sched)
                else [FailureEvent(id)];
    SilentLog(headers);
    SingleFire(StartEvent(id));
    LogAppend([StartEvent(id)], headers);
    LogAppend([StartEvent(id)] + headers, rest);
  }

  // ---------------------------------------------------------------------
  // Properties of one transfer

  /** No fault at any read or write, and no cancel before the final (empty) read. */
  predicate Undisturbed(content: seq<byte>, sched: Schedule) {
    sched.readFailsAt.None? && sched.writeFailsAt.None? &&
    (sched.cancelAt.None? || sched.cancelAt.value >= |Chunks(content)|)
  }

  /**
   * An undisturbed transfer fires "start", one "progress" per chunk and
   * then "success"; "failure" never fires. A cancel that comes only after
   * the last chunk was written does not suppress "success".
   */
  lemma SuccessfulSignals(id: nat, basename: string, size: nat, content: seq<byte>,
                          quote: string -> string, sched: Schedule)
    requires ReachesLoop(size, sched) && Undisturbed(content, sched)
    ensures Signals(Served(id, basename, size, content, quote, sched))
         == [START] + Repeat(PROGRESS, |Chunks(content)|) + [SUCCESS]
    ensures FAILURE !in Signals(Served(id, basename, size, content, quote, sched))
  {
    var n := |Chunks(content)|;
    assert LastRead(content, 0, sched) == n by {
      LastReadLeast(content, 0, sched);
    }
    LoopOutcome(id, content, Increment(size), sched);
    assert Closing(sched, n, n, n) == [SUCCESS];
    ServedViews(id, basename, size, content, quote, sched);
    assert [START] + (Repeat(PROGRESS, n) + [SUCCESS]) == [START] + Repeat(PROGRESS, n) + [SUCCESS];
    RepeatWithout(PROGRESS, n, FAILURE);
  }

  /**
   * An undisturbed transfer writes the file's chunks in order (every one
   * BUF_SIZE bytes except possibly the last), and together they are
   * exactly the file's bytes.
   */
  lemma SuccessfulBytes(id: nat, basename: string, size: nat, content: seq<byte>,
                        quote: string -> string, sched: Schedule)
    requires ReachesLoop(size, sched) && Undisturbed(content, sched)
    ensures WriteData(Served(id, basename, size, content, quote, sched)) == Chunks(content)
    ensures Flatten(WriteData(Served(id, basename, size, content, quote, sched))) == content
  {
    var n := |Chunks(content)|;
    LastReadLeast(content, 0, sched);
    assert LastRead(content, 0, sched) == n;
    StreamWrites(id, content, 0, Increment(size), sched);
    assert Chunks(content)[..n] == Chunks(content);
    ServedViews(id, basename, size, content, quote, sched);
    ChunksFlatten(content);
  }

  /** Undisturbed, the loop reports k increments after its k-th chunk, for every chunk. */
  lemma UndisturbedProgress(id: nat, content: seq<byte>, inc: real, sched: Schedule)
    requires Undisturbed(content, sched)
    ensures var values := ProgressValues(StreamFrom(id, content, 0, inc, sched));
      |values| == |Chunks(content)| &&
      (forall j :: 0 <= j < |values| ==> values[j] == Accumulated(inc, j + 1))
  {
    LastReadLeast(content, 0, sched);
    assert LastRead(content, 0, sched) == |Chunks(content)|;
    StreamProgress(id, content, 0, inc, sched);
  }

  /**
   * In an undisturbed transfer there is one "progress" per chunk, and the
   * j-th (from 0) carries j + 1 increments of BUF_SIZE / size * 100
   * (AccumulatedProduct: (j + 1) * Increment(size)).
   */
  lemma SuccessfulProgress(id: nat, basename: string, size: nat, content: seq<byte>,
                           quote: string -> string, sched: Schedule)
    requires ReachesLoop(size, sched) && Undisturbed(content, sched)
    ensures var values := ProgressValues(Served(id, basename, size, content, quote, sched));
      |values| == |Chunks(content)| &&
      (forall j :: 0 <= j < |values| ==> values[j] == Accumulated(Increment(size), j + 1))
  {
    var values := ProgressValues(Served(id, basename, size, content, quote, sched));
    assert values == ProgressValues(StreamFrom(id, content, 0, Increment(size), sched)) by {
      ServedViews(id, basename, size, content, quote, sched);
    }
    UndisturbedProgress(id, content, Increment(size), sched);
  }

  /** In an undisturbed transfer the reported percentages strictly increase. */
  lemma ProgressIncreases(id: nat, basename: string, size: nat, content: seq<byte>,
                          quote: string -> string, sched: Schedule)
    requires ReachesLoop(size, sched) && Undisturbed(content, sched)
    ensures var values := ProgressValues(Served(id, basename, size, content, quote, sched));
      forall i, j :: 0 <= i < j < |values| ==> values[i] < values[j]
  {
    SuccessfulProgress(id, basename, size, content, quote, sched);
    AccumulatedSeqIncreases(ProgressValues(Served(id, basename, size, content, quote, sched)), Increment(size));
  }

  /** Percentages that accumulate a positive increment one step per entry strictly increase. */
  lemma AccumulatedSeqIncreases(values: seq<real>, inc: real)
    requires inc > 0.0
    requires forall j :: 0 <= j < |values| ==> values[j] == Accumulated(inc, j + 1)
    ensures forall i, j :: 0 <= i < j < |values| ==> values[i] < values[j]
  {
    forall i, j | 0 <= i < j < |values|
      ensures values[i] < values[j]
    {
      AccumulatedIncreases(inc, i + 1, j + 1);
    }
  }

  /**
   * A cancel observed after c chunks (before the last one is read) stops the
   * transfer silently: exactly the first c chunks were written, one
   * "progress" each, and neither "success" nor "failure" fires.
   */
  lemma CanceledTransfer(id: nat, basename: string, size: nat, content: seq<byte>,
                         quote: string -> string, sched: Schedule)
    requires ReachesLoop(size, sched)
    requires sched.readFailsAt.None? && sched.writeFailsAt.None?
    requires sched.cancelAt.Some? && sched.cancelAt.value < |Chunks(content)|
    ensures var log := Served(id, basename, size, content, quote, sched);
      Signals(log) == [START] + Repeat(PROGRESS, sched.cancelAt.value) &&
      SUCCESS !in Signals(log) && FAILURE !in Signals(log) &&
      WriteData(log) == Chunks(content)[..sched.cancelAt.value]
    ensures CancelRuns(size, content, sched)
  {
    var c := sched.cancelAt.value;
    LastReadLeast(content, 0, sched);
    assert LastRead(content, 0, sched) == c;
    LoopOutcome(id, content, Increment(size), sched);
    assert Closing(sched, c, c, |Chunks(content)|) == [];
    ServedViews(id, basename, size, content, quote, sched);
    RepeatWithout(PROGRESS, c, SUCCESS);
    RepeatWithout(PROGRESS, c, FAILURE);
  }

  /** Whatever happens, the chunks written are the first ones of the file, in order. */
  lemma EveryTransferWrites(id: nat, basename: string, size: nat, content: seq<byte>,
                            quote: string -> string, sched: Schedule)
    ensures var written := WriteData(Served(id, basename, size, content, quote, sched));
      |written| <= |Chunks(content)| && written == Chunks(content)[..|written|]
  {
    ServedViews(id, basename, size, content, quote, sched);
    if ReachesLoop(size, sched) {
      StreamWrites(id, content, 0, Increment(size), sched);
    }
  }

  /**
   * Every transfer of a found File fires "start" first and then only
   * "progress" signals, one per chunk written, possibly followed by exactly
   * one "success" or "failure" as the very last signal; "success" means
   * the whole file was written. No terminal signal fires exactly when the
   * loop saw the canceled flag.
   */
  lemma EveryTransferSignals(id: nat, basename: string, size: nat, content: seq<byte>,
                             quote: string -> string, sched: Schedule)
    ensures var log := Served(id, basename, size, content, quote, sched);
      var m := |WriteData(log)|;
      Signals(log) == [START] + Repeat(PROGRESS, m) ||
      Signals(log) == [START] + Repeat(PROGRESS, m) + [FAILURE] ||
      (Signals(log) == [START] + Repeat(PROGRESS, m) + [SUCCESS] && Flatten(WriteData(log)) == content)
    ensures var log := Served(id, basename, size, content, quote, sched);
      Signals(log) == [START] + Repeat(PROGRESS, |WriteData(log)|) <==> CancelObserved(size, content, sched)
  {
    ServedViews(id, basename, size, content, quote, sched);
    if ReachesLoop(size, sched) {
      var m := LastRead(content, 0, sched);
      var n := |Chunks(content)|;
      LoopOutcome(id, content, Increment(size), sched);
      ClosingCases(sched, m, n);
      if m == n {
        assert Chunks(content)[..m] == Chunks(content);
        ChunksFlatten(content);
      }
    } else {
      SingleFire(FailureEvent(id));
    }
  }

  /** The loop left through the canceled flag (not through a fault or the end of the file). */
  predicate CancelObserved(size: nat, content: seq<byte>, sched: Schedule) {
    ReachesLoop(size, sched) &&
    var last := LastRead(content, 0, sched);
    sched.cancelAt == Some(last) && sched.readFailsAt != Some(last) && last < |Chunks(content)|
  }

  /**
   * A File registered with size 0, a failed header flush or a file that
   * cannot be opened: "start" then "failure", and no byte is written.
   */
  lemma FailedBeforeStreaming(id: nat, basename: string, size: nat, content: seq<byte>,
                              quote: string -> string, sched: Schedule)
    requires !ReachesLoop(size, sched)
    ensures var log := Served(id, basename, size, content, quote, sched);
      Signals(log) == [START, FAILURE] && WriteData(log) == [] && ProgressValues(log) == []
  {
    ServedViews(id, basename, size, content, quote, sched);
    SingleFire(FailureEvent(id));
  }

  /** A fault at read at, with nothing stopping the loop before, is where the loop leaves, with "failure". */
  lemma FaultLeaves(content: seq<byte>, sched: Schedule, at: nat)
    requires (sched.readFailsAt == Some(at) && at <= |Chunks(content)|) ||
             (sched.writeFailsAt == Some(at) && at < |Chunks(content)| && sched.readFailsAt != Some(at) && sched.cancelAt != Some(at))
    requires forall j :: 0 <= j < at ==> sched.readFailsAt != Some(j) && sched.writeFailsAt != Some(j) && sched.cancelAt != Some(j)
    ensures LastRead(content, 0, sched) == at
    ensures Closing(sched, at, at, |Chunks(content)|) == [FAILURE]
  {
    LastReadLeast(content, 0, sched);
    if LastRead(content, 0, sched) < at {
      assert false;
    }
  }

  /**
   * A read or write that raises before any cancel and before the loop
   * would otherwise end turns the transfer into "failure", never "success".
   */
  lemma FaultFails(id: nat, basename: string, size: nat, content: seq<byte>,
                   quote: string -> string, sched: Schedule, at: nat)
    requires ReachesLoop(size, sched)
    requires (sched.readFailsAt == Some(at) && at <= |Chunks(content)|) ||
             (sched.writeFailsAt == Some(at) && at < |Chunks(content)| && sched.readFailsAt != Some(at) && sched.cancelAt != Some(at))
    requires forall j :: 0 <= j < at ==> sched.readFailsAt != Some(j) && sched.writeFailsAt != Some(j) && sched.cancelAt != Some(j)
    ensures var log := Served(id, basename, size, content, quote, sched);
      Signals(log) == [START] + Repeat(PROGRESS, at) + [FAILURE] && SUCCESS !in Signals(log)
  {
    FaultLeaves(content, sched, at);
    LoopOutcome(id, content, Increment(size), sched);
    ServedViews(id, basename, size, content, quote, sched);
    assert [START] + (Repeat(PROGRESS, at) + [FAILURE]) == [START] + Repeat(PROGRESS, at) + [FAILURE];
    RepeatWithout(PROGRESS, at, SUCCESS);
  }

  /** A ratio of positive reals compared with 1. */
  lemma RatioAtLeastOne(x: real, y: real)
    requires y > 0.0 && x >= y
    ensures x / y >= 1.0
    ensures x / y == 1.0 <==> x == y
  {
  }

  lemma MulDiv(n: real, b: real, s: real)
    requires s > 0.0
    ensures n * (b / s) == (n * b) / s
  {
  }

  /** ceil(size / BUF_SIZE) chunks cover size bytes, exactly when BUF_SIZE divides size. */
  lemma CeilBounds(size: nat)
    requires size > 0
    ensures var n := (size + BUF_SIZE - 1) / BUF_SIZE;
      n >= 1 && n * BUF_SIZE >= size && (n * BUF_SIZE == size <==> size % BUF_SIZE == 0)
  {
  }

  /** n increments are the fraction n * BUF_SIZE / size, as a percentage. */
  lemma ScaledIncrement(n: nat, size: nat)
    requires size > 0
    ensures n as real * Increment(size) == ((n * BUF_SIZE) as real / size as real) * 100.0
  {
    assert n as real * (BUF_SIZE as real) == (n * BUF_SIZE) as real;
    MulDiv(n as real, BUF_SIZE as real, size as real);
  }

  /** Chunks that cover the file add up to at least 100 percent; exactly 100 when they cover no more. */
  lemma CoveringIncrements(n: nat, size: nat)
    requires size > 0 && n * BUF_SIZE >= size
    ensures n as real * Increment(size) >= 100.0
    ensures n as real * Increment(size) == 100.0 <==> n * BUF_SIZE == size
  {
    ScaledIncrement(n, size);
    RatioAtLeastOne((n * BUF_SIZE) as real, size as real);
  }

  /**
   * The last "progress" of a complete transfer of a file whose registered
   * size is its length is at least 100, and exactly 100 only when the size
   * is a multiple of BUF_SIZE: a short last chunk still adds a whole
   * increment.
   */
  lemma FinalProgress(content: seq<byte>)
    requires |content| > 0
    ensures |Chunks(content)| >= 1
    ensures Accumulated(Increment(|content|), |Chunks(content)|) >= 100.0
    ensures Accumulated(Increment(|content|), |Chunks(content)|) == 100.0 <==> |content| % BUF_SIZE == 0
  {
    ChunkSizes(content);
    CeilingProgress(|content|);
  }

  /** ceil(size / BUF_SIZE) increments reach at least 100, and exactly 100 when BUF_SIZE divides size. */
  lemma CeilingProgress(size: nat)
    requires size > 0
    ensures var n := (size + BUF_SIZE - 1) / BUF_SIZE;
      n >= 1 && Accumulated(Increment(size), n) >= 100.0 &&
      (Accumulated(Increment(size), n) == 100.0 <==> size % BUF_SIZE == 0)
  {
    var n := (size + BUF_SIZE - 1) / BUF_SIZE;
    CeilBounds(size);
    AccumulatedProduct(Increment(size), n);
    CoveringIncrements(n, size);
  }

  /**
   * The response of a File registered from filepath: status 200, then the
   * octet-stream content type, then an attachment disposition naming the
   * quoted last path component (Basename), then a Content-Length that reads back as
   * the registered size, then the end of the headers.
   */
  lemma DownloadHeaders(filepath: string, size: nat, quote: string -> string)
    ensures var h := ResponseHeaders(Basename(filepath), size, quote);
      |h| == 5 && h[0] == Status(200) && h[4] == EndHeaders &&
      h[1] == Header("Content-Type", OCTET_STREAM) &&
      h[2] == Header("Content-Disposition", DISPOSITION_PREFIX + quote(Basename(filepath))) &&
      h[3].Header? && h[3].name == "Content-Length" && Decimal.ParseInt(h[3].value) == Ok(size)
  {
    var h := ResponseHeaders(Basename(filepath), size, quote);
    assert h[3] == Header("Content-Length", Decimal.Show(size));
    Decimal.ParseShow(size);
  }

  // ---------------------------------------------------------------------
  // The objects

  /** A file offered for download (File in the source); it is itself observable. */
  class File {
    const server: PlatterServer
    const filepath: string
    const basename: string
    const path: string
    const size: nat
    const events: Event.EventHandler

    /**
     * Records a file offered for download: its source path, its last path
     * component, the route "/" + code (code being the random token) and its
     * size on disk. It starts with no callbacks.
     */
    constructor (server: PlatterServer, filepath: string, code: string, size: nat)
      ensures this.server == server && this.filepath == filepath && this.size == size
      ensures basename == Basename(filepath) && path == "/" + code
      ensures fresh(events) && events.callbacks == map[]
    {
      this.server := server;
      this.filepath := filepath;
      var name := Basename(filepath);
      this.basename := name;
      this.path := "/" + code;
      this.size := size;
      events := new Event.EventHandler();
    }

    /** Enters the file in the server's tables under its source path and its route. */
    method Register()
      modifies server
      ensures server.files == old(server.files)[filepath := this]
      ensures server.paths == old(server.paths)[path := this]
    {
      server.files := server.files[filepath := this];
      server.paths := server.paths[path := this];
    }

    /**
     * The address at which the file can be downloaded. It reads back into
     * the server's address, port and this File's route whenever the address
     * has no ':' and the route starts with something other than a digit
     * (a route made by the constructor starts with '/').
     */
    function Url(): (u: string)
      ensures |u| >= |SCHEME| && u[..|SCHEME|] == SCHEME
      ensures ':' !in IpText(server.myIp) && (path == [] || !Decimal.IsDigit(path[0])) ==>
        SplitUrl(u) == Some((IpText(server.myIp), server.port, path))
    {
      if ':' !in IpText(server.myIp) && (path == [] || !Decimal.IsDigit(path[0])) then
        UrlRoundTrip(IpText(server.myIp), server.port, path);
        FormatUrl(IpText(server.myIp), server.port, path)
      else FormatUrl(IpText(server.myIp), server.port, path)
    }
  }

  /** Table entries are keyed by their File's source path and route, and all belong to server. */
  ghost predicate Keyed(files: map<string, File>, paths: map<string, File>, server: PlatterServer) {
    (forall p :: p in files ==> files[p].filepath == p && files[p].server == server) &&
    (forall r :: r in paths ==> paths[r].path == r && paths[r].server == server)
  }

  /** The two tables hold the same Files, each under its own source path and route. */
  ghost predicate PairedTables(files: map<string, File>, paths: map<string, File>) {
    (forall p :: p in files ==> files[p].path in paths && paths[files[p].path] == files[p]) &&
    (forall r :: r in paths ==> paths[r].filepath in files && files[paths[r].filepath] == paths[r])
  }

  /** Registering a File of server under its own keys keeps the tables keyed. */
  lemma RegisterKeyed(files: map<string, File>, paths: map<string, File>, server: PlatterServer, f: File)
    requires Keyed(files, paths, server) && f.server == server
    ensures Keyed(files[f.filepath := f], paths[f.path := f], server)
  {
  }

  /**
   * Registering a File whose source path and route are both new keeps the
   * tables paired; a route already taken by another File would break it.
   */
  lemma RegisterPaired(files: map<string, File>, paths: map<string, File>, f: File)
    requires PairedTables(files, paths) && f.filepath !in files && f.path !in paths
    ensures PairedTables(files[f.filepath := f], paths[f.path := f])
  {
  }

  /** The HTTP server and its two tables (PlatterHTTPServer in the source). */
  class PlatterServer {
    var files: map<string, File>   // source path -> File
    var paths: map<string, File>   // route -> File
    const myIp: Option<string>     // what find_ip() returned at start-up
    const port: nat                // the port the socket was bound to

    /** Each table entry is keyed by the File's own source path or route. */
    ghost predicate Valid()
      reads this
    {
      Keyed(files, paths, this)
    }

    /** Every registered File is in both tables, and nothing else is in either. */
    ghost predicate Paired()
      reads this
    {
      PairedTables(files, paths)
    }

    constructor (myIp: Option<string>, port: nat)
      ensures Valid() && Paired()
      ensures files == map[] && paths == map[]
      ensures this.myIp == myIp && this.port == port
    {
      files := map[];
      paths := map[];
      this.myIp := myIp;
      this.port := port;
    }

    /**
     * `serve(fpath)`: the File already registered under this exact path
     * string, or a new one registered in both tables. size is what
     * os.path.getsize says, None when it raises (nothing is registered then).
     */
    method Serve(fpath: string, code: string, size: Option<nat>) returns (r: Result<File>)
      requires Valid()
      modifies this
      ensures Valid()
      ensures fpath in old(files) ==>
        r == Ok(old(files)[fpath]) && files == old(files) && paths == old(paths) &&
        r.value.filepath == fpath && r.value.server == this
      ensures fpath !in old(files) && size.None? ==>
        r == Err(OSError) && files == old(files) && paths == old(paths)
      ensures fpath !in old(files) && size.Some? ==>
        r.Ok? && fresh(r.value) &&
        r.value.filepath == fpath && r.value.path == "/" + code && r.value.size == size.value &&
        r.value.basename == Basename(fpath) && r.value.server == this &&
        files == old(files)[fpath := r.value] && paths == old(paths)["/" + code := r.value]
      ensures old(Paired()) && "/" + code !in old(paths) ==> Paired()
    {
      if fpath in files {
        return Ok(files[fpath]);
      }
      if size.None? {
        return Err(OSError);
      }
      ghost var files0, paths0 := files, paths;
      var f := new File(this, fpath, code, size.value);
      f.Register();
      r := Ok(f);
      RegisterKeyed(files0, paths0, this, f);
      if PairedTables(files0, paths0) && f.path !in paths0 {
        RegisterPaired(files0, paths0, f);
      }
    }
  }

  /** One HTTP request (PlatterHTTPRequestHandler in the source). */
  class RequestHandler {
    const id: nat                  // identity of the handler, passed to every signal
    const server: PlatterServer
    const path: string             // the request path
    var canceled: bool
    var wfileClosed: bool
    var rfileClosed: bool
    var closeAttempts: seq<Stream> // the close() calls made on the streams
    var log: seq<Action>           // everything sent and fired so far

    constructor (id: nat, server: PlatterServer, path: string)
      ensures this.id == id && this.server == server && this.path == path
      ensures !canceled && !wfileClosed && !rfileClosed && closeAttempts == [] && log == []
    {
      this.id := id;
      this.server := server;
      this.path := path;
      canceled := false;
      wfileClosed := false;
      rfileClosed := false;
      closeAttempts := [];
      log := [];
    }

    /**
     * `cancel()`: sets the flag and closes each stream that is still open;
     * errors from close are swallowed, so it always completes and a second
     * call closes nothing.
     */
    method Cancel()
      modifies this
      ensures canceled && wfileClosed && rfileClosed
      ensures closeAttempts == old(closeAttempts)
        + (if old(wfileClosed) then [] else [WFile])
        + (if old(rfileClosed) then [] else [RFile])
      ensures log == old(log)
    {
      canceled := true;
      if !wfileClosed {
        closeAttempts := closeAttempts + [WFile];
        wfileClosed := true;
      }
      if !rfileClosed {
        closeAttempts := closeAttempts + [RFile];
        rfileClosed := true;
      }
    }

    /**
     * `do_GET()` for a file whose bytes are content, under the interference
     * described by sched. An unknown path gets a 404 and no signal; a known
     * one is streamed as Served describes.
     */
    method DoGet(content: seq<byte>, quote: string -> string, sched: Schedule)
      requires !canceled && !wfileClosed && !rfileClosed
      modifies this
      ensures path !in server.paths ==>
        log == old(log) + [SendError(404)] && closeAttempts == old(closeAttempts) && !canceled
      ensures path in server.paths ==>
        log == old(log) + Served(id, server.paths[path].basename, server.paths[path].size, content, quote, sched)
      ensures canceled == (path in server.paths && CancelRuns(server.paths[path].size, content, sched))
      ensures wfileClosed == canceled && rfileClosed == canceled
      ensures closeAttempts == old(closeAttempts) + (if canceled then [WFile, RFile] else [])
    {
      if path !in server.paths {
        log := log + [SendError(404)];
        return;
      }
      var f := server.paths[path];
      ghost var before := log;
      var opening := [StartEvent(id)] + ResponseHeaders(f.basename, f.size, quote);
      log := log + opening;
      if sched.headersFail || f.size == 0 || sched.openFails {
        log := log + [FailureEvent(id)];
        assert log == before + (opening + [FailureEvent(id)]);
        return;
      }
      var inc := Increment(f.size);
      StreamFile(content, inc, sched);
      assert log == before + (opening + StreamFrom(id, content, 0, inc, sched));
    }

    /**
     * The read–write loop of do_GET: read BUF_SIZE bytes at a time, stop
     * with "success" on an empty read, return silently once the canceled
     * flag is seen, and otherwise write the chunk and fire "progress" with
     * the accumulated percentage. Any read or write error fires "failure".
     */
    method StreamFile(content: seq<byte>, inc: real, sched: Schedule)
      requires !canceled && !wfileClosed && !rfileClosed
      modifies this
      ensures log == old(log) + StreamFrom(id, content, 0, inc, sched)
      ensures canceled == (sched.cancelAt.Some? && sched.cancelAt.value <= LastRead(content, 0, sched))
      ensures wfileClosed == canceled && rfileClosed == canceled
      ensures closeAttempts == old(closeAttempts) + (if canceled then [WFile, RFile] else [])
    {
      ghost var target := old(log) + StreamFrom(id, content, 0, inc, sched);
      ghost var last := LastRead(content, 0, sched);
      var rest := content;  // what the file still holds
      var percent := 0.0;
      var k := 0;
      while true
        invariant !canceled && !wfileClosed && !rfileClosed && closeAttempts == old(closeAttempts)
        invariant sched.cancelAt.Some? ==> sched.cancelAt.value >= k
        invariant percent == Accumulated(inc, k)
        invariant log + StreamFrom(id, rest, k, inc, sched) == target
        invariant last == LastRead(rest, k, sched)
        decreases |rest|
      {
        ghost var before := log;
        var n, stop := StreamTurn(rest, k, percent, inc, sched);
        if stop {
          return;
        }
        StreamStep(id, rest, k, inc, sched);
        ghost var step := [Write(rest[..n]), ProgressEvent(id, Accumulated(inc, k + 1))];
        assert log + StreamFrom(id, rest[n..], k + 1, inc, sched)
            == before + (step + StreamFrom(id, rest[n..], k + 1, inc, sched));
        percent := percent + inc;
        rest, k := rest[n..], k + 1;
      }
    }

    /**
     * One pass of the loop body at read k, rest being what the file still
     * holds: either the loop leaves (stop), having done what StreamFrom
     * says it does at that point, or it wrote the next n bytes and fired
     * their "progress", and goes on with read k + 1.
     */
    method StreamTurn(rest: seq<byte>, k: nat, percent: real, inc: real, sched: Schedule) returns (n: nat, stop: bool)
      requires !canceled && !wfileClosed && !rfileClosed
      requires percent == Accumulated(inc, k)
      modifies this
      ensures stop ==> log == old(log) + StreamFrom(id, rest, k, inc, sched) && LastRead(rest, k, sched) == k
      ensures !stop ==> (
        rest != [] && sched.readFailsAt != Some(k) && sched.cancelAt != Some(k) && sched.writeFailsAt != Some(k) &&
        n == Min(BUF_SIZE, |rest|) && log == old(log) + [Write(rest[..n]), ProgressEvent(id, Accumulated(inc, k + 1))])
      ensures canceled == (sched.cancelAt == Some(k))
      ensures wfileClosed == canceled && rfileClosed == canceled
      ensures closeAttempts == old(closeAttempts) + (if canceled then [WFile, RFile] else [])
    {
      StreamExit(id, rest, k, inc, sched);
      n, stop := 0, true;
      if sched.cancelAt == Some(k) {
        Cancel();
      }
      if sched.readFailsAt == Some(k) {
        log := log + [FailureEvent(id)];
        return;
      }
      n := Min(BUF_SIZE, |rest|);
      var buf := rest[..n];
      if buf == [] {
        log := log + [SuccessEvent(id)];
        return;
      }
      if canceled {
        return;
      }
      if sched.writeFailsAt == Some(k) {
        log := log + [FailureEvent(id)];
        return;
      }
      log := log + [Write(buf), ProgressEvent(id, percent + inc)];
      stop := false;
    }
  }
}
