/** The resumable, retrying file downloader. A destination file is a byte
    sequence; what the server does on each attempt is an input. An attempt
    asks for the bytes after what is already on disk (a Range request,
    section 14.2 of RFC 9110), appends on a 206 Partial Content reply
    (section 15.3.7 of RFC 9110) and starts over on any other reply. Up to
    six attempts are made, with exponential back-off between them, and only
    the transient network failures are retried. */
module Download {
  import opened Values
  import PyText
  import Transport

  newtype byte = x: int | 0 <= x < 256

  /** One initial attempt plus five retries. */
  const MaxRetries: nat := 5
  const InitialDelaySeconds: nat := 1
  /** Default progress-logging step: 100 MiB. */
  const LogChunkSize: nat := 100 * 1024 * 1024

  /** The value of a Range header `bytes=N-` asking for everything from
      byte N on (an int-range with no last-pos), or None. */
  function ParseRangeValue(v: string): Option<nat> {
    if |v| >= 8 && v[..6] == "bytes=" && v[|v| - 1] == '-' && PyText.AllDigits(v[6..|v| - 1])
    then Some(PyText.DigitsValue(v[6..|v| - 1]))
    else None
  }

  /** The request headers of an attempt, given the bytes already on disk. */
  function RangeHeaders(onDisk: nat): (h: map<string, string>)
    ensures onDisk == 0 <==> h == map[]
    ensures onDisk > 0 ==> h.Keys == {"Range"} && ParseRangeValue(h["Range"]) == Some(onDisk)
  {
    if onDisk > 0 then
      var digits := PyText.Show(onDisk);
      var v := "bytes=" + digits + "-";
      assert v[..6] == "bytes=" && v[6..|v| - 1] == digits;
      var h := map["Range" := v];
      assert "Range" in h;
      h
    else map[]
  }

  /** How the destination file is opened: 'ab' or 'wb'. */
  datatype Mode = Append | Overwrite

  /** The file's contents right after it is opened in `mode`. */
  function Open(disk: seq<byte>, mode: Mode): seq<byte> {
    if mode == Append then disk else []
  }

  /** The open mode and start offset for a reply with `status`, when `onDisk`
      bytes were on disk before the request. */
  function HandleRangeResponse(onDisk: nat, status: int): (r: (Mode, nat))
    ensures r.0 == Append <==> onDisk > 0 && status == 206
    ensures r.1 == (if r.0 == Append then onDisk else 0)
  {
    if onDisk > 0 then
      if status == 206 then (Append, onDisk)
      else if status == 200 then (Overwrite, 0)
      else (Overwrite, 0)
    else (Overwrite, 0)
  }

  /** The bytes of a streamed body, in order. */
  function Flatten(chunks: seq<seq<byte>>): seq<byte> {
    if chunks == [] then [] else chunks[0] + Flatten(chunks[1..])
  }

  lemma {:induction false} FlattenSnoc(chunks: seq<seq<byte>>, c: seq<byte>)
    ensures Flatten(chunks + [c]) == Flatten(chunks) + c
  {
    if chunks == [] {
      assert [c][1..] == [];
    } else {
      assert (chunks + [c])[1..] == chunks[1..] + [c];
      FlattenSnoc(chunks[1..], c);
    }
  }

  /** How many chunks of a body carry at least one byte. */
  function NonEmptyCount(chunks: seq<seq<byte>>): nat {
    if chunks == [] then 0 else (if chunks[0] == [] then 0 else 1) + NonEmptyCount(chunks[1..])
  }

  lemma {:induction false} NonEmptyCountSnoc(chunks: seq<seq<byte>>, c: seq<byte>)
    ensures NonEmptyCount(chunks + [c]) == NonEmptyCount(chunks) + (if c == [] then 0 else 1)
  {
    if chunks == [] {
      assert [c][1..] == [];
    } else {
      assert (chunks + [c])[1..] == chunks[1..] + [c];
      NonEmptyCountSnoc(chunks[1..], c);
    }
  }

  /** The n-th logging threshold: `start` raised n times by `step`. */
  function Mark(start: nat, step: nat, n: nat): nat {
    if n == 0 then start else Mark(start, step, n - 1) + step
  }

  lemma {:induction false} MarkClosedForm(start: nat, step: nat, n: nat)
    ensures Mark(start, step, n) == start + n * step
  {
    if n > 0 {
      MarkClosedForm(start, step, n - 1);
      assert (n - 1) * step + step == n * step;
    }
  }

  /** The byte count, the byte counts logged so far and the next logging threshold. */
  datatype Progress = Progress(written: nat, logs: seq<nat>, threshold: nat)

  /** One chunk of the body: an empty chunk changes nothing; otherwise the
      count grows, and reaching the threshold logs the count and raises the
      threshold by `step`. */
  function Account(p: Progress, chunk: seq<byte>, step: nat): Progress {
    if chunk == [] then p
    else
      var w := p.written + |chunk|;
      if w >= p.threshold then Progress(w, p.logs + [w], p.threshold + step)
      else Progress(w, p.logs, p.threshold)
  }

  /** The progress after the chunks, starting from the count `initial`. */
  function Tally(initial: nat, step: nat, chunks: seq<seq<byte>>): Progress {
    if chunks == [] then Progress(initial, [], initial + step)
    else Account(Tally(initial, step, chunks[..|chunks| - 1]), chunks[|chunks| - 1], step)
  }

  /** The count is the start plus every byte of the body. */
  lemma {:induction false} TallyWritten(initial: nat, step: nat, chunks: seq<seq<byte>>)
    ensures Tally(initial, step, chunks).written == initial + |Flatten(chunks)|
  {
    if chunks != [] {
      var init, last := chunks[..|chunks| - 1], chunks[|chunks| - 1];
      TallyWritten(initial, step, init);
      assert init + [last] == chunks;
      FlattenSnoc(init, last);
    }
  }

  /** The threshold sits one step above the last logged mark, and only
      chunks with bytes can log. */
  lemma {:induction false} TallyThreshold(initial: nat, step: nat, chunks: seq<seq<byte>>)
    ensures var t := Tally(initial, step, chunks);
      t.threshold == Mark(initial, step, |t.logs| + 1) && |t.logs| <= NonEmptyCount(chunks)
  {
    if chunks != [] {
      var init, last := chunks[..|chunks| - 1], chunks[|chunks| - 1];
      TallyThreshold(initial, step, init);
      assert init + [last] == chunks;
      NonEmptyCountSnoc(init, last);
    }
  }

  /** The k-th logged count reached the k-th mark, no count is logged twice,
      and none exceeds the current count. */
  lemma {:induction false} TallyLogs(initial: nat, step: nat, chunks: seq<seq<byte>>)
    ensures var t := Tally(initial, step, chunks);
      && (forall k | 0 <= k < |t.logs| :: Mark(initial, step, k + 1) <= t.logs[k] <= t.written)
      && (forall k | 0 < k < |t.logs| :: t.logs[k - 1] < t.logs[k])
  {
    if chunks != [] {
      var init, last := chunks[..|chunks| - 1], chunks[|chunks| - 1];
      TallyLogs(initial, step, init);
      TallyThreshold(initial, step, init);
      var before := Tally(initial, step, init);
      var t := Tally(initial, step, chunks);
      if last != [] && t.logs != before.logs {
        assert t.logs == before.logs + [t.written];
        assert forall k | 0 <= k < |before.logs| :: t.logs[k] == before.logs[k];
      }
    }
  }

  /** With chunks no larger than a positive step, the count stays within
      one step below the threshold. */
  lemma {:induction false} TallyBounded(initial: nat, step: nat, chunks: seq<seq<byte>>)
    requires step > 0 && forall i | 0 <= i < |chunks| :: |chunks[i]| <= step
    ensures var t := Tally(initial, step, chunks); t.threshold - step <= t.written < t.threshold
  {
    if chunks != [] {
      var init := chunks[..|chunks| - 1];
      assert forall i | 0 <= i < |init| :: init[i] == chunks[i];
      TallyBounded(initial, step, init);
    }
  }

  /** One pass of the write loop: an empty chunk is skipped; otherwise it is
      written and counted, and reaching the threshold logs the count. */
  method WriteChunk(file: seq<byte>, written: nat, logs: seq<nat>, threshold: nat, chunk: seq<byte>, logChunkSize: nat)
    returns (file': seq<byte>, written': nat, logs': seq<nat>, threshold': nat)
    ensures file' == file + chunk
    ensures written' == written + |chunk|
    ensures chunk != [] && written' >= threshold ==> logs' == logs + [written'] && threshold' == threshold + logChunkSize
    ensures !(chunk != [] && written' >= threshold) ==> logs' == logs && threshold' == threshold
    ensures Progress(written', logs', threshold') == Account(Progress(written, logs, threshold), chunk, logChunkSize)
  {
    file', written', logs', threshold' := file, written, logs, threshold;
    if chunk != [] {
      file' := file' + chunk;
      written' := written' + |chunk|;
      if written' >= threshold' {
        logs' := logs' + [written'];
        threshold' := threshold' + logChunkSize;
      }
    }
  }

  /** The write loop of the stream: the file grows by each chunk and the
      progress follows Tally. */
  method WriteChunks(disk: seq<byte>, mode: Mode, initial: nat, chunks: seq<seq<byte>>, logChunkSize: nat)
    returns (file: seq<byte>, written: nat, logs: seq<nat>, threshold: nat)
    ensures file == Open(disk, mode) + Flatten(chunks)
    ensures Progress(written, logs, threshold) == Tally(initial, logChunkSize, chunks)
  {
    file := Open(disk, mode);
    written := initial;
    threshold := written + logChunkSize;
    logs := [];
    var i := 0;
    while i < |chunks|
      invariant 0 <= i <= |chunks|
      invariant file == Open(disk, mode) + Flatten(chunks[..i])
      invariant Progress(written, logs, threshold) == Tally(initial, logChunkSize, chunks[..i])
    {
      var chunk := chunks[i];
      var done, next := chunks[..i], chunks[..i + 1];
      assert next == done + [chunk] && next[..|next| - 1] == done && next[|next| - 1] == chunk;
      assert Tally(initial, logChunkSize, next) == Account(Tally(initial, logChunkSize, done), chunk, logChunkSize);
      FlattenSnoc(done, chunk);
      assert Open(disk, mode) + Flatten(next) == file + chunk;
      file, written, logs, threshold := WriteChunk(file, written, logs, threshold, chunk, logChunkSize);
      i := i + 1;
    }
    assert chunks[..i] == chunks;
  }

  /** Writes the body to the opened file and counts it. The count starts at
      `initial`; empty chunks are skipped. A progress line is logged (its
      byte count is recorded in `logs`) whenever the count reaches the
      current threshold, which starts `logChunkSize` above `initial` and
      moves up by `logChunkSize` at each log line. */
  method StreamToFile(disk: seq<byte>, mode: Mode, initial: nat, chunks: seq<seq<byte>>, logChunkSize: nat)
    returns (file: seq<byte>, written: nat, logs: seq<nat>, threshold: nat)
    ensures file == Open(disk, mode) + Flatten(chunks)
    ensures written == initial + |Flatten(chunks)|
    ensures threshold == Mark(initial, logChunkSize, |logs| + 1)
    ensures |logs| <= NonEmptyCount(chunks)
    ensures forall k | 0 <= k < |logs| :: Mark(initial, logChunkSize, k + 1) <= logs[k] <= written
    ensures forall k | 0 < k < |logs| :: logs[k - 1] < logs[k]
    ensures logChunkSize > 0 && (forall c | c in chunks :: |c| <= logChunkSize) ==>
      threshold - logChunkSize <= written < threshold
  {
    file, written, logs, threshold := WriteChunks(disk, mode, initial, chunks, logChunkSize);
    TallyFacts(initial, logChunkSize, chunks);
  }

  /** Everything the stream's progress promises, gathered for the whole body. */
  lemma TallyFacts(initial: nat, step: nat, chunks: seq<seq<byte>>)
    ensures var t := Tally(initial, step, chunks);
      && t.written == initial + |Flatten(chunks)|
      && t.threshold == Mark(initial, step, |t.logs| + 1)
      && |t.logs| <= NonEmptyCount(chunks)
      && (forall k | 0 <= k < |t.logs| :: Mark(initial, step, k + 1) <= t.logs[k] <= t.written)
      && (forall k | 0 < k < |t.logs| :: t.logs[k - 1] < t.logs[k])
      && (step > 0 && (forall c | c in chunks :: |c| <= step) ==> t.threshold - step <= t.written < t.threshold)
  {
    TallyWritten(initial, step, chunks);
    TallyThreshold(initial, step, chunks);
    TallyLogs(initial, step, chunks);
    if step > 0 && (forall c | c in chunks :: |c| <= step) {
      assert forall j | 0 <= j < |chunks| :: |chunks[j]| <= step by {
        forall j | 0 <= j < |chunks| ensures |chunks[j]| <= step {
          assert chunks[j] in chunks;
        }
      }
      TallyBounded(initial, step, chunks);
    }
  }

  /** What the server does on one attempt: the request fails before any
      reply, or a reply arrives with a status and streams `chunks`, after
      which the stream either ends or breaks with `interruption`. */
  datatype Reply =
    | Refused(failure: Error)
    | Responded(code: int, chunks: seq<seq<byte>>, interruption: Option<Error>)

  /** One attempt: the headers sent, the file afterwards, and the byte count
      returned or the exception raised. */
  datatype AttemptRecord = AttemptRecord(headers: map<string, string>, file: seq<byte>, result: Result<nat>)

  /** One download attempt against the file `disk` currently on disk. */
  function Attempt(disk: seq<byte>, reply: Reply): (a: AttemptRecord)
    ensures a.headers == RangeHeaders(|disk|)
    ensures a.result.Ok? ==> a.result.value == |a.file|
    ensures reply.Refused? ==> a.file == disk && a.result == Err(reply.failure)
    ensures reply.Responded? && Transport.IsErrorStatus(reply.code) ==>
      a.file == disk && a.result == Err(HttpError(reply.code))
    ensures reply.Responded? && !Transport.IsErrorStatus(reply.code) ==>
      && (|disk| > 0 && reply.code == 206 ==> a.file == disk + Flatten(reply.chunks))
      && (|disk| == 0 || reply.code != 206 ==> a.file == Flatten(reply.chunks))
      && (a.result.Err? <==> reply.interruption.Some?)
      && (a.result.Err? ==> a.result.error == reply.interruption.value)
  {
    var headers := RangeHeaders(|disk|);
    match reply
    case Refused(e) => AttemptRecord(headers, disk, Err(e))
    case Responded(code, chunks, interruption) =>
      if Transport.IsErrorStatus(code) then AttemptRecord(headers, disk, Err(HttpError(code)))
      else
        var (mode, start) := HandleRangeResponse(|disk|, code);
        var file := Open(disk, mode) + Flatten(chunks);
        var result := if interruption.Some? then Err(interruption.value) else Ok(start + |Flatten(chunks)|);
        AttemptRecord(headers, file, result)
  }

  /** The exceptions that earn another attempt. */
  predicate Retriable(e: Error) {
    e.Transient?
  }

  /** The file on disk when attempt `i` of `trace` starts. */
  function StartDisk(disk0: seq<byte>, trace: seq<AttemptRecord>, i: nat): seq<byte>
    requires i <= |trace|
  {
    if i == 0 then disk0 else trace[i - 1].file
  }

  /** `trace` records attempts made one after another, each against the file
      the previous one left behind, the k-th getting the server's k-th reply. */
  ghost predicate IsTrace(disk0: seq<byte>, server: nat -> Reply, trace: seq<AttemptRecord>) {
    forall i | 0 <= i < |trace| :: Follows(disk0, server, trace, i)
  }

  /** Attempt i of `trace` is the server's i-th reply applied to the file
      attempt i - 1 left. */
  ghost predicate Follows(disk0: seq<byte>, server: nat -> Reply, trace: seq<AttemptRecord>, i: nat)
    requires i < |trace|
  {
    trace[i] == Attempt(StartDisk(disk0, trace, i), server(i))
  }

  /** Recording one more attempt, made against the file the last one left. */
  lemma {:induction false} TraceSnoc(disk0: seq<byte>, server: nat -> Reply, trace: seq<AttemptRecord>, a: AttemptRecord)
    requires IsTrace(disk0, server, trace)
    requires a == Attempt(StartDisk(disk0, trace, |trace|), server(|trace|))
    ensures IsTrace(disk0, server, trace + [a])
  {
    var t := trace + [a];
    forall i | 0 <= i < |t|
      ensures Follows(disk0, server, t, i)
    {
      if i < |trace| {
        assert Follows(disk0, server, trace, i);
        assert t[i] == trace[i];
        assert StartDisk(disk0, t, i) == StartDisk(disk0, trace, i);
      } else {
        assert t[i] == a;
      }
    }
  }

  function Pow2(k: nat): nat {
    if k == 0 then 1 else 2 * Pow2(k - 1)
  }

  /** The retry loop: attempts until one succeeds or fails for a reason that
      is not retriable, at most MaxRetries + 1 times, sleeping 1, 2, 4, 8, 16
      seconds between attempts and not after the last. */
  method RetryDownload(disk0: seq<byte>, server: nat -> Reply)
    returns (disk: seq<byte>, result: Result<nat>, trace: seq<AttemptRecord>, sleeps: seq<nat>)
    ensures 1 <= |trace| <= MaxRetries + 1
    ensures IsTrace(disk0, server, trace)
    ensures disk == trace[|trace| - 1].file
    ensures result == trace[|trace| - 1].result
    ensures forall i | 0 <= i < |trace| - 1 :: trace[i].result.Err? && Retriable(trace[i].result.error)
    ensures result.Ok? || !Retriable(result.error) || |trace| == MaxRetries + 1
    ensures |sleeps| == |trace| - 1
    ensures forall k | 0 <= k < |sleeps| :: sleeps[k] == InitialDelaySeconds * Pow2(k)
  {
    disk := disk0;
    trace := [];
    sleeps := [];
    var delay := InitialDelaySeconds;
    var attempt: nat := 0;
    while true
      invariant attempt == |trace| <= MaxRetries
      invariant |sleeps| == attempt
      invariant delay == InitialDelaySeconds * Pow2(attempt)
      invariant IsTrace(disk0, server, trace)
      invariant disk == StartDisk(disk0, trace, |trace|)
      invariant forall i | 0 <= i < |trace| :: trace[i].result.Err? && Retriable(trace[i].result.error)
      invariant forall k | 0 <= k < |sleeps| :: sleeps[k] == InitialDelaySeconds * Pow2(k)
      decreases MaxRetries - attempt
    {
      var a := Attempt(disk, server(attempt));
      TraceSnoc(disk0, server, trace, a);
      trace := trace + [a];
      disk := a.file;
      if a.result.Ok? || !Retriable(a.result.error) || attempt == MaxRetries {
        result := a.result;
        return;
      }
      sleeps := sleeps + [delay];
      delay := delay * 2;
      attempt := attempt + 1;
    }
  }

  /** download_file's error handling: an HttpError is re-raised as is, any
      other failure becomes a DownloadError wrapping it. */
  function WrapFailure(e: Error): (w: Error)
    ensures w.HttpError? || w.DownloadError?
    ensures e.HttpError? ==> w == e
    ensures !e.HttpError? ==> w == DownloadError(e)
  {
    if e.HttpError? then e else DownloadError(e)
  }

  /** download_file: runs the retry loop against the existing file and
      returns the destination path, or raises. */
  method DownloadFile(path: string, disk0: seq<byte>, server: nat -> Reply)
    returns (disk: seq<byte>, r: Result<string>, trace: seq<AttemptRecord>)
    ensures 1 <= |trace| <= MaxRetries + 1
    ensures IsTrace(disk0, server, trace)
    ensures disk == trace[|trace| - 1].file
    ensures r.Ok? <==> trace[|trace| - 1].result.Ok?
    ensures r.Ok? ==> r.value == path
    ensures r.Err? ==> r.error == WrapFailure(trace[|trace| - 1].result.error)
  {
    var result, sleeps;
    disk, result, trace, sleeps := RetryDownload(disk0, server);
    if result.Ok? {
      r := Ok(path);
    } else {
      r := Err(WrapFailure(result.error));
    }
  }

  /** The server serves the resource `full` faithfully on this attempt: a
      206 reply to a range request carries bytes from the requested offset,
      any other successful reply carries bytes from the start, an
      uninterrupted body runs to the end and an interrupted one stops early. */
  ghost predicate Serves(full: seq<byte>, disk: seq<byte>, reply: Reply) {
    match reply
    case Refused(_) => true
    case Responded(code, chunks, interruption) =>
      || Transport.IsErrorStatus(code)
      || (var from := if |disk| > 0 && code == 206 then |disk| else 0;
          && from <= |full|
          && Flatten(chunks) <= full[from..]
          && (interruption.None? ==> Flatten(chunks) == full[from..]))
  }

  /** One faithfully served attempt keeps the file a prefix of the resource,
      and a successful one leaves exactly the resource on disk. */
  lemma AttemptStaysPrefix(full: seq<byte>, disk: seq<byte>, reply: Reply)
    requires disk <= full
    requires Serves(full, disk, reply)
    ensures Attempt(disk, reply).file <= full
    ensures Attempt(disk, reply).result.Ok? ==>
      Attempt(disk, reply).file == full && Attempt(disk, reply).result.value == |full|
  {
    var a := Attempt(disk, reply);
    if reply.Responded? && !Transport.IsErrorStatus(reply.code) {
      var body := Flatten(reply.chunks);
      if |disk| > 0 && reply.code == 206 {
        assert full == disk + full[|disk|..];
        assert a.file == disk + body;
      }
    }
  }

  /** The file on disk before attempt i of a faithfully served trace is a
      prefix of the resource. */
  lemma {:induction false} StartDiskIsPrefix(full: seq<byte>, disk0: seq<byte>, server: nat -> Reply, trace: seq<AttemptRecord>, i: nat)
    requires disk0 <= full
    requires IsTrace(disk0, server, trace)
    requires forall j | 0 <= j < |trace| :: Serves(full, StartDisk(disk0, trace, j), server(j))
    requires i <= |trace|
    ensures StartDisk(disk0, trace, i) <= full
  {
    if i > 0 {
      var prev := StartDisk(disk0, trace, i - 1);
      StartDiskIsPrefix(full, disk0, server, trace, i - 1);
      assert Serves(full, prev, server(i - 1));
      AttemptStaysPrefix(full, prev, server(i - 1));
      assert Follows(disk0, server, trace, i - 1);
      assert StartDisk(disk0, trace, i) == trace[i - 1].file == Attempt(prev, server(i - 1)).file;
    }
  }

  /** Resume correctness: when every attempt is served faithfully from a
      prefix of the resource, every attempt leaves a prefix of it on disk,
      and an attempt that succeeds leaves the whole resource and returns its
      length — however many interrupted attempts came before. */
  lemma ResumeCorrect(full: seq<byte>, disk0: seq<byte>, server: nat -> Reply, trace: seq<AttemptRecord>)
    requires disk0 <= full
    requires IsTrace(disk0, server, trace)
    requires forall i | 0 <= i < |trace| :: Serves(full, StartDisk(disk0, trace, i), server(i))
    ensures forall i | 0 <= i < |trace| :: trace[i].file <= full
    ensures forall i | 0 <= i < |trace| :: trace[i].result.Ok? ==> trace[i].file == full && trace[i].result.value == |full|
  {
    forall i | 0 <= i < |trace|
      ensures trace[i].file <= full
      ensures trace[i].result.Ok? ==> trace[i].file == full && trace[i].result.value == |full|
    {
      StartDiskIsPrefix(full, disk0, server, trace, i);
      assert Follows(disk0, server, trace, i);
      AttemptStaysPrefix(full, StartDisk(disk0, trace, i), server(i));
    }
  }
}
