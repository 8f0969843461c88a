/** Values shared by every part of the model: optional values, the exceptions
    the backup tool raises or catches, decoded JSON values with Python's
    truthiness, and the keys of the persisted backup status. */
module Values {

  datatype Option<+T> = None | Some(value: T) {
    function GetOr(default: T): T {
      match this
      case Some(v) => v
      case None => default
    }
  }

  /** The four transient network failures the downloader retries on:
      IncompleteRead, ChunkedEncodingError, ConnectionError and Timeout. */
  datatype NetFault = IncompleteRead | ChunkedEncoding | ConnectionFailure | Timeout

  /** Exceptions, by the class the tool distinguishes them by. */
  datatype Error =
    | HttpError(status: int)          // raise_for_status on a 4xx/5xx reply
    | Transient(fault: NetFault)      // one of the retriable network failures
    | DownloadError(cause: Error)     // download given up; wraps the last failure
    | RuntimeError(reason: string)
    | ValueError(reason: string)
    | TypeError(reason: string)
    | AttributeError(reason: string)
    | NameError(name: string)
    | SystemExit(code: int)           // sys.exit: a BaseException, not an Exception
    | Unexpected(kind: string)        // any other exception class

  /** A call that returns a value or raises. */
  datatype Result<+T> = Ok(value: T) | Err(error: Error)

  /** A step that may wait on a remote job: it finishes, raises, or is still
      polling when the recorded observations run out (the tool itself polls
      without a bound). */
  datatype Outcome<+T> = Done(value: T) | Raised(error: Error) | Polling

  /** A decoded JSON value, plus Stamp, an in-memory timestamp (epoch ms). */
  datatype Value = Null | Bool(b: bool) | Int(i: int) | Text(s: string) | Stamp(ms: int)

  /** A JSON object / Python dict with string keys. */
  type Dict = map<string, Value>

  /** Python truthiness of a value. */
  predicate Truthy(v: Value) {
    match v
    case Null => false
    case Bool(b) => b
    case Int(i) => i != 0
    case Text(s) => s != ""
    case Stamp(_) => true
  }

  /** dict.get(key) */
  function Get(d: Dict, key: string): Option<Value> {
    if key in d then Some(d[key]) else None
  }

  /** dict.get(key, default) */
  function GetOr(d: Dict, key: string, default: Value): Value {
    if key in d then d[key] else default
  }

  /** Python's `n == v` for an int n and a decoded JSON value v (bool is an int). */
  predicate IntEquals(n: int, v: Value) {
    match v
    case Int(i) => i == n
    case Bool(b) => n == (if b then 1 else 0)
    case _ => false
  }

  /** The number a JSON value stands for in arithmetic (`v / 1000`), or None
      when the arithmetic raises TypeError. */
  function AsNumber(v: Value): Option<int> {
    match v
    case Int(i) => Some(i)
    case Bool(b) => Some(if b then 1 else 0)
    case _ => None
  }

  /** Milliseconds in 24 hours and in 7 days. */
  const DayMs: int := 24 * 60 * 60 * 1000
  const WeekMs: int := 7 * DayMs

  /** Keys of the persisted backup status. */
  const LastJiraBackup: string := "last_jira_backup"
  const JiraTaskId: string := "jira_task_id"
  const JiraFile: string := "jira_file"
  const LastConfluenceBackup: string := "last_confluence_backup"
  const ConfluenceFile: string := "confluence_file"

  /** Something a service's backup step did besides computing its delta. */
  datatype Effect = ConsultedTask(id: int) | Triggered | Downloaded(url: string)

  /** What a service's backup step returns: the status entries it proposes
      and the effects it had, in order. */
  datatype Run = Run(delta: Dict, effects: seq<Effect>)

  /** The effect-free run that proposes nothing. */
  const Skipped: Run := Run(map[], [])

  /** A failed or unfinished step as an outcome of another result type. */
  function Forward<T, U>(o: Outcome<T>): Outcome<U>
    requires !o.Done?
  {
    if o.Raised? then Raised(o.error) else Polling
  }
}
