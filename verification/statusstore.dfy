/** The persisted backup status. On load the two timestamp entries are
    turned from ISO 8601 text into timestamps; on save the status is
    projected onto the keys of the services whose timestamp is present and
    the timestamps are written back as text. The ISO 8601 text itself is a
    parameter: `format` is datetime.isoformat and `parse` is
    datetime.fromisoformat (None where it raises ValueError). */
module StatusStore {
  import opened Values

  predicate IsTimestampKey(key: string) {
    key == LastJiraBackup || key == LastConfluenceBackup
  }

  /** load_status on one timestamp key: text that parses becomes a
      timestamp, text that does not is kept as it is, and any other value
      makes fromisoformat raise TypeError. */
  function ConvertEntry(data: Dict, key: string, parse: string -> Option<int>): (r: Result<Dict>)
    ensures r.Ok? ==> r.value.Keys == data.Keys
    ensures r.Ok? ==> forall k | k in data && k != key :: r.value[k] == data[k]
  {
    if key !in data then Ok(data)
    else match data[key]
      case Text(s) =>
        (match parse(s)
         case Some(ms) => Ok(data[key := Stamp(ms)])
         case None => Ok(data))
      case _ => Err(TypeError("fromisoformat: argument must be str"))
  }

  /** The value load_status leaves under a timestamp key whose stored value is text. */
  function Loaded(v: Value, parse: string -> Option<int>): Value
    requires v.Text?
  {
    match parse(v.s)
    case Some(ms) => Stamp(ms)
    case None => v
  }

  /** load_status: no file gives an empty status; otherwise the stored
      entries, with the timestamp entries converted. */
  function LoadStatus(file: Option<Dict>, parse: string -> Option<int>): (r: Result<Dict>)
    ensures file.None? ==> r == Ok(map[])
    ensures r.Err? <==>
      file.Some? && exists k | k in file.value && IsTimestampKey(k) :: !file.value[k].Text?
    ensures r.Err? ==> r.error.TypeError?
    ensures r.Ok? && file.Some? ==>
      && r.value.Keys == file.value.Keys
      && (forall k | k in file.value && !IsTimestampKey(k) :: r.value[k] == file.value[k])
      && (forall k | k in file.value && IsTimestampKey(k) :: r.value[k] == Loaded(file.value[k], parse))
  {
    match file
    case None => Ok(map[])
    case Some(data) =>
      match ConvertEntry(data, LastJiraBackup, parse)
      case Err(e) => Err(e)
      case Ok(d1) => ConvertEntry(d1, LastConfluenceBackup, parse)
  }

  /** A status save_status can write: each timestamp entry present holds a timestamp. */
  predicate Persistable(status: Dict) {
    && (LastJiraBackup in status ==> status[LastJiraBackup].Stamp?)
    && (LastConfluenceBackup in status ==> status[LastConfluenceBackup].Stamp?)
  }

  /** The keys save_status writes: the Jira trio when the Jira timestamp is
      present, the Confluence pair when the Confluence timestamp is. */
  function SavedKeys(status: Dict): set<string> {
    (if LastJiraBackup in status then {LastJiraBackup, JiraTaskId, JiraFile} else {})
    + (if LastConfluenceBackup in status then {LastConfluenceBackup, ConfluenceFile} else {})
  }

  /** `.isoformat()` on a status value: only a timestamp has it. */
  function IsoFormat(v: Value, format: int -> string): Result<Value> {
    if v.Stamp? then Ok(Text(format(v.ms)))
    else Err(AttributeError("object has no attribute 'isoformat'"))
  }

  /** save_status: the JSON object written to the status file. */
  function SaveStatus(status: Dict, format: int -> string): (r: Result<Dict>)
    ensures r.Ok? <==> Persistable(status)
    ensures r.Err? ==> r.error.AttributeError?
    ensures r.Ok? ==> r.value.Keys == SavedKeys(status)
    ensures r.Ok? ==> forall k | k in r.value ::
      r.value[k] == (if IsTimestampKey(k) then Text(format(status[k].ms)) else GetOr(status, k, Null))
  {
    var jira: Result<Dict> :=
      if LastJiraBackup in status then
        match IsoFormat(status[LastJiraBackup], format)
        case Err(e) => Err(e)
        case Ok(text) => Ok(map[LastJiraBackup := text,
                                JiraTaskId := GetOr(status, JiraTaskId, Null),
                                JiraFile := GetOr(status, JiraFile, Null)])
      else Ok(map[]);
    match jira
    case Err(e) => Err(e)
    case Ok(toSave) =>
      if LastConfluenceBackup in status then
        match IsoFormat(status[LastConfluenceBackup], format)
        case Err(e) => Err(e)
        case Ok(text) => Ok(toSave[LastConfluenceBackup := text][ConfluenceFile := GetOr(status, ConfluenceFile, Null)])
      else Ok(toSave)
  }

  /** What a save followed by a load gives back: the saved keys, each with
      the value the status held (None for an absent one). */
  function Reloaded(status: Dict): (r: Dict)
    ensures r.Keys == SavedKeys(status)
  {
    map k | k in SavedKeys(status) :: GetOr(status, k, Null)
  }

  /** Saving and loading again restores the projection of the status, when
      fromisoformat reads back what isoformat wrote. */
  lemma {:induction false} LoadAfterSave(status: Dict, format: int -> string, parse: string -> Option<int>)
    requires Persistable(status)
    requires forall t: int :: parse(format(t)) == Some(t)
    ensures SaveStatus(status, format).Ok?
    ensures LoadStatus(Some(SaveStatus(status, format).value), parse) == Ok(Reloaded(status))
  {
    var saved := SaveStatus(status, format).value;
    var loaded := LoadStatus(Some(saved), parse);
    assert forall k | k in saved && IsTimestampKey(k) :: saved[k].Text?;
    assert loaded.Ok?;
    forall k | k in saved
      ensures loaded.value[k] == Reloaded(status)[k]
    {
      if IsTimestampKey(k) {
        assert saved[k] == Text(format(status[k].ms));
        assert parse(format(status[k].ms)) == Some(status[k].ms);
      }
    }
    assert loaded.value == Reloaded(status);
  }

  /** Saving what was loaded back writes the same file again. */
  lemma {:induction false} SaveIsStable(status: Dict, format: int -> string, parse: string -> Option<int>)
    requires Persistable(status)
    requires forall t: int :: parse(format(t)) == Some(t)
    ensures SaveStatus(Reloaded(status), format) == SaveStatus(status, format)
  {
    var again := Reloaded(status);
    assert SavedKeys(again) == SavedKeys(status);
    assert Persistable(again);
    var a, b := SaveStatus(again, format).value, SaveStatus(status, format).value;
    forall k | k in a ensures a[k] == b[k] {
      if !IsTimestampKey(k) {
        assert GetOr(again, k, Null) == GetOr(status, k, Null);
      }
    }
    assert a == b;
  }

  /** A timestamp text that does not parse survives the load as text, and
      the next save of that status raises AttributeError. */
  lemma UnparsableTimestampBlocksSave(data: Dict, key: string, parse: string -> Option<int>, format: int -> string)
    requires IsTimestampKey(key) && key in data && data[key].Text?
    requires parse(data[key].s).None?
    requires forall k | k in data && IsTimestampKey(k) :: data[k].Text?
    ensures LoadStatus(Some(data), parse).Ok?
    ensures LoadStatus(Some(data), parse).value[key] == data[key]
    ensures SaveStatus(LoadStatus(Some(data), parse).value, format) == Err(AttributeError("object has no attribute 'isoformat'"))
  {
    var loaded := LoadStatus(Some(data), parse).value;
    assert loaded[key] == Loaded(data[key], parse) == data[key];
  }

  /** load_status with every timestamp text that does not parse dropped,
      not kept as text. */
  function LoadStatusDropping(file: Option<Dict>, parse: string -> Option<int>): (r: Result<Dict>)
    ensures r.Ok? ==> Persistable(r.value)
    ensures r.Err? <==> LoadStatus(file, parse).Err?
    ensures r.Ok? ==> forall k | k in r.value :: k in LoadStatus(file, parse).value && r.value[k] == LoadStatus(file, parse).value[k]
    ensures r.Ok? ==> forall k | k in LoadStatus(file, parse).value && k !in r.value ::
      IsTimestampKey(k) && LoadStatus(file, parse).value[k].Text?
  {
    match LoadStatus(file, parse)
    case Err(e) => Err(e)
    case Ok(d) =>
      Ok(map k | k in d && !(IsTimestampKey(k) && d[k].Text?) :: d[k])
  }

  /** After the corrected load, the next save never raises. */
  lemma CleanLoadSaves(file: Option<Dict>, parse: string -> Option<int>, format: int -> string)
    requires LoadStatusDropping(file, parse).Ok?
    ensures SaveStatus(LoadStatusDropping(file, parse).value, format).Ok?
  {
  }
}
