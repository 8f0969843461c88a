/** The package's backup controller: it builds the two service clients and
    the file manager for one instance, then runs Jira and Confluence against
    the loaded status and saves the merged status when either proposed
    entries. */
module Controller {
  import opened Values
  import StatusStore
  import Jira
  import Confluence
  import Layout

  /** A Python parameter list after `self`: the names in order, the first
      `required` of them without a default. */
  datatype Signature = Signature(params: seq<string>, required: nat)

  /** A call site: how many positional arguments and which keywords it passes. */
  datatype Call = Call(positional: nat, keywords: seq<string>)

  /** Whether Python binds the call to the signature without TypeError: no
      more positional arguments than parameters, every keyword names a
      parameter not already filled positionally and appears once, and every
      required parameter is filled. */
  predicate Binds(sig: Signature, call: Call) {
    && call.positional <= |sig.params|
    && (forall i | 0 <= i < |call.keywords| :: call.keywords[i] in sig.params[call.positional..])
    && (forall i, j | 0 <= i < j < |call.keywords| :: call.keywords[i] != call.keywords[j])
    && (forall i | 0 <= i < sig.required && i < |sig.params| :: i < call.positional || sig.params[i] in call.keywords)
  }

  /** The constructors the controller calls. */
  const JiraClientInit: Signature := Signature(["url", "username", "api_token", "poll_interval"], 3)
  const ConfluenceClientInit: Signature := Signature(["url", "username", "api_token", "poll_interval", "include_attachments"], 3)
  /** The package's FileManager, which has no backup target directory. */
  const FileManagerInit: Signature := Signature(["url", "status_file"], 1)
  /** The FileManager of the src/ tree, which has one. */
  const TargetFileManagerInit: Signature := Signature(["url", "status_file", "backup_target_directory"], 1)

  /** The three constructor calls of one controller, and the file manager it gets. */
  datatype Wiring = Wiring(jira: Call, confluence: Call, fileManager: Call, fileManagerInit: Signature)

  /** The calls as the controller makes them: the target directory passed as
      a fifth positional argument to the Jira client and as a keyword to the
      package's file manager. */
  const AsWritten: Wiring := Wiring(Call(5, []), Call(4, []), Call(1, ["backup_target_directory"]), FileManagerInit)

  /** The calls with the target directory given only to the file manager that accepts it. */
  const Corrected: Wiring := Wiring(Call(4, []), Call(4, []), Call(1, ["backup_target_directory"]), TargetFileManagerInit)

  /** BackupController.__init__: the clients are built in order and the
      first call that does not bind raises TypeError. */
  function Construct(w: Wiring): (r: Result<Wiring>)
    ensures r.Ok? <==> Binds(JiraClientInit, w.jira) && Binds(ConfluenceClientInit, w.confluence) && Binds(w.fileManagerInit, w.fileManager)
    ensures r.Err? ==> r.error.TypeError?
    ensures !Binds(JiraClientInit, w.jira) ==> r == Err(TypeError("JiraClient.__init__"))
  {
    if !Binds(JiraClientInit, w.jira) then Err(TypeError("JiraClient.__init__"))
    else if !Binds(ConfluenceClientInit, w.confluence) then Err(TypeError("ConfluenceClient.__init__"))
    else if !Binds(w.fileManagerInit, w.fileManager) then Err(TypeError("FileManager.__init__"))
    else Ok(w)
  }

  /** As written, building a controller always raises TypeError at the Jira
      client, and the file manager call would not bind either. */
  lemma AsWrittenConstructionFails()
    ensures Construct(AsWritten) == Err(TypeError("JiraClient.__init__"))
    ensures !Binds(FileManagerInit, AsWritten.fileManager)
  {
    assert "backup_target_directory" !in FileManagerInit.params[1..];
    assert !(AsWritten.fileManager.keywords[0] in FileManagerInit.params[1..]);
  }

  /** With the corrected calls every constructor binds. */
  lemma CorrectedConstructionSucceeds()
    ensures Construct(Corrected) == Ok(Corrected)
  {
    assert TargetFileManagerInit.params[1..] == ["status_file", "backup_target_directory"];
    assert Corrected.fileManager.keywords[0] in TargetFileManagerInit.params[1..];
  }

  /** _log_last_backup_times: a truthy timestamp entry that is not a
      timestamp has no astimezone and raises AttributeError. */
  function LogLastBackupTimes(status: Dict): (r: Option<Error>)
    ensures r.None? <==> forall k | StatusStore.IsTimestampKey(k) && k in status :: !Truthy(status[k]) || status[k].Stamp?
    ensures r.Some? ==> r.value.AttributeError?
  {
    var jira := GetOr(status, LastJiraBackup, Null);
    var conf := GetOr(status, LastConfluenceBackup, Null);
    if Truthy(jira) && !jira.Stamp? then Some(AttributeError("object has no attribute 'astimezone'"))
    else if Truthy(conf) && !conf.Stamp? then Some(AttributeError("object has no attribute 'astimezone'"))
    else None
  }

  /** A status save_status could write never trips the logging. */
  lemma PersistableLogs(status: Dict)
    requires StatusStore.Persistable(status)
    ensures LogLastBackupTimes(status).None?
  {
  }

  /** What one orchestration did: whether it reported a change, the JSON
      object it wrote to the status file (if any), and the services' effects
      in order. */
  datatype Orchestration = Orchestration(changed: bool, written: Option<Dict>, effects: seq<Effect>)

  /** The merge-and-persist tail of orchestrate: the Jira entries, then the
      Confluence entries over them, overlaid on the loaded status and saved
      only when there is at least one entry. */
  function Persist(status: Dict, jira: Run, confluence: Run, format: int -> string): (r: Result<Orchestration>)
    ensures r.Ok? ==> (r.value.changed <==> jira.delta + confluence.delta != map[])
    ensures r.Ok? ==> (r.value.changed <==> r.value.written.Some?)
    ensures r.Ok? ==> r.value.effects == jira.effects + confluence.effects
    ensures jira.delta + confluence.delta == map[] ==> r == Ok(Orchestration(false, None, jira.effects + confluence.effects))
    ensures r.Err? <==> jira.delta + confluence.delta != map[] && !StatusStore.Persistable(status + (jira.delta + confluence.delta))
    ensures r.Ok? && r.value.written.Some? ==>
      r.value.written.value.Keys == StatusStore.SavedKeys(status + (jira.delta + confluence.delta))
  {
    var updated := jira.delta + confluence.delta;
    var effects := jira.effects + confluence.effects;
    if updated == map[] then Ok(Orchestration(false, None, effects))
    else match StatusStore.SaveStatus(status + updated, format)
      case Err(e) => Err(e)
      case Ok(saved) => Ok(Orchestration(true, Some(saved), effects))
  }

  /** orchestrate: load the status, log it, run Jira then Confluence with
      the same status and the same now, then persist. Nothing guards the
      services: an exception in either ends the run unsaved. */
  function Orchestrate(file: Option<Dict>, parse: string -> Option<int>, format: int -> string,
                       now: int, url: string, date: Layout.Date,
                       jiraServer: Jira.Server, confluenceServer: Confluence.Server): (r: Outcome<Orchestration>)
    ensures StatusStore.LoadStatus(file, parse).Err? ==> r == Raised(StatusStore.LoadStatus(file, parse).error)
    ensures r.Done? ==>
      && StatusStore.LoadStatus(file, parse).Ok?
      && LogLastBackupTimes(StatusStore.LoadStatus(file, parse).value).None?
      && Jira.ProcessBackup(jiraServer, url, StatusStore.LoadStatus(file, parse).value, now, date).Done?
      && Confluence.ProcessBackup(confluenceServer, url, now, date).Done?
    ensures StatusStore.LoadStatus(file, parse).Ok? ==>
      var status := StatusStore.LoadStatus(file, parse).value;
      && (LogLastBackupTimes(status).Some? ==> r == Raised(LogLastBackupTimes(status).value))
      && (LogLastBackupTimes(status).None? && Jira.ProcessBackup(jiraServer, url, status, now, date).Raised? ==>
            r == Raised(Jira.ProcessBackup(jiraServer, url, status, now, date).error))
      && (LogLastBackupTimes(status).None? && Jira.ProcessBackup(jiraServer, url, status, now, date).Done? ==>
            var confluence := Confluence.ProcessBackup(confluenceServer, url, now, date);
            && (confluence.Raised? ==> r == Raised(confluence.error))
            && (confluence.Done? ==>
                  var persisted := Persist(status, Jira.ProcessBackup(jiraServer, url, status, now, date).value, confluence.value, format);
                  r == (if persisted.Ok? then Done(persisted.value) else Raised(persisted.error))))
  {
    match StatusStore.LoadStatus(file, parse)
    case Err(e) => Raised(e)
    case Ok(status) =>
      match LogLastBackupTimes(status)
      case Some(e) => Raised(e)
      case None =>
        match Jira.ProcessBackup(jiraServer, url, status, now, date)
        case Raised(e) => Raised(e)
        case Polling => Polling
        case Done(jira) =>
          match Confluence.ProcessBackup(confluenceServer, url, now, date)
          case Raised(e) => Raised(e)
          case Polling => Polling
          case Done(confluence) =>
            match Persist(status, jira, confluence, format)
            case Err(e) => Raised(e)
            case Ok(o) => Done(o)
  }

  /** The two services never propose the same key, so the order of the two
      updates does not matter and neither overrides the other. */
  lemma {:induction false} DeltasDisjoint(jiraServer: Jira.Server, confluenceServer: Confluence.Server,
                                          url: string, status: Dict, now: int, date: Layout.Date)
    requires Jira.ProcessBackup(jiraServer, url, status, now, date).Done?
    requires Confluence.ProcessBackup(confluenceServer, url, now, date).Done?
    ensures var j := Jira.ProcessBackup(jiraServer, url, status, now, date).value.delta;
            var c := Confluence.ProcessBackup(confluenceServer, url, now, date).value.delta;
            j.Keys !! c.Keys && j + c == c + j
  {
    var j := Jira.ProcessBackup(jiraServer, url, status, now, date).value.delta;
    var c := Confluence.ProcessBackup(confluenceServer, url, now, date).value.delta;
    DisjointKeysCommute(j, c);
  }

  lemma DisjointKeysCommute(j: Dict, c: Dict)
    requires j == map[] || j.Keys == {LastJiraBackup, JiraTaskId, JiraFile}
    requires c == map[] || c.Keys == {LastConfluenceBackup, ConfluenceFile}
    ensures j.Keys !! c.Keys && j + c == c + j
  {
    assert j.Keys !! c.Keys;
    assert forall k | k in j + c :: k in c + j && (j + c)[k] == (c + j)[k];
  }

  /** The status file is written exactly when the run reports a change, and
      a change means one of the services proposed entries. */
  lemma {:induction false} ChangedIffEntries(file: Option<Dict>, parse: string -> Option<int>, format: int -> string,
                                             now: int, url: string, date: Layout.Date,
                                             jiraServer: Jira.Server, confluenceServer: Confluence.Server)
    requires Orchestrate(file, parse, format, now, url, date, jiraServer, confluenceServer).Done?
    ensures var o := Orchestrate(file, parse, format, now, url, date, jiraServer, confluenceServer).value;
            var status := StatusStore.LoadStatus(file, parse).value;
            var j := Jira.ProcessBackup(jiraServer, url, status, now, date).value;
            var c := Confluence.ProcessBackup(confluenceServer, url, now, date).value;
            && (o.changed <==> o.written.Some?)
            && (o.changed <==> j.delta != map[] || c.delta != map[])
            && o.effects == j.effects + c.effects
  {
    var status := StatusStore.LoadStatus(file, parse).value;
    var j := Jira.ProcessBackup(jiraServer, url, status, now, date).value;
    var c := Confluence.ProcessBackup(confluenceServer, url, now, date).value;
    var o := Orchestrate(file, parse, format, now, url, date, jiraServer, confluenceServer).value;
    assert Persist(status, j, c, format) == Ok(o);
    if j.delta != map[] {
      var k :| k in j.delta;
      assert k in j.delta + c.delta;
    }
    if c.delta != map[] {
      var k :| k in c.delta;
      assert k in j.delta + c.delta;
    }
  }

  /** The deltas the two services can propose: nothing, or their full
      set of entries with the archive path and a timestamp. */
  predicate JiraShaped(j: Dict, path: string) {
    j == map[] || (j.Keys == {LastJiraBackup, JiraTaskId, JiraFile} && j[JiraFile] == Text(path) && j[LastJiraBackup].Stamp?)
  }

  predicate ConfluenceShaped(c: Dict, path: string) {
    c == map[] || (c.Keys == {LastConfluenceBackup, ConfluenceFile} && c[ConfluenceFile] == Text(path) && c[LastConfluenceBackup].Stamp?)
  }

  /** What Persist writes: the loaded status overlaid with the new entries,
      projected onto the saved keys; new entries are written as proposed
      and the entries of a service that proposed nothing are written back
      as they were loaded. */
  lemma {:induction false} PersistContents(status: Dict, jira: Run, confluence: Run, format: int -> string,
                                           jiraPath: string, confluencePath: string)
    requires JiraShaped(jira.delta, jiraPath) && ConfluenceShaped(confluence.delta, confluencePath)
    requires Persist(status, jira, confluence, format).Ok?
    requires Persist(status, jira, confluence, format).value.written.Some?
    ensures var w := Persist(status, jira, confluence, format).value.written.value;
            var j := jira.delta;
            var c := confluence.delta;
            && StatusStore.Persistable(status + (j + c))
            && (j != map[] ==>
                  && w[JiraFile] == Text(jiraPath)
                  && w[JiraTaskId] == j[JiraTaskId]
                  && w[LastJiraBackup] == Text(format(j[LastJiraBackup].ms)))
            && (c != map[] ==>
                  && w[ConfluenceFile] == Text(confluencePath)
                  && w[LastConfluenceBackup] == Text(format(c[LastConfluenceBackup].ms)))
            && (j == map[] && LastJiraBackup in status ==>
                  w[JiraTaskId] == GetOr(status, JiraTaskId, Null) && w[JiraFile] == GetOr(status, JiraFile, Null))
            && (c == map[] && LastConfluenceBackup in status ==> w[ConfluenceFile] == GetOr(status, ConfluenceFile, Null))
  {
    assert StatusStore.Persistable(status + (jira.delta + confluence.delta));
    PersistJiraEntries(status, jira, confluence, format, jiraPath, confluencePath);
    PersistConfluenceEntries(status, jira, confluence, format, jiraPath, confluencePath);
  }

  /** One entry of a successful save, as SaveStatus promises it. */
  lemma SavedValue(merged: Dict, format: int -> string, k: string)
    requires StatusStore.SaveStatus(merged, format).Ok? && k in StatusStore.SavedKeys(merged)
    ensures var w := StatusStore.SaveStatus(merged, format).value;
      k in w && w[k] == (if StatusStore.IsTimestampKey(k) then Text(format(merged[k].ms)) else GetOr(merged, k, Null))
  {
  }

  lemma {:induction false} PersistJiraEntries(status: Dict, jira: Run, confluence: Run, format: int -> string,
                                              jiraPath: string, confluencePath: string)
    requires JiraShaped(jira.delta, jiraPath) && ConfluenceShaped(confluence.delta, confluencePath)
    requires Persist(status, jira, confluence, format).Ok?
    requires Persist(status, jira, confluence, format).value.written.Some?
    ensures var w := Persist(status, jira, confluence, format).value.written.value;
            var j := jira.delta;
            && (j != map[] ==>
                  && w[JiraFile] == Text(jiraPath)
                  && w[JiraTaskId] == j[JiraTaskId]
                  && w[LastJiraBackup] == Text(format(j[LastJiraBackup].ms)))
            && (j == map[] && LastJiraBackup in status ==>
                  w[JiraTaskId] == GetOr(status, JiraTaskId, Null) && w[JiraFile] == GetOr(status, JiraFile, Null))
  {
    var j, c := jira.delta, confluence.delta;
    var merged := status + (j + c);
    DisjointKeysCommute(j, c);
    assert Persist(status, jira, confluence, format).value.written.value == StatusStore.SaveStatus(merged, format).value;
    if j != map[] {
      assert LastJiraBackup in j && JiraFile in j && JiraTaskId in j;
      assert merged[JiraFile] == j[JiraFile] && merged[JiraTaskId] == j[JiraTaskId];
      assert merged[LastJiraBackup] == j[LastJiraBackup];
      SavedValue(merged, format, JiraFile);
      SavedValue(merged, format, JiraTaskId);
      SavedValue(merged, format, LastJiraBackup);
    } else if LastJiraBackup in status {
      assert JiraTaskId !in c && JiraFile !in c;
      assert GetOr(merged, JiraTaskId, Null) == GetOr(status, JiraTaskId, Null);
      assert GetOr(merged, JiraFile, Null) == GetOr(status, JiraFile, Null);
      SavedValue(merged, format, JiraFile);
      SavedValue(merged, format, JiraTaskId);
    }
  }

  lemma {:induction false} PersistConfluenceEntries(status: Dict, jira: Run, confluence: Run, format: int -> string,
                                                    jiraPath: string, confluencePath: string)
    requires JiraShaped(jira.delta, jiraPath) && ConfluenceShaped(confluence.delta, confluencePath)
    requires Persist(status, jira, confluence, format).Ok?
    requires Persist(status, jira, confluence, format).value.written.Some?
    ensures var w := Persist(status, jira, confluence, format).value.written.value;
            var c := confluence.delta;
            && (c != map[] ==>
                  && w[ConfluenceFile] == Text(confluencePath)
                  && w[LastConfluenceBackup] == Text(format(c[LastConfluenceBackup].ms)))
            && (c == map[] && LastConfluenceBackup in status ==> w[ConfluenceFile] == GetOr(status, ConfluenceFile, Null))
  {
    var j, c := jira.delta, confluence.delta;
    var merged := status + (j + c);
    DisjointKeysCommute(j, c);
    assert Persist(status, jira, confluence, format).value.written.value == StatusStore.SaveStatus(merged, format).value;
    if c != map[] {
      assert LastConfluenceBackup in c && ConfluenceFile in c;
      assert merged[ConfluenceFile] == c[ConfluenceFile];
      assert merged[LastConfluenceBackup] == c[LastConfluenceBackup];
      SavedValue(merged, format, ConfluenceFile);
      SavedValue(merged, format, LastConfluenceBackup);
    } else if LastConfluenceBackup in status {
      assert GetOr(merged, ConfluenceFile, Null) == GetOr(status, ConfluenceFile, Null);
      SavedValue(merged, format, ConfluenceFile);
    }
  }

  /** The services' deltas have the shapes Persist relies on, so a written
      status file records the archives just fetched under their paths. */
  lemma {:induction false} WrittenContents(file: Option<Dict>, parse: string -> Option<int>, format: int -> string,
                                           now: int, url: string, date: Layout.Date,
                                           jiraServer: Jira.Server, confluenceServer: Confluence.Server)
    requires Orchestrate(file, parse, format, now, url, date, jiraServer, confluenceServer).Done?
    requires Orchestrate(file, parse, format, now, url, date, jiraServer, confluenceServer).value.written.Some?
    ensures var w := Orchestrate(file, parse, format, now, url, date, jiraServer, confluenceServer).value.written.value;
            var status := StatusStore.LoadStatus(file, parse).value;
            var j := Jira.ProcessBackup(jiraServer, url, status, now, date).value.delta;
            var c := Confluence.ProcessBackup(confluenceServer, url, now, date).value.delta;
            && (j != map[] ==> w[JiraFile] == Text(Jira.ArchivePath(url, date)) && w[JiraTaskId] == j[JiraTaskId])
            && (c != map[] ==> w[ConfluenceFile] == Text(Confluence.ArchivePath(url, date)))
  {
    var status := StatusStore.LoadStatus(file, parse).value;
    var j := Jira.ProcessBackup(jiraServer, url, status, now, date).value;
    var c := Confluence.ProcessBackup(confluenceServer, url, now, date).value;
    assert Orchestrate(file, parse, format, now, url, date, jiraServer, confluenceServer) == Done(Persist(status, j, c, format).value);
    PersistContents(status, j, c, format, Jira.ArchivePath(url, date), Confluence.ArchivePath(url, date));
  }

  /** A Jira step that raises ends the run before Confluence is asked
      anything: the outcome does not depend on the Confluence server. */
  lemma JiraFailureAborts(file: Option<Dict>, parse: string -> Option<int>, format: int -> string,
                          now: int, url: string, date: Layout.Date,
                          jiraServer: Jira.Server, confluence1: Confluence.Server, confluence2: Confluence.Server)
    requires StatusStore.LoadStatus(file, parse).Ok?
    requires LogLastBackupTimes(StatusStore.LoadStatus(file, parse).value).None?
    requires Jira.ProcessBackup(jiraServer, url, StatusStore.LoadStatus(file, parse).value, now, date).Raised?
    ensures Orchestrate(file, parse, format, now, url, date, jiraServer, confluence1)
         == Orchestrate(file, parse, format, now, url, date, jiraServer, confluence2)
         == Raised(Jira.ProcessBackup(jiraServer, url, StatusStore.LoadStatus(file, parse).value, now, date).error)
  {
  }

  /** A stored timestamp that does not parse and is not empty survives the
      load as text and makes the logging raise AttributeError before either
      service runs. */
  lemma UnparsableTimestampStopsRun(data: Dict, key: string, parse: string -> Option<int>, format: int -> string,
                                    now: int, url: string, date: Layout.Date,
                                    jiraServer: Jira.Server, confluenceServer: Confluence.Server)
    requires StatusStore.IsTimestampKey(key) && key in data && data[key].Text? && data[key].s != ""
    requires parse(data[key].s).None?
    requires forall k | k in data && StatusStore.IsTimestampKey(k) :: data[k].Text?
    ensures Orchestrate(Some(data), parse, format, now, url, date, jiraServer, confluenceServer).Raised?
    ensures Orchestrate(Some(data), parse, format, now, url, date, jiraServer, confluenceServer).error.AttributeError?
  {
    StatusStore.UnparsableTimestampBlocksSave(data, key, parse, format);
    var status := StatusStore.LoadStatus(Some(data), parse).value;
    assert status[key] == data[key];
    assert LogLastBackupTimes(status).Some?;
  }

  /** An empty stored timestamp does not parse either, passes the logging
      (it is falsy) and makes the save raise AttributeError as soon as the
      other service proposes entries. */
  lemma {:induction false} EmptyTimestampBlocksSave(status: Dict, jira: Run, confluence: Run, format: int -> string)
    requires GetOr(status, LastConfluenceBackup, Null) == Text("")
    requires confluence.delta == map[] && jira.delta != map[]
    requires jira.delta.Keys == {LastJiraBackup, JiraTaskId, JiraFile}
    ensures Persist(status, jira, confluence, format) == Err(AttributeError("object has no attribute 'isoformat'"))
  {
    var merged := status + (jira.delta + confluence.delta);
    assert merged[LastConfluenceBackup] == Text("");
    assert LastJiraBackup in merged;
    assert !StatusStore.Persistable(merged);
    assert jira.delta + confluence.delta != map[] by {
      assert LastJiraBackup in jira.delta + confluence.delta;
    }
    var save := StatusStore.SaveStatus(merged, format);
    assert save.Err?;
  }
}
