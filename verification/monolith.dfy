/** The single-file draft of the tool (backup.py). Its Jira logic is the
    package's, except that a failing or non-integer lastTaskId raises, a
    task without `submitted` ends the process with exit status 1, and the
    archive is downloaded in one attempt into a fresh file. Its Confluence
    step refers to a `now` that is not defined in that scope: whenever
    Confluence is available the step raises NameError. The corrected step,
    with `now` passed in, keeps the remote file's own name for the archive. */
module Monolith {
  import opened Values
  import PyText
  import PyPath
  import Polling
  import Transport
  import Layout
  import SrcLayout
  import StatusStore
  import Jira
  import Confluence
  import Controller
  import Download

  /** fetch_last_jira_task_id: a failed request raises, a blank body means
      no task, an integer body is the task id, anything else raises
      RuntimeError. */
  function FetchLastJiraTaskId(reply: Result<string>): (r: Result<Option<int>>)
    ensures reply.Err? ==> r == Err(reply.error)
    ensures reply.Ok? ==> (r.Err? <==> PyText.StripSpace(reply.value) != "" && PyText.ParseInt(reply.value).Err?)
    ensures reply.Ok? && r.Err? ==> r.error.RuntimeError?
    ensures r.Ok? ==> r.value == Jira.FetchLastTaskId(reply)
  {
    match reply
    case Err(e) => Err(e)
    case Ok(text) => Jira.ReadTaskId(text)
  }

  /** should_backup: strictly more than 24 hours have passed. */
  predicate ShouldBackup(now: int, last: int) {
    now - last > DayMs
  }

  /** A backup is due exactly when the last one is outside the Jira reuse window. */
  lemma ShouldBackupIsStale(now: int, last: int)
    ensures ShouldBackup(now, last) <==> !Jira.Fresh(now, last)
  {
  }

  /** _prepare_jira_backup_path: "jira-backup-<date>.zip" in the instance folder. */
  function JiraBackupPath(url: string, date: Layout.Date): string {
    PyPath.Join(Layout.Sanitize(url), "jira-backup-" + Layout.DateText(date) + ".zip")
  }

  /** It is the path the package's file manager prepares for Jira. */
  lemma JiraBackupPathAgrees(url: string, date: Layout.Date)
    ensures JiraBackupPath(url, date) == Jira.ArchivePath(url, date)
  {
    var d := Layout.DateText(date);
    var name := Layout.BackupFileName("Jira", date, Layout.Zip);
    assert name == PyText.Lower("Jira") + "-backup-" + d + Layout.Zip;
    LowerJira();
    assert "jira" + "-backup-" == "jira-backup-";
    assert name == "jira-backup-" + d + ".zip";
  }

  lemma LowerJira()
    ensures PyText.Lower("Jira") == "jira"
  {
    var lower := PyText.Lower("Jira");
    assert lower[0] == 'j' && lower[1] == 'i' && lower[2] == 'r' && lower[3] == 'a';
  }

  /** sys.exit(1) where the package raises ValueError. */
  const Exit1: Error := SystemExit(1)

  /** _handle_jira_backup with _check_existing_jira_task and
      _create_new_jira_backup: the package's decision, with the task id read
      by FetchLastJiraTaskId and a missing `submitted` exiting the process. */
  function HandleJira(server: Jira.Server, url: string, status: Dict, now: int, date: Layout.Date): (r: Outcome<Run>)
    ensures FetchLastJiraTaskId(server.lastTaskId).Err? ==> r == Raised(FetchLastJiraTaskId(server.lastTaskId).error)
    ensures FetchLastJiraTaskId(server.lastTaskId).Ok? && Jira.AlreadyProcessed(FetchLastJiraTaskId(server.lastTaskId).value, status) ==>
      r == Done(Skipped)
    ensures var id := FetchLastJiraTaskId(server.lastTaskId);
      (&& id.Ok? && id.value.Some? && id.value.value != 0 && !Jira.AlreadyProcessed(id.value, status)
       && server.taskInfo.Ok? && !Truthy(GetOr(server.taskInfo.value, "submitted", Null))) ==> r == Raised(Exit1)
    ensures r.Done? && r.value.delta != map[] ==>
      && r.value.delta.Keys == {LastJiraBackup, JiraTaskId, JiraFile}
      && r.value.delta[JiraFile] == Text(JiraBackupPath(url, date))
      && r.value.delta[LastJiraBackup].Stamp?
    ensures r.Done? && r.value.delta != map[] && Triggered in r.value.effects ==>
      r.value.delta[LastJiraBackup] == Stamp(now)
    ensures r.Done? && r.value.delta != map[] && Triggered !in r.value.effects ==>
      Jira.Fresh(now, r.value.delta[LastJiraBackup].ms)
  {
    var path := JiraBackupPath(url, date);
    match FetchLastJiraTaskId(server.lastTaskId)
    case Err(e) => Raised(e)
    case Ok(serverId) =>
      var check := (k: int) => Jira.CheckExistingTask(server, url, k, now, path, Exit1);
      var create := Jira.CreateNewBackup(server, url, now, path);
      Jira.ProcessBackupShape(serverId, status, check, create, server, url, now, path, Exit1);
      Jira.Decide(serverId, status, check, create)
  }

  /** Where the task id can be read and every task info it fetches has a
      `submitted`, the draft's Jira step is exactly the package's. */
  lemma {:induction false} HandleJiraAgrees(server: Jira.Server, url: string, status: Dict, now: int, date: Layout.Date)
    requires FetchLastJiraTaskId(server.lastTaskId).Ok?
    requires server.taskInfo.Ok? ==> Truthy(GetOr(server.taskInfo.value, "submitted", Null))
    ensures HandleJira(server, url, status, now, date) == Jira.ProcessBackup(server, url, status, now, date)
  {
    JiraBackupPathAgrees(url, date);
    var path := Jira.ArchivePath(url, date);
    var serverId := Jira.FetchLastTaskId(server.lastTaskId);
    var exits := (k: int) => Jira.CheckExistingTask(server, url, k, now, path, Exit1);
    var raises := (k: int) => Jira.CheckExistingTask(server, url, k, now, path, Jira.MissingSubmitted);
    var create := Jira.CreateNewBackup(server, url, now, path);
    if serverId.Some? {
      assert exits(serverId.value) == raises(serverId.value);
    }
    Jira.DecideSeesOnlyServerTask(serverId, status, exits, raises, create);
  }

  /** In the draft too, a fresh last task that finished and downloads is
      reused with its own submission time, and no export is triggered. */
  lemma HandleJiraReusesFreshTask(server: Jira.Server, url: string, status: Dict, now: int, date: Layout.Date)
    requires FetchLastJiraTaskId(server.lastTaskId).Ok?
    requires !Jira.AlreadyProcessed(Jira.FetchLastTaskId(server.lastTaskId), status)
    requires Jira.FetchLastTaskId(server.lastTaskId).Some? && Jira.FetchLastTaskId(server.lastTaskId).value != 0
    requires server.taskInfo.Ok? && Truthy(GetOr(server.taskInfo.value, "submitted", Null))
    requires AsNumber(GetOr(server.taskInfo.value, "submitted", Null)).Some?
    requires Jira.Fresh(now, AsNumber(GetOr(server.taskInfo.value, "submitted", Null)).value)
    requires Jira.WaitForCompletion(server.existingPolls) == Done(true)
    requires Jira.FetchArchive(url, server.existingUrl, server.existingDownload).Ok?
    ensures var id := Jira.FetchLastTaskId(server.lastTaskId).value;
      var submitted := AsNumber(GetOr(server.taskInfo.value, "submitted", Null)).value;
      HandleJira(server, url, status, now, date)
        == Done(Run(Jira.Entries(submitted, id, JiraBackupPath(url, date)),
                    [ConsultedTask(id), Downloaded(Jira.FetchArchive(url, server.existingUrl, server.existingDownload).value)]))
    ensures Triggered !in HandleJira(server, url, status, now, date).value.effects
  {
    HandleJiraAgrees(server, url, status, now, date);
    Jira.ReusesFreshTask(server, url, status, now, date);
    JiraBackupPathAgrees(url, date);
  }

  /** The local name of the Confluence archive: the remote file's base name
      inside the instance folder (basename of a value that is not text
      raises TypeError). */
  function LocalConfluenceFile(url: string, remote: Value): (r: Result<string>)
    ensures r.Ok? <==> remote.Text?
    ensures r.Ok? ==> PyPath.BaseName(r.value) == PyPath.BaseName(remote.s)
    ensures r.Ok? ==> Layout.Sanitize(url) <= r.value
    ensures r.Ok? && Layout.Sanitize(url) != [] ==> r.value == Layout.Sanitize(url) + "/" + PyPath.BaseName(remote.s)
  {
    if remote.Text? then
      var name := PyPath.BaseName(remote.s);
      PyPath.BaseNameOfJoin(Layout.Sanitize(url), name);
      PyPath.JoinExtends(Layout.Sanitize(url), name);
      Ok(PyPath.Join(Layout.Sanitize(url), name))
    else Err(TypeError("expected str, bytes or os.PathLike object"))
  }

  /** wait_for_confluence_file: poll until complete, then download the named
      file in one attempt. */
  function WaitForConfluenceFile(url: string, polls: seq<Result<Dict>>, download: Option<Error>): (r: Outcome<Option<Confluence.Details>>)
    ensures r.Polling? <==> forall i | 0 <= i < |polls| :: Confluence.ClassifyPoll(polls[i]) == Ok(Polling.Pending)
    ensures r.Done? && r.value.Some? ==> download.None? && exists i | 0 <= i < |polls| ::
      && polls[i].Ok? && Confluence.ClassifyProgress(polls[i].value) == Polling.Succeeded
      && Polling.AllPending(Polling.ClassifyAll(polls, Confluence.ClassifyPoll)[..i])
      && GetOr(polls[i].value, "filename", Null).Text?
      && r.value.value.url == PyText.RStrip(url, {'/'}) + "/" + GetOr(polls[i].value, "filename", Null).s
      && r.value.value.filename == LocalConfluenceFile(url, GetOr(polls[i].value, "filename", Null)).value
    ensures r.Done? && r.value.Some? ==> Layout.Sanitize(url) <= r.value.value.filename
  {
    var obs := Polling.ClassifyAll(polls, Confluence.ClassifyPoll);
    match Polling.Await(obs)
    case Raised(e) => Raised(e)
    case Polling => Polling
    case Done(stop) =>
      if !stop.success then Done(None)
      else
        assert obs[stop.index] == Confluence.ClassifyPoll(polls[stop.index]);
        var r := DownloadNamedFile(url, polls[stop.index].value, download);
        assert r.Done? && r.value.Some? ==> Polling.AllPending(obs[..stop.index]);
        r
  }

  /** The converse of WaitForConfluenceFile: the first reply that is not
      pending decides. An exception propagates, a failed backup gives
      nothing, and a complete reply ends as DownloadNamedFile does with it. */
  lemma {:induction false} WaitForConfluenceFileStopsAt(url: string, polls: seq<Result<Dict>>, download: Option<Error>, i: nat)
    requires i < |polls| && Polling.AllPending(Polling.ClassifyAll(polls, Confluence.ClassifyPoll)[..i])
    requires Confluence.ClassifyPoll(polls[i]) != Ok(Polling.Pending)
    ensures polls[i].Err? ==> WaitForConfluenceFile(url, polls, download) == Raised(polls[i].error)
    ensures polls[i].Ok? && Confluence.ClassifyProgress(polls[i].value) == Polling.Failed ==>
      WaitForConfluenceFile(url, polls, download) == Done(None)
    ensures polls[i].Ok? && Confluence.ClassifyProgress(polls[i].value) == Polling.Succeeded ==>
      WaitForConfluenceFile(url, polls, download) == DownloadNamedFile(url, polls[i].value, download)
  {
    Polling.AwaitStopsAt(Polling.ClassifyAll(polls, Confluence.ClassifyPoll), i);
  }

  /** The end of wait_for_confluence_file once the poll reports the file:
      nothing without a filename, otherwise one download of it into the
      instance folder. */
  function DownloadNamedFile(url: string, reply: Dict, download: Option<Error>): (r: Outcome<Option<Confluence.Details>>)
    ensures !r.Polling?
    ensures r.Done? && r.value.Some? ==>
      && download.None?
      && GetOr(reply, "filename", Null).Text?
      && r.value.value.url == PyText.RStrip(url, {'/'}) + "/" + GetOr(reply, "filename", Null).s
      && r.value.value.filename == LocalConfluenceFile(url, GetOr(reply, "filename", Null)).value
      && Layout.Sanitize(url) <= r.value.value.filename
    ensures !Truthy(GetOr(reply, "filename", Null)) ==> r == Done(None)
    ensures Truthy(GetOr(reply, "filename", Null)) && !GetOr(reply, "filename", Null).Text? ==> r.Raised? && r.error.TypeError?
    ensures GetOr(reply, "filename", Null).Text? && Truthy(GetOr(reply, "filename", Null)) ==>
      && (download.Some? ==> r == Raised(download.value))
      && (download.None? ==> r.Done? && r.value.Some?)
  {
    var remote := GetOr(reply, "filename", Null);
    if !Truthy(remote) then Done(None)
    else match LocalConfluenceFile(url, remote)
      case Err(e) => Raised(e)
      case Ok(local) =>
        if download.Some? then Raised(download.value)
        else Done(Some(Confluence.Details(PyText.RStrip(url, {'/'}) + "/" + PyText.Str(remote), local)))
  }

  /** _handle_confluence_backup as written: `now` is read before it is ever
      assigned in that scope, so an available Confluence raises NameError. */
  function HandleConfluenceAsWritten(server: Confluence.Server): (r: Outcome<Run>)
    ensures Confluence.GetBackupStatus(server.status) == Ok(None) ==> r == Done(Skipped)
    ensures Confluence.GetBackupStatus(server.status).Err? ==> r == Raised(Confluence.GetBackupStatus(server.status).error)
    ensures Confluence.GetBackupStatus(server.status).Ok? && Confluence.GetBackupStatus(server.status).value.Some? ==>
      r == Raised(NameError("now"))
  {
    match Confluence.GetBackupStatus(server.status)
    case Err(e) => Raised(e)
    case Ok(None) => Done(Skipped)
    case Ok(Some(_)) => Raised(NameError("now"))
  }

  /** _handle_confluence_backup with the run's `now` passed in. */
  function HandleConfluence(server: Confluence.Server, url: string, now: int): (r: Outcome<Run>)
    ensures Confluence.GetBackupStatus(server.status) == Ok(None) ==> r == Done(Skipped)
    ensures Confluence.GetBackupStatus(server.status).Err? ==> r == Raised(Confluence.GetBackupStatus(server.status).error)
    ensures r.Done? && r.value.delta != map[] ==>
      && r.value.delta.Keys == {LastConfluenceBackup, ConfluenceFile}
      && r.value.delta[ConfluenceFile].Text?
      && Layout.Sanitize(url) <= r.value.delta[ConfluenceFile].s
      && r.value.delta[LastConfluenceBackup].Stamp?
    ensures r.Done? && r.value.delta != map[] && Triggered in r.value.effects ==>
      r.value.delta[LastConfluenceBackup] == Stamp(now)
    ensures r.Done? && r.value.delta != map[] && Triggered !in r.value.effects ==>
      now - WeekMs < r.value.delta[LastConfluenceBackup].ms
    ensures Confluence.GetBackupStatus(server.status).Ok? && Confluence.GetBackupStatus(server.status).value.Some? ==>
      var descriptor := Confluence.GetBackupStatus(server.status).value.value;
      && (Confluence.CanUseExisting(descriptor, now) ==>
            r == FetchConfluenceFile(server, url, AsNumber(GetOr(descriptor, "time", Null)).value, []))
      && (!Confluence.CanUseExisting(descriptor, now) && server.trigger.Some? ==> r == Raised(server.trigger.value))
      && (!Confluence.CanUseExisting(descriptor, now) && server.trigger.None? ==>
            match Confluence.WaitForCompletion(server.completionPolls)
            case Raised(e) => r == Raised(e)
            case Polling => r == Polling
            case Done(false) => r == Done(Run(map[], [Triggered]))
            case Done(true) => r == FetchConfluenceFile(server, url, now, [Triggered]))
      && (r.Done? ==> (Triggered in r.value.effects <==> !Confluence.CanUseExisting(descriptor, now)))
  {
    match Confluence.GetBackupStatus(server.status)
    case Err(e) => Raised(e)
    case Ok(None) => Done(Skipped)
    case Ok(Some(descriptor)) =>
      if Confluence.CanUseExisting(descriptor, now) then
        var ms := AsNumber(GetOr(descriptor, "time", Null)).value;
        FetchConfluenceFile(server, url, ms, [])
      else if server.trigger.Some? then Raised(server.trigger.value)
      else match Confluence.WaitForCompletion(server.completionPolls)
        case Raised(e) => Raised(e)
        case Polling => Polling
        case Done(false) => Done(Run(map[], [Triggered]))
        case Done(true) =>
          var r := FetchConfluenceFile(server, url, now, [Triggered]);
          assert r.Done? ==> r.value.effects[0] == Triggered;
          r
  }

  /** wait_for_confluence_file after the effects `before`: the two entries,
      stamped `stamp`, name a file in the instance folder. */
  function FetchConfluenceFile(server: Confluence.Server, url: string, stamp: int, before: seq<Effect>): (r: Outcome<Run>)
    ensures r.Done? ==> |r.value.effects| >= |before| && r.value.effects[..|before|] == before
    ensures r.Done? ==> Triggered !in r.value.effects[|before|..]
    ensures r.Done? && r.value.delta != map[] ==>
      && r.value.delta.Keys == {LastConfluenceBackup, ConfluenceFile}
      && r.value.delta[LastConfluenceBackup] == Stamp(stamp)
      && r.value.delta[ConfluenceFile].Text?
      && Layout.Sanitize(url) <= r.value.delta[ConfluenceFile].s
    ensures var waited := WaitForConfluenceFile(url, server.filePolls, server.download);
      && (r.Done? <==> waited.Done?)
      && (waited.Raised? ==> r == Raised(waited.error))
      && (r.Done? ==> (r.value.delta != map[] <==> waited.value.Some?))
      && (r.Done? && waited.value.Some? ==> r.value.delta[ConfluenceFile] == Text(waited.value.value.filename))
  {
    var waited := WaitForConfluenceFile(url, server.filePolls, server.download);
    if waited.Done? && waited.value.Some? then
      var file := waited.value.value.filename;
      Confluence.EntriesShape(stamp, file);
      Confluence.Fetched(waited, stamp, before)
    else
      Confluence.Fetched(waited, stamp, before)
  }

  /** The two Confluence steps differ only where the draft reads `now`. */
  lemma ConfluenceStepsAgreeWhenUnavailable(server: Confluence.Server, url: string, now: int)
    requires !(Confluence.GetBackupStatus(server.status).Ok? && Confluence.GetBackupStatus(server.status).value.Some?)
    ensures HandleConfluenceAsWritten(server) == HandleConfluence(server, url, now)
  {
  }

  /** orchestrate of the draft: load and log the status, run Jira, then
      Confluence, and save the merged status when there are new entries. It
      returns nothing; the value here is the file written, if any. */
  function Orchestrate(file: Option<Dict>, parse: string -> Option<int>, format: int -> string,
                       now: int, url: string, date: Layout.Date,
                       jiraServer: Jira.Server, confluenceServer: Confluence.Server): (r: Outcome<Option<Dict>>)
    ensures r.Done? ==>
      && StatusStore.LoadStatus(file, parse).Ok?
      && HandleJira(jiraServer, url, StatusStore.LoadStatus(file, parse).value, now, date).Done?
      && HandleConfluenceAsWritten(confluenceServer).Done?
    ensures StatusStore.LoadStatus(file, parse).Err? ==> r == Raised(StatusStore.LoadStatus(file, parse).error)
    ensures StatusStore.LoadStatus(file, parse).Ok? ==>
      var status := StatusStore.LoadStatus(file, parse).value;
      && (Controller.LogLastBackupTimes(status).Some? ==> r == Raised(Controller.LogLastBackupTimes(status).value))
      && (Controller.LogLastBackupTimes(status).None? && HandleJira(jiraServer, url, status, now, date).Raised? ==>
            r == Raised(HandleJira(jiraServer, url, status, now, date).error))
      && (Controller.LogLastBackupTimes(status).None? && HandleJira(jiraServer, url, status, now, date).Done? ==>
            var confluence := HandleConfluenceAsWritten(confluenceServer);
            && (confluence.Raised? ==> r == Raised(confluence.error))
            && (confluence.Done? ==>
                  var persisted := Controller.Persist(status, HandleJira(jiraServer, url, status, now, date).value, confluence.value, format);
                  r == (if persisted.Ok? then Done(persisted.value.written) else Raised(persisted.error))))
  {
    match StatusStore.LoadStatus(file, parse)
    case Err(e) => Raised(e)
    case Ok(status) =>
      match Controller.LogLastBackupTimes(status)
      case Some(e) => Raised(e)
      case None =>
        match HandleJira(jiraServer, url, status, now, date)
        case Raised(e) => Raised(e)
        case Polling => Polling
        case Done(jira) =>
          match HandleConfluenceAsWritten(confluenceServer)
          case Raised(e) => Raised(e)
          case Polling => Polling
          case Done(confluence) =>
            match Controller.Persist(status, jira, confluence, format)
            case Err(e) => Raised(e)
            case Ok(o) => Done(o.written)
  }

  /** When Confluence is available the draft's run always raises NameError,
      so a Jira archive it has just downloaded is never recorded. */
  lemma NameErrorLosesJiraEntries(file: Option<Dict>, parse: string -> Option<int>, format: int -> string,
                                  now: int, url: string, date: Layout.Date,
                                  jiraServer: Jira.Server, confluenceServer: Confluence.Server)
    requires StatusStore.LoadStatus(file, parse).Ok?
    requires Controller.LogLastBackupTimes(StatusStore.LoadStatus(file, parse).value).None?
    requires HandleJira(jiraServer, url, StatusStore.LoadStatus(file, parse).value, now, date).Done?
    requires Confluence.GetBackupStatus(confluenceServer.status).Ok?
    requires Confluence.GetBackupStatus(confluenceServer.status).value.Some?
    ensures Orchestrate(file, parse, format, now, url, date, jiraServer, confluenceServer) == Raised(NameError("now"))
  {
  }

  /** orchestrate with the corrected Confluence step. */
  function OrchestrateCorrected(file: Option<Dict>, parse: string -> Option<int>, format: int -> string,
                                now: int, url: string, date: Layout.Date,
                                jiraServer: Jira.Server, confluenceServer: Confluence.Server): (r: Outcome<Option<Dict>>)
    ensures r.Done? ==>
      && StatusStore.LoadStatus(file, parse).Ok?
      && HandleJira(jiraServer, url, StatusStore.LoadStatus(file, parse).value, now, date).Done?
      && HandleConfluence(confluenceServer, url, now).Done?
    ensures StatusStore.LoadStatus(file, parse).Err? ==> r == Raised(StatusStore.LoadStatus(file, parse).error)
    ensures StatusStore.LoadStatus(file, parse).Ok? ==>
      var status := StatusStore.LoadStatus(file, parse).value;
      && (Controller.LogLastBackupTimes(status).Some? ==> r == Raised(Controller.LogLastBackupTimes(status).value))
      && (Controller.LogLastBackupTimes(status).None? && HandleJira(jiraServer, url, status, now, date).Raised? ==>
            r == Raised(HandleJira(jiraServer, url, status, now, date).error))
      && (Controller.LogLastBackupTimes(status).None? && HandleJira(jiraServer, url, status, now, date).Done? ==>
            var confluence := HandleConfluence(confluenceServer, url, now);
            && (confluence.Raised? ==> r == Raised(confluence.error))
            && (confluence.Done? ==>
                  var persisted := Controller.Persist(status, HandleJira(jiraServer, url, status, now, date).value, confluence.value, format);
                  r == (if persisted.Ok? then Done(persisted.value.written) else Raised(persisted.error))))
  {
    match StatusStore.LoadStatus(file, parse)
    case Err(e) => Raised(e)
    case Ok(status) =>
      match Controller.LogLastBackupTimes(status)
      case Some(e) => Raised(e)
      case None =>
        match HandleJira(jiraServer, url, status, now, date)
        case Raised(e) => Raised(e)
        case Polling => Polling
        case Done(jira) =>
          match HandleConfluence(confluenceServer, url, now)
          case Raised(e) => Raised(e)
          case Polling => Polling
          case Done(confluence) =>
            match Controller.Persist(status, jira, confluence, format)
            case Err(e) => Raised(e)
            case Ok(o) => Done(o.written)
  }

  /** When Confluence gives no status the draft's run and the corrected run
      are the same run, so the draft saves exactly what the corrected run
      saves. */
  lemma OrchestrateAgreesWhenUnavailable(file: Option<Dict>, parse: string -> Option<int>, format: int -> string,
                                         now: int, url: string, date: Layout.Date,
                                         jiraServer: Jira.Server, confluenceServer: Confluence.Server)
    requires !(Confluence.GetBackupStatus(confluenceServer.status).Ok? && Confluence.GetBackupStatus(confluenceServer.status).value.Some?)
    ensures Orchestrate(file, parse, format, now, url, date, jiraServer, confluenceServer)
         == OrchestrateCorrected(file, parse, format, now, url, date, jiraServer, confluenceServer)
  {
    ConfluenceStepsAgreeWhenUnavailable(confluenceServer, url, now);
  }

  /** With the corrected step, a run in which Jira downloaded an archive
      writes a status file that records it. */
  lemma {:induction false} CorrectedRecordsJira(file: Option<Dict>, parse: string -> Option<int>, format: int -> string,
                                                now: int, url: string, date: Layout.Date,
                                                jiraServer: Jira.Server, confluenceServer: Confluence.Server)
    requires OrchestrateCorrected(file, parse, format, now, url, date, jiraServer, confluenceServer).Done?
    requires HandleJira(jiraServer, url, StatusStore.LoadStatus(file, parse).value, now, date).value.delta != map[]
    ensures var w := OrchestrateCorrected(file, parse, format, now, url, date, jiraServer, confluenceServer).value;
            w.Some? && w.value[JiraFile] == Text(JiraBackupPath(url, date))
  {
    var status := StatusStore.LoadStatus(file, parse).value;
    var j := HandleJira(jiraServer, url, status, now, date).value;
    var c := HandleConfluence(confluenceServer, url, now).value;
    assert Controller.JiraShaped(j.delta, JiraBackupPath(url, date));
    var cpath := if c.delta == map[] then "" else c.delta[ConfluenceFile].s;
    assert Controller.ConfluenceShaped(c.delta, cpath);
    var p := Controller.Persist(status, j, c, format);
    assert p.Ok? && OrchestrateCorrected(file, parse, format, now, url, date, jiraServer, confluenceServer) == Done(p.value.written);
    assert LastJiraBackup in j.delta + c.delta;
    Controller.PersistContents(status, j, c, format, JiraBackupPath(url, date), cpath);
  }

  /** _download_file: one request, rejected on an error status, its body
      written over whatever the file held and counted, progress logged
      every LogChunkSize bytes. */
  method DownloadOnce(disk: seq<Download.byte>, reply: Download.Reply, filename: string)
    returns (file: seq<Download.byte>, written: nat, logs: seq<nat>, r: Result<string>)
    ensures r.Ok? <==> Download.Attempt([], reply).result.Ok?
    ensures r.Ok? ==> r.value == filename && written == |file|
    ensures r.Err? ==> r.error == Download.Attempt([], reply).result.error
    ensures reply.Responded? && !Transport.IsErrorStatus(reply.code) ==>
      && file == Download.Flatten(reply.chunks)
      && file == Download.Attempt([], reply).file
      && written == |file|
      && |logs| <= Download.NonEmptyCount(reply.chunks)
      && forall k | 0 <= k < |logs| :: Download.Mark(0, Download.LogChunkSize, k + 1) <= logs[k] <= written
    ensures !(reply.Responded? && !Transport.IsErrorStatus(reply.code)) ==> file == disk && logs == []
  {
    var attempt := Download.Attempt([], reply);
    match reply
    case Refused(e) =>
      file, written, logs, r := disk, 0, [], Err(e);
    case Responded(code, chunks, interruption) =>
      if Transport.IsErrorStatus(code) {
        file, written, logs, r := disk, 0, [], Err(HttpError(code));
      } else {
        var threshold;
        file, written, logs, threshold := Download.StreamToFile(disk, Download.Overwrite, 0, chunks, Download.LogChunkSize);
        if interruption.Some? {
          r := Err(interruption.value);
        } else {
          r := Ok(filename);
        }
      }
  }
}
