/** The Jira side of a backup run. The server's last export task is reused
    when it was submitted at most 24 hours ago; otherwise a new export is
    triggered. Either way the tool waits for the export, fetches its
    download URL, downloads the archive and proposes status entries. Every
    HTTP exchange is an input: a decoded reply or the exception the request
    raised. */
module Jira {
  import opened Values
  import PyText
  import Polling
  import Layout

  /** What the Jira server answers during one backup run, in the order the
      tool asks. */
  datatype Server = Server(
    lastTaskId: Result<string>,         // body text of .../export/lastTaskId
    taskInfo: Result<Dict>,             // /rest/api/3/task/{id} for the last task
    existingPolls: seq<Result<Dict>>,   // progress replies while waiting on that task
    existingUrl: Result<Dict>,          // the progress reply read for its download URL
    existingDownload: Option<Error>,    // the exception download_file raised, if any
    trigger: Result<Dict>,              // .../export/runbackup
    newPolls: seq<Result<Dict>>,        // progress replies while waiting on the new task
    newUrl: Result<Dict>,
    newDownload: Option<Error>)

  /** fetch_last_task_id: the integer the server reports, or None when the
      body is blank, is not an integer, or the request fails. It never raises. */
  function FetchLastTaskId(reply: Result<string>): (r: Option<int>)
    ensures r.Some? <==> reply.Ok? && PyText.ParseInt(reply.value).Ok?
    ensures r.Some? ==> r.value == PyText.ParseInt(reply.value).value
  {
    match reply
    case Err(_) => None
    case Ok(text) =>
      match ReadTaskId(text)
      case Ok(id) => id
      case Err(_) => None
  }

  /** The body of a lastTaskId reply: stripped, blank means no task, an
      integer is the task id, anything else raises RuntimeError. */
  function ReadTaskId(text: string): (r: Result<Option<int>>)
    ensures r == Ok(None) <==> PyText.StripSpace(text) == ""
    ensures r.Err? <==> PyText.StripSpace(text) != "" && PyText.ParseInt(text).Err?
    ensures r.Err? ==> r.error.RuntimeError?
    ensures r.Ok? && r.value.Some? <==> PyText.ParseInt(text).Ok?
    ensures r.Ok? && r.value.Some? ==> r.value.value == PyText.ParseInt(text).value
  {
    var t := PyText.StripSpace(text);
    PyText.ParseIntOfStripped(text);
    if t == "" then Ok(None)
    else
      var parsed := PyText.ParseInt(t);
      if parsed.Ok? then Ok(Some(parsed.value))
      else Err(RuntimeError("Unexpected response for lastTaskId"))
  }

  /** The id the server printed is the id the tool reads. */
  lemma FetchShownTaskId(n: int)
    ensures FetchLastTaskId(Ok(PyText.ShowInt(n))) == Some(n)
  {
    PyText.ParseShowInt(n);
  }

  /** Status words that end the wait successfully or unsuccessfully. */
  const SuccessWords: set<string> := {"COMPLETE", "DONE", "SUCCESSFUL"}
  const FailureWords: set<string> := {"FAILED", "ERROR"}

  /** One progress reply of wait_for_completion: the status is upper-cased
      (a status that is not text has no upper() and raises), success is
      checked first, and a progress of 100 counts as success whatever the
      status says. */
  function ClassifyProgress(reply: Dict): (r: Result<Polling.Verdict>)
    ensures r.Err? <==> !GetOr(reply, "status", Text("")).Text?
    ensures r.Err? ==> r.error.AttributeError?
    ensures IntEquals(100, GetOr(reply, "progress", Int(0))) && r.Ok? ==> r == Ok(Polling.Succeeded)
    ensures GetOr(reply, "status", Text("")).Text? ==>
      var status := PyText.Upper(GetOr(reply, "status", Text("")).s);
      && (r == Ok(Polling.Succeeded) <==> status in {"COMPLETE", "DONE", "SUCCESSFUL"} || IntEquals(100, GetOr(reply, "progress", Int(0))))
      && (r == Ok(Polling.Failed) <==> r != Ok(Polling.Succeeded) && status in {"FAILED", "ERROR"})
  {
    var percent := GetOr(reply, "progress", Int(0));
    match GetOr(reply, "status", Text(""))
    case Text(s) =>
      var status := PyText.Upper(s);
      if status in SuccessWords || IntEquals(100, percent) then Ok(Polling.Succeeded)
      else if status in FailureWords then Ok(Polling.Failed)
      else Ok(Polling.Pending)
    case _ => Err(AttributeError("object has no attribute 'upper'"))
  }

  /** Upper-casing makes the classification blind to the case of the status. */
  lemma ClassifyIgnoresCase(reply: Dict, s: string)
    ensures ClassifyProgress(reply["status" := Text(PyText.Lower(s))]) == ClassifyProgress(reply["status" := Text(s)])
  {
    var lower := PyText.Lower(s);
    forall i | 0 <= i < |s| ensures PyText.UpperChar(lower[i]) == PyText.UpperChar(s[i]) { }
    assert PyText.Upper(lower) == PyText.Upper(s);
  }

  /** One poll: the exception the request raised, or the classified reply. */
  function ClassifyPoll(poll: Result<Dict>): Result<Polling.Verdict> {
    match poll
    case Err(e) => Err(e)
    case Ok(d) => ClassifyProgress(d)
  }

  /** wait_for_completion over the progress replies the server gave. */
  function WaitForCompletion(polls: seq<Result<Dict>>): (r: Outcome<bool>)
    ensures r.Done? ==> exists i | 0 <= i < |polls| ::
      && Polling.AllPending(Polling.ClassifyAll(polls, ClassifyPoll)[..i])
      && ClassifyPoll(polls[i]) == Ok(if r.value then Polling.Succeeded else Polling.Failed)
    ensures r.Raised? ==> exists i | 0 <= i < |polls| ::
      Polling.AllPending(Polling.ClassifyAll(polls, ClassifyPoll)[..i]) && ClassifyPoll(polls[i]) == Err(r.error)
    ensures r.Polling? <==> forall i | 0 <= i < |polls| :: ClassifyPoll(polls[i]) == Ok(Polling.Pending)
  {
    var obs := Polling.ClassifyAll(polls, ClassifyPoll);
    match Polling.Await(obs)
    case Done(stop) => Done(stop.success)
    case Raised(e) => Raised(e)
    case Polling => Polling
  }

  /** trigger_backup: the task id of the new export, from `taskId` or, when
      that is falsy, `task_id`; a falsy id raises RuntimeError and the id
      goes through int(). */
  function TriggerBackup(reply: Result<Dict>): (r: Result<int>)
    ensures reply.Err? ==> r == Err(reply.error)
    ensures reply.Ok? && !Truthy(GetOr(reply.value, "taskId", Null)) && !Truthy(GetOr(reply.value, "task_id", Null)) ==>
      r.Err? && r.error.RuntimeError?
    ensures reply.Ok? && Truthy(GetOr(reply.value, "taskId", Null)) ==> r == PyText.IntOf(reply.value["taskId"])
    ensures reply.Ok? && !Truthy(GetOr(reply.value, "taskId", Null)) && Truthy(GetOr(reply.value, "task_id", Null)) ==>
      r == PyText.IntOf(reply.value["task_id"])
  {
    match reply
    case Err(e) => Err(e)
    case Ok(d) =>
      var first := GetOr(d, "taskId", Null);
      var id := if Truthy(first) then first else GetOr(d, "task_id", Null);
      if !Truthy(id) then Err(RuntimeError("No taskId returned from Jira backup runbackup."))
      else PyText.IntOf(id)
  }

  /** The id of a new export reported as text under either key is read back. */
  lemma TriggerReadsShownId(n: int, key: string)
    requires n != 0
    requires key == "taskId" || key == "task_id"
    ensures TriggerBackup(Ok(map[key := Text(PyText.ShowInt(n))])) == Ok(n)
  {
    var text := PyText.ShowInt(n);
    PyText.ParseShowInt(n);
    assert text != "";
    TriggerReadsKey(key, Text(text));
    assert PyText.IntOf(Text(text)) == Ok(n);
  }

  /** A reply holding one truthy id under either key yields int() of it. */
  lemma TriggerReadsKey(key: string, v: Value)
    requires key == "taskId" || key == "task_id"
    requires Truthy(v)
    ensures TriggerBackup(Ok(map[key := v])) == PyText.IntOf(v)
  {
    var d := map[key := v];
    if key == "taskId" {
      assert GetOr(d, "taskId", Null) == v;
    } else {
      assert GetOr(d, "taskId", Null) == Null by { assert "taskId" != "task_id"; }
      assert GetOr(d, "task_id", Null) == v;
    }
  }

  /** get_download_url: the instance URL without trailing slashes, then
      "/plugins/servlet/" and the reply's `result`; a falsy result raises. */
  function GetDownloadUrl(base: string, reply: Result<Dict>): (r: Result<string>)
    ensures r.Err? <==> reply.Err? || !Truthy(GetOr(reply.value, "result", Null))
    ensures r.Err? && reply.Ok? ==> r.error.RuntimeError?
    ensures reply.Err? ==> r == Err(reply.error)
    ensures r.Ok? ==> var prefix := PyText.RStrip(base, {'/'}) + "/plugins/servlet/";
      prefix <= r.value && r.value[|prefix|..] == PyText.Str(reply.value["result"])
  {
    match reply
    case Err(e) => Err(e)
    case Ok(d) =>
      var result := GetOr(d, "result", Null);
      if !Truthy(result) then Err(RuntimeError("No result found in Jira backup response."))
      else Ok(PyText.RStrip(base, {'/'}) + "/plugins/servlet/" + PyText.Str(result))
  }

  /** A trailing slash on the instance URL does not change the download URL. */
  lemma DownloadUrlIgnoresTrailingSlash(base: string, reply: Result<Dict>)
    ensures GetDownloadUrl(base + "/", reply) == GetDownloadUrl(base, reply)
  {
    PyText.RStripTrailing(base, '/');
  }

  /** download_backup_file: the URL downloaded from, or the exception. */
  function FetchArchive(base: string, urlReply: Result<Dict>, download: Option<Error>): (r: Result<string>)
    ensures r.Ok? ==> GetDownloadUrl(base, urlReply) == r
    ensures GetDownloadUrl(base, urlReply).Err? ==> r == GetDownloadUrl(base, urlReply)
    ensures GetDownloadUrl(base, urlReply).Ok? && download.Some? ==> r == Err(download.value)
  {
    match GetDownloadUrl(base, urlReply)
    case Err(e) => Err(e)
    case Ok(url) => if download.Some? then Err(download.value) else Ok(url)
  }

  /** The reuse window: submitted at most 24 hours before now. */
  predicate Fresh(now: int, submitted: int) {
    now - submitted <= DayMs
  }

  /** The entries a finished export proposes. */
  function Entries(stamp: int, taskId: int, path: string): Dict {
    map[LastJiraBackup := Stamp(stamp), JiraTaskId := Int(taskId), JiraFile := Text(path)]
  }

  lemma EntriesShape(stamp: int, taskId: int, path: string)
    ensures Entries(stamp, taskId, path).Keys == {LastJiraBackup, JiraTaskId, JiraFile}
    ensures Entries(stamp, taskId, path)[LastJiraBackup] == Stamp(stamp)
    ensures Entries(stamp, taskId, path)[JiraTaskId] == Int(taskId)
    ensures Entries(stamp, taskId, path)[JiraFile] == Text(path)
  {
  }

  /** _check_existing_task: reuse the last task when it is fresh, waiting
      for it and downloading its archive; a missing or zero `submitted`
      raises `onMissing`, one that is not a number raises TypeError. */
  function CheckExistingTask(server: Server, base: string, taskId: int, now: int, path: string, onMissing: Error): (r: Outcome<Run>)
    ensures r.Done? ==> |r.value.effects| >= 1 && r.value.effects[0] == ConsultedTask(taskId)
    ensures r.Done? ==> Triggered !in r.value.effects
    ensures r.Done? && r.value.delta != map[] ==>
      && server.taskInfo.Ok?
      && AsNumber(GetOr(server.taskInfo.value, "submitted", Null)).Some?
      && var submitted := AsNumber(GetOr(server.taskInfo.value, "submitted", Null)).value;
         Fresh(now, submitted) && r.value.delta == Entries(submitted, taskId, path)
    ensures server.taskInfo.Ok? && !Truthy(GetOr(server.taskInfo.value, "submitted", Null)) ==> r == Raised(onMissing)
    ensures server.taskInfo.Ok? && Truthy(GetOr(server.taskInfo.value, "submitted", Null)) ==>
      var submitted := AsNumber(GetOr(server.taskInfo.value, "submitted", Null));
      && (submitted.None? ==> r.Raised? && r.error.TypeError?)
      && (submitted.Some? && !Fresh(now, submitted.value) ==> r == Done(Run(map[], [ConsultedTask(taskId)])))
      && (submitted.Some? && Fresh(now, submitted.value) ==> CheckFresh(server, base, taskId, path, submitted.value, r))
    ensures server.taskInfo.Err? ==> r == Raised(server.taskInfo.error)
  {
    var consulted := [ConsultedTask(taskId)];
    match server.taskInfo
    case Err(e) => Raised(e)
    case Ok(info) =>
      var submittedValue := GetOr(info, "submitted", Null);
      if !Truthy(submittedValue) then Raised(onMissing)
      else match AsNumber(submittedValue)
        case None => Raised(TypeError("unsupported operand type(s) for /"))
        case Some(submitted) =>
          if !Fresh(now, submitted) then Done(Run(map[], consulted))
          else match WaitForCompletion(server.existingPolls)
            case Raised(e) => Raised(e)
            case Polling => Polling
            case Done(completed) =>
              if !completed then Done(Run(map[], consulted))
              else match FetchArchive(base, server.existingUrl, server.existingDownload)
                case Err(e) => Raised(e)
                case Ok(url) => Done(Run(Entries(submitted, taskId, path), [ConsultedTask(taskId), Downloaded(url)]))
  }

  /** What happens to a fresh task: the wait's exception or open end
      propagates, a failed export proposes nothing, and a finished one
      proposes its entries once its archive is downloaded. */
  predicate CheckFresh(server: Server, base: string, taskId: int, path: string, submitted: int, r: Outcome<Run>) {
    match WaitForCompletion(server.existingPolls)
    case Raised(e) => r == Raised(e)
    case Polling => r == Polling
    case Done(false) => r == Done(Run(map[], [ConsultedTask(taskId)]))
    case Done(true) =>
      match FetchArchive(base, server.existingUrl, server.existingDownload)
      case Err(e) => r == Raised(e)
      case Ok(url) => r == Done(Run(Entries(submitted, taskId, path), [ConsultedTask(taskId), Downloaded(url)]))
  }

  /** _create_new_backup: trigger an export, wait for it, download it. */
  function CreateNewBackup(server: Server, base: string, now: int, path: string): (r: Outcome<Run>)
    ensures r.Done? ==> |r.value.effects| >= 1 && r.value.effects[0] == Triggered
    ensures r.Done? ==> forall e | e in r.value.effects :: !e.ConsultedTask?
    ensures r.Done? && r.value.delta != map[] ==>
      && TriggerBackup(server.trigger).Ok?
      && r.value.delta == Entries(now, TriggerBackup(server.trigger).value, path)
      && WaitForCompletion(server.newPolls) == Done(true)
    ensures TriggerBackup(server.trigger).Err? ==> r == Raised(TriggerBackup(server.trigger).error)
    ensures TriggerBackup(server.trigger).Ok? ==>
      match WaitForCompletion(server.newPolls)
      case Raised(e) => r == Raised(e)
      case Polling => r == Polling
      case Done(false) => r == Done(Run(map[], [Triggered]))
      case Done(true) =>
        match FetchArchive(base, server.newUrl, server.newDownload)
        case Err(e) => r == Raised(e)
        case Ok(url) => r == Done(Run(Entries(now, TriggerBackup(server.trigger).value, path), [Triggered, Downloaded(url)]))
  {
    match TriggerBackup(server.trigger)
    case Err(e) => Raised(e)
    case Ok(taskId) =>
      match WaitForCompletion(server.newPolls)
      case Raised(e) => Raised(e)
      case Polling => Polling
      case Done(completed) =>
        if !completed then Done(Run(map[], [Triggered]))
        else match FetchArchive(base, server.newUrl, server.newDownload)
          case Err(e) => Raised(e)
          case Ok(url) => Done(Run(Entries(now, taskId, path), [Triggered, Downloaded(url)]))
  }

  /** Whether the status already records the server's last task as
      downloaded: same id and a truthy file entry. */
  predicate AlreadyProcessed(serverId: Option<int>, status: Dict) {
    serverId.Some? && IntEquals(serverId.value, GetOr(status, JiraTaskId, Null)) && Truthy(GetOr(status, JiraFile, Null))
  }

  /** The control flow of process_backup, given the server's last task id
      and the two steps it may take: skip when already processed, consult
      the last task only when its id is truthy, and create a new export
      exactly when that produced no entries. */
  function Decide(serverId: Option<int>, status: Dict, check: int -> Outcome<Run>, create: Outcome<Run>): (r: Outcome<Run>)
    ensures AlreadyProcessed(serverId, status) ==> r == Done(Skipped)
    ensures !AlreadyProcessed(serverId, status) && !(serverId.Some? && serverId.value != 0) ==> r == create
    ensures !AlreadyProcessed(serverId, status) && serverId.Some? && serverId.value != 0 ==>
      && (!check(serverId.value).Done? ==> r == check(serverId.value))
      && (check(serverId.value).Done? && check(serverId.value).value.delta != map[] ==> r == check(serverId.value))
      && (check(serverId.value).Done? && check(serverId.value).value.delta == map[] ==>
            && (create.Done? ==> r == Done(Run(create.value.delta, check(serverId.value).value.effects + create.value.effects)))
            && (!create.Done? ==> r == create))
  {
    if AlreadyProcessed(serverId, status) then Done(Skipped)
    else
      var first := if serverId.Some? && serverId.value != 0 then check(serverId.value) else Done(Run(map[], []));
      match first
      case Raised(e) => Raised(e)
      case Polling => Polling
      case Done(run) =>
        if run.delta != map[] then Done(run)
        else match create
          case Done(made) =>
            var combined := Run(made.delta, run.effects + made.effects);
            assert run.effects == [] ==> combined == made;
            Done(combined)
          case Raised(e) => Raised(e)
          case Polling => Polling
  }

  /** The archive path the package's file manager prepares for Jira. */
  function ArchivePath(url: string, date: Layout.Date): string {
    Layout.PrepareBackupPath(url, "Jira", date, Layout.Zip)
  }

  const MissingSubmitted: Error := ValueError("Missing submitted timestamp in Jira task response")

  /** process_backup of the package's Jira client. */
  function ProcessBackup(server: Server, url: string, status: Dict, now: int, date: Layout.Date): (r: Outcome<Run>)
    ensures r.Done? ==> forall e | e in r.value.effects ::
      e.ConsultedTask? ==> FetchLastTaskId(server.lastTaskId) == Some(e.id) && e.id != 0
    ensures r.Done? && r.value.delta != map[] ==>
      && r.value.delta.Keys == {LastJiraBackup, JiraTaskId, JiraFile}
      && r.value.delta[JiraFile] == Text(ArchivePath(url, date))
      && r.value.delta[JiraTaskId].Int?
      && r.value.delta[LastJiraBackup].Stamp?
    ensures r.Done? && r.value.delta != map[] && Triggered in r.value.effects ==>
      r.value.delta[LastJiraBackup] == Stamp(now)
    ensures r.Done? && r.value.delta != map[] && Triggered !in r.value.effects ==>
      && Fresh(now, r.value.delta[LastJiraBackup].ms)
      && FetchLastTaskId(server.lastTaskId) == Some(r.value.delta[JiraTaskId].i)
  {
    var path := ArchivePath(url, date);
    var serverId := FetchLastTaskId(server.lastTaskId);
    var check := (k: int) => CheckExistingTask(server, url, k, now, path, MissingSubmitted);
    var create := CreateNewBackup(server, url, now, path);
    var r := Decide(serverId, status, check, create);
    ProcessBackupShape(serverId, status, check, create, server, url, now, path, MissingSubmitted);
    r
  }

  lemma ProcessBackupShape(serverId: Option<int>, status: Dict, check: int -> Outcome<Run>, create: Outcome<Run>,
                           server: Server, url: string, now: int, path: string, onMissing: Error)
    requires forall k :: check(k) == CheckExistingTask(server, url, k, now, path, onMissing)
    requires create == CreateNewBackup(server, url, now, path)
    ensures var r := Decide(serverId, status, check, create);
      && (r.Done? ==> forall e | e in r.value.effects :: e.ConsultedTask? ==> serverId == Some(e.id) && e.id != 0)
      && (r.Done? && r.value.delta != map[] ==>
            && r.value.delta.Keys == {LastJiraBackup, JiraTaskId, JiraFile}
            && r.value.delta[JiraFile] == Text(path)
            && r.value.delta[JiraTaskId].Int?
            && r.value.delta[LastJiraBackup].Stamp?)
      && (r.Done? && r.value.delta != map[] && Triggered in r.value.effects ==>
            r.value.delta[LastJiraBackup] == Stamp(now))
      && (r.Done? && r.value.delta != map[] && Triggered !in r.value.effects ==>
            Fresh(now, r.value.delta[LastJiraBackup].ms) && serverId == Some(r.value.delta[JiraTaskId].i))
  {
    DecideEffects(serverId, status, check, create, server, url, now, path, onMissing);
    DecideDelta(serverId, status, check, create, server, url, now, path, onMissing);
  }

  /** Only the server's own, truthy task id is ever consulted. */
  lemma DecideEffects(serverId: Option<int>, status: Dict, check: int -> Outcome<Run>, create: Outcome<Run>,
                      server: Server, url: string, now: int, path: string, onMissing: Error)
    requires forall k :: check(k) == CheckExistingTask(server, url, k, now, path, onMissing)
    requires create == CreateNewBackup(server, url, now, path)
    ensures var r := Decide(serverId, status, check, create);
      r.Done? ==> forall e | e in r.value.effects :: e.ConsultedTask? ==> serverId == Some(e.id) && e.id != 0
  {
    var r := Decide(serverId, status, check, create);
    if !AlreadyProcessed(serverId, status) && r.Done? {
      if serverId.Some? && serverId.value != 0 {
        var c := check(serverId.value);
        assert c.Done?;
        assert forall e | e in c.value.effects :: e.ConsultedTask? ==> e.id == serverId.value by {
          forall e | e in c.value.effects && e.ConsultedTask? ensures e.id == serverId.value {
            var i :| 0 <= i < |c.value.effects| && c.value.effects[i] == e;
            CheckEffects(server, url, serverId.value, now, path, onMissing, i);
          }
        }
        if c.value.delta == map[] {
          assert r.value.effects == c.value.effects + create.value.effects;
        }
      } else {
        assert r == create;
      }
    }
  }

  /** The entries Decide proposes: the consulted task's, stamped with its
      submission time, or a new export's, stamped now. */
  lemma DecideDelta(serverId: Option<int>, status: Dict, check: int -> Outcome<Run>, create: Outcome<Run>,
                    server: Server, url: string, now: int, path: string, onMissing: Error)
    requires forall k :: check(k) == CheckExistingTask(server, url, k, now, path, onMissing)
    requires create == CreateNewBackup(server, url, now, path)
    ensures var r := Decide(serverId, status, check, create);
      && (r.Done? && r.value.delta != map[] ==>
            && r.value.delta.Keys == {LastJiraBackup, JiraTaskId, JiraFile}
            && r.value.delta[JiraFile] == Text(path)
            && r.value.delta[JiraTaskId].Int?
            && r.value.delta[LastJiraBackup].Stamp?)
      && (r.Done? && r.value.delta != map[] && Triggered in r.value.effects ==>
            r.value.delta[LastJiraBackup] == Stamp(now))
      && (r.Done? && r.value.delta != map[] && Triggered !in r.value.effects ==>
            Fresh(now, r.value.delta[LastJiraBackup].ms) && serverId == Some(r.value.delta[JiraTaskId].i))
  {
    var r := Decide(serverId, status, check, create);
    if !AlreadyProcessed(serverId, status) && r.Done? && r.value.delta != map[] {
      if serverId.Some? && serverId.value != 0 && check(serverId.value).Done? && check(serverId.value).value.delta != map[] {
        assert r == check(serverId.value);
        CheckedDelta(server, url, serverId.value, now, path, onMissing);
      } else {
        assert create.Done? && r.value.delta == create.value.delta;
        CreatedDelta(server, url, now, path);
        assert Triggered in r.value.effects by {
          if serverId.Some? && serverId.value != 0 {
            var c := check(serverId.value);
            assert r.value.effects == c.value.effects + create.value.effects;
            assert r.value.effects[|c.value.effects|] == Triggered;
          } else {
            assert r == create;
          }
        }
      }
    }
  }

  /** The entries of a fresh consulted task: its own id, stamped with its submission time. */
  lemma CheckedDelta(server: Server, url: string, taskId: int, now: int, path: string, onMissing: Error)
    requires CheckExistingTask(server, url, taskId, now, path, onMissing).Done?
    requires CheckExistingTask(server, url, taskId, now, path, onMissing).value.delta != map[]
    ensures var run := CheckExistingTask(server, url, taskId, now, path, onMissing).value;
      && run.delta.Keys == {LastJiraBackup, JiraTaskId, JiraFile}
      && run.delta[JiraFile] == Text(path)
      && run.delta[JiraTaskId] == Int(taskId)
      && run.delta[LastJiraBackup].Stamp?
      && Fresh(now, run.delta[LastJiraBackup].ms)
      && Triggered !in run.effects
  {
    var submitted := AsNumber(GetOr(server.taskInfo.value, "submitted", Null)).value;
    EntriesShape(submitted, taskId, path);
  }

  /** The entries of a new export: the triggered task's id, stamped now. */
  lemma CreatedDelta(server: Server, url: string, now: int, path: string)
    requires CreateNewBackup(server, url, now, path).Done?
    requires CreateNewBackup(server, url, now, path).value.delta != map[]
    ensures var run := CreateNewBackup(server, url, now, path).value;
      && run.delta.Keys == {LastJiraBackup, JiraTaskId, JiraFile}
      && run.delta[JiraFile] == Text(path)
      && run.delta[JiraTaskId].Int?
      && run.delta[LastJiraBackup] == Stamp(now)
      && run.effects[0] == Triggered
  {
    EntriesShape(now, TriggerBackup(server.trigger).value, path);
  }

  /** Decide consults its check only at the server's own task id. */
  lemma DecideSeesOnlyServerTask(serverId: Option<int>, status: Dict, check1: int -> Outcome<Run>,
                                 check2: int -> Outcome<Run>, create: Outcome<Run>)
    requires serverId.Some? ==> check1(serverId.value) == check2(serverId.value)
    ensures Decide(serverId, status, check1, create) == Decide(serverId, status, check2, create)
  {
  }

  /** Every effect of a consultation after the first is a download. */
  lemma CheckEffects(server: Server, base: string, taskId: int, now: int, path: string, onMissing: Error, i: nat)
    requires CheckExistingTask(server, base, taskId, now, path, onMissing).Done?
    requires i < |CheckExistingTask(server, base, taskId, now, path, onMissing).value.effects|
    ensures var e := CheckExistingTask(server, base, taskId, now, path, onMissing).value.effects[i];
      e.ConsultedTask? ==> e.id == taskId
  {
  }

  /** A run against a server whose last task is already recorded as
      downloaded proposes nothing and does nothing. */
  lemma SkipsProcessedTask(server: Server, url: string, status: Dict, now: int, date: Layout.Date)
    requires AlreadyProcessed(FetchLastTaskId(server.lastTaskId), status)
    ensures ProcessBackup(server, url, status, now, date) == Done(Skipped)
  {
  }

  /** Without a truthy server task id the last task is never consulted and
      the run is exactly a new export. */
  lemma NoIdMeansNewExport(server: Server, url: string, status: Dict, now: int, date: Layout.Date)
    requires !AlreadyProcessed(FetchLastTaskId(server.lastTaskId), status)
    requires FetchLastTaskId(server.lastTaskId) in {None, Some(0)}
    ensures ProcessBackup(server, url, status, now, date) == CreateNewBackup(server, url, now, ArchivePath(url, date))
  {
  }

  /** A fresh last task that finished and whose archive downloads is reused:
      the run is exactly that consultation, stamped with the task's own
      submission time, and no export is triggered. */
  lemma ReusesFreshTask(server: Server, url: string, status: Dict, now: int, date: Layout.Date)
    requires !AlreadyProcessed(FetchLastTaskId(server.lastTaskId), status)
    requires FetchLastTaskId(server.lastTaskId).Some? && FetchLastTaskId(server.lastTaskId).value != 0
    requires server.taskInfo.Ok? && Truthy(GetOr(server.taskInfo.value, "submitted", Null))
    requires AsNumber(GetOr(server.taskInfo.value, "submitted", Null)).Some?
    requires Fresh(now, AsNumber(GetOr(server.taskInfo.value, "submitted", Null)).value)
    requires WaitForCompletion(server.existingPolls) == Done(true)
    requires FetchArchive(url, server.existingUrl, server.existingDownload).Ok?
    ensures var id := FetchLastTaskId(server.lastTaskId).value;
      var submitted := AsNumber(GetOr(server.taskInfo.value, "submitted", Null)).value;
      ProcessBackup(server, url, status, now, date)
        == Done(Run(Entries(submitted, id, ArchivePath(url, date)),
                    [ConsultedTask(id), Downloaded(FetchArchive(url, server.existingUrl, server.existingDownload).value)]))
    ensures Triggered !in ProcessBackup(server, url, status, now, date).value.effects
  {
    var id := FetchLastTaskId(server.lastTaskId).value;
    var path := ArchivePath(url, date);
    var c := CheckExistingTask(server, url, id, now, path, MissingSubmitted);
    assert c.Done? && c.value.delta != map[] by {
      EntriesShape(AsNumber(GetOr(server.taskInfo.value, "submitted", Null)).value, id, path);
    }
    var check := (k: int) => CheckExistingTask(server, url, k, now, path, MissingSubmitted);
    assert Decide(Some(id), status, check, CreateNewBackup(server, url, now, path)) == c;
  }

  /** A consulted task that proposes nothing (stale, or its export failed)
      is followed by a new export, whose entries are the run's. */
  lemma NoReuseMeansNewExport(server: Server, url: string, status: Dict, now: int, date: Layout.Date)
    requires !AlreadyProcessed(FetchLastTaskId(server.lastTaskId), status)
    requires FetchLastTaskId(server.lastTaskId).Some? && FetchLastTaskId(server.lastTaskId).value != 0
    requires var id := FetchLastTaskId(server.lastTaskId).value;
      CheckExistingTask(server, url, id, now, ArchivePath(url, date), MissingSubmitted) == Done(Run(map[], [ConsultedTask(id)]))
    ensures var id := FetchLastTaskId(server.lastTaskId).value;
      var create := CreateNewBackup(server, url, now, ArchivePath(url, date));
      && (create.Done? ==> ProcessBackup(server, url, status, now, date) == Done(Run(create.value.delta, [ConsultedTask(id)] + create.value.effects)))
      && (!create.Done? ==> ProcessBackup(server, url, status, now, date) == create)
  {
    var id := FetchLastTaskId(server.lastTaskId).value;
    var path := ArchivePath(url, date);
    var check := (k: int) => CheckExistingTask(server, url, k, now, path, MissingSubmitted);
    assert check(id) == Done(Run(map[], [ConsultedTask(id)]));
  }

  /** Once a run's entries are merged into the status, the next run against
      a server still reporting that task skips Jira. */
  lemma {:induction false} RerunSkips(server: Server, url: string, status: Dict, now: int, date: Layout.Date,
                                      later: Server, url2: string, now2: int, date2: Layout.Date)
    requires ProcessBackup(server, url, status, now, date).Done?
    requires ProcessBackup(server, url, status, now, date).value.delta != map[]
    requires later.lastTaskId == Ok(PyText.ShowInt(ProcessBackup(server, url, status, now, date).value.delta[JiraTaskId].i))
    ensures ProcessBackup(later, url2, status + ProcessBackup(server, url, status, now, date).value.delta, now2, date2) == Done(Skipped)
  {
    var delta := ProcessBackup(server, url, status, now, date).value.delta;
    MergedEntriesSkip(later, url2, status, delta, ArchivePath(url, date), now2, date2);
  }

  /** Entries naming a task and a non-empty archive, once merged, mark that
      task as processed for any server that reports it. */
  lemma MergedEntriesSkip(later: Server, url2: string, status: Dict, delta: Dict, path: string, now2: int, date2: Layout.Date)
    requires JiraTaskId in delta && JiraFile in delta && delta[JiraTaskId].Int?
    requires delta[JiraFile] == Text(path) && path != []
    requires later.lastTaskId == Ok(PyText.ShowInt(delta[JiraTaskId].i))
    ensures ProcessBackup(later, url2, status + delta, now2, date2) == Done(Skipped)
  {
    var merged := status + delta;
    var id := delta[JiraTaskId].i;
    FetchShownTaskId(id);
    assert FetchLastTaskId(later.lastTaskId) == Some(id);
    assert merged[JiraTaskId] == Int(id) && merged[JiraFile] == Text(path);
    assert IntEquals(id, GetOr(merged, JiraTaskId, Null));
    assert Truthy(GetOr(merged, JiraFile, Null));
    SkipsProcessedTask(later, url2, merged, now2, date2);
  }
}
