/** The Confluence side of a backup run. The backup service is skipped when
    the instance has no Confluence (or no licence for it); the last backup
    is reused when it is complete, not outdated and less than a week old;
    otherwise a new backup is triggered. The archive is downloaded once the
    progress endpoint reports it complete and names its file. */
module Confluence {
  import opened Values
  import PyText
  import Polling
  import Transport
  import Layout

  /** What the Confluence server answers during one backup run. */
  datatype Server = Server(
    status: Result<Transport.Response>,  // the first getprogress.json exchange, before raise_for_status
    trigger: Option<Error>,              // the exception the runbackup request raised, if any
    completionPolls: seq<Result<Dict>>,  // progress replies while waiting for completion
    filePolls: seq<Result<Dict>>,        // progress replies while waiting for the file
    download: Option<Error>)             // the exception download_file raised, if any

  /** The statuses that mean Confluence is not available to this account. */
  const Unavailable: set<int> := {401, 403, 404}

  /** get_backup_status: None when the service answers 204 or the request
      fails with 401, 403 or 404; the decoded descriptor otherwise; any other
      failure is re-raised. */
  function GetBackupStatus(reply: Result<Transport.Response>): (r: Result<Option<Dict>>)
    ensures r == Ok(None) <==>
      || (reply.Ok? && (reply.value.code == 204 || reply.value.code in Unavailable))
      || (reply.Err? && reply.error.HttpError? && reply.error.status in Unavailable)
    ensures r.Ok? && r.value.Some? <==>
      reply.Ok? && !Transport.IsErrorStatus(reply.value.code) && reply.value.code != 204
    ensures r.Ok? && r.value.Some? ==> r.value.value == reply.value.body
    ensures r.Err? ==> r == Err(Transport.Request(reply).error)
  {
    match Transport.Request(reply)
    case Ok(resp) => if resp.code == 204 then Ok(None) else Ok(Some(resp.body))
    case Err(e) =>
      if e.HttpError? && e.status in Unavailable then Ok(None) else Err(e)
  }

  /** _can_use_existing_backup: a truthy numeric `time` less than a week
      before now, `isOutdated` false (an absent flag counts as outdated) and
      `currentStatus` exactly "COMPLETE". A time that is not a number makes
      the division raise TypeError, which is caught: not reusable. */
  function CanUseExisting(descriptor: Dict, now: int): (r: bool)
    ensures r <==>
      && "isOutdated" in descriptor && !Truthy(descriptor["isOutdated"])
      && Get(descriptor, "currentStatus") == Some(Text("COMPLETE"))
      && var t := AsNumber(GetOr(descriptor, "time", Null)); t.Some? && t.value != 0 && now - WeekMs < t.value
  {
    var time := GetOr(descriptor, "time", Null);
    if !Truthy(time) then false
    else match AsNumber(time)
      case None => false
      case Some(ms) =>
        && !Truthy(GetOr(descriptor, "isOutdated", Bool(true)))
        && ms > now - WeekMs
        && Get(descriptor, "currentStatus") == Some(Text("COMPLETE"))
  }

  /** A descriptor reusable now was reusable at any earlier moment. */
  lemma ReuseIsMonotone(descriptor: Dict, now: int, earlier: int)
    requires earlier <= now
    requires CanUseExisting(descriptor, now)
    ensures CanUseExisting(descriptor, earlier)
  {
  }

  /** The seven-day window is strict: a backup exactly a week old is not reused. */
  lemma WeekOldIsStale(descriptor: Dict, now: int)
    requires GetOr(descriptor, "time", Null) == Int(now - WeekMs)
    ensures !CanUseExisting(descriptor, now)
  {
  }

  /** One progress reply: "COMPLETE" ends the wait successfully, "FAILED" or
      "ERROR" unsuccessfully, anything else (any other case included) keeps
      waiting. Reading the reply never raises. */
  function ClassifyProgress(reply: Dict): (r: Polling.Verdict)
    ensures r == Polling.Succeeded <==> GetOr(reply, "currentStatus", Text("")) == Text("COMPLETE")
    ensures r == Polling.Failed <==> GetOr(reply, "currentStatus", Text("")) in {Text("FAILED"), Text("ERROR")}
  {
    var status := GetOr(reply, "currentStatus", Text(""));
    if status == Text("COMPLETE") then Polling.Succeeded
    else if status == Text("FAILED") || status == Text("ERROR") then Polling.Failed
    else Polling.Pending
  }

  /** Unlike Jira's, the Confluence status words are case-sensitive. */
  lemma LowerCaseKeepsWaiting(reply: Dict)
    ensures ClassifyProgress(reply["currentStatus" := Text("complete")]) == Polling.Pending
  {
    assert Text("complete") != Text("COMPLETE");
  }

  function ClassifyPoll(poll: Result<Dict>): Result<Polling.Verdict> {
    match poll
    case Err(e) => Err(e)
    case Ok(d) => Ok(ClassifyProgress(d))
  }

  /** wait_for_completion over the progress replies the server gave. */
  function WaitForCompletion(polls: seq<Result<Dict>>): (r: Outcome<bool>)
    ensures r.Polling? <==> forall i | 0 <= i < |polls| :: ClassifyPoll(polls[i]) == Ok(Polling.Pending)
    ensures r.Done? ==> exists i | 0 <= i < |polls| ::
      && Polling.AllPending(Polling.ClassifyAll(polls, ClassifyPoll)[..i])
      && ClassifyPoll(polls[i]) == Ok(if r.value then Polling.Succeeded else Polling.Failed)
    ensures r.Raised? ==> exists i | 0 <= i < |polls| ::
      Polling.AllPending(Polling.ClassifyAll(polls, ClassifyPoll)[..i]) && ClassifyPoll(polls[i]) == Err(r.error)
  {
    match Polling.Await(Polling.ClassifyAll(polls, ClassifyPoll))
    case Done(stop) => Done(stop.success)
    case Raised(e) => Raised(e)
    case Polling => Polling
  }

  /** The archive path the package's file manager prepares for Confluence. */
  function ArchivePath(url: string, date: Layout.Date): string {
    Layout.PrepareBackupPath(url, "Confluence", date, Layout.Zip)
  }

  /** Where a backup file is fetched from and where it is written. */
  datatype Details = Details(url: string, filename: string)

  /** _get_download_details: the download URL (the instance URL without
      trailing slashes, '/', the reply's `filename`) and the local archive
      path, or None when the reply names no file. */
  function GetDownloadDetails(base: string, data: Dict, date: Layout.Date): (r: Option<Details>)
    ensures r.None? <==> !Truthy(GetOr(data, "filename", Null))
    ensures r.Some? ==> r.value.url == PyText.RStrip(base, {'/'}) + "/" + PyText.Str(data["filename"])
    ensures r.Some? ==> r.value.filename == ArchivePath(base, date)
  {
    var remote := GetOr(data, "filename", Null);
    if !Truthy(remote) then None
    else Some(Details(PyText.RStrip(base, {'/'}) + "/" + PyText.Str(remote), ArchivePath(base, date)))
  }

  /** wait_for_file: wait for a complete reply, read the file it names and
      download it. The value is where the archive came from and the local
      path download_file returns, or None when the backup failed or named
      no file. */
  function WaitForFile(base: string, polls: seq<Result<Dict>>, download: Option<Error>, date: Layout.Date): (r: Outcome<Option<Details>>)
    ensures r.Polling? <==> forall i | 0 <= i < |polls| :: ClassifyPoll(polls[i]) == Ok(Polling.Pending)
    ensures r.Done? && r.value.Some? ==> download.None? && exists i | 0 <= i < |polls| ::
      && polls[i].Ok? && ClassifyProgress(polls[i].value) == Polling.Succeeded
      && Polling.AllPending(Polling.ClassifyAll(polls, ClassifyPoll)[..i])
      && GetDownloadDetails(base, polls[i].value, date) == r.value
    ensures r.Done? && r.value.Some? ==> r.value.value.filename == ArchivePath(base, date)
  {
    var obs := Polling.ClassifyAll(polls, ClassifyPoll);
    match Polling.Await(obs)
    case Raised(e) => Raised(e)
    case Polling => Polling
    case Done(stop) =>
      if !stop.success then Done(None)
      else
        assert obs[stop.index] == ClassifyPoll(polls[stop.index]);
        var data := polls[stop.index].value;
        match GetDownloadDetails(base, data, date)
        case None => Done(None)
        case Some(details) =>
          if download.Some? then Raised(download.value) else Done(Some(details))
  }

  /** The converse of WaitForFile: the first reply that is not pending
      decides. An exception propagates and a failed backup gives nothing. A
      complete reply gives nothing when it names no file; otherwise its file
      is downloaded, and a download failure propagates. */
  lemma {:induction false} WaitForFileStopsAt(base: string, polls: seq<Result<Dict>>, download: Option<Error>, date: Layout.Date, i: nat)
    requires i < |polls| && Polling.AllPending(Polling.ClassifyAll(polls, ClassifyPoll)[..i]) && ClassifyPoll(polls[i]) != Ok(Polling.Pending)
    ensures polls[i].Err? ==> WaitForFile(base, polls, download, date) == Raised(polls[i].error)
    ensures polls[i].Ok? && ClassifyProgress(polls[i].value) == Polling.Failed ==> WaitForFile(base, polls, download, date) == Done(None)
    ensures polls[i].Ok? && ClassifyProgress(polls[i].value) == Polling.Succeeded ==>
      var details := GetDownloadDetails(base, polls[i].value, date);
      && (details.None? ==> WaitForFile(base, polls, download, date) == Done(None))
      && (details.Some? && download.Some? ==> WaitForFile(base, polls, download, date) == Raised(download.value))
      && (details.Some? && download.None? ==> WaitForFile(base, polls, download, date) == Done(details))
  {
    Polling.AwaitStopsAt(Polling.ClassifyAll(polls, ClassifyPoll), i);
  }

  /** The entries a downloaded backup proposes. */
  function Entries(stamp: int, path: string): Dict {
    map[LastConfluenceBackup := Stamp(stamp), ConfluenceFile := Text(path)]
  }

  lemma EntriesShape(stamp: int, path: string)
    ensures Entries(stamp, path).Keys == {LastConfluenceBackup, ConfluenceFile}
    ensures Entries(stamp, path)[LastConfluenceBackup] == Stamp(stamp)
    ensures Entries(stamp, path)[ConfluenceFile] == Text(path)
  {
  }

  /** The run that ends with wait_for_file: the entries (stamped `stamp`)
      only when the file was downloaded. */
  function Fetched(waited: Outcome<Option<Details>>, stamp: int, before: seq<Effect>): (r: Outcome<Run>)
    ensures r.Done? <==> waited.Done?
    ensures r.Done? ==> |r.value.effects| >= |before| && r.value.effects[..|before|] == before && Triggered !in r.value.effects[|before|..]
    ensures r.Done? ==> (r.value.delta != map[] <==> waited.value.Some?)
    ensures r.Done? && waited.value.Some? ==> r.value.delta == Entries(stamp, waited.value.value.filename)
    ensures waited.Raised? ==> r == Raised(waited.error)
    ensures waited == Done(None) ==> r == Done(Run(map[], before))
    ensures waited.Done? && waited.value.Some? ==> r.value.effects == before + [Downloaded(waited.value.value.url)]
  {
    match waited
    case Raised(e) => Raised(e)
    case Polling => Polling
    case Done(None) => Done(Run(map[], before))
    case Done(Some(details)) =>
      assert LastConfluenceBackup in Entries(stamp, details.filename);
      Done(Run(Entries(stamp, details.filename), before + [Downloaded(details.url)]))
  }

  /** _use_existing_backup: download the existing backup; the entries carry
      the backup's own time and the path the download returned. */
  function UseExisting(server: Server, base: string, descriptor: Dict, date: Layout.Date): (r: Outcome<Run>)
    ensures r.Done? ==> Triggered !in r.value.effects
    ensures !AsNumber(GetOr(descriptor, "time", Null)).Some? ==> r.Raised? && r.error.TypeError?
    ensures r.Done? && r.value.delta != map[] ==>
      && AsNumber(GetOr(descriptor, "time", Null)).Some?
      && r.value.delta == Entries(AsNumber(GetOr(descriptor, "time", Null)).value, ArchivePath(base, date))
    ensures AsNumber(GetOr(descriptor, "time", Null)).Some? ==>
      var waited := WaitForFile(base, server.filePolls, server.download, date);
      && (waited.Raised? ==> r == Raised(waited.error))
      && (waited == Done(None) ==> r == Done(Run(map[], [])))
      && (waited.Done? && waited.value.Some? ==>
            r == Done(Run(Entries(AsNumber(GetOr(descriptor, "time", Null)).value, ArchivePath(base, date)),
                          [Downloaded(waited.value.value.url)])))
  {
    match AsNumber(GetOr(descriptor, "time", Null))
    case None => Raised(TypeError("unsupported operand type(s) for /"))
    case Some(ms) => Fetched(WaitForFile(base, server.filePolls, server.download, date), ms, [])
  }

  /** _create_new_backup: trigger, wait for completion, then wait for the
      file and download it; the entries carry the current time. */
  function CreateNew(server: Server, base: string, now: int, date: Layout.Date): (r: Outcome<Run>)
    ensures r.Done? ==> |r.value.effects| >= 1 && r.value.effects[0] == Triggered
    ensures r.Done? && r.value.delta != map[] ==>
      && r.value.delta == Entries(now, ArchivePath(base, date))
      && WaitForCompletion(server.completionPolls) == Done(true)
    ensures server.trigger.Some? ==> r == Raised(server.trigger.value)
    ensures server.trigger.None? ==>
      match WaitForCompletion(server.completionPolls)
      case Raised(e) => r == Raised(e)
      case Polling => r == Polling
      case Done(false) => r == Done(Run(map[], [Triggered]))
      case Done(true) =>
        var waited := WaitForFile(base, server.filePolls, server.download, date);
        && (waited.Raised? ==> r == Raised(waited.error))
        && (waited == Done(None) ==> r == Done(Run(map[], [Triggered])))
        && (waited.Done? && waited.value.Some? ==>
              r == Done(Run(Entries(now, ArchivePath(base, date)), [Triggered, Downloaded(waited.value.value.url)])))
  {
    if server.trigger.Some? then Raised(server.trigger.value)
    else match WaitForCompletion(server.completionPolls)
      case Raised(e) => Raised(e)
      case Polling => Polling
      case Done(false) => Done(Run(map[], [Triggered]))
      case Done(true) =>
        match WaitForFile(base, server.filePolls, server.download, date)
        case Raised(e) => Raised(e)
        case Polling => Polling
        case Done(None) => Done(Run(map[], [Triggered]))
        case Done(Some(details)) =>
          assert details.filename == ArchivePath(base, date);
          assert LastConfluenceBackup in Entries(now, details.filename);
          Done(Run(Entries(now, details.filename), [Triggered, Downloaded(details.url)]))
  }

  /** process_backup of the package's Confluence client. The loaded status
      is passed to it but never read. */
  function ProcessBackup(server: Server, url: string, now: int, date: Layout.Date): (r: Outcome<Run>)
    ensures GetBackupStatus(server.status) == Ok(None) ==> r == Done(Skipped)
    ensures GetBackupStatus(server.status).Err? ==> r == Raised(GetBackupStatus(server.status).error)
    ensures r.Done? && r.value.delta != map[] ==>
      && r.value.delta.Keys == {LastConfluenceBackup, ConfluenceFile}
      && r.value.delta[ConfluenceFile] == Text(ArchivePath(url, date))
      && r.value.delta[LastConfluenceBackup].Stamp?
    ensures r.Done? && r.value.delta != map[] && Triggered in r.value.effects ==>
      r.value.delta[LastConfluenceBackup] == Stamp(now)
    ensures r.Done? && r.value.delta != map[] && Triggered !in r.value.effects ==>
      now - WeekMs < r.value.delta[LastConfluenceBackup].ms
    ensures GetBackupStatus(server.status).Ok? && GetBackupStatus(server.status).value.Some? ==>
      var descriptor := GetBackupStatus(server.status).value.value;
      && (CanUseExisting(descriptor, now) ==> r == UseExisting(server, url, descriptor, date))
      && (!CanUseExisting(descriptor, now) ==> r == CreateNew(server, url, now, date))
      && (r.Done? ==> (Triggered in r.value.effects <==> !CanUseExisting(descriptor, now)))
  {
    match GetBackupStatus(server.status)
    case Err(e) => Raised(e)
    case Ok(None) => Done(Skipped)
    case Ok(Some(descriptor)) =>
      if CanUseExisting(descriptor, now) then
        var r := UseExisting(server, url, descriptor, date);
        if r.Done? && r.value.delta != map[] then
          EntriesShape(AsNumber(GetOr(descriptor, "time", Null)).value, ArchivePath(url, date));
          r
        else r
      else
        var r := CreateNew(server, url, now, date);
        EntriesShape(now, ArchivePath(url, date));
        assert r.Done? ==> Triggered in r.value.effects by {
          if r.Done? { assert r.value.effects[0] == Triggered; }
        }
        r
  }

  /** When Confluence is unavailable nothing else the server would say matters. */
  lemma UnavailableIgnoresRest(server: Server, other: Server, url: string, now: int, date: Layout.Date)
    requires server.status.Ok? && (server.status.value.code == 204 || server.status.value.code in Unavailable)
    requires other.status == server.status
    ensures ProcessBackup(server, url, now, date) == Done(Skipped)
    ensures ProcessBackup(other, url, now, date) == Done(Skipped)
  {
  }
}
