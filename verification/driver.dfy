/** The command-line entry points, main.py and the draft's main: the
    instance list read from ATLASSIAN_INSTANCES, the start-up checks that
    exit the process, and the loop that backs up every instance in turn and
    counts the ones that finished. */
module Driver {
  import opened Values
  import PyText
  import Layout
  import SrcLayout
  import Controller
  import Jira
  import Monolith

  /** A name as the instance list yields it: not blank, no surrounding whitespace. */
  predicate IsName(n: string) {
    n != [] && n[0] !in PyText.Whitespace && n[|n| - 1] !in PyText.Whitespace
  }

  /** The instance names of the non-blank pieces, each stripped, in order. */
  function KeptNames(pieces: seq<string>): (names: seq<string>)
    ensures |names| <= |pieces|
    ensures forall i | 0 <= i < |names| :: IsName(names[i])
  {
    if pieces == [] then []
    else
      var name := PyText.StripSpace(pieces[0]);
      PyText.StripResult(pieces[0], PyText.Whitespace);
      var rest := KeptNames(pieces[1..]);
      if name == [] then rest else [name] + rest
  }

  /** Stripping adds no comma, so comma-free pieces give comma-free names. */
  lemma {:induction false} KeptNamesNoComma(pieces: seq<string>)
    requires forall i | 0 <= i < |pieces| :: ',' !in pieces[i]
    ensures forall i | 0 <= i < |KeptNames(pieces)| :: ',' !in KeptNames(pieces)[i]
  {
    if pieces != [] {
      var rest := pieces[1..];
      assert forall i | 0 <= i < |rest| :: ',' !in rest[i] by {
        forall i | 0 <= i < |rest| ensures ',' !in rest[i] {
          assert rest[i] == pieces[i + 1];
        }
      }
      KeptNamesNoComma(rest);
      var name := PyText.StripSpace(pieces[0]);
      assert ',' !in pieces[0];
      StripAddsNoComma(pieces[0]);
      var kept, keptRest := KeptNames(pieces), KeptNames(rest);
      if name == [] {
        assert kept == keptRest;
      } else {
        assert kept == [name] + keptRest;
        forall i | 0 <= i < |kept| ensures ',' !in kept[i] {
          if i > 0 {
            assert kept[i] == keptRest[i - 1];
          }
        }
      }
    }
  }

  lemma StripAddsNoComma(s: string)
    ensures ',' !in s ==> ',' !in PyText.StripSpace(s)
  {
    if ',' !in s {
      Layout.StripKeepsOut(s, PyText.Whitespace, {','});
    }
  }

  /** The names in ATLASSIAN_INSTANCES: the comma-separated pieces, stripped,
      with the blank ones dropped; an empty setting names no instance. */
  function InstanceNames(setting: string): (names: seq<string>)
    ensures forall i | 0 <= i < |names| :: IsName(names[i]) && ',' !in names[i]
  {
    if setting == [] then []
    else
      var pieces := PyText.Split(setting, ',');
      assert forall i | 0 <= i < |pieces| :: ',' !in pieces[i] by {
        forall i | 0 <= i < |pieces| ensures ',' !in pieces[i] {
          assert pieces[i] in pieces;
        }
      }
      KeptNamesNoComma(pieces);
      KeptNames(pieces)
  }

  /** Names that are already stripped and non-blank are kept as they are. */
  lemma {:induction false} KeptNamesOfClean(names: seq<string>)
    requires forall i | 0 <= i < |names| :: IsName(names[i])
    ensures KeptNames(names) == names
  {
    if names != [] {
      var first, rest := names[0], names[1..];
      assert forall i | 0 <= i < |rest| :: IsName(rest[i]) by {
        forall i | 0 <= i < |rest| ensures IsName(rest[i]) {
          assert rest[i] == names[i + 1];
        }
      }
      KeptNamesOfClean(rest);
      assert IsName(first);
      PyText.StripFixed(first, PyText.Whitespace);
      assert PyText.StripSpace(first) == first;
      assert KeptNames(names) == [first] + KeptNames(rest);
      assert [first] + rest == names;
    }
  }

  /** Listing instance names separated by commas gives back exactly those names. */
  lemma {:induction false} InstanceNamesRoundTrip(names: seq<string>)
    requires forall i | 0 <= i < |names| :: IsName(names[i]) && ',' !in names[i]
    ensures InstanceNames(PyText.JoinWith(names, ',')) == names
  {
    if names != [] {
      var setting := PyText.JoinWith(names, ',');
      assert IsName(names[0]);
      assert setting != [] by {
        if |names| > 1 {
          assert setting == names[0] + [','] + PyText.JoinWith(names[1..], ',');
        }
      }
      assert forall p | p in names :: ',' !in p;
      PyText.SplitJoin(names, ',');
      KeptNamesOfClean(names);
    }
  }

  /** The domain every Atlassian Cloud instance lives under. */
  const Domain: string := ".atlassian.net"

  /** The URL of a named instance. */
  function InstanceUrl(name: string): string {
    "https://" + name + Domain
  }

  /** A name the folder sanitiser leaves alone: not empty, no leading '_',
      no character it replaces. */
  predicate CleanName(name: string) {
    name != [] && name[0] != '_' && forall i | 0 <= i < |name| :: name[i] !in Layout.Forbidden
  }

  /** The folder of an instance with a clean name is its host name. */
  lemma {:induction false} InstanceFolder(name: string)
    requires CleanName(name)
    ensures Layout.Sanitize(InstanceUrl(name)) == name + Domain
  {
    var url := InstanceUrl(name);
    var host := name + Domain;
    assert url == "https://" + host;
    assert url[..8] == "https://" && url[8..] == host;
    assert Layout.DropScheme(url) == host;
    assert forall i | 0 <= i < |Domain| :: Domain[i] !in Layout.Forbidden;
    assert forall i | 0 <= i < |host| :: host[i] !in Layout.Forbidden by {
      forall i | 0 <= i < |host|
        ensures host[i] !in Layout.Forbidden
      {
        if i < |name| {
          assert host[i] == name[i];
        } else {
          assert host[i] == Domain[i - |name|];
        }
      }
    }
    assert Layout.ReplaceForbidden(host) == host;
    assert host[0] == name[0] && host[|host| - 1] == 't';
    PyText.StripFixed(host, {'_'});
  }

  /** Two differently named clean instances never share a status file. */
  lemma {:induction false} InstancesKeepSeparateStatus(cwd: string, target: Option<string>, name1: string, name2: string,
                                                       baseStatusFile: string)
    requires CleanName(name1) && CleanName(name2) && name1 != name2
    ensures SrcLayout.StatusFile(cwd, target, InstanceUrl(name1), baseStatusFile)
         != SrcLayout.StatusFile(cwd, target, InstanceUrl(name2), baseStatusFile)
  {
    InstanceFolder(name1);
    InstanceFolder(name2);
    SuffixCancels(name1, name2, Domain);
    SrcLayout.StatusFilesDistinct(cwd, target, InstanceUrl(name1), InstanceUrl(name2), baseStatusFile);
  }

  lemma SuffixCancels(a: string, b: string, c: string)
    requires a != b
    ensures a + c != b + c
  {
    if |a| == |b| {
      assert (a + c)[..|a|] == a && (b + c)[..|b|] == b;
    }
  }

  /** The environment variables the entry points read (None when unset). */
  datatype Env = Env(instances: Option<string>, username: Option<string>, token: Option<string>,
                     pollInterval: Option<string>)

  /** What a successful start-up hands to the backup loop. */
  datatype Config = Config(urls: seq<string>, username: string, token: string, pollInterval: int)

  /** The instance URLs named by the environment. */
  function Urls(env: Env): (urls: seq<string>)
    ensures |urls| == |InstanceNames(env.instances.GetOr(""))|
    ensures forall i | 0 <= i < |urls| ::
      Layout.DropScheme(urls[i]) == InstanceNames(env.instances.GetOr(""))[i] + Domain
  {
    var names := InstanceNames(env.instances.GetOr(""));
    forall i | 0 <= i < |names| ensures Layout.DropScheme(InstanceUrl(names[i])) == names[i] + Domain {
      assert InstanceUrl(names[i])[..8] == "https://";
      assert InstanceUrl(names[i])[8..] == names[i] + Domain;
    }
    seq(|names|, i requires 0 <= i < |names| => InstanceUrl(names[i]))
  }

  /** Seconds between polls when POLL_INTERVAL_SECONDS is unset. */
  const DefaultPollInterval: int := 30

  /** int(os.getenv('POLL_INTERVAL_SECONDS', 30)) */
  function PollInterval(setting: Option<string>): (r: Result<int>)
    ensures setting.None? ==> r == Ok(DefaultPollInterval)
    ensures setting.Some? ==> (r.Ok? <==> PyText.IsDigitGroup(PyText.Unsigned(PyText.StripSpace(setting.value))))
    ensures r.Err? ==> r.error.ValueError?
  {
    match setting
    case None => Ok(DefaultPollInterval)
    case Some(s) => PyText.ParseInt(s)
  }

  /** A credential counts when it is set and not empty. */
  predicate Given(v: Option<string>) {
    v.Some? && v.value != []
  }

  /** The exit status of a start-up check that fails. */
  const ExitFailure: Error := SystemExit(1)

  /** main.py's start-up: no instance exits, then the poll interval is
      parsed (an unparsable one raises ValueError), then a missing or empty
      credential exits. */
  function Startup(env: Env): (r: Result<Config>)
    ensures r.Ok? <==> Urls(env) != [] && PollInterval(env.pollInterval).Ok? && Given(env.username) && Given(env.token)
    ensures Urls(env) == [] ==> r == Err(ExitFailure)
    ensures Urls(env) != [] && PollInterval(env.pollInterval).Err? ==> r.Err? && r.error.ValueError?
    ensures r.Err? ==> r.error == ExitFailure || r.error.ValueError?
    ensures r.Ok? ==> r.value == Config(Urls(env), env.username.value, env.token.value, PollInterval(env.pollInterval).value)
  {
    var urls := Urls(env);
    if urls == [] then Err(ExitFailure)
    else match PollInterval(env.pollInterval)
      case Err(e) => Err(e)
      case Ok(poll) =>
        if !Given(env.username) || !Given(env.token) then Err(ExitFailure)
        else Ok(Config(urls, env.username.value, env.token.value, poll))
  }

  /** The draft's start-up: its poll interval is parsed when the module is
      imported, before main checks the instances and credentials. */
  function DraftStartup(env: Env): (r: Result<Config>)
    ensures PollInterval(env.pollInterval).Err? ==> r.Err? && r.error.ValueError?
    ensures PollInterval(env.pollInterval).Ok? ==> r == Startup(env)
  {
    match PollInterval(env.pollInterval)
    case Err(e) => Err(e)
    case Ok(poll) =>
      var urls := Urls(env);
      if urls == [] then Err(ExitFailure)
      else if !Given(env.username) || !Given(env.token) then Err(ExitFailure)
      else Ok(Config(urls, env.username.value, env.token.value, poll))
  }

  /** `except Exception` catches every error but the SystemExit of sys.exit. */
  predicate Caught(e: Error) {
    !e.SystemExit?
  }

  /** The first instance whose attempt ends in an error the loop does not catch. */
  function FirstEscape(outcomes: seq<Option<Error>>): (r: Option<nat>)
    ensures r.Some? ==> r.value < |outcomes| && outcomes[r.value].Some? && !Caught(outcomes[r.value].value)
    ensures r.Some? ==> forall j | 0 <= j < r.value :: outcomes[j].None? || Caught(outcomes[j].value)
    ensures r.None? <==> forall j | 0 <= j < |outcomes| :: outcomes[j].None? || Caught(outcomes[j].value)
  {
    if outcomes == [] then None
    else if outcomes[0].Some? && !Caught(outcomes[0].value) then Some(0)
    else match FirstEscape(outcomes[1..])
      case None => None
      case Some(k) => Some(k + 1)
  }

  /** How many instances the loop finishes: all of them, or those before the first escape. */
  function Finished(outcomes: seq<Option<Error>>): (n: nat)
    ensures n <= |outcomes|
    ensures n < |outcomes| <==> FirstEscape(outcomes).Some?
  {
    match FirstEscape(outcomes)
    case None => |outcomes|
    case Some(k) => k
  }

  /** The number of attempts that ended normally. */
  function Successes(outcomes: seq<Option<Error>>): nat {
    if outcomes == [] then 0
    else Successes(outcomes[..|outcomes| - 1]) + (if outcomes[|outcomes| - 1].None? then 1 else 0)
  }

  /** The positions of the attempts that raised, in order. */
  function Failures(outcomes: seq<Option<Error>>): seq<nat> {
    if outcomes == [] then []
    else Failures(outcomes[..|outcomes| - 1]) + (if outcomes[|outcomes| - 1].Some? then [|outcomes| - 1] else [])
  }

  /** Every attempt is counted once: as a success, or as a failure at its own position. */
  lemma {:induction false} TallyPartition(outcomes: seq<Option<Error>>)
    ensures Successes(outcomes) + |Failures(outcomes)| == |outcomes|
    ensures forall i | 0 <= i < |outcomes| :: outcomes[i].Some? <==> i in Failures(outcomes)
    ensures forall x | x in Failures(outcomes) :: x < |outcomes|
  {
    if outcomes != [] {
      var init := outcomes[..|outcomes| - 1];
      TallyPartition(init);
      forall i | 0 <= i < |outcomes|
        ensures outcomes[i].Some? <==> i in Failures(outcomes)
      {
        if i < |init| {
          assert outcomes[i] == init[i];
        }
      }
    }
  }

  /** The loop over the instances: an attempt that returns counts as a
      success, a caught error is logged and the loop goes on, and an error
      the loop does not catch ends it and the process. `outcomes[i]` is how
      the attempt at instance i would end. */
  method RunInstances(outcomes: seq<Option<Error>>) returns (successes: nat, failed: seq<nat>, escaped: Option<Error>)
    ensures successes == Successes(outcomes[..Finished(outcomes)])
    ensures failed == Failures(outcomes[..Finished(outcomes)])
    ensures successes + |failed| == Finished(outcomes)
    ensures escaped.None? <==> Finished(outcomes) == |outcomes|
    ensures escaped.Some? ==> escaped == outcomes[Finished(outcomes)] && !Caught(escaped.value)
  {
    successes, failed, escaped := 0, [], None;
    var i := 0;
    while i < |outcomes|
      invariant 0 <= i <= |outcomes|
      invariant forall j | 0 <= j < i :: outcomes[j].None? || Caught(outcomes[j].value)
      invariant successes == Successes(outcomes[..i]) && failed == Failures(outcomes[..i])
    {
      assert outcomes[..i + 1][..i] == outcomes[..i];
      match outcomes[i] {
        case None =>
          successes := successes + 1;
        case Some(e) =>
          if !Caught(e) {
            escaped := Some(e);
            assert FirstEscape(outcomes) == Some(i);
            TallyPartition(outcomes[..i]);
            return;
          }
          failed := failed + [i];
      }
      i := i + 1;
    }
    assert outcomes[..|outcomes|] == outcomes;
    TallyPartition(outcomes);
  }

  /** One attempt of main.py: build the controller, then orchestrate. */
  function Attempt(wiring: Controller.Wiring, orchestrated: Option<Error>): Option<Error> {
    match Controller.Construct(wiring)
    case Err(e) => Some(e)
    case Ok(_) => orchestrated
  }

  /** Attempts that all raise caught errors: nothing succeeds, every position fails. */
  lemma {:induction false} AllCaughtFailures(outcomes: seq<Option<Error>>)
    requires forall i | 0 <= i < |outcomes| :: outcomes[i].Some? && Caught(outcomes[i].value)
    ensures FirstEscape(outcomes).None? && Finished(outcomes) == |outcomes|
    ensures Successes(outcomes) == 0
    ensures Failures(outcomes) == seq(|outcomes|, i => i)
  {
    if outcomes != [] {
      var init := outcomes[..|outcomes| - 1];
      AllCaughtFailures(init);
      assert seq(|init|, i => i) + [|init|] == seq(|outcomes|, i => i);
    }
  }

  /** main.py builds each controller with the package's constructor calls,
      which raise TypeError: every instance is logged as failed and none
      succeeds, whatever orchestrate would have done. */
  lemma {:induction false} PackageRunSucceedsNowhere(orchestrated: seq<Option<Error>>)
    ensures var outcomes := seq(|orchestrated|, i requires 0 <= i < |orchestrated| => Attempt(Controller.AsWritten, orchestrated[i]));
      && Finished(outcomes) == |outcomes|
      && Successes(outcomes) == 0
      && Failures(outcomes) == seq(|outcomes|, i => i)
  {
    Controller.AsWrittenConstructionFails();
    var outcomes := seq(|orchestrated|, i requires 0 <= i < |orchestrated| => Attempt(Controller.AsWritten, orchestrated[i]));
    assert forall i | 0 <= i < |outcomes| :: outcomes[i] == Some(TypeError("JiraClient.__init__"));
    AllCaughtFailures(outcomes);
  }

  /** With the corrected constructor calls an attempt ends as orchestrate does. */
  lemma CorrectedAttemptIsOrchestrate(orchestrated: Option<Error>)
    ensures Attempt(Controller.Corrected, orchestrated) == orchestrated
  {
    Controller.CorrectedConstructionSucceeds();
  }

  /** The draft exits the process where the package raises: an instance whose
      last Jira task has no `submitted` stops the loop before the next
      instance in the draft, while the package's ValueError is caught. */
  lemma {:induction false} MissingSubmittedIsCaught(server: Jira.Server, url: string, status: Dict, now: int,
                                                    date: Layout.Date)
    requires var id := Jira.FetchLastTaskId(server.lastTaskId);
      && id.Some? && id.value != 0 && !Jira.AlreadyProcessed(id, status)
      && server.taskInfo.Ok? && !Truthy(GetOr(server.taskInfo.value, "submitted", Null))
    ensures Monolith.HandleJira(server, url, status, now, date) == Raised(Monolith.Exit1) && !Caught(Monolith.Exit1)
    ensures Jira.ProcessBackup(server, url, status, now, date) == Raised(Jira.MissingSubmitted) && Caught(Jira.MissingSubmitted)
  {
    var id := Jira.FetchLastTaskId(server.lastTaskId);
    assert Monolith.FetchLastJiraTaskId(server.lastTaskId) == Ok(id);
    var path := Jira.ArchivePath(url, date);
    var check := (k: int) => Jira.CheckExistingTask(server, url, k, now, path, Jira.MissingSubmitted);
    assert check(id.value) == Raised(Jira.MissingSubmitted);
  }

  /** An instance that exits leaves the instances after it unattempted; the
      same instance raising a caught error lets the next one finish. */
  lemma ExitSkipsLaterInstances()
    ensures var drafted := [Some(Monolith.Exit1), None];
      Finished(drafted) == 0 && Successes(drafted[..Finished(drafted)]) == 0
    ensures var corrected := [Some(Jira.MissingSubmitted), None];
      Finished(corrected) == 2 && Successes(corrected) == 1 && Failures(corrected) == [0]
  {
    var corrected := [Some(Jira.MissingSubmitted), None];
    assert corrected[..1] == [Some(Jira.MissingSubmitted)];
    assert corrected[..1][..0] == [];
    assert Failures(corrected[..1]) == [0];
    assert Failures(corrected) == Failures(corrected[..1]);
  }
}
