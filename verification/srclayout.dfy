/** The file manager of the src/ tree: the same folder-name sanitiser and
    archive names as the package's, but every path is made absolute, the
    instance folder may sit under a backup target directory, and the status
    file lives inside the instance folder under the base file's own name.
    Loading and saving the status are the package's (StatusStore). */
module SrcLayout {
  import opened Values
  import PyPath
  import Layout

  /** os.path.abspath(p) against the working directory `cwd`, without the
      normalisation of "." and ".." components. */
  function Abs(cwd: string, p: string): (r: string)
    ensures p == [] ==> r == cwd
    ensures p != [] && p[0] == '/' ==> r == p
    ensures p != [] && p[0] != '/' ==> r == (if cwd == [] || cwd[|cwd| - 1] == '/' then cwd + p else cwd + "/" + p)
  {
    if p == [] then cwd else PyPath.Join(cwd, p)
  }

  /** A backup target directory counts only when it is given and not empty. */
  predicate HasTarget(target: Option<string>) {
    target.Some? && target.value != []
  }

  /** The directory the instance folder is created in. */
  function Parent(cwd: string, target: Option<string>): string {
    if HasTarget(target) then Abs(cwd, target.value) else cwd
  }

  /** get_backup_folder: the sanitised instance name under the target
      directory when one is given, under the working directory otherwise. */
  function BackupFolder(cwd: string, target: Option<string>, url: string): (r: string)
    ensures Layout.Sanitize(url) != [] ==> r == PyPath.Join(Parent(cwd, target), Layout.Sanitize(url))
    ensures Layout.Sanitize(url) != [] ==> PyPath.BaseName(r) == Layout.Sanitize(url)
    ensures HasTarget(target) ==> Abs(cwd, target.value) <= r
  {
    var folder := Layout.Sanitize(url);
    SanitizedHasNoSlash(url);
    PyPath.BaseNameOfJoin(Parent(cwd, target), folder);
    PyPath.JoinExtends(Parent(cwd, target), folder);
    if HasTarget(target) then PyPath.Join(Abs(cwd, target.value), folder)
    else Abs(cwd, folder)
  }

  /** get_status_filename: the base status file's own name inside the instance folder. */
  function StatusFile(cwd: string, target: Option<string>, url: string, baseStatusFile: string): string {
    PyPath.Join(BackupFolder(cwd, target, url), PyPath.BaseName(baseStatusFile))
  }

  /** prepare_backup_path: the archive name inside the instance folder. */
  function PrepareBackupPath(cwd: string, target: Option<string>, url: string, service: string,
                             date: Layout.Date, extension: string): string {
    PyPath.Join(BackupFolder(cwd, target, url), Layout.BackupFileName(service, date, extension))
  }

  /** The status file keeps the base file's name and sits in the instance folder. */
  lemma {:induction false} StatusFileInFolder(cwd: string, target: Option<string>, url: string, baseStatusFile: string)
    ensures PyPath.BaseName(StatusFile(cwd, target, url, baseStatusFile)) == PyPath.BaseName(baseStatusFile)
    ensures BackupFolder(cwd, target, url) <= StatusFile(cwd, target, url, baseStatusFile)
  {
    var name := PyPath.BaseName(baseStatusFile);
    PyPath.BaseNameOfJoin(BackupFolder(cwd, target, url), name);
    PyPath.JoinExtends(BackupFolder(cwd, target, url), name);
  }

  /** The archive lands in the instance folder under its own name. */
  lemma {:induction false} BackupPathInFolder(cwd: string, target: Option<string>, url: string, service: string,
                                              date: Layout.Date, extension: string)
    requires '/' !in service && '/' !in extension
    ensures PyPath.BaseName(PrepareBackupPath(cwd, target, url, service, date, extension))
         == Layout.BackupFileName(service, date, extension)
    ensures BackupFolder(cwd, target, url) <= PrepareBackupPath(cwd, target, url, service, date, extension)
  {
    var name := Layout.BackupFileName(service, date, extension);
    Layout.NoSlashInBackupFileName(service, date, extension);
    PyPath.BaseNameOfJoin(BackupFolder(cwd, target, url), name);
    PyPath.JoinExtends(BackupFolder(cwd, target, url), name);
  }

  lemma SanitizedHasNoSlash(url: string)
    ensures '/' !in Layout.Sanitize(url)
  {
    var s := Layout.Sanitize(url);
    forall i | 0 <= i < |s| ensures s[i] != '/' { assert s[i] !in Layout.Forbidden; }
  }

  /** What os.path.join puts in front of a relative name. */
  function JoinPrefix(dir: string): string {
    if dir == [] || dir[|dir| - 1] == '/' then dir else dir + "/"
  }

  lemma JoinRelative(dir: string, name: string)
    requires name != [] && '/' !in name
    ensures PyPath.Join(dir, name) == JoinPrefix(dir) + name
    ensures PyPath.Join(dir, name)[|PyPath.Join(dir, name)| - 1] != '/'
  {
    assert name[0] != '/';
    assert name[|name| - 1] != '/';
  }

  /** Two names without '/' joined twice under the same directory stay apart. */
  lemma {:induction false} NestedJoinsDistinct(parent: string, s1: string, s2: string, name: string)
    requires s1 != [] && s2 != [] && '/' !in s1 && '/' !in s2 && '/' !in name
    requires s1 != s2
    ensures PyPath.Join(PyPath.Join(parent, s1), name) != PyPath.Join(PyPath.Join(parent, s2), name)
  {
    var prefix := JoinPrefix(parent);
    JoinRelative(parent, s1);
    JoinRelative(parent, s2);
    var f1, f2 := prefix + s1, prefix + s2;
    PyPath.JoinExtends(f1, name);
    PyPath.JoinExtends(f2, name);
    if f1 + "/" + name == f2 + "/" + name {
      assert prefix + s1 + ("/" + name) == f1 + "/" + name;
      assert prefix + s2 + ("/" + name) == f2 + "/" + name;
      Layout.CancelAffixes(prefix, s1, s2, "/" + name);
    }
  }

  /** Instances whose sanitised names differ (and are not empty) keep their
      status in different files, whatever the target directory. */
  lemma {:induction false} StatusFilesDistinct(cwd: string, target: Option<string>, url1: string, url2: string,
                                               baseStatusFile: string)
    requires Layout.Sanitize(url1) != [] && Layout.Sanitize(url2) != []
    requires Layout.Sanitize(url1) != Layout.Sanitize(url2)
    ensures StatusFile(cwd, target, url1, baseStatusFile) != StatusFile(cwd, target, url2, baseStatusFile)
  {
    SanitizedHasNoSlash(url1);
    SanitizedHasNoSlash(url2);
    NestedJoinsDistinct(Parent(cwd, target), Layout.Sanitize(url1), Layout.Sanitize(url2), PyPath.BaseName(baseStatusFile));
  }
}
