/** Where the package's file manager puts things: the per-instance folder
    name derived from the instance URL, the per-instance status file name,
    and the dated backup archive path inside the folder. */
module Layout {
  import opened Values
  import PyText
  import PyPath

  /** The characters the folder-name sanitiser replaces by '_'. */
  const Forbidden: set<char> := {'/', '\\', ':', '*', '?', '"', '<', '>', '|'}

  /** s with one leading "https://" or "http://" removed. */
  function DropScheme(s: string): (r: string)
    ensures |r| <= |s| && r == s[|s| - |r|..]
    ensures |s| >= 8 && s[..8] == "https://" ==> r == s[8..]
    ensures !(|s| >= 8 && s[..8] == "https://") && |s| >= 7 && s[..7] == "http://" ==> r == s[7..]
    ensures !(|s| >= 8 && s[..8] == "https://") && !(|s| >= 7 && s[..7] == "http://") ==> r == s
  {
    if |s| >= 8 && s[..8] == "https://" then s[8..]
    else if |s| >= 7 && s[..7] == "http://" then s[7..]
    else s
  }

  /** Every forbidden character of s replaced by '_', the others kept. */
  function ReplaceForbidden(s: string): (r: string)
    ensures |r| == |s|
    ensures forall i | 0 <= i < |s| :: r[i] == (if s[i] in Forbidden then '_' else s[i])
  {
    seq(|s|, i requires 0 <= i < |s| => if s[i] in Forbidden then '_' else s[i])
  }

  /** sanitize_folder_name: the scheme dropped, forbidden characters
      replaced, surrounding underscores stripped. */
  function Sanitize(url: string): (r: string)
    ensures |r| <= |url|
    ensures forall i | 0 <= i < |r| :: r[i] !in Forbidden
    ensures r == [] || (r[0] != '_' && r[|r| - 1] != '_')
    ensures PyText.TrimmedFrom(r, ReplaceForbidden(DropScheme(url)), {'_'})
  {
    var replaced := ReplaceForbidden(DropScheme(url));
    ReplacedIsClean(DropScheme(url));
    PyText.StripResult(replaced, {'_'});
    PyText.StripTrims(replaced, {'_'});
    StripKeepsOut(replaced, {'_'}, Forbidden);
    PyText.Strip(replaced, {'_'})
  }

  lemma ReplacedIsClean(s: string)
    ensures forall i | 0 <= i < |s| :: ReplaceForbidden(s)[i] !in Forbidden
  {
    assert '_' !in Forbidden;
  }

  /** Stripping only removes characters, so it adds none of `bad`. */
  lemma StripKeepsOut(s: string, drop: set<char>, bad: set<char>)
    requires forall i | 0 <= i < |s| :: s[i] !in bad
    ensures forall i | 0 <= i < |PyText.Strip(s, drop)| :: PyText.Strip(s, drop)[i] !in bad
  {
    var l := PyText.LStrip(s, drop);
    assert forall i | 0 <= i < |l| :: l[i] == s[|s| - |l| + i];
    var r := PyText.RStrip(l, drop);
    assert forall i | 0 <= i < |r| :: r[i] == l[i];
  }

  /** A string free of forbidden characters has no scheme to drop. */
  lemma DropSchemeClean(s: string)
    requires forall i | 0 <= i < |s| :: s[i] !in Forbidden
    ensures DropScheme(s) == s
  {
    if |s| >= 8 {
      assert s[..8][5] == s[5] != ':';
    }
    if |s| >= 7 {
      assert s[..7][4] == s[4] != ':';
    }
  }

  /** A sanitised folder name is left unchanged by sanitising it again. */
  lemma {:induction false} SanitizeIdempotent(url: string)
    ensures Sanitize(Sanitize(url)) == Sanitize(url)
  {
    var s := Sanitize(url);
    DropSchemeClean(s);
    assert ReplaceForbidden(s) == s;
    PyText.StripFixed(s, {'_'});
  }

  /** get_status_filename: the base status file's name with "_<folder>"
      inserted before its extension. */
  function StatusFileName(baseStatusFile: string, url: string): (r: string)
    ensures '/' !in r
    ensures var (stem, ext) := PyPath.SplitExt(PyPath.BaseName(baseStatusFile));
      stem + ext == PyPath.BaseName(baseStatusFile) && r == stem + "_" + Sanitize(url) + ext
  {
    var (stem, ext) := PyPath.SplitExt(PyPath.BaseName(baseStatusFile));
    NoSlashInParts(PyPath.BaseName(baseStatusFile), stem, ext);
    var folder := Sanitize(url);
    assert '/' !in folder by {
      forall i | 0 <= i < |folder| ensures folder[i] != '/' { assert folder[i] !in Forbidden; }
    }
    stem + "_" + folder + ext
  }

  lemma NoSlashInParts(name: string, stem: string, ext: string)
    requires '/' !in name
    requires stem + ext == name
    ensures '/' !in stem && '/' !in ext
  {
    forall i | 0 <= i < |stem| ensures stem[i] != '/' { assert stem[i] == name[i]; }
    forall i | 0 <= i < |ext| ensures ext[i] != '/' { assert ext[i] == name[|stem| + i]; }
  }

  /** Two instances whose folder names differ never share a status file. */
  lemma {:induction false} StatusFileNamesDistinct(baseStatusFile: string, url1: string, url2: string)
    requires Sanitize(url1) != Sanitize(url2)
    ensures StatusFileName(baseStatusFile, url1) != StatusFileName(baseStatusFile, url2)
  {
    var (stem, ext) := PyPath.SplitExt(PyPath.BaseName(baseStatusFile));
    var f1, f2 := Sanitize(url1), Sanitize(url2);
    if stem + "_" + f1 + ext == stem + "_" + f2 + ext {
      CancelAffixes(stem + "_", f1, f2, ext);
    }
  }

  /** Equal strings with the same prefix and suffix have equal middles. */
  lemma CancelAffixes(p: string, x: string, y: string, q: string)
    requires p + x + q == p + y + q
    ensures x == y
  {
    var s := p + x + q;
    assert |x| == |y|;
    assert x == s[|p|..|p| + |x|];
    assert y == (p + y + q)[|p|..|p| + |y|];
  }

  /** A calendar day, as strftime('%Y-%m-%d') sees it. */
  datatype Date = Date(year: nat, month: nat, day: nat)

  predicate ValidDate(d: Date) {
    1 <= d.year <= 9999 && 1 <= d.month <= 12 && 1 <= d.day <= 31
  }

  /** A number printed with at least two digits. */
  function Pad2(n: nat): (r: string)
    ensures |r| >= 1 && PyText.AllDigits(r)
    ensures PyText.DigitsValue(r) == n
  {
    var digits := PyText.Show(n);
    if n < 10 then
      LeadingZero(digits);
      "0" + digits
    else digits
  }

  lemma {:induction false} LeadingZero(s: string)
    requires PyText.AllDigits(s)
    ensures PyText.AllDigits("0" + s) && PyText.DigitsValue("0" + s) == PyText.DigitsValue(s)
  {
    if s != [] {
      var init := s[..|s| - 1];
      assert ("0" + s)[..|s|] == "0" + init;
      LeadingZero(init);
    }
  }

  /** strftime('%Y-%m-%d'): the year unpadded (as the C library prints it),
      month and day with two digits. */
  function DateText(d: Date): string {
    PyText.Show(d.year) + "-" + Pad2(d.month) + "-" + Pad2(d.day)
  }

  /** Reads a date back from its text, or None. */
  function ParseDate(text: string): Option<Date> {
    var parts := PyText.Split(text, '-');
    if |parts| == 3 && (forall i | 0 <= i < 3 :: parts[i] != [] && PyText.AllDigits(parts[i])) then
      Some(Date(PyText.DigitsValue(parts[0]), PyText.DigitsValue(parts[1]), PyText.DigitsValue(parts[2])))
    else None
  }

  lemma DigitsHaveNoPunctuation(s: string)
    requires PyText.AllDigits(s)
    ensures '-' !in s && '/' !in s
  {
    forall i | 0 <= i < |s| ensures s[i] != '-' && s[i] != '/' { assert PyText.IsDigit(s[i]); }
  }

  /** The date printed into a backup file name can be read back from it,
      so backups of different days get different names. */
  lemma {:induction false} ParseDateText(d: Date)
    ensures ParseDate(DateText(d)) == Some(d)
  {
    var parts := [PyText.Show(d.year), Pad2(d.month), Pad2(d.day)];
    DigitsHaveNoPunctuation(parts[0]);
    DigitsHaveNoPunctuation(parts[1]);
    DigitsHaveNoPunctuation(parts[2]);
    assert PyText.JoinWith(parts[2..], '-') == parts[2];
    assert PyText.JoinWith(parts[1..], '-') == parts[1] + "-" + parts[2];
    assert PyText.JoinWith(parts, '-') == DateText(d);
    PyText.SplitJoin(parts, '-');
  }

  /** The archive name: "<service in lower case>-backup-<date><extension>". */
  function BackupFileName(service: string, date: Date, extension: string): string {
    PyText.Lower(service) + "-backup-" + DateText(date) + extension
  }

  /** prepare_backup_path: the archive name inside the instance folder. */
  function PrepareBackupPath(url: string, service: string, date: Date, extension: string): (r: string)
    ensures r != []
    ensures var name := BackupFileName(service, date, extension);
      |name| <= |r| && r[|r| - |name|..] == name
  {
    PyPath.JoinEndsWith(Sanitize(url), BackupFileName(service, date, extension));
    PyPath.Join(Sanitize(url), BackupFileName(service, date, extension))
  }

  /** The default archive extension. */
  const Zip: string := ".zip"

  lemma {:induction false} NoSlashInBackupFileName(service: string, date: Date, extension: string)
    requires '/' !in service && '/' !in extension
    ensures '/' !in BackupFileName(service, date, extension)
  {
    var lower := PyText.Lower(service);
    forall i | 0 <= i < |lower| ensures lower[i] != '/' { assert lower[i] == PyText.LowerChar(service[i]); }
    DateTextShape(date);
  }

  lemma DateTextShape(date: Date)
    ensures '/' !in DateText(date)
  {
    DigitsHaveNoPunctuation(PyText.Show(date.year));
    DigitsHaveNoPunctuation(Pad2(date.month));
    DigitsHaveNoPunctuation(Pad2(date.day));
  }

  /** The archive lands directly in the instance folder, under its own name. */
  lemma BackupPathInFolder(url: string, service: string, date: Date, extension: string)
    requires '/' !in service && '/' !in extension
    ensures PyPath.BaseName(PrepareBackupPath(url, service, date, extension)) == BackupFileName(service, date, extension)
    ensures Sanitize(url) <= PrepareBackupPath(url, service, date, extension)
    ensures Sanitize(url) != [] ==>
      PrepareBackupPath(url, service, date, extension) == Sanitize(url) + "/" + BackupFileName(service, date, extension)
  {
    var folder := Sanitize(url);
    NoSlashInBackupFileName(service, date, extension);
    PyPath.BaseNameOfJoin(folder, BackupFileName(service, date, extension));
    PyPath.JoinExtends(folder, BackupFileName(service, date, extension));
    if folder != [] {
      assert folder[|folder| - 1] !in Forbidden;
    }
  }
}
