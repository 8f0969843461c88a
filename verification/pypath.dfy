/** POSIX path helpers the backup tool uses: os.path.join for two
    components, os.path.basename and os.path.splitext. */
module PyPath {

  /** Index of the last occurrence of `c` in `s`, or -1. */
  function LastIndex(s: string, c: char): (k: int)
    ensures -1 <= k < |s|
    ensures k >= 0 ==> s[k] == c
    ensures forall j | k < j < |s| :: s[j] != c
  {
    if s == [] then -1
    else if s[|s| - 1] == c then |s| - 1
    else LastIndex(s[..|s| - 1], c)
  }

  /** os.path.basename(p): everything after the last '/'. */
  function BaseName(p: string): (r: string)
    ensures '/' !in r
    ensures |r| <= |p| && r == p[|p| - |r|..]
    ensures |r| < |p| ==> p[|p| - |r| - 1] == '/'
  {
    if p == [] || p[|p| - 1] == '/' then ""
    else
      var init := p[..|p| - 1];
      var b := BaseName(init);
      assert b == init[|init| - |b|..] && '/' !in b;
      SuffixSnoc(p, |init| - |b|);
      var r := b + [p[|p| - 1]];
      assert r == p[|p| - |r|..];
      r
  }

  /** A suffix of all but the last element, followed by the last element, is a suffix. */
  lemma SuffixSnoc(p: string, k: nat)
    requires k < |p|
    ensures p[..|p| - 1][k..] + [p[|p| - 1]] == p[k..]
  {
    var a := p[..|p| - 1][k..] + [p[|p| - 1]];
    assert forall i | 0 <= i < |a| :: a[i] == p[k + i];
  }

  /** os.path.join(a, b) for two components: an absolute `b` replaces `a`;
      otherwise one '/' is inserted unless `a` is empty or already ends with one. */
  function Join(a: string, b: string): string {
    if |b| > 0 && b[0] == '/' then b
    else if a == [] || a[|a| - 1] == '/' then a + b
    else a + "/" + b
  }

  /** os.path.join(a, b) always ends with b. */
  lemma JoinEndsWith(a: string, b: string)
    ensures |b| <= |Join(a, b)| && Join(a, b)[|Join(a, b)| - |b|..] == b
  {
    var j := Join(a, b);
    assert j[|j| - |b|..] == b;
  }

  /** A name without '/' is joined below the directory: the result starts with it. */
  lemma JoinExtends(dir: string, name: string)
    requires '/' !in name
    ensures dir <= Join(dir, name)
    ensures dir != [] && dir[|dir| - 1] != '/' ==> Join(dir, name) == dir + "/" + name
  {
    if name != [] {
      assert name[0] != '/';
    }
  }

  /** A name with no separator, joined under a directory, is the base name of the result. */
  lemma BaseNameOfJoin(dir: string, name: string)
    requires '/' !in name
    ensures BaseName(Join(dir, name)) == name
  {
    if name != [] && name[0] == '/' {
      assert false;
    } else if dir == [] || dir[|dir| - 1] == '/' {
      BaseNameAfterSlash(dir, name);
    } else {
      BaseNameAfterSlash(dir + "/", name);
    }
  }

  lemma BaseNameAfterSlash(pre: string, name: string)
    requires '/' !in name
    requires pre == [] || pre[|pre| - 1] == '/'
    ensures BaseName(pre + name) == name
  {
    var p := pre + name;
    assert p[|pre|..] == name;
  }

  /** Whether some character of p[i..dotIndex] is not a dot (the scan that
      skips the leading dots of the final component). */
  function HasNonDot(p: string, i: int, dotIndex: int): bool
    requires 0 <= i <= dotIndex <= |p|
    decreases dotIndex - i
  {
    if i == dotIndex then false
    else p[i] != '.' || HasNonDot(p, i + 1, dotIndex)
  }

  /** os.path.splitext(p): the extension starts at the last '.' of the final
      component, unless every character before that dot in the component is
      a dot too (".bashrc" has no extension). */
  function SplitExt(p: string): (r: (string, string))
    ensures r.0 + r.1 == p
    ensures r.1 == "" || (r.1[0] == '.' && '.' !in r.1[1..] && '/' !in r.1)
  {
    var sepIndex := LastIndex(p, '/');
    var dotIndex := LastIndex(p, '.');
    if dotIndex > sepIndex && HasNonDot(p, sepIndex + 1, dotIndex) then
      ExtensionShape(p, sepIndex, dotIndex);
      (p[..dotIndex], p[dotIndex..])
    else
      (p, "")
  }

  lemma ExtensionShape(p: string, sepIndex: int, dotIndex: int)
    requires -1 <= sepIndex < dotIndex < |p|
    requires p[dotIndex] == '.'
    requires forall j | sepIndex < j < |p| :: p[j] != '/'
    requires forall j | dotIndex < j < |p| :: p[j] != '.'
    ensures var ext := p[dotIndex..]; ext[0] == '.' && '.' !in ext[1..] && '/' !in ext
  {
    var ext := p[dotIndex..];
    forall j | 0 <= j < |ext|
      ensures ext[j] == p[dotIndex + j]
    {
    }
    assert forall j | 0 <= j < |ext[1..]| :: ext[1..][j] == p[dotIndex + 1 + j];
  }
}
