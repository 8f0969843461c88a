/** The handful of Python string operations the backup tool relies on:
    strip/rstrip, upper/lower, split on one character, str() of an integer
    and int() of a string. Only ASCII letters, digits and whitespace are
    given their Unicode meaning; whitespace is the full set str.isspace()
    accepts. */
module PyText {
  import opened Values

  /** The characters str.strip() removes by default: those str.isspace()
      accepts, including the four ASCII separators 0x1c-0x1f. */
  const Whitespace: set<char> := {
    '\t', '\n', 11 as char, 12 as char, '\r', 28 as char, 29 as char, 30 as char, 31 as char, ' ',
    0x85 as char, 0xa0 as char, 0x1680 as char,
    0x2000 as char, 0x2001 as char, 0x2002 as char, 0x2003 as char, 0x2004 as char, 0x2005 as char,
    0x2006 as char, 0x2007 as char, 0x2008 as char, 0x2009 as char, 0x200a as char,
    0x2028 as char, 0x2029 as char, 0x202f as char, 0x205f as char, 0x3000 as char}

  /** s.lstrip(chars): drops the longest prefix made of `drop` characters. */
  function LStrip(s: string, drop: set<char>): (r: string)
    ensures |r| <= |s| && r == s[|s| - |r|..]
    ensures forall i | 0 <= i < |s| - |r| :: s[i] in drop
    ensures r == [] || r[0] !in drop
  {
    if s != [] && s[0] in drop then LStrip(s[1..], drop) else s
  }

  /** s.rstrip(chars): drops the longest suffix made of `drop` characters. */
  function RStrip(s: string, drop: set<char>): (r: string)
    ensures |r| <= |s| && r == s[..|r|]
    ensures forall i | |r| <= i < |s| :: s[i] in drop
    ensures r == [] || r[|r| - 1] !in drop
  {
    if s != [] && s[|s| - 1] in drop then RStrip(s[..|s| - 1], drop) else s
  }

  /** s.strip(chars) */
  function Strip(s: string, drop: set<char>): string {
    RStrip(LStrip(s, drop), drop)
  }

  /** s.strip() with no argument. */
  function StripSpace(s: string): string {
    Strip(s, Whitespace)
  }

  lemma {:induction false} StripResult(s: string, drop: set<char>)
    ensures var r := Strip(s, drop);
      |r| <= |s| && (r == [] || (r[0] !in drop && r[|r| - 1] !in drop))
  {
    var l := LStrip(s, drop);
    var r := RStrip(l, drop);
    if r != [] {
      assert r[0] == l[0];
    }
  }

  /** `r` is `s` with a run of `drop` characters cut from each end, the
      first `i` characters at the front. */
  predicate TrimmedAt(r: string, s: string, drop: set<char>, i: nat) {
    && i + |r| <= |s|
    && r == s[i..i + |r|]
    && (forall k | 0 <= k < i :: s[k] in drop)
    && (forall k | i + |r| <= k < |s| :: s[k] in drop)
  }

  /** `r` is `s` with a run of `drop` characters cut from each end. */
  predicate TrimmedFrom(r: string, s: string, drop: set<char>) {
    exists i: nat | i <= |s| :: TrimmedAt(r, s, drop, i)
  }

  /** s.strip(chars) cuts only `drop` characters, and only from the ends. */
  lemma StripTrims(s: string, drop: set<char>)
    ensures TrimmedFrom(Strip(s, drop), s, drop)
  {
    var l := LStrip(s, drop);
    var r := RStrip(l, drop);
    var i := |s| - |l|;
    assert r == s[i..i + |r|];
    assert forall k | i + |r| <= k < |s| :: s[k] == l[k - i];
    assert TrimmedAt(r, s, drop, i);
  }

  /** A string that carries no leading or trailing `drop` character is its own strip. */
  lemma {:induction false} StripFixed(s: string, drop: set<char>)
    requires s == [] || (s[0] !in drop && s[|s| - 1] !in drop)
    ensures Strip(s, drop) == s
  {
    assert LStrip(s, drop) == s;
  }

  function UpperChar(c: char): char {
    if 'a' <= c <= 'z' then (c as int - 32) as char else c
  }

  function LowerChar(c: char): char {
    if 'A' <= c <= 'Z' then (c as int + 32) as char else c
  }

  /** s.upper(), for ASCII letters. */
  function Upper(s: string): (r: string)
    ensures |r| == |s|
    ensures forall i | 0 <= i < |s| :: r[i] == UpperChar(s[i])
  {
    seq(|s|, i requires 0 <= i < |s| => UpperChar(s[i]))
  }

  /** s.lower(), for ASCII letters. */
  function Lower(s: string): (r: string)
    ensures |r| == |s|
    ensures forall i | 0 <= i < |s| :: r[i] == LowerChar(s[i])
  {
    seq(|s|, i requires 0 <= i < |s| => LowerChar(s[i]))
  }

  /** sep.join(parts) for a one-character separator. */
  function JoinWith(parts: seq<string>, sep: char): string {
    if |parts| == 0 then ""
    else if |parts| == 1 then parts[0]
    else parts[0] + [sep] + JoinWith(parts[1..], sep)
  }

  /** s.split(sep) for a one-character separator: the pieces between
      separators, in order; there is always at least one piece. */
  function Split(s: string, sep: char): (parts: seq<string>)
    ensures |parts| >= 1
    ensures forall p | p in parts :: sep !in p
    ensures JoinWith(parts, sep) == s
  {
    if s == [] then [""]
    else
      var rest := Split(s[1..], sep);
      if s[0] == sep then
        assert JoinWith([""] + rest, sep) == "" + [sep] + JoinWith(rest, sep);
        [""] + rest
      else
        var parts := [[s[0]] + rest[0]] + rest[1..];
        JoinConsChar(s[0], rest, sep);
        parts
  }

  lemma {:induction false} JoinConsChar(c: char, parts: seq<string>, sep: char)
    requires |parts| >= 1
    ensures JoinWith([[c] + parts[0]] + parts[1..], sep) == [c] + JoinWith(parts, sep)
  {
    var q := [[c] + parts[0]] + parts[1..];
    if |parts| == 1 {
    } else {
      assert q[1..] == parts[1..];
    }
  }

  /** Splitting undoes joining when no part contains the separator. */
  lemma {:induction false} SplitJoin(parts: seq<string>, sep: char)
    requires |parts| >= 1
    requires forall p | p in parts :: sep !in p
    ensures Split(JoinWith(parts, sep), sep) == parts
  {
    if |parts| == 1 {
      SplitNoSep(parts[0], sep);
    } else {
      var tail := JoinWith(parts[1..], sep);
      SplitJoin(parts[1..], sep);
      SplitPrefix(parts[0], tail, sep);
      assert [parts[0]] + parts[1..] == parts;
    }
  }

  lemma {:induction false} SplitNoSep(s: string, sep: char)
    requires sep !in s
    ensures Split(s, sep) == [s]
  {
    if s != [] {
      SplitNoSep(s[1..], sep);
    }
  }

  /** Splitting `p + [sep] + t` for a separator-free `p` yields `p` followed by the pieces of `t`. */
  lemma {:induction false} SplitPrefix(p: string, t: string, sep: char)
    requires sep !in p
    ensures Split(p + [sep] + t, sep) == [p] + Split(t, sep)
  {
    var s := p + [sep] + t;
    if p == [] {
      assert s[0] == sep && s[1..] == t;
    } else {
      assert s[0] == p[0];
      assert s[1..] == p[1..] + [sep] + t;
      SplitPrefix(p[1..], t, sep);
      assert [p[0]] + p[1..] == p;
    }
  }

  predicate IsDigit(c: char) {
    '0' <= c <= '9'
  }

  predicate AllDigits(s: string) {
    forall i | 0 <= i < |s| :: IsDigit(s[i])
  }

  function DigitChar(d: nat): char
    requires d < 10
  {
    ('0' as int + d) as char
  }

  /** The value of a string of decimal digits. */
  function DigitsValue(s: string): nat
    requires AllDigits(s)
  {
    if s == [] then 0
    else DigitsValue(s[..|s| - 1]) * 10 + (s[|s| - 1] as int - '0' as int)
  }

  /** str(n) for a natural number: its decimal digits, no leading zero. */
  function Show(n: nat): (r: string)
    ensures |r| >= 1 && AllDigits(r)
    ensures DigitsValue(r) == n
    ensures |r| > 1 ==> r[0] != '0'
  {
    if n < 10 then
      assert DigitsValue([DigitChar(n)]) == DigitsValue([]) * 10 + n;
      [DigitChar(n)]
    else
      var r := Show(n / 10) + [DigitChar(n % 10)];
      assert r[..|r| - 1] == Show(n / 10);
      r
  }

  /** str(i) for an integer. */
  function ShowInt(i: int): string {
    if i < 0 then "-" + Show(-i) else Show(i)
  }

  /** The body of a Python integer literal: digits, with single underscores
      allowed between digits. */
  predicate IsDigitGroup(s: string) {
    && s != []
    && IsDigit(s[0]) && IsDigit(s[|s| - 1])
    && (forall i | 0 <= i < |s| :: IsDigit(s[i]) || s[i] == '_')
    && (forall i | 0 <= i < |s| - 1 :: !(s[i] == '_' && s[i + 1] == '_'))
  }

  /** The digits of a digit group, underscores removed. */
  function DropUnderscores(s: string): (r: string)
    requires forall i | 0 <= i < |s| :: IsDigit(s[i]) || s[i] == '_'
    ensures AllDigits(r)
  {
    if s == [] then []
    else if s[0] == '_' then DropUnderscores(s[1..])
    else [s[0]] + DropUnderscores(s[1..])
  }

  lemma {:induction false} DropUnderscoresOfDigits(s: string)
    requires AllDigits(s)
    ensures DropUnderscores(s) == s
  {
    if s != [] {
      DropUnderscoresOfDigits(s[1..]);
    }
  }

  /** The text after an optional leading sign. */
  function Unsigned(t: string): string {
    if t != [] && (t[0] == '-' || t[0] == '+') then t[1..] else t
  }

  /** int(s) for a string: surrounding whitespace, an optional sign, then a
      digit group; anything else raises ValueError. */
  function ParseInt(s: string): (r: Result<int>)
    ensures r.Ok? <==> IsDigitGroup(Unsigned(StripSpace(s)))
    ensures r.Ok? ==> var t := StripSpace(s);
      r.value == (if t[0] == '-' then -1 else 1) * DigitsValue(DropUnderscores(Unsigned(t)))
    ensures r.Err? ==> r.error.ValueError?
  {
    ParseStripped(StripSpace(s))
  }

  /** int() once the surrounding whitespace is gone. */
  function ParseStripped(t: string): (r: Result<int>)
    ensures r.Ok? <==> IsDigitGroup(Unsigned(t))
    ensures r.Err? ==> r.error.ValueError?
    ensures t == [] ==> r.Err?
  {
    if t == [] then Err(ValueError("invalid literal for int()"))
    else
      var body := Unsigned(t);
      if IsDigitGroup(body) then
        var n: int := DigitsValue(DropUnderscores(body));
        Ok(if t[0] == '-' then -n else n)
      else Err(ValueError("invalid literal for int()"))
  }

  /** int(str(i)) == i. */
  lemma {:induction false} ParseShowInt(i: int)
    ensures ParseInt(ShowInt(i)) == Ok(i)
  {
    var s := ShowInt(i);
    var digits := Show(if i < 0 then -i else i);
    DigitsAreGroup(digits);
    ShowIntStripped(i);
    if i < 0 {
      assert s[0] == '-' && s[1..] == digits;
    } else {
      assert s == digits && s[0] != '-' && s[0] != '+';
    }
  }

  /** str(i) carries no surrounding whitespace. */
  lemma ShowIntStripped(i: int)
    ensures StripSpace(ShowInt(i)) == ShowInt(i)
  {
    var s := ShowInt(i);
    var digits := Show(if i < 0 then -i else i);
    assert s[|s| - 1] == digits[|digits| - 1] && IsDigit(s[|s| - 1]);
    assert s[0] == '-' || IsDigit(s[0]);
    StripFixed(s, Whitespace);
  }

  /** A non-empty run of digits is a digit group worth its digits. */
  lemma DigitsAreGroup(digits: string)
    requires |digits| >= 1 && AllDigits(digits)
    ensures IsDigitGroup(digits)
    ensures DigitsValue(DropUnderscores(digits)) == DigitsValue(digits)
  {
    DropUnderscoresOfDigits(digits);
  }

  /** s.strip() is idempotent. */
  lemma {:induction false} StripSpaceIdempotent(s: string)
    ensures StripSpace(StripSpace(s)) == StripSpace(s)
  {
    StripResult(s, Whitespace);
    StripFixed(StripSpace(s), Whitespace);
  }

  /** int() strips its argument itself, so stripping first changes nothing. */
  lemma ParseIntOfStripped(s: string)
    ensures ParseInt(StripSpace(s)) == ParseInt(s)
    ensures StripSpace(s) == [] ==> ParseInt(s).Err?
  {
    StripSpaceIdempotent(s);
  }

  /** Extra trailing separators do not change s.rstrip(c). */
  lemma RStripTrailing(s: string, c: char)
    ensures RStrip(s + [c], {c}) == RStrip(s, {c})
  {
    assert (s + [c])[..|s|] == s;
  }

  /** str(v) for a decoded JSON value, as an f-string prints it. A
      timestamp never comes out of a JSON reply; it prints as its number. */
  function Str(v: Value): string {
    match v
    case Null => "None"
    case Bool(b) => if b then "True" else "False"
    case Int(i) => ShowInt(i)
    case Text(s) => s
    case Stamp(ms) => ShowInt(ms)
  }

  /** int(v) for a decoded JSON value. */
  function IntOf(v: Value): (r: Result<int>)
    ensures v.Int? ==> r == Ok(v.i)
    ensures v.Text? ==> r == ParseInt(v.s)
    ensures v.Null? || v.Stamp? ==> r.Err? && r.error.TypeError?
  {
    match v
    case Int(i) => Ok(i)
    case Bool(b) => Ok(if b then 1 else 0)
    case Text(s) => ParseInt(s)
    case _ => Err(TypeError("int() argument must be a string or a number"))
  }
}
