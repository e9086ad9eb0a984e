/** The JavaScript string operations the application relies on, written out over
    `seq<char>`: `indexOf`/`includes`, `split`/`join`, number-to-string conversion,
    `padStart(2, "0")`, the two regular-expression rewrites applied to provider URLs
    and file names, and the `a || b || c` fallback chains over strings. */
module Text {
  import opened Wrappers

  // ---------------------------------------------------------------------------
  // Searching and splitting

  /** `pat` occurs in `s` at index `i`. */
  predicate OccursAt(s: string, pat: string, i: int) {
    0 <= i && i + |pat| <= |s| && s[i..i + |pat|] == pat
  }

  /** `s.indexOf(pat, from)`: the first occurrence at or after `from`. */
  function IndexFrom(s: string, pat: string, from: nat): (r: Option<nat>)
    decreases |s| - from
    ensures r.Some? ==> from <= r.value && OccursAt(s, pat, r.value)
    ensures r.Some? ==> forall j :: from <= j < r.value ==> !OccursAt(s, pat, j)
    ensures r.None? ==> forall j :: from <= j ==> !OccursAt(s, pat, j)
  {
    if from + |pat| > |s| then None
    else if s[from..from + |pat|] == pat then Some(from)
    else IndexFrom(s, pat, from + 1)
  }

  function IndexOf(s: string, pat: string): Option<nat> {
    IndexFrom(s, pat, 0)
  }

  /** `s.includes(pat)` */
  predicate Contains(s: string, pat: string) {
    IndexOf(s, pat).Some?
  }

  /** `s.split(sep)` for a non-empty separator: the pieces between successive
      occurrences, searching again after the end of each occurrence. */
  function Split(s: string, sep: string): (parts: seq<string>)
    requires sep != []
    decreases |s|
    ensures |parts| >= 1
  {
    match IndexOf(s, sep)
    case None => [s]
    case Some(i) => [s[..i]] + Split(s[i + |sep|..], sep)
  }

  /** The text is cut into more than one piece exactly when it contains the separator. */
  lemma SplitCount(s: string, sep: string)
    requires sep != []
    ensures |Split(s, sep)| == 1 <==> !Contains(s, sep)
  {
    match IndexOf(s, sep)
    case None =>
    case Some(i) =>
      assert Split(s, sep) == [s[..i]] + Split(s[i + |sep|..], sep);
  }

  /** `parts.join(sep)` */
  function Join(parts: seq<string>, sep: string): string {
    if |parts| == 0 then ""
    else if |parts| == 1 then parts[0]
    else parts[0] + sep + Join(parts[1..], sep)
  }

  /** Splitting and joining again gives back the original text. */
  lemma {:induction false} JoinSplit(s: string, sep: string)
    requires sep != []
    decreases |s|
    ensures Join(Split(s, sep), sep) == s
  {
    var r := IndexOf(s, sep);
    if r.Some? {
      var i := r.value;
      var rest := s[i + |sep|..];
      assert OccursAt(s, sep, i);
      SplitUnfold(s, sep, i);
      JoinSplit(rest, sep);
      JoinCons(s[..i], Split(rest, sep), sep);
      Rejoin(s, i, i + |sep|);
    }
  }

  lemma Rejoin(s: string, i: nat, k: nat)
    requires i <= k <= |s|
    ensures s == s[..i] + s[i..k] + s[k..]
  {
  }

  lemma SplitUnfold(s: string, sep: string, i: nat)
    requires sep != [] && IndexOf(s, sep) == Some(i)
    ensures Split(s, sep) == [s[..i]] + Split(s[i + |sep|..], sep)
  {
    assert OccursAt(s, sep, i);
  }

  lemma JoinCons(x: string, tail: seq<string>, sep: string)
    requires |tail| >= 1
    ensures Join([x] + tail, sep) == x + sep + Join(tail, sep)
  {
    assert ([x] + tail)[1..] == tail;
  }

  /** The first occurrence of a one-character separator that `a` lacks is right after `a`. */
  lemma IndexOfAfter(a: string, c: char, b: string)
    requires c !in a
    ensures IndexOf(a + [c] + b, [c]) == Some(|a|)
  {
    var s := a + [c] + b;
    assert s[|a|..|a| + 1] == [c];
    assert OccursAt(s, [c], |a|);
    forall j | 0 <= j < |a|
      ensures !OccursAt(s, [c], j)
    {
      assert s[j..j + 1] == [a[j]];
    }
  }

  /** A text without the separator is not split. */
  lemma SplitAbsent(a: string, c: char)
    requires c !in a
    ensures Split(a, [c]) == [a]
  {
    forall j | 0 <= j < |a|
      ensures !OccursAt(a, [c], j)
    {
      assert a[j..j + 1] == [a[j]];
    }
  }

  /** Splitting `a c b` on `c`, when `a` lacks `c`, yields `a` followed by the pieces of `b`. */
  lemma SplitAfter(a: string, c: char, b: string)
    requires c !in a
    ensures Split(a + [c] + b, [c]) == [a] + Split(b, [c])
  {
    var s := a + [c] + b;
    IndexOfAfter(a, c, b);
    assert s[..|a|] == a;
    assert s[|a| + 1..] == b;
  }

  /** A text that contains `pat` still does after more text is appended. */
  lemma ContainsPrefix(a: string, b: string, pat: string)
    requires Contains(a, pat)
    ensures Contains(a + b, pat)
  {
    var k := IndexOf(a, pat).value;
    assert (a + b)[k..k + |pat|] == a[k..k + |pat|];
    assert OccursAt(a + b, pat, k);
  }

  /** The first occurrence of `sep` in `a sep b` is the one after `a` when no occurrence
      starts inside `a`, which is to say none lies within `a` and all but the last
      character of `sep`. */
  lemma IndexOfSeparator(a: string, sep: string, b: string)
    requires sep != [] && !Contains(a + sep[..|sep| - 1], sep)
    ensures IndexOf(a + sep + b, sep) == Some(|a|)
  {
    var s := a + sep + b;
    var front := a + sep[..|sep| - 1];
    assert s[|a|..|a| + |sep|] == sep;
    assert OccursAt(s, sep, |a|);
    assert front == s[..|front|];
    assert IndexOf(front, sep).None?;
    forall j | 0 <= j < |a|
      ensures !OccursAt(s, sep, j)
    {
      assert !OccursAt(front, sep, j);
      SliceOfPrefix(s, front, j, j + |sep|);
    }
  }

  /** A slice that lies within a prefix is a slice of that prefix. */
  lemma SliceOfPrefix(s: string, front: string, j: nat, k: nat)
    requires |front| <= |s| && front == s[..|front|] && j <= k <= |front|
    ensures s[j..k] == front[j..k]
  {
  }

  /** Splitting `a sep b` where `sep` occurs only between `a` and `b` gives `a` and `b`. */
  lemma SplitOnce(a: string, sep: string, b: string)
    requires sep != [] && !Contains(a + sep[..|sep| - 1], sep) && !Contains(b, sep)
    ensures Split(a + sep + b, sep) == [a, b]
  {
    var s := a + sep + b;
    IndexOfSeparator(a, sep, b);
    assert s[..|a|] == a;
    assert s[|a| + |sep|..] == b;
  }

  // ---------------------------------------------------------------------------
  // Decimal numerals

  predicate IsDigit(c: char) {
    '0' <= c <= '9'
  }

  predicate AllDigits(s: string) {
    forall i :: 0 <= i < |s| ==> IsDigit(s[i])
  }

  /** A non-empty run of decimal digits. */
  predicate IsNumeral(s: string) {
    |s| > 0 && AllDigits(s)
  }

  function DigitChar(d: nat): (c: char)
    requires d < 10
    ensures IsDigit(c)
  {
    (d + '0' as int) as char
  }

  function DigitValue(c: char): (d: nat)
    requires IsDigit(c)
    ensures d < 10
  {
    c as int - '0' as int
  }

  /** `n.toString()` for a non-negative integer. */
  function NatToString(n: nat): (r: string)
    ensures IsNumeral(r)
    ensures |r| == 1 <==> n < 10
    ensures n < 100 ==> |r| <= 2
  {
    if n < 10 then [DigitChar(n)] else NatToString(n / 10) + [DigitChar(n % 10)]
  }

  /** `i.toString()` for any integer. */
  function IntToString(i: int): string {
    if i < 0 then "-" + NatToString(-i) else NatToString(i)
  }

  /** The value of a run of decimal digits (`""` reads as 0). */
  function ParseNat(s: string): nat
    requires AllDigits(s)
  {
    if s == [] then 0 else ParseNat(s[..|s| - 1]) * 10 + DigitValue(s[|s| - 1])
  }

  /** Reading back a number printed in decimal gives the number. */
  lemma {:induction false} ParseNatToString(n: nat)
    ensures ParseNat(NatToString(n)) == n
  {
    if n >= 10 {
      ParseNatToString(n / 10);
      var s := NatToString(n);
      assert s[..|s| - 1] == NatToString(n / 10);
    }
  }

  /** `s.padStart(2, "0")` */
  function PadStart2(s: string): string {
    if |s| >= 2 then s else if |s| == 1 then "0" + s else "00"
  }

  // ---------------------------------------------------------------------------
  // The two regular-expression rewrites

  /** Number of leading characters of `s` that are decimal digits. */
  function DigitRun(s: string): (n: nat)
    ensures n <= |s|
    ensures forall i :: 0 <= i < n ==> IsDigit(s[i])
    ensures n < |s| ==> !IsDigit(s[n])
  {
    if s == [] || !IsDigit(s[0]) then 0 else 1 + DigitRun(s[1..])
  }

  lemma {:induction false} DigitRunOf(d: string, t: string)
    requires AllDigits(d)
    requires t == [] || !IsDigit(t[0])
    ensures DigitRun(d + t) == |d|
  {
    if d != [] {
      assert (d + t)[1..] == d[1..] + t;
      DigitRunOf(d[1..], t);
    }
  }

  /** `v`, one or more digits, `/`: the version segment of a provider asset path. */
  predicate IsVersionSegment(p: string) {
    |p| >= 3 && p[0] == 'v' && p[|p| - 1] == '/' && forall i :: 1 <= i < |p| - 1 ==> IsDigit(p[i])
  }

  /** `s.replace(/^v\d+\//, '')`: drops one leading version segment, if any. */
  function StripVersionPrefix(s: string): (r: string)
    ensures r == s || (|r| < |s| && IsVersionSegment(s[..|s| - |r|]) && s[|s| - |r|..] == r)
  {
    if |s| > 0 && s[0] == 'v' then
      var n := DigitRun(s[1..]);
      if n > 0 && n + 1 < |s| && s[n + 1] == '/' then s[n + 2..] else s
    else s
  }

  /** A version segment in front of the text is always removed, and only it. */
  lemma StripVersionOf(digits: string, rest: string)
    requires IsNumeral(digits)
    ensures StripVersionPrefix("v" + digits + "/" + rest) == rest
  {
    var s := "v" + digits + "/" + rest;
    assert s[1..] == digits + ("/" + rest);
    DigitRunOf(digits, "/" + rest);
    assert s[|digits| + 2..] == rest;
  }

  /** Length of the longest suffix of `s` holding neither `/` nor `.`. */
  function PlainSuffix(s: string): (n: nat)
    ensures n <= |s|
    ensures forall i :: |s| - n <= i < |s| ==> s[i] != '/' && s[i] != '.'
    ensures n < |s| ==> s[|s| - n - 1] == '/' || s[|s| - n - 1] == '.'
  {
    if s == [] || s[|s| - 1] == '/' || s[|s| - 1] == '.' then 0
    else 1 + PlainSuffix(s[..|s| - 1])
  }

  /** Neither `/` nor `.` anywhere in `s`. */
  predicate IsPlain(s: string) {
    forall i :: 0 <= i < |s| ==> s[i] != '/' && s[i] != '.'
  }

  lemma {:induction false} PlainSuffixOf(p: string, t: string)
    requires p == [] || p[|p| - 1] == '/' || p[|p| - 1] == '.'
    requires IsPlain(t)
    ensures PlainSuffix(p + t) == |t|
  {
    if t != [] {
      assert (p + t)[..|p + t| - 1] == p + t[..|t| - 1];
      PlainSuffixOf(p, t[..|t| - 1]);
    } else {
      assert p + t == p;
    }
  }

  /** A dot followed by one or more characters other than `/` and `.`: a file extension. */
  predicate IsExtension(e: string) {
    |e| >= 2 && e[0] == '.' && IsPlain(e[1..])
  }

  /** `s.replace(/\.[^/.]+$/, '')`: drops the final extension, if the text ends with one. */
  function StripExtension(s: string): (r: string)
    ensures r == s || (|r| < |s| && s[..|r|] == r && IsExtension(s[|r|..]))
  {
    var n := PlainSuffix(s);
    if 0 < n < |s| && s[|s| - n - 1] == '.' then s[..|s| - n - 1] else s
  }

  /** A text left unchanged ends with no extension at all. */
  lemma StripExtensionOnlyIfExtension(s: string, k: nat)
    requires StripExtension(s) == s
    requires k < |s|
    ensures !IsExtension(s[k..])
  {
    var n := PlainSuffix(s);
    var e := s[k..];
    if k < |s| - n - 1 {
      assert e[1..][|s| - n - 2 - k] == s[|s| - n - 1];
    } else if k > |s| - n - 1 {
      assert s[k] == e[0];
    } else if |e| >= 2 {
      assert e[1..][|e| - 2] == s[|s| - 1];
    }
  }

  /** An extension after a stem is always removed, and only it. */
  lemma StripExtensionOf(stem: string, ext: string)
    requires ext != [] && IsPlain(ext)
    ensures StripExtension(stem + "." + ext) == stem
  {
    PlainSuffixOf(stem + ".", ext);
    assert stem + "." + ext == (stem + ".") + ext;
  }

  // ---------------------------------------------------------------------------
  // Fallback chains

  /** Index of the first non-empty candidate (`|c|` when all are empty). */
  function FirstPresentIndex(c: seq<string>): (k: nat)
    ensures k <= |c|
    ensures forall j :: 0 <= j < k ==> c[j] == ""
    ensures k < |c| ==> c[k] != ""
  {
    if c == [] || c[0] != "" then 0 else 1 + FirstPresentIndex(c[1..])
  }

  /** `c0 || c1 || ...` over strings, where `""` and a missing value are both falsy. */
  function FirstPresent(c: seq<string>): Option<string> {
    var k := FirstPresentIndex(c);
    if k < |c| then Some(c[k]) else None
  }
}
