/**
 * The parts of Python's `str` behaviour the worker relies on, restricted to
 * ASCII: whitespace and digit classes, `strip`, `lower`/`upper`, `in`,
 * `find`/`rfind`, `replace`, `split`, `join`, `str(int)`/`int(str)` and
 * code-point ordering of strings.
 */
module Strings {
  import opened Wrappers

  // ---------------------------------------------------------------------------
  // Character classes
  // ---------------------------------------------------------------------------

  /** ASCII characters for which `str.isspace` holds: TAB..CR, FS..US, SPACE. */
  predicate IsSpace(c: char) {
    var n := c as int;
    (9 <= n <= 13) || (28 <= n <= 32)
  }

  predicate IsDigit(c: char) { '0' <= c <= '9' }

  predicate IsUpperLetter(c: char) { 'A' <= c <= 'Z' }

  predicate IsLowerLetter(c: char) { 'a' <= c <= 'z' }

  predicate IsAlnum(c: char) { IsDigit(c) || IsUpperLetter(c) || IsLowerLetter(c) }

  function ToLowerChar(c: char): char {
    if IsUpperLetter(c) then (c as int + 32) as char else c
  }

  function ToUpperChar(c: char): char {
    if IsLowerLetter(c) then (c as int - 32) as char else c
  }

  function Lower(s: string): string {
    seq(|s|, i requires 0 <= i < |s| => ToLowerChar(s[i]))
  }

  function Upper(s: string): string {
    seq(|s|, i requires 0 <= i < |s| => ToUpperChar(s[i]))
  }

  predicate AllSpace(s: string) {
    forall i :: 0 <= i < |s| ==> IsSpace(s[i])
  }

  predicate AllDigits(s: string) {
    forall i :: 0 <= i < |s| ==> IsDigit(s[i])
  }

  // ---------------------------------------------------------------------------
  // strip
  // ---------------------------------------------------------------------------

  /** Neither end of `s` is whitespace: what `strip()` leaves behind. */
  predicate IsStripped(s: string) {
    |s| == 0 || (!IsSpace(s[0]) && !IsSpace(s[|s| - 1]))
  }

  /** `str.lstrip()`: drops the longest all-whitespace prefix. */
  function StripLeft(s: string): (r: string)
    ensures |r| <= |s| && r == s[|s| - |r|..]
    ensures AllSpace(s[..|s| - |r|])
    ensures |r| == 0 || !IsSpace(r[0])
    decreases |s|
  {
    if |s| > 0 && IsSpace(s[0]) then
      var r := StripLeft(s[1..]);
      assert s[..|s| - |r|] == [s[0]] + s[1..][..|s| - 1 - |r|];
      r
    else s
  }

  /** `str.rstrip()`: drops the longest all-whitespace suffix. */
  function StripRight(s: string): (r: string)
    ensures |r| <= |s| && r == s[..|r|]
    ensures AllSpace(s[|r|..])
    ensures |r| == 0 || !IsSpace(r[|r| - 1])
    decreases |s|
  {
    if |s| > 0 && IsSpace(s[|s| - 1]) then
      var r := StripRight(s[..|s| - 1]);
      assert s[|r|..] == s[..|s| - 1][|r|..] + [s[|s| - 1]];
      r
    else s
  }

  /** `str.strip()`. */
  function Strip(s: string): (r: string)
    ensures IsStripped(r)
    ensures |r| <= |s|
    ensures r == "" <==> AllSpace(s)
    ensures IsStripped(s) ==> r == s
  {
    var l := StripLeft(s);
    var r := StripRight(l);
    StripEnds(l, r);
    StripEmpty(s, l, r);
    StripOfStripped(s);
    r
  }

  lemma StripEnds(l: string, r: string)
    requires |l| == 0 || !IsSpace(l[0])
    requires r == StripRight(l)
    ensures IsStripped(r)
  {
    if |r| > 0 {
      assert r[0] == l[0];
    }
  }

  /** What `StripLeft` and then `StripRight` promise about `l` and `r`. */
  predicate StrippedFrom(s: string, l: string, r: string) {
    && |l| <= |s| && l == s[|s| - |l|..] && AllSpace(s[..|s| - |l|]) && (|l| == 0 || !IsSpace(l[0]))
    && |r| <= |l| && r == l[..|r|] && AllSpace(l[|r|..])
  }

  lemma StripEmpty(s: string, l: string, r: string)
    requires StrippedFrom(s, l, r)
    ensures r == "" <==> AllSpace(s)
  {
    var k := |s| - |l|;
    assert |l| > 0 ==> l[0] == s[k];
    if r == "" {
      assert l[|r|..] == l;
      assert s == s[..k] + l;
    }
  }

  lemma StripOfStripped(s: string)
    ensures IsStripped(s) ==> StripRight(StripLeft(s)) == s
  {
    if IsStripped(s) && |s| > 0 {
      assert StripLeft(s) == s;
    }
  }

  /** Every character `strip` keeps comes from its input. */
  lemma StripKeepsChars(s: string)
    ensures forall i :: 0 <= i < |Strip(s)| ==> Strip(s)[i] in s
  {
    var l := StripLeft(s);
    var r := StripRight(l);
    var k := |s| - |l|;
    forall i | 0 <= i < |r|
      ensures r[i] in s
    {
      assert r[i] == l[i] == s[k + i];
    }
  }

  /** `lstrip` removes exactly a whitespace prefix in front of a non-whitespace character. */
  lemma {:induction false} StripLeftOf(pre: string, rest: string)
    requires AllSpace(pre) && (|rest| == 0 || !IsSpace(rest[0]))
    ensures StripLeft(pre + rest) == rest
    decreases |pre|
  {
    if |pre| > 0 {
      assert (pre + rest)[1..] == pre[1..] + rest;
      StripLeftOf(pre[1..], rest);
    } else {
      assert pre + rest == rest;
    }
  }

  /** `rstrip` removes exactly a whitespace suffix after a non-whitespace character. */
  lemma {:induction false} StripRightOf(rest: string, post: string)
    requires AllSpace(post) && (|rest| == 0 || !IsSpace(rest[|rest| - 1]))
    ensures StripRight(rest + post) == rest
    decreases |post|
  {
    if |post| > 0 {
      assert (rest + post)[..|rest + post| - 1] == rest + post[..|post| - 1];
      StripRightOf(rest, post[..|post| - 1]);
    } else {
      assert rest + post == rest;
    }
  }

  /** `strip` removes exactly the surrounding whitespace of a stripped core. */
  lemma StripAround(pre: string, core: string, post: string)
    requires AllSpace(pre) && AllSpace(post) && IsStripped(core)
    ensures Strip(pre + core + post) == core
  {
    if core == "" {
      assert AllSpace(pre + core + post);
    } else {
      assert pre + core + post == pre + (core + post);
      StripLeftOf(pre, core + post);
      StripRightOf(core, post);
    }
  }

  /** `s.strip() == ""`, which by the contract of `Strip` holds exactly for all-whitespace strings. */
  predicate IsBlank(s: string) { AllSpace(s) }

  // ---------------------------------------------------------------------------
  // Substring search
  // ---------------------------------------------------------------------------

  predicate StartsWith(s: string, p: string) { |p| <= |s| && s[..|p|] == p }

  predicate EndsWith(s: string, p: string) { |p| <= |s| && s[|s| - |p|..] == p }

  predicate OccursAt(s: string, p: string, i: int) {
    0 <= i && i + |p| <= |s| && s[i..i + |p|] == p
  }

  /** The first occurrence of `p` in `s` at or after `k`. */
  function IndexFrom(s: string, p: string, k: nat): (r: Option<nat>)
    ensures r.Some? ==> k <= r.value && OccursAt(s, p, r.value)
    ensures r.Some? ==> forall j :: k <= j < r.value ==> !OccursAt(s, p, j)
    ensures r.None? ==> forall j :: k <= j ==> !OccursAt(s, p, j)
    decreases |s| - k
  {
    if k + |p| > |s| then None
    else if s[k..k + |p|] == p then Some(k)
    else IndexFrom(s, p, k + 1)
  }

  /** `s.find(p)`, with `None` for -1. */
  function IndexOf(s: string, p: string): (r: Option<nat>)
    ensures r.Some? ==> OccursAt(s, p, r.value)
    ensures r.Some? ==> forall j :: 0 <= j < r.value ==> !OccursAt(s, p, j)
    ensures r.None? ==> forall j :: 0 <= j ==> !OccursAt(s, p, j)
  {
    IndexFrom(s, p, 0)
  }

  /** Appending text keeps the first occurrence where it was. */
  lemma IndexOfExtend(s: string, p: string, t: string)
    requires IndexOf(s, p).Some?
    ensures IndexOf(s + t, p) == IndexOf(s, p)
  {
    var r := IndexOf(s, p).value;
    assert (s + t)[r..r + |p|] == s[r..r + |p|];
    forall j | 0 <= j < r
      ensures !OccursAt(s + t, p, j)
    {
      assert !OccursAt(s, p, j);
      assert (s + t)[j..j + |p|] == s[j..j + |p|];
    }
    assert OccursAt(s + t, p, r);
    var q := IndexOf(s + t, p);
    assert q.Some? && q.value <= r;
    assert q.value >= r;
  }

  /** A string containing `p` contains every suffix of `p`. */
  lemma ContainsSuffixOf(s: string, p: string, k: nat)
    requires IndexOf(s, p).Some? && k <= |p|
    ensures IndexOf(s, p[k..]).Some?
  {
    var r := IndexOf(s, p).value;
    assert s[r + k..r + |p|] == p[k..];
    assert OccursAt(s, p[k..], r + k);
  }

  /** `p in s`. */
  predicate Contains(s: string, p: string) { IndexOf(s, p).Some? }

  /** The last occurrence of `p` that starts below `k`. */
  function LastIndexBelow(s: string, p: string, k: nat): (r: Option<nat>)
    ensures r.Some? ==> r.value < k && OccursAt(s, p, r.value)
    ensures r.Some? ==> forall j :: r.value < j < k ==> !OccursAt(s, p, j)
    ensures r.None? ==> forall j :: 0 <= j < k ==> !OccursAt(s, p, j)
  {
    if k == 0 then None
    else if OccursAt(s, p, k - 1) then Some(k - 1)
    else LastIndexBelow(s, p, k - 1)
  }

  /** `s.rfind(p)`, with `None` for -1. */
  function LastIndexOf(s: string, p: string): (r: Option<nat>)
    ensures r.Some? ==> OccursAt(s, p, r.value)
    ensures r.Some? ==> forall j :: r.value < j ==> !OccursAt(s, p, j)
    ensures r.None? ==> forall j :: 0 <= j ==> !OccursAt(s, p, j)
  {
    LastIndexBelow(s, p, |s| + 1)
  }

  // ---------------------------------------------------------------------------
  // replace, split, join
  // ---------------------------------------------------------------------------

  /** `s.replace(sep, rep)`: left-to-right, non-overlapping. */
  function Replace(s: string, sep: string, rep: string): string
    requires |sep| > 0
    decreases |s|
  {
    if |s| < |sep| then s
    else if s[..|sep|] == sep then rep + Replace(s[|sep|..], sep, rep)
    else [s[0]] + Replace(s[1..], sep, rep)
  }

  /** Text without the separator is left as it is. */
  lemma {:induction false} ReplaceAbsent(s: string, sep: string, rep: string)
    requires |sep| > 0 && !Contains(s, sep)
    ensures Replace(s, sep, rep) == s
    decreases |s|
  {
    if |s| >= |sep| {
      assert !OccursAt(s, sep, 0);
      forall j | 0 <= j
        ensures !OccursAt(s[1..], sep, j)
      {
        assert !OccursAt(s, sep, j + 1);
        if j + |sep| <= |s| - 1 {
          assert s[1..][j..j + |sep|] == s[j + 1..j + 1 + |sep|];
        }
      }
      assert !Contains(s[1..], sep);
      ReplaceAbsent(s[1..], sep, rep);
      assert s == [s[0]] + s[1..];
    }
  }

  /** The first occurrence of the separator is replaced and the scan resumes after it. */
  lemma {:induction false} ReplaceAtFirst(a: string, sep: string, b: string, rep: string)
    requires |sep| > 0
    requires forall j :: 0 <= j < |a| ==> !OccursAt(a + sep, sep, j)
    ensures Replace(a + sep + b, sep, rep) == a + rep + Replace(b, sep, rep)
    decreases |a|
  {
    if |a| == 0 {
      ReplaceAtStart(sep, b, rep);
      assert a + sep + b == sep + b;
    } else {
      NoOccurrenceInTail(a, sep);
      ReplaceAtFirst(a[1..], sep, b, rep);
      assert !OccursAt(a + sep, sep, 0);
      ReplaceAfterChar(a, sep, b, rep);
    }
  }

  lemma ReplaceAtStart(sep: string, b: string, rep: string)
    requires |sep| > 0
    ensures Replace(sep + b, sep, rep) == rep + Replace(b, sep, rep)
  {
    var s := sep + b;
    assert s[..|sep|] == sep;
    assert s[|sep|..] == b;
  }

  lemma ReplaceAfterChar(a: string, sep: string, b: string, rep: string)
    requires |a| > 0 && |sep| > 0 && !OccursAt(a + sep, sep, 0)
    requires Replace(a[1..] + sep + b, sep, rep) == a[1..] + rep + Replace(b, sep, rep)
    ensures Replace(a + sep + b, sep, rep) == a + rep + Replace(b, sep, rep)
  {
    var s := a + sep + b;
    assert s[..|sep|] == (a + sep)[..|sep|];
    assert s[1..] == a[1..] + sep + b;
    ReplaceSkipsChar(s, sep, rep);
    assert [s[0]] + (a[1..] + rep + Replace(b, sep, rep)) == a + rep + Replace(b, sep, rep);
  }

  lemma NoOccurrenceInTail(a: string, sep: string)
    requires |a| > 0
    requires forall j :: 0 <= j < |a| ==> !OccursAt(a + sep, sep, j)
    ensures forall j :: 0 <= j < |a| - 1 ==> !OccursAt(a[1..] + sep, sep, j)
  {
    forall j | 0 <= j < |a| - 1
      ensures !OccursAt(a[1..] + sep, sep, j)
    {
      assert !OccursAt(a + sep, sep, j + 1);
      assert (a[1..] + sep)[j..j + |sep|] == (a + sep)[j + 1..j + 1 + |sep|];
    }
  }

  lemma ReplaceSkipsChar(s: string, sep: string, rep: string)
    requires 0 < |sep| <= |s| && s[..|sep|] != sep
    ensures Replace(s, sep, rep) == [s[0]] + Replace(s[1..], sep, rep)
  {
  }

  /** `s.split(c)` for a one-character separator. */
  function Split(s: string, c: char): (parts: seq<string>)
    ensures |parts| > 0
    ensures forall k :: 0 <= k < |parts| ==> c !in parts[k]
    decreases |s|
  {
    var i := IndexOf(s, [c]);
    if i.None? then
      assert forall j :: 0 <= j < |s| ==> !OccursAt(s, [c], j);
      assert forall j :: 0 <= j < |s| ==> s[j] != c by {
        forall j | 0 <= j < |s| ensures s[j] != c {
          assert !OccursAt(s, [c], j);
          assert s[j..j + 1] == [s[j]];
        }
      }
      [s]
    else
      var head := s[..i.value];
      assert c !in head by {
        forall j | 0 <= j < |head| ensures head[j] != c {
          assert !OccursAt(s, [c], j);
          assert s[j..j + 1] == [s[j]];
        }
      }
      [head] + Split(s[i.value + 1..], c)
  }

  /** A string without the separator splits into itself alone. */
  lemma SplitWithoutSep(s: string, c: char)
    requires c !in s
    ensures Split(s, c) == [s]
  {
    forall j | 0 <= j < |s|
      ensures !OccursAt(s, [c], j)
    {
      assert s[j..j + 1] == [s[j]];
    }
    assert IndexOf(s, [c]).None?;
  }

  /** The first separator of `a + [c] + b` is the one after `a`. */
  lemma SplitAtFirst(a: string, c: char, b: string)
    requires c !in a
    ensures Split(a + [c] + b, c) == [a] + Split(b, c)
  {
    var s := a + [c] + b;
    assert s[|a|..|a| + 1] == [c];
    assert OccursAt(s, [c], |a|);
    forall j | 0 <= j < |a|
      ensures !OccursAt(s, [c], j)
    {
      assert s[j..j + 1] == [a[j]];
      assert a[j] != c;
    }
    var i := IndexOf(s, [c]);
    assert i.value == |a|;
    assert s[..|a|] == a;
    assert s[|a| + 1..] == b;
  }

  /** `sep.join(parts)`. */
  function Join(parts: seq<string>, sep: string): string {
    if |parts| == 0 then ""
    else if |parts| == 1 then parts[0]
    else parts[0] + sep + Join(parts[1..], sep)
  }

  /** Splitting on a character and joining back on it restores the string. */
  lemma {:induction false} JoinSplit(s: string, c: char)
    ensures Join(Split(s, c), [c]) == s
    decreases |s|
  {
    var i := IndexOf(s, [c]);
    if i.Some? {
      var rest := s[i.value + 1..];
      JoinSplit(rest, c);
      var tail := Split(rest, c);
      assert Split(s, c) == [s[..i.value]] + tail;
      assert s == s[..i.value] + [c] + rest by {
        assert s[i.value..i.value + 1] == [c];
      }
    }
  }

  /** Splitting undoes joining when no part contains the separator. */
  lemma {:induction false} SplitJoin(parts: seq<string>, c: char)
    requires |parts| > 0
    requires forall k :: 0 <= k < |parts| ==> c !in parts[k]
    ensures Split(Join(parts, [c]), c) == parts
    decreases |parts|
  {
    if |parts| == 1 {
      SplitWithoutSep(parts[0], c);
    } else {
      SplitJoin(parts[1..], c);
      SplitAtFirst(parts[0], c, Join(parts[1..], [c]));
      assert parts == [parts[0]] + parts[1..];
    }
  }

  /** Every part joined is stripped and non-empty, so the join is too. */
  lemma {:induction false} JoinOfStrippedParts(parts: seq<string>, sep: string)
    requires |parts| > 0
    requires forall k :: 0 <= k < |parts| ==> parts[k] != "" && IsStripped(parts[k])
    ensures Join(parts, sep) != "" && IsStripped(Join(parts, sep))
    ensures Join(parts, sep)[0] == parts[0][0]
    ensures var j := Join(parts, sep); j[|j| - 1] == parts[|parts| - 1][|parts[|parts| - 1]| - 1]
  {
    if |parts| > 1 {
      JoinOfStrippedParts(parts[1..], sep);
      var j := Join(parts[1..], sep);
      assert Join(parts, sep) == parts[0] + sep + j;
    }
  }

  // ---------------------------------------------------------------------------
  // Decimal integers
  // ---------------------------------------------------------------------------

  function DigitChar(d: nat): char
    requires d < 10
  {
    ('0' as int + d) as char
  }

  function DigitValue(c: char): nat
    requires IsDigit(c)
  {
    c as int - '0' as int
  }

  /** `str(n)` for a non-negative `n`. */
  function NatToString(n: nat): (r: string)
    ensures |r| > 0 && AllDigits(r)
  {
    if n < 10 then [DigitChar(n)] else NatToString(n / 10) + [DigitChar(n % 10)]
  }

  /** `str(i)`. */
  function IntToString(i: int): string {
    if i < 0 then "-" + NatToString(-i) else NatToString(i)
  }

  /** The value of a string of decimal digits (`int(ds)` for ASCII digits). */
  function DigitsValue(ds: string): nat
    requires AllDigits(ds)
  {
    if |ds| == 0 then 0 else DigitsValue(ds[..|ds| - 1]) * 10 + DigitValue(ds[|ds| - 1])
  }

  lemma {:induction false} DigitsValueOfNatToString(n: nat)
    ensures DigitsValue(NatToString(n)) == n
  {
    if n >= 10 {
      DigitsValueOfNatToString(n / 10);
      var r := NatToString(n);
      assert r[..|r| - 1] == NatToString(n / 10);
    }
  }

  /** The longest prefix of `s` made of digits. */
  function LeadingDigits(s: string): (r: string)
    ensures AllDigits(r) && StartsWith(s, r)
    ensures |r| < |s| ==> !IsDigit(s[|r|])
  {
    if |s| > 0 && IsDigit(s[0]) then [s[0]] + LeadingDigits(s[1..]) else ""
  }

  /** A run of digits followed by a non-digit (or nothing) is exactly the leading digits. */
  lemma {:induction false} LeadingDigitsOfDigitsThen(ds: string, rest: string)
    requires AllDigits(ds)
    requires |rest| == 0 || !IsDigit(rest[0])
    ensures LeadingDigits(ds + rest) == ds
    decreases |ds|
  {
    if |ds| > 0 {
      LeadingDigitsOfDigitsThen(ds[1..], rest);
      assert (ds + rest)[1..] == ds[1..] + rest;
    }
  }

  /** `int(t)` on an already-stripped string: one optional sign, then digits. */
  function ParseSigned(t: string): Option<int> {
    var negative := |t| > 0 && t[0] == '-';
    var body := if |t| > 0 && (t[0] == '-' || t[0] == '+') then t[1..] else t;
    if |body| > 0 && AllDigits(body) then
      var v: int := DigitsValue(body);
      Some(if negative then -v else v)
    else None
  }

  /**
   * Python's `int(s)` on a string: surrounding whitespace, one optional sign
   * and at least one ASCII digit; `None` where Python raises `ValueError`.
   */
  function ParseIntLiteral(s: string): Option<int> {
    ParseSigned(Strip(s))
  }

  lemma {:induction false} ParseSignedOfNatToString(n: nat)
    ensures ParseSigned(NatToString(n)) == Some(n)
    ensures ParseSigned("-" + NatToString(n)) == Some(-(n as int))
  {
    DigitsValueOfNatToString(n);
    var d := NatToString(n);
    assert IsDigit(d[0]);
    assert ("-" + d)[1..] == d;
  }

  /** `int(str(i)) == i`. */
  lemma {:induction false} ParseIntLiteralOfIntToString(i: int)
    ensures ParseIntLiteral(IntToString(i)) == Some(i)
  {
    var n: nat := if i < 0 then -i else i;
    ParseSignedOfNatToString(n);
    var d := NatToString(n);
    assert IsDigit(d[0]) && IsDigit(d[|d| - 1]);
    var s := IntToString(i);
    assert s == if i < 0 then "-" + d else d;
    assert s[|s| - 1] == d[|d| - 1];
    assert IsStripped(s);
  }

  // ---------------------------------------------------------------------------
  // Code-point order (Python's `<` on `str`)
  // ---------------------------------------------------------------------------

  predicate LexLess(a: string, b: string)
    decreases |a|
  {
    |b| > 0 && (|a| == 0 || a[0] < b[0] || (a[0] == b[0] && LexLess(a[1..], b[1..])))
  }

  predicate LexLe(a: string, b: string) { a == b || LexLess(a, b) }

  lemma {:induction false} LexLessIrreflexive(a: string)
    ensures !LexLess(a, a)
    decreases |a|
  {
    if |a| > 0 {
      LexLessIrreflexive(a[1..]);
    }
  }

  lemma {:induction false} LexLessAsymmetric(a: string, b: string)
    requires LexLess(a, b)
    ensures !LexLess(b, a)
    decreases |a|
  {
    if |a| > 0 && a[0] == b[0] {
      LexLessAsymmetric(a[1..], b[1..]);
    }
  }

  lemma {:induction false} LexLessTransitive(a: string, b: string, c: string)
    requires LexLess(a, b) && LexLess(b, c)
    ensures LexLess(a, c)
    decreases |a|
  {
    if |a| > 0 && a[0] == b[0] && b[0] == c[0] {
      LexLessTransitive(a[1..], b[1..], c[1..]);
    }
  }

  lemma {:induction false} LexTotal(a: string, b: string)
    ensures a == b || LexLess(a, b) || LexLess(b, a)
    decreases |a|
  {
    if |a| > 0 && |b| > 0 && a[0] == b[0] {
      LexTotal(a[1..], b[1..]);
      if a[1..] == b[1..] {
        assert a == [a[0]] + a[1..] && b == [b[0]] + b[1..];
      }
    }
  }

  /** The least element of a non-empty set of strings (`min(s)`). */
  ghost function SetMin(s: set<string>): (m: string)
    requires s != {}
    ensures m in s && forall y :: y in s ==> LexLe(m, y)
    decreases |s|
  {
    var x :| x in s;
    if s == {x} then x
    else
      var r := SetMin(s - {x});
      if LexLess(x, r) then
        assert forall y :: y in s - {x} ==> LexLess(x, y) by {
          forall y | y in s - {x} ensures LexLess(x, y) {
            if y != r { LexLessTransitive(x, r, y); }
          }
        }
        x
      else
        LexTotal(x, r);
        r
  }

  function Elems(xs: seq<string>): set<string> {
    set x | x in xs
  }

  /** Strictly increasing in code-point order: what `sorted(set)` returns. */
  predicate StrictlySorted(xs: seq<string>) {
    forall i, j :: 0 <= i < j < |xs| ==> LexLess(xs[i], xs[j])
  }

  predicate Distinct(xs: seq<string>) {
    forall i, j :: 0 <= i < j < |xs| ==> xs[i] != xs[j]
  }

  function InsertSorted(x: string, xs: seq<string>): (r: seq<string>)
    requires StrictlySorted(xs) && x !in xs
    ensures StrictlySorted(r) && Elems(r) == Elems(xs) + {x} && |r| == |xs| + 1
  {
    if |xs| == 0 then [x]
    else if LexLess(x, xs[0]) then
      assert forall j :: 0 <= j < |xs| ==> LexLess(x, xs[j]) by {
        forall j | 0 < j < |xs| ensures LexLess(x, xs[j]) {
          LexLessTransitive(x, xs[0], xs[j]);
        }
      }
      [x] + xs
    else
      LexTotal(x, xs[0]);
      var rest := InsertSorted(x, xs[1..]);
      assert Elems(rest) == Elems(xs[1..]) + {x};
      assert forall j :: 0 <= j < |rest| ==> LexLess(xs[0], rest[j]) by {
        forall j | 0 <= j < |rest| ensures LexLess(xs[0], rest[j]) {
          assert rest[j] in Elems(xs[1..]) + {x};
          if rest[j] != x {
            var k :| 0 <= k < |xs[1..]| && xs[1..][k] == rest[j];
            assert xs[k + 1] == rest[j];
          }
        }
      }
      assert xs == [xs[0]] + xs[1..];
      [xs[0]] + rest
  }

  /** `sorted(xs)` for a list without repeats. */
  function SortDistinct(xs: seq<string>): (r: seq<string>)
    requires Distinct(xs)
    ensures StrictlySorted(r) && Elems(r) == Elems(xs) && |r| == |xs|
  {
    if |xs| == 0 then []
    else
      var rest := SortDistinct(xs[..|xs| - 1]);
      var last := xs[|xs| - 1];
      assert last !in xs[..|xs| - 1];
      assert last !in Elems(rest);
      assert xs == xs[..|xs| - 1] + [last];
      InsertSorted(xs[|xs| - 1], rest)
  }
}
