/**
  The parts of Python's `str` that the modelled code relies on, over
  `string` (= `seq<char>`): `in`, `find`, `split`, `join`, `strip`,
  `rstrip`, `lower`, `replace`, slicing and `str(int)`.
*/
module Strings {
  import opened Wrappers

  function Min(a: int, b: int): int { if a <= b then a else b }

  /** Python slicing `xs[:n]` for a non-negative `n`. */
  function Take<T>(xs: seq<T>, n: nat): seq<T> {
    xs[..Min(n, |xs|)]
  }

  /** `s.startswith(p)` */
  predicate StartsWith(s: string, p: string) {
    p <= s
  }

  /** `s.endswith(p)` */
  predicate EndsWith(s: string, p: string) {
    |p| <= |s| && s[|s| - |p|..] == p
  }

  // ---------------------------------------------------------------------
  // Substrings: `sub in s` and `s.find(sub)`
  // ---------------------------------------------------------------------

  predicate OccursAt(s: string, sub: string, i: int) {
    0 <= i && i + |sub| <= |s| && s[i..i + |sub|] == sub
  }

  /** `sub in s` */
  predicate Contains(s: string, sub: string) {
    exists i :: 0 <= i <= |s| - |sub| && OccursAt(s, sub, i)
  }

  /** The first index at or after `from` where `sub` occurs (`s.find(sub, from)`). */
  function FindFrom(s: string, sub: string, from: nat): (r: Option<nat>)
    requires from <= |s|
    ensures r.Some? ==> from <= r.value && OccursAt(s, sub, r.value)
    ensures r.Some? ==> forall j :: from <= j < r.value ==> !OccursAt(s, sub, j)
    ensures r.None? ==> forall j :: from <= j ==> !OccursAt(s, sub, j)
    decreases |s| - from
  {
    if from + |sub| > |s| then None
    else if s[from..from + |sub|] == sub then Some(from)
    else if from == |s| then None
    else FindFrom(s, sub, from + 1)
  }

  /** `s.find(sub)`, with `None` for Python's -1. */
  function Find(s: string, sub: string): (r: Option<nat>)
    ensures r.Some? <==> Contains(s, sub)
    ensures r.Some? ==> OccursAt(s, sub, r.value) && forall j :: 0 <= j < r.value ==> !OccursAt(s, sub, j)
  {
    var r := FindFrom(s, sub, 0);
    assert r.Some? ==> OccursAt(s, sub, r.value);
    r
  }

  lemma ContainsPrefix(s: string, sub: string)
    requires sub <= s
    ensures Contains(s, sub)
  {
    assert OccursAt(s, sub, 0);
  }

  lemma ContainsConcatLeft(a: string, b: string, sub: string)
    requires Contains(a, sub)
    ensures Contains(a + b, sub)
  {
    var i :| 0 <= i <= |a| - |sub| && OccursAt(a, sub, i);
    assert (a + b)[i..i + |sub|] == a[i..i + |sub|];
    assert OccursAt(a + b, sub, i);
  }

  lemma ContainsConcatRight(a: string, b: string, sub: string)
    requires Contains(b, sub)
    ensures Contains(a + b, sub)
  {
    var i :| 0 <= i <= |b| - |sub| && OccursAt(b, sub, i);
    assert (a + b)[|a| + i..|a| + i + |sub|] == b[i..i + |sub|];
    assert OccursAt(a + b, sub, |a| + i);
  }

  /** A text occurs in any text built around it. */
  lemma ContainsMiddle(a: string, w: string, z: string)
    ensures Contains(a + (w + z), w)
  {
    ContainsPrefix(w + z, w);
    ContainsConcatRight(a, w + z, w);
  }

  lemma EndsWithAppend(a: string, b: string)
    ensures EndsWith(a + b, b)
  {
    assert (a + b)[|a + b| - |b|..] == b;
  }

  lemma AppendAssoc<T>(a: seq<T>, b: seq<T>, c: seq<T>)
    ensures (a + b) + c == a + (b + c)
  {
  }

  /** Being a prefix is transitive. */
  lemma PrefixTrans(a: string, b: string, c: string)
    requires StartsWith(b, a) && StartsWith(c, b)
    ensures StartsWith(c, a)
  {
    assert c[..|a|] == c[..|b|][..|a|];
  }

  /** A text whose last character differs from the last of `p` does not end with `p`. */
  lemma NotEndsWith(s: string, p: string)
    requires p != [] && s != [] && s[|s| - 1] != p[|p| - 1]
    ensures !EndsWith(s, p)
  {
    if |p| <= |s| {
      assert s[|s| - |p|..][|p| - 1] == s[|s| - 1];
    }
  }

  /** Cutting a text around an occurrence. */
  lemma OccursAtSplit(s: string, sub: string, i: int)
    requires OccursAt(s, sub, i)
    ensures s == s[..i] + (sub + s[i + |sub|..])
  {
    assert s == s[..i] + s[i..i + |sub|] + s[i + |sub|..];
  }

  // ---------------------------------------------------------------------
  // Splitting on one character and joining
  // ---------------------------------------------------------------------

  function CountChar(s: string, c: char): nat {
    if s == [] then 0 else (if s[0] == c then 1 else 0) + CountChar(s[1..], c)
  }

  lemma {:induction false} CountCharAppend(a: string, b: string, c: char)
    ensures CountChar(a + b, c) == CountChar(a, c) + CountChar(b, c)
    decreases |a|
  {
    if a == [] {
      assert a + b == b;
    } else {
      assert (a + b)[0] == a[0];
      assert (a + b)[1..] == a[1..] + b;
      CountCharAppend(a[1..], b, c);
    }
  }

  lemma {:induction false} CountCharAbsent(s: string, c: char)
    requires c !in s
    ensures CountChar(s, c) == 0
    decreases |s|
  {
    if s != [] {
      assert s[0] != c;
      assert c !in s[1..];
      CountCharAbsent(s[1..], c);
    }
  }

  /** A suffix holds no more occurrences than the whole string. */
  lemma CountCharSuffix(s: string, k: nat, c: char)
    requires k <= |s|
    ensures CountChar(s[k..], c) <= CountChar(s, c)
  {
    assert s == s[..k] + s[k..];
    CountCharAppend(s[..k], s[k..], c);
  }

  /** `s.split(c)` for a one-character separator: never empty, `""` gives `[""]`. */
  function Split(s: string, c: char): (r: seq<string>)
    ensures |r| >= 1
    decreases |s|
  {
    if s == [] then [""]
    else
      var rest := Split(s[1..], c);
      if s[0] == c then [""] + rest else [[s[0]] + rest[0]] + rest[1..]
  }

  /** `sep.join(parts)` */
  function Join(parts: seq<string>, sep: string): string {
    if |parts| == 0 then ""
    else if |parts| == 1 then parts[0]
    else parts[0] + sep + Join(parts[1..], sep)
  }

  /** Splitting yields one piece more than there are separators. */
  lemma {:induction false} SplitCount(s: string, c: char)
    ensures |Split(s, c)| == CountChar(s, c) + 1
    decreases |s|
  {
    if s != [] {
      SplitCount(s[1..], c);
    }
  }

  /** No piece contains the separator. */
  lemma {:induction false} SplitPieces(s: string, c: char)
    ensures forall p :: p in Split(s, c) ==> c !in p
    decreases |s|
  {
    if s != [] {
      SplitPieces(s[1..], c);
      var rest := Split(s[1..], c);
      if s[0] != c {
        forall p | p in Split(s, c) ensures c !in p {
          if p != [s[0]] + rest[0] {
            assert p in rest[1..];
          }
        }
      }
    }
  }

  /** Joining the pieces with the separator gives back the string. */
  lemma {:induction false} JoinSplit(s: string, c: char)
    ensures Join(Split(s, c), [c]) == s
    decreases |s|
  {
    if s != [] {
      JoinSplit(s[1..], c);
      var rest := Split(s[1..], c);
      if s[0] == c {
        assert Split(s, c) == [""] + rest;
        assert ([""] + rest)[1..] == rest;
      } else if |rest| == 1 {
        assert Split(s, c) == [[s[0]] + rest[0]];
      } else {
        var parts := Split(s, c);
        assert parts[1..] == rest[1..];
        assert Join(rest, [c]) == rest[0] + [c] + Join(rest[1..], [c]);
      }
    }
  }

  /** Splitting text joined at a separator splits each side. */
  lemma {:induction false} SplitConcat(a: string, b: string, c: char)
    ensures Split(a + [c] + b, c) == Split(a, c) + Split(b, c)
    decreases |a|
  {
    var s := a + [c] + b;
    if a == [] {
      assert s == [c] + b;
      assert s[1..] == b;
    } else {
      assert s[0] == a[0];
      assert s[1..] == a[1..] + [c] + b;
      SplitConcat(a[1..], b, c);
      var left := Split(a[1..], c);
      var rest := Split(s[1..], c);
      assert rest == left + Split(b, c);
      if a[0] == c {
        assert Split(s, c) == [""] + rest;
        assert Split(a, c) == [""] + left;
        AppendAssoc([""], left, Split(b, c));
      } else {
        assert Split(s, c) == [[a[0]] + rest[0]] + rest[1..];
        assert Split(a, c) == [[a[0]] + left[0]] + left[1..];
        assert rest[0] == left[0];
        assert rest[1..] == left[1..] + Split(b, c);
        AppendAssoc([[a[0]] + left[0]], left[1..], Split(b, c));
      }
    }
  }

  /** Joining the first `k` pieces gives a prefix of joining them all. */
  lemma {:induction false} JoinTake(parts: seq<string>, k: nat, sep: string)
    ensures StartsWith(Join(parts, sep), Join(Take(parts, k), sep))
    decreases |parts|
  {
    if k == 0 {
    } else if |parts| <= k {
      assert Take(parts, k) == parts;
    } else {
      var t := Take(parts, k);
      assert t[0] == parts[0];
      if k >= 2 {
        assert t[1..] == Take(parts[1..], k - 1);
        JoinTake(parts[1..], k - 1, sep);
        AppendAssoc(parts[0], sep, Join(parts[1..], sep));
      }
    }
  }

  /** The index of the first `c` in `s`, or `|s|` (`s.find(c)` with `|s|` for -1). */
  function FirstIndex(s: string, c: char): (k: nat)
    ensures k <= |s|
    decreases |s|
  {
    if s == [] || s[0] == c then 0 else 1 + FirstIndex(s[1..], c)
  }

  lemma {:induction false} FirstIndexSpec(s: string, c: char)
    ensures c !in s[..FirstIndex(s, c)]
    ensures FirstIndex(s, c) < |s| ==> s[FirstIndex(s, c)] == c
    decreases |s|
  {
    if s != [] && s[0] != c {
      FirstIndexSpec(s[1..], c);
      assert s[..FirstIndex(s, c)] == [s[0]] + s[1..][..FirstIndex(s[1..], c)];
    }
  }

  lemma {:induction false} FirstIndexOf(a: string, b: string, c: char)
    requires c !in a
    ensures FirstIndex(a + [c] + b, c) == |a|
    decreases |a|
  {
    if a != [] {
      assert (a + [c] + b)[1..] == a[1..] + [c] + b;
      FirstIndexOf(a[1..], b, c);
    }
  }

  /** `s.split(c, 1)` when `c in s`: the text before the first `c` and after it. */
  function SplitOnce(s: string, c: char): Option<(string, string)> {
    var k := FirstIndex(s, c);
    if k == |s| then None else Some((s[..k], s[k + 1..]))
  }

  /** `None` exactly when there is no separator; otherwise the parts around the first one. */
  lemma SplitOnceSpec(s: string, c: char)
    ensures SplitOnce(s, c).None? <==> c !in s
    ensures SplitOnce(s, c).Some? ==>
      var (a, b) := SplitOnce(s, c).value; s == a + [c] + b && c !in a
  {
    FirstIndexSpec(s, c);
    var k := FirstIndex(s, c);
    if k == |s| {
      assert s[..k] == s;
    } else {
      assert s == s[..k] + [c] + s[k + 1..];
    }
  }

  /** The first separator splits a string in one way only. */
  lemma FirstSeparatorUnique(a: string, b: string, a': string, b': string, c: char)
    requires a + [c] + b == a' + [c] + b'
    requires c !in a && c !in a'
    ensures a == a' && b == b'
  {
    var s := a + [c] + b;
    FirstIndexOf(a, b, c);
    FirstIndexOf(a', b', c);
    assert a == s[..|a|] && a' == s[..|a'|];
    assert b == s[|a| + 1..] && b' == s[|a'| + 1..];
  }

  lemma SplitOnceOf(a: string, b: string, c: char)
    requires c !in a
    ensures SplitOnce(a + [c] + b, c) == Some((a, b))
  {
    var s := a + [c] + b;
    FirstIndexOf(a, b, c);
    assert s[..|a|] == a && s[|a| + 1..] == b;
  }

  /** Cutting at the first separator leaves one separator fewer. */
  lemma SplitOnceCount(t: string, c: char)
    requires SplitOnce(t, c).Some?
    ensures CountChar(t, c) == CountChar(SplitOnce(t, c).value.1, c) + 1
  {
    var (a, b) := SplitOnce(t, c).value;
    SplitOnceSpec(t, c);
    CountCharAppend(a + [c], b, c);
    CountCharAppend(a, [c], c);
    CountCharAbsent(a, c);
  }

  /** `s.split(c, maxsplit)` for a one-character separator: at most
      `maxsplit` cuts, at the first separators. */
  function SplitMax(s: string, c: char, maxsplit: nat): (r: seq<string>)
    ensures 1 <= |r| <= maxsplit + 1
  {
    if maxsplit == 0 then [s]
    else match SplitOnce(s, c)
      case None => [s]
      case Some((a, b)) => [a] + SplitMax(b, c, maxsplit - 1)
  }

  /** A character that occurs is counted. */
  lemma {:induction false} CountCharPresent(s: string, c: char)
    requires c in s
    ensures CountChar(s, c) >= 1
    decreases |s|
  {
    if s[0] != c {
      assert c in s[1..];
      CountCharPresent(s[1..], c);
    }
  }

  /** `[l for l in lines if w in l]` */
  function LinesWith(lines: seq<string>, w: string): (r: seq<string>)
    ensures |r| <= |lines|
  {
    if lines == [] then []
    else
      var last := lines[|lines| - 1];
      LinesWith(lines[..|lines| - 1], w) + (if Contains(last, w) then [last] else [])
  }

  /** The kept lines are exactly the lines that contain `w`. */
  lemma {:induction false} LinesWithMember(lines: seq<string>, w: string, l: string)
    ensures l in LinesWith(lines, w) <==> l in lines && Contains(l, w)
  {
    if lines != [] {
      var prefix := lines[..|lines| - 1];
      LinesWithMember(prefix, w, l);
      assert lines == prefix + [lines[|lines| - 1]];
    }
  }

  /** Filtering a concatenation filters each part, so the order is kept. */
  lemma {:induction false} LinesWithAppend(a: seq<string>, b: seq<string>, w: string)
    ensures LinesWith(a + b, w) == LinesWith(a, w) + LinesWith(b, w)
    decreases |b|
  {
    if b != [] {
      var b' := b[..|b| - 1];
      assert (a + b)[..|a + b| - 1] == a + b';
      assert (a + b)[|a + b| - 1] == b[|b| - 1];
      LinesWithAppend(a, b', w);
    } else {
      assert a + b == a;
    }
  }

  // ---------------------------------------------------------------------
  // Whitespace: `strip`, `rstrip`
  // ---------------------------------------------------------------------

  /** Python's `str.isspace()` on one character (all Unicode whitespace that Python strips). */
  predicate IsSpace(c: char) {
    c == ' ' || ('\t' <= c <= '\r') || ('\U{1C}' <= c <= '\U{1F}') || c == '\U{85}' || c == '\U{A0}'
    || c == '\U{1680}' || ('\U{2000}' <= c <= '\U{200A}') || c == '\U{2028}' || c == '\U{2029}'
    || c == '\U{202F}' || c == '\U{205F}' || c == '\U{3000}'
  }

  predicate AllSpace(s: string) {
    forall i :: 0 <= i < |s| ==> IsSpace(s[i])
  }

  /** The number of leading whitespace characters. */
  function LeadingSpaces(s: string): (k: nat)
    ensures k <= |s| && AllSpace(s[..k])
    ensures k == |s| || !IsSpace(s[k])
    decreases |s|
  {
    if s != [] && IsSpace(s[0]) then
      var r := LeadingSpaces(s[1..]);
      assert s[..1 + r] == [s[0]] + s[1..][..r];
      1 + r
    else 0
  }

  /** The index where the trailing whitespace starts. */
  function TrailingStart(s: string): (k: nat)
    ensures k <= |s| && AllSpace(s[k..])
    ensures k == 0 || !IsSpace(s[k - 1])
    decreases |s|
  {
    if s != [] && IsSpace(s[|s| - 1]) then
      var k := TrailingStart(s[..|s| - 1]);
      assert forall i :: k <= i < |s| - 1 ==> s[i] == s[..|s| - 1][i];
      k
    else |s|
  }

  /** `s.rstrip()` */
  function TrimEnd(s: string): string {
    s[..TrailingStart(s)]
  }

  /** `rstrip` keeps everything up to a non-whitespace character. */
  lemma TrimEndKeeps(a: string, rest: string)
    requires a != [] && !IsSpace(a[|a| - 1])
    ensures StartsWith(TrimEnd(a + rest), a)
    ensures var t := TrimEnd(a + rest); t != [] && !IsSpace(t[|t| - 1])
  {
    var s := a + rest;
    var k := TrailingStart(s);
    forall i | k <= i < |s| ensures IsSpace(s[i]) {
      assert s[i] == s[k..][i - k];
    }
    assert s[|a| - 1] == a[|a| - 1];
    assert k >= |a|;
    assert s[..k][..|a|] == a;
  }

  /** `s.strip()` */
  function Strip(s: string): string {
    var t := s[LeadingSpaces(s)..];
    t[..TrailingStart(t)]
  }

  /** What `strip` keeps: a slice of the input, made of everything between the
      whitespace at both ends, and neither starting nor ending in whitespace. */
  lemma StripShape(s: string)
    ensures var r := Strip(s);
      exists i, j :: 0 <= i <= j <= |s| && r == s[i..j] && AllSpace(s[..i]) && AllSpace(s[j..])
    ensures Strip(s) == [] || (!IsSpace(Strip(s)[0]) && !IsSpace(Strip(s)[|Strip(s)| - 1]))
  {
    var i := LeadingSpaces(s);
    var t := s[i..];
    var k := TrailingStart(t);
    assert Strip(s) == s[i..i + k];
    assert s[i + k..] == t[k..];
    if k > 0 {
      assert Strip(s)[0] == t[0];
      assert t[0] == s[i];
    }
  }

  /** A string strips to nothing exactly when it is all whitespace:
      Python's `if line.strip():` is a "not blank" test. */
  lemma StripEmpty(s: string)
    ensures Strip(s) == [] <==> AllSpace(s)
  {
    var i := LeadingSpaces(s);
    var t := s[i..];
    var k := TrailingStart(t);
    if AllSpace(s) {
      assert i == |s|;
    }
    if Strip(s) == [] {
      assert k == 0;
      assert t[k..] == t;
      assert i == |s|;
      forall j | 0 <= j < |s| ensures IsSpace(s[j]) {
        assert s[j] == s[..i][j];
      }
    }
  }

  lemma {:induction false} StripIdempotent(s: string)
    ensures Strip(Strip(s)) == Strip(s)
  {
    StripShape(s);
    var r := Strip(s);
    assert LeadingSpaces(r) == 0;
    assert TrailingStart(r) == |r|;
  }

  // ---------------------------------------------------------------------
  // Case: `lower`
  // ---------------------------------------------------------------------

  function LowerChar(c: char): char {
    if 'A' <= c <= 'Z' then (c as int + 32) as char else c
  }

  /** `s.lower()` on ASCII letters; every other character is kept. */
  function Lower(s: string): (r: string)
    ensures |r| == |s| && forall i :: 0 <= i < |s| ==> r[i] == LowerChar(s[i])
  {
    seq(|s|, i requires 0 <= i < |s| => LowerChar(s[i]))
  }

  predicate IsLowerCase(s: string) {
    forall i :: 0 <= i < |s| ==> !('A' <= s[i] <= 'Z')
  }

  lemma LowerSlice(s: string, i: nat, j: nat)
    requires i <= j <= |s|
    ensures Lower(s)[i..j] == Lower(s[i..j])
  {
  }

  lemma LowerOfLowerCase(s: string)
    requires IsLowerCase(s)
    ensures Lower(s) == s
  {
  }

  /** A lower-case text found in `s` is still found, at the same place, in `Lower(s)`. */
  lemma LowerKeepsOccurrence(s: string, w: string, i: int)
    requires IsLowerCase(w) && OccursAt(s, w, i)
    ensures OccursAt(Lower(s), w, i)
  {
    LowerSlice(s, i, i + |w|);
    LowerOfLowerCase(w);
  }

  lemma LowerIdempotent(s: string)
    ensures Lower(Lower(s)) == Lower(s)
  {
  }

  // ---------------------------------------------------------------------
  // `s.replace(pat, rep)`: every non-overlapping occurrence, left to right
  // ---------------------------------------------------------------------

  function ReplaceAll(s: string, pat: string, rep: string): string
    requires |pat| > 0
    decreases |s|
  {
    if |s| < |pat| then s
    else if s[..|pat|] == pat then rep + ReplaceAll(s[|pat|..], pat, rep)
    else [s[0]] + ReplaceAll(s[1..], pat, rep)
  }

  /** A string with no occurrence of the pattern is left as it is. */
  lemma {:induction false} ReplaceAbsent(s: string, pat: string, rep: string)
    requires |pat| > 0 && !Contains(s, pat)
    ensures ReplaceAll(s, pat, rep) == s
    decreases |s|
  {
    if |s| >= |pat| {
      assert !OccursAt(s, pat, 0);
      forall i | 0 <= i <= |s[1..]| - |pat| ensures !OccursAt(s[1..], pat, i) {
        assert s[1..][i..i + |pat|] == s[i + 1..i + 1 + |pat|];
        assert !OccursAt(s, pat, i + 1);
      }
      ReplaceAbsent(s[1..], pat, rep);
    }
  }

  /** With the pattern once, at the front, and nowhere in the rest, only that
      occurrence is replaced. */
  lemma ReplaceLeading(pat: string, rest: string, rep: string)
    requires |pat| > 0 && !Contains(rest, pat)
    ensures ReplaceAll(pat + rest, pat, rep) == rep + rest
  {
    assert (pat + rest)[..|pat|] == pat;
    assert (pat + rest)[|pat|..] == rest;
    ReplaceAbsent(rest, pat, rep);
  }

  // ---------------------------------------------------------------------
  // `str(n)` for integers
  // ---------------------------------------------------------------------

  function DigitChar(d: nat): char
    requires d < 10
  {
    ('0' as int + d) as char
  }

  predicate IsDigit(c: char) { '0' <= c <= '9' }

  function DigitValue(c: char): nat
    requires IsDigit(c)
  {
    c as int - '0' as int
  }

  /** The decimal spelling of a natural number. */
  function NatToString(n: nat): (r: string)
    ensures |r| >= 1 && forall i :: 0 <= i < |r| ==> IsDigit(r[i])
    ensures r[0] == '0' ==> n == 0
  {
    if n < 10 then [DigitChar(n)] else NatToString(n / 10) + [DigitChar(n % 10)]
  }

  /** Python's `str(i)` for an `int`. */
  function IntToString(i: int): string {
    if i < 0 then "-" + NatToString(-i) else NatToString(i)
  }

  /** The number a string of digits denotes. */
  function DecimalValue(s: string): nat
    requires forall i :: 0 <= i < |s| ==> IsDigit(s[i])
  {
    if s == [] then 0 else 10 * DecimalValue(s[..|s| - 1]) + DigitValue(s[|s| - 1])
  }

  /** Reading the decimal spelling back gives the number. */
  lemma {:induction false} NatToStringRoundTrip(n: nat)
    ensures DecimalValue(NatToString(n)) == n
  {
    var r := NatToString(n);
    if n >= 10 {
      NatToStringRoundTrip(n / 10);
      assert r == NatToString(n / 10) + [DigitChar(n % 10)];
      assert r[..|r| - 1] == NatToString(n / 10);
      assert DigitValue(r[|r| - 1]) == n % 10;
    }
  }
}
