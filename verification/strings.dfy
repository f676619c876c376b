/**
 * The Python string builtins the core relies on (`str.strip`, `str.find`,
 * `str.rfind`, `str.split` with an explicit separator, `str.upper`,
 * `str.startswith`, `str.endswith`, and integer formatting), over Dafny
 * strings of Unicode scalar values.
 */
module Strings {

  /** The characters for which Python's `str.isspace()` holds: what `strip()` removes. */
  predicate IsSpace(c: char) {
    || '\t' <= c <= '\r'
    || '\U{1C}' <= c <= ' '
    || c == '\U{85}' || c == '\U{A0}' || c == '\U{1680}'
    || '\U{2000}' <= c <= '\U{200A}'
    || c == '\U{2028}' || c == '\U{2029}' || c == '\U{202F}' || c == '\U{205F}' || c == '\U{3000}'
  }

  /** `s.lstrip()`: drops the leading whitespace. */
  function TrimStart(s: string): (r: string)
    ensures |r| <= |s|
    ensures r != [] ==> !IsSpace(r[0])
    ensures forall i :: 0 <= i < |s| - |r| ==> IsSpace(s[i])
  {
    if s != [] && IsSpace(s[0]) then TrimStart(s[1..]) else s
  }

  /** What `lstrip` keeps is the end of the string: only leading characters go. */
  lemma {:induction false} TrimStartIsSuffix(s: string)
    ensures TrimStart(s) == s[|s| - |TrimStart(s)|..]
  {
    if s != [] && IsSpace(s[0]) {
      TrimStartIsSuffix(s[1..]);
      assert s[1..][|s| - 1 - |TrimStart(s)|..] == s[|s| - |TrimStart(s)|..];
    }
  }

  /** `s.rstrip()`: drops the trailing whitespace. */
  function TrimEnd(s: string): (r: string)
    ensures |r| <= |s|
    ensures r != [] ==> !IsSpace(r[|r| - 1])
    ensures forall i :: |r| <= i < |s| ==> IsSpace(s[i])
  {
    if s != [] && IsSpace(s[|s| - 1]) then TrimEnd(s[..|s| - 1]) else s
  }

  /** What `rstrip` keeps is the start of the string: only trailing characters go. */
  lemma {:induction false} TrimEndIsPrefix(s: string)
    ensures TrimEnd(s) == s[..|TrimEnd(s)|]
  {
    if s != [] && IsSpace(s[|s| - 1]) {
      TrimEndIsPrefix(s[..|s| - 1]);
      assert s[..|s| - 1][..|TrimEnd(s)|] == s[..|TrimEnd(s)|];
    }
  }

  /** `r` is a contiguous piece of `s`. */
  ghost predicate IsSliceOf(r: string, s: string) {
    exists i, j :: 0 <= i <= j <= |s| && r == s[i..j]
  }

  /** No whitespace at either end. */
  predicate Trimmed(s: string) {
    s != [] ==> !IsSpace(s[0]) && !IsSpace(s[|s| - 1])
  }

  /** `s.strip()`: `s` without its leading and trailing whitespace. */
  function Strip(s: string): (r: string)
    ensures r != [] ==> !IsSpace(r[0]) && !IsSpace(r[|r| - 1])
  {
    var t := TrimStart(s);
    var r := TrimEnd(t);
    TrimEndIsPrefix(t);
    assert r != [] ==> r[0] == t[0];
    r
  }

  /**
   * `strip` removes whitespace only: what it keeps starts after a run of
   * whitespace and is followed by a run of whitespace.
   */
  lemma StripRemovesOnlySpace(s: string)
    ensures var r, a := Strip(s), |s| - |TrimStart(s)|;
      && a + |r| <= |s| && r == s[a..a + |r|]
      && (forall i :: 0 <= i < a ==> IsSpace(s[i]))
      && (forall i :: a + |r| <= i < |s| ==> IsSpace(s[i]))
  {
    var t := TrimStart(s);
    var r := TrimEnd(t);
    var a := |s| - |t|;
    assert r == Strip(s);
    TrimStartIsSuffix(s);
    TrimEndIsPrefix(t);
    PrefixOfSuffix(s, t, r, a);
    TrailingSpace(s, t, r, a);
  }

  lemma PrefixOfSuffix(s: string, t: string, r: string, a: nat)
    requires a + |t| == |s| && t == s[a..]
    requires |r| <= |t| && r == t[..|r|]
    ensures r == s[a..a + |r|]
  {
  }

  lemma TrailingSpace(s: string, t: string, r: string, a: nat)
    requires a + |t| == |s| && t == s[a..]
    requires |r| <= |t| && forall i :: |r| <= i < |t| ==> IsSpace(t[i])
    ensures forall i :: a + |r| <= i < |s| ==> IsSpace(s[i])
  {
    forall i | a + |r| <= i < |s|
      ensures IsSpace(s[i])
    {
      assert s[i] == t[i - a];
    }
  }

  /** What `strip` keeps is a piece of the original. */
  lemma StripIsSlice(s: string)
    ensures IsSliceOf(Strip(s), s)
  {
    var t := TrimStart(s);
    TrimStartIsSuffix(s);
    TrimEndIsPrefix(t);
    assert Strip(s) == s[|s| - |t|..|s| - |t| + |Strip(s)|];
  }

  predicate StartsWith(s: string, prefix: string) {
    |prefix| <= |s| && s[..|prefix|] == prefix
  }

  predicate EndsWith(s: string, suffix: string) {
    |suffix| <= |s| && s[|s| - |suffix|..] == suffix
  }

  lemma PrefixOfConcat(p: string, q: string)
    ensures StartsWith(p + q, p)
  {
    assert (p + q)[..|p|] == p;
  }

  /** `s.find(c)`: the index of the first `c`, or -1 when there is none. */
  function Find(s: string, c: char): (k: int)
    ensures -1 <= k < |s|
    ensures k == -1 <==> c !in s
    ensures 0 <= k ==> s[k] == c && c !in s[..k]
  {
    if s == [] then -1
    else if s[0] == c then 0
    else
      var k := Find(s[1..], c);
      assert s == [s[0]] + s[1..];
      if k == -1 then -1
      else
        assert s[..k + 1] == [s[0]] + s[1..][..k];
        k + 1
  }

  /** `s.rfind(c)`: the index of the last `c`, or -1 when there is none. */
  function RFind(s: string, c: char): (k: int)
    ensures -1 <= k < |s|
    ensures k == -1 <==> c !in s
    ensures 0 <= k ==> s[k] == c && c !in s[k + 1..]
  {
    if s == [] then -1
    else if s[|s| - 1] == c then |s| - 1
    else
      assert s == s[..|s| - 1] + [s[|s| - 1]];
      var k := RFind(s[..|s| - 1], c);
      if k == -1 then -1
      else
        assert s[k + 1..] == s[..|s| - 1][k + 1..] + [s[|s| - 1]];
        k
  }

  /** `sep.join(parts)` for a one-character separator. */
  function Join(parts: seq<string>, sep: char): string
    requires |parts| >= 1
  {
    if |parts| == 1 then parts[0] else parts[0] + [sep] + Join(parts[1..], sep)
  }

  /** `s.split(sep)`: the pieces between separators, none of which holds one. */
  function Split(s: string, sep: char): (parts: seq<string>)
    ensures |parts| >= 1
    ensures forall i :: 0 <= i < |parts| ==> sep !in parts[i]
    decreases |s|
  {
    var k := Find(s, sep);
    if k == -1 then [s]
    else
      var rest := Split(s[k + 1..], sep);
      assert forall i :: 1 <= i < |rest| + 1 ==> ([s[..k]] + rest)[i] == rest[i - 1];
      [s[..k]] + rest
  }

  /** Joining the pieces of a split with the separator gives the string back. */
  lemma {:induction false} JoinSplit(s: string, sep: char)
    ensures Join(Split(s, sep), sep) == s
    decreases |s|
  {
    var k := Find(s, sep);
    if k != -1 {
      var head, tail := s[..k], s[k + 1..];
      assert Split(s, sep) == [head] + Split(tail, sep);
      JoinSplit(tail, sep);
      JoinCons(head, Split(tail, sep), sep);
      assert s == head + [sep] + tail;
    }
  }

  lemma JoinCons(head: string, rest: seq<string>, sep: char)
    requires |rest| >= 1
    ensures Join([head] + rest, sep) == head + [sep] + Join(rest, sep)
  {
    assert ([head] + rest)[1..] == rest;
  }

  /** Splitting the join of separator-free pieces gives the pieces back. */
  lemma {:induction false} SplitJoin(parts: seq<string>, sep: char)
    requires |parts| >= 1
    requires forall i :: 0 <= i < |parts| ==> sep !in parts[i]
    ensures Split(Join(parts, sep), sep) == parts
  {
    if |parts| > 1 {
      var rest := parts[1..];
      assert forall i :: 0 <= i < |rest| ==> rest[i] == parts[i + 1];
      SplitJoin(rest, sep);
      SplitCons(parts[0], Join(rest, sep), sep);
      assert [parts[0]] + rest == parts;
    }
  }

  /** A separator-free piece followed by the separator splits off as the first piece. */
  lemma SplitCons(p: string, r: string, sep: char)
    requires sep !in p
    ensures Split(p + [sep] + r, sep) == [p] + Split(r, sep)
  {
    var s := p + [sep] + r;
    assert s[..|p|] == p && s[|p|] == sep && s[|p| + 1..] == r;
    FindIs(s, sep, |p|);
  }

  /** Upper case of one character: ASCII and Latin-1 letters (but for 'ß', which becomes two), and the dotless i. */
  function UpperChar(c: char): char {
    if 'a' <= c <= 'z' then (c as int - 32) as char
    else if '\U{E0}' <= c <= '\U{FE}' && c != '\U{F7}' then (c as int - 32) as char
    else if c == '\U{131}' then 'I'
    else if c == '\U{FF}' then '\U{178}'
    else if c == '\U{B5}' then '\U{39C}'
    else c
  }

  /** `s.upper()`, character by character. */
  function Upper(s: string): (r: string)
    ensures |r| == |s|
    ensures forall i :: 0 <= i < |s| ==> r[i] == UpperChar(s[i])
  {
    if s == [] then [] else [UpperChar(s[0])] + Upper(s[1..])
  }

  function DigitChar(d: nat): char
    requires d < 10
  {
    ('0' as int + d) as char
  }

  /** The number a string of decimal digits denotes, most significant digit first. */
  function DecimalValue(s: string): nat
    requires forall i :: 0 <= i < |s| ==> '0' <= s[i] <= '9'
  {
    if s == [] then 0 else DecimalValue(s[..|s| - 1]) * 10 + (s[|s| - 1] as int - '0' as int)
  }

  /** `str(n)` for a natural number: its decimal digits, with no leading zero. */
  function NatToString(n: nat): (s: string)
    ensures |s| >= 1
    ensures forall i :: 0 <= i < |s| ==> '0' <= s[i] <= '9'
    ensures DecimalValue(s) == n
    ensures s[0] == '0' ==> s == "0"
  {
    if n < 10 then [DigitChar(n)]
    else
      var p := NatToString(n / 10);
      var s := p + [DigitChar(n % 10)];
      assert s[..|s| - 1] == p;
      s
  }

  /** A string with no whitespace at either end is its own strip. */
  lemma StripUnchanged(s: string)
    requires Trimmed(s)
    ensures Strip(s) == s
  {
  }

  /** Stripping twice is stripping once. */
  lemma StripIdempotent(s: string)
    ensures Strip(Strip(s)) == Strip(s)
  {
    StripUnchanged(Strip(s));
  }

  lemma {:induction false} TrimStartConcat(p: string, q: string)
    ensures TrimStart(p + q) == if TrimStart(p) == [] then TrimStart(q) else TrimStart(p) + q
  {
    if p != [] {
      assert (p + q)[0] == p[0];
      if IsSpace(p[0]) {
        assert (p + q)[1..] == p[1..] + q;
        TrimStartConcat(p[1..], q);
      }
    } else {
      assert p + q == q;
    }
  }

  lemma {:induction false} TrimEndConcat(p: string, q: string)
    ensures TrimEnd(p + q) == if TrimEnd(q) == [] then TrimEnd(p) else p + TrimEnd(q)
  {
    if q != [] {
      assert (p + q)[|p + q| - 1] == q[|q| - 1];
      if IsSpace(q[|q| - 1]) {
        assert (p + q)[..|p + q| - 1] == p + q[..|q| - 1];
        TrimEndConcat(p, q[..|q| - 1]);
      }
    } else {
      assert p + q == p;
    }
  }

  /** Appending one whitespace character does not change the strip. */
  lemma StripTrailingSpace(p: string, c: char)
    requires IsSpace(c)
    ensures Strip(p + [c]) == Strip(p)
  {
    TrimStartConcat(p, [c]);
    var t := TrimStart(p);
    if t != [] {
      assert (t + [c])[..|t|] == t;
    }
  }

  lemma TrimStartBefore(a: string, m: string, b: string)
    requires m != [] && !IsSpace(m[0])
    ensures TrimStart(a + m + b) == TrimStart(a) + m + b
  {
    var mb := m + b;
    assert mb[0] == m[0];
    assert TrimStart(mb) == mb;
    TrimStartConcat(a, mb);
    assert a + m + b == a + mb && TrimStart(a) + m + b == TrimStart(a) + mb;
  }

  lemma TrimEndAfter(x: string, m: string, b: string)
    requires m != [] && !IsSpace(m[|m| - 1])
    ensures TrimEnd(x + m + b) == x + m + TrimEnd(b)
  {
    assert (x + m)[|x + m| - 1] == m[|m| - 1];
    TrimEndConcat(x + m, b);
  }

  /** Strip only eats into the outer parts around a core that has no whitespace at its ends. */
  lemma StripAround(a: string, m: string, b: string)
    requires m != [] && !IsSpace(m[0]) && !IsSpace(m[|m| - 1])
    ensures Strip(a + m + b) == TrimStart(a) + m + TrimEnd(b)
  {
    TrimStartBefore(a, m, b);
    TrimEndAfter(TrimStart(a), m, b);
  }

  /** Every character is whitespace. */
  predicate AllSpace(s: string) {
    forall i :: 0 <= i < |s| ==> IsSpace(s[i])
  }

  /** Whitespace on either side of a text with non-space ends is all that `strip` removes. */
  lemma StripPadded(a: string, m: string, b: string)
    requires AllSpace(a) && AllSpace(b)
    requires m != [] && !IsSpace(m[0]) && !IsSpace(m[|m| - 1])
    ensures Strip(a + m + b) == m
  {
    StripAround(a, m, b);
    TrimStartIsSuffix(a);
    TrimEndIsPrefix(b);
  }

  /** The first occurrence is where `find` stops. */
  lemma FindIs(s: string, c: char, k: nat)
    requires k < |s| && s[k] == c && c !in s[..k]
    ensures Find(s, c) == k
  {
  }

  /** The last occurrence is where `rfind` stops. */
  lemma RFindIs(s: string, c: char, k: nat)
    requires k < |s| && s[k] == c && c !in s[k + 1..]
    ensures RFind(s, c) == k
  {
  }

  /** `find` stops at or before any occurrence. */
  lemma {:induction false} FindAtMost(s: string, c: char, i: nat)
    requires i < |s| && s[i] == c
    ensures 0 <= Find(s, c) <= i
  {
    if s[0] != c {
      assert s[1..][i - 1] == c;
      FindAtMost(s[1..], c, i - 1);
    }
  }

  /** `rfind` stops at or after any occurrence. */
  lemma {:induction false} RFindAtLeast(s: string, c: char, j: nat)
    requires j < |s| && s[j] == c
    ensures j <= RFind(s, c)
  {
    if s[|s| - 1] != c {
      assert s[..|s| - 1][j] == c;
      RFindAtLeast(s[..|s| - 1], c, j);
    }
  }

  lemma SliceIs(s: string, i: nat, j: nat)
    requires i <= j <= |s|
    ensures IsSliceOf(s[i..j], s)
  {
  }

  /** A slice of a slice is a slice. */
  lemma SliceOfSlice(a: string, b: string, c: string)
    requires IsSliceOf(a, b) && IsSliceOf(b, c)
    ensures IsSliceOf(a, c)
  {
    var i, j :| 0 <= i <= j <= |b| && a == b[i..j];
    var i', j' :| 0 <= i' <= j' <= |c| && b == c[i'..j'];
    var d := c[i' + i..i' + j];
    forall t | 0 <= t < |a|
      ensures a[t] == d[t]
    {
      assert a[t] == b[i + t] == c[i' + i + t];
    }
    assert |a| == |d|;
  }

  /** A character that is not in a string is not in any slice of it. */
  lemma NotInSlice(a: string, b: string, x: char)
    requires IsSliceOf(a, b) && x !in b
    ensures x !in a
  {
    var i, j :| 0 <= i <= j <= |b| && a == b[i..j];
  }
}
