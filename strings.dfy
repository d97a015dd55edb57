/** String operations with Python's meaning: str.isspace, str.strip, str.lower (ASCII letters),
    `sub in s`, str.split(sep)[n], str.endswith and posixpath.basename. */
module Strings {
  import opened Wrappers

  /** Python's str.isspace() for one character. */
  predicate IsSpace(c: char) {
    || c == ' '
    || ('\U{9}' <= c <= '\U{D}')
    || ('\U{1C}' <= c <= '\U{1F}')
    || c == '\U{85}' || c == '\U{A0}' || c == '\U{1680}'
    || ('\U{2000}' <= c <= '\U{200A}')
    || c == '\U{2028}' || c == '\U{2029}' || c == '\U{202F}' || c == '\U{205F}' || c == '\U{3000}'
  }

  predicate AllSpace(s: string) {
    forall i :: 0 <= i < |s| ==> IsSpace(s[i])
  }

  /** Number of leading characters of `s` that `drop` removes. */
  function LeadingCount(s: string, drop: char -> bool): (n: nat)
    ensures n <= |s|
    ensures forall i :: 0 <= i < n ==> drop(s[i])
    ensures n < |s| ==> !drop(s[n])
  {
    if |s| > 0 && drop(s[0]) then 1 + LeadingCount(s[1..], drop) else 0
  }

  /** End of `s` once the trailing characters that `drop` removes are cut off. */
  function TrailingEnd(s: string, drop: char -> bool): (e: nat)
    ensures e <= |s|
    ensures forall i :: e <= i < |s| ==> drop(s[i])
    ensures e > 0 ==> !drop(s[e - 1])
  {
    if |s| > 0 && drop(s[|s| - 1]) then TrailingEnd(s[..|s| - 1], drop) else |s|
  }

  /** Python's s.strip(chars): both ends cut while `drop` holds. */
  function TrimBy(s: string, drop: char -> bool): (r: string)
    ensures |r| <= |s|
    ensures r == [] <==> forall i :: 0 <= i < |s| ==> drop(s[i])
    ensures r != [] ==> !drop(r[0]) && !drop(r[|r| - 1])
    ensures r != [] ==> r == s[LeadingCount(s, drop)..TrailingEnd(s, drop)]
  {
    var a := LeadingCount(s, drop);
    if a == |s| then [] else s[a..TrailingEnd(s, drop)]
  }

  /** Python's s.strip(). */
  function Strip(s: string): (r: string)
    ensures |r| <= |s|
    ensures r == [] <==> AllSpace(s)
    ensures r != [] ==> !IsSpace(r[0]) && !IsSpace(r[|r| - 1])
  {
    TrimBy(s, IsSpace)
  }

  /** Python's c.lower() restricted to ASCII letters. */
  function LowerChar(c: char): char {
    if 'A' <= c <= 'Z' then (c as int + 32) as char else c
  }

  function Lower(s: string): (r: string)
    ensures |r| == |s|
    ensures forall i :: 0 <= i < |s| ==> r[i] == LowerChar(s[i])
  {
    seq(|s|, i requires 0 <= i < |s| => LowerChar(s[i]))
  }

  /** SQL LIKE as PostgreSQL evaluates it: `%` matches any run of characters, `_` any single
      character, and a backslash makes the character after it literal. */
  predicate Like(s: string, p: string)
    decreases |s| + |p|
  {
    if p == [] then s == []
    else if p[0] == '%' then Like(s, p[1..]) || (s != [] && Like(s[1..], p))
    else if p[0] == '\\' then |p| >= 2 && s != [] && s[0] == p[1] && Like(s[1..], p[2..])
    else s != [] && (p[0] == '_' || s[0] == p[0]) && Like(s[1..], p[1..])
  }

  /** ILIKE: LIKE after lower-casing both sides. */
  predicate ILike(s: string, p: string) { Like(Lower(s), Lower(p)) }

  predicate NoWildcards(p: string) { forall i :: 0 <= i < |p| ==> p[i] != '%' && p[i] != '_' && p[i] != '\\' }

  /** A pattern without wildcards or escapes matches exactly itself. */
  lemma {:induction false} LiteralLike(s: string, p: string)
    requires NoWildcards(p)
    ensures Like(s, p) <==> s == p
  {
    if p != [] && s != [] {
      LiteralLike(s[1..], p[1..]);
      if s[1..] == p[1..] && s[0] == p[0] {
        assert s == [s[0]] + s[1..] && p == [p[0]] + p[1..];
      }
    }
  }

  /** `%` alone matches every string. */
  lemma {:induction false} PercentLikeAll(s: string)
    ensures Like(s, "%")
  {
    if s != [] {
      PercentLikeAll(s[1..]);
    } else {
      assert "%"[1..] == [];
    }
  }

  /** `_` matches exactly the one-character strings. */
  lemma UnderscoreLikeOne(s: string)
    ensures Like(s, "_") <==> |s| == 1
  {
    assert "_"[1..] == [];
  }

  predicate OccursAt(s: string, sub: string, i: nat) {
    i + |sub| <= |s| && s[i..i + |sub|] == sub
  }

  /** The first index at or after `from` where `sub` occurs in `s`. */
  function Find(s: string, sub: string, from: nat): (r: Option<nat>)
    ensures r.Some? ==> from <= r.value && OccursAt(s, sub, r.value)
    ensures r.Some? ==> forall j :: from <= j < r.value ==> !OccursAt(s, sub, j)
    ensures r.None? ==> forall j :: from <= j ==> !OccursAt(s, sub, j)
    decreases |s| - from
  {
    if from + |sub| > |s| then None
    else if s[from..from + |sub|] == sub then Some(from)
    else Find(s, sub, from + 1)
  }

  /** Python's `sub in s`. */
  predicate Contains(s: string, sub: string) {
    Find(s, sub, 0).Some?
  }

  predicate StartsWith(s: string, prefix: string) {
    |prefix| <= |s| && s[..|prefix|] == prefix
  }

  predicate EndsWith(s: string, suffix: string) {
    |suffix| <= |s| && s[|s| - |suffix|..] == suffix
  }

  /** Python's s.split(sep)[n]; None where Python raises IndexError. */
  function SplitPart(s: string, sep: string, n: nat): (r: Option<string>)
    requires |sep| > 0
    ensures n == 0 ==> r.Some?
    decreases |s|, n
  {
    match Find(s, sep, 0)
    case None => if n == 0 then Some(s) else None
    case Some(i) => if n == 0 then Some(s[..i]) else SplitPart(s[i + |sep|..], sep, n - 1)
  }

  /** Python truthiness of an optional str: neither None nor empty. */
  predicate TruthyStr(s: Option<string>) { s.Some? && s.value != [] }

  /** When `sep` occurs in `s`, split(sep)[1] exists and is the text between the first
      occurrence and the next one (or the end). */
  lemma SplitPartOne(pre: string, sep: string, v: string)
    requires |sep| > 0
    requires forall j :: 0 <= j < |pre| ==> !OccursAt(pre + sep + v, sep, j)
    requires !Contains(v, sep)
    ensures SplitPart(pre + sep + v, sep, 1) == Some(v)
  {
    var s := pre + sep + v;
    assert s[|pre|..|pre| + |sep|] == sep;
    assert OccursAt(s, sep, |pre|);
    assert Find(s, sep, 0) == Some(|pre|);
    assert s[|pre| + |sep|..] == v;
  }

  /** posixpath.basename: the text after the last '/'. */
  function Basename(p: string): (r: string)
    ensures |r| <= |p| && r == p[|p| - |r|..]
    ensures '/' !in r
    ensures |r| < |p| ==> p[|p| - |r| - 1] == '/'
  {
    if |p| == 0 || p[|p| - 1] == '/' then [] else Basename(p[..|p| - 1]) + [p[|p| - 1]]
  }

  /** Python's comparison `a < b` of two str values: code points, left to right. */
  predicate StrLess(a: string, b: string) {
    if a == [] then b != []
    else if b == [] then false
    else if a[0] != b[0] then a[0] < b[0]
    else StrLess(a[1..], b[1..])
  }

  function Digit(d: nat): char
    requires d < 10
  {
    ('0' as int + d) as char
  }

  predicate AllDigits(s: string) { forall i :: 0 <= i < |s| ==> '0' <= s[i] <= '9' }

  /** f"{n}": decimal digits, no leading zero. */
  function DecimalString(n: nat): (r: string)
    ensures |r| > 0 && AllDigits(r)
    ensures |r| > 1 ==> r[0] != '0'
  {
    if n < 10 then [Digit(n)] else DecimalString(n / 10) + [Digit(n % 10)]
  }

  /** int(s) for a string of decimal digits. */
  function DecimalValue(s: string): nat
    requires AllDigits(s)
  {
    if s == [] then 0 else DecimalValue(s[..|s| - 1]) * 10 + (s[|s| - 1] as int - '0' as int)
  }

  lemma {:induction false} DecimalRoundTrip(n: nat)
    ensures DecimalValue(DecimalString(n)) == n
  {
    if n >= 10 {
      var s := DecimalString(n);
      assert s[..|s| - 1] == DecimalString(n / 10);
      DecimalRoundTrip(n / 10);
    }
  }

  /** Python's ",".join(parts). */
  function Join(sep: string, parts: seq<string>): string {
    if |parts| == 0 then []
    else if |parts| == 1 then parts[0]
    else parts[0] + sep + Join(sep, parts[1..])
  }
}
