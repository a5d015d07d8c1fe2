/**
  Python `str` behaviour that the core relies on: whitespace and `strip`,
  prefix tests, `split`/`join` on a literal separator, leading digit runs,
  `int`/`str` conversion of numbers, and list slicing with Python's index
  normalisation.
*/
module Text {

  /** `str.isspace()` on one character (the complete set Python uses). */
  predicate IsSpace(c: char) {
    || ('\t' <= c <= '\r')
    || ('\U{1C}' <= c <= '\U{1F}')
    || c == ' ' || c == '\U{85}' || c == '\U{A0}' || c == '\U{1680}'
    || ('\U{2000}' <= c <= '\U{200A}')
    || c == '\U{2028}' || c == '\U{2029}' || c == '\U{202F}' || c == '\U{205F}' || c == '\U{3000}'
  }

  /** Regular-expression `\w`, restricted to ASCII. */
  predicate IsWordChar(c: char) {
    ('a' <= c <= 'z') || ('A' <= c <= 'Z') || ('0' <= c <= '9') || c == '_'
  }

  /** Regular-expression `\d`, restricted to ASCII. */
  predicate IsDigit(c: char) {
    '0' <= c <= '9'
  }

  /** Length of the longest prefix of `s` made of whitespace. */
  function LeadingSpaces(s: string): (n: nat)
    ensures n <= |s|
  {
    if s == [] || !IsSpace(s[0]) then 0 else 1 + LeadingSpaces(s[1..])
  }

  /** Length of the longest prefix of `s` made of word characters. */
  function LeadingWordChars(s: string): (n: nat)
    ensures n <= |s|
  {
    if s == [] || !IsWordChar(s[0]) then 0 else 1 + LeadingWordChars(s[1..])
  }

  /** Length of the longest prefix of `s` made of decimal digits. */
  function LeadingDigitCount(s: string): (n: nat)
    ensures n <= |s|
    ensures forall k :: 0 <= k < n ==> IsDigit(s[k])
    ensures n < |s| ==> !IsDigit(s[n])
  {
    if s == [] || !IsDigit(s[0]) then 0 else 1 + LeadingDigitCount(s[1..])
  }

  /** `str.strip()`: leading and trailing whitespace removed. */
  function Strip(s: string): string {
    if s != [] && IsSpace(s[0]) then Strip(s[1..])
    else if s != [] && IsSpace(s[|s| - 1]) then Strip(s[..|s| - 1])
    else s
  }

  /** `strip` returns a substring of its argument with no whitespace at either end, and keeps a trimmed string unchanged. */
  lemma {:induction false} StripTrims(s: string)
    ensures |Strip(s)| <= |s|
    ensures Strip(s) != [] ==> !IsSpace(Strip(s)[0]) && !IsSpace(Strip(s)[|Strip(s)| - 1])
    ensures (s == [] || (!IsSpace(s[0]) && !IsSpace(s[|s| - 1]))) ==> Strip(s) == s
    decreases |s|
  {
    if s != [] && IsSpace(s[0]) {
      StripTrims(s[1..]);
    } else if s != [] && IsSpace(s[|s| - 1]) {
      StripTrims(s[..|s| - 1]);
    }
  }

  predicate StartsWith(s: string, prefix: string) {
    |prefix| <= |s| && s[..|prefix|] == prefix
  }

  predicate EndsWith(s: string, suffix: string) {
    |suffix| <= |s| && s[|s| - |suffix|..] == suffix
  }

  /** Whether `sep` occurs in `s` at position `k`. */
  predicate OccursAt(s: string, sep: string, k: int) {
    0 <= k && k + |sep| <= |s| && s[k..k + |sep|] == sep
  }

  /** `str.find(sep)`: the first position where `sep` occurs, or -1. */
  function IndexOf(s: string, sep: string): (k: int)
    requires sep != []
    ensures -1 <= k
    ensures k >= 0 ==> OccursAt(s, sep, k)
    ensures forall j :: 0 <= j && (k < 0 || j < k) ==> !OccursAt(s, sep, j)
  {
    if |s| < |sep| then -1
    else if s[..|sep|] == sep then 0
    else
      var k := IndexOf(s[1..], sep);
      assert forall j :: 1 <= j ==> (OccursAt(s, sep, j) <==> OccursAt(s[1..], sep, j - 1)) by {
        forall j | 1 <= j ensures OccursAt(s, sep, j) <==> OccursAt(s[1..], sep, j - 1) {
          if j + |sep| <= |s| { TailSlice(s, j, |sep|); }
        }
      }
      if k < 0 then -1 else k + 1
  }

  /** Joining three sequences does not depend on the grouping. */
  lemma ConcatAssociative<T>(x: seq<T>, y: seq<T>, z: seq<T>)
    ensures x + (y + z) == (x + y) + z
  {
  }

  lemma TailSlice(s: string, j: nat, n: nat)
    requires 1 <= j && j + n <= |s|
    ensures s[1..][j - 1..j - 1 + n] == s[j..j + n]
  {
  }

  /** `s.split(sep)` for a non-empty separator: the pieces between leftmost non-overlapping occurrences. */
  function Split(s: string, sep: string): (parts: seq<string>)
    requires sep != []
    ensures |parts| >= 1
    decreases |s|
  {
    var k := IndexOf(s, sep);
    if k < 0 then [s] else [s[..k]] + Split(s[k + |sep|..], sep)
  }

  /** `sep.join(parts)`. */
  function Join(parts: seq<string>, sep: string): string {
    if parts == [] then ""
    else if |parts| == 1 then parts[0]
    else parts[0] + sep + Join(parts[1..], sep)
  }

  /** Joining the pieces of a split with the same separator restores the text. */
  lemma {:induction false} JoinSplit(s: string, sep: string)
    requires sep != []
    ensures Join(Split(s, sep), sep) == s
    decreases |s|
  {
    var k := IndexOf(s, sep);
    if k >= 0 {
      var tail := s[k + |sep|..];
      JoinSplit(tail, sep);
      var parts := [s[..k]] + Split(tail, sep);
      SplitFound(s, sep);
      assert |parts| >= 2 && parts[1..] == Split(tail, sep);
      assert Join(parts, sep) == s[..k] + sep + Join(Split(tail, sep), sep);
      Around(s, sep, k);
    }
  }

  /** Where the separator occurs, `split` cuts off the piece before it and splits the rest. */
  lemma SplitFound(s: string, sep: string)
    requires sep != [] && IndexOf(s, sep) >= 0
    ensures Split(s, sep) == [s[..IndexOf(s, sep)]] + Split(s[IndexOf(s, sep) + |sep|..], sep)
  {
  }

  /** A string is the text before an occurrence, the occurrence, and the text after it. */
  lemma Around(s: string, sep: string, k: int)
    requires OccursAt(s, sep, k)
    ensures s == s[..k] + sep + s[k + |sep|..]
  {
    assert s == s[..k] + s[k..k + |sep|] + s[k + |sep|..];
  }

  /** No piece of a split on a one-character separator contains that character. */
  lemma {:induction false} SplitPiecesAvoidSeparator(s: string, c: char)
    ensures forall p :: p in Split(s, [c]) ==> c !in p
    decreases |s|
  {
    var k := IndexOf(s, [c]);
    if k < 0 {
      forall j | 0 <= j < |s| ensures s[j] != c { assert !OccursAt(s, [c], j); }
    } else {
      SplitPiecesAvoidSeparator(s[k + 1..], c);
      forall j | 0 <= j < k ensures s[j] != c { assert !OccursAt(s, [c], j); }
    }
  }

  /** Splitting a join on a one-character separator that no piece contains gives the pieces back. */
  lemma {:induction false} SplitJoin(parts: seq<string>, c: char)
    requires parts != []
    requires forall p :: p in parts ==> c !in p
    ensures Split(Join(parts, [c]), [c]) == parts
    decreases |parts|
  {
    var s := Join(parts, [c]);
    var p0 := parts[0];
    var k := IndexOf(s, [c]);
    if |parts| == 1 {
      assert s == p0 && p0 in parts;
      forall j | 0 <= j < |s| ensures !OccursAt(s, [c], j) { assert s[j..j + 1] == [p0[j]]; }
    } else {
      var rest := Join(parts[1..], [c]);
      assert s == p0 + [c] + rest;
      assert OccursAt(s, [c], |p0|);
      assert p0 in parts;
      forall j | 0 <= j < |p0| ensures !OccursAt(s, [c], j) { assert s[j..j + 1] == [p0[j]]; }
      assert k == |p0|;
      assert s[k + 1..] == rest;
      assert s[..k] == p0;
      SplitJoin(parts[1..], c);
    }
  }

  function DigitValue(c: char): nat
    requires IsDigit(c)
  {
    (c as int - '0' as int) as nat
  }

  function DigitChar(d: nat): (c: char)
    requires d < 10
    ensures IsDigit(c) && DigitValue(c) == d
  {
    ('0' as int + d) as char
  }

  predicate AllDigits(s: string) {
    forall k :: 0 <= k < |s| ==> IsDigit(s[k])
  }

  /** `int(s)` for a string of decimal digits. */
  function DigitsValue(s: string): nat
    requires AllDigits(s)
  {
    if s == [] then 0 else 10 * DigitsValue(s[..|s| - 1]) + DigitValue(s[|s| - 1])
  }

  /** `str(n)` for a natural number. */
  function NatToString(n: nat): (s: string)
    ensures s != [] && AllDigits(s)
  {
    if n < 10 then [DigitChar(n)] else NatToString(n / 10) + [DigitChar(n % 10)]
  }

  /** `str(i)` for any integer. */
  function IntToString(i: int): string {
    if i < 0 then "-" + NatToString(-i) else NatToString(i)
  }

  /** `int(str(n)) == n`. */
  lemma {:induction false} NatToStringRoundTrip(n: nat)
    ensures DigitsValue(NatToString(n)) == n
  {
    if n >= 10 {
      NatToStringRoundTrip(n / 10);
      var s := NatToString(n);
      assert s[..|s| - 1] == NatToString(n / 10);
    }
  }

  /** The maximal run of leading decimal digits (the match of `^\d+`, or empty). */
  function LeadingDigits(s: string): (d: string)
    ensures AllDigits(d) && |d| <= |s| && d == s[..|d|]
    ensures |d| < |s| ==> !IsDigit(s[|d|])
  {
    s[..LeadingDigitCount(s)]
  }

  /** The leading digit run of `str(n)` followed by a non-digit is `str(n)` itself. */
  lemma NatPrefixDigits(n: nat, rest: string)
    requires rest != [] && !IsDigit(rest[0])
    ensures LeadingDigits(NatToString(n) + rest) == NatToString(n)
  {
    var d := NatToString(n);
    var s := d + rest;
    assert forall k :: 0 <= k < |d| ==> s[k] == d[k];
    assert s[|d|] == rest[0];
    assert s[..|d|] == d;
  }

  /** Python's normalisation of a slice index against a list of length `n`. */
  function SliceIndex(i: int, n: nat): (r: nat)
    ensures r <= n
  {
    if i < 0 then (if i + n < 0 then 0 else i + n) else if i > n then n else i
  }

  /** `xs[lo:hi]`. */
  function PySlice<T>(xs: seq<T>, lo: int, hi: int): seq<T> {
    var a, b := SliceIndex(lo, |xs|), SliceIndex(hi, |xs|);
    if a < b then xs[a..b] else []
  }

  /** The list left by `del xs[lo:hi]`. */
  function PyDeleteSlice<T>(xs: seq<T>, lo: int, hi: int): seq<T> {
    var a, b := SliceIndex(lo, |xs|), SliceIndex(hi, |xs|);
    if a < b then xs[..a] + xs[b..] else xs
  }
}
