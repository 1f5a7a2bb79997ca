/**
 * The pieces of the .NET string and number library the core relies on:
 * whitespace tests, trimming, invariant case mapping, splitting, ordinal search,
 * Int32 parsing (NumberStyles.Integer) and unchecked 32-bit arithmetic.
 */
module DotNetText {
  import opened Wrappers

  const Int32Min: int := -0x8000_0000
  const Int32Max: int := 0x7FFF_FFFF

  /** char.IsWhiteSpace: the Unicode White_Space characters. */
  predicate IsWhiteSpace(c: char) {
    ('\t' <= c <= '\r') || c == ' ' || c == '\U{85}' || c == '\U{A0}' || c == '\U{1680}'
    || ('\U{2000}' <= c <= '\U{200A}') || c == '\U{2028}' || c == '\U{2029}'
    || c == '\U{202F}' || c == '\U{205F}' || c == '\U{3000}'
  }

  /** The white space that number parsing skips (NumberStyles.AllowLeadingWhite and AllowTrailingWhite). */
  predicate IsNumberWhite(c: char) {
    ('\t' <= c <= '\r') || c == ' '
  }

  predicate IsSlash(c: char) {
    c == '/'
  }

  predicate AllWhiteSpace(s: string) {
    forall i :: 0 <= i < |s| ==> IsWhiteSpace(s[i])
  }

  /** string.IsNullOrEmpty */
  predicate IsNullOrEmpty(s: Option<string>) {
    s.None? || s.value == ""
  }

  /** string.IsNullOrWhiteSpace */
  predicate IsNullOrWhiteSpace(s: Option<string>) {
    s.None? || AllWhiteSpace(s.value)
  }

  /** What string interpolation writes for a possibly-null string. */
  function Str(s: Option<string>): string {
    s.GetOr("")
  }

  /** The number of leading characters of s, from position i on, that satisfy p. */
  function LeadingFrom(s: string, p: char -> bool, i: nat): (k: nat)
    requires i <= |s|
    requires forall j :: 0 <= j < i ==> p(s[j])
    ensures i <= k <= |s|
    ensures forall j :: 0 <= j < k ==> p(s[j])
    ensures k == |s| || !p(s[k])
    decreases |s| - i
  {
    if i < |s| && p(s[i]) then LeadingFrom(s, p, i + 1) else i
  }

  /** The length of the prefix of s, of at most n characters, that remains once the trailing characters satisfying p are dropped. */
  function KeptPrefix(s: string, p: char -> bool, n: nat): (k: nat)
    requires n <= |s|
    requires forall j :: n <= j < |s| ==> p(s[j])
    ensures k <= n
    ensures forall j :: k <= j < |s| ==> p(s[j])
    ensures k == 0 || !p(s[k - 1])
  {
    if n > 0 && p(s[n - 1]) then KeptPrefix(s, p, n - 1) else n
  }

  /** Drops the leading characters that satisfy p (string.TrimStart). */
  function TrimStartWhere(s: string, p: char -> bool): (r: string)
    ensures |r| <= |s|
    ensures forall i :: 0 <= i < |s| - |r| ==> p(s[i])
    ensures |r| == 0 || !p(r[0])
  {
    s[LeadingFrom(s, p, 0)..]
  }

  /** Drops the trailing characters that satisfy p (string.TrimEnd). */
  function TrimEndWhere(s: string, p: char -> bool): (r: string)
    ensures |r| <= |s|
    ensures forall i :: |r| <= i < |s| ==> p(s[i])
    ensures |r| == 0 || !p(r[|r| - 1])
  {
    s[..KeptPrefix(s, p, |s|)]
  }

  /** string.Trim() */
  function Trim(s: string): string {
    TrimEndWhere(TrimStartWhere(s, IsWhiteSpace), IsWhiteSpace)
  }

  /** string.TrimEnd() */
  function TrimEnd(s: string): string {
    TrimEndWhere(s, IsWhiteSpace)
  }

  function LowerChar(c: char): char {
    if 'A' <= c <= 'Z' then (c as int + 32) as char else c
  }

  function UpperChar(c: char): char {
    if 'a' <= c <= 'z' then (c as int - 32) as char else c
  }

  /** string.ToLowerInvariant, on the ASCII letters. */
  function ToLowerInvariant(s: string): (r: string)
    ensures |r| == |s|
  {
    seq(|s|, i requires 0 <= i < |s| => LowerChar(s[i]))
  }

  /** string.ToUpperInvariant, on the ASCII letters. */
  function ToUpperInvariant(s: string): (r: string)
    ensures |r| == |s|
  {
    seq(|s|, i requires 0 <= i < |s| => UpperChar(s[i]))
  }

  /** Case-insensitive equality of two strings under the ASCII case mapping. */
  predicate EqualsIgnoreCase(a: string, b: string) {
    ToLowerInvariant(a) == ToLowerInvariant(b)
  }

  /** The index of the first occurrence of c in s, or |s| if there is none. */
  function FirstIndexOfChar(s: string, c: char): (k: nat)
    ensures k <= |s|
    ensures k < |s| ==> s[k] == c
    ensures forall i :: 0 <= i < k ==> s[i] != c
  {
    if |s| == 0 then 0
    else if s[0] == c then 0
    else 1 + FirstIndexOfChar(s[1..], c)
  }

  /** string.Split(c): the pieces between the separators, empty pieces included. */
  function Split(s: string, c: char): (pieces: seq<string>)
    ensures |pieces| > 0
    ensures forall j, i :: 0 <= j < |pieces| && 0 <= i < |pieces[j]| ==> pieces[j][i] != c
    decreases |s|
  {
    var k := FirstIndexOfChar(s, c);
    if k == |s| then [s] else [s[..k]] + Split(s[k + 1..], c)
  }

  /** The inverse of Split: the pieces joined by the separator. */
  function Join(pieces: seq<string>, c: char): string
    requires |pieces| > 0
  {
    if |pieces| == 1 then pieces[0] else pieces[0] + [c] + Join(pieces[1..], c)
  }

  /** Splitting loses nothing: joining the pieces gives back the string. */
  lemma {:induction false} SplitJoin(s: string, c: char)
    ensures Join(Split(s, c), c) == s
    decreases |s|
  {
    var k := FirstIndexOfChar(s, c);
    if k < |s| {
      SplitJoin(s[k + 1..], c);
      assert s == s[..k] + [c] + s[k + 1..];
    }
  }

  /** The first separator of a + [c] + b is the one after a, when a has none. */
  lemma FirstSeparator(a: string, c: char, b: string)
    requires c !in a
    ensures FirstIndexOfChar(a + [c] + b, c) == |a|
  {
    var s := a + [c] + b;
    var k := FirstIndexOfChar(s, c);
    assert s[|a|] == c;
  }

  /** Splitting undoes joining when no piece holds the separator. */
  lemma {:induction false} JoinSplit(pieces: seq<string>, c: char)
    requires |pieces| > 0
    requires forall j :: 0 <= j < |pieces| ==> c !in pieces[j]
    ensures Split(Join(pieces, c), c) == pieces
    decreases |pieces|
  {
    var s := Join(pieces, c);
    if |pieces| > 1 {
      var rest := Join(pieces[1..], c);
      FirstSeparator(pieces[0], c, rest);
      JoinSplit(pieces[1..], c);
      assert s[..|pieces[0]|] == pieces[0];
      assert s[|pieces[0]| + 1..] == rest;
      var r := Split(s, c);
      assert r == [pieces[0]] + Split(rest, c);
      SameHeadTail(r, pieces);
    }
  }

  /** Two non-empty sequences with the same first element and the same rest are equal. */
  lemma SameHeadTail<T>(a: seq<T>, b: seq<T>)
    requires |a| > 0 && |b| > 0 && a[0] == b[0] && a[1..] == b[1..]
    ensures a == b
  {
    assert forall i :: 0 < i < |a| ==> a[i] == a[1..][i - 1];
  }

  /** Every character of a join is the separator or a character of some piece. */
  lemma {:induction false} JoinChars(pieces: seq<string>, c: char, i: nat)
    requires |pieces| > 0 && i < |Join(pieces, c)|
    ensures Join(pieces, c)[i] == c || exists j :: 0 <= j < |pieces| && Join(pieces, c)[i] in pieces[j]
    decreases |pieces|
  {
    var s := Join(pieces, c);
    if |pieces| == 1 {
      assert s[i] in pieces[0];
    } else if i < |pieces[0]| {
      assert s[i] == pieces[0][i];
    } else if i > |pieces[0]| {
      var rest := Join(pieces[1..], c);
      assert s[i] == rest[i - |pieces[0]| - 1];
      JoinChars(pieces[1..], c, i - |pieces[0]| - 1);
      if s[i] != c {
        var j :| 0 <= j < |pieces[1..]| && rest[i - |pieces[0]| - 1] in pieces[1..][j];
        assert s[i] in pieces[j + 1];
      }
    }
  }

  /** StringSplitOptions.RemoveEmptyEntries */
  function RemoveEmpty(pieces: seq<string>): (r: seq<string>)
    ensures forall j :: 0 <= j < |r| ==> r[j] != "" && r[j] in pieces
    ensures forall p :: p in pieces && p != "" ==> p in r
  {
    if |pieces| == 0 then []
    else if pieces[0] == "" then RemoveEmpty(pieces[1..])
    else [pieces[0]] + RemoveEmpty(pieces[1..])
  }

  predicate OccursAt(s: string, t: string, i: int) {
    0 <= i && i + |t| <= |s| && s[i..i + |t|] == t
  }

  /** Ordinal string.IndexOf(t): the first position of t in s, or -1. */
  function IndexOf(s: string, t: string): (r: int)
    ensures -1 <= r <= |s|
    ensures r >= 0 ==> OccursAt(s, t, r) && forall i :: 0 <= i < r ==> !OccursAt(s, t, i)
    ensures r == -1 ==> forall i :: !OccursAt(s, t, i)
  {
    IndexOfFrom(s, t, 0)
  }

  function IndexOfFrom(s: string, t: string, from: nat): (r: int)
    requires from <= |s| + 1
    requires forall i :: 0 <= i < from ==> !OccursAt(s, t, i)
    ensures -1 <= r <= |s|
    ensures r >= 0 ==> from <= r && OccursAt(s, t, r) && forall i :: 0 <= i < r ==> !OccursAt(s, t, i)
    ensures r == -1 ==> forall i :: !OccursAt(s, t, i)
    decreases |s| + 1 - from
  {
    if from + |t| > |s| then -1
    else if s[from..from + |t|] == t then from
    else IndexOfFrom(s, t, from + 1)
  }

  /** string.Substring(start): throws ArgumentOutOfRangeException outside 0..|s|. */
  function Substring(s: string, start: int): (r: Option<string>)
    ensures r.Some? <==> 0 <= start <= |s|
    ensures r.Some? ==> |r.value| == |s| - start && s == s[..start] + r.value
  {
    if 0 <= start <= |s| then Some(s[start..]) else None
  }

  predicate IsDigit(c: char) {
    '0' <= c <= '9'
  }

  predicate AllDigits(s: string) {
    forall i :: 0 <= i < |s| ==> IsDigit(s[i])
  }

  /** The value of a run of decimal digits. */
  function DigitsValue(d: string): (v: nat)
    requires AllDigits(d)
  {
    if |d| == 0 then 0 else DigitsValue(d[..|d| - 1]) * 10 + (d[|d| - 1] as int - '0' as int)
  }

  /**
   * int.TryParse(s, out n) with NumberStyles.Integer and the invariant culture:
   * optional white space, an optional '+' or '-', one or more ASCII digits, optional
   * white space, and the value must fit in an Int32.
   */
  function TryParseInt32(s: string): (r: Option<int>)
    ensures r.Some? ==> Int32Min <= r.value <= Int32Max
  {
    var t := TrimEndWhere(TrimStartWhere(s, IsNumberWhite), IsNumberWhite);
    if |t| == 0 then None
    else
      var digits := if t[0] == '-' || t[0] == '+' then t[1..] else t;
      if |digits| == 0 || !AllDigits(digits) then None
      else
        var v: int := if t[0] == '-' then -(DigitsValue(digits) as int) else DigitsValue(digits);
        if Int32Min <= v <= Int32Max then Some(v) else None
  }

  /** A character that is neither white space, a digit nor a sign makes int.TryParse fail wherever it stands. */
  lemma TryParseRejects(s: string, i: nat)
    requires i < |s| && !IsNumberWhite(s[i]) && !IsDigit(s[i]) && s[i] != '-' && s[i] != '+'
    ensures TryParseInt32(s) == None
  {
    var lead := LeadingFrom(s, IsNumberWhite, 0);
    var u := TrimStartWhere(s, IsNumberWhite);
    assert i >= lead;
    assert u[i - lead] == s[i];
    var t := TrimEndWhere(u, IsNumberWhite);
    assert i - lead < |t|;
    assert t[i - lead] == s[i];
    if t[0] == '-' || t[0] == '+' {
      assert t[1..][i - lead - 1] == s[i];
    }
  }

  /** The decimal digits of n, most significant first. */
  function NatToDigits(n: nat): (d: string)
    ensures |d| > 0 && AllDigits(d)
  {
    if n < 10 then [('0' as int + n) as char] else NatToDigits(n / 10) + [('0' as int + n % 10) as char]
  }

  /** Int32.ToString() with the invariant culture. */
  function Int32ToString(n: int): string {
    if n < 0 then "-" + NatToDigits(-n) else NatToDigits(n)
  }

  lemma {:induction false} DigitsRoundTrip(n: nat)
    ensures DigitsValue(NatToDigits(n)) == n
  {
    var d := NatToDigits(n);
    if n >= 10 {
      DigitsRoundTrip(n / 10);
      assert d[..|d| - 1] == NatToDigits(n / 10);
    }
  }

  lemma TrimNothing(s: string, p: char -> bool)
    requires |s| > 0 && !p(s[0]) && !p(s[|s| - 1])
    ensures TrimEndWhere(TrimStartWhere(s, p), p) == s
  {
    assert LeadingFrom(s, p, 0) == 0;
    assert KeptPrefix(s, p, |s|) == |s|;
  }

  /** int.TryParse reads back every Int32 that ToString writes. */
  lemma Int32RoundTrip(n: int)
    requires Int32Min <= n <= Int32Max
    ensures TryParseInt32(Int32ToString(n)) == Some(n)
  {
    var s := Int32ToString(n);
    var m: nat := if n < 0 then -n else n;
    DigitsRoundTrip(m);
    var d := NatToDigits(m);
    assert IsDigit(d[0]) && IsDigit(d[|d| - 1]);
    if n < 0 {
      assert s == "-" + d && s[1..] == d;
      assert s[|s| - 1] == d[|d| - 1];
    } else {
      assert s == d;
    }
    TrimNothing(s, IsNumberWhite);
  }

  /** Unchecked Int32 arithmetic: the value modulo 2^32, in the signed range. */
  function Wrap32(x: int): (r: int)
    ensures Int32Min <= r <= Int32Max
    ensures (r - x) % 0x1_0000_0000 == 0
    ensures Int32Min <= x <= Int32Max ==> r == x
  {
    (x - Int32Min) % 0x1_0000_0000 + Int32Min
  }
}
