/**
 * The parts of java.lang.String and java.util.StringTokenizer that the server's request
 * handling relies on, stated over `string` (a sequence of `char`).
 */
module Text {

  /** `s` begins with `p` (String.startsWith). */
  predicate StartsWith(s: string, p: string) {
    |p| <= |s| && s[..|p|] == p
  }

  /** `s` ends with `p` (String.endsWith). */
  predicate EndsWith(s: string, p: string) {
    |p| <= |s| && s[|s| - |p|..] == p
  }

  /** `t` occurs in `s` starting at index `i`. */
  predicate OccursAt(s: string, t: string, i: nat) {
    i + |t| <= |s| && s[i..i + |t|] == t
  }

  /** `t` occurs somewhere in `s` (String.contains; case-sensitive). */
  predicate Contains(s: string, t: string) {
    exists i | 0 <= i <= |s| - |t| :: OccursAt(s, t, i)
  }

  /** The index of the first `c` in `s`, or -1 when there is none (String.indexOf). */
  function IndexOf(s: string, c: char): (r: int)
    ensures -1 <= r < |s|
    ensures r == -1 <==> c !in s
    ensures r >= 0 ==> s[r] == c && c !in s[..r]
  {
    if s == [] then -1
    else if s[0] == c then 0
    else
      var i := IndexOf(s[1..], c);
      if i == -1 then -1 else i + 1
  }

  // ---------------------------------------------------------------------------
  // Splitting into fields (StringTokenizer, and the name elements of a path)
  // ---------------------------------------------------------------------------

  /** The delimiters of `new StringTokenizer(s)`: space, tab, newline, carriage return, form feed. */
  const TokenDelimiters: set<char> := {' ', '\t', '\n', '\r', '\U{000C}'}

  /** A non-empty run of characters none of which is a delimiter. */
  predicate IsField(t: string, delims: set<char>) {
    t != [] && forall k :: 0 <= k < |t| ==> t[k] !in delims
  }

  /** The length of the longest prefix of `s` free of delimiters. */
  function FieldLength(s: string, delims: set<char>): (n: nat)
    ensures n <= |s|
    ensures forall k :: 0 <= k < n ==> s[k] !in delims
    ensures n < |s| ==> s[n] in delims
  {
    if s == [] || s[0] in delims then 0 else 1 + FieldLength(s[1..], delims)
  }

  /** The maximal delimiter-free runs of `s`, left to right. */
  function Fields(s: string, delims: set<char>): (r: seq<string>)
    ensures forall i :: 0 <= i < |r| ==> IsField(r[i], delims)
    decreases |s|
  {
    if s == [] then []
    else if s[0] in delims then Fields(s[1..], delims)
    else
      var n := FieldLength(s, delims);
      [s[..n]] + Fields(s[n..], delims)
  }

  /** The tokens a default StringTokenizer hands out, in order. */
  function Tokens(s: string): seq<string> {
    Fields(s, TokenDelimiters)
  }

  /** `ts` joined by one `sep` between neighbours. */
  function JoinWith(ts: seq<string>, sep: char): string {
    if ts == [] then ""
    else if |ts| == 1 then ts[0]
    else ts[0] + [sep] + JoinWith(ts[1..], sep)
  }

  /** A delimiter in front adds no field: runs of delimiters separate, they never produce empty fields. */
  lemma FieldsSkipDelimiter(d: char, s: string, delims: set<char>)
    requires d in delims
    ensures Fields([d] + s, delims) == Fields(s, delims)
  {
    assert ([d] + s)[1..] == s;
  }

  /** A single field is its own only field. */
  lemma FieldsOfField(t: string, delims: set<char>)
    requires IsField(t, delims)
    ensures Fields(t, delims) == [t]
  {
    assert FieldLength(t, delims) == |t|;
    assert t[|t|..] == [];
    assert t[..|t|] == t;
  }

  /**
   * A field followed by a delimiter is the first field, whatever follows: fields are the
   * longest delimiter-free runs, taken left to right.
   */
  lemma FieldThenDelimiter(t: string, d: char, s: string, delims: set<char>)
    requires IsField(t, delims) && d in delims
    ensures Fields(t + [d] + s, delims) == [t] + Fields(s, delims)
  {
    var u := t + [d] + s;
    assert u[|t|] == d;
    assert forall k :: 0 <= k < |t| ==> u[k] == t[k];
    assert FieldLength(u, delims) == |t|;
    assert u[..|t|] == t;
    assert u[|t|..] == [d] + s;
    FieldsSkipDelimiter(d, s, delims);
  }

  /** Splitting undoes joining: fields joined by a delimiter split back into the same fields. */
  lemma {:induction false} FieldsOfJoin(ts: seq<string>, sep: char, delims: set<char>)
    requires sep in delims
    requires forall i :: 0 <= i < |ts| ==> IsField(ts[i], delims)
    ensures Fields(JoinWith(ts, sep), delims) == ts
  {
    if |ts| == 1 {
      FieldsOfField(ts[0], delims);
    } else if |ts| > 1 {
      FieldThenDelimiter(ts[0], sep, JoinWith(ts[1..], sep), delims);
      FieldsOfJoin(ts[1..], sep, delims);
      assert [ts[0]] + ts[1..] == ts;
    }
  }

  // ---------------------------------------------------------------------------
  // Case mapping (ASCII letters) and String.trim
  // ---------------------------------------------------------------------------

  function LowerChar(c: char): char {
    if 'A' <= c <= 'Z' then (c as int + 32) as char else c
  }

  function UpperChar(c: char): char {
    if 'a' <= c <= 'z' then (c as int - 32) as char else c
  }

  /** String.toLowerCase, on ASCII letters. */
  function ToLower(s: string): (r: string)
    ensures |r| == |s|
    ensures forall i :: 0 <= i < |r| ==> !('A' <= r[i] <= 'Z')
    ensures forall i :: 0 <= i < |s| && 'A' <= s[i] <= 'Z' ==> r[i] as int == s[i] as int + 32
    ensures forall i :: 0 <= i < |s| && !('A' <= s[i] <= 'Z') ==> r[i] == s[i]
  {
    seq(|s|, i requires 0 <= i < |s| => LowerChar(s[i]))
  }

  /** String.toUpperCase, on ASCII letters. */
  function ToUpper(s: string): (r: string)
    ensures |r| == |s|
    ensures forall i :: 0 <= i < |r| ==> !('a' <= r[i] <= 'z')
    ensures forall i :: 0 <= i < |s| && 'a' <= s[i] <= 'z' ==> r[i] as int == s[i] as int - 32
    ensures forall i :: 0 <= i < |s| && !('a' <= s[i] <= 'z') ==> r[i] == s[i]
  {
    seq(|s|, i requires 0 <= i < |s| => UpperChar(s[i]))
  }

  /** String.trim drops every character whose code is at most U+0020. */
  predicate IsTrimmed(c: char) {
    c <= ' '
  }

  /** The first index at or after `from` whose character is kept by trim, or `|s|`. */
  function SkipTrimmed(s: string, from: nat): (i: nat)
    requires from <= |s|
    ensures from <= i <= |s|
    ensures forall k :: from <= k < i ==> IsTrimmed(s[k])
    ensures i < |s| ==> !IsTrimmed(s[i])
    decreases |s| - from
  {
    if from == |s| || !IsTrimmed(s[from]) then from else SkipTrimmed(s, from + 1)
  }

  /** The end of `s[lo..hi]` once its trailing trimmable characters are dropped. */
  function BackTrimmed(s: string, lo: nat, hi: nat): (j: nat)
    requires lo <= hi <= |s|
    ensures lo <= j <= hi
    ensures forall k :: j <= k < hi ==> IsTrimmed(s[k])
    ensures j > lo ==> !IsTrimmed(s[j - 1])
    decreases hi - lo
  {
    if hi == lo || !IsTrimmed(s[hi - 1]) then hi else BackTrimmed(s, lo, hi - 1)
  }

  /** String.trim: the slice of `s` left after removing trimmable characters from both ends. */
  function Trim(s: string): (r: string)
    ensures r == [] || (!IsTrimmed(r[0]) && !IsTrimmed(r[|r| - 1]))
    ensures TrimmedSlice(s, r, SkipTrimmed(s, 0))
  {
    var i := SkipTrimmed(s, 0);
    var j := BackTrimmed(s, i, |s|);
    s[i..j]
  }

  /** `r` is the slice of `s` at `i`, and only trimmable characters lie outside it. */
  predicate TrimmedSlice(s: string, r: string, i: nat) {
    && OccursAt(s, r, i)
    && (forall k :: 0 <= k < i ==> IsTrimmed(s[k]))
    && (forall k :: i + |r| <= k < |s| ==> IsTrimmed(s[k]))
  }

  // ---------------------------------------------------------------------------
  // Decimal numerals (Integer.toString of a non-negative int)
  // ---------------------------------------------------------------------------

  predicate IsDigits(s: string) {
    forall k :: 0 <= k < |s| ==> '0' <= s[k] <= '9'
  }

  function Digit(d: nat): char
    requires d < 10
  {
    ('0' as int + d) as char
  }

  /** The decimal numeral of `n`, most significant digit first. */
  function DecimalString(n: nat): (r: string)
    ensures r != [] && IsDigits(r)
    ensures r[0] == '0' ==> n == 0
  {
    if n < 10 then [Digit(n)] else DecimalString(n / 10) + [Digit(n % 10)]
  }

  /** The number a string of digits denotes. */
  function DecimalValue(s: string): nat
    requires IsDigits(s)
  {
    if s == [] then 0 else 10 * DecimalValue(s[..|s| - 1]) + (s[|s| - 1] as int - '0' as int)
  }

  /** Reading back the numeral gives the number. */
  lemma {:induction false} DecimalRoundTrip(n: nat)
    ensures DecimalValue(DecimalString(n)) == n
  {
    if n >= 10 {
      DecimalRoundTrip(n / 10);
      var s := DecimalString(n);
      assert s[..|s| - 1] == DecimalString(n / 10);
    }
  }
}
