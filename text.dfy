/** Values and string operations shared by the PHP and JavaScript parts of the plugin:
    an Option type, PHP's notion of an "empty" string, the trimming functions,
    ASCII lower-casing, substring search and decimal rendering of integers. */
module Text {

  datatype Option<T> = None | Some(value: T) {
    function GetOr(default: T): T {
      match this
      case Some(v) => v
      case None => default
    }
  }

  /** PHP's empty() (and falsiness) on a string: both "" and "0" count as empty. */
  predicate PhpEmpty(s: string) {
    s == "" || s == "0"
  }

  /** empty() on a value that may be unset or null. */
  predicate PhpEmptyOpt(o: Option<string>) {
    o.None? || PhpEmpty(o.value)
  }

  /** `isset($x) ? $x : ''` */
  function OrEmpty(o: Option<string>): string {
    o.GetOr("")
  }

  /** rtrim($s, $c) for a one-character list: drop every trailing c. */
  function RTrim(s: string, c: char): (r: string)
    ensures r <= s
    ensures r == [] || r[|r| - 1] != c
    ensures forall i :: |r| <= i < |s| ==> s[i] == c
  {
    if s != [] && s[|s| - 1] == c then RTrim(s[..|s| - 1], c) else s
  }

  /** ltrim($s, $c) for a one-character list: drop every leading c. */
  function LTrim(s: string, c: char): (r: string)
    ensures |r| <= |s| && r == s[|s| - |r|..]
    ensures r == [] || r[0] != c
    ensures forall i :: 0 <= i < |s| - |r| ==> s[i] == c
  {
    if s != [] && s[0] == c then LTrim(s[1..], c) else s
  }

  /** The characters PHP's trim() strips by default: space, \t, \n, \r, \0 and \x0B. */
  predicate IsTrimmable(c: char) {
    c == ' ' || c == '\t' || c == '\n' || c == '\r' || c == 0 as char || c == 11 as char
  }

  /** trim($s): strip default whitespace from both ends. */
  function Trim(s: string): (r: string)
    ensures r == [] || (!IsTrimmable(r[0]) && !IsTrimmable(r[|r| - 1]))
    ensures TrimmedFrom(s, r)
  {
    if s != [] && IsTrimmable(s[0]) then
      var r := Trim(s[1..]);
      TrimmedFront(s, r);
      r
    else if s != [] && IsTrimmable(s[|s| - 1]) then
      var r := Trim(s[..|s| - 1]);
      TrimmedBack(s, r);
      r
    else
      assert s == s[0..|s|] && TrimmableOutside(s, 0, |s|);
      s
  }

  /** r is a slice of s, and everything of s outside that slice is trimmable. */
  predicate TrimmedFrom(s: string, r: string) {
    exists i, j :: 0 <= i <= j <= |s| && r == s[i..j] && TrimmableOutside(s, i, j)
  }

  /** Everything of s before i and from j on is trimmable. */
  predicate TrimmableOutside(s: string, i: nat, j: nat) {
    (forall k :: 0 <= k < i && k < |s| ==> IsTrimmable(s[k]))
    && (forall k :: j <= k < |s| ==> IsTrimmable(s[k]))
  }

  /** A trimmable first character widens the trimmed-off prefix by one. */
  lemma TrimmedFront(s: string, r: string)
    requires s != [] && IsTrimmable(s[0]) && TrimmedFrom(s[1..], r)
    ensures TrimmedFrom(s, r)
  {
    var i, j :| 0 <= i <= j <= |s[1..]| && r == s[1..][i..j] && TrimmableOutside(s[1..], i, j);
    forall k | 1 <= k < |s|
      ensures s[k] == s[1..][k - 1]
    {
    }
    assert r == s[i + 1..j + 1] && TrimmableOutside(s, i + 1, j + 1);
  }

  /** A trimmable last character widens the trimmed-off suffix by one. */
  lemma TrimmedBack(s: string, r: string)
    requires s != [] && IsTrimmable(s[|s| - 1]) && TrimmedFrom(s[..|s| - 1], r)
    ensures TrimmedFrom(s, r)
  {
    var i, j :| 0 <= i <= j <= |s[..|s| - 1]| && r == s[..|s| - 1][i..j] && TrimmableOutside(s[..|s| - 1], i, j);
    forall k | 0 <= k < |s| - 1
      ensures s[k] == s[..|s| - 1][k]
    {
    }
    assert r == s[i..j] && TrimmableOutside(s, i, j);
  }

  /** ASCII lower-casing of one character (PHP 8 strtolower, JavaScript toLowerCase on ASCII). */
  function LowerChar(c: char): char {
    if 'A' <= c <= 'Z' then (c as int + 32) as char else c
  }

  function ToLower(s: string): (r: string)
    ensures |r| == |s|
    ensures forall i :: 0 <= i < |s| ==> r[i] == LowerChar(s[i])
  {
    seq(|s|, i requires 0 <= i < |s| => LowerChar(s[i]))
  }

  lemma ToLowerIdempotent(s: string)
    ensures ToLower(ToLower(s)) == ToLower(s)
  {
  }

  /** strpos($s, $t) !== false */
  predicate Contains(s: string, t: string) {
    t <= s || (s != [] && Contains(s[1..], t))
  }

  /** t occurs in s starting at index i. */
  predicate OccursAt(s: string, t: string, i: nat) {
    i + |t| <= |s| && s[i..i + |t|] == t
  }

  lemma {:induction false} ContainsAt(s: string, t: string, i: nat)
    requires OccursAt(s, t, i)
    ensures Contains(s, t)
    decreases i
  {
    if i == 0 {
      assert s[..|t|] == t;
    } else {
      assert s[1..][i - 1..i - 1 + |t|] == s[i..i + |t|];
      ContainsAt(s[1..], t, i - 1);
    }
  }

  lemma {:induction false} ContainsWitness(s: string, t: string)
    requires Contains(s, t)
    ensures exists i: nat :: OccursAt(s, t, i)
  {
    if t <= s {
      assert OccursAt(s, t, 0);
    } else {
      ContainsWitness(s[1..], t);
      var i: nat :| OccursAt(s[1..], t, i);
      assert s[1..][i..i + |t|] == s[i + 1..i + 1 + |t|];
      assert OccursAt(s, t, i + 1);
    }
  }

  lemma ContainsMiddle(a: string, t: string, b: string)
    ensures OccursAt(a + t + b, t, |a|)
    ensures Contains(a + t + b, t)
  {
    assert (a + t + b)[|a|..|a| + |t|] == t;
    ContainsAt(a + t + b, t, |a|);
  }

  lemma ContainsWithin(a: string, b: string, c: string, t: string)
    requires Contains(b, t)
    ensures Contains(a + b + c, t)
  {
    ContainsWitness(b, t);
    var i: nat :| OccursAt(b, t, i);
    assert (a + b + c)[|a| + i..|a| + i + |t|] == b[i..i + |t|];
    ContainsAt(a + b + c, t, |a| + i);
  }

  /** A string containing t is at least as long as t, so a non-empty t rules out empty(). */
  lemma ContainsLength(s: string, t: string)
    requires Contains(s, t)
    ensures |t| <= |s|
  {
    ContainsWitness(s, t);
  }

  function DigitChar(d: nat): (c: char)
    requires d < 10
    ensures '0' <= c <= '9' && c as int - '0' as int == d
  {
    (d + '0' as int) as char
  }

  /** PHP's rendering of a non-negative integer in a string context. */
  function NatToString(n: nat): (r: string)
    ensures |r| >= 1
    ensures forall i :: 0 <= i < |r| ==> '0' <= r[i] <= '9'
    ensures n < 10 <==> |r| == 1
  {
    if n < 10 then [DigitChar(n)] else NatToString(n / 10) + [DigitChar(n % 10)]
  }

  predicate IsDigits(s: string) {
    forall i :: 0 <= i < |s| ==> '0' <= s[i] <= '9'
  }

  /** Reads a string of decimal digits back as a number. */
  function DecimalValue(s: string): nat
    requires IsDigits(s)
  {
    if s == [] then 0 else DecimalValue(s[..|s| - 1]) * 10 + (s[|s| - 1] as int - '0' as int)
  }

  lemma {:induction false} NatToStringRoundTrip(n: nat)
    ensures DecimalValue(NatToString(n)) == n
  {
    if n >= 10 {
      var r := NatToString(n);
      assert r[..|r| - 1] == NatToString(n / 10);
      NatToStringRoundTrip(n / 10);
    }
  }

  /** Distinct numbers render differently. */
  lemma NatToStringInjective(m: nat, n: nat)
    requires NatToString(m) == NatToString(n)
    ensures m == n
  {
    NatToStringRoundTrip(m);
    NatToStringRoundTrip(n);
  }

  /** PHP's rendering of an integer, with a leading '-' when negative. */
  function IntToString(i: int): (r: string)
    ensures i >= 0 ==> IsDigits(r) && DecimalValue(r) == i
    ensures i < 0 ==> |r| > 1 && r[0] == '-' && IsDigits(r[1..]) && DecimalValue(r[1..]) == -i
  {
    if i < 0 then
      NatToStringRoundTrip(-i);
      var r := "-" + NatToString(-i);
      assert r[1..] == NatToString(-i);
      r
    else
      NatToStringRoundTrip(i);
      NatToString(i)
  }

  /** implode($sep, $parts) */
  function Join(parts: seq<string>, sep: string): string {
    if parts == [] then ""
    else if |parts| == 1 then parts[0]
    else Join(parts[..|parts| - 1], sep) + sep + parts[|parts| - 1]
  }

  /** Number of occurrences of c in s. */
  function CountChar(s: string, c: char): nat {
    if s == [] then 0 else CountChar(s[..|s| - 1], c) + (if s[|s| - 1] == c then 1 else 0)
  }

  lemma {:induction false} CountCharAppend(a: string, b: string, c: char)
    ensures CountChar(a + b, c) == CountChar(a, c) + CountChar(b, c)
    decreases |b|
  {
    if b == [] {
      assert a + b == a;
    } else {
      assert (a + b)[..|a + b| - 1] == a + b[..|b| - 1];
      CountCharAppend(a, b[..|b| - 1], c);
    }
  }
}
