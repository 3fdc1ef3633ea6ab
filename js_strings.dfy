/** The few JavaScript string operations the backend relies on, over Dafny
    strings (sequences of Unicode code points): `String.prototype.trim`,
    `split` on a one-character separator, `Array.prototype.join`,
    `startsWith`, `includes` and the decimal rendering of a non-negative
    integer in a template literal.
 */
module JsStrings {

  // ---------------------------------------------------------------------
  // trim()

  /** WhiteSpace and LineTerminator code points of ECMAScript (sections 12.2
      and 12.3 of ECMA-262): what `trim` removes at both ends. */
  predicate IsWhitespace(c: char) {
    || c == '\t' || c == '\U{000B}' || c == '\U{000C}' || c == ' '
    || c == '\U{00A0}' || c == '\U{FEFF}'
    || c == '\U{1680}' || ('\U{2000}' <= c <= '\U{200A}')
    || c == '\U{202F}' || c == '\U{205F}' || c == '\U{3000}'
    || c == '\n' || c == '\r' || c == '\U{2028}' || c == '\U{2029}'
  }

  predicate AllWhitespace(s: string) {
    forall i :: 0 <= i < |s| ==> IsWhitespace(s[i])
  }

  /** `s` with its leading white space removed. */
  function TrimStart(s: string): (r: string)
    ensures |r| <= |s| && r == s[|s| - |r|..]
    ensures forall i :: 0 <= i < |s| - |r| ==> IsWhitespace(s[i])
    ensures r != [] ==> !IsWhitespace(r[0])
  {
    if s != [] && IsWhitespace(s[0]) then TrimStart(s[1..]) else s
  }

  /** `s` with its trailing white space removed. */
  function TrimEnd(s: string): (r: string)
    ensures |r| <= |s| && r == s[..|r|]
    ensures forall i :: |r| <= i < |s| ==> IsWhitespace(s[i])
    ensures r != [] ==> !IsWhitespace(r[|r| - 1])
  {
    if s != [] && IsWhitespace(s[|s| - 1]) then TrimEnd(s[..|s| - 1]) else s
  }

  /** The number of white-space code points at the start of `s`. */
  function LeadingWhitespace(s: string): nat {
    |s| - |TrimStart(s)|
  }

  /** `String.prototype.trim`: the infix of `s` left after removing white
      space at both ends. */
  function Trim(s: string): (r: string)
    ensures LeadingWhitespace(s) + |r| <= |s|
    ensures r == s[LeadingWhitespace(s)..LeadingWhitespace(s) + |r|]
    ensures forall i :: 0 <= i < LeadingWhitespace(s) ==> IsWhitespace(s[i])
    ensures forall i :: LeadingWhitespace(s) + |r| <= i < |s| ==> IsWhitespace(s[i])
    ensures r != [] ==> !IsWhitespace(r[0]) && !IsWhitespace(r[|r| - 1])
  {
    var t := TrimStart(s);
    var r := TrimEnd(t);
    assert r != [] ==> r[0] == t[0];
    r
  }

  /** Trimming gives the empty string exactly when every code point is white space. */
  lemma TrimEmptyIff(s: string)
    ensures Trim(s) == [] <==> AllWhitespace(s)
  {
    var r := Trim(s);
    if r != [] {
      var k := LeadingWhitespace(s);
      assert s[k] == r[0];
    }
  }

  /** Trimming a trimmed string changes nothing. */
  lemma TrimIdempotent(s: string)
    ensures Trim(Trim(s)) == Trim(s)
  {
    var r := Trim(s);
    assert TrimStart(r) == r;
    assert TrimEnd(r) == r;
  }

  // ---------------------------------------------------------------------
  // split(sep) and join(sep)

  /** `s.split(sep)` for a one-code-point separator: the pieces between
      separators, empty pieces included. */
  function Split(s: string, sep: char): (parts: seq<string>)
    ensures |parts| >= 1
    ensures forall i :: 0 <= i < |parts| ==> sep !in parts[i]
  {
    if s == [] then [[]]
    else
      var rest := Split(s[1..], sep);
      if s[0] == sep then [[]] + rest else [[s[0]] + rest[0]] + rest[1..]
  }

  /** `parts.join(sep)` as ECMA-262 states it: the first part, then for each
      further part the separator and that part, appended left to right. */
  function Join(parts: seq<string>, sep: string): string {
    if |parts| == 0 then []
    else if |parts| == 1 then parts[0]
    else Join(parts[..|parts| - 1], sep) + sep + parts[|parts| - 1]
  }

  /** Joining peels off at the front: the first part, the separator, the join of the rest. */
  lemma {:induction false} JoinCons(x: string, parts: seq<string>, sep: string)
    requires |parts| >= 1
    ensures Join([x] + parts, sep) == x + sep + Join(parts, sep)
  {
    var n := |parts|;
    if n > 1 {
      assert ([x] + parts)[..n] == [x] + parts[..n - 1];
      JoinCons(x, parts[..n - 1], sep);
    }
  }

  /** A join begins with its first part: nothing is put before it. */
  lemma {:induction false} JoinStartsWithFirst(parts: seq<string>, sep: string)
    requires |parts| >= 1
    ensures StartsWith(Join(parts, sep), parts[0])
  {
    var n := |parts|;
    if n > 1 {
      var front := parts[..n - 1];
      JoinStartsWithFirst(front, sep);
      var j := Join(front, sep);
      assert Join(parts, sep) == j + sep + parts[n - 1];
      assert (j + sep + parts[n - 1])[..|front[0]|] == j[..|front[0]|];
    }
  }

  /** Splitting on a separator and joining back with it restores the string. */
  lemma {:induction false} JoinSplit(s: string, sep: char)
    ensures Join(Split(s, sep), [sep]) == s
  {
    if s != [] {
      var rest := Split(s[1..], sep);
      var tail := s[1..];
      JoinSplit(tail, sep);
      assert Join(rest, [sep]) == tail;
      assert s == [s[0]] + tail;
      if s[0] == sep {
        assert Split(s, sep) == [[]] + rest;
        JoinCons([], rest, [sep]);
      } else if |rest| == 1 {
        assert Split(s, sep) == [[s[0]] + rest[0]];
        assert Join(rest, [sep]) == rest[0];
      } else {
        var more := rest[1..];
        assert rest == [rest[0]] + more;
        assert Split(s, sep) == [[s[0]] + rest[0]] + more;
        JoinCons([s[0]] + rest[0], more, [sep]);
        JoinCons(rest[0], more, [sep]);
      }
    }
  }

  /** The first piece of a split is everything before the first separator. */
  lemma {:induction false} SplitFirst(s: string, sep: char, k: nat)
    requires k <= |s| && sep !in s[..k] && (k == |s| || s[k] == sep)
    ensures Split(s, sep)[0] == s[..k]
    ensures k < |s| ==> |Split(s, sep)| >= 2 && Split(s, sep)[1..] == Split(s[k + 1..], sep)
  {
    if k > 0 {
      assert s[1..][..k - 1] == s[1..k];
      assert sep !in s[1..][..k - 1] by { assert forall i :: 0 <= i < k - 1 ==> s[1..][i] == s[..k][i + 1]; }
      SplitFirst(s[1..], sep, k - 1);
      if k < |s| {
        assert s[1..][k..] == s[k + 1..];
      }
      assert s[..k] == [s[0]] + s[1..k];
    }
  }

  // ---------------------------------------------------------------------
  // startsWith and includes

  predicate StartsWith(s: string, prefix: string) {
    |prefix| <= |s| && s[..|prefix|] == prefix
  }

  predicate EndsWith(s: string, suffix: string) {
    |suffix| <= |s| && s[|s| - |suffix|..] == suffix
  }

  /** `s.includes(t)`: `t` occurs in `s` at some position. */
  predicate Includes(s: string, t: string) {
    StartsWith(s, t) || (s != [] && Includes(s[1..], t))
  }

  lemma {:induction false} IncludesAt(s: string, t: string, i: nat)
    requires i <= |s| && StartsWith(s[i..], t)
    ensures Includes(s, t)
  {
    if i > 0 {
      assert s[1..][i - 1..] == s[i..];
      IncludesAt(s[1..], t, i - 1);
    }
  }

  lemma {:induction false} IncludesWitness(s: string, t: string) returns (i: nat)
    requires Includes(s, t)
    ensures i <= |s| && StartsWith(s[i..], t)
  {
    if StartsWith(s, t) {
      i := 0;
    } else {
      var j := IncludesWitness(s[1..], t);
      assert s[1..][j..] == s[j + 1..];
      i := j + 1;
    }
  }

  // ---------------------------------------------------------------------
  // Decimal rendering of non-negative integers (`${n}` in a template literal)

  predicate IsDigit(c: char) {
    '0' <= c <= '9'
  }

  function DigitChar(d: nat): (c: char)
    requires d < 10
    ensures IsDigit(c) && c as int - '0' as int == d
  {
    (d + '0' as int) as char
  }

  function NatToString(n: nat): (s: string)
    ensures |s| >= 1
    ensures forall i :: 0 <= i < |s| ==> IsDigit(s[i])
    ensures s[0] == '0' ==> s == "0"
  {
    if n < 10 then [DigitChar(n)] else NatToString(n / 10) + [DigitChar(n % 10)]
  }

  /** `${n}` for any integer: a minus sign before the digits of a negative one. */
  function IntToString(n: int): (s: string)
    ensures n >= 0 ==> s == NatToString(n)
    ensures n < 0 ==> s == "-" + NatToString(-n)
  {
    if n >= 0 then NatToString(n) else "-" + NatToString(-n)
  }

  /** The value of a string of decimal digits, most significant first. */
  function DigitsValue(s: string): nat
    requires forall i :: 0 <= i < |s| ==> IsDigit(s[i])
  {
    if s == [] then 0 else DigitsValue(s[..|s| - 1]) * 10 + DigitValue(s[|s| - 1])
  }

  function DigitValue(c: char): nat
    requires IsDigit(c)
  {
    c as int - '0' as int
  }

  /** The rendering reads back as the number: distinct ids give distinct texts. */
  lemma {:induction false} NatToStringValue(n: nat)
    ensures DigitsValue(NatToString(n)) == n
  {
    if n >= 10 {
      var s := NatToString(n);
      assert s[..|s| - 1] == NatToString(n / 10);
      NatToStringValue(n / 10);
    }
  }

  lemma NatToStringInjective(m: nat, n: nat)
    requires NatToString(m) == NatToString(n)
    ensures m == n
  {
    NatToStringValue(m);
    NatToStringValue(n);
  }

  /** `${m}` and `${n}` coincide only for equal integers. */
  lemma IntToStringInjective(m: int, n: int)
    requires IntToString(m) == IntToString(n)
    ensures m == n
  {
    if m >= 0 && n >= 0 {
      NatToStringInjective(m, n);
    } else if m < 0 && n < 0 {
      assert NatToString(-m) == IntToString(m)[1..] == NatToString(-n);
      NatToStringInjective(-m, -n);
    }
  }

  /** Two texts with the same prefix and the same suffix agree in between. */
  lemma FramedInjective(p: string, a: string, b: string, q: string)
    requires p + a + q == p + b + q
    ensures a == b
  {
    assert |a| == |b|;
    assert a == (p + a + q)[|p|..|p| + |a|];
    assert b == (p + b + q)[|p|..|p| + |b|];
  }
}
