/** The parts of Python's `str` semantics that the bot relies on: the
    whitespace class shared by `str.isspace`, `str.strip` and the `\s` of a
    `re` pattern, ASCII digits and letters, `str.replace` for the two
    replacements the bot makes, `str(int)`, `int(str)`, `str.join`,
    `str.startswith` and `repr` of a string. */
module PyText {
  import opened Wrappers

  /** `str.isspace()`, which is also what `\s` matches in a `str` pattern. */
  predicate IsSpace(c: char) {
    || ('\t' <= c <= '\r')
    || ('\U{1C}' <= c <= ' ')
    || c == '\U{85}' || c == '\U{A0}' || c == '\U{1680}'
    || ('\U{2000}' <= c <= '\U{200A}')
    || c == '\U{2028}' || c == '\U{2029}' || c == '\U{202F}' || c == '\U{205F}' || c == '\U{3000}'
  }

  /** The ASCII digits; `\d` also matches other Unicode decimal digits, which
      the model leaves out. */
  predicate IsDigit(c: char) {
    '0' <= c <= '9'
  }

  /** `[a-zA-Z]` */
  predicate IsLetter(c: char) {
    ('a' <= c <= 'z') || ('A' <= c <= 'Z')
  }

  predicate IsDigits(s: string) {
    forall i :: 0 <= i < |s| ==> IsDigit(s[i])
  }

  /** `str.lower()` on an ASCII character. */
  function Lower(c: char): (r: char)
    ensures IsLetter(c) ==> 'a' <= r <= 'z'
    ensures !('A' <= c <= 'Z') ==> r == c
  {
    if 'A' <= c <= 'Z' then (c as int + 32) as char else c
  }

  /** The first position at or after `i` that is not whitespace (what a
      greedy `\s*` consumes). */
  function SkipSpaces(s: string, i: nat): (j: nat)
    requires i <= |s|
    ensures i <= j <= |s|
    ensures forall k :: i <= k < j ==> IsSpace(s[k])
    ensures j < |s| ==> !IsSpace(s[j])
    decreases |s| - i
  {
    if i < |s| && IsSpace(s[i]) then SkipSpaces(s, i + 1) else i
  }

  /** The first position at or after `i` that is not a digit (what a greedy
      `\d*` consumes). */
  function SkipDigits(s: string, i: nat): (j: nat)
    requires i <= |s|
    ensures i <= j <= |s|
    ensures forall k :: i <= k < j ==> IsDigit(s[k])
    ensures j < |s| ==> !IsDigit(s[j])
    decreases |s| - i
  {
    if i < |s| && IsDigit(s[i]) then SkipDigits(s, i + 1) else i
  }

  /** The end of `s[..j]` once trailing whitespace is dropped. */
  function TrimEnd(s: string, j: nat): (k: nat)
    requires j <= |s|
    ensures k <= j
    ensures forall i :: k <= i < j ==> IsSpace(s[i])
    ensures 0 < k ==> !IsSpace(s[k - 1])
  {
    if 0 < j && IsSpace(s[j - 1]) then TrimEnd(s, j - 1) else j
  }

  /** Neither end of `s` is whitespace. */
  predicate IsTrimmed(s: string) {
    s == [] || (!IsSpace(s[0]) && !IsSpace(s[|s| - 1]))
  }

  /** `str.strip()` */
  function Strip(s: string): (r: string)
    ensures |r| <= |s|
    ensures IsTrimmed(r)
    ensures r == [] <==> forall i :: 0 <= i < |s| ==> IsSpace(s[i])
    ensures IsTrimmed(s) ==> r == s
  {
    var a := SkipSpaces(s, 0);
    var b := TrimEnd(s, |s|);
    if a < b then s[a..b] else []
  }

  /** `str.replace('\n', ' ')` */
  function NewlinesToSpaces(s: string): (r: string)
    ensures |r| == |s|
    ensures forall i :: 0 <= i < |s| ==> r[i] == (if s[i] == '\n' then ' ' else s[i])
    ensures '\n' !in r
  {
    seq(|s|, i requires 0 <= i < |s| => if s[i] == '\n' then ' ' else s[i])
  }

  lemma NewlinesToSpacesIdentity(s: string)
    requires '\n' !in s
    ensures NewlinesToSpaces(s) == s
  {
  }

  predicate HasCrLf(s: string) {
    exists i :: 0 <= i < |s| - 1 && s[i] == '\r' && s[i + 1] == '\n'
  }

  /** `str.replace('\r\n', '\n')`: occurrences are replaced left to right. */
  function ReplaceCrLf(s: string): (r: string)
    ensures |r| <= |s|
    decreases |s|
  {
    if |s| >= 2 && s[0] == '\r' && s[1] == '\n' then "\n" + ReplaceCrLf(s[2..])
    else if s == [] then []
    else [s[0]] + ReplaceCrLf(s[1..])
  }

  lemma {:induction false} ReplaceCrLfIdentity(s: string)
    requires !HasCrLf(s)
    ensures ReplaceCrLf(s) == s
    decreases |s|
  {
    if s != [] {
      assert !(|s| >= 2 && s[0] == '\r' && s[1] == '\n');
      forall i | 0 <= i < |s[1..]| - 1
        ensures !(s[1..][i] == '\r' && s[1..][i + 1] == '\n')
      {
        assert s[1..][i] == s[i + 1] && s[1..][i + 1] == s[i + 2];
      }
      ReplaceCrLfIdentity(s[1..]);
    }
  }

  /** The character of a decimal digit value. */
  function DigitChar(d: nat): (c: char)
    requires d < 10
    ensures IsDigit(c)
  {
    ('0' as int + d) as char
  }

  /** The value of a digit character. */
  function DigitValue(c: char): (d: nat)
    requires IsDigit(c)
    ensures d < 10 && DigitChar(d) == c
  {
    c as int - '0' as int
  }

  /** `str(n)` for a natural number: its decimal digits, most significant
      first, without leading zeros. */
  function NatToString(n: nat): (r: string)
    ensures |r| > 0 && IsDigits(r)
    ensures |r| > 1 ==> r[0] != '0'
    decreases n
  {
    if n < 10 then [DigitChar(n)] else NatToString(n / 10) + [DigitChar(n % 10)]
  }

  /** `str(i)` for an integer. */
  function IntToString(i: int): (r: string)
    ensures |r| > 0 && IsTrimmed(r)
    ensures 0 <= i ==> r == NatToString(i)
  {
    if i < 0 then "-" + NatToString(-i) else NatToString(i)
  }

  /** The digits of an `int()` literal: a digit first, and every `_` followed
      by a digit (Python's `digit (["_"] digit)*`). */
  predicate IsDigitPart(s: string) {
    && |s| > 0
    && IsDigit(s[0])
    && forall i :: 0 <= i < |s| ==> IsDigit(s[i]) || (s[i] == '_' && i + 1 < |s| && IsDigit(s[i + 1]))
  }

  /** The value of a digit part, underscores ignored. */
  function DigitsValue(s: string): nat
    decreases |s|
  {
    if s == [] then 0
    else if IsDigit(s[|s| - 1]) then DigitsValue(s[..|s| - 1]) * 10 + DigitValue(s[|s| - 1])
    else DigitsValue(s[..|s| - 1])
  }

  /** `int(s)` in base 10: surrounding whitespace, an optional sign, then a
      digit part; `None` where Python raises `ValueError`. */
  function PyInt(s: string): Option<int> {
    var t := Strip(s);
    if |t| > 0 && (t[0] == '-' || t[0] == '+') then
      var v: int := DigitsValue(t[1..]);
      if IsDigitPart(t[1..]) then Some(if t[0] == '-' then -v else v) else None
    else if IsDigitPart(t) then Some(DigitsValue(t))
    else None
  }

  lemma {:induction false} NatToStringValue(n: nat)
    ensures DigitsValue(NatToString(n)) == n
    decreases n
  {
    var r := NatToString(n);
    if n < 10 {
      assert r[..|r| - 1] == [];
    } else {
      NatToStringValue(n / 10);
      assert r[..|r| - 1] == NatToString(n / 10);
    }
  }

  /** `int(str(i)) == i` */
  lemma IntToStringParses(i: int)
    ensures PyInt(IntToString(i)) == Some(i)
  {
    var r := IntToString(i);
    var n: nat := if i < 0 then -i else i;
    NatToStringValue(n);
    assert Strip(r) == r;
    if i < 0 {
      assert r[1..] == NatToString(n);
    }
  }

  /** `sep.join(parts)` */
  function Join(sep: string, parts: seq<string>): string
    decreases |parts|
  {
    if |parts| == 0 then []
    else if |parts| == 1 then parts[0]
    else parts[0] + sep + Join(sep, parts[1..])
  }

  /** `p in s` for strings */
  predicate Contains(s: string, p: string) {
    exists i :: 0 <= i <= |s| && OccursAt(s, p, i)
  }

  predicate OccursAt(s: string, p: string, i: int) {
    0 <= i <= |s| - |p| && s[i..i + |p|] == p
  }

  /** Every part of a join appears in the joined string. */
  lemma {:induction false} JoinContains(sep: string, parts: seq<string>, k: nat)
    requires k < |parts|
    ensures Contains(Join(sep, parts), parts[k])
    decreases |parts|
  {
    var j := Join(sep, parts);
    if |parts| == 1 {
      assert OccursAt(j, parts[0], 0);
    } else if k == 0 {
      assert j == parts[0] + (sep + Join(sep, parts[1..]));
      assert OccursAt(j, parts[0], 0);
    } else {
      JoinContains(sep, parts[1..], k - 1);
      var rest := Join(sep, parts[1..]);
      assert parts[1..][k - 1] == parts[k];
      var i :| 0 <= i <= |rest| && OccursAt(rest, parts[k], i);
      assert i + |parts[k]| <= |rest| && rest[i..i + |parts[k]|] == parts[k];
      var off := |parts[0]| + |sep|;
      assert j == (parts[0] + sep) + rest;
      assert j[off + i..off + i + |parts[k]|] == rest[i..i + |parts[k]|];
      assert OccursAt(j, parts[k], off + i);
    }
  }

  /** Text around a string keeps what it contains. */
  lemma ContainsWithin(head: string, s: string, tail: string, p: string)
    requires Contains(s, p)
    ensures Contains(head + s + tail, p)
  {
    var i :| 0 <= i <= |s| && OccursAt(s, p, i);
    var t := head + s + tail;
    assert t == head + (s + tail);
    assert t[|head| + i..|head| + i + |p|] == s[i..i + |p|];
    assert OccursAt(t, p, |head| + i);
  }

  /** `s.startswith(p)` */
  predicate StartsWith(s: string, p: string) {
    |p| <= |s| && s[..|p|] == p
  }

  /** `s.endswith(p)` */
  predicate EndsWith(s: string, p: string) {
    |p| <= |s| && s[|s| - |p|..] == p
  }

  function HexDigit(d: nat): char
    requires d < 16
  {
    if d < 10 then DigitChar(d) else ('a' as int + d - 10) as char
  }

  /** The quote `repr` puts around `s`: a single quote, unless `s` holds a
      single quote and no double quote. */
  function ReprQuote(s: string): char {
    if '\'' in s && '"' !in s then '"' else '\''
  }

  /** How `repr` writes one character inside quotes `q` (ASCII escapes). */
  function ReprChar(c: char, q: char): string {
    if c == q || c == '\\' then ['\\', c]
    else if c == '\t' then "\\t"
    else if c == '\n' then "\\n"
    else if c == '\r' then "\\r"
    else if c < ' ' || c == '\U{7F}' then "\\x" + [HexDigit(c as int / 16), HexDigit(c as int % 16)]
    else [c]
  }

  function ReprBody(s: string, q: char): string
    decreases |s|
  {
    if s == [] then [] else ReprChar(s[0], q) + ReprBody(s[1..], q)
  }

  /** `repr(s)` */
  function PyRepr(s: string): string {
    var q := ReprQuote(s);
    [q] + ReprBody(s, q) + [q]
  }

  /** Concatenation regroups freely. */
  lemma AppendAssoc(a: string, b: string, c: string)
    ensures (a + b) + c == a + (b + c)
  {
  }

  /** A concatenation starts with its first part and ends with its second. */
  lemma ConcatEnds(a: string, b: string)
    ensures StartsWith(a + b, a) && EndsWith(a + b, b)
  {
    assert (a + b)[..|a|] == a;
    assert (a + b)[|a|..] == b;
  }

  /** A concatenation contains whatever either part contains. */
  lemma ContainsConcat(a: string, b: string, p: string)
    requires Contains(a, p) || Contains(b, p)
    ensures Contains(a + b, p)
  {
    if Contains(a, p) {
      var i :| 0 <= i <= |a| && OccursAt(a, p, i);
      assert (a + b)[i..i + |p|] == a[i..i + |p|];
      assert OccursAt(a + b, p, i);
    } else {
      var i :| 0 <= i <= |b| && OccursAt(b, p, i);
      assert (a + b)[|a| + i..|a| + i + |p|] == b[i..i + |p|];
      assert OccursAt(a + b, p, |a| + i);
    }
  }
}
