/**
 * JavaScript string primitives the application relies on, over `seq<char>`:
 * `trim`, the `\s` class, `toLowerCase`, `startsWith`, `includes`, `split`,
 * `join`, `Number(...)` and the default (code unit) string order of `sort`.
 */
module Text {

  type String = seq<char>

  /** ECMAScript WhiteSpace and LineTerminator: what `trim` strips and what `\s` matches. */
  predicate IsSpace(c: char) {
    || c == '\t' || c == '\n' || c == '\U{B}' || c == '\U{C}' || c == '\r' || c == ' '
    || c == '\U{A0}' || c == '\U{1680}' || ('\U{2000}' <= c <= '\U{200A}')
    || c == '\U{2028}' || c == '\U{2029}' || c == '\U{202F}' || c == '\U{205F}'
    || c == '\U{3000}' || c == '\U{FEFF}'
  }

  predicate IsDigit(c: char) { '0' <= c <= '9' }

  predicate IsAsciiUpper(c: char) { 'A' <= c <= 'Z' }

  predicate IsAsciiLower(c: char) { 'a' <= c <= 'z' }

  /** A string with no whitespace at either end, as `trim` leaves it. */
  predicate IsTrimmed(s: String) {
    s == [] || (!IsSpace(s[0]) && !IsSpace(s[|s| - 1]))
  }

  function LowerChar(c: char): char {
    if IsAsciiUpper(c) then (c as int - 'A' as int + 'a' as int) as char else c
  }

  /** `toLowerCase`, on the ASCII letters only. */
  function ToLower(s: String): (r: String)
    ensures |r| == |s|
    ensures forall i :: 0 <= i < |s| ==> r[i] == LowerChar(s[i])
  {
    seq(|s|, i requires 0 <= i < |s| => LowerChar(s[i]))
  }

  function TrimStart(s: String): String {
    if |s| > 0 && IsSpace(s[0]) then TrimStart(s[1..]) else s
  }

  function TrimEnd(s: String): String {
    if |s| > 0 && IsSpace(s[|s| - 1]) then TrimEnd(s[..|s| - 1]) else s
  }

  /** `trimStart` keeps a suffix that does not start with whitespace. */
  lemma {:induction false} TrimStartShape(s: String)
    ensures |TrimStart(s)| <= |s| && TrimStart(s) == s[|s| - |TrimStart(s)|..]
    ensures TrimStart(s) == [] || !IsSpace(TrimStart(s)[0])
  {
    if |s| > 0 && IsSpace(s[0]) {
      TrimStartShape(s[1..]);
    }
  }

  /** `trimEnd` keeps a prefix that does not end with whitespace. */
  lemma {:induction false} TrimEndShape(s: String)
    ensures |TrimEnd(s)| <= |s| && TrimEnd(s) == s[..|TrimEnd(s)|]
    ensures TrimEnd(s) == [] || !IsSpace(TrimEnd(s)[|TrimEnd(s)| - 1])
  {
    if |s| > 0 && IsSpace(s[|s| - 1]) {
      TrimEndShape(s[..|s| - 1]);
    }
  }

  /** `trim`: the longest infix of `s` with no whitespace at either end. */
  function Trim(s: String): (r: String)
    ensures IsTrimmed(r)
  {
    TrimEndOfTrimStart(s);
    TrimEnd(TrimStart(s))
  }

  lemma TrimEndOfTrimStart(s: String)
    ensures IsTrimmed(TrimEnd(TrimStart(s)))
  {
    var t := TrimStart(s);
    var r := TrimEnd(t);
    TrimStartShape(s);
    TrimEndShape(t);
    assert r != [] ==> r[0] == t[0];
  }

  /** `trim` only removes characters: one missing from `s` is missing from `trim(s)`. */
  lemma TrimAvoids(s: String, c: char)
    requires c !in s
    ensures c !in Trim(s)
  {
    var t := TrimStart(s);
    var r := TrimEnd(t);
    TrimStartShape(s);
    TrimEndShape(t);
    assert forall i :: 0 <= i < |r| ==> r[i] == s[|s| - |t| + i];
  }

  lemma TrimStartNoop(s: String)
    requires s == [] || !IsSpace(s[0])
    ensures TrimStart(s) == s
  {
  }

  lemma TrimEndNoop(s: String)
    requires s == [] || !IsSpace(s[|s| - 1])
    ensures TrimEnd(s) == s
  {
  }

  /** Trimming a trimmed string changes nothing (so `trim` is idempotent). */
  lemma TrimOfTrimmed(s: String)
    requires IsTrimmed(s)
    ensures Trim(s) == s
  {
    TrimStartNoop(s);
    TrimEndNoop(s);
  }

  /** Leading whitespace never survives a `trim`. */
  lemma {:induction false} TrimSkipsLeadingSpace(c: char, s: String)
    requires IsSpace(c)
    ensures Trim([c] + s) == Trim(s)
  {
    assert ([c] + s)[1..] == s;
  }

  /** `trim` of a string that starts with a non-space only cuts the end. */
  lemma TrimOfNonSpaceStart(s: String)
    requires s != [] && !IsSpace(s[0])
    ensures Trim(s) == TrimEnd(s)
  {
    TrimStartNoop(s);
  }

  /** Trailing whitespace after a non-space prefix is cut, the prefix is kept. */
  lemma {:induction false} TrimEndAppend(p: String, s: String)
    requires s == [] || !IsSpace(s[|s| - 1])
    ensures TrimEnd(p + s) == if s == [] then TrimEnd(p) else p + s
  {
    if s == [] {
      assert p + s == p;
    } else {
      TrimEndNoop(p + s);
    }
  }

  predicate StartsWith(s: String, prefix: String) {
    |prefix| <= |s| && s[..|prefix|] == prefix
  }

  /** `s.includes(q)`: `q` occurs as a contiguous piece of `s`. */
  predicate Includes(s: String, q: String) {
    StartsWith(s, q) || (|s| > 0 && Includes(s[1..], q))
  }

  /** `s.split(c)` for a one-character separator: never empty, the pieces hold no `c`. */
  function Split(s: String, c: char): (r: seq<String>)
    ensures |r| >= 1
    ensures forall k :: 0 <= k < |r| ==> c !in r[k]
  {
    if s == [] then [[]]
    else if s[0] == c then [[]] + Split(s[1..], c)
    else [[s[0]] + Split(s[1..], c)[0]] + Split(s[1..], c)[1..]
  }

  /** A string without the separator splits into itself alone. */
  lemma {:induction false} SplitWithoutSeparator(s: String, c: char)
    requires c !in s
    ensures Split(s, c) == [s]
  {
    if s != [] {
      SplitWithoutSeparator(s[1..], c);
      assert [s[0]] + s[1..] == s;
    }
  }

  /** The first piece of a split ends at the first separator. */
  lemma {:induction false} SplitAtSeparator(a: String, c: char, b: String)
    requires c !in a
    ensures Split(a + [c] + b, c) == [a] + Split(b, c)
  {
    if a == [] {
      assert a + [c] + b == [c] + b;
      assert ([c] + b)[1..] == b;
    } else {
      var s := a + [c] + b;
      assert s[0] == a[0] && s[1..] == a[1..] + [c] + b;
      SplitAtSeparator(a[1..], c, b);
      assert [a[0]] + a[1..] == a;
    }
  }

  /** `parts.join(sep)`. */
  function Join(parts: seq<String>, sep: String): String {
    if parts == [] then []
    else if |parts| == 1 then parts[0]
    else parts[0] + sep + Join(parts[1..], sep)
  }

  /** A JavaScript number as far as this application can produce one: an integer or NaN. */
  datatype Num = NaN | Finite(value: int)

  function Add(a: Num, b: Num): Num {
    if a.Finite? && b.Finite? then Finite(a.value + b.value) else NaN
  }

  function Scale(k: int, a: Num): Num {
    if a.Finite? then Finite(k * a.value) else NaN
  }

  predicate AllDigits(s: String) {
    forall i :: 0 <= i < |s| ==> IsDigit(s[i])
  }

  /** The value of a string of decimal digits. */
  function DigitsValue(s: String): (n: nat)
    requires AllDigits(s)
  {
    if s == [] then 0 else 10 * DigitsValue(s[..|s| - 1]) + (s[|s| - 1] as int - '0' as int)
  }

  /**
   * `Number(s)` for the strings a duration is made of: surrounding whitespace
   * is ignored, the empty string is 0, decimal digits give their value and
   * everything else is NaN.
   */
  function ToNumber(s: String): (r: Num)
    ensures r.Finite? ==> r.value >= 0
    ensures AllDigits(s) ==> r == Finite(if s == [] then 0 else DigitsValue(s))
  {
    var t := Trim(s);
    assert AllDigits(s) ==> t == s by {
      if AllDigits(s) { TrimOfTrimmed(s); }
    }
    if t == [] then Finite(0) else if AllDigits(t) then Finite(DigitsValue(t)) else NaN
  }

  /** The decimal digits of a natural number (template-literal interpolation). */
  function NatToString(n: nat): (r: String)
    ensures r != [] && AllDigits(r)
  {
    var d := ['0' + (n % 10) as char];
    if n < 10 then d else NatToString(n / 10) + d
  }

  /** The default order of `Array.prototype.sort` on strings: lexicographic by character. */
  predicate Less(a: String, b: String) {
    if a == [] then b != []
    else if b == [] then false
    else if a[0] != b[0] then a[0] < b[0]
    else Less(a[1..], b[1..])
  }

  lemma {:induction false} LessIrreflexive(a: String)
    ensures !Less(a, a)
  {
    if a != [] { LessIrreflexive(a[1..]); }
  }

  lemma {:induction false} LessTransitive(a: String, b: String, c: String)
    requires Less(a, b) && Less(b, c)
    ensures Less(a, c)
  {
    if a != [] && b != [] && c != [] && a[0] == b[0] == c[0] {
      LessTransitive(a[1..], b[1..], c[1..]);
    }
  }

  lemma {:induction false} LessTotal(a: String, b: String)
    requires a != b
    ensures Less(a, b) || Less(b, a)
  {
    if a != [] && b != [] && a[0] == b[0] {
      assert a == [a[0]] + a[1..] && b == [b[0]] + b[1..];
      LessTotal(a[1..], b[1..]);
    }
  }
}
