/**
 * JavaScript string primitives the inventory tool relies on, over `string`
 * (a sequence of characters): the character classes of JS regular
 * expressions (`\s`, `\w`, `\d`, `.`), `String.prototype.trim`, a fixed
 * per-character case table, `includes`/`indexOf`, `split(k)[1]` and
 * `startsWith`.
 */
module Text {

  datatype Option<T> = None | Some(value: T)

  /** `\d` in a JS regular expression: ASCII digits only. */
  predicate IsDigit(c: char) {
    '0' <= c <= '9'
  }

  /** Length of the run of ASCII digits starting at `i`. */
  function DigitRun(s: string, i: nat): (n: nat)
    requires i <= |s|
    decreases |s| - i
    ensures i + n <= |s|
    ensures forall j :: i <= j < i + n ==> IsDigit(s[j])
    ensures i + n == |s| || !IsDigit(s[i + n])
  {
    if i < |s| && IsDigit(s[i]) then 1 + DigitRun(s, i + 1) else 0
  }

  /** `\w` in a JS regular expression without the `u` flag: ASCII only. */
  predicate IsWordChar(c: char) {
    'a' <= c <= 'z' || 'A' <= c <= 'Z' || IsDigit(c) || c == '_'
  }

  /** The JS LineTerminator production; `.` matches anything else. */
  predicate IsLineTerminator(c: char) {
    c == '\n' || c == '\r' || c == '\U{2028}' || c == '\U{2029}'
  }

  /** `\s` in a JS regular expression, and what `trim` removes:
      WhiteSpace (tab, VT, FF, space, NBSP, ZWNBSP, the Zs category) and
      LineTerminator. */
  predicate IsSpace(c: char) {
    || c == '\t' || c == '\U{000B}' || c == '\U{000C}' || c == ' '
    || c == '\U{00A0}' || c == '\U{1680}' || ('\U{2000}' <= c <= '\U{200A}')
    || c == '\U{202F}' || c == '\U{205F}' || c == '\U{3000}' || c == '\U{FEFF}'
    || IsLineTerminator(c)
  }

  predicate AllSpace(s: string) {
    forall i :: 0 <= i < |s| ==> IsSpace(s[i])
  }

  /** Leading white space removed. */
  function TrimStart(s: string): string
  {
    if s != [] && IsSpace(s[0]) then TrimStart(s[1..]) else s
  }

  /** `TrimStart` returns a suffix of its input that does not start with
      white space, having removed only white space. */
  lemma {:induction false} TrimStartShape(s: string)
    ensures var r := TrimStart(s);
      && |r| <= |s| && r == s[|s| - |r|..]
      && (r == [] || !IsSpace(r[0]))
      && AllSpace(s[..|s| - |r|])
  {
    if s != [] && IsSpace(s[0]) {
      TrimStartShape(s[1..]);
      var r := TrimStart(s);
      assert s[..|s| - |r|] == [s[0]] + s[1..][..|s| - 1 - |r|];
    }
  }

  /** Trailing white space removed. */
  function TrimEnd(s: string): string
  {
    if s != [] && IsSpace(s[|s| - 1]) then TrimEnd(s[..|s| - 1]) else s
  }

  /** `TrimEnd` returns a prefix of its input that does not end with white
      space, having removed only white space. */
  lemma {:induction false} TrimEndShape(s: string)
    ensures var r := TrimEnd(s);
      && |r| <= |s| && r == s[..|r|]
      && (r == [] || !IsSpace(r[|r| - 1]))
      && AllSpace(s[|r|..])
  {
    if s != [] && IsSpace(s[|s| - 1]) {
      var p := s[..|s| - 1];
      TrimEndShape(p);
      var r := TrimEnd(s);
      assert s[|r|..] == p[|r|..] + [s[|s| - 1]];
      assert p[..|r|] == s[..|r|];
    }
  }

  /** `String.prototype.trim`. */
  function Trim(s: string): (r: string)
  {
    TrimEnd(TrimStart(s))
  }

  /** A string `trim` leaves alone: it neither starts nor ends with white space. */
  predicate IsTrimmed(s: string) {
    s == [] || (!IsSpace(s[0]) && !IsSpace(s[|s| - 1]))
  }

  /** `trim` returns an infix of its input with no white space at either end,
      and returns the empty string exactly when the input is all white space. */
  lemma TrimProperties(s: string)
    ensures IsTrimmed(Trim(s))
    ensures |Trim(s)| <= |s|
    ensures Trim(s) == [] <==> AllSpace(s)
  {
    var t := TrimStart(s);
    var r := TrimEnd(t);
    TrimStartShape(s);
    TrimEndShape(t);
    if r != [] {
      assert r[0] == t[0];
    }
    if r == [] {
      assert s == s[..|s| - |t|] + t;
      forall i | 0 <= i < |s| ensures IsSpace(s[i]) {
        assert s[i] == s[..|s| - |t|][i];
      }
    }
  }

  /** On a string without white space at its ends, `trim` is the identity. */
  lemma TrimOfTrimmed(s: string)
    requires IsTrimmed(s)
    ensures Trim(s) == s
  {
  }

  /** `trim` is idempotent. */
  lemma TrimIdempotent(s: string)
    ensures Trim(Trim(s)) == Trim(s)
  {
    TrimProperties(s);
    TrimOfTrimmed(Trim(s));
  }

  /** `toLowerCase` on one character: ASCII and Latin-1 capitals. */
  function LowerChar(c: char): (r: char)
    ensures IsSpace(r) <==> IsSpace(c)
    ensures IsDigit(r) <==> IsDigit(c)
  {
    if 'A' <= c <= 'Z' || ('\U{00C0}' <= c <= '\U{00DE}' && c != '\U{00D7}') then
      (c as int + 32) as char
    else
      c
  }

  /** `toLowerCase`, one character at a time. */
  function Lower(s: string): (r: string)
    ensures |r| == |s|
    ensures forall i :: 0 <= i < |s| ==> r[i] == LowerChar(s[i])
  {
    seq(|s|, i requires 0 <= i < |s| => LowerChar(s[i]))
  }

  /** `toUpperCase` on one character, which can give two ('ß' is "SS"). */
  function UpperChar(c: char): (r: string)
    ensures 1 <= |r| <= 2
  {
    if 'a' <= c <= 'z' || ('\U{00E0}' <= c <= '\U{00FE}' && c != '\U{00F7}') then
      [(c as int - 32) as char]
    else if c == '\U{00DF}' then
      "SS"
    else if c == '\U{00FF}' then
      ['\U{0178}']
    else if c == '\U{00B5}' then
      ['\U{039C}']
    else
      [c]
  }

  /** `k` occurs in `s` starting at index `i`. */
  predicate OccursAt(s: string, k: string, i: int) {
    0 <= i && i + |k| <= |s| && s[i..i + |k|] == k
  }

  /** `s.indexOf(k, from)`, with `None` for -1. */
  function IndexOf(s: string, k: string, from: nat): (r: Option<nat>)
    requires from <= |s|
    decreases |s| - from
    ensures r.Some? ==> from <= r.value && OccursAt(s, k, r.value)
    ensures r.Some? ==> forall j :: from <= j < r.value ==> !OccursAt(s, k, j)
    ensures r.None? ==> forall j :: from <= j ==> !OccursAt(s, k, j)
  {
    if OccursAt(s, k, from) then Some(from)
    else if from == |s| then None
    else IndexOf(s, k, from + 1)
  }

  /** `s.includes(k)`. */
  predicate Contains(s: string, k: string) {
    IndexOf(s, k, 0).Some?
  }

  lemma ContainsAt(s: string, k: string, i: int)
    requires OccursAt(s, k, i)
    ensures Contains(s, k)
  {
  }

  /** An occurrence of `k` holds an occurrence of every infix of `k`. */
  lemma OccursInside(s: string, k: string, i: int, k2: string, o: int)
    requires OccursAt(s, k, i) && OccursAt(k, k2, o)
    ensures OccursAt(s, k2, i + o)
  {
    forall m | 0 <= m < |k2| ensures s[i + o + m] == k2[m] {
      assert s[i + o + m] == s[i..i + |k|][o + m];
      assert k2[m] == k[o..o + |k2|][m];
    }
  }

  /** `s.split(k)[1]` for a non-empty separator: the text between the first
      and the second occurrence of `k` (or the end), `None` for `undefined`. */
  function SecondPiece(s: string, k: string): (r: Option<string>)
    requires |k| > 0
    ensures r.Some? <==> Contains(s, k)
    ensures r.Some? ==>
      var start := IndexOf(s, k, 0).value + |k|;
      && start + |r.value| <= |s|
      && s[start..start + |r.value|] == r.value
      && (forall j :: start <= j < start + |r.value| ==> !OccursAt(s, k, j))
      && (start + |r.value| == |s| || OccursAt(s, k, start + |r.value|))
  {
    match IndexOf(s, k, 0)
    case None => None
    case Some(i) =>
      var start := i + |k|;
      match IndexOf(s, k, start)
      case None => Some(s[start..])
      case Some(j) => Some(s[start..j])
  }

  /** `s.startsWith(p)`. */
  predicate StartsWith(s: string, p: string) {
    |p| <= |s| && s[..|p|] == p
  }
}
