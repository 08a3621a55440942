/**
 * The JavaScript (and SQLite/Python) string built-ins that the modelled code
 * calls: trim, toLowerCase, includes, startsWith, indexOf, replace with a
 * string pattern, split on one character, join, parseInt with radix 16,
 * the decimal rendering of a non-negative integer and the runs matched by
 * the regular expression /\d+/g.
 */
module JsText {

  datatype Option<T> = None | Some(value: T)

  // ---------------------------------------------------------------------------
  // Character classes
  // ---------------------------------------------------------------------------

  /** ECMAScript WhiteSpace and LineTerminator: the code points trim() removes. */
  predicate IsWhitespace(c: char) {
    || c == '\t' || c == '\n' || c == '\U{B}' || c == '\U{C}' || c == '\r'
    || c == ' ' || c == '\U{A0}' || c == '\U{1680}'
    || ('\U{2000}' <= c <= '\U{200A}')
    || c == '\U{2028}' || c == '\U{2029}' || c == '\U{202F}' || c == '\U{205F}'
    || c == '\U{3000}' || c == '\U{FEFF}'
  }

  predicate IsAsciiUpper(c: char) { 'A' <= c <= 'Z' }
  predicate IsAsciiLower(c: char) { 'a' <= c <= 'z' }
  predicate IsDigit(c: char) { '0' <= c <= '9' }
  predicate IsHexDigit(c: char) { IsDigit(c) || 'a' <= c <= 'f' || 'A' <= c <= 'F' }

  function HexDigitValue(c: char): (v: nat)
    requires IsHexDigit(c)
    ensures v < 16
  {
    if IsDigit(c) then c as int - '0' as int
    else if 'a' <= c <= 'f' then c as int - 'a' as int + 10
    else c as int - 'A' as int + 10
  }

  function LowerChar(c: char): (d: char)
    ensures IsAsciiUpper(c) ==> IsAsciiLower(d)
    ensures !IsAsciiUpper(c) ==> d == c
  {
    if IsAsciiUpper(c) then (c as int + 32) as char else c
  }

  function UpperChar(c: char): (d: char)
    ensures IsAsciiLower(c) ==> IsAsciiUpper(d)
    ensures !IsAsciiLower(c) ==> d == c
  {
    if IsAsciiLower(c) then (c as int - 32) as char else c
  }

  /** toLowerCase / SQLite LOWER, on the ASCII letters. */
  function ToLower(s: string): (r: string)
    ensures |r| == |s|
    ensures forall i :: 0 <= i < |s| ==> r[i] == LowerChar(s[i])
  {
    if s == [] then [] else [LowerChar(s[0])] + ToLower(s[1..])
  }

  /** toUpperCase / SQLite UPPER, on the ASCII letters. */
  function ToUpper(s: string): (r: string)
    ensures |r| == |s|
    ensures forall i :: 0 <= i < |s| ==> r[i] == UpperChar(s[i])
  {
    if s == [] then [] else [UpperChar(s[0])] + ToUpper(s[1..])
  }

  /** Text without a lower-case ASCII letter is its own upper case. */
  lemma UpperOfUpper(s: string)
    requires forall i :: 0 <= i < |s| ==> !IsAsciiLower(s[i])
    ensures ToUpper(s) == s
  {
  }

  // ---------------------------------------------------------------------------
  // trim
  // ---------------------------------------------------------------------------

  function TrimStart(s: string): (r: string)
    ensures |r| <= |s| && r == s[|s| - |r|..]
    ensures r == [] || !IsWhitespace(r[0])
    ensures forall i :: 0 <= i < |s| - |r| ==> IsWhitespace(s[i])
  {
    if s != [] && IsWhitespace(s[0]) then
      var r := TrimStart(s[1..]);
      assert forall i :: 1 <= i < |s| - |r| ==> s[i] == s[1..][i - 1];
      r
    else s
  }

  function TrimEnd(s: string): (r: string)
    ensures |r| <= |s| && r == s[..|r|]
    ensures r == [] || !IsWhitespace(r[|r| - 1])
    ensures forall i :: |r| <= i < |s| ==> IsWhitespace(s[i])
  {
    if s != [] && IsWhitespace(s[|s| - 1]) then
      var r := TrimEnd(s[..|s| - 1]);
      assert forall i :: |r| <= i < |s| - 1 ==> s[i] == s[..|s| - 1][i];
      r
    else s
  }

  /** String.prototype.trim. */
  function Trim(s: string): (r: string)
    ensures r == [] || (!IsWhitespace(r[0]) && !IsWhitespace(r[|r| - 1]))
  {
    TrimEnd(TrimStart(s))
  }

  /** trim() leaves a string without surrounding whitespace as it is. */
  lemma TrimTrimmed(s: string)
    requires s == [] || (!IsWhitespace(s[0]) && !IsWhitespace(s[|s| - 1]))
    ensures Trim(s) == s
  {
  }

  /** trim() only removes characters: a character absent before is absent after. */
  lemma TrimKeepsAbsent(s: string, c: char)
    ensures c !in s ==> c !in Trim(s)
  {
    var t := TrimStart(s);
    var u := TrimEnd(t);
    assert Trim(s) == u;
    forall i | 0 <= i < |u|
      ensures u[i] == s[|s| - |t| + i]
    {
      assert u[i] == t[i];
    }
  }

  // ---------------------------------------------------------------------------
  // Searching
  // ---------------------------------------------------------------------------

  predicate StartsWith(s: string, prefix: string) {
    |prefix| <= |s| && s[..|prefix|] == prefix
  }

  predicate OccursAt(s: string, p: string, i: int) {
    0 <= i && i + |p| <= |s| && s[i..i + |p|] == p
  }

  /** String.prototype.indexOf: the first position at which p occurs. */
  function IndexOf(s: string, p: string): (r: Option<nat>)
    ensures r.Some? ==> OccursAt(s, p, r.value)
    ensures r.Some? ==> forall j :: 0 <= j < r.value ==> !OccursAt(s, p, j)
    ensures r.None? ==> forall j :: !OccursAt(s, p, j)
    decreases |s|
  {
    if StartsWith(s, p) then Some(0)
    else if s == [] then None
    else
      var rest := IndexOf(s[1..], p);
      OccursShift(s, p);
      match rest
      case None => None
      case Some(k) => Some(k + 1)
  }

  /** An occurrence past the first character is an occurrence in the tail, one place earlier. */
  lemma OccursShift(s: string, p: string)
    requires s != []
    ensures forall j :: 1 <= j ==> (OccursAt(s, p, j) <==> OccursAt(s[1..], p, j - 1))
  {
    forall j | 1 <= j
      ensures OccursAt(s, p, j) <==> OccursAt(s[1..], p, j - 1)
    {
      if j + |p| <= |s| {
        assert s[1..][j - 1..j - 1 + |p|] == s[j..j + |p|];
      }
    }
  }

  /** String.prototype.includes. */
  predicate Includes(s: string, p: string) {
    IndexOf(s, p).Some?
  }

  lemma IncludesAt(s: string, p: string, i: int)
    requires OccursAt(s, p, i)
    ensures Includes(s, p)
  {
  }

  /** An occurrence of p inside a longer pattern q is an occurrence of p. */
  lemma IncludesInfix(s: string, p: string, q: string, k: nat)
    requires Includes(s, q)
    requires OccursAt(q, p, k)
    ensures Includes(s, p)
  {
    var i := IndexOf(s, q).value;
    assert s[i..i + |q|] == q;
    assert s[i + k..i + k + |p|] == s[i..i + |q|][k..k + |p|];
    IncludesAt(s, p, i + k);
  }

  /** String.prototype.replace with a string pattern: only the first occurrence. */
  function ReplaceFirst(s: string, p: string, r: string): (t: string)
    ensures IndexOf(s, p).None? ==> t == s
    ensures IndexOf(s, p).Some? ==>
              var i := IndexOf(s, p).value;
              t == s[..i] + r + s[i + |p|..]
  {
    match IndexOf(s, p)
    case None => s
    case Some(i) => s[..i] + r + s[i + |p|..]
  }

  // ---------------------------------------------------------------------------
  // split and join
  // ---------------------------------------------------------------------------

  /** The position of the first c in s, or |s|. */
  function CharIndex(s: string, c: char): (i: nat)
    ensures i <= |s|
    ensures i < |s| ==> s[i] == c
    ensures c !in s[..i]
  {
    if s == [] then 0
    else if s[0] == c then 0
    else
      var k := CharIndex(s[1..], c);
      assert s[..k + 1] == [s[0]] + s[1..][..k];
      1 + k
  }

  /** String.prototype.split with a one-character separator. */
  function Split(s: string, sep: char): (parts: seq<string>)
    ensures |parts| >= 1
    ensures forall k :: 0 <= k < |parts| ==> sep !in parts[k]
    decreases |s|
  {
    var i := CharIndex(s, sep);
    if i == |s| then
      assert s[..i] == s;
      [s]
    else [s[..i]] + Split(s[i + 1..], sep)
  }

  /** Array.prototype.join. */
  function Join(xs: seq<string>, sep: string): string
  {
    if xs == [] then ""
    else if |xs| == 1 then xs[0]
    else xs[0] + sep + Join(xs[1..], sep)
  }

  /** Splitting undoes joining when no element contains the separator. */
  lemma {:induction false} SplitJoin(xs: seq<string>, sep: char)
    requires |xs| >= 1
    requires forall k :: 0 <= k < |xs| ==> sep !in xs[k]
    ensures Split(Join(xs, [sep]), sep) == xs
  {
    if |xs| == 1 {
      assert CharIndex(xs[0], sep) == |xs[0]|;
    } else {
      var rest := Join(xs[1..], [sep]);
      var s := xs[0] + [sep] + rest;
      CharIndexPast(xs[0], sep, rest);
      assert s[..|xs[0]|] == xs[0];
      assert s[|xs[0]| + 1..] == rest;
      SplitJoin(xs[1..], sep);
    }
  }

  lemma {:induction false} CharIndexPast(a: string, c: char, b: string)
    requires c !in a
    ensures CharIndex(a + [c] + b, c) == |a|
  {
    var s := a + [c] + b;
    if a != [] {
      assert s[1..] == a[1..] + [c] + b;
      CharIndexPast(a[1..], c, b);
    }
  }

  /** Joining undoes splitting. */
  lemma {:induction false} JoinSplit(s: string, sep: char)
    ensures Join(Split(s, sep), [sep]) == s
    decreases |s|
  {
    var i := CharIndex(s, sep);
    if i == |s| {
      assert s[..i] == s;
    } else {
      var rest := Split(s[i + 1..], sep);
      assert Split(s, sep) == [s[..i]] + rest;
      JoinSplit(s[i + 1..], sep);
      assert Join([s[..i]] + rest, [sep]) == s[..i] + [sep] + Join(rest, [sep]);
      assert s == s[..i] + [sep] + s[i + 1..];
    }
  }

  /** Joining a concatenation is joining the halves around one more separator. */
  lemma {:induction false} JoinAppend(a: seq<string>, b: seq<string>, sep: string)
    requires |a| >= 1 && |b| >= 1
    ensures Join(a + b, sep) == Join(a, sep) + sep + Join(b, sep)
  {
    if |a| == 1 {
      assert (a + b)[1..] == b;
    } else {
      assert (a + b)[1..] == a[1..] + b;
      JoinAppend(a[1..], b, sep);
    }
  }

  /** A join starts with its first element. */
  lemma JoinStartsWithFirst(xs: seq<string>, sep: string)
    requires |xs| >= 1
    ensures |Join(xs, sep)| >= |xs[0]|
  {
  }

  // ---------------------------------------------------------------------------
  // Numbers as text
  // ---------------------------------------------------------------------------

  function DigitChar(d: nat): char
    requires d < 10
  {
    ('0' as int + d) as char
  }

  /** The decimal rendering of a non-negative integer, as String(n) gives it. */
  function NatToString(n: nat): (s: string)
    ensures |s| >= 1
    ensures forall i :: 0 <= i < |s| ==> IsDigit(s[i])
  {
    if n < 10 then [DigitChar(n)] else NatToString(n / 10) + [DigitChar(n % 10)]
  }

  function DigitValue(c: char): (v: nat)
    requires IsDigit(c)
    ensures v < 10
  {
    c as int - '0' as int
  }

  /** The value of a run of decimal digits, as Number(text) gives it. */
  function DecimalValue(s: string): nat
    requires forall i :: 0 <= i < |s| ==> IsDigit(s[i])
  {
    if s == [] then 0 else 10 * DecimalValue(s[..|s| - 1]) + DigitValue(s[|s| - 1])
  }

  lemma {:induction false} DecimalRoundTrip(n: nat)
    ensures DecimalValue(NatToString(n)) == n
  {
    if n >= 10 {
      var s := NatToString(n);
      assert s[..|s| - 1] == NatToString(n / 10);
      DecimalRoundTrip(n / 10);
    }
  }

  /** The value of a run of hexadecimal digits. */
  function HexValue(s: string): nat
    requires forall i :: 0 <= i < |s| ==> IsHexDigit(s[i])
  {
    if s == [] then 0 else 16 * HexValue(s[..|s| - 1]) + HexDigitValue(s[|s| - 1])
  }

  /** The longest prefix of s made of hexadecimal digits. */
  function HexPrefix(s: string): (p: string)
    ensures |p| <= |s| && p == s[..|p|]
    ensures forall i :: 0 <= i < |p| ==> IsHexDigit(p[i])
    ensures |p| < |s| ==> !IsHexDigit(s[|p|])
  {
    if s != [] && IsHexDigit(s[0]) then
      var rest := HexPrefix(s[1..]);
      assert [s[0]] + rest == s[..|rest| + 1];
      [s[0]] + rest
    else []
  }

  /** Drops one leading sign character. */
  function DropSign(t: string): string {
    if t != [] && (t[0] == '-' || t[0] == '+') then t[1..] else t
  }

  /** Drops a leading 0x or 0X, as parseInt does for radix 16. */
  function DropHexPrefix(u: string): string {
    if |u| >= 2 && u[0] == '0' && (u[1] == 'x' || u[1] == 'X') then u[2..] else u
  }

  /**
   * parseInt(s, 16): leading white space skipped, an optional sign, an
   * optional 0x or 0X prefix, then the longest run of hexadecimal digits.
   * None stands for NaN (no digit at all).
   */
  function ParseInt16(s: string): Option<int>
  {
    var t := TrimStart(s);
    var digits := HexPrefix(DropHexPrefix(DropSign(t)));
    if digits == [] then None
    else
      var n: int := HexValue(digits);
      if t[0] == '-' then Some(-n) else Some(n)
  }

  lemma HexDigitIsPlain(c: char)
    requires IsHexDigit(c)
    ensures !IsWhitespace(c) && c != '-' && c != '+'
  {
  }

  lemma HexPrefixAll(s: string)
    requires forall i :: 0 <= i < |s| ==> IsHexDigit(s[i])
    ensures HexPrefix(s) == s
  {
    var p := HexPrefix(s);
    assert |p| == |s|;
  }

  /** On a non-empty run of hexadecimal digits without a 0x prefix, parseInt reads its value. */
  lemma ParseInt16Digits(s: string)
    requires s != [] && forall i :: 0 <= i < |s| ==> IsHexDigit(s[i])
    requires !StartsWith(s, "0x") && !StartsWith(s, "0X")
    ensures ParseInt16(s) == Some(HexValue(s))
  {
    HexDigitIsPlain(s[0]);
    TrimStartPlain(s);
    if |s| >= 2 {
      NoHexPrefix(s);
    }
    HexPrefixAll(s);
    ParseInt16Plain(s);
  }

  lemma TrimStartPlain(s: string)
    requires s != [] && !IsWhitespace(s[0])
    ensures TrimStart(s) == s
  {
  }

  lemma ParseInt16Plain(s: string)
    requires s != [] && TrimStart(s) == s && s[0] != '-' && s[0] != '+'
    requires !(|s| >= 2 && s[0] == '0' && (s[1] == 'x' || s[1] == 'X'))
    requires HexPrefix(s) == s
    ensures ParseInt16(s) == Some(HexValue(s))
  {
    assert DropSign(s) == s;
    assert DropHexPrefix(s) == s;
  }

  lemma NoHexPrefix(s: string)
    requires |s| >= 2 && !StartsWith(s, "0x") && !StartsWith(s, "0X")
    ensures !(s[0] == '0' && (s[1] == 'x' || s[1] == 'X'))
  {
    assert s[..2] == [s[0], s[1]];
  }

  // ---------------------------------------------------------------------------
  // The matches of /\d+/g
  // ---------------------------------------------------------------------------

  /** The longest prefix of s made of decimal digits. */
  function DigitPrefix(s: string): (p: string)
    ensures |p| <= |s| && p == s[..|p|]
    ensures forall i :: 0 <= i < |p| ==> IsDigit(p[i])
  {
    if s != [] && IsDigit(s[0]) then
      var rest := DigitPrefix(s[1..]);
      assert [s[0]] + rest == s[..|rest| + 1];
      [s[0]] + rest
    else []
  }

  /** The maximal runs of ASCII digits in s, left to right. */
  function DigitRuns(s: string): (runs: seq<string>)
    ensures forall k :: 0 <= k < |runs| ==>
              (runs[k] != [] && forall i :: 0 <= i < |runs[k]| ==> IsDigit(runs[k][i]))
    decreases |s|
  {
    if s == [] then []
    else if IsDigit(s[0]) then
      var run := DigitPrefix(s);
      [run] + DigitRuns(s[|run|..])
    else DigitRuns(s[1..])
  }
}
