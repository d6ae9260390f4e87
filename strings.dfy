/**
 * The JavaScript string primitives the dashboard pages lean on, restricted to
 * what the pages need: `split` on one character, `join`, `trim`,
 * `includes`/`indexOf`, `toLowerCase` (ASCII letters), decimal rendering of
 * integers and `parseInt`.
 */
module Strings {
  import opened Wrappers

  // ---------------------------------------------------------------- characters

  /**
   * The white-space characters `trim`, `Number` and `parseInt` skip: the
   * ECMAScript WhiteSpace (tab, vertical tab, form feed, space, no-break
   * space, the byte-order mark and the other space separators) and
   * LineTerminator (line feed, carriage return, U+2028, U+2029) characters.
   */
  predicate IsSpace(c: char) {
    c == ' ' || c == '\t' || c == '\n' || c == '\r' || c == '\U{000B}' || c == '\U{000C}'
    || c == '\U{00A0}' || c == '\U{1680}' || '\U{2000}' <= c <= '\U{200A}'
    || c == '\U{2028}' || c == '\U{2029}' || c == '\U{202F}' || c == '\U{205F}'
    || c == '\U{3000}' || c == '\U{FEFF}'
  }

  predicate IsDigit(c: char) {
    '0' <= c <= '9'
  }

  function DigitValue(c: char): (d: nat)
    requires IsDigit(c)
    ensures d < 10
  {
    c as int - '0' as int
  }

  function DigitChar(d: nat): (c: char)
    requires d < 10
    ensures IsDigit(c) && DigitValue(c) == d
  {
    ('0' as int + d) as char
  }

  predicate IsHexDigit(c: char) {
    IsDigit(c) || 'a' <= c <= 'f' || 'A' <= c <= 'F'
  }

  function HexDigitValue(c: char): (d: nat)
    requires IsHexDigit(c)
    ensures d < 16
  {
    if IsDigit(c) then DigitValue(c)
    else if 'a' <= c <= 'f' then c as int - 'a' as int + 10
    else c as int - 'A' as int + 10
  }

  predicate AllSpace(s: string) {
    forall i :: 0 <= i < |s| ==> IsSpace(s[i])
  }

  predicate AllDigits(s: string) {
    forall i :: 0 <= i < |s| ==> IsDigit(s[i])
  }

  // ---------------------------------------------------------------- split and join

  /**
   * `s.split(sep)` for a one-character separator: the pieces between
   * separators, in order, always at least one (`"".split(",")` is `[""]`).
   */
  function Split(s: string, sep: char): (parts: seq<string>)
    ensures |parts| >= 1
    ensures forall i :: 0 <= i < |parts| ==> sep !in parts[i]
    decreases |s|
  {
    if |s| == 0 then [""]
    else
      var rest := Split(s[1..], sep);
      if s[0] == sep then [""] + rest
      else [[s[0]] + rest[0]] + rest[1..]
  }

  /** `parts.join(sep)`. */
  function Join(parts: seq<string>, sep: string): string
  {
    if |parts| == 0 then ""
    else if |parts| == 1 then parts[0]
    else parts[0] + sep + Join(parts[1..], sep)
  }

  /** Joining a piece in front of at least one more adds it and one separator. */
  lemma JoinCons(x: string, rest: seq<string>, sep: string)
    requires |rest| >= 1
    ensures Join([x] + rest, sep) == x + sep + Join(rest, sep)
  {
    assert ([x] + rest)[1..] == rest;
  }

  /** Joining the pieces of a split with the same separator gives the text back. */
  lemma {:induction false} JoinSplit(s: string, sep: char)
    ensures Join(Split(s, sep), [sep]) == s
    decreases |s|
  {
    if |s| > 0 {
      var rest := Split(s[1..], sep);
      JoinSplit(s[1..], sep);
      assert s == [s[0]] + s[1..];
      if s[0] == sep {
        assert Split(s, sep) == [""] + rest;
        assert Join([""] + rest, [sep]) == "" + [sep] + Join(rest, [sep]);
      } else if |rest| == 1 {
        assert Split(s, sep) == [[s[0]] + rest[0]];
      } else {
        var parts := Split(s, sep);
        assert parts == [[s[0]] + rest[0]] + rest[1..];
        assert parts[1..] == rest[1..];
        assert Join(rest, [sep]) == rest[0] + [sep] + Join(rest[1..], [sep]);
      }
    }
  }

  lemma {:induction false} SplitNoSep(a: string, sep: char)
    requires sep !in a
    ensures Split(a, sep) == [a]
    decreases |a|
  {
    if |a| > 0 {
      SplitNoSep(a[1..], sep);
      assert a == [a[0]] + a[1..];
    }
  }

  lemma {:induction false} SplitAfterPiece(a: string, rest: string, sep: char)
    requires sep !in a
    ensures Split(a + [sep] + rest, sep) == [a] + Split(rest, sep)
    decreases |a|
  {
    var s := a + [sep] + rest;
    if |a| == 0 {
      assert s[1..] == rest;
    } else {
      SplitAfterPiece(a[1..], rest, sep);
      assert s[1..] == a[1..] + [sep] + rest;
      assert [a[0]] + a[1..] == a;
    }
  }

  /** Splitting a join recovers the parts when no part holds the separator. */
  lemma {:induction false} SplitJoin(parts: seq<string>, sep: char)
    requires |parts| >= 1
    requires forall i :: 0 <= i < |parts| ==> sep !in parts[i]
    ensures Split(Join(parts, [sep]), sep) == parts
    decreases |parts|
  {
    if |parts| == 1 {
      SplitNoSep(parts[0], sep);
    } else {
      SplitJoin(parts[1..], sep);
      SplitAfterPiece(parts[0], Join(parts[1..], [sep]), sep);
      assert parts == [parts[0]] + parts[1..];
    }
  }

  /** Every part but the first, with `pad` put in front of it. */
  function PadTail(parts: seq<string>, pad: string): (r: seq<string>)
    requires |parts| >= 1
    ensures |r| == |parts| && r[0] == parts[0]
    ensures forall i :: 1 <= i < |parts| ==> r[i] == pad + parts[i]
  {
    [parts[0]] + seq(|parts| - 1, i requires 0 <= i < |parts| - 1 => pad + parts[i + 1])
  }

  lemma JoinIntoFirst(q: seq<string>, x: string, sep: string)
    requires |q| >= 1
    ensures x + Join(q, sep) == Join([x + q[0]] + q[1..], sep)
  {
    var r := [x + q[0]] + q[1..];
    if |q| > 1 {
      assert r[1..] == q[1..];
    }
  }

  /** A separator `c + pad` is the one-character separator `c` with `pad` moved into the parts. */
  lemma {:induction false} JoinPadded(parts: seq<string>, c: char, pad: string)
    requires |parts| >= 1
    ensures Join(parts, [c] + pad) == Join(PadTail(parts, pad), [c])
    decreases |parts|
  {
    if |parts| > 1 {
      JoinPadded(parts[1..], c, pad);
      var p := PadTail(parts, pad);
      var q := PadTail(parts[1..], pad);
      JoinIntoFirst(q, pad, [c]);
      assert p[1..] == [pad + q[0]] + q[1..];
      assert Join(p, [c]) == p[0] + [c] + Join(p[1..], [c]);
    }
  }

  // ---------------------------------------------------------------- trim

  function TrimStart(s: string): (r: string)
    ensures |r| <= |s| && r == s[|s| - |r|..]
    ensures r == "" || !IsSpace(r[0])
    ensures forall i :: 0 <= i < |s| - |r| ==> IsSpace(s[i])
    decreases |s|
  {
    if |s| > 0 && IsSpace(s[0]) then TrimStart(s[1..]) else s
  }

  function TrimEnd(s: string): (r: string)
    ensures |r| <= |s| && r == s[..|r|]
    ensures r == "" || !IsSpace(r[|r| - 1])
    ensures forall i :: |r| <= i < |s| ==> IsSpace(s[i])
    decreases |s|
  {
    if |s| > 0 && IsSpace(s[|s| - 1]) then TrimEnd(s[..|s| - 1]) else s
  }

  /** `s.trim()`. */
  function Trim(s: string): string {
    TrimEnd(TrimStart(s))
  }

  /** Trimming takes characters away and adds none. */
  lemma TrimKeepsOut(s: string, c: char)
    requires c !in s
    ensures c !in Trim(s)
  {
    var t := TrimStart(s);
    var e := TrimEnd(t);
    forall i | 0 <= i < |e| ensures e[i] != c {
      assert e[i] == t[i];
      assert t[i] == s[|s| - |t| + i];
    }
  }

  predicate IsTrimmed(s: string) {
    s == "" || (!IsSpace(s[0]) && !IsSpace(s[|s| - 1]))
  }

  lemma TrimIsTrimmed(s: string)
    ensures IsTrimmed(Trim(s))
  {
    var t := TrimStart(s);
    var r := TrimEnd(t);
    if r != "" {
      assert r[0] == t[0];
    }
  }

  /** A text with no white space at either end is its own trim. */
  lemma TrimmedIsOwnTrim(s: string)
    requires IsTrimmed(s)
    ensures Trim(s) == s
  {
    if s == "" {
      assert TrimStart(s) == "";
    } else {
      calc {
        Trim(s);
        TrimEnd(TrimStart(s));
        { NothingToTrim(s); }
        TrimEnd(s);
        { NothingToTrimAtEnd(s); }
        s;
      }
    }
  }

  /** A text that ends with no white space is its own `TrimEnd`. */
  lemma NothingToTrimAtEnd(t: string)
    requires |t| > 0 && !IsSpace(t[|t| - 1])
    ensures TrimEnd(t) == t
  {
  }

  /** `s.trim()` is empty exactly when `s` is white space only. */
  lemma TrimEmptyIff(s: string)
    ensures Trim(s) == "" <==> AllSpace(s)
  {
    var t := TrimStart(s);
    if Trim(s) != "" {
      assert t != "";
      assert t[0] == s[|s| - |t|];
    } else {
      assert |t| == 0;
    }
  }

  /** Trimming white space put in front of a trimmed, non-empty text gives the text. */
  lemma {:induction false} TrimPadded(pad: string, x: string)
    requires AllSpace(pad)
    requires x != "" && IsTrimmed(x)
    ensures Trim(pad + x) == x
    decreases |pad|
  {
    if |pad| == 0 {
      assert pad + x == x;
    } else {
      assert (pad + x)[1..] == pad[1..] + x;
      TrimPadded(pad[1..], x);
    }
  }

  /**
   * `s.split(sep)` for a separator of one or more characters: the pieces
   * between the occurrences of `sep`, found from left to right.
   */
  function SplitOn(s: string, sep: string): (parts: seq<string>)
    requires |sep| > 0
    ensures |parts| >= 1
    ensures IndexOf(s, sep) < 0 ==> parts == [s]
    ensures IndexOf(s, sep) >= 0 ==> parts[0] == s[..IndexOf(s, sep)]
    decreases |s|
  {
    var i := IndexOf(s, sep);
    if i < 0 then [s]
    else [s[..i]] + SplitOn(s[i + |sep|..], sep)
  }

  /** The first piece of a split holds no separator. */
  lemma FirstPieceHasNoSep(s: string, sep: string, i: int)
    requires |sep| > 0 && 0 <= i && i == IndexOf(s, sep)
    ensures !Contains(s[..i], sep)
  {
    var j := IndexOf(s[..i], sep);
    if j >= 0 {
      assert s[..i][j..j + |sep|] == s[j..j + |sep|];
      assert OccursAt(s, sep, j);
    }
  }

  /** Joining the pieces of a split with the same separator gives the text back. */
  lemma {:induction false} JoinSplitOn(s: string, sep: string)
    requires |sep| > 0
    ensures Join(SplitOn(s, sep), sep) == s
    decreases |s|
  {
    var i := IndexOf(s, sep);
    if i >= 0 {
      var rest := s[i + |sep|..];
      JoinSplitOn(rest, sep);
      var tail := SplitOn(rest, sep);
      assert SplitOn(s, sep) == [s[..i]] + tail;
      assert s == s[..i] + sep + rest;
    }
  }

  // ---------------------------------------------------------------- search

  predicate OccursAt(s: string, sub: string, i: int) {
    0 <= i && i + |sub| <= |s| && s[i..i + |sub|] == sub
  }

  function IndexFrom(s: string, sub: string, from: nat): (r: int)
    ensures r == -1 || (from <= r && OccursAt(s, sub, r))
    ensures forall j :: from <= j && (r == -1 || j < r) ==> !OccursAt(s, sub, j)
    decreases |s| - from
  {
    if from + |sub| > |s| then -1
    else if s[from..from + |sub|] == sub then from
    else IndexFrom(s, sub, from + 1)
  }

  /** `s.indexOf(sub)`: the first position where `sub` occurs, or -1. */
  function IndexOf(s: string, sub: string): (r: int)
    ensures r == -1 || OccursAt(s, sub, r)
    ensures forall j :: 0 <= j && (r == -1 || j < r) ==> !OccursAt(s, sub, j)
  {
    IndexFrom(s, sub, 0)
  }

  /** `s.includes(sub)`. */
  predicate Contains(s: string, sub: string) {
    IndexOf(s, sub) >= 0
  }

  lemma ContainsIff(s: string, sub: string)
    ensures Contains(s, sub) <==> exists i :: OccursAt(s, sub, i)
  {
  }

  /** Every text includes the empty text. */
  lemma ContainsEmpty(s: string)
    ensures Contains(s, "")
  {
    assert OccursAt(s, "", 0);
  }

  // ---------------------------------------------------------------- case

  function LowerChar(c: char): char {
    if 'A' <= c <= 'Z' then (c as int + 32) as char else c
  }

  /** `s.toLowerCase()` on ASCII letters; every other character is kept. */
  function Lower(s: string): (r: string)
    ensures |r| == |s|
  {
    seq(|s|, i requires 0 <= i < |s| => LowerChar(s[i]))
  }

  /** `s.toLowerCase().includes(term.toLowerCase())`: a search that ignores ASCII case. */
  predicate Matches(s: string, term: string) {
    Contains(Lower(s), Lower(term))
  }

  /** The search for a term, as a predicate on names. */
  function Matcher(term: string): string -> bool {
    s => Matches(s, term)
  }

  // ---------------------------------------------------------------- numbers

  /** Decimal rendering of a natural number, as `String(n)` writes it. */
  function NatToString(n: nat): (s: string)
    ensures |s| >= 1 && AllDigits(s)
    ensures |s| > 1 ==> s[0] != '0'
    decreases n
  {
    if n < 10 then [DigitChar(n)] else NatToString(n / 10) + [DigitChar(n % 10)]
  }

  /** `String(i)` for an integer. */
  function IntToString(i: int): string {
    if i < 0 then "-" + NatToString(-i) else NatToString(i)
  }

  function DigitsValue(ds: string): nat
    requires AllDigits(ds)
  {
    if ds == [] then 0 else DigitsValue(ds[..|ds| - 1]) * 10 + DigitValue(ds[|ds| - 1])
  }

  function HexValue(ds: string): nat
    requires forall i :: 0 <= i < |ds| ==> IsHexDigit(ds[i])
  {
    if ds == [] then 0 else HexValue(ds[..|ds| - 1]) * 16 + HexDigitValue(ds[|ds| - 1])
  }

  lemma {:induction false} NatToStringValue(n: nat)
    ensures DigitsValue(NatToString(n)) == n
    decreases n
  {
    if n >= 10 {
      NatToStringValue(n / 10);
      var s := NatToString(n);
      assert s[..|s| - 1] == NatToString(n / 10);
    }
  }

  /** The longest prefix of decimal digits. */
  function LeadingDigits(s: string): (d: string)
    ensures |d| <= |s| && d == s[..|d|] && AllDigits(d)
    ensures |d| == |s| || !IsDigit(s[|d|])
    decreases |s|
  {
    if |s| > 0 && IsDigit(s[0]) then [s[0]] + LeadingDigits(s[1..]) else ""
  }

  /** The longest prefix of hexadecimal digits. */
  function LeadingHexDigits(s: string): (d: string)
    ensures |d| <= |s| && d == s[..|d|]
    ensures forall i :: 0 <= i < |d| ==> IsHexDigit(d[i])
    ensures |d| == |s| || !IsHexDigit(s[|d|])
    decreases |s|
  {
    if |s| > 0 && IsHexDigit(s[0]) then [s[0]] + LeadingHexDigits(s[1..]) else ""
  }

  /**
   * `parseInt(s)` without a radix: leading white space is skipped, one sign is
   * read, a `0x`/`0X` prefix selects base 16, and the longest run of digits
   * that follows is the value; no digits at all is `NaN` (here `None`).
   */
  function ParseInt(s: string): Option<int> {
    var t := TrimStart(s);
    if |t| > 0 && t[0] == '-' then
      match ParseMagnitude(t[1..])
      case None => None
      case Some(v) => Some(-v)
    else if |t| > 0 && t[0] == '+' then ParseMagnitude(t[1..])
    else ParseMagnitude(t)
  }

  /** The unsigned part: hexadecimal after `0x`/`0X`, decimal otherwise. */
  function ParseMagnitude(body: string): Option<int> {
    if |body| >= 2 && body[0] == '0' && (body[1] == 'x' || body[1] == 'X') then
      var h := LeadingHexDigits(body[2..]);
      if h == "" then None else Some(HexValue(h))
    else
      var d := LeadingDigits(body);
      if d == "" then None else Some(DigitsValue(d))
  }

  /** A run of decimal digits parses as its value. */
  lemma MagnitudeOfDigits(digits: string)
    requires |digits| >= 1 && AllDigits(digits)
    ensures ParseMagnitude(digits) == Some(DigitsValue(digits))
  {
    assert IsDigit(digits[0]);
    assert |digits| >= 2 ==> IsDigit(digits[1]);
    assert LeadingDigits(digits) == digits;
  }

  /** A run of digits parses as its value. */
  lemma ParseDigits(digits: string)
    requires |digits| >= 1 && AllDigits(digits)
    ensures ParseInt(digits) == Some(DigitsValue(digits))
  {
    MagnitudeOfDigits(digits);
    assert IsDigit(digits[0]);
    NothingToTrim(digits);
  }

  /** A minus and a run of digits parses as the negated value. */
  lemma ParseNegatedDigits(t: string)
    requires |t| >= 2 && t[0] == '-' && AllDigits(t[1..])
    ensures ParseInt(t) == Some(0 - DigitsValue(t[1..]))
  {
    MagnitudeOfDigits(t[1..]);
    NothingToTrim(t);
  }

  /** A text that starts with no white space is its own `TrimStart`. */
  lemma NothingToTrim(t: string)
    requires |t| > 0 && !IsSpace(t[0])
    ensures TrimStart(t) == t
  {
  }

  /** `parseInt(String(n)) === n`: rendering and parsing an integer round-trip. */
  lemma ParseIntOfIntToString(n: int)
    ensures ParseInt(IntToString(n)) == Some(n)
  {
    if n < 0 {
      ParseNegative(n);
    } else {
      NatToStringValue(n);
      ParseDigits(NatToString(n));
    }
  }

  lemma ParseNegative(n: int)
    requires n < 0
    ensures ParseInt(IntToString(n)) == Some(n)
  {
    NegativeToString(n);
    ParseNegatedDigits(IntToString(n));
  }

  /** `String(n)` of a negative number is a minus and the digits of its magnitude. */
  lemma NegativeToString(n: int)
    requires n < 0
    ensures var t := IntToString(n);
            |t| >= 2 && t[0] == '-' && t[1..] == NatToString(-n) && AllDigits(t[1..])
    ensures DigitsValue(NatToString(-n)) == -n
  {
    NatToStringValue(-n);
    assert IntToString(n)[1..] == NatToString(-n);
  }
}
