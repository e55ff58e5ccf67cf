/** JavaScript string primitives the application relies on (`trim`, `toLowerCase`,
    `toUpperCase`, `includes`, `split`, `replace(/x/g, …)`, `join`, number rendering),
    restricted to ASCII. */
module Text {

  // ---------------------------------------------------------------- whitespace and trim

  /** The ASCII characters JavaScript's `trim` removes: space, tab, LF, VT, FF, CR. */
  predicate IsWhitespace(c: char) {
    c == ' ' || ('\t' <= c <= '\r')
  }

  predicate IsBlank(s: string) {
    forall i :: 0 <= i < |s| ==> IsWhitespace(s[i])
  }

  function TrimStart(s: string): (r: string)
    ensures |r| <= |s| && r == s[|s| - |r|..]
    ensures r == [] <==> IsBlank(s)
    ensures r != [] ==> !IsWhitespace(r[0])
    ensures IsBlank(s[..|s| - |r|])
  {
    if s != [] && IsWhitespace(s[0]) then
      var r := TrimStart(s[1..]);
      assert s[..|s| - |r|] == [s[0]] + s[1..][..|s| - 1 - |r|];
      r
    else s
  }

  function TrimEnd(s: string): (r: string)
    ensures |r| <= |s| && r == s[..|r|]
    ensures r == [] <==> IsBlank(s)
    ensures r != [] ==> !IsWhitespace(r[|r| - 1])
    ensures IsBlank(s[|r|..])
  {
    if s != [] && IsWhitespace(s[|s| - 1]) then
      var r := TrimEnd(s[..|s| - 1]);
      assert s[|r|..] == s[..|s| - 1][|r|..] + [s[|s| - 1]];
      r
    else s
  }

  /** How many leading characters `trim` removes. */
  function TrimOffset(s: string): (k: nat)
    ensures k <= |s|
  {
    |s| - |TrimStart(s)|
  }

  /** Taking `m` more characters after an offset `k` leaves the same tail. */
  lemma DropTail(s: string, k: nat, m: nat)
    requires k + m <= |s|
    ensures s[k..][..m] == s[k..k + m]
    ensures s[k..][m..] == s[k + m..]
  {
  }

  /** `s.trim()`: the result is a contiguous piece of `s`, no longer than `s`, empty exactly
      when `s` is blank, and it neither starts nor ends with whitespace; what it drops on
      either side is whitespace only. */
  function Trim(s: string): (r: string)
    ensures |r| <= |s| - TrimOffset(s)
    ensures r == s[TrimOffset(s)..TrimOffset(s) + |r|]
    ensures r == [] <==> IsBlank(s)
    ensures r != [] ==> !IsWhitespace(r[0]) && !IsWhitespace(r[|r| - 1])
    ensures IsBlank(s[..TrimOffset(s)]) && IsBlank(s[TrimOffset(s) + |r|..])
  {
    var t := TrimStart(s);
    var r := TrimEnd(t);
    DropTail(s, |s| - |t|, |r|);
    r
  }

  // ---------------------------------------------------------------- case mapping

  function LowerChar(c: char): char {
    if 'A' <= c <= 'Z' then (c as int + 32) as char else c
  }

  function UpperChar(c: char): char {
    if 'a' <= c <= 'z' then (c as int - 32) as char else c
  }

  /** `s.toLowerCase()` on ASCII letters. */
  function Lower(s: string): (r: string)
    ensures |r| == |s|
    ensures forall i :: 0 <= i < |s| ==> r[i] == LowerChar(s[i])
  {
    seq(|s|, i requires 0 <= i < |s| => LowerChar(s[i]))
  }

  /** `s.toUpperCase()` on ASCII letters. */
  function Upper(s: string): (r: string)
    ensures |r| == |s|
    ensures forall i :: 0 <= i < |s| ==> r[i] == UpperChar(s[i])
  {
    seq(|s|, i requires 0 <= i < |s| => UpperChar(s[i]))
  }

  lemma LowerIdempotent(s: string)
    ensures Lower(Lower(s)) == Lower(s)
  {
    assert forall i :: 0 <= i < |s| ==> LowerChar(LowerChar(s[i])) == LowerChar(s[i]);
  }

  // ---------------------------------------------------------------- substrings

  /** `s.includes(t)`: `t` occurs in `s` at some position. */
  predicate Contains(s: string, t: string)
    decreases |s|
  {
    |t| <= |s| && (s[..|t|] == t || Contains(s[1..], t))
  }

  /** A case-insensitive `includes`: the lower-cased `text` contains the lower-cased
      `term`. Every text matches the empty term. */
  predicate MatchesSearch(text: string, term: string) {
    Contains(Lower(text), Lower(term))
  }

  predicate HasChar(s: string, c: char) {
    exists i :: 0 <= i < |s| && s[i] == c
  }

  /** `s.indexOf(c)`: the first position of `c`, or -1. */
  function IndexOf(s: string, c: char): (r: int)
    ensures -1 <= r < |s|
    ensures r == -1 <==> !HasChar(s, c)
    ensures r >= 0 ==> s[r] == c && forall k :: 0 <= k < r ==> s[k] != c
  {
    if s == [] then -1
    else if s[0] == c then 0
    else
      var k := IndexOf(s[1..], c);
      assert forall j :: 0 < j < |s| ==> s[j] == s[1..][j - 1];
      if k == -1 then -1 else k + 1
  }

  /** The first segment of `s.split(c)`. */
  function Segment0(s: string, c: char): (r: string)
    ensures !HasChar(r, c)
    ensures |r| <= |s| && r == s[..|r|]
    ensures |r| < |s| ==> s[|r|] == c
    ensures |r| == |s| <==> !HasChar(s, c)
  {
    var k := IndexOf(s, c);
    if k == -1 then s else s[..k]
  }

  /** Everything after the first `c` in `s` ("" when `s` holds no `c`). */
  function AfterFirst(s: string, c: char): (r: string)
    ensures HasChar(s, c) ==> s == Segment0(s, c) + [c] + r
  {
    var k := IndexOf(s, c);
    if k == -1 then "" else s[k + 1..]
  }

  /** `[a, b] = s.split(c)` takes the first two segments; a missing second segment is
      `undefined` in JavaScript and only ever read after `s.includes(c)` has held. */
  function FirstTwoSegments(s: string, c: char): (r: (string, string))
    ensures !HasChar(r.0, c) && !HasChar(r.1, c)
  {
    (Segment0(s, c), Segment0(AfterFirst(s, c), c))
  }

  lemma {:induction false} FirstTwoSegmentsOfJoined(a: string, b: string, rest: string, c: char)
    requires !HasChar(a, c) && !HasChar(b, c)
    ensures FirstTwoSegments(a + [c] + b, c) == (a, b)
    ensures FirstTwoSegments(a + [c] + b + [c] + rest, c) == (a, b)
  {
    SegmentOfDelimited(a, b, c);
    SegmentOfDelimited(a, b + [c] + rest, c);
    assert a + [c] + b + [c] + rest == a + [c] + (b + [c] + rest);
    SegmentOfDelimited(b, rest, c);
    assert !HasChar(b, c) ==> Segment0(b, c) == b;
  }

  lemma SegmentOfDelimited(a: string, b: string, c: char)
    requires !HasChar(a, c)
    ensures Segment0(a + [c] + b, c) == a && AfterFirst(a + [c] + b, c) == b
  {
    var s := a + [c] + b;
    assert s[|a|] == c;
    assert HasChar(s, c);
    assert forall j :: 0 <= j < |a| ==> s[j] == a[j] && s[j] != c;
    var k := IndexOf(s, c);
    assert k == |a|;
  }

  // ---------------------------------------------------------------- quote doubling

  /** `s.replace(/c/g, c + c)`. */
  function Double(s: string, c: char): (r: string)
    ensures |r| >= |s|
  {
    if s == [] then []
    else (if s[0] == c then [c, c] else [s[0]]) + Double(s[1..], c)
  }

  /** Collapses each pair `cc` back to one `c`; the inverse of `Double`. */
  function Undouble(s: string, c: char): string
  {
    if |s| >= 2 && s[0] == c && s[1] == c then [c] + Undouble(s[2..], c)
    else if s == [] then []
    else [s[0]] + Undouble(s[1..], c)
  }

  /** Every `c` in `s` belongs to an adjacent pair `cc`, read from the left. */
  predicate PairedOnly(s: string, c: char) {
    if s == [] then true
    else if s[0] != c then PairedOnly(s[1..], c)
    else |s| >= 2 && s[1] == c && PairedOnly(s[2..], c)
  }

  lemma {:induction false} UndoubleDouble(s: string, c: char)
    ensures Undouble(Double(s, c), c) == s
    ensures PairedOnly(Double(s, c), c)
  {
    if s != [] {
      UndoubleDouble(s[1..], c);
      var d := Double(s, c);
      if s[0] == c {
        assert d[2..] == Double(s[1..], c);
      } else {
        assert d[1..] == Double(s[1..], c);
      }
    }
  }

  lemma {:induction false} DoubleAppend(a: string, b: string, c: char)
    ensures Double(a + b, c) == Double(a, c) + Double(b, c)
  {
    if a != [] {
      assert (a + b)[1..] == a[1..] + b;
      DoubleAppend(a[1..], b, c);
    } else {
      assert a + b == b;
    }
  }

  lemma {:induction false} DoubleLacks(s: string, c: char, d: char)
    requires !HasChar(s, d) && d != c
    ensures !HasChar(Double(s, c), d)
  {
    if s != [] {
      assert forall i :: 0 <= i < |s[1..]| ==> s[1..][i] == s[i + 1];
      DoubleLacks(s[1..], c, d);
      assert s[0] != d;
    }
  }

  // ---------------------------------------------------------------- join

  /** `parts.join(sep)`. */
  function JoinWith(parts: seq<string>, sep: string): (r: string)
    ensures parts == [] ==> r == ""
    ensures |parts| == 1 ==> r == parts[0]
    ensures |parts| > 0 ==> |r| >= |parts[0]| && r[..|parts[0]|] == parts[0]
  {
    if parts == [] then ""
    else if |parts| == 1 then parts[0]
    else parts[0] + sep + JoinWith(parts[1..], sep)
  }

  // ---------------------------------------------------------------- numbers

  predicate IsDigit(c: char) {
    '0' <= c <= '9'
  }

  predicate IsDigits(s: string) {
    forall i :: 0 <= i < |s| ==> IsDigit(s[i])
  }

  /** Integer text: an optional minus sign followed by at least one digit. */
  predicate IsIntText(s: string) {
    if |s| > 0 && s[0] == '-' then |s| > 1 && IsDigits(s[1..])
    else |s| > 0 && IsDigits(s)
  }

  function DigitChar(d: nat): char
    requires d < 10
  {
    ('0' as int + d) as char
  }

  function NatToString(n: nat): (r: string)
    ensures |r| > 0 && IsDigits(r)
  {
    if n < 10 then [DigitChar(n)] else NatToString(n / 10) + [DigitChar(n % 10)]
  }

  /** `String(n)` for an integer `n`. */
  function IntToString(n: int): (r: string)
    ensures IsIntText(r)
    ensures r[0] == '-' <==> n < 0
  {
    if n < 0 then "-" + NatToString(-n) else NatToString(n)
  }

  function ParseNat(s: string): nat
    requires IsDigits(s)
  {
    if s == [] then 0
    else ParseNat(s[..|s| - 1]) * 10 + (s[|s| - 1] as int - '0' as int)
  }

  /** `Number(s)` for integer text. */
  function ParseInt(s: string): int
    requires IsIntText(s)
  {
    if s[0] == '-' then 0 - ParseNat(s[1..]) else ParseNat(s) as int
  }

  lemma {:induction false} ParseNatToString(n: nat)
    ensures ParseNat(NatToString(n)) == n
  {
    if n >= 10 {
      ParseNatToString(n / 10);
      var s := NatToString(n / 10) + [DigitChar(n % 10)];
      assert s[..|s| - 1] == NatToString(n / 10);
    }
  }

  /** Rendering then parsing an integer gives it back. */
  lemma ParseIntToString(n: int)
    ensures ParseInt(IntToString(n)) == n
  {
    if n < 0 {
      ParseNatToString(-n);
      assert IntToString(n)[1..] == NatToString(-n);
    } else {
      ParseNatToString(n);
    }
  }
}
