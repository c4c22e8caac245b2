/**
 * The JavaScript string operations the services rely on: `split` on one
 * character, `trim`, decimal formatting of numbers (template literals),
 * `parseInt` of a digit string, `slice(0, n)` and `toUpperCase`.
 */
module Strings {

  // ---------------------------------------------------------------------
  // split / join
  // ---------------------------------------------------------------------

  /** The index of the first occurrence of c in s. */
  function IndexOf(s: string, c: char): (i: nat)
    requires c in s
    ensures i < |s| && s[i] == c && c !in s[..i]
    decreases |s|
  {
    if s[0] == c then 0 else 1 + IndexOf(s[1..], c)
  }

  /** `s.split(sep)` for a one-character separator: "" gives [""], "a..b" gives ["a", "", "b"]. */
  function Split(s: string, sep: char): (parts: seq<string>)
    ensures |parts| >= 1
    ensures forall k | 0 <= k < |parts| :: sep !in parts[k]
    decreases |s|
  {
    if sep !in s then [s]
    else
      var i := IndexOf(s, sep);
      [s[..i]] + Split(s[i + 1..], sep)
  }

  /** The inverse of Split: `parts.join(sep)`. */
  function Join(parts: seq<string>, sep: char): string
    requires |parts| >= 1
    decreases |parts|
  {
    if |parts| == 1 then parts[0] else parts[0] + [sep] + Join(parts[1..], sep)
  }

  lemma {:induction false} JoinSplit(s: string, sep: char)
    ensures Join(Split(s, sep), sep) == s
    decreases |s|
  {
    if sep in s {
      var i := IndexOf(s, sep);
      JoinSplit(s[i + 1..], sep);
      assert Split(s, sep)[1..] == Split(s[i + 1..], sep);
      assert s == s[..i] + [sep] + s[i + 1..];
    }
  }

  lemma {:induction false} SplitJoin(parts: seq<string>, sep: char)
    requires |parts| >= 1
    requires forall k | 0 <= k < |parts| :: sep !in parts[k]
    ensures Split(Join(parts, sep), sep) == parts
    decreases |parts|
  {
    if |parts| > 1 {
      var j := Join(parts, sep);
      var p := parts[0];
      assert j == p + [sep] + Join(parts[1..], sep);
      assert j[|p|] == sep;
      assert j[..|p|] == p;
      FirstSeparatorAt(j, sep, |p|);
      assert j[|p| + 1..] == Join(parts[1..], sep);
      SplitJoin(parts[1..], sep);
      assert parts == [p] + parts[1..];
    }
  }

  lemma FirstSeparatorAt(s: string, sep: char, i: nat)
    requires i < |s| && s[i] == sep && sep !in s[..i]
    ensures sep in s && IndexOf(s, sep) == i
  {
  }

  /** The first piece of a split is the text before the first separator. */
  lemma SplitFirst(s: string, sep: char)
    ensures Split(s, sep)[0] <= s
    ensures |Split(s, sep)[0]| < |s| ==> s[|Split(s, sep)[0]|] == sep
  {
  }

  /** A text with a separator splits into at least two pieces. */
  lemma SplitAtSeparator(s: string, sep: char)
    requires sep in s
    ensures |Split(s, sep)| >= 2
  {
    assert Split(s, sep) == [s[..IndexOf(s, sep)]] + Split(s[IndexOf(s, sep) + 1..], sep);
  }

  /** `last` is a suffix of `s` that, when shorter than `s`, follows a separator. */
  predicate EndPiece(s: string, last: string, sep: char) {
    && |last| <= |s|
    && last == s[|s| - |last|..]
    && (|last| < |s| ==> s[|s| - |last| - 1] == sep)
  }

  /** The last piece of a split is the text after the last separator. */
  lemma SplitLast(s: string, sep: char)
    ensures EndPiece(s, Split(s, sep)[|Split(s, sep)| - 1], sep)
  {
    JoinSplit(s, sep);
    EndPieceOfJoin(s, Split(s, sep), sep);
  }

  lemma EndPieceOfJoin(s: string, parts: seq<string>, sep: char)
    requires |parts| >= 1 && Join(parts, sep) == s
    ensures EndPiece(s, parts[|parts| - 1], sep)
  {
    JoinLast(parts, sep);
  }

  /** A join ends with its last part, right after a separator when there are several parts. */
  lemma {:induction false} JoinLast(parts: seq<string>, sep: char)
    requires |parts| >= 1
    ensures EndPiece(Join(parts, sep), parts[|parts| - 1], sep)
    decreases |parts|
  {
    var p := parts[|parts| - 1];
    if |parts| == 1 {
      assert Join(parts, sep) == p;
      assert p[|p| - |p|..] == p;
    } else {
      var rest := parts[1..];
      JoinLast(rest, sep);
      assert rest[|rest| - 1] == p;
      var s := Join(parts, sep);
      var tail := Join(rest, sep);
      assert s == parts[0] + [sep] + tail;
      assert s[|parts[0]| + 1..] == tail;
      EndPieceOfTail(s, |parts[0]|, tail, p, sep);
    }
  }

  /** An end piece of the text after position i is an end piece of the whole text. */
  lemma EndPieceOfTail(s: string, i: nat, tail: string, last: string, sep: char)
    requires i < |s| && s[i] == sep && tail == s[i + 1..]
    requires EndPiece(tail, last, sep)
    ensures EndPiece(s, last, sep)
  {
    assert tail[|tail| - |last|..] == s[|s| - |last|..];
    if |last| < |tail| {
      assert s[|s| - |last| - 1] == tail[|tail| - |last| - 1];
    }
  }

  // ---------------------------------------------------------------------
  // trim
  // ---------------------------------------------------------------------

  /** The characters `String.prototype.trim` removes (the common ones; see README). */
  const Whitespace: set<char> := {' ', '\t', '\n', '\r', '\U{B}', '\U{C}', '\U{A0}', '\U{FEFF}', '\U{2028}', '\U{2029}'}

  predicate IsWhitespace(c: char) {
    c in Whitespace
  }

  function TrimStart(s: string): (r: string)
    ensures |r| <= |s| && r == s[|s| - |r|..]
    ensures forall k | 0 <= k < |s| - |r| :: IsWhitespace(s[k])
    ensures r != [] ==> !IsWhitespace(r[0])
    decreases |s|
  {
    if s != [] && IsWhitespace(s[0]) then TrimStart(s[1..]) else s
  }

  function TrimEnd(s: string): (r: string)
    ensures |r| <= |s| && r == s[..|r|]
    ensures forall k | |r| <= k < |s| :: IsWhitespace(s[k])
    ensures r != [] ==> !IsWhitespace(r[|r| - 1])
    decreases |s|
  {
    if s != [] && IsWhitespace(s[|s| - 1]) then TrimEnd(s[..|s| - 1]) else s
  }
  /** Every character of s is white space (true of the empty string). */
  predicate AllWhitespace(s: string) {
    forall k | 0 <= k < |s| :: IsWhitespace(s[k])
  }

  lemma TrimAllWhitespace(s: string, t: string, r: string)
    requires t == TrimStart(s) && r == TrimEnd(t)
    ensures r == [] ==> AllWhitespace(s)
  {
  }
  /** Neither end of s is white space. */
  predicate Trimmed(s: string) {
    s != [] ==> !IsWhitespace(s[0]) && !IsWhitespace(s[|s| - 1])
  }

  /** r is a slice of s, and what lies before and after that slice is white space. */
  predicate OuterWhitespaceRemoved(s: string, r: string) {
    exists i, j | 0 <= i <= j <= |s| :: r == s[i..j] && AllWhitespace(s[..i]) && AllWhitespace(s[j..])
  }

  lemma TrimSlice(s: string, t: string, r: string)
    requires t == TrimStart(s) && r == TrimEnd(t)
    ensures OuterWhitespaceRemoved(s, r)
  {
    var i := |s| - |t|;
    var j := i + |r|;
    assert r == s[i..j];
    assert AllWhitespace(s[..i]);
    forall k | j <= k < |s|
      ensures IsWhitespace(s[k])
    {
      assert s[k] == t[k - i];
    }
    assert AllWhitespace(s[j..]);
  }

  lemma TrimFacts(s: string, t: string, r: string)
    requires t == TrimStart(s) && r == TrimEnd(t)
    ensures Trimmed(r)
    ensures r == [] <==> AllWhitespace(s)
    ensures OuterWhitespaceRemoved(s, r)
  {
    TrimAllWhitespace(s, t, r);
    TrimSlice(s, t, r);
    if r != [] {
      assert r[0] == t[0];
    }
  }

  /** `s.trim()`: s without its leading and trailing white space. */
  function Trim(s: string): (r: string)
    ensures Trimmed(r)
    ensures r == [] <==> AllWhitespace(s)
    ensures OuterWhitespaceRemoved(s, r)
  {
    TrimFacts(s, TrimStart(s), TrimEnd(TrimStart(s)));
    TrimEnd(TrimStart(s))
  }

  lemma {:induction false} TrimStartPadEnd(s: string, c: char)
    requires IsWhitespace(c)
    ensures TrimStart(s + [c]) == if TrimStart(s) == [] then [] else TrimStart(s) + [c]
    decreases |s|
  {
    if s != [] && IsWhitespace(s[0]) {
      assert (s + [c])[1..] == s[1..] + [c];
      TrimStartPadEnd(s[1..], c);
    }
  }

  lemma TrimEndPadEnd(s: string, c: char)
    requires IsWhitespace(c)
    ensures TrimEnd(s + [c]) == TrimEnd(s)
  {
    assert (s + [c])[..|s|] == s;
  }

  /** White space added around a string makes no difference to its trimmed form. */
  lemma TrimPadded(s: string, c: char)
    requires IsWhitespace(c)
    ensures Trim([c] + s + [c]) == Trim(s)
  {
    var u := [c] + s + [c];
    assert u == [c] + (s + [c]);
    TrimStartPadStart(s + [c], c);
    TrimStartPadEnd(s, c);
    var t := TrimStart(s);
    if t == [] {
      assert TrimStart(u) == [];
    } else {
      assert TrimStart(u) == t + [c];
      TrimEndPadEnd(t, c);
    }
  }

  lemma TrimStartPadStart(s: string, c: char)
    requires IsWhitespace(c)
    ensures TrimStart([c] + s) == TrimStart(s)
  {
    assert ([c] + s)[1..] == s;
  }

  lemma TrimIdempotent(s: string)
    ensures Trim(Trim(s)) == Trim(s)
  {
    var r := Trim(s);
    if r != [] {
      assert TrimStart(r) == r;
      assert TrimEnd(r) == r;
    }
  }

  // ---------------------------------------------------------------------
  // numbers in decimal
  // ---------------------------------------------------------------------

  predicate IsDigit(c: char) { '0' <= c <= '9' }

  function DigitChar(d: nat): (c: char)
    requires d < 10
    ensures IsDigit(c)
  {
    ['0', '1', '2', '3', '4', '5', '6', '7', '8', '9'][d]
  }

  function DigitValue(c: char): (d: nat)
    requires IsDigit(c)
    ensures d < 10 && DigitChar(d) == c
  {
    if c == '0' then 0 else if c == '1' then 1 else if c == '2' then 2 else if c == '3' then 3
    else if c == '4' then 4 else if c == '5' then 5 else if c == '6' then 6 else if c == '7' then 7
    else if c == '8' then 8 else 9
  }

  /** The decimal text of a natural number, as `${n}` writes it: digits, no leading zero. */
  function NatToString(n: nat): (s: string)
    ensures |s| >= 1
    ensures forall k | 0 <= k < |s| :: IsDigit(s[k])
    ensures |s| > 1 ==> s[0] != '0'
    decreases n
  {
    if n < 10 then [DigitChar(n)] else NatToString(n / 10) + [DigitChar(n % 10)]
  }

  /** `parseInt` of a non-empty string of decimal digits. */
  function ParseDigits(s: string): nat
    requires forall k | 0 <= k < |s| :: IsDigit(s[k])
    decreases |s|
  {
    if s == [] then 0 else ParseDigits(s[..|s| - 1]) * 10 + DigitValue(s[|s| - 1])
  }

  lemma {:induction false} ParseNatToString(n: nat)
    ensures ParseDigits(NatToString(n)) == n
    decreases n
  {
    var s := NatToString(n);
    if n < 10 {
      DigitRoundTrip(n);
      assert s[..0] == [];
    } else {
      var p := NatToString(n / 10);
      assert s == p + [DigitChar(n % 10)];
      assert s[..|s| - 1] == p;
      DigitRoundTrip(n % 10);
      ParseNatToString(n / 10);
    }
  }

  lemma DigitRoundTrip(d: nat)
    requires d < 10
    ensures DigitValue(DigitChar(d)) == d
  {
  }

  lemma NatToStringInjective(m: nat, n: nat)
    ensures NatToString(m) == NatToString(n) ==> m == n
  {
    ParseNatToString(m);
    ParseNatToString(n);
  }

  /** `${i}` for an integer: a minus sign before the digits of a negative number. */
  function IntToString(i: int): string {
    if i < 0 then "-" + NatToString(-i) else NatToString(i)
  }

  // ---------------------------------------------------------------------
  // slice, upper case
  // ---------------------------------------------------------------------

  /** `s.slice(0, n)`: the first n characters, or all of s when it is shorter. */
  function Prefix(s: string, n: nat): (r: string)
    ensures |r| == if |s| < n then |s| else n
    ensures r <= s
  {
    if |s| < n then s else s[..n]
  }

  /** Upper-casing of one character; only the Latin letters a-z are mapped. */
  function UpperChar(c: char): (u: char)
    ensures 'a' <= c <= 'z' ==> 'A' <= u <= 'Z'
    ensures !('a' <= c <= 'z') ==> u == c
  {
    if 'a' <= c <= 'z' then (c as int - 32) as char else c
  }

  /** `s.toUpperCase()`, character by character. */
  function Upper(s: string): (r: string)
    ensures |r| == |s|
    ensures forall k | 0 <= k < |s| :: r[k] == UpperChar(s[k])
  {
    seq(|s|, k requires 0 <= k < |s| => UpperChar(s[k]))
  }
}
