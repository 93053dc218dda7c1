// The JavaScript built-ins that the calculator and the interpretation parser
// rely on, with their ECMAScript meaning on strings of Unicode scalar values:
// the String methods `split` on a one-character separator, `trim`, `includes`
// and `replace(/^##\s*/, '')`; the Array methods `join` on a one-character
// separator and `indexOf`; and `parseInt` without a radix. `StartsWith`
// expresses the `^##` anchor of the regular expression.
module JsStrings {
  import opened Wrappers

  /** The code points `String.prototype.trim` removes and the regular
      expression class `\s` matches: ECMAScript's WhiteSpace and
      LineTerminator productions. */
  predicate IsSpace(c: char) {
    c == '\t' || c == '\n' || c == '\U{000B}' || c == '\U{000C}' || c == '\r' || c == ' '
    || c == '\U{00A0}' || c == '\U{1680}' || ('\U{2000}' <= c <= '\U{200A}')
    || c == '\U{2028}' || c == '\U{2029}' || c == '\U{202F}' || c == '\U{205F}'
    || c == '\U{3000}' || c == '\U{FEFF}'
  }

  /** `s` has no white space at either end. */
  predicate Trimmed(s: string) {
    s == [] || (!IsSpace(s[0]) && !IsSpace(s[|s| - 1]))
  }

  /** The end of the run of white space that starts at position `i`. */
  function SpaceRunEnd(s: string, i: nat): (n: nat)
    requires i <= |s|
    ensures i <= n <= |s|
    ensures forall j :: i <= j < n ==> IsSpace(s[j])
    ensures n < |s| ==> !IsSpace(s[n])
    decreases |s| - i
  {
    if i < |s| && IsSpace(s[i]) then SpaceRunEnd(s, i + 1) else i
  }

  /** The start of the run of white space that ends at position `i`. */
  function SpaceRunStart(s: string, i: nat): (n: nat)
    requires i <= |s|
    ensures n <= i
    ensures forall j :: n <= j < i ==> IsSpace(s[j])
    ensures n > 0 ==> !IsSpace(s[n - 1])
  {
    if i > 0 && IsSpace(s[i - 1]) then SpaceRunStart(s, i - 1) else i
  }

  /** The suffix of `s` from position `a`, character by character. */
  function From(s: string, a: nat): string
    requires a <= |s|
  {
    seq(|s| - a, j requires 0 <= j < |s| - a => s[a + j])
  }

  /** `s.trimStart()`: the suffix left after dropping leading white space. */
  function TrimStart(s: string): (r: string)
    ensures r == [] || !IsSpace(r[0])
  {
    From(s, SpaceRunEnd(s, 0))
  }

  /** `s.trimEnd()`: the prefix left after dropping trailing white space. */
  function TrimEnd(s: string): (r: string)
    ensures r == [] || !IsSpace(r[|r| - 1])
  {
    s[..SpaceRunStart(s, |s|)]
  }

  /** `s.trim()`: the middle of `s` left after dropping the white space at
      both ends. The result has no white space at either end, is empty
      exactly when `s` is all white space, and leaves an already trimmed
      string alone. */
  function Trim(s: string): (r: string)
    ensures exists a, b :: PieceOf(s, 0, r, a, b)
    ensures Trimmed(r)
    ensures r == [] <==> forall j :: 0 <= j < |s| ==> IsSpace(s[j])
    ensures Trimmed(s) ==> r == s
  {
    var a := SpaceRunEnd(s, 0);
    var t := From(s, a);
    var b := SpaceRunStart(t, |t|);
    assert b > 0 ==> t[..b][0] == s[a];
    assert |t| > 0 ==> t[0] == s[a];
    assert b == 0 ==> a == |s|;
    assert t[..b] == s[a..a + b];
    assert forall j :: a + b <= j < |s| ==> IsSpace(s[j]) by {
      forall j | a + b <= j < |s| ensures IsSpace(s[j]) {
        assert t[j - a] == s[j];
      }
    }
    assert PieceOf(s, 0, t[..b], a, a + b);
    t[..b]
  }

  /** `r` is the piece `s[a..b]` of `s`, and only white space lies around
      it from position `from` on: in `s[from..a]` and in `s[b..]`. */
  predicate PieceOf(s: string, from: int, r: string, a: int, b: int) {
    0 <= from <= a <= b <= |s| && r == s[a..b]
    && (forall j :: from <= j < a ==> IsSpace(s[j]))
    && (forall j :: b <= j < |s| ==> IsSpace(s[j]))
  }

  /** A piece of a suffix piece is a piece of the whole string. */
  lemma {:induction false} PieceOfPiece(s: string, from: int, u: string, n: int, t: string, a: int, b: int)
    requires PieceOf(s, from, u, n, |s|)
    requires PieceOf(u, 0, t, a, b)
    ensures PieceOf(s, from, t, n + a, n + b)
  {
    assert u == s[n..];
    assert u[a..b] == s[n..][a..b] == s[n + a..n + b];
    forall j | from <= j < n + a ensures IsSpace(s[j]) {
      if j >= n {
        assert u[j - n] == s[j];
      }
    }
    forall j | n + b <= j < |s| ensures IsSpace(s[j]) {
      assert u[j - n] == s[j];
    }
  }

  /** `s.startsWith(p)`. */
  predicate StartsWith(s: string, p: string) {
    |p| <= |s| && s[..|p|] == p
  }

  /** `s.includes(t)`: `t` occurs somewhere in `s`. */
  predicate Includes(s: string, t: string)
    decreases |s|
  {
    StartsWith(s, t) || (s != [] && Includes(s[1..], t))
  }

  /** `t` occurs in `s` at position `i`. */
  predicate OccursAt(s: string, t: string, i: int) {
    0 <= i <= |s| - |t| && s[i..i + |t|] == t
  }

  /** `Includes` is the usual substring test: `t` occurs in `s` at some
      position. */
  lemma IncludesAt(s: string, t: string)
    ensures Includes(s, t) <==> exists i :: OccursAt(s, t, i)
  {
    if Includes(s, t) {
      var i := IncludesPosition(s, t);
    }
    if exists i :: OccursAt(s, t, i) {
      var i :| OccursAt(s, t, i);
      OccurrenceIncluded(s, t, i);
    }
  }

  /** Where `Includes` finds `t`: a position it occurs at. */
  lemma {:induction false} IncludesPosition(s: string, t: string) returns (i: int)
    requires Includes(s, t)
    ensures OccursAt(s, t, i)
    decreases |s|
  {
    if StartsWith(s, t) {
      i := 0;
      assert s[0..|t|] == s[..|t|];
    } else {
      var j := IncludesPosition(s[1..], t);
      i := j + 1;
      assert s[1..][j..j + |t|] == s[i..i + |t|];
    }
  }

  /** An occurrence at any position is found by `Includes`. */
  lemma {:induction false} OccurrenceIncluded(s: string, t: string, i: int)
    requires OccursAt(s, t, i)
    ensures Includes(s, t)
    decreases i
  {
    if i == 0 {
      assert s[..|t|] == s[0..|t|];
    } else {
      assert s[1..][i - 1..i - 1 + |t|] == s[i..i + |t|];
      OccurrenceIncluded(s[1..], t, i - 1);
    }
  }

  // `s.replace(/^##\s*/, '')`: a `##` at the very start of the string is
  // removed together with the white space after it; anything else is left
  // as it is.
  function StripHeadingMarks(s: string): (r: string)
    ensures !StartsWith(s, "##") ==> r == s
    ensures StartsWith(s, "##") ==> exists n :: PieceOf(s, 2, r, n, |s|)
    ensures StartsWith(s, "##") ==> r == [] || !IsSpace(r[0])
  {
    if StartsWith(s, "##") then
      var n := SpaceRunEnd(s, 2);
      assert From(s, n) == s[n..];
      assert PieceOf(s, 2, From(s, n), n, |s|);
      From(s, n)
    else s
  }

  /** `s.split(sep)` for a one-character separator: the maximal runs between
      separators, so there is always at least one part and `|s| + 1` parts
      at most. */
  function Split(s: string, sep: char): (parts: seq<string>)
    ensures 1 <= |parts| <= |s| + 1
    ensures forall i :: 0 <= i < |parts| ==> sep !in parts[i]
    decreases |s|
  {
    if s == [] then [""]
    else
      var rest := Split(s[1..], sep);
      if s[0] == sep then [""] + rest else [[s[0]] + rest[0]] + rest[1..]
  }

  /** `parts.join(sep)` for a one-character separator (`[].join(sep)` is
      the empty string). */
  function Join(parts: seq<string>, sep: char): string
  {
    if parts == [] then ""
    else if |parts| == 1 then parts[0]
    else Join(parts[..|parts| - 1], sep) + [sep] + parts[|parts| - 1]
  }

  /** Joining from the front: the first part, the separator, then the
      rest joined. */
  lemma {:induction false} JoinCons(p: string, ps: seq<string>, sep: char)
    requires ps != []
    ensures Join([p] + ps, sep) == p + [sep] + Join(ps, sep)
    decreases |ps|
  {
    var n := |ps| - 1;
    if n == 0 {
      assert ([p] + ps)[..1] == [p];
    } else {
      assert ([p] + ps)[..n + 1] == [p] + ps[..n];
      JoinCons(p, ps[..n], sep);
    }
  }

  /** Joining after gluing a character to the front of the first part is
      gluing it to the front of the join. */
  lemma JoinGlued(c: char, parts: seq<string>, sep: char)
    requires parts != []
    ensures Join([[c] + parts[0]] + parts[1..], sep) == [c] + Join(parts, sep)
  {
    if |parts| > 1 {
      JoinCons([c] + parts[0], parts[1..], sep);
      JoinCons(parts[0], parts[1..], sep);
      assert [parts[0]] + parts[1..] == parts;
    }
  }

  /** Joining the parts of a split gives back the string. */
  lemma {:induction false} JoinSplit(s: string, sep: char)
    ensures Join(Split(s, sep), sep) == s
    decreases |s|
  {
    if s != [] {
      var rest := Split(s[1..], sep);
      JoinSplit(s[1..], sep);
      assert s == [s[0]] + s[1..];
      if s[0] == sep {
        JoinCons("", rest, sep);
      } else {
        JoinGlued(s[0], rest, sep);
      }
    }
  }

  /** A string without the separator splits into itself alone. */
  lemma {:induction false} SplitWithoutSep(s: string, sep: char)
    requires sep !in s
    ensures Split(s, sep) == [s]
    decreases |s|
  {
    if s != [] {
      SplitWithoutSep(s[1..], sep);
      assert [s[0]] + s[1..] == s;
    }
  }

  /** Splitting at the first separator: the part before it comes first. */
  lemma {:induction false} SplitAtFirstSep(a: string, b: string, sep: char)
    requires sep !in a
    ensures Split(a + [sep] + b, sep) == [a] + Split(b, sep)
    decreases |a|
  {
    var s := a + [sep] + b;
    if a == [] {
      assert s[1..] == b;
    } else {
      assert s[1..] == a[1..] + [sep] + b;
      SplitAtFirstSep(a[1..], b, sep);
      assert [a[0]] + a[1..] == a;
    }
  }

  /** Splitting what was joined gives back the parts, as long as there is at
      least one part and no part holds the separator. */
  lemma {:induction false} SplitJoin(parts: seq<string>, sep: char)
    requires |parts| >= 1
    requires forall i :: 0 <= i < |parts| ==> sep !in parts[i]
    ensures Split(Join(parts, sep), sep) == parts
    decreases |parts|
  {
    if |parts| == 1 {
      SplitWithoutSep(parts[0], sep);
    } else {
      SplitJoin(parts[1..], sep);
      SplitAtFirstSep(parts[0], Join(parts[1..], sep), sep);
      assert [parts[0]] + parts[1..] == parts;
      JoinCons(parts[0], parts[1..], sep);
    }
  }

  /** Joining non-empty trimmed parts gives a trimmed string: its first and
      last characters are those of the first and last part. */
  lemma {:induction false} JoinTrimmed(parts: seq<string>, sep: char)
    requires forall i :: 0 <= i < |parts| ==> parts[i] != [] && Trimmed(parts[i])
    ensures parts != [] ==>
              && |Join(parts, sep)| >= 1
              && Join(parts, sep)[0] == parts[0][0]
              && Join(parts, sep)[|Join(parts, sep)| - 1] == parts[|parts| - 1][|parts[|parts| - 1]| - 1]
    ensures Trimmed(Join(parts, sep))
    decreases |parts|
  {
    if |parts| > 1 {
      JoinTrimmed(parts[..|parts| - 1], sep);
    }
  }

  /** `list.indexOf(c)` on a list of one-character names: the first
      position holding `c`, or -1 when there is none. */
  function IndexOf(s: string, c: char): (i: int)
    ensures -1 <= i < |s|
    ensures i == -1 <==> c !in s
    ensures i >= 0 ==> s[i] == c && c !in s[..i]
  {
    if s == [] then -1
    else if s[0] == c then 0
    else
      var j := IndexOf(s[1..], c);
      if j == -1 then -1 else j + 1
  }

  /** The value of a digit in radices up to 36; 36 for anything that is no
      digit at all. */
  function DigitValue(c: char): (v: nat)
    ensures v <= 36
  {
    if '0' <= c <= '9' then c as int - '0' as int
    else if 'a' <= c <= 'z' then c as int - 'a' as int + 10
    else if 'A' <= c <= 'Z' then c as int - 'A' as int + 10
    else 36
  }

  /** The end of the run of digits of the radix that starts at position `i`. */
  function DigitRunEnd(s: string, i: nat, radix: nat): (n: nat)
    requires i <= |s|
    ensures i <= n <= |s|
    ensures forall j :: i <= j < n ==> DigitValue(s[j]) < radix
    ensures n < |s| ==> DigitValue(s[n]) >= radix
    decreases |s| - i
  {
    if i < |s| && DigitValue(s[i]) < radix then DigitRunEnd(s, i + 1, radix) else i
  }

  /** The number the digits denote, most significant first. */
  function DigitsValue(d: string, radix: nat): nat
  {
    if d == [] then 0
    else DigitsValue(d[..|d| - 1], radix) * radix + DigitValue(d[|d| - 1])
  }

  /** Every character of `s` is a decimal digit. */
  predicate AllDigits(s: string) {
    forall i :: 0 <= i < |s| ==> '0' <= s[i] <= '9'
  }

  /** Every character of `s` is white space. */
  predicate AllSpace(s: string) {
    forall i :: 0 <= i < |s| ==> IsSpace(s[i])
  }

  /** `parseInt(s)` with no radix: leading white space is skipped, then the
      rest is read (ParseTrimmed); `None` stands for `NaN`. So a run of
      decimal digits parses to its decimal value, and a blank string is
      `NaN`. */
  function ParseInt(s: string): (r: Option<int>)
    ensures s != [] && AllDigits(s) ==> r == Some(DigitsValue(s, 10))
    ensures AllSpace(s) ==> r == None
  {
    DecimalRun(s);
    BlankRun(s);
    ParseTrimmed(TrimStart(s))
  }

  /** What `parseInt` reads once leading white space is skipped: one sign,
      a `0x` or `0X` prefix that selects radix 16, and the longest run of
      digits after that as the value; `None` when that run is empty. */
  function ParseTrimmed(t: string): Option<int>
  {
    var negative := t != [] && t[0] == '-';
    var sign := if t != [] && (t[0] == '+' || t[0] == '-') then 1 else 0;
    var hex := |t| >= sign + 2 && t[sign] == '0' && (t[sign + 1] == 'x' || t[sign + 1] == 'X');
    var radix := if hex then 16 else 10;
    var first := if hex then sign + 2 else sign;
    var end := DigitRunEnd(t, first, radix);
    var magnitude: int := DigitsValue(From(t[..end], first), radix);
    if end == first then None else Some(if negative then -magnitude else magnitude)
  }

  /** A run of decimal digits has no white space to skip, no sign and no
      `0x` prefix, and is one run of digits up to its end. */
  lemma DecimalRun(d: string)
    ensures d != [] && AllDigits(d) ==> TrimStart(d) == d && ParseTrimmed(d) == Some(DigitsValue(d, 10))
  {
    if d != [] && AllDigits(d) {
      assert SpaceRunEnd(d, 0) == 0 by {
        assert !IsSpace(d[0]);
      }
      FromStart(d);
      assert d[0] != '+' && d[0] != '-';
      if |d| >= 2 {
        assert d[1] != 'x' && d[1] != 'X';
      }
      DigitRunToEnd(d, 0, 10);
      assert d[..|d|] == d;
    }
  }

  /** A blank string has nothing left once its white space is skipped. */
  lemma BlankRun(d: string)
    ensures AllSpace(d) ==> TrimStart(d) == [] && ParseTrimmed([]) == None
  {
  }

  /** The suffix from the start is the whole string. */
  lemma FromStart(s: string)
    ensures From(s, 0) == s
  {
    assert forall j :: 0 <= j < |s| ==> From(s, 0)[j] == s[j];
  }

  /** A string made only of digits of the radix from position `i` on is a
      single run up to its end. */
  lemma {:induction false} DigitRunToEnd(s: string, i: nat, radix: nat)
    requires i <= |s|
    requires forall j :: i <= j < |s| ==> DigitValue(s[j]) < radix
    ensures DigitRunEnd(s, i, radix) == |s|
    decreases |s| - i
  {
    if i < |s| {
      DigitRunToEnd(s, i + 1, radix);
    }
  }
}
