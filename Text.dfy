/**
 * The JavaScript string built-ins the widget relies on, over `seq<char>`:
 * `trim`, `toLowerCase`, `startsWith`, `replace` with a string pattern,
 * `split` and `join` with a one-character separator, and `parseInt` of a
 * run of decimal digits.
 */
module Text {

  // ---- Characters ----

  predicate IsDigit(c: char) { '0' <= c <= '9' }

  /** The white space `String.prototype.trim` removes and the regex class `\s`
      matches: ECMAScript WhiteSpace and LineTerminator code points. */
  predicate IsSpace(c: char) {
    c == ' ' || c == '\t' || c == '\n' || c == '\r' || c == '\U{000B}' || c == '\U{000C}'
    || c == '\U{00A0}' || c == '\U{1680}' || ('\U{2000}' <= c <= '\U{200A}')
    || c == '\U{2028}' || c == '\U{2029}' || c == '\U{202F}' || c == '\U{205F}'
    || c == '\U{3000}' || c == '\U{FEFF}'
  }

  predicate IsUpper(c: char) { 'A' <= c <= 'Z' }

  function LowerChar(c: char): (d: char)
    ensures !IsUpper(d)
    ensures IsUpper(c) ==> d as int == c as int - 'A' as int + 'a' as int
    ensures !IsUpper(c) ==> d == c
    ensures IsDigit(d) <==> IsDigit(c)
    ensures IsSpace(d) <==> IsSpace(c)
  {
    if IsUpper(c) then (c as int - 'A' as int + 'a' as int) as char else c
  }

  // ---- Digits ----

  predicate AllDigits(s: string) { forall i | 0 <= i < |s| :: IsDigit(s[i]) }

  /** What `\d+` matches. */
  predicate IsDigits(s: string) { s != [] && AllDigits(s) }

  /** The value of a decimal digit (callers pass only digits). */
  function DigitValue(c: char): (n: nat)
    ensures n < 10
  {
    if IsDigit(c) then c as int - '0' as int else 0
  }

  /** `parseInt` (or `Number`) of a string of decimal digits. */
  function DigitsValue(s: string): nat
    decreases |s|
  {
    if s == [] then 0 else DigitsValue(s[..|s| - 1]) * 10 + DigitValue(s[|s| - 1])
  }

  // ---- toLowerCase ----

  /** `toLowerCase`, on the ASCII letters. */
  function Lower(s: string): (r: string)
    ensures |r| == |s|
    ensures forall i | 0 <= i < |s| :: r[i] == LowerChar(s[i])
  {
    seq(|s|, i requires 0 <= i < |s| => LowerChar(s[i]))
  }

  lemma LowerIdentity(s: string)
    requires forall i | 0 <= i < |s| :: !IsUpper(s[i])
    ensures Lower(s) == s
  {
  }

  /** Lower-casing twice is lower-casing once. */
  lemma LowerTwice(s: string)
    ensures Lower(Lower(s)) == Lower(s)
  {
    LowerIdentity(Lower(s));
  }

  // ---- trim ----

  function TrimStart(s: string): (r: string)
    ensures |r| <= |s| && r == s[|s| - |r|..]
    ensures forall i | 0 <= i < |s| - |r| :: IsSpace(s[i])
    ensures r != [] ==> !IsSpace(r[0])
    decreases |s|
  {
    if s != [] && IsSpace(s[0]) then TrimStart(s[1..]) else s
  }

  function TrimEnd(s: string): (r: string)
    ensures |r| <= |s| && r == s[..|r|]
    ensures forall i | |r| <= i < |s| :: IsSpace(s[i])
    ensures r != [] ==> !IsSpace(r[|r| - 1])
    decreases |s|
  {
    if s != [] && IsSpace(s[|s| - 1]) then TrimEnd(s[..|s| - 1]) else s
  }

  /** `trim`: the longest slice of `s` that neither begins nor ends with white space. */
  function Trim(s: string): (r: string)
    ensures var k := |s| - |TrimStart(s)|;
      && k + |r| <= |s| && r == s[k..k + |r|]
      && (forall i | 0 <= i < k :: IsSpace(s[i]))
      && (forall i | k + |r| <= i < |s| :: IsSpace(s[i]))
    ensures r != [] ==> !IsSpace(r[0]) && !IsSpace(r[|r| - 1])
  {
    TrimEnd(TrimStart(s))
  }

  lemma {:induction false} TrimIdentity(s: string)
    requires s != [] ==> !IsSpace(s[0]) && !IsSpace(s[|s| - 1])
    ensures Trim(s) == s
  {
  }

  lemma {:induction false} TrimLeadingSpace(c: char, s: string)
    requires IsSpace(c)
    requires s != [] && !IsSpace(s[0]) && !IsSpace(s[|s| - 1])
    ensures Trim([c] + s) == s
  {
    var u := [c] + s;
    assert u[0] == c && u[1..] == s;
    assert TrimStart(u) == TrimStart(s);
    assert TrimStart(s) == s;
    TrimIdentity(s);
  }

  /** Lower-casing keeps white space, so it commutes with trimming. */
  lemma {:induction false} LowerTrimStart(s: string)
    ensures TrimStart(Lower(s)) == Lower(TrimStart(s))
    decreases |s|
  {
    if s != [] && IsSpace(s[0]) {
      assert Lower(s)[1..] == Lower(s[1..]);
      LowerTrimStart(s[1..]);
    }
  }

  lemma {:induction false} LowerTrimEnd(s: string)
    ensures TrimEnd(Lower(s)) == Lower(TrimEnd(s))
    decreases |s|
  {
    if s != [] && IsSpace(s[|s| - 1]) {
      assert Lower(s)[..|s| - 1] == Lower(s[..|s| - 1]);
      LowerTrimEnd(s[..|s| - 1]);
    }
  }

  lemma {:induction false} LowerTrim(s: string)
    ensures Trim(Lower(s)) == Lower(Trim(s))
  {
    LowerTrimStart(s);
    LowerTrimEnd(TrimStart(s));
  }

  /** Every character of `Trim(s)` is a character of `s`. */
  lemma {:induction false} TrimChars(s: string, P: char -> bool)
    requires forall i | 0 <= i < |s| :: P(s[i])
    ensures forall i | 0 <= i < |Trim(s)| :: P(Trim(s)[i])
  {
    var t := TrimStart(s);
    assert forall i | 0 <= i < |t| :: t[i] == s[|s| - |t| + i];
    var r := TrimEnd(t);
    assert forall i | 0 <= i < |r| :: r[i] == t[i];
  }

  // ---- startsWith, replace ----

  predicate StartsWith(s: string, prefix: string) {
    |prefix| <= |s| && s[..|prefix|] == prefix
  }

  /** `pat` occurs somewhere in `s`. */
  predicate ContainsSub(s: string, pat: string)
    decreases |s|
  {
    |pat| <= |s| && (s[..|pat|] == pat || ContainsSub(s[1..], pat))
  }

  /** `s.replace(pat, "")` with a string pattern: only the first occurrence goes. */
  function RemoveFirst(s: string, pat: string): (r: string)
    ensures !ContainsSub(s, pat) ==> r == s
    decreases |s|
  {
    if |s| < |pat| then s
    else if s[..|pat|] == pat then s[|pat|..]
    else [s[0]] + RemoveFirst(s[1..], pat)
  }

  /** Only the first occurrence is removed: whatever follows it is kept,
      later occurrences of `pat` included. */
  lemma {:induction false} RemoveFirstKeepsRest(pat: string, rest: string)
    ensures RemoveFirst(pat + rest, pat) == rest
  {
    assert (pat + rest)[..|pat|] == pat;
    assert (pat + rest)[|pat|..] == rest;
  }

  /** The leftmost occurrence is the one removed: when `pat` does not begin
      anywhere in `x` (no occurrence ends before `pat` itself does), the
      text loses exactly that `pat`. */
  lemma {:induction false} RemoveFirstLeftmost(x: string, pat: string, y: string)
    requires pat != []
    requires !ContainsSub(x + pat[..|pat| - 1], pat)
    ensures RemoveFirst(x + pat + y, pat) == x + y
    decreases |x|
  {
    var s := x + pat + y;
    if x == [] {
      assert s == pat + y;
      RemoveFirstKeepsRest(pat, y);
    } else {
      var w := x + pat[..|pat| - 1];
      assert s[..|pat|] == w[..|pat|] by {
        forall p | 0 <= p < |pat| ensures s[p] == w[p] {
          if p >= |x| { assert s[p] == pat[p - |x|] == w[p]; }
        }
      }
      assert s[1..] == x[1..] + pat + y;
      assert w[1..] == x[1..] + pat[..|pat| - 1];
      RemoveFirstLeftmost(x[1..], pat, y);
      assert [s[0]] + (x[1..] + y) == x + y;
    }
  }

  /** A pattern whose `j`-th character appears in `s` only too late to
      start an occurrence does not occur in `s`. */
  lemma {:induction false} LateCharNoMatch(s: string, pat: string, j: nat)
    requires j < |pat|
    requires forall q | 0 <= q < |s| && q + |pat| <= |s| + j :: s[q] != pat[j]
    ensures !ContainsSub(s, pat)
    decreases |s|
  {
    if |pat| <= |s| {
      assert s[..|pat|][j] == s[j];
      var t := s[1..];
      assert forall q | 0 <= q < |t| && q + |pat| <= |t| + j :: t[q] == s[q + 1];
      LateCharNoMatch(t, pat, j);
    }
  }

  /** Lower-casing a concatenation lower-cases each part. */
  lemma LowerConcat(a: string, b: string)
    ensures Lower(a + b) == Lower(a) + Lower(b)
  {
  }

  /** A pattern holding a character that `s` lacks does not occur in `s`. */
  lemma {:induction false} MissingCharNoMatch(s: string, pat: string, c: char)
    requires c in pat && c !in s
    ensures !ContainsSub(s, pat)
    decreases |s|
  {
    if |pat| <= |s| {
      assert c !in s[..|pat|];
      assert s[1..] <= s[1..];
      assert forall x | x in s[1..] :: x in s;
      MissingCharNoMatch(s[1..], pat, c);
    }
  }

  /** A pattern without a space that occurs in neither `a` nor `b` does not
      occur in `a + " " + b` either. */
  lemma {:induction false} NoMatchAcrossSpace(a: string, b: string, pat: string)
    requires pat != [] && ' ' !in pat
    requires !ContainsSub(a, pat) && !ContainsSub(b, pat)
    ensures !ContainsSub(a + " " + b, pat)
    decreases |a|
  {
    var s := a + " " + b;
    if |pat| <= |s| {
      if |a| < |pat| {
        assert s[|a|] == ' ';
        assert s[..|pat|][|a|] == ' ';
      } else {
        assert s[..|pat|] == a[..|pat|];
      }
      if a == [] {
        assert s[1..] == b;
      } else {
        assert s[1..] == a[1..] + " " + b;
        assert !ContainsSub(a[1..], pat);
        NoMatchAcrossSpace(a[1..], b, pat);
      }
    }
  }

  /** `p + " " + a + " " + b` is `p` and a space before `a + " " + b`. */
  lemma SpaceRegroup(p: string, a: string, b: string)
    ensures p + " " + a + " " + b == p + " " + (a + " " + b)
  {
    var x := p + " ";
    assert x + a + " " + b == x + (a + " ") + b;
    assert x + (a + " ") + b == x + ((a + " ") + b);
  }

  /** `p + a + b` is `p + (a + b)`. */
  lemma Regroup(p: string, a: string, b: string)
    ensures p + a + b == p + (a + b)
  {
  }

  /** `p + a + " " + b` is `p` before `a + " " + b`. */
  lemma PrefixRegroup(p: string, a: string, b: string)
    ensures p + a + " " + b == p + (a + " " + b)
  {
    assert p + a + " " == p + (a + " ");
    assert p + (a + " ") + b == p + ((a + " ") + b);
  }

  /** Two spaces are a space before a space. */
  lemma TwoSpaces(p: string, b: string)
    ensures p + "  " + b == p + " " + (" " + b)
  {
    assert "  " == " " + " ";
    assert p + (" " + " ") == p + " " + " ";
  }

  /** A character property of two texts holds of their concatenation. */
  lemma ConcatChars(a: string, b: string, P: char -> bool)
    requires forall i | 0 <= i < |a| :: P(a[i])
    requires forall i | 0 <= i < |b| :: P(b[i])
    ensures forall i | 0 <= i < |a + b| :: P((a + b)[i])
  {
    forall i | 0 <= i < |a + b| ensures P((a + b)[i]) {
      if i >= |a| { assert (a + b)[i] == b[i - |a|]; }
    }
  }

  // ---- repeat ----

  /** `fill` repeated `n` times. */
  function Repeat(fill: char, n: nat): (r: string)
    ensures |r| == n && forall i | 0 <= i < n :: r[i] == fill
  {
    seq(n, _ => fill)
  }

  // ---- split, join ----

  /** `s.split(sep)`: the pieces between separators, empty pieces included. */
  function Split(s: string, sep: char): (parts: seq<string>)
    ensures |parts| >= 1
    decreases |s|
  {
    if s == [] then [[]]
    else
      var rest := Split(s[1..], sep);
      if s[0] == sep then [[]] + rest else [[s[0]] + rest[0]] + rest[1..]
  }

  /** `parts.join(sep)`. */
  function Join(parts: seq<string>, sep: char): string
    decreases |parts|
  {
    if |parts| == 0 then []
    else if |parts| == 1 then parts[0]
    else parts[0] + [sep] + Join(parts[1..], sep)
  }

  /** Joining the pieces with the separator gives the string back. */
  lemma {:induction false} JoinSplit(s: string, sep: char)
    ensures Join(Split(s, sep), sep) == s
    decreases |s|
  {
    if s != [] {
      var rest := Split(s[1..], sep);
      JoinSplit(s[1..], sep);
      if s[0] == sep {
        assert ([[]] + rest)[1..] == rest;
      } else if |rest| > 1 {
        var parts := [[s[0]] + rest[0]] + rest[1..];
        assert parts[1..] == rest[1..];
        assert Join(rest, sep) == rest[0] + [sep] + Join(rest[1..], sep);
      }
    }
  }

  lemma {:induction false} SplitNoSeparator(s: string, sep: char)
    requires sep !in s
    ensures Split(s, sep) == [s]
    decreases |s|
  {
    if s != [] {
      assert sep !in s[1..] by { assert forall x | x in s[1..] :: x in s; }
      SplitNoSeparator(s[1..], sep);
      assert [s[0]] + s[1..] == s;
    }
  }

  /** Splitting at the first separator. */
  lemma {:induction false} SplitAtFirst(a: string, b: string, sep: char)
    requires sep !in a
    ensures Split(a + [sep] + b, sep) == [a] + Split(b, sep)
    decreases |a|
  {
    var s := a + [sep] + b;
    if a == [] {
      assert s[1..] == b;
    } else {
      assert s[1..] == a[1..] + [sep] + b;
      assert sep !in a[1..] by { assert forall x | x in a[1..] :: x in a; }
      SplitAtFirst(a[1..], b, sep);
      assert [a[0]] + a[1..] == a;
    }
  }

  /** Every character of a join is a separator or a character of one of the parts. */
  lemma {:induction false} JoinChars(parts: seq<string>, sep: char, P: char -> bool)
    requires P(sep)
    requires forall k, i | 0 <= k < |parts| && 0 <= i < |parts[k]| :: P(parts[k][i])
    ensures forall i | 0 <= i < |Join(parts, sep)| :: P(Join(parts, sep)[i])
    decreases |parts|
  {
    if |parts| > 1 {
      JoinChars(parts[1..], sep, P);
      var j := Join(parts, sep);
      var r := Join(parts[1..], sep);
      assert j == parts[0] + [sep] + r;
      forall i | 0 <= i < |j| ensures P(j[i]) {
        if i < |parts[0]| {
          assert j[i] == parts[0][i];
        } else if i > |parts[0]| {
          assert j[i] == r[i - |parts[0]| - 1];
        }
      }
    }
  }
}
