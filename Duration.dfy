/**
 * `parseHumanTime`: duration text to whole seconds.  Two forms are read:
 * the colon form `M:S` or `H:M:S`, and otherwise a scan for tokens
 * `digits, optional white space, h|m|s` whose values are summed.  The
 * unit alternatives of the regex all begin with `h`, `m` or `s` and list
 * the single letter first, so a token ends at that letter and the rest of
 * a word such as "hours" is skipped like any other text.
 */
module Duration {
  import opened Text

  // ---- The unit form ----

  predicate IsUnitLetter(c: char) { c == 'h' || c == 'm' || c == 's' }

  /** `value` units in seconds, the unit chosen by its first letter:
      `h` counts 3600, `m` 60 and `s` 1. */
  function InSeconds(value: nat, c: char): nat
    requires IsUnitLetter(c)
  {
    if c == 'h' then value * 3600 else if c == 'm' then value * 60 else value
  }

  /** The end of the run of digits that starts at `i`. */
  function DigitEnd(s: string, i: nat): (j: nat)
    requires i <= |s|
    ensures i <= j <= |s|
    decreases |s| - i
  {
    if i < |s| && IsDigit(s[i]) then DigitEnd(s, i + 1) else i
  }

  /** The end of the run of white space that starts at `j`. */
  function SpaceEnd(s: string, j: nat): (k: nat)
    requires j <= |s|
    ensures j <= k <= |s|
    decreases |s| - j
  {
    if j < |s| && IsSpace(s[j]) then SpaceEnd(s, j + 1) else j
  }

  /** One attempt of `(\d+)\s*[hms]` at position `i`: the value it adds
      (0 when it does not match) and where the next attempt starts (after
      the unit letter on a match, one position on otherwise). */
  function MatchAt(s: string, i: nat): (m: (nat, nat))
    requires i < |s|
    ensures i < m.1 <= |s|
  {
    if IsDigit(s[i]) && SpaceEnd(s, DigitEnd(s, i)) < |s| && IsUnitLetter(s[SpaceEnd(s, DigitEnd(s, i))]) then
      var j := DigitEnd(s, i);
      var k := SpaceEnd(s, j);
      (InSeconds(DigitsValue(s[i..j]), s[k]), k + 1)
    else (0, i + 1)
  }

  /** The sum the global regex loop accumulates from position `i` on. */
  function UnitSum(s: string, i: nat): nat
    requires i <= |s|
    decreases |s| - i
  {
    if i == |s| then 0
    else
      var m := MatchAt(s, i);
      m.0 + UnitSum(s, m.1)
  }

  // ---- The colon form ----

  /** `/^\d+(:\d+){1,2}$/`: two or three runs of digits joined by colons. */
  predicate IsColonForm(s: string) {
    var parts := Split(s, ':');
    (|parts| == 2 || |parts| == 3) && forall k | 0 <= k < |parts| :: IsDigits(parts[k])
  }

  /** `split(":").map(Number)`, then minutes and seconds, or hours, minutes and seconds. */
  function ColonValue(s: string): nat
    requires IsColonForm(s)
  {
    var parts := Split(s, ':');
    if |parts| == 2 then DigitsValue(parts[0]) * 60 + DigitsValue(parts[1])
    else DigitsValue(parts[0]) * 3600 + DigitsValue(parts[1]) * 60 + DigitsValue(parts[2])
  }

  /** The value `parseHumanTime(str)` returns. */
  function HumanSeconds(str: string): nat
  {
    if str == [] then 0
    else
      var s := Lower(Trim(str));
      if IsColonForm(s) then ColonValue(s) else UnitSum(s, 0)
  }

  /** `parseHumanTime`, with its regex loop written as a scan over the text. */
  method ParseHumanTime(str: string) returns (total: nat)
    ensures total == HumanSeconds(str)
  {
    if str == [] {
      return 0;
    }
    var s := Lower(Trim(str));
    if IsColonForm(s) {
      return ColonValue(s);
    }
    total := ScanUnits(s);
  }

  /** The `while (regex.exec(str))` loop. */
  method ScanUnits(s: string) returns (total: nat)
    ensures total == UnitSum(s, 0)
  {
    total := 0;
    var i := 0;
    while i < |s|
      invariant 0 <= i <= |s|
      invariant total + UnitSum(s, i) == UnitSum(s, 0)
    {
      if IsDigit(s[i]) {
        var j, value := ReadDigits(s, i);
        var k := SkipSpaces(s, j);
        if k < |s| && IsUnitLetter(s[k]) {
          total, i := total + InSeconds(value, s[k]), k + 1;
        } else {
          i := i + 1;
        }
      } else {
        i := i + 1;
      }
    }
  }

  /** `(\d+)` at position `i`, read as `parseInt` reads it. */
  method ReadDigits(s: string, i: nat) returns (j: nat, value: nat)
    requires i <= |s|
    ensures j == DigitEnd(s, i)
    ensures value == DigitsValue(s[i..j])
  {
    j, value := i, 0;
    while j < |s| && IsDigit(s[j])
      invariant i <= j <= |s|
      invariant value == DigitsValue(s[i..j])
      invariant DigitEnd(s, i) == DigitEnd(s, j)
    {
      assert s[i..j + 1][..j - i] == s[i..j];
      value := value * 10 + DigitValue(s[j]);
      j := j + 1;
    }
  }

  /** `\s*` at position `j`. */
  method SkipSpaces(s: string, j: nat) returns (k: nat)
    requires j <= |s|
    ensures k == SpaceEnd(s, j)
  {
    k := j;
    while k < |s| && IsSpace(s[k])
      invariant j <= k <= |s|
      invariant SpaceEnd(s, j) == SpaceEnd(s, k)
    {
      k := k + 1;
    }
  }

  // ---- What the parser promises ----

  /** Text that is already trimmed and lower-case goes straight to the two forms. */
  lemma {:induction false} HumanSecondsOfNormal(s: string)
    requires s != [] && !IsSpace(s[0]) && !IsSpace(s[|s| - 1])
    requires forall i | 0 <= i < |s| :: !IsUpper(s[i])
    ensures HumanSeconds(s) == if IsColonForm(s) then ColonValue(s) else UnitSum(s, 0)
  {
    TrimIdentity(s);
    LowerIdentity(s);
  }

  /** White space before the text is trimmed away. */
  lemma LeadingSpaceIgnored(c: char, s: string)
    requires IsSpace(c)
    ensures HumanSeconds([c] + s) == HumanSeconds(s)
  {
    var u := [c] + s;
    assert u[1..] == s;
    assert TrimStart(u) == TrimStart(s);
  }

  /** The text is lower-cased before it is read, so case does not matter. */
  lemma {:induction false} HumanSecondsIgnoresCase(str: string)
    ensures HumanSeconds(Lower(str)) == HumanSeconds(str)
  {
    if str != [] {
      LowerTrim(str);
      LowerTwice(Trim(str));
    }
  }

  /** Runs of digits joined by colons: trimmed, lower-case, and split back into those runs. */
  lemma {:induction false} ColonText(parts: seq<string>)
    requires |parts| >= 1 && forall k | 0 <= k < |parts| :: IsDigits(parts[k])
    ensures var t := Join(parts, ':');
      && Split(t, ':') == parts
      && t != [] && !IsSpace(t[0]) && !IsSpace(t[|t| - 1])
      && forall i | 0 <= i < |t| :: !IsUpper(t[i])
    decreases |parts|
  {
    var t := Join(parts, ':');
    JoinChars(parts, ':', c => IsDigit(c) || c == ':');
    assert ':' !in parts[0];
    if |parts| == 1 {
      SplitNoSeparator(parts[0], ':');
    } else {
      ColonText(parts[1..]);
      var r := Join(parts[1..], ':');
      assert t == parts[0] + [':'] + r;
      SplitAtFirst(parts[0], r, ':');
      assert t[|t| - 1] == r[|r| - 1];
    }
  }

  /** "M:S" is read as M*60 + S, with no range check on either field. */
  lemma {:induction false} MinutesSecondsForm(m: string, s: string)
    requires IsDigits(m) && IsDigits(s)
    ensures HumanSeconds(m + ":" + s) == DigitsValue(m) * 60 + DigitsValue(s)
  {
    assert m + ":" + s == Join([m, s], ':');
    ColonRead([m, s]);
  }

  /** "H:M:S" is read as H*3600 + M*60 + S, with no range check on the fields. */
  lemma {:induction false} HoursMinutesSecondsForm(h: string, m: string, s: string)
    requires IsDigits(h) && IsDigits(m) && IsDigits(s)
    ensures HumanSeconds(h + ":" + m + ":" + s)
         == DigitsValue(h) * 3600 + DigitsValue(m) * 60 + DigitsValue(s)
  {
    assert h + ":" + m + ":" + s == Join([h, m, s], ':') by {
      assert [h, m, s][1..] == [m, s];
      assert Join([m, s], ':') == m + ":" + s;
      assert Join([h, m, s], ':') == h + [':'] + (m + ":" + s);
    }
    ColonRead([h, m, s]);
  }

  /** Two or three runs of digits joined by colons are read in the colon form. */
  lemma {:induction false} ColonRead(parts: seq<string>)
    requires (|parts| == 2 || |parts| == 3) && forall k | 0 <= k < |parts| :: IsDigits(parts[k])
    ensures var t := Join(parts, ':');
      IsColonForm(t) && HumanSeconds(t) == ColonValue(t) && Split(t, ':') == parts
  {
    var t := Join(parts, ':');
    ColonText(parts);
    HumanSecondsOfNormal(t);
  }

  /** Text in the colon form consists of digits and colons and begins with a digit. */
  lemma {:induction false} ColonFormChars(s: string)
    requires IsColonForm(s)
    ensures s != [] && IsDigit(s[0])
    ensures forall i | 0 <= i < |s| :: IsDigit(s[i]) || s[i] == ':'
  {
    var parts := Split(s, ':');
    JoinSplit(s, ':');
    JoinChars(parts, ':', c => IsDigit(c) || c == ':');
    assert Join(parts, ':') == parts[0] + [':'] + Join(parts[1..], ':');
  }

  /** Text without a digit does not reach the scan's addition. */
  lemma {:induction false} SkipNonDigits(s: string, i: nat, j: nat)
    requires i <= j <= |s|
    requires forall p | i <= p < j :: !IsDigit(s[p])
    ensures UnitSum(s, i) == UnitSum(s, j)
    decreases j - i
  {
    if i < j {
      SkipNonDigits(s, i + 1, j);
    }
  }

  /** Text with no digit at all, the empty text included, parses to 0. */
  lemma {:induction false} NoDigitsGivesZero(str: string)
    requires forall i | 0 <= i < |str| :: !IsDigit(str[i])
    ensures HumanSeconds(str) == 0
  {
    if str != [] {
      TrimChars(str, c => !IsDigit(c));
      var s := Lower(Trim(str));
      if IsColonForm(s) {
        ColonFormChars(s);
        assert false;
      }
      SkipNonDigits(s, 0, |s|);
    }
  }

  /** No run of digits in `s` is followed, after optional white space, by
      a unit letter: the regex `(\d+)\s*[hms]` finds no match. */
  predicate NoUnitMatch(s: string) {
    forall p | 0 <= p < |s| && IsDigit(s[p]) ::
      SpaceEnd(s, DigitEnd(s, p)) == |s| || !IsUnitLetter(s[SpaceEnd(s, DigitEnd(s, p))])
  }

  /** Where the regex finds no match the scan adds nothing. */
  lemma {:induction false} NoMatchScansToZero(s: string, i: nat)
    requires i <= |s| && NoUnitMatch(s)
    ensures UnitSum(s, i) == 0
    decreases |s| - i
  {
    if i < |s| {
      assert MatchAt(s, i) == (0, i + 1);
      NoMatchScansToZero(s, i + 1);
    }
  }

  /** Text that is not in the colon form and holds no `digits [white space]
      h|m|s` token parses to 0, digits or not. */
  lemma {:induction false} NoTokenGivesZero(str: string)
    requires !IsColonForm(Lower(Trim(str))) && NoUnitMatch(Lower(Trim(str)))
    ensures HumanSeconds(str) == 0
  {
    if str != [] {
      NoMatchScansToZero(Lower(Trim(str)), 0);
    }
  }

  /** A bare number such as "90", without a unit, parses to 0. */
  lemma {:induction false} BareNumberGivesZero(d: string)
    requires IsDigits(d)
    ensures HumanSeconds(d) == 0
  {
    HumanSecondsOfNormal(d);
    assert ':' !in d;
    SplitNoSeparator(d, ':');
    forall p | 0 <= p < |d| && IsDigit(d[p]) ensures DigitEnd(d, p) == |d| {
      DigitEndAt(d, p, |d|);
    }
    NoMatchScansToZero(d, 0);
  }

  // ---- Tokens of the unit form ----

  /** The unit words of the regex, in the order it lists them. */
  const UnitWords: set<string> :=
    {"h", "hr", "hrs", "hour", "hours", "m", "min", "mins", "minute", "minutes",
     "s", "sec", "secs", "second", "seconds"}

  /** A lower-case word that the scan reads as a unit: it begins with h, m or s.
      Every word of the regex is one; so is any other such word. */
  predicate IsUnitWord(u: string) {
    u != [] && IsUnitLetter(u[0]) && forall i | 0 <= i < |u| :: 'a' <= u[i] <= 'z'
  }

  lemma RegexUnitsAreUnitWords()
    ensures forall u | u in UnitWords :: IsUnitWord(u)
  {
  }

  /** One `<digits><white space><unit word>` token. */
  datatype Token = Token(digits: string, gap: nat, unit: string)
  {
    predicate WellFormed() { IsDigits(digits) && IsUnitWord(unit) }

    function Text(): string {
      digits + Repeat(' ', gap) + unit
    }

    function Seconds(): nat {
      if unit != [] && IsUnitLetter(unit[0]) then InSeconds(DigitsValue(digits), unit[0]) else 0
    }
  }

  /** Tokens written out one after the other, separated by single spaces. */
  function Render(ts: seq<Token>): string
    decreases |ts|
  {
    if ts == [] then []
    else if |ts| == 1 then ts[0].Text()
    else ts[0].Text() + " " + Render(ts[1..])
  }

  function Total(ts: seq<Token>): nat
    decreases |ts|
  {
    if ts == [] then 0 else ts[0].Seconds() + Total(ts[1..])
  }

  lemma {:induction false} DigitEndAt(s: string, i: nat, j: nat)
    requires i <= j <= |s|
    requires forall p | i <= p < j :: IsDigit(s[p])
    requires j < |s| ==> !IsDigit(s[j])
    ensures DigitEnd(s, i) == j
    decreases j - i
  {
    if i < j {
      DigitEndAt(s, i + 1, j);
    }
  }

  lemma {:induction false} SpaceEndAt(s: string, j: nat, k: nat)
    requires j <= k <= |s|
    requires forall p | j <= p < k :: IsSpace(s[p])
    requires k < |s| ==> !IsSpace(s[k])
    ensures SpaceEnd(s, j) == k
    decreases k - j
  {
    if j < k {
      SpaceEndAt(s, j + 1, k);
    }
  }

  /** Where the digits, the white space and the unit word of a token sit. */
  lemma TokenLayout(t: Token)
    requires t.WellFormed()
    ensures var x := t.Text(); var j := |t.digits|; var k := j + t.gap;
      && |x| == k + |t.unit|
      && (forall p | 0 <= p < j :: x[p] == t.digits[p])
      && (forall p | j <= p < k :: x[p] == ' ')
      && (forall p | k <= p < |x| :: x[p] == t.unit[p - k])
  {
  }

  /** One unfolding of `UnitSum` at a number followed by a unit letter. */
  lemma UnitSumAtNumber(s: string, i: nat, j: nat, k: nat, t: Token)
    requires t.WellFormed()
    requires i < |s| && IsDigit(s[i]) && DigitEnd(s, i) == j && SpaceEnd(s, j) == k
    requires s[i..j] == t.digits && k < |s| && s[k] == t.unit[0]
    ensures UnitSum(s, i) == t.Seconds() + UnitSum(s, k + 1)
  {
    assert t.Seconds() == InSeconds(DigitsValue(s[i..j]), s[k]);
  }

  /** A token at position `i` adds its value, and the scan goes on after it. */
  lemma {:induction false} ScanToken(s: string, i: nat, n: nat, t: Token)
    requires t.WellFormed()
    requires n == i + |t.Text()| && n <= |s| && s[i..n] == t.Text()
    ensures UnitSum(s, i) == t.Seconds() + UnitSum(s, n)
  {
    TokenHead(s, i, t);
    TokenTail(s, i, t);
  }

  /** The scan at a token's first digit matches the token's number and unit letter. */
  lemma TokenHead(s: string, i: nat, t: Token)
    requires t.WellFormed()
    requires i + |t.Text()| <= |s| && s[i..i + |t.Text()|] == t.Text()
    ensures UnitSum(s, i) == t.Seconds() + UnitSum(s, i + |t.digits| + t.gap + 1)
  {
    var x := t.Text();
    var j := i + |t.digits|;
    var k := j + t.gap;
    TokenLayout(t);
    assert forall p | i <= p < i + |x| :: s[p] == x[p - i];
    DigitEndAt(s, i, j);
    SpaceEndAt(s, j, k);
    assert s[i..j] == t.digits;
    UnitSumAtNumber(s, i, j, k, t);
  }

  /** The rest of a token's unit word holds no digit. */
  lemma TokenTail(s: string, i: nat, t: Token)
    requires t.WellFormed()
    requires i + |t.Text()| <= |s| && s[i..i + |t.Text()|] == t.Text()
    ensures UnitSum(s, i + |t.digits| + t.gap + 1) == UnitSum(s, i + |t.Text()|)
  {
    var x := t.Text();
    TokenLayout(t);
    assert forall p | i + |t.digits| + t.gap + 1 <= p < i + |x| :: s[p] == x[p - i];
    SkipNonDigits(s, i + |t.digits| + t.gap + 1, i + |x|);
  }

  /** Scanning rendered tokens sums their values. */
  lemma {:induction false} ScanRender(s: string, i: nat, ts: seq<Token>)
    requires forall k | 0 <= k < |ts| :: ts[k].WellFormed()
    requires i <= |s| && s[i..] == Render(ts)
    ensures UnitSum(s, i) == Total(ts)
    decreases |ts|, 1
  {
    if ts != [] {
      var x := ts[0].Text();
      var n := i + |x|;
      var rest := Render(ts[1..]);
      assert n <= |s| && s[i..n] == x && (|ts| == 1 ==> n == |s|)
        && (|ts| > 1 ==> n < |s| && s[n] == ' ' && s[n + 1..] == rest) by {
        if |ts| == 1 {
          assert Render(ts) == x;
        } else {
          assert Render(ts) == x + " " + rest;
          assert s[i..][..|x|] == x;
          assert s[i..][|x|] == ' ';
          assert s[i..][|x| + 1..] == rest;
        }
      }
      if |ts| == 1 {
        ScanToken(s, i, n, ts[0]);
      } else {
        ScanTokenThenSpace(s, i, n, ts[0]);
        ScanRenderMore(s, i, n, ts[0].Seconds(), ts[1..]);
        assert Total(ts) == ts[0].Seconds() + Total(ts[1..]);
      }
    }
  }

  /** The scan steps over a position that holds no digit. */
  lemma SkipNonDigit(s: string, n: nat)
    requires n < |s| && !IsDigit(s[n])
    ensures UnitSum(s, n) == UnitSum(s, n + 1)
  {
  }

  /** One step of `ScanRender`: after the first token, worth `head`, and
      the space after it, the rest. */
  lemma ScanRenderMore(s: string, i: nat, n: nat, head: nat, rest: seq<Token>)
    requires forall k | 0 <= k < |rest| :: rest[k].WellFormed()
    requires i <= n < |s| && s[n + 1..] == Render(rest)
    requires UnitSum(s, i) == head + UnitSum(s, n + 1)
    ensures UnitSum(s, i) == head + Total(rest)
    decreases |rest| + 1, 0
  {
    ScanRender(s, n + 1, rest);
  }

  /** A token followed by a space: the scan goes on after the space. */
  lemma ScanTokenThenSpace(s: string, i: nat, n: nat, t: Token)
    requires t.WellFormed()
    requires n == i + |t.Text()| && n < |s| && s[i..n] == t.Text() && s[n] == ' '
    ensures UnitSum(s, i) == t.Seconds() + UnitSum(s, n + 1)
  {
    ScanToken(s, i, n, t);
    SkipNonDigit(s, n);
  }

  /** The rendered tokens contain no upper-case letter, begin with a digit,
      end with a letter, and hold a unit letter at `|digits| + gap`. */
  lemma {:induction false} RenderShape(ts: seq<Token>)
    requires ts != [] && forall k | 0 <= k < |ts| :: ts[k].WellFormed()
    ensures var r := Render(ts);
      && r != [] && IsDigit(r[0]) && !IsSpace(r[|r| - 1])
      && |ts[0].digits| + ts[0].gap < |r| && IsUnitLetter(r[|ts[0].digits| + ts[0].gap])
      && forall i | 0 <= i < |r| :: !IsUpper(r[i])
    decreases |ts|
  {
    var t := ts[0];
    var x := t.Text();
    assert x[|t.digits| + t.gap] == t.unit[0];
    assert forall i | 0 <= i < |x| :: !IsUpper(x[i]) by {
      forall i | 0 <= i < |x| ensures !IsUpper(x[i]) {
        if i >= |t.digits| + t.gap { assert x[i] == t.unit[i - |t.digits| - t.gap]; }
      }
    }
    if |ts| > 1 {
      RenderShape(ts[1..]);
      var r := Render(ts);
      var rest := Render(ts[1..]);
      assert r == x + " " + rest;
      forall i | 0 <= i < |r| ensures !IsUpper(r[i]) {
        if i < |x| { assert r[i] == x[i]; }
        else if i > |x| { assert r[i] == rest[i - |x| - 1]; }
      }
    }
  }

  /** Parsing rendered tokens sums their values: each token contributes
      digits times 3600, 60 or 1 according to its unit's first letter. */
  lemma {:induction false} RenderedTokensSum(ts: seq<Token>)
    requires forall k | 0 <= k < |ts| :: ts[k].WellFormed()
    ensures HumanSeconds(Render(ts)) == Total(ts)
  {
    if ts != [] {
      var r := Render(ts);
      RenderShape(ts);
      HumanSecondsOfNormal(r);
      if IsColonForm(r) {
        ColonFormChars(r);
        assert false;
      }
      ScanRender(r, 0, ts);
    }
  }

  lemma {:induction false} TotalAppend(ts: seq<Token>, us: seq<Token>)
    requires forall k | 0 <= k < |ts| :: ts[k].WellFormed()
    requires forall k | 0 <= k < |us| :: us[k].WellFormed()
    ensures forall k | 0 <= k < |ts + us| :: (ts + us)[k].WellFormed()
    ensures Total(ts + us) == Total(ts) + Total(us)
    decreases |ts|
  {
    if ts != [] {
      assert (ts + us)[0] == ts[0];
      assert (ts + us)[1..] == ts[1..] + us;
      TotalAppend(ts[1..], us);
    } else {
      assert ts + us == us;
    }
  }

  /** The order of the tokens does not matter: "1h 30m" and "30m 1h" agree. */
  lemma {:induction false} TokenOrderIrrelevant(ts: seq<Token>, us: seq<Token>)
    requires forall k | 0 <= k < |ts| :: ts[k].WellFormed()
    requires forall k | 0 <= k < |us| :: us[k].WellFormed()
    ensures HumanSeconds(Render(ts + us)) == HumanSeconds(Render(us + ts))
  {
    TotalAppend(ts, us);
    TotalAppend(us, ts);
    RenderedTokensSum(ts + us);
    RenderedTokensSum(us + ts);
  }
}
