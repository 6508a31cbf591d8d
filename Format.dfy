/**
 * `formatTime`: whole seconds to `HH:MM:SS`.  Hours, minutes and seconds
 * are written in decimal by `Number.prototype.toString` and left-padded
 * with "0" to two characters by `padStart(2, "0")`; hours past 99 keep all
 * their digits.
 */
module Format {
  import opened Text
  import Duration

  // ---- Number.prototype.toString and padStart ----

  function DigitChar(d: nat): (c: char)
    requires d < 10
    ensures IsDigit(c) && DigitValue(c) == d
  {
    ('0' as int + d) as char
  }

  /** The decimal numeral of `n`, without leading zeros. */
  function ToDecimal(n: nat): string
    decreases n
  {
    if n < 10 then [DigitChar(n)] else ToDecimal(n / 10) + [DigitChar(n % 10)]
  }

  /** `s.padStart(width, fill)` with a one-character fill. */
  function PadStart(s: string, width: nat, fill: char): (r: string)
    ensures |r| == if |s| >= width then |s| else width
    ensures r[|r| - |s|..] == s
    ensures forall i | 0 <= i < |r| - |s| :: r[i] == fill
  {
    if |s| >= width then s else Repeat(fill, width - |s|) + s
  }

  /** One field of the display. */
  function Field(n: nat): string {
    PadStart(ToDecimal(n), 2, '0')
  }

  /** `formatTime(totalSeconds)` for a non-negative whole number of seconds. */
  function FormatTime(totalSeconds: nat): string {
    var hours := totalSeconds / 3600;
    var rest := totalSeconds % 3600;
    var minutes := rest / 60;
    var seconds := rest % 60;
    Field(hours) + ":" + Field(minutes) + ":" + Field(seconds)
  }

  // ---- Numerals ----

  lemma DigitsValueSnoc(s: string, c: char)
    ensures DigitsValue(s + [c]) == DigitsValue(s) * 10 + DigitValue(c)
  {
    assert (s + [c])[..|s|] == s;
  }

  /** `toString` gives a run of digits that reads back as the number, with
      no leading zero except in "0" itself. */
  lemma {:induction false} ToDecimalReadsBack(n: nat)
    ensures IsDigits(ToDecimal(n))
    ensures DigitsValue(ToDecimal(n)) == n
    ensures (ToDecimal(n)[0] == '0') <==> n == 0
    ensures |ToDecimal(n)| == 1 <==> n < 10
    decreases n
  {
    if n >= 10 {
      var r := ToDecimal(n / 10);
      ToDecimalReadsBack(n / 10);
      DigitsValueSnoc(r, DigitChar(n % 10));
      assert (r + [DigitChar(n % 10)])[0] == r[0];
    } else {
      assert ToDecimal(n) == [DigitChar(n)];
      assert [DigitChar(n)][..0] == [];
    }
  }

  /** Leading zeros do not change the value of a run of digits. */
  lemma {:induction false} LeadingZeros(k: nat, s: string)
    ensures DigitsValue(Repeat('0', k) + s) == DigitsValue(s)
    decreases |s|, k
  {
    if s == [] {
      assert Repeat('0', k) + s == Repeat('0', k);
      if k > 0 {
        LeadingZeros(k - 1, []);
        assert Repeat('0', k) == Repeat('0', k - 1) + ['0'];
        assert Repeat('0', k - 1) + [] == Repeat('0', k - 1);
        DigitsValueSnoc(Repeat('0', k - 1), '0');
      }
    } else {
      var init := s[..|s| - 1];
      var c := s[|s| - 1];
      assert s == init + [c];
      assert Repeat('0', k) + s == (Repeat('0', k) + init) + [c];
      DigitsValueSnoc(Repeat('0', k) + init, c);
      DigitsValueSnoc(init, c);
      LeadingZeros(k, init);
    }
  }

  /** A field is at least two digits long, exactly two below 100, and reads back as its number. */
  lemma FieldReadsBack(n: nat)
    ensures IsDigits(Field(n)) && |Field(n)| >= 2
    ensures n < 100 ==> |Field(n)| == 2
    ensures DigitsValue(Field(n)) == n
  {
    var d := ToDecimal(n);
    ToDecimalReadsBack(n);
    if n < 10 {
      assert Field(n) == Repeat('0', 1) + d;
      LeadingZeros(1, d);
    } else {
      assert |ToDecimal(n / 10)| >= 1;
      if n < 100 {
        ToDecimalReadsBack(n / 10);
      }
    }
  }

  // ---- What the display promises ----

  /** Where the fields of `h:m:s` sit when the last two have two characters. */
  lemma ThreeFields(h: string, m: string, s: string)
    requires |m| == 2 && |s| == 2
    ensures var r := h + ":" + m + ":" + s;
      && |r| == |h| + 6 && r[|r| - 6] == ':' && r[|r| - 3] == ':'
      && r[..|r| - 6] == h && r[|r| - 5..|r| - 3] == m && r[|r| - 2..] == s
  {
  }

  /** Hours, minutes and seconds as `formatTime` computes them add back up. */
  lemma SplitSeconds(t: nat, h: nat, m: nat, s: nat)
    requires h == t / 3600 && m == t % 3600 / 60 && s == t % 3600 % 60
    ensures h * 3600 + m * 60 + s == t && m < 60 && s < 60
  {
  }

  /** Three fields that read back as hours, minutes and seconds adding up to
      `t`, written `h:m:s`. */
  lemma DisplayOf(h: string, m: string, s: string, t: nat)
    requires IsDigits(h) && |h| >= 2 && IsDigits(m) && |m| == 2 && IsDigits(s) && |s| == 2
    requires DigitsValue(m) < 60 && DigitsValue(s) < 60
    requires DigitsValue(h) * 3600 + DigitsValue(m) * 60 + DigitsValue(s) == t
    ensures var r := h + ":" + m + ":" + s;
      && |r| >= 8 && r[|r| - 6] == ':' && r[|r| - 3] == ':'
      && var h' := r[..|r| - 6]; var m' := r[|r| - 5..|r| - 3]; var s' := r[|r| - 2..];
      && IsDigits(h') && |h'| >= 2 && IsDigits(m') && IsDigits(s')
      && DigitsValue(m') < 60 && DigitsValue(s') < 60
      && DigitsValue(h') * 3600 + DigitsValue(m') * 60 + DigitsValue(s') == t
  {
    ThreeFields(h, m, s);
  }

  /** The display is `H:MM:SS` read from the right: the last two fields
      have exactly two digits and values below 60, the hours have at least
      two digits, and the three fields add back up to the input. */
  lemma FormatTimeFields(t: nat)
    ensures var r := FormatTime(t);
      && |r| >= 8 && r[|r| - 6] == ':' && r[|r| - 3] == ':'
      && var h := r[..|r| - 6]; var m := r[|r| - 5..|r| - 3]; var s := r[|r| - 2..];
      && IsDigits(h) && |h| >= 2 && IsDigits(m) && IsDigits(s)
      && DigitsValue(m) < 60 && DigitsValue(s) < 60
      && DigitsValue(h) * 3600 + DigitsValue(m) * 60 + DigitsValue(s) == t
  {
    var hv, mv, sv := t / 3600, t % 3600 / 60, t % 3600 % 60;
    SplitSeconds(t, hv, mv, sv);
    FieldReadsBack(hv);
    FieldReadsBack(mv);
    FieldReadsBack(sv);
    assert FormatTime(t) == Field(hv) + ":" + Field(mv) + ":" + Field(sv);
    DisplayOf(Field(hv), Field(mv), Field(sv), t);
  }

  /** Below 100 hours the display is exactly eight characters. */
  lemma FormatTimeWidth(t: nat)
    requires t < 360000
    ensures |FormatTime(t)| == 8
  {
    FieldReadsBack(t / 3600);
    FieldReadsBack(t % 3600 / 60);
    FieldReadsBack(t % 3600 % 60);
  }

  /** Reading the display back with the duration parser gives the seconds
      it was made from: the `H:M:S` form takes every field as written. */
  lemma FormatTimeRoundTrip(t: nat)
    ensures Duration.HumanSeconds(FormatTime(t)) == t
  {
    var h, m, s := Field(t / 3600), Field(t % 3600 / 60), Field(t % 3600 % 60);
    FieldReadsBack(t / 3600);
    FieldReadsBack(t % 3600 / 60);
    FieldReadsBack(t % 3600 % 60);
    Duration.HoursMinutesSecondsForm(h, m, s);
  }

  /** Different durations are displayed differently. */
  lemma FormatTimeInjective(a: nat, b: nat)
    requires FormatTime(a) == FormatTime(b)
    ensures a == b
  {
    FormatTimeRoundTrip(a);
    FormatTimeRoundTrip(b);
  }
}
