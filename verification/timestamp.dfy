/** The run timestamp, `datetime.now().strftime("%Y%m%d_%H%M%S")`.

    The clock is not modelled: a timestamp is a value handed in by the caller.
    Formatting is shown to be invertible, so two distinct seconds never format to
    the same text. */
module Timestamps {
  import opened Wrappers

  datatype Timestamp = Timestamp(year: int, month: int, day: int,
                                 hour: int, minute: int, second: int)
  {
    /** The fields `datetime` allows, with four-digit years. */
    predicate Valid() {
      && 1000 <= year <= 9999
      && 1 <= month <= 12
      && 1 <= day <= 31
      && 0 <= hour <= 23
      && 0 <= minute <= 59
      && 0 <= second <= 59
    }
  }

  function Digit(d: int): (c: char)
    requires 0 <= d <= 9
    ensures '0' <= c <= '9'
  {
    ('0' as int + d) as char
  }

  function DigitValue(c: char): int {
    c as int - '0' as int
  }

  /** Every character is a decimal digit. */
  predicate AllDigits(s: string) {
    forall i :: 0 <= i < |s| ==> '0' <= s[i] <= '9'
  }

  /** The `%Y%m%d_%H%M%S` layout: fifteen characters, `_` at index 8 and a decimal
      digit everywhere else. */
  predicate Layout(s: string) {
    && |s| == 15
    && forall i :: 0 <= i < |s| ==> if i == 8 then s[i] == '_' else '0' <= s[i] <= '9'
  }

  /** Zero-padded decimal text of `n` in exactly `width` digits. */
  function Pad(n: int, width: nat): (r: string)
    requires 0 <= n
    ensures |r| == width && AllDigits(r)
    decreases width
  {
    if width == 0 then "" else Pad(n / 10, width - 1) + [Digit(n % 10)]
  }

  /** Decimal value of a digit string. */
  function DecimalValue(s: string): int
    decreases |s|
  {
    if |s| == 0 then 0 else 10 * DecimalValue(s[..|s| - 1]) + DigitValue(s[|s| - 1])
  }

  function Power10(k: nat): (p: nat)
    ensures p >= 1
  {
    if k == 0 then 1 else 10 * Power10(k - 1)
  }

  /** Reading back a padded number gives the number, when it fits in the width. */
  lemma {:induction false} PadRoundTrip(n: int, width: nat)
    requires 0 <= n < Power10(width)
    ensures DecimalValue(Pad(n, width)) == n
    decreases width
  {
    if width > 0 {
      var r := Pad(n, width);
      assert r[..|r| - 1] == Pad(n / 10, width - 1);
      PadRoundTrip(n / 10, width - 1);
    }
  }

  /** `%Y%m%d_%H%M%S` */
  function Format(ts: Timestamp): (r: string)
    requires ts.Valid()
    ensures |r| == 15 && r[8] == '_'
  {
    Pad(ts.year, 4) + Pad(ts.month, 2) + Pad(ts.day, 2) + "_" +
    Pad(ts.hour, 2) + Pad(ts.minute, 2) + Pad(ts.second, 2)
  }

  /** Reads `%Y%m%d_%H%M%S` text back into its fields. */
  function Parse(s: string): Option<Timestamp> {
    if !Layout(s) then None
    else
      Some(Timestamp(DecimalValue(s[0..4]), DecimalValue(s[4..6]), DecimalValue(s[6..8]),
                     DecimalValue(s[9..11]), DecimalValue(s[11..13]), DecimalValue(s[13..15])))
  }

  lemma SliceMiddle(a: string, b: string, c: string)
    ensures (a + b + c)[|a|..|a| + |b|] == b
  {
  }

  /** Where each field sits in text laid out as `%Y%m%d_%H%M%S`. */
  lemma FieldSlices(y: string, mo: string, d: string, u: string, h: string, mi: string,
                    se: string)
    requires |y| == 4 && |mo| == 2 && |d| == 2 && |u| == 1
    requires |h| == 2 && |mi| == 2 && |se| == 2
    ensures var r := y + mo + d + u + h + mi + se;
      && r[0..4] == y && r[4..6] == mo && r[6..8] == d
      && r[9..11] == h && r[11..13] == mi && r[13..15] == se
  {
    var r := y + mo + d + u + h + mi + se;
    SliceMiddle([], y, mo + d + u + h + mi + se);
    assert r == [] + y + (mo + d + u + h + mi + se);
    SliceMiddle(y, mo, d + u + h + mi + se);
    assert r == y + mo + (d + u + h + mi + se);
    SliceMiddle(y + mo, d, u + h + mi + se);
    assert r == (y + mo) + d + (u + h + mi + se);
    SliceMiddle(y + mo + d + u, h, mi + se);
    assert r == (y + mo + d + u) + h + (mi + se);
    SliceMiddle(y + mo + d + u + h, mi, se);
    assert r == (y + mo + d + u + h) + mi + se;
    SliceMiddle(y + mo + d + u + h + mi, se, []);
    assert r == (y + mo + d + u + h + mi) + se + [];
  }

  lemma FormatFields(ts: Timestamp)
    requires ts.Valid()
    ensures Format(ts)[0..4] == Pad(ts.year, 4)
    ensures Format(ts)[4..6] == Pad(ts.month, 2)
    ensures Format(ts)[6..8] == Pad(ts.day, 2)
    ensures Format(ts)[9..11] == Pad(ts.hour, 2)
    ensures Format(ts)[11..13] == Pad(ts.minute, 2)
    ensures Format(ts)[13..15] == Pad(ts.second, 2)
  {
    FieldSlices(Pad(ts.year, 4), Pad(ts.month, 2), Pad(ts.day, 2), "_",
                Pad(ts.hour, 2), Pad(ts.minute, 2), Pad(ts.second, 2));
  }

  lemma FormatParse(ts: Timestamp)
    requires ts.Valid()
    ensures Parse(Format(ts)) == Some(ts)
  {
    FormatCharacters(ts);
    FormatFields(ts);
    assert Power10(2) == 100;
    assert Power10(4) == 10000;
    PadRoundTrip(ts.year, 4);
    PadRoundTrip(ts.month, 2);
    PadRoundTrip(ts.day, 2);
    PadRoundTrip(ts.hour, 2);
    PadRoundTrip(ts.minute, 2);
    PadRoundTrip(ts.second, 2);
  }

  /** The formatted timestamp has the `%Y%m%d_%H%M%S` layout: a digit at every
      position except the `_` at index 8. */
  lemma FormatCharacters(ts: Timestamp)
    requires ts.Valid()
    ensures Layout(Format(ts))
  {
    var r := Format(ts);
    FormatFields(ts);
    forall i | 0 <= i < |r| ensures if i == 8 then r[i] == '_' else '0' <= r[i] <= '9' {
      if i < 4 { assert r[i] == r[0..4][i]; }
      else if i < 6 { assert r[i] == r[4..6][i - 4]; }
      else if i < 8 { assert r[i] == r[6..8][i - 6]; }
      else if i == 8 { }
      else if i < 11 { assert r[i] == r[9..11][i - 9]; }
      else if i < 13 { assert r[i] == r[11..13][i - 11]; }
      else { assert r[i] == r[13..15][i - 13]; }
    }
  }

  /** Padding the value of a digit string back to its width gives the string. */
  lemma {:induction false} PadDecimal(x: string)
    requires AllDigits(x)
    ensures 0 <= DecimalValue(x) && Pad(DecimalValue(x), |x|) == x
    decreases |x|
  {
    if |x| > 0 {
      var h := x[..|x| - 1];
      var c := x[|x| - 1];
      assert AllDigits(h) by {
        forall i | 0 <= i < |h| ensures '0' <= h[i] <= '9' { assert h[i] == x[i]; }
      }
      PadDecimal(h);
      var v := DecimalValue(x);
      assert v == 10 * DecimalValue(h) + DigitValue(c);
      assert v / 10 == DecimalValue(h) && v % 10 == DigitValue(c);
      assert Digit(DigitValue(c)) == c;
      assert x == h + [c];
    }
  }

  /** A field of laid-out text that does not cross index 8 is all digits. */
  lemma FieldDigits(s: string, a: nat, b: nat)
    requires Layout(s) && a <= b <= 15 && (b <= 8 || 9 <= a)
    ensures AllDigits(s[a..b])
  {
    forall i | 0 <= i < b - a ensures '0' <= s[a..b][i] <= '9' {
      assert s[a..b][i] == s[a + i];
    }
  }

  /** A field of laid-out text reads back to itself through its value. */
  lemma FieldPads(s: string, a: nat, b: nat)
    requires Layout(s) && a <= b <= 15 && (b <= 8 || 9 <= a)
    ensures 0 <= DecimalValue(s[a..b]) && Pad(DecimalValue(s[a..b]), b - a) == s[a..b]
  {
    FieldDigits(s, a, b);
    PadDecimal(s[a..b]);
  }

  /** Laid-out text is its six fields around the `_`. */
  lemma Reassemble(s: string)
    requires Layout(s)
    ensures s == s[0..4] + s[4..6] + s[6..8] + "_" + s[9..11] + s[11..13] + s[13..15]
  {
    assert s[0..4] + s[4..6] == s[0..6];
    assert s[0..6] + s[6..8] == s[0..8];
    assert s[8..9] == "_";
    assert s[0..8] + "_" == s[0..9];
    assert s[0..9] + s[9..11] == s[0..11];
    assert s[0..11] + s[11..13] == s[0..13];
    assert s[0..13] + s[13..15] == s[0..15];
    assert s[0..15] == s;
  }

  /** Text that parses to a valid timestamp is exactly that timestamp's `Format`:
      with `FormatParse`, valid timestamps and their texts correspond one to one. */
  lemma ParseFormat(s: string, ts: Timestamp)
    requires Parse(s) == Some(ts) && ts.Valid()
    ensures Format(ts) == s
  {
    var y, mo, d, h, mi, se := s[0..4], s[4..6], s[6..8], s[9..11], s[11..13], s[13..15];
    assert ts == Timestamp(DecimalValue(y), DecimalValue(mo), DecimalValue(d),
                           DecimalValue(h), DecimalValue(mi), DecimalValue(se));
    FieldPads(s, 0, 4);
    FieldPads(s, 4, 6);
    FieldPads(s, 6, 8);
    FieldPads(s, 9, 11);
    FieldPads(s, 11, 13);
    FieldPads(s, 13, 15);
    Reassemble(s);
  }

  /** Distinct seconds format to distinct text. */
  lemma FormatInjective(a: Timestamp, b: Timestamp)
    requires a.Valid() && b.Valid()
    ensures Format(a) == Format(b) <==> a == b
  {
    if Format(a) == Format(b) {
      FormatParse(a);
      FormatParse(b);
    }
  }
}
