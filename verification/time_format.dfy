/** The dashboard's duration formatting (`formatTime`): a whole number of
    seconds shown as "[H h ]M m SS s" without the spaces inside the fields,
    e.g. "1m 05s" or "1h 02m 05s". A parser for the same layout is the
    partner that shows the rendering loses nothing. */
module TimeFormat {
  import opened Common

  predicate IsDigit(c: char) { '0' <= c <= '9' }

  predicate AllDigits(s: string) { forall i :: 0 <= i < |s| ==> IsDigit(s[i]) }

  function DigitChar(d: nat): (c: char)
    requires d < 10
    ensures IsDigit(c)
  {
    ('0' as int + d) as char
  }

  function DigitValue(c: char): (d: nat)
    requires IsDigit(c)
    ensures d < 10
  {
    c as int - '0' as int
  }

  /** Decimal rendering without leading zeros, as JavaScript's `String(n)`
      does for a non-negative integer. */
  function NatToString(n: nat): (s: string)
    ensures |s| >= 1 && AllDigits(s)
    ensures n < 10 ==> |s| == 1
    ensures 10 <= n < 100 ==> |s| == 2
  {
    if n < 10 then [DigitChar(n)] else NatToString(n / 10) + [DigitChar(n % 10)]
  }

  /** The number a digit string denotes, most significant digit first. */
  function DecimalValue(s: string): nat
    requires AllDigits(s)
  {
    if s == [] then 0 else DecimalValue(s[..|s| - 1]) * 10 + DigitValue(s[|s| - 1])
  }

  /** `String.prototype.padStart(width, '0')`: left-pads with zeros up to
      `width` characters and never truncates. */
  function PadStart(s: string, width: nat): (r: string)
    ensures |r| == Max(|s|, width)
  {
    if |s| >= width then s else "0" + PadStart(s, width - 1)
  }

  /** Lays out hour, minute and second field values the way `formatTime`
      does: the hour field only when there are hours, minutes zero-padded to
      two digits only after an hour field, seconds always two digits. */
  function Render(hr: nat, mn: nat, sc: nat): string
  {
    (if hr > 0 then NatToString(hr) + "h " else "")
      + (PadStart(NatToString(mn), if hr > 0 then 2 else 1) + "m "
         + (PadStart(NatToString(sc), 2) + "s"))
  }

  /** The script's `formatTime`: negative input is clamped to zero and the
      rest is split into hours, minutes below 60 and seconds below 60. No
      information is lost: the text reads back as exactly the clamped
      number of seconds. */
  function FormatTime(totalSecs: int): (r: string)
    ensures ParseTime(r) == Some(Max(0, totalSecs))
  {
    var t: nat := Max(0, totalSecs);
    var hr, mn, sc := t / 3600, (t % 3600) / 60, t % 60;
    Decompose(t);
    RenderRoundTrip(hr, mn, sc);
    Render(hr, mn, sc)
  }

  /** Splits `s` into its longest all-digit prefix and the rest. */
  function SpanDigits(s: string): (r: (string, string))
    ensures AllDigits(r.0) && r.0 + r.1 == s
    ensures r.1 == [] || !IsDigit(r.1[0])
  {
    if s == [] || !IsDigit(s[0]) then ([], s)
    else
      var tl := SpanDigits(s[1..]);
      DigitsCons(s[0], tl.0);
      assert [s[0]] + tl.0 + tl.1 == [s[0]] + (tl.0 + tl.1);
      assert s == [s[0]] + s[1..];
      ([s[0]] + tl.0, tl.1)
  }

  lemma DigitsCons(c: char, d: string)
    requires IsDigit(c) && AllDigits(d)
    ensures AllDigits([c] + d)
  {
  }

  /** Reads a "SSs" second field that ends the text. */
  function ParseSeconds(s: string): Option<nat>
  {
    var sp := SpanDigits(s);
    if sp.0 != [] && sp.1 == "s" then Some(DecimalValue(sp.0)) else None
  }

  /** True when `s` starts with the unit letter `unit` followed by a space. */
  predicate StartsWithUnit(s: string, unit: char)
  {
    |s| >= 2 && s[0] == unit && s[1] == ' '
  }

  /** Reads "MMm SSs", the part after an hour field. */
  function ParseMinutesAndSeconds(s: string): Option<nat>
  {
    var sp := SpanDigits(s);
    if sp.0 != [] && StartsWithUnit(sp.1, 'm') then
      match ParseSeconds(sp.1[2..])
      case None => None
      case Some(sc) => Some(DecimalValue(sp.0) * 60 + sc)
    else None
  }

  /** Reads back a duration in the layout `FormatTime` produces; `None` for
      text that is not in that layout. */
  function ParseTime(s: string): Option<nat>
  {
    var sp := SpanDigits(s);
    if sp.0 == [] then None
    else if StartsWithUnit(sp.1, 'h') then
      match ParseMinutesAndSeconds(sp.1[2..])
      case None => None
      case Some(ms) => Some(DecimalValue(sp.0) * 3600 + ms)
    else if StartsWithUnit(sp.1, 'm') then
      match ParseSeconds(sp.1[2..])
      case None => None
      case Some(sc) => Some(DecimalValue(sp.0) * 60 + sc)
    else None
  }

  // ---------------------------------------------------------------------
  // Digit lemmas

  lemma {:induction false} NatToStringValue(n: nat)
    ensures DecimalValue(NatToString(n)) == n
  {
    if n >= 10 {
      var s := NatToString(n);
      assert s[..|s| - 1] == NatToString(n / 10);
      NatToStringValue(n / 10);
    }
  }

  lemma {:induction false} LeadingZeroValue(s: string)
    requires AllDigits(s)
    ensures AllDigits("0" + s) && DecimalValue("0" + s) == DecimalValue(s)
    decreases |s|
  {
    if s != [] {
      var z := "0" + s;
      assert z[..|z| - 1] == "0" + s[..|s| - 1];
      LeadingZeroValue(s[..|s| - 1]);
    }
  }

  lemma {:induction false} PadStartValue(s: string, width: nat)
    requires AllDigits(s)
    ensures AllDigits(PadStart(s, width))
    ensures DecimalValue(PadStart(s, width)) == DecimalValue(s)
    decreases width
  {
    if |s| < width {
      var p := PadStart(s, width - 1);
      PadStartValue(s, width - 1);
      LeadingZeroValue(p);
    }
  }

  lemma {:induction false} SpanDigitsOf(d: string, rest: string)
    requires AllDigits(d)
    requires rest == [] || !IsDigit(rest[0])
    ensures SpanDigits(d + rest) == (d, rest)
    decreases |d|
  {
    var x := d + rest;
    if d == [] {
      assert x == rest;
    } else {
      assert x[0] == d[0] && IsDigit(x[0]);
      assert x[1..] == d[1..] + rest;
      SpanDigitsOf(d[1..], rest);
      var tl := SpanDigits(x[1..]);
      assert tl == (d[1..], rest);
      assert SpanDigits(x) == ([x[0]] + tl.0, tl.1);
      assert [d[0]] + d[1..] == d;
    }
  }

  // ---------------------------------------------------------------------
  // Properties of FormatTime

  /** The integer division `formatTime` performs splits the clamped seconds
      into hours, minutes below 60 and seconds below 60. */
  lemma Decompose(t: nat)
    ensures (t % 3600) / 60 < 60 && t % 60 < 60
    ensures (t / 3600) * 3600 + ((t % 3600) / 60) * 60 + t % 60 == t
    ensures t / 3600 > 0 <==> t >= 3600
    ensures t < 600 ==> t / 3600 == 0 && (t % 3600) / 60 < 10
  {
    var h, q := t / 3600, t % 3600;
    assert t == h * 3600 + q && 0 <= q < 3600;
    var m, sc := q / 60, q % 60;
    assert q == m * 60 + sc && 0 <= sc < 60;
    assert t == (h * 60 + m) * 60 + sc;
    Mod60Unique(t, h * 60 + m, sc);
  }

  /** The remainder by 60 is the only one that splits `a` this way. */
  lemma Mod60Unique(a: nat, q: nat, r: nat)
    requires a == q * 60 + r && r < 60
    ensures a % 60 == r
  {
    assert a == (a / 60) * 60 + a % 60;
  }

  /** A zero-padded field is a non-empty digit string denoting its value. */
  lemma FieldDigits(n: nat, width: nat)
    ensures var f := PadStart(NatToString(n), width);
      f != [] && AllDigits(f) && DecimalValue(f) == n
  {
    PadStartValue(NatToString(n), width);
    NatToStringValue(n);
  }

  /** Reading a digit field followed by a unit letter and a space. */
  lemma {:induction false} SpanField(f: string, unit: char, tail: string)
    requires f != [] && AllDigits(f) && !IsDigit(unit)
    ensures SpanDigits(f + [unit, ' '] + tail) == (f, [unit, ' '] + tail)
  {
    assert f + [unit, ' '] + tail == f + ([unit, ' '] + tail);
    SpanDigitsOf(f, [unit, ' '] + tail);
  }

  lemma SecondsFieldValue(sc: nat)
    ensures ParseSeconds(PadStart(NatToString(sc), 2) + "s") == Some(sc)
  {
    FieldDigits(sc, 2);
    SpanDigitsOf(PadStart(NatToString(sc), 2), "s");
  }

  lemma SpanMinuteField(M: string, tail: string)
    requires M != [] && AllDigits(M)
    ensures SpanDigits(M + "m " + tail) == (M, ['m', ' '] + tail)
  {
    SpanField(M, 'm', tail);
  }

  /** A minute field, "m " and a tail read as minutes plus whatever the tail
      reads as seconds, both as the part after an hour field and as the
      whole text. */
  lemma ParseMinutesLayout(M: string, tail: string)
    requires M != []
    requires SpanDigits(M + "m " + tail) == (M, ['m', ' '] + tail)
    ensures var expected := match ParseSeconds(tail)
                            case None => None
                            case Some(sc) => Some(DecimalValue(M) * 60 + sc);
      ParseTime(M + "m " + tail) == expected && ParseMinutesAndSeconds(M + "m " + tail) == expected
  {
    var r := ['m', ' '] + tail;
    assert StartsWithUnit(r, 'm') && !StartsWithUnit(r, 'h') && r[2..] == tail;
    MinutesAfterHours(M, tail, r);
    MinutesAsWhole(M, tail, r);
  }

  lemma MinutesAfterHours(M: string, tail: string, r: string)
    requires M != [] && r == ['m', ' '] + tail && StartsWithUnit(r, 'm') && r[2..] == tail
    requires SpanDigits(M + "m " + tail) == (M, r)
    ensures ParseMinutesAndSeconds(M + "m " + tail)
         == match ParseSeconds(tail)
            case None => None
            case Some(sc) => Some(DecimalValue(M) * 60 + sc)
  {
  }

  lemma MinutesAsWhole(M: string, tail: string, r: string)
    requires M != [] && r == ['m', ' '] + tail && StartsWithUnit(r, 'm') && !StartsWithUnit(r, 'h') && r[2..] == tail
    requires SpanDigits(M + "m " + tail) == (M, r)
    ensures ParseTime(M + "m " + tail)
         == match ParseSeconds(tail)
            case None => None
            case Some(sc) => Some(DecimalValue(M) * 60 + sc)
  {
  }

  /** An hour field, "h " and a tail read as hours plus whatever the tail
      reads as minutes and seconds. */
  lemma ParseHoursLayout(H: string, tail: string)
    requires H != []
    requires SpanDigits(H + "h " + tail) == (H, ['h', ' '] + tail)
    ensures ParseTime(H + "h " + tail)
         == match ParseMinutesAndSeconds(tail)
            case None => None
            case Some(ms) => Some(DecimalValue(H) * 3600 + ms)
  {
  }

  lemma RenderWithHours(hr: nat, mn: nat, sc: nat)
    requires hr > 0
    ensures Render(hr, mn, sc)
         == NatToString(hr) + "h " + (PadStart(NatToString(mn), 2) + "m " + (PadStart(NatToString(sc), 2) + "s"))
  {
  }

  lemma RenderWithoutHours(mn: nat, sc: nat)
    ensures Render(0, mn, sc) == PadStart(NatToString(mn), 1) + "m " + (PadStart(NatToString(sc), 2) + "s")
  {
  }

  /** A padded minute field, "m " and a padded second field read back as
      the minutes and seconds they show. */
  lemma MinutesPartRoundTrip(mn: nat, sc: nat, width: nat, M: string, tail: string)
    requires M == PadStart(NatToString(mn), width) && tail == PadStart(NatToString(sc), 2) + "s"
    ensures ParseMinutesAndSeconds(M + "m " + tail) == Some(mn * 60 + sc)
    ensures ParseTime(M + "m " + tail) == Some(mn * 60 + sc)
  {
    SecondsFieldValue(sc);
    FieldDigits(mn, width);
    SpanMinuteField(M, tail);
    ParseMinutesLayout(M, tail);
  }

  /** An hour field, "h " and a minutes-and-seconds part read back as the
      hours plus what that part reads as. */
  lemma HoursPartRoundTrip(hr: nat, ms: nat, H: string, rest: string)
    requires H == NatToString(hr) && ParseMinutesAndSeconds(rest) == Some(ms)
    ensures ParseTime(H + "h " + rest) == Some(hr * 3600 + ms)
  {
    NatToStringValue(hr);
    SpanField(H, 'h', rest);
    ParseHoursLayout(H, rest);
  }

  lemma RenderRoundTripWithHours(hr: nat, mn: nat, sc: nat)
    requires hr > 0
    ensures ParseTime(Render(hr, mn, sc)) == Some(hr * 3600 + mn * 60 + sc)
  {
    var M := PadStart(NatToString(mn), 2);
    var tail := PadStart(NatToString(sc), 2) + "s";
    MinutesPartRoundTrip(mn, sc, 2, M, tail);
    HoursPartRoundTrip(hr, mn * 60 + sc, NatToString(hr), M + "m " + tail);
    RenderWithHours(hr, mn, sc);
  }

  lemma RenderRoundTripWithoutHours(mn: nat, sc: nat)
    ensures ParseTime(Render(0, mn, sc)) == Some(mn * 60 + sc)
  {
    MinutesPartRoundTrip(mn, sc, 1, PadStart(NatToString(mn), 1), PadStart(NatToString(sc), 2) + "s");
    RenderWithoutHours(mn, sc);
  }

  /** Any field values read back as the seconds they stand for. */
  lemma RenderRoundTrip(hr: nat, mn: nat, sc: nat)
    ensures ParseTime(Render(hr, mn, sc)) == Some(hr * 3600 + mn * 60 + sc)
  {
    if hr > 0 {
      RenderRoundTripWithHours(hr, mn, sc);
    } else {
      RenderRoundTripWithoutHours(mn, sc);
    }
  }

  /** The field values `formatTime` lays out for a duration. */
  lemma FormatTimeFields(totalSecs: int) returns (hr: nat, mn: nat, sc: nat)
    ensures FormatTime(totalSecs) == Render(hr, mn, sc)
    ensures hr * 3600 + mn * 60 + sc == Max(0, totalSecs) && mn < 60 && sc < 60
    ensures hr > 0 <==> totalSecs >= 3600
    ensures totalSecs < 600 ==> hr == 0 && mn < 10
  {
    var t: nat := Max(0, totalSecs);
    hr, mn, sc := t / 3600, (t % 3600) / 60, t % 60;
    Decompose(t);
  }

  /** Two durations render identically only when they are the same after
      clamping. */
  lemma FormatTimeInjective(a: int, b: int)
    requires FormatTime(a) == FormatTime(b)
    ensures Max(0, a) == Max(0, b)
  {
  }

  lemma RenderHourFieldShown(hr: nat, mn: nat, sc: nat)
    requires hr > 0
    ensures 'h' in Render(hr, mn, sc)
  {
  }

  lemma RenderHourFieldHidden(mn: nat, sc: nat)
    ensures 'h' !in Render(0, mn, sc)
  {
    FieldDigits(mn, 1);
    FieldDigits(sc, 2);
    RenderWithoutHours(mn, sc);
    NoHourLetter(PadStart(NatToString(mn), 1), PadStart(NatToString(sc), 2));
  }

  lemma NoHourLetter(M: string, S: string)
    requires AllDigits(M) && AllDigits(S)
    ensures 'h' !in M + "m " + (S + "s")
  {
  }

  /** The hour field is shown exactly when the duration is at least an hour. */
  lemma FormatTimeHourField(totalSecs: int)
    ensures 'h' in FormatTime(totalSecs) <==> totalSecs >= 3600
  {
    var hr, mn, sc := FormatTimeFields(totalSecs);
    if hr > 0 {
      RenderHourFieldShown(hr, mn, sc);
    } else {
      RenderHourFieldHidden(mn, sc);
    }
  }

  /** The second field and what precedes it: "m", a space, two digits, "s". */
  lemma SecondsTailLayout(M: string, S: string)
    requires M != [] && AllDigits(M) && |S| == 2 && AllDigits(S)
    ensures var r := M + "m " + (S + "s"); var n := |r|;
      && n == |M| + 5
      && r[n - 1] == 's' && IsDigit(r[n - 2]) && IsDigit(r[n - 3])
      && r[n - 4] == ' ' && r[n - 5] == 'm' && IsDigit(r[n - 6])
  {
  }

  lemma RenderSecondsLayout(mn: nat, sc: nat, width: nat)
    requires sc < 60
    ensures var r := PadStart(NatToString(mn), width) + "m " + (PadStart(NatToString(sc), 2) + "s");
      var n := |r|;
      && n >= 6
      && r[n - 1] == 's' && IsDigit(r[n - 2]) && IsDigit(r[n - 3])
      && r[n - 4] == ' ' && r[n - 5] == 'm' && IsDigit(r[n - 6])
  {
    FieldDigits(mn, width);
    FieldDigits(sc, 2);
    SecondsTailLayout(PadStart(NatToString(mn), width), PadStart(NatToString(sc), 2));
  }

  lemma RenderFieldWidthsWithHours(hr: nat, mn: nat, sc: nat)
    requires hr > 0 && mn < 60 && sc < 60
    ensures var r := Render(hr, mn, sc); var n := |r|;
      && n >= 9
      && r[n - 1] == 's' && IsDigit(r[n - 2]) && IsDigit(r[n - 3])
      && r[n - 4] == ' ' && r[n - 5] == 'm' && IsDigit(r[n - 6])
      && IsDigit(r[n - 7]) && r[n - 8] == ' ' && r[n - 9] == 'h'
  {
    var M := PadStart(NatToString(mn), 2);
    var mid := M + "m " + (PadStart(NatToString(sc), 2) + "s");
    RenderSecondsLayout(mn, sc, 2);
    FieldDigits(mn, 2);
    RenderWithHours(hr, mn, sc);
    var r := NatToString(hr) + "h " + mid;
    assert |mid| == 7;
    assert r[|r| - 7..] == mid;
  }

  lemma RenderFieldWidthsWithoutHours(mn: nat, sc: nat)
    requires mn < 10 && sc < 60
    ensures |Render(0, mn, sc)| == 6
  {
  }

  lemma RenderFieldWidths(hr: nat, mn: nat, sc: nat)
    requires mn < 60 && sc < 60
    ensures var r := Render(hr, mn, sc); var n := |r|;
      && n >= 6
      && r[n - 1] == 's' && IsDigit(r[n - 2]) && IsDigit(r[n - 3])
      && r[n - 4] == ' ' && r[n - 5] == 'm' && IsDigit(r[n - 6])
      && (hr > 0 ==> n >= 9 && IsDigit(r[n - 7]) && r[n - 8] == ' ' && r[n - 9] == 'h')
      && (hr == 0 && mn < 10 ==> n == 6)
  {
    if hr > 0 {
      RenderFieldWidthsWithHours(hr, mn, sc);
    } else {
      RenderWithoutHours(mn, sc);
      RenderSecondsLayout(mn, sc, 1);
      if mn < 10 {
        RenderFieldWidthsWithoutHours(mn, sc);
      }
    }
  }

  /** Layout of the tail: the text ends with "m", a space, exactly two second
      digits and "s"; after an hour field the minutes take two digits; below
      ten minutes without hours the minute field is one unpadded digit. */
  lemma FormatTimeFieldWidths(totalSecs: int)
    ensures var r := FormatTime(totalSecs); var n := |r|;
      && n >= 6
      && r[n - 1] == 's' && IsDigit(r[n - 2]) && IsDigit(r[n - 3])
      && r[n - 4] == ' ' && r[n - 5] == 'm' && IsDigit(r[n - 6])
      && (totalSecs >= 3600 ==> n >= 9 && IsDigit(r[n - 7]) && r[n - 8] == ' ' && r[n - 9] == 'h')
      && (totalSecs < 600 ==> n == 6)
  {
    var hr, mn, sc := FormatTimeFields(totalSecs);
    RenderFieldWidths(hr, mn, sc);
  }

  /** Worked examples: clamping, an unpadded minute field, and a padded one
      after an hour field. */
  lemma FormatTimeExamples()
    ensures FormatTime(-5) == "0m 00s"
    ensures FormatTime(65) == "1m 05s"
    ensures FormatTime(3725) == "1h 02m 05s"
  {
    FormatTimeClampExample();
    FormatTimeMinutesExample();
    FormatTimeHoursExample();
  }

  lemma FormatTimeClampExample()
    ensures FormatTime(-5) == "0m 00s"
  {
  }

  lemma FormatTimeMinutesExample()
    ensures FormatTime(65) == "1m 05s"
  {
  }

  lemma FormatTimeHoursExample()
    ensures FormatTime(3725) == "1h 02m 05s"
  {
  }
}
