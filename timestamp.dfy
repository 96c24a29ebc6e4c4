/** The commit timestamp conversion of `csv2sh`: the text of ARG1 is read with
    the pattern `%Y/%m/%d %H:%M:%S` and written back with `%Y-%m-%dT%H:%M:%S`.
    Only the canonical zero-padded layout is accepted. */
module Timestamp {
  import opened Wrappers

  datatype DateTime = DateTime(year: nat, month: nat, day: nat, hour: nat, minute: nat, second: nat)

  predicate IsDigit(c: char) { '0' <= c <= '9' }

  predicate AllDigits(s: string) { forall i :: 0 <= i < |s| ==> IsDigit(s[i]) }

  function Pow10(n: nat): (p: nat)
    ensures p >= 1
  {
    if n == 0 then 1 else 10 * Pow10(n - 1)
  }

  /** The value of a run of decimal digits, most significant digit first. */
  function DigitsValue(s: string): (v: nat)
    requires AllDigits(s)
    ensures v < Pow10(|s|)
    decreases |s|
  {
    if s == [] then 0
    else
      var init := s[..|s| - 1];
      var v' := DigitsValue(init);
      assert v' < Pow10(|init|);
      v' * 10 + (s[|s| - 1] as int - '0' as int)
  }

  /** `n` written with exactly `width` decimal digits, zero-padded on the left. */
  function ZeroPadded(n: nat, width: nat): (s: string)
    requires n < Pow10(width)
    ensures |s| == width && AllDigits(s)
    decreases width
  {
    if width == 0 then []
    else ZeroPadded(n / 10, width - 1) + [('0' as int + n % 10) as char]
  }

  lemma {:induction false} ValueOfZeroPadded(n: nat, width: nat)
    requires n < Pow10(width)
    ensures DigitsValue(ZeroPadded(n, width)) == n
    decreases width
  {
    if width > 0 {
      var s := ZeroPadded(n, width);
      assert s[..|s| - 1] == ZeroPadded(n / 10, width - 1);
      ValueOfZeroPadded(n / 10, width - 1);
    }
  }

  lemma {:induction false} ZeroPaddedOfValue(s: string)
    requires AllDigits(s)
    ensures ZeroPadded(DigitsValue(s), |s|) == s
    decreases |s|
  {
    if s != [] {
      var init := s[..|s| - 1];
      assert AllDigits(init);
      ZeroPaddedOfValue(init);
      var v := DigitsValue(s);
      assert v / 10 == DigitsValue(init);
      assert ('0' as int + v % 10) as char == s[|s| - 1];
      assert s == init + [s[|s| - 1]];
    }
  }

  /** Every field fits the width the patterns give it (four digits for the year, two for the rest). */
  predicate Representable(dt: DateTime)
  {
    dt.year < 10000 && dt.month < 100 && dt.day < 100 && dt.hour < 100 && dt.minute < 100 && dt.second < 100
  }

  predicate IsLeapYear(y: nat)
  {
    y % 4 == 0 && (y % 100 != 0 || y % 400 == 0)
  }

  function DaysInMonth(y: nat, m: nat): nat
    requires 1 <= m <= 12
  {
    if m == 2 then (if IsLeapYear(y) then 29 else 28)
    else if m == 4 || m == 6 || m == 9 || m == 11 then 30
    else 31
  }

  /** The calendar check that parsing performs: a real day of the proleptic
      Gregorian calendar and a time of day on the 24-hour clock, with second 60
      admitted as a leap second. */
  predicate IsValid(dt: DateTime)
  {
    && 1 <= dt.month <= 12
    && 1 <= dt.day <= DaysInMonth(dt.year, dt.month)
    && dt.hour < 24
    && dt.minute < 60
    && dt.second <= 60
  }

  /** `YYYY<d>MM<d>DD<t>HH:MM:SS`: four digits, the date separator, two digits,
      the date separator, two digits, the separator between date and time, then
      three two-digit groups joined by `:`. */
  predicate HasLayout(s: string, dateSep: char, timeSep: char)
  {
    && |s| == 19
    && AllDigits(s[0..4]) && s[4] == dateSep
    && AllDigits(s[5..7]) && s[7] == dateSep
    && AllDigits(s[8..10]) && s[10] == timeSep
    && AllDigits(s[11..13]) && s[13] == ':'
    && AllDigits(s[14..16]) && s[16] == ':'
    && AllDigits(s[17..19])
  }

  function Fields(s: string, dateSep: char, timeSep: char): (dt: DateTime)
    requires HasLayout(s, dateSep, timeSep)
    ensures Representable(dt)
  {
    DateTime(DigitsValue(s[0..4]), DigitsValue(s[5..7]), DigitsValue(s[8..10]),
             DigitsValue(s[11..13]), DigitsValue(s[14..16]), DigitsValue(s[17..19]))
  }

  /** Strict parsing of a timestamp laid out with the given separators. */
  function ParseWith(s: string, dateSep: char, timeSep: char): Option<DateTime>
  {
    if HasLayout(s, dateSep, timeSep) && IsValid(Fields(s, dateSep, timeSep))
    then Some(Fields(s, dateSep, timeSep))
    else None
  }

  /** Writes a timestamp with the given separators, every field zero-padded. */
  function Render(dt: DateTime, dateSep: char, timeSep: char): (s: string)
    requires Representable(dt)
    ensures |s| == 19
  {
    ZeroPadded(dt.year, 4) + [dateSep] + ZeroPadded(dt.month, 2) + [dateSep] + ZeroPadded(dt.day, 2)
    + [timeSep] + ZeroPadded(dt.hour, 2) + [':'] + ZeroPadded(dt.minute, 2) + [':'] + ZeroPadded(dt.second, 2)
  }

  /** `NaiveDateTime::parse_from_str(s, "%Y/%m/%d %H:%M:%S")`. */
  function ParseInput(s: string): Option<DateTime>
  {
    ParseWith(s, '/', ' ')
  }

  /** `.format("%Y-%m-%dT%H:%M:%S")`. */
  function FormatOutput(dt: DateTime): string
    requires Representable(dt)
  {
    Render(dt, '-', 'T')
  }

  /** The whole conversion of a commit row's ARG1; `None` where the source's
      `unwrap` on the parse result panics. */
  function ReformatDate(s: string): Option<string>
  {
    match ParseInput(s)
    case None => None
    case Some(dt) => Some(FormatOutput(dt))
  }

  lemma SlicesOfRender(dt: DateTime, dateSep: char, timeSep: char)
    requires Representable(dt)
    ensures var s := Render(dt, dateSep, timeSep);
      && s[0..4] == ZeroPadded(dt.year, 4) && s[4] == dateSep
      && s[5..7] == ZeroPadded(dt.month, 2) && s[7] == dateSep
      && s[8..10] == ZeroPadded(dt.day, 2) && s[10] == timeSep
      && s[11..13] == ZeroPadded(dt.hour, 2) && s[13] == ':'
      && s[14..16] == ZeroPadded(dt.minute, 2) && s[16] == ':'
      && s[17..19] == ZeroPadded(dt.second, 2)
  {
  }

  /** Rendering a valid timestamp and parsing it back with the same separators
      gives the timestamp back. */
  lemma ParseRenderRoundTrip(dt: DateTime, dateSep: char, timeSep: char)
    requires Representable(dt) && IsValid(dt)
    ensures ParseWith(Render(dt, dateSep, timeSep), dateSep, timeSep) == Some(dt)
  {
    SlicesOfRender(dt, dateSep, timeSep);
    ValueOfZeroPadded(dt.year, 4);
    ValueOfZeroPadded(dt.month, 2);
    ValueOfZeroPadded(dt.day, 2);
    ValueOfZeroPadded(dt.hour, 2);
    ValueOfZeroPadded(dt.minute, 2);
    ValueOfZeroPadded(dt.second, 2);
  }

  /** Every text that parses is the rendering of what it parses to: parsing is
      strict, with a single accepted spelling per timestamp. */
  lemma RenderParseRoundTrip(s: string, dateSep: char, timeSep: char)
    requires ParseWith(s, dateSep, timeSep).Some?
    ensures Render(ParseWith(s, dateSep, timeSep).value, dateSep, timeSep) == s
  {
    var dt := ParseWith(s, dateSep, timeSep).value;
    SlicesOfRender(dt, dateSep, timeSep);
    ZeroPaddedOfValue(s[0..4]);
    ZeroPaddedOfValue(s[5..7]);
    ZeroPaddedOfValue(s[8..10]);
    ZeroPaddedOfValue(s[11..13]);
    ZeroPaddedOfValue(s[14..16]);
    ZeroPaddedOfValue(s[17..19]);
    var r := Render(dt, dateSep, timeSep);
    assert forall i | 0 <= i < 19 :: r[i] == s[i] by {
      forall i | 0 <= i < 19 ensures r[i] == s[i] {
        if i < 4 { assert r[i] == r[0..4][i]; assert s[i] == s[0..4][i]; }
        else if 5 <= i < 7 { assert r[i] == r[5..7][i - 5]; assert s[i] == s[5..7][i - 5]; }
        else if 8 <= i < 10 { assert r[i] == r[8..10][i - 8]; assert s[i] == s[8..10][i - 8]; }
        else if 11 <= i < 13 { assert r[i] == r[11..13][i - 11]; assert s[i] == s[11..13][i - 11]; }
        else if 14 <= i < 16 { assert r[i] == r[14..16][i - 14]; assert s[i] == s[14..16][i - 14]; }
        else if 17 <= i { assert r[i] == r[17..19][i - 17]; assert s[i] == s[17..19][i - 17]; }
      }
    }
  }

  /** The reformat changes only the separators: the two `/` become `-` and the
      space becomes `T`; every digit stays where it was. */
  lemma ReformatChangesOnlySeparators(s: string)
    requires ReformatDate(s).Some?
    ensures ReformatDate(s).value == s[..4] + "-" + s[5..7] + "-" + s[8..10] + "T" + s[11..]
  {
    var dt := ParseInput(s).value;
    RenderParseRoundTrip(s, '/', ' ');
    SlicesOfRender(dt, '/', ' ');
    SlicesOfRender(dt, '-', 'T');
    var t := ReformatDate(s).value;
    var u := s[..4] + "-" + s[5..7] + "-" + s[8..10] + "T" + s[11..];
    assert |t| == |u| == 19;
    forall i | 0 <= i < 19 ensures t[i] == u[i] {
      var r := Render(dt, '/', ' ');
      if i < 4 { assert t[i] == t[0..4][i] == r[0..4][i]; }
      else if 5 <= i < 7 { assert t[i] == t[5..7][i - 5] == r[5..7][i - 5]; }
      else if 8 <= i < 10 { assert t[i] == t[8..10][i - 8] == r[8..10][i - 8]; }
      else if 11 <= i < 13 { assert t[i] == t[11..13][i - 11] == r[11..13][i - 11]; }
      else if 14 <= i < 16 { assert t[i] == t[14..16][i - 14] == r[14..16][i - 14]; }
      else if 17 <= i { assert t[i] == t[17..19][i - 17] == r[17..19][i - 17]; }
    }
  }

  /** The round trip of the conversion: reading the output with the output
      pattern gives the same six fields as reading the input with the input
      pattern. No field moves and no time zone shift is applied. */
  lemma ReformatPreservesFields(s: string)
    requires ReformatDate(s).Some?
    ensures ParseWith(ReformatDate(s).value, '-', 'T') == ParseInput(s)
  {
    ParseRenderRoundTrip(ParseInput(s).value, '-', 'T');
  }
}
