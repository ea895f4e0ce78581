/** Time-of-day strings: `timeToMinutes` (js/utils.js) turns `H:MM` or
    `HH:MM` into a minute of the day, and `timeDisplay` (js/internal.js)
    renders the same shape as `HH : MM` for the timetable modal. */
module Clock {
  import opened Wrappers
  import opened Text

  /** What the pattern `^(\d{1,2}):(\d{2})$` captures: an optional leading
      hour digit, the last hour digit and the two minute digits. */
  datatype ClockText = ClockText(tens: Option<char>, hour: char, minuteTens: char, minute: char)
  {
    predicate Valid() {
      (tens.Some? ==> IsDigit(tens.value)) && IsDigit(hour) && IsDigit(minuteTens) && IsDigit(minute)
    }

    /** The string the pattern matched. */
    function Source(): string {
      match tens
      case None => [hour, ':', minuteTens, minute]
      case Some(t) => [t, hour, ':', minuteTens, minute]
    }

    /** `Number` of the hour group (a leading zero is allowed). */
    function HourValue(): nat
      requires Valid()
    {
      (if tens.Some? then 10 * DigitValue(tens.value) else 0) + DigitValue(hour)
    }

    /** `Number` of the minute group. */
    function MinuteValue(): nat
      requires Valid()
    {
      10 * DigitValue(minuteTens) + DigitValue(minute)
    }
  }

  /** Matching `^(\d{1,2}):(\d{2})$` against the whole string. */
  function MatchClock(s: string): (r: Option<ClockText>)
    ensures r.Some? ==> r.value.Valid()
  {
    if |s| == 4 && IsDigit(s[0]) && s[1] == ':' && IsDigit(s[2]) && IsDigit(s[3]) then
      Some(ClockText(None, s[0], s[2], s[3]))
    else if |s| == 5 && IsDigit(s[0]) && IsDigit(s[1]) && s[2] == ':' && IsDigit(s[3]) && IsDigit(s[4]) then
      Some(ClockText(Some(s[0]), s[1], s[3], s[4]))
    else
      None
  }

  /** A match captures groups that spell out the whole string. */
  lemma MatchClockSound(s: string)
    requires MatchClock(s).Some?
    ensures MatchClock(s).value.Source() == s
  {
  }

  /** The pattern accepts every string of its shape and captures the same
      groups back. */
  lemma MatchClockComplete(c: ClockText)
    requires c.Valid()
    ensures MatchClock(c.Source()) == Some(c)
  {
  }

  /** `timeToMinutes`: the minute of the day named by a trimmed `H:MM` or
      `HH:MM` string, or None when the shape does not match or the hour is
      above 23 or the minute above 59. */
  function TimeToMinutes(s: string): (r: Option<int>)
    ensures r.Some? ==> 0 <= r.value <= 1439
    ensures r.Some? ==> MatchClock(Trim(s)).Some?
  {
    match MatchClock(Trim(s))
    case None => None
    case Some(c) =>
      var h := c.HourValue();
      var mm := c.MinuteValue();
      if h > 23 || mm > 59 then None else Some(h * 60 + mm)
  }

  /** The clock text that spells hour `h` and minute `m`, with the hour
      zero-padded to two digits or written with one digit. */
  function Spell(h: nat, m: nat, padHour: bool): (c: ClockText)
    requires h < 24 && m < 60 && (padHour || h < 10)
    ensures c.Valid()
  {
    ClockText(if padHour then Some(DigitChar(h / 10)) else None, DigitChar(h % 10), DigitChar(m / 10), DigitChar(m % 10))
  }

  /** Spelling an hour and a minute and reading the groups back gives them
      back. */
  lemma SpellValues(h: nat, m: nat, padHour: bool)
    requires h < 24 && m < 60 && (padHour || h < 10)
    ensures Spell(h, m, padHour).HourValue() == h
    ensures Spell(h, m, padHour).MinuteValue() == m
  {
  }

  /** A matched string is its own trim: it starts and ends with a digit. */
  lemma SourceIsTrimmed(c: ClockText)
    requires c.Valid()
    ensures Trim(c.Source()) == c.Source()
  {
    var s := c.Source();
    assert !IsSpace(s[|s| - 1]) by {
      assert s[|s| - 1] == c.minute;
    }
    if c.tens.Some? {
      assert s[0] == c.tens.value;
    } else {
      assert s[0] == c.hour;
    }
  }

  /** What the parser makes of a string of the clock shape: its minute of
      the day exactly when the hour is at most 23 and the minute at most 59. */
  lemma TimeToMinutesOfClockText(c: ClockText)
    requires c.Valid()
    ensures TimeToMinutes(c.Source()) ==
      if c.HourValue() <= 23 && c.MinuteValue() <= 59 then Some(60 * c.HourValue() + c.MinuteValue())
      else None
  {
    SourceIsTrimmed(c);
    MatchClockComplete(c);
  }

  /** Every hour 0..23 and minute 0..59 is accepted, written `HH:MM` or (below
      ten o'clock) `H:MM`, and maps to 60 * hour + minute. */
  lemma TimeToMinutesAccepts(h: nat, m: nat, padHour: bool)
    requires h < 24 && m < 60 && (padHour || h < 10)
    ensures TimeToMinutes(Spell(h, m, padHour).Source()) == Some(60 * h + m)
  {
    SpellValues(h, m, padHour);
    TimeToMinutesOfClockText(Spell(h, m, padHour));
  }

  /** Conversely, the only strings accepted are, after trimming, the spelling
      of the hour and minute of the value they are mapped to. */
  lemma TimeToMinutesOnlyCanonical(s: string, v: int)
    requires TimeToMinutes(s) == Some(v)
    ensures 0 <= v < 1440
    ensures Trim(s) == Spell(v / 60, v % 60, |Trim(s)| == 5).Source()
  {
    var c := MatchClock(Trim(s)).value;
    MatchClockSound(Trim(s));
    var h := c.HourValue();
    var m := c.MinuteValue();
    assert v / 60 == h && v % 60 == m;
    DigitRoundTrip(c.minuteTens);
    DigitRoundTrip(c.minute);
    DivMod10(DigitValue(c.minuteTens), DigitValue(c.minute));
    DigitRoundTrip(c.hour);
    if c.tens.Some? {
      DigitRoundTrip(c.tens.value);
      DivMod10(DigitValue(c.tens.value), DigitValue(c.hour));
    }
    assert c == Spell(h, m, c.tens.Some?);
  }

  /** Examples: "9:05" and "09:05" are both 545. */
  lemma TimeToMinutesAcceptsExamples()
    ensures TimeToMinutes("9:05") == Some(545)
    ensures TimeToMinutes("09:05") == Some(545)
  {
    TimeToMinutesAccepts(9, 5, false);
    assert Spell(9, 5, false).Source() == "9:05";
    TimeToMinutesAccepts(9, 5, true);
    assert Spell(9, 5, true).Source() == "09:05";
  }

  /** Examples: an hour past 23, a minute past 59 and a non-time are all
      rejected. */
  lemma TimeToMinutesRejectsExamples()
    ensures TimeToMinutes("24:00") == None
    ensures TimeToMinutes("12:60") == None
    ensures TimeToMinutes("bogus") == None
  {
    var late := ClockText(Some('2'), '4', '0', '0');
    TimeToMinutesOfClockText(late);
    assert late.Source() == "24:00";
    var sixty := ClockText(Some('1'), '2', '6', '0');
    TimeToMinutesOfClockText(sixty);
    assert sixty.Source() == "12:60";
  }

  /** `timeDisplay`: `HH : MM` for any string of the clock shape, the hour
      padded to two digits and the minute kept verbatim, with no range check;
      an em dash for everything else. */
  function TimeDisplay(t: string): (r: string)
    ensures r == "—" <==> MatchClock(Trim(t)).None?
    ensures MatchClock(Trim(t)).Some? ==>
      var c := MatchClock(Trim(t)).value;
      && |r| == 7 && r[2] == ' ' && r[3] == ':' && r[4] == ' '
      && r[1] == c.hour && r[5] == c.minuteTens && r[6] == c.minute
      && r[0] == (if c.tens.Some? then c.tens.value else '0')
  {
    match MatchClock(Trim(t))
    case None => "—"
    case Some(c) =>
      var hh := match c.tens case None => '0' case Some(d) => d;
      [hh, c.hour, ' ', ':', ' ', c.minuteTens, c.minute]
  }

  /** A time the parser accepts is always displayed, as the zero-padded hour
      and the minute of its value. */
  lemma DisplayOfAcceptedTime(t: string, v: int)
    requires TimeToMinutes(t) == Some(v)
    ensures 0 <= v < 1440
    ensures TimeDisplay(t) != "—"
    ensures var c := Spell(v / 60, v % 60, true);
      TimeDisplay(t) == [c.tens.value, c.hour, ' ', ':', ' ', c.minuteTens, c.minute]
  {
    TimeToMinutesOnlyCanonical(t, v);
  }

  /** The display does no range check: "25:00" is rejected by the parser
      but still displayed, so the converse of DisplayOfAcceptedTime fails. */
  lemma DisplayWithoutRangeCheck()
    ensures TimeToMinutes("25:00") == None
    ensures TimeDisplay("25:00") == "25 : 00"
    ensures TimeDisplay("99:99") == "99 : 99"
    ensures TimeDisplay("9:05") == "09 : 05"
  {
  }
}
