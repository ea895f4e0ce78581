/** The free-text "days" descriptor of a route. `isRouteActiveToday` and
    `daysLabel` (js/utils.js) and `daysLabelLong` (js/internal.js) all run the
    same first-match ladder of case-insensitive substring tests; here the
    ladder is written once, as Classify, and the three are functions of its
    result. */
module Days {
  import opened Text

  /** What a descriptor is taken to mean. */
  datatype DaysClass = Weekday | Weekend | Sat | Sun | Daily

  /** The ladder, first match wins: a weekday token, then a weekend token,
      then Saturday, then Sunday, otherwise every day. Because the weekday
      token "week" is a prefix of "weekend", the English weekend token never
      reaches its own rung. */
  function Classify(days: string): (c: DaysClass)
    ensures Contains(Lower(days), "weekend") ==> c == Weekday
  {
    var v := Lower(days);
    if Contains(v, "weekend") then
      ContainsPrefixOf(v, "weekend", "week");
      ClassifyLowered(v)
    else
      ClassifyLowered(v)
  }

  /** The ladder proper, on the lower-cased descriptor. */
  function ClassifyLowered(v: string): DaysClass {
    if Contains(v, "week") || Contains(v, "будн") then Weekday
    else if Contains(v, "weekend") || Contains(v, "выход") then Weekend
    else if Contains(v, "sat") || Contains(v, "суб") then Sat
    else if Contains(v, "sun") || Contains(v, "воск") then Sun
    else Daily
  }

  /** Because "weekend" contains "week", the English weekend token never
      reaches the second rung: such a descriptor is weekday-only, and only
      the local token makes a descriptor Weekend. */
  lemma EnglishWeekendIsWeekday(days: string)
    ensures Contains(Lower(days), "weekend") ==> Classify(days) == Weekday
    ensures Classify(days) == Weekend <==>
      !Contains(Lower(days), "week") && !Contains(Lower(days), "будн") && Contains(Lower(days), "выход")
  {
    if Contains(Lower(days), "weekend") {
      ContainsPrefixOf(Lower(days), "weekend", "week");
    }
  }

  /** Lower-casing the descriptor first changes nothing: the ladder is
      case-insensitive. */
  lemma ClassifyIgnoresCase(days: string)
    ensures Classify(Lower(days)) == Classify(days)
  {
    LowerIdempotent(days);
  }

  /** The week days (0 = Sunday .. 6 = Saturday) on which a class runs. */
  function RunDays(c: DaysClass): set<int> {
    match c
    case Weekday => {1, 2, 3, 4, 5}
    case Weekend => {0, 6}
    case Sat => {6}
    case Sun => {0}
    case Daily => {0, 1, 2, 3, 4, 5, 6}
  }

  /** `isRouteActiveToday`: the rung's test applied to the day number. Days
      outside 0..6 are not rejected: a weekend route counts as running on
      every number that is not 1..5. */
  function IsRouteActiveToday(days: string, day: int): (active: bool)
    ensures 0 <= day <= 6 ==> (active <==> day in RunDays(Classify(days)))
    ensures !(0 <= day <= 6) ==> (active <==> Classify(days) == Weekend || Classify(days) == Daily)
  {
    var isWeekday := 1 <= day <= 5;
    match Classify(days)
    case Weekday => isWeekday
    case Weekend => !isWeekday
    case Sat => day == 6
    case Sun => day == 0
    case Daily => true
  }

  /** The week days a short label names. */
  function LabelDays(short: string): set<int> {
    if short == "Пн-Пт" then {1, 2, 3, 4, 5}
    else if short == "Сб-Вс" then {0, 6}
    else if short == "Сб" then {6}
    else if short == "Вс" then {0}
    else {0, 1, 2, 3, 4, 5, 6}
  }

  /** `daysLabel`: the short label shown on a route card. It names exactly
      the week days on which the route runs. */
  function DaysLabel(days: string): (r: string)
    ensures r in {"Пн-Пт", "Сб-Вс", "Сб", "Вс", "Ежедн."}
    ensures forall day :: 0 <= day <= 6 ==> (IsRouteActiveToday(days, day) <==> day in LabelDays(r))
  {
    match Classify(days)
    case Weekday => "Пн-Пт"
    case Weekend => "Сб-Вс"
    case Sat => "Сб"
    case Sun => "Вс"
    case Daily => "Ежедн."
  }

  /** `daysLabelLong`: the long label shown in the timetable modal, the long
      form of the card's short label. */
  function DaysLabelLong(days: string): (r: string)
    ensures r == LongForm(DaysLabel(days))
  {
    match Classify(days)
    case Weekday => "Пн - Пт"
    case Weekend => "Сб - Вс"
    case Sat => "Суббота"
    case Sun => "Воскресенье"
    case Daily => "Ежедневно"
  }

  /** The label a card shows agrees with the days the route runs: for a
      week day 0..6, each label names exactly the days on which the route is
      active. */
  lemma DaysLabelAgreesWithActivity(days: string, day: int)
    requires 0 <= day <= 6
    ensures DaysLabel(days) == "Ежедн." ==> IsRouteActiveToday(days, day)
    ensures DaysLabel(days) == "Пн-Пт" ==> (IsRouteActiveToday(days, day) <==> 1 <= day <= 5)
    ensures DaysLabel(days) == "Сб-Вс" ==> (IsRouteActiveToday(days, day) <==> day == 0 || day == 6)
    ensures DaysLabel(days) == "Сб" ==> (IsRouteActiveToday(days, day) <==> day == 6)
    ensures DaysLabel(days) == "Вс" ==> (IsRouteActiveToday(days, day) <==> day == 0)
  {
  }

  /** The long form of each short label. */
  function LongForm(short: string): string {
    if short == "Пн-Пт" then "Пн - Пт"
    else if short == "Сб-Вс" then "Сб - Вс"
    else if short == "Сб" then "Суббота"
    else if short == "Вс" then "Воскресенье"
    else "Ежедневно"
  }

  /** The modal's long label is the long form of the card's short label, and
      distinct descriptors classes never share a label. */
  lemma DaysLabelLongMatchesShort(days: string, other: string)
    ensures DaysLabelLong(days) == LongForm(DaysLabel(days))
    ensures DaysLabel(days) == DaysLabel(other) <==> Classify(days) == Classify(other)
    ensures DaysLabelLong(days) == DaysLabelLong(other) <==> Classify(days) == Classify(other)
  {
  }

  /** Example: a Russian weekday descriptor runs on Wednesday. */
  lemma WeekdayExample()
    ensures IsRouteActiveToday("будни", 3)
  {
    assert Lower("будни") == "будни";
    assert StartsWith("будни", "будн");
  }

  /** Example: a Russian weekend descriptor does not run on Wednesday. */
  lemma WeekendExample()
    ensures !IsRouteActiveToday("выходные", 3)
  {
    WeekendLowered("выходные");
  }

  /** Example: the same descriptor capitalised runs on Sunday. */
  lemma CapitalisedWeekendExample()
    ensures IsRouteActiveToday("Выходные", 0)
  {
    WeekendLowered("Выходные");
  }

  /** Both spellings of the weekend descriptor fall on the weekend rung. */
  lemma WeekendLowered(days: string)
    requires days == "выходные" || days == "Выходные"
    ensures Classify(days) == Weekend
  {
    var v := "выходные";
    assert Lower(days) == v;
    WeekendMissesWeekdayRung(v);
    assert StartsWith(v, "выход");
  }

  /** The weekend descriptor matches no weekday token. */
  lemma WeekendMissesWeekdayRung(v: string)
    requires v == "выходные"
    ensures !Contains(v, "week") && !Contains(v, "будн")
  {
    MissingCharNotContained(v, "week", 0);
    MissingCharNotContained(v, "будн", 0);
  }

  /** Example: a Saturday descriptor runs on Saturday. */
  lemma SaturdayExample()
    ensures IsRouteActiveToday("суббота", 6)
  {
    var v := "суббота";
    assert Lower(v) == v;
    SaturdayMissesEarlierRungs(v);
    assert StartsWith(v, "суб");
  }

  /** The Saturday descriptor matches neither of the first two rungs. */
  lemma SaturdayMissesEarlierRungs(v: string)
    requires v == "суббота"
    ensures !Contains(v, "week") && !Contains(v, "будн")
    ensures !Contains(v, "weekend") && !Contains(v, "выход")
  {
    MissingCharNotContained(v, "week", 0);
    MissingCharNotContained(v, "будн", 3);
    MissingCharNotContained(v, "weekend", 0);
    MissingCharNotContained(v, "выход", 0);
  }

  /** Example: an empty descriptor runs every day. */
  lemma EmptyIsDailyExample()
    ensures forall day :: IsRouteActiveToday("", day)
  {
  }

  /** Example: an English "Weekend" lands on the weekday rung, so the route
      does not run on Saturday. */
  lemma EnglishWeekendExample()
    ensures !IsRouteActiveToday("Weekend", 6)
  {
    assert Lower("Weekend") == "weekend";
    assert StartsWith("weekend", "week");
  }
}
