# Bus timetable core, in Dafny

A model of the scheduling logic of a static bus-timetable viewer. The page
lists route cards. Each card shows the previous, next and following departure
of up to two directions around the current Moscow minute. A click opens a
modal with the route's full timetable. The model covers the pure functions
behind that page:

- **Clock** (clock.dfy): `timeToMinutes`, which parses `H:MM` / `HH:MM` into
  a minute of the day, and `timeDisplay`, which renders the same shape as
  `HH : MM`.
- **Window** (window.dfy): `pickWindow`. It picks the first departure at or
  after now, or wraps to tomorrow's first. It returns the circular
  neighbours and the absolute minute of the next departure.
  **WindowExamples** pins down its behaviour on concrete timetables.
- **Days** (days.dfy): `isRouteActiveToday`, `daysLabel` and `daysLabelLong`.
  All three use one first-match ladder over the days descriptor, written
  once as `Classify` into the datatype `DaysClass`.
- **Labels** (labels.dfy): `formatDirectionLabel`.
- **Routes** (routes.dfy): the feed's route and direction records,
  `routeNextCountdown`, and the route-id filter of the list page.
- **View** (view.dfy): what `makeCard` and `openForRoute` show, without the
  markup. That is the card's fields and at most two directions, and the
  modal's title, headings and table of cells.
- **Text** (text.dfy) and **Wrappers** (wrappers.dfy) hold the JavaScript
  string built-ins the code relies on and `Option` (the source's `null`).
  The built-ins are `trim`, `toLowerCase`, `includes`, `startsWith` and
  regular-expression `\d`.

The current minute and week day are parameters, since the source reads them
from the clock. Routes and directions are typed records. A missing `id`,
`days` or `label` is the empty string. The modal defaults a missing label to "—" rather than "", but both format to "—". A missing `title` is `None`. A
missing list is the empty sequence.

## Model

| member | source | states |
|---|---|---|
| Text.Trim | js/utils.js:23 | `trim` leaves a string with no white space at either end, does not lengthen it, and leaves an already-trimmed string alone |
| Text.TrimEmptyIffBlank | js/utils.js:23-25 | the trimmed label is empty (the `!s` test) exactly when every character is white space |
| Text.TrimKeepsMiddle | js/utils.js:23 | the trimmed string is the contiguous part of the input that starts right after the leading white space |
| Text.TrimStartDropsBlank | js/utils.js:23 | everything `trim` drops before the kept part is white space |
| Text.TrimDropsOnlySpace | js/utils.js:23 | everything `trim` drops after the kept part is white space |
| Text.TrimStartSuffix | js/utils.js:23 | dropping the leading white space leaves a suffix of the input |
| Text.LowerIdempotent | js/utils.js:24 | lower-casing an already lower-cased string changes nothing |
| Text.ContainsIffOccurs | js/utils.js:26 | `includes` holds exactly when the pattern is the slice of the string at some position, and `startsWith` exactly when it is the slice at position 0 |
| Clock.MatchClock | js/utils.js:14 | a match of `^(\d{1,2}):(\d{2})$` captures only digits in its groups |
| Clock.MatchClockSound | js/utils.js:14 | the captured groups spell out the whole matched string |
| Clock.MatchClockComplete | js/utils.js:14 | every string of the shape matches and captures its own groups back |
| Clock.SpellValues | js/utils.js:16-17 | `Number` of the spelled hour and minute groups gives the hour and minute back |
| Clock.TimeToMinutes | js/utils.js:13-20 | the result is null or a minute of the day in 0..1439, and a result exists only for trimmed input of the clock shape |
| Clock.TimeToMinutesOfClockText | js/utils.js:14-19 | a string of the clock shape maps to 60·hour + minute exactly when hour ≤ 23 and minute ≤ 59, and to null otherwise |
| Clock.TimeToMinutesAccepts | js/utils.js:13-19 | every hour 0..23 and minute 0..59, written `HH:MM` or (below ten) `H:MM`, maps to 60·h + m |
| Clock.TimeToMinutesOnlyCanonical | js/utils.js:14-19 | conversely, an accepted string is, after trimming, exactly the spelling of its value's hour and minute |
| Clock.TimeToMinutesAcceptsExamples | js/utils.js:13-19 | "9:05" and "09:05" both give 545 |
| Clock.TimeToMinutesRejectsExamples | js/utils.js:14-18 | "24:00", "12:60" and "bogus" give null |
| Clock.TimeDisplay | js/internal.js:18-25 | the em dash exactly when the trimmed input is not of the clock shape; otherwise seven characters: the hour padded to two digits, " : ", and the minute digits verbatim |
| Clock.DisplayOfAcceptedTime | js/internal.js:19-24 | every time the parser accepts is displayed (not as the em dash), as the zero-padded hour and minute of its value |
| Clock.DisplayWithoutRangeCheck | js/internal.js:20-24 | the display does no range check: "25:00" is rejected by the parser but shown as "25 : 00", "99:99" as "99 : 99", and "9:05" becomes "09 : 05" |
| Days.Classify | js/utils.js:47-54 | any descriptor whose lower case contains "weekend" is classified Weekday, because the weekday rung comes first and "week" is part of "weekend" |
| Days.ClassifyIgnoresCase | js/utils.js:47 | lower-casing the descriptor beforehand does not change its class |
| Days.EnglishWeekendIsWeekday | js/utils.js:46-51 | since "weekend" contains "week", an English weekend descriptor lands on the weekday rung; a descriptor is Weekend exactly when it has no weekday token and has "выход" |
| Days.IsRouteActiveToday | js/utils.js:46-55 | on a day 0..6 the route is active exactly when that day is a run day of its descriptor's class, and on any other day number exactly when the class is Weekend or Daily |
| Days.DaysLabel | js/utils.js:37-44 | the short label is one of "Пн-Пт", "Сб-Вс", "Сб", "Вс", "Ежедн.", and for every day 0..6 it names that day exactly when the route is active on it |
| Days.DaysLabelLong | js/internal.js:9-16 | the long label is the long form of the short label the card shows for the same descriptor |
| Days.DaysLabelAgreesWithActivity | js/utils.js:37-55 | "Ежедн." means active every day, "Пн-Пт" exactly on days 1–5, "Сб-Вс" exactly on 0 and 6, "Сб" exactly on 6, "Вс" exactly on 0 |
| Days.DaysLabelLongMatchesShort | js/internal.js:9-16 | the long label is the long form of the short label; two descriptors share a short label, and a long label, exactly when they share a class |
| Days.WeekdayExample | js/utils.js:50 | "будни" runs on Wednesday |
| Days.WeekendExample | js/utils.js:51 | "выходные" does not run on Wednesday |
| Days.CapitalisedWeekendExample | js/utils.js:47-51 | "Выходные" is lower-cased first and runs on Sunday |
| Days.SaturdayExample | js/utils.js:52 | "суббота" runs on Saturday |
| Days.EmptyIsDailyExample | js/utils.js:54 | an empty descriptor runs on every day number |
| Days.EnglishWeekendExample | js/utils.js:50 | "Weekend" does not run on Saturday |
| Window.Minutes | js/utils.js:59 | the parsed minutes are minutes of the day and no more numerous than the entries |
| Window.MinutesEmptyIff | js/utils.js:59-60 | nothing survives the filter exactly when no entry parses |
| Window.MinutesAllParse | js/utils.js:59 | when every entry parses, the filter keeps all of them and the i-th minute is the i-th entry's |
| Window.MinutesAppend | js/utils.js:59 | the filter keeps the order: it distributes over concatenation |
| Window.FirstAtOrAfter | js/utils.js:62 | `findIndex` finds nothing exactly when every minute is before now; otherwise its position holds a minute at or after now and every earlier one is before now |
| Window.PickIndex | js/utils.js:62-63 | the chosen position is the first at or after now, or 0 when every minute is before now |
| Window.PickIndexFirstUpcoming | js/utils.js:62 | any position at or after now with all earlier ones before now is the one chosen |
| Window.WindowOf | js/utils.js:60-76 | no parsed minute gives the empty window with no `nextMin`; otherwise the three strings are entries of `times` |
| Window.PickWindow | js/utils.js:57-77 | `nextMin` is absent exactly when nothing parses, and then the strings are empty; otherwise all three strings are entries of `times` |
| Window.Neighbours | js/utils.js:65-66 | `(idx-1+N) % N` and `(idx+1) % N` are the circular predecessor and successor |
| Window.WindowOfShape | js/utils.js:62-74 | next is the entry at the chosen position, prev and after its circular neighbours, and `nextMin` that departure's next occurrence |
| Window.PickWindowEmpty | js/utils.js:59-60 | the window is empty exactly when no entry parses, including when there is no entry |
| Window.WindowOfNext | js/utils.js:72-74 | over minutes of the day, `nextMin` lies within a day of now and has a day added exactly when every minute is before now |
| Window.PickWindowBounds | js/utils.js:72-74 | for now in 0..1439, `now <= nextMin < now + 1440` |
| Window.PickWindowWraps | js/utils.js:62-74 | 1440 is added exactly when every parsed minute is before now, and then `nextMin` is tomorrow's first departure |
| Window.PickWindowSingle | js/utils.js:65-70 | with one parsed departure, prev, next and after are the same string |
| Window.PickWindowAligned | js/utils.js:59-74 | when every entry parses, `next` parses to `nextMin` modulo a day |
| Window.PickWindowFirstUpcoming | js/utils.js:62-74 | when every entry parses and entry j is the first at or after now, the window is entry j with its circular neighbours and its minute, today |
| Window.WindowOfEarliest | js/utils.js:62-74 | over ascending minutes, `nextMin` is the earliest upcoming occurrence of any departure |
| Window.PickWindowEarliest | js/utils.js:58-74 | on an ascending timetable the next departure is the earliest upcoming occurrence of any departure |
| Window.WindowOfAtEnds | js/utils.js:62-74 | when now is at or before the first minute, or after them all, the window is (last, first, second) |
| Window.PickWindowBeforeFirst | js/utils.js:62-74 | on a fully parseable timetable with now at or before the first departure: prev is the last entry, next the first, and `nextMin` the first one's minute |
| Window.PickWindowAfterLast | js/utils.js:62-74 | on a fully parseable timetable with every departure before now: the window wraps to (last, first, second) and `nextMin` is the first minute plus 1440 |
| WindowExamples.Misaligned | js/utils.js:59-70 | an unparseable entry in front shifts the strings by one: `next` is the unparseable entry while `nextMin` is the first real departure |
| WindowExamples.MisalignedExample | js/utils.js:57-77 | ["bogus","08:00","09:00"] at 00:00 gives prev "08:00", next "bogus", after "08:00", nextMin 480 |
| WindowExamples.EmptyEntryExample | js/utils.js:68-70 | an empty entry in front makes `next` the empty string although a departure exists |
| WindowExamples.Between | js/utils.js:62-72 | three departures with now after the first and at or before the second give the three in order, today |
| WindowExamples.BetweenExample | js/utils.js:57-77 | ["08:00","08:30","09:00"] at 500 gives "08:00", "08:30", "09:00" and 510 |
| WindowExamples.UnsortedTakesFirstMatch | js/utils.js:58-62 | on unsorted input the first entry at or after now is taken, not the earliest departure |
| Labels.FormatDirectionLabel | js/utils.js:22-35 | the label is never empty and is trimmed; blank input gives the em dash; otherwise the result is the trimmed input, the checkpoint name, or the building prefix before the trimmed input |
| Labels.FormatDirectionLabelCases | js/utils.js:25-34 | a checkpoint or prefixed label is kept trimmed; "112" is the checkpoint; a bare building number `\d{2,4}(/\d)?` gets the prefix; a label that matches none of these rules is returned trimmed |
| Labels.FormatDirectionLabelIdempotent | js/utils.js:22-35 | formatting a formatted label changes nothing |
| Labels.DashFormatsToItself | js/utils.js:25-34 | the em dash is its own label |
| Labels.CheckpointFormatsToItself | js/utils.js:26-29 | the checkpoint name is kept because it contains "кпп" |
| Labels.PrefixedNumberFormatsToItself | js/utils.js:30-33 | a prefixed building number is kept because it starts with "тит." |
| Labels.BuildingNumberShapes | js/utils.js:33 | "085", "1234", "12/3" and "1234/5" match the building-number pattern, while "7", "12345", "12/34", "1/2" and "12a" do not |
| Labels.BuildingNumberPlain | js/utils.js:33 | a building number is its own lower case and neither names a checkpoint nor carries a prefix |
| Labels.BuildingNumberExample | js/utils.js:33 | "085" becomes "тит.085" |
| Labels.CheckpointExample | js/utils.js:29 | "112" becomes "КПП 1 (тит.112)" |
| Labels.BlankExample | js/utils.js:25 | a blank label becomes the em dash |
| Routes.BestNext | js/utils.js:85-90 | the loop's minimum is absent exactly when nothing departs, is below every direction's `nextMin`, and is attained |
| Routes.BestNextIsSoonest | js/utils.js:82-92 | from an empty start, the loop yields the soonest departure over all directions, or nothing when none departs |
| Routes.RouteNextCountdown | js/utils.js:79-95 | null for a route not running today; otherwise null exactly when no direction departs, else the minutes to the soonest departure over all directions, clamped at 0 |
| Routes.RouteNextCountdownBounds | js/utils.js:92-94 | for now in 0..1439 the countdown lies in 0..1439 |
| Routes.InactiveHasNoCountdown | js/utils.js:80 | a route not running today has no countdown, whatever its directions |
| Routes.VisibleRoutes | js/internal.js:185 | a route is listed exactly when it is in the feed and its trimmed id is not empty |
| Routes.VisibleRoutesAppend | js/internal.js:185 | the filter keeps the feed's order: it distributes over concatenation |
| Routes.VisibleRoutesIdempotent | js/internal.js:185 | filtering the list again changes nothing |
| View.ShownDirections | js/internal.js:117-118 | a card shows the first min(n, 2) directions |
| View.RenderDirection | js/internal.js:123-139 | a direction shows its formatted, non-empty heading and its window; the times are blank when nothing parses, otherwise entries of the direction |
| View.MakeCard | js/internal.js:109-154 | the card carries the route id as given, the short days label, and one rendered direction for each of the first min(n, 2) directions |
| View.CellAt | js/internal.js:72-81 | a cell past the end of its column is a greyed-out em dash; otherwise it is the entry's display, greyed out when the entry is empty |
| View.RowCount | js/internal.js:67 | the row count is `max(a, b, 1)` |
| View.OpenForRoute | js/internal.js:43-86 | title and long days label; the first heading is the first direction's formatted label; two columns exactly when there is a second direction, headed by its formatted label; as many rows as the longer column (at least one) with one cell per column, padded past a column's end |
| View.ListedRouteTitle | js/internal.js:45-46 | every route the list keeps gets the modal title "Расписание автобуса №" followed by its trimmed id, so the fallback title never shows on the list page |
| View.ModalHeadingsMatchCard | js/internal.js:53-63 | the modal's column headings are the titles of the card's first and second directions |
| View.ModalWithoutDirections | js/internal.js:49-81 | with no directions the heading is the em dash and the table is one greyed-out em dash |

## Left out

- `getMoscowNow` (js/utils.js:1-11) reads the system clock. The current minute and week day are parameters instead.
- `loadData`, `main` and its `catch` (js/internal.js:3-7, 170-194) are network I/O and promise plumbing. Only the route filter at line 185 is modelled.
- DOM work is not modelled: element creation, CSS classes, `innerHTML` templates, the modal's open/close and key handlers, `qs`, `initDrawer` and `iconMenuSvg`. A card with no direction shows "Нет данных"; the model gives such a card an empty list of directions.
- Text.Lower: folds only the ASCII capitals and the Cyrillic capitals U+0400–U+042F, not all of `toLowerCase`. Capitals outside those ranges are not folded, so a descriptor or label that relies on them is classified differently. For example, JavaScript lower-cases the Kelvin sign U+212A to "k", which makes "WEE" followed by that sign a weekday descriptor; the model classifies it Daily.
- JavaScript strings are UTF-16, while Dafny's `string` holds Unicode scalar values. A character outside the Basic Multilingual Plane is one Dafny character but two JavaScript code units. No modelled result depends on that count: the only length-sensitive tests are the clock and building-number patterns, and they accept ASCII characters only.
- Dynamic typing is not modelled: `String(x ?? "")`, the `Array.isArray` guards and non-string entries. The records are typed. The `|| ""` after each window string is the identity on strings and is left out.
- The `h < 0` and `mm < 0` tests of `timeToMinutes` cannot fire on digit groups. Only the upper bounds are modelled.

Assumptions the code makes but does not enforce:

- `pickWindow` assumes its times are sorted (the comment at js/utils.js:58). The before-first and after-last behaviour is guaranteed only when every entry parses. An unparseable entry can shift the strings against `nextMin`, because the strings are read at positions counted among the parsed entries (WindowExamples.Misaligned). Window.PickWindowBeforeFirst and Window.PickWindowAfterLast require that every entry parses, and need no sortedness.
- Nothing checks the sort order. On unsorted times the scan takes the first departure at or after now, which need not be the earliest, as WindowExamples.UnsortedTakesFirstMatch shows.
- The current minute is not range-checked by any of the functions. Only the bounds lemmas assume 0..1439.
