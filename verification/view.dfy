/** What the list page renders, without the markup: the route card of
    `makeCard` and the timetable modal of `openForRoute` (js/internal.js). */
module View {
  import opened Wrappers
  import opened Text
  import opened Clock
  import opened Days
  import opened Window
  import opened Labels
  import opened Routes

  /** At most this many directions are shown on a card. */
  const ShownLimit: nat := 2

  /** The directions a card shows: the first two. */
  function ShownDirections(dirs: seq<Direction>): (shown: seq<Direction>)
    ensures |shown| == if |dirs| < ShownLimit then |dirs| else ShownLimit
    ensures shown == dirs[..|shown|]
  {
    if |dirs| <= ShownLimit then dirs else dirs[..ShownLimit]
  }

  /** One direction on a card: its heading and the window around now. */
  datatype DirectionCard = DirectionCard(title: string, prev: string, next: string, after: string)

  /** A route card: the route number as given, the short days label and the
      shown directions (none: the card says there is no data). */
  datatype Card = Card(number: string, daysLabel: string, directions: seq<DirectionCard>)

  /** `renderDir`: the heading and the window of one direction. The title is
      never empty; the three times are blank when no entry parses and are
      otherwise taken from the direction's own entries. */
  function RenderDirection(d: Direction, now: int): (c: DirectionCard)
    ensures c.title == FormatDirectionLabel(d.heading)
    ensures var w := PickWindow(d.lines, now); c.prev == w.prev && c.next == w.next && c.after == w.after
    ensures c.title != "" && IsTrimmed(c.title)
    ensures Minutes(d.lines) == [] ==> c.prev == "" && c.next == "" && c.after == ""
    ensures Minutes(d.lines) != [] ==> c.prev in d.lines && c.next in d.lines && c.after in d.lines
  {
    var w := PickWindow(d.lines, now);
    DirectionCard(FormatDirectionLabel(d.heading), w.prev, w.next, w.after)
  }

  /** `makeCard`. */
  function MakeCard(route: Route, now: int): (card: Card)
    ensures card.number == route.id && card.daysLabel == DaysLabel(route.days)
    ensures |card.directions| == if |route.directions| < 2 then |route.directions| else 2
    ensures forall i :: 0 <= i < |card.directions| ==> card.directions[i] == RenderDirection(route.directions[i], now)
  {
    var shown := ShownDirections(route.directions);
    Card(route.id, DaysLabel(route.days), seq(|shown|, i requires 0 <= i < |shown| => RenderDirection(shown[i], now)))
  }

  /** One cell of the timetable: its text, and whether it is greyed out. */
  datatype Cell = Cell(text: string, muted: bool)

  /** The timetable modal: title, subtitle, the column headings and the
      rows, each one cell per column. */
  datatype Modal = Modal(title: string, subtitle: string, twoColumns: bool, headingA: string, headingB: string, rows: seq<seq<Cell>>)

  /** The entry of a column at row `i`; past the end the source reads
      `undefined`, which displays like the empty string. */
  function Entry(column: seq<string>, i: nat): string {
    if i < |column| then column[i] else ""
  }

  /** A cell: the entry displayed, greyed out when the entry is empty. */
  function CellAt(column: seq<string>, i: nat): (c: Cell)
    ensures i >= |column| ==> c == Cell("—", true)
    ensures i < |column| ==> c == Cell(TimeDisplay(column[i]), column[i] == "")
  {
    var e := Entry(column, i);
    Cell(TimeDisplay(e), e == "")
  }

  /** `max(|a|, |b|, 1)`. */
  function RowCount(a: nat, b: nat): (n: nat)
    ensures n >= 1 && n >= a && n >= b
    ensures n == 1 || n == a || n == b
  {
    if a >= b && a >= 1 then a else if b >= 1 then b else 1
  }

  /** The modal title: the bus number when the trimmed id is not empty,
      otherwise the route's title, defaulting to "Расписание". */
  function ModalTitle(route: Route): string {
    var id := Trim(route.id);
    if id != "" then "Расписание автобуса №" + id else route.title.GetOr("Расписание")
  }

  /** The heading of a direction that may be missing: a missing one is
      formatted from the em dash. */
  function ColumnHeading(d: Option<Direction>): string {
    FormatDirectionLabel(match d case Some(x) => x.heading case None => "—")
  }

  /** The first direction's times, or none. */
  function ColumnA(route: Route): seq<string> {
    if |route.directions| > 0 then route.directions[0].lines else []
  }

  /** The second direction's times, or none. */
  function ColumnB(route: Route): seq<string> {
    if |route.directions| > 1 then route.directions[1].lines else []
  }

  /** `openForRoute`: a column for the first direction, a second column when
      there is a second direction, and as many rows as the longer column
      (at least one). */
  function OpenForRoute(route: Route): (m: Modal)
    ensures m.title == ModalTitle(route) && m.subtitle == DaysLabelLong(route.days)
    ensures m.twoColumns <==> |route.directions| >= 2
    ensures |route.directions| > 0 ==> m.headingA == FormatDirectionLabel(route.directions[0].heading)
    ensures m.twoColumns ==> m.headingB == FormatDirectionLabel(route.directions[1].heading)
    ensures !m.twoColumns ==> m.headingB == ""
    ensures |m.rows| >= 1 && |m.rows| >= |ColumnA(route)| && |m.rows| >= |ColumnB(route)|
    ensures |m.rows| == 1 || |m.rows| == |ColumnA(route)| || |m.rows| == |ColumnB(route)|
    ensures forall i :: 0 <= i < |m.rows| ==>
      && |m.rows[i]| == (if m.twoColumns then 2 else 1)
      && m.rows[i][0] == CellAt(ColumnA(route), i)
      && (m.twoColumns ==> m.rows[i][1] == CellAt(ColumnB(route), i))
  {
    var dirs := route.directions;
    var a := if |dirs| > 0 then Some(dirs[0]) else None;
    var b := if |dirs| > 1 then Some(dirs[1]) else None;
    var aTimes := match a case Some(d) => d.lines case None => [];
    var bTimes := match b case Some(d) => d.lines case None => [];
    var twoColumns := b.Some?;
    var n := RowCount(|aTimes|, |bTimes|);
    var rows := seq(n, i requires 0 <= i < n =>
      if twoColumns then [CellAt(aTimes, i), CellAt(bTimes, i)] else [CellAt(aTimes, i)]);
    Modal(ModalTitle(route), DaysLabelLong(route.days), twoColumns,
      ColumnHeading(a), if twoColumns then ColumnHeading(b) else "", rows)
  }

  /** A missing first direction gives the em dash heading and one row of a
      greyed-out em dash. */
  lemma ModalWithoutDirections(route: Route)
    requires route.directions == []
    ensures OpenForRoute(route).headingA == "—"
    ensures OpenForRoute(route).rows == [[Cell("—", true)]]
  {
    DashFormatsToItself();
    var rows := OpenForRoute(route).rows;
    assert |rows| == 1 && rows[0] == [CellAt([], 0)];
  }

  /** The modal is only opened from a card, and cards are made only for
      listed routes: every listed route's modal is titled with its bus
      number, so the fallback title never shows on the list page. */
  lemma ListedRouteTitle(routes: seq<Route>, r: Route)
    requires r in VisibleRoutes(routes)
    ensures ModalTitle(r) == "Расписание автобуса №" + Trim(r.id)
    ensures OpenForRoute(r).title == "Расписание автобуса №" + Trim(r.id)
  {
  }

  /** The modal's column headings are the titles of the card's directions. */
  lemma ModalHeadingsMatchCard(route: Route, now: int)
    ensures var card := MakeCard(route, now);
      && (|card.directions| > 0 ==> OpenForRoute(route).headingA == card.directions[0].title)
      && (|card.directions| > 1 ==> OpenForRoute(route).headingB == card.directions[1].title)
  {
  }
}
