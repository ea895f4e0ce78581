/** `pickWindow` (js/utils.js): the previous, next and after departures of
    one direction around the current minute, and the absolute minute of the
    next departure, which is pushed into tomorrow when the day's last
    departure has gone. */
module Window {
  import opened Wrappers
  import opened Clock

  /** The result record; `nextMin` is absent exactly when nothing parsed. */
  datatype TimeWindow = TimeWindow(prev: string, next: string, after: string, nextMin: Option<int>)

  /** The departure strings' minutes of the day, unparseable entries dropped
      and the order kept. */
  function Minutes(times: seq<string>): (mins: seq<int>)
    ensures |mins| <= |times|
    ensures InDay(mins)
  {
    if times == [] then []
    else match TimeToMinutes(times[0])
      case None => Minutes(times[1..])
      case Some(m) => [m] + Minutes(times[1..])
  }

  /** Every value is a minute of the day. */
  predicate InDay(mins: seq<int>) {
    forall i :: 0 <= i < |mins| ==> 0 <= mins[i] <= 1439
  }

  /** Nothing survives the filter exactly when no entry parses. */
  lemma {:induction false} MinutesEmptyIff(times: seq<string>)
    ensures Minutes(times) == [] <==> forall i :: 0 <= i < |times| ==> TimeToMinutes(times[i]).None?
  {
    if times != [] {
      MinutesEmptyIff(times[1..]);
      if TimeToMinutes(times[0]).None? {
        forall i | 1 <= i < |times| ensures times[i] == times[1..][i - 1] { }
      }
    }
  }

  /** When every entry parses, the filter drops nothing and the i-th minute
      is the i-th entry's. */
  lemma {:induction false} MinutesAllParse(times: seq<string>)
    requires forall i :: 0 <= i < |times| ==> TimeToMinutes(times[i]).Some?
    ensures |Minutes(times)| == |times|
    ensures forall i :: 0 <= i < |times| ==> TimeToMinutes(times[i]) == Some(Minutes(times)[i])
  {
    if times != [] {
      assert forall i :: 0 <= i < |times[1..]| ==> times[1..][i] == times[i + 1];
      MinutesAllParse(times[1..]);
    }
  }

  /** The filter distributes over concatenation. */
  lemma {:induction false} MinutesAppend(a: seq<string>, b: seq<string>)
    ensures Minutes(a + b) == Minutes(a) + Minutes(b)
  {
    if a != [] {
      assert (a + b)[1..] == a[1..] + b;
      MinutesAppend(a[1..], b);
    } else {
      assert a + b == b;
    }
  }

  /** Every departure in `mins` is before `now`. */
  predicate AllBefore(mins: seq<int>, now: int) {
    forall i :: 0 <= i < |mins| ==> mins[i] < now
  }

  /** `findIndex(m => m >= nowMin)`: the first position whose minute is at or
      after `now`, or None (the source's -1) when there is none. */
  function FirstAtOrAfter(mins: seq<int>, now: int): (r: Option<nat>)
    ensures r.None? <==> AllBefore(mins, now)
    ensures r.Some? ==> r.value < |mins| && mins[r.value] >= now
    ensures r.Some? ==> forall i :: 0 <= i < r.value ==> mins[i] < now
  {
    if mins == [] then None
    else if mins[0] >= now then Some(0)
    else match FirstAtOrAfter(mins[1..], now)
      case None => None
      case Some(k) => Some(k + 1)
  }

  /** The position `pickWindow` settles on: the first at or after `now`, or
      the first of all when the scan wraps to tomorrow. */
  function PickIndex(mins: seq<int>, now: int): (idx: nat)
    requires mins != []
    ensures idx < |mins|
    ensures !AllBefore(mins, now) ==> mins[idx] >= now && forall i :: 0 <= i < idx ==> mins[i] < now
    ensures AllBefore(mins, now) ==> idx == 0
  {
    match FirstAtOrAfter(mins, now)
    case None => 0
    case Some(k) => k
  }

  /** The window at `now` given the minutes `mins` of the parseable entries
      of `times`: positions are computed in `mins`, strings are read from
      `times` at the same positions. */
  function WindowOf(times: seq<string>, mins: seq<int>, now: int): (w: TimeWindow)
    requires |mins| <= |times|
    ensures w.nextMin.None? <==> mins == []
    ensures w.nextMin.None? ==> w == TimeWindow("", "", "", None)
    ensures w.nextMin.Some? ==> w.next in times && w.prev in times && w.after in times
  {
    if |mins| == 0 then TimeWindow("", "", "", None)
    else
      var n := |mins|;
      var idx := PickIndex(mins, now);
      var nextMin := if mins[idx] < now then mins[idx] + 1440 else mins[idx];
      TimeWindow(times[(idx - 1 + n) % n], times[idx], times[(idx + 1) % n], Some(nextMin))
  }

  /** `pickWindow`. As in the source, the positions are found among the
      parsed minutes but the strings are read from the unfiltered `times`;
      the filter only shortens, so every position is inside `times`. */
  function PickWindow(times: seq<string>, now: int): (w: TimeWindow)
    ensures w.nextMin.None? <==> Minutes(times) == []
    ensures w.nextMin.None? ==> w == TimeWindow("", "", "", None)
    ensures w.nextMin.Some? ==> w.next in times && w.prev in times && w.after in times
  {
    WindowOf(times, Minutes(times), now)
  }

  /** The absolute minute at which a departure at minute `m` next leaves:
      today if not yet gone, else tomorrow. */
  function Occurrence(m: int, now: int): int {
    if m >= now then m else m + 1440
  }

  /** Ascending timetables, the order the source assumes. */
  predicate Ascending(mins: seq<int>) {
    forall i, j :: 0 <= i < j < |mins| ==> mins[i] <= mins[j]
  }

  /** The circular neighbours of position `idx` among `n`, as the source
      computes them with `%`. */
  lemma Neighbours(idx: int, n: int)
    requires 0 <= idx < n
    ensures (idx - 1 + n) % n == if idx == 0 then n - 1 else idx - 1
    ensures (idx + 1) % n == if idx == n - 1 then 0 else idx + 1
  {
    if idx == 0 {
      assert (idx - 1 + n) % n == (n - 1) % n;
    } else {
      assert idx - 1 + n == (idx - 1) + 1 * n;
    }
    if idx == n - 1 {
      assert idx + 1 == 0 + 1 * n;
    }
  }

  /** The shape of a non-empty window, position by position: `prev` and
      `after` are the circular neighbours of `next`. */
  lemma WindowOfShape(times: seq<string>, mins: seq<int>, now: int)
    requires 0 < |mins| <= |times|
    ensures var w := WindowOf(times, mins, now);
      var idx := PickIndex(mins, now);
      var n := |mins|;
      && w.next == times[idx]
      && w.prev == times[if idx == 0 then n - 1 else idx - 1]
      && w.after == times[if idx == n - 1 then 0 else idx + 1]
      && w.nextMin == Some(Occurrence(mins[idx], now))
  {
    Neighbours(PickIndex(mins, now), |mins|);
  }

  /** Reduction of minutes taken modulo a day. */
  lemma DayMod(m: int)
    requires 0 <= m < 1440
    ensures m % 1440 == m && (m + 1440) % 1440 == m
  {
  }

  /** With no parseable entry, and in particular with no entry at all, the
      window is empty. */
  lemma PickWindowEmpty(times: seq<string>, now: int)
    ensures (forall i :: 0 <= i < |times| ==> TimeToMinutes(times[i]).None?) <==>
      PickWindow(times, now) == TimeWindow("", "", "", None)
  {
    MinutesEmptyIff(times);
  }

  /** The next departure of a window over minutes of the day. */
  lemma WindowOfNext(times: seq<string>, mins: seq<int>, now: int)
    requires 0 < |mins| <= |times|
    requires InDay(mins)
    ensures var v := WindowOf(times, mins, now).nextMin.value;
      && (0 <= now <= 1439 ==> now <= v < now + 1440)
      && (v >= 1440 <==> AllBefore(mins, now))
      && (v >= 1440 ==> v == mins[0] + 1440)
  {
    WindowOfShape(times, mins, now);
    var idx := PickIndex(mins, now);
    assert 0 <= mins[idx] <= 1439;
  }

  /** The next departure is never in the past and less than a day ahead. */
  lemma PickWindowBounds(times: seq<string>, now: int)
    requires 0 <= now <= 1439
    requires PickWindow(times, now).nextMin.Some?
    ensures now <= PickWindow(times, now).nextMin.value < now + 1440
  {
    WindowOfNext(times, Minutes(times), now);
  }

  /** A day is added exactly when every parsed departure is before `now`,
      and then the next departure is tomorrow's first one. */
  lemma PickWindowWraps(times: seq<string>, now: int)
    requires PickWindow(times, now).nextMin.Some?
    ensures PickWindow(times, now).nextMin.value >= 1440 <==> AllBefore(Minutes(times), now)
    ensures PickWindow(times, now).nextMin.value >= 1440 ==>
      PickWindow(times, now).nextMin.value == Minutes(times)[0] + 1440
  {
    WindowOfNext(times, Minutes(times), now);
  }

  /** With a single parsed departure the three strings coincide. */
  lemma PickWindowSingle(times: seq<string>, now: int)
    requires |Minutes(times)| == 1
    ensures PickWindow(times, now).prev == PickWindow(times, now).next == PickWindow(times, now).after
  {
    WindowOfShape(times, Minutes(times), now);
  }

  /** When every entry parses, `next` parses to `nextMin` taken modulo a
      day. */
  lemma PickWindowAligned(times: seq<string>, now: int)
    requires times != []
    requires forall i :: 0 <= i < |times| ==> TimeToMinutes(times[i]).Some?
    ensures PickWindow(times, now).nextMin.Some?
    ensures TimeToMinutes(PickWindow(times, now).next) == Some(PickWindow(times, now).nextMin.value % 1440)
  {
    MinutesAllParse(times);
    var mins := Minutes(times);
    WindowOfShape(times, mins, now);
    var j := PickIndex(mins, now);
    DayMod(mins[j]);
    assert TimeToMinutes(times[j]) == Some(mins[j]);
  }

  /** When every entry parses and entry `j` is the first at or after `now`,
      the window is entry `j` with its circular neighbours (see Neighbours),
      today. */
  lemma PickWindowFirstUpcoming(times: seq<string>, now: int, j: int)
    requires forall i :: 0 <= i < |times| ==> TimeToMinutes(times[i]).Some?
    requires 0 <= j < |times| && TimeToMinutes(times[j]).value >= now
    requires forall i :: 0 <= i < j ==> TimeToMinutes(times[i]).value < now
    ensures var w := PickWindow(times, now);
      var n := |times|;
      && w.next == times[j]
      && w.prev == times[if j == 0 then n - 1 else j - 1]
      && w.after == times[if j == n - 1 then 0 else j + 1]
      && w.nextMin == TimeToMinutes(times[j])
  {
    MinutesAllParse(times);
    var mins := Minutes(times);
    assert TimeToMinutes(times[j]) == Some(mins[j]);
    assert forall i :: 0 <= i < j ==> mins[i] < now by {
      forall i | 0 <= i < j ensures mins[i] < now {
        assert TimeToMinutes(times[i]) == Some(mins[i]);
      }
    }
    PickIndexFirstUpcoming(mins, now, j);
    WindowOfShape(times, mins, now);
    var w := WindowOf(times, mins, now);
    assert w.nextMin == Some(mins[j]);
    assert w == PickWindow(times, now);
  }

  /** The scan stops at the first position at or after `now`. */
  lemma PickIndexFirstUpcoming(mins: seq<int>, now: int, j: int)
    requires 0 <= j < |mins| && mins[j] >= now
    requires forall i :: 0 <= i < j ==> mins[i] < now
    ensures PickIndex(mins, now) == j
  {
    assert !AllBefore(mins, now);
  }

  /** `v` is the earliest upcoming occurrence of a departure in `mins`. */
  predicate Earliest(v: int, mins: seq<int>, now: int) {
    && (forall i :: 0 <= i < |mins| ==> v <= Occurrence(mins[i], now))
    && exists i :: 0 <= i < |mins| && v == Occurrence(mins[i], now)
  }

  /** Over ascending minutes the chosen departure is the earliest upcoming
      occurrence of any of them. */
  lemma WindowOfEarliest(times: seq<string>, mins: seq<int>, now: int)
    requires 0 < |mins| <= |times|
    requires InDay(mins) && Ascending(mins)
    ensures Earliest(WindowOf(times, mins, now).nextMin.value, mins, now)
  {
    WindowOfShape(times, mins, now);
    var idx := PickIndex(mins, now);
    assert 0 <= mins[idx] <= 1439;
  }

  /** On an ascending timetable the next departure is the earliest upcoming
      occurrence of any departure. */
  lemma PickWindowEarliest(times: seq<string>, now: int)
    requires Ascending(Minutes(times))
    requires PickWindow(times, now).nextMin.Some?
    ensures Earliest(PickWindow(times, now).nextMin.value, Minutes(times), now)
  {
    WindowOfEarliest(times, Minutes(times), now);
  }

  /** Over minutes whose first is at or after `now`, or which are all before
      it, the window is (last, first, second). */
  lemma WindowOfAtEnds(times: seq<string>, mins: seq<int>, now: int)
    requires 0 < |mins| == |times|
    requires now <= mins[0] || AllBefore(mins, now)
    ensures var w := WindowOf(times, mins, now);
      && w.prev == times[|times| - 1] && w.next == times[0] && w.after == times[1 % |times|]
      && w.nextMin == Some(if now <= mins[0] then mins[0] else mins[0] + 1440)
  {
    WindowOfShape(times, mins, now);
    assert PickIndex(mins, now) == 0;
    if |times| > 1 {
      assert 1 % |times| == 1;
    }
  }

  /** On a fully parseable timetable with `now` at or before the first
      departure, the window is (last, first, second) and the next departure
      is the first one, today. */
  lemma PickWindowBeforeFirst(times: seq<string>, now: int)
    requires times != []
    requires forall i :: 0 <= i < |times| ==> TimeToMinutes(times[i]).Some?
    requires now <= TimeToMinutes(times[0]).value
    ensures var w := PickWindow(times, now);
      && w.prev == times[|times| - 1] && w.next == times[0] && w.after == times[1 % |times|]
      && w.nextMin == TimeToMinutes(times[0])
  {
    MinutesAllParse(times);
    var mins := Minutes(times);
    assert TimeToMinutes(times[0]) == Some(mins[0]);
    WindowOfAtEnds(times, mins, now);
  }

  /** On a fully parseable timetable with every departure before `now` (on
      an ascending one: the last departure before `now`) the window wraps:
      (last, first, second), and the next departure is the first one,
      tomorrow. */
  lemma PickWindowAfterLast(times: seq<string>, now: int)
    requires times != []
    requires forall i :: 0 <= i < |times| ==> TimeToMinutes(times[i]).Some?
    requires forall i :: 0 <= i < |times| ==> TimeToMinutes(times[i]).value < now
    ensures var w := PickWindow(times, now);
      && w.prev == times[|times| - 1] && w.next == times[0] && w.after == times[1 % |times|]
      && w.nextMin == Some(TimeToMinutes(times[0]).value + 1440)
  {
    MinutesAllParse(times);
    var mins := Minutes(times);
    assert AllBefore(mins, now);
    WindowOfAtEnds(times, mins, now);
  }
}

module WindowExamples {
  import opened Wrappers
  import opened Text
  import opened Clock
  import opened Window

  /** The positions are taken among the parsed entries but the strings among
      all of them: an unparseable entry in front shifts every string by one,
      so `next` is the unparseable entry while `nextMin` is the first real
      departure. */
  lemma Misaligned(x: string, a: string, b: string, now: int)
    requires TimeToMinutes(x).None?
    requires TimeToMinutes(a).Some? && TimeToMinutes(b).Some?
    requires now <= TimeToMinutes(a).value
    ensures PickWindow([x, a, b], now) == TimeWindow(a, x, a, TimeToMinutes(a))
    ensures TimeToMinutes(PickWindow([x, a, b], now).next).None?
  {
    var times := [x, a, b];
    assert times[1..] == [a, b] && [a, b][1..] == [b] && [b][1..] == [];
    assert Minutes([b]) == [TimeToMinutes(b).value] + Minutes([]);
    assert Minutes([a, b]) == [TimeToMinutes(a).value] + Minutes([b]);
    var mins := Minutes(times);
    assert mins == [TimeToMinutes(a).value, TimeToMinutes(b).value];
    PickIndexFirstUpcoming(mins, now, 0);
    WindowOfShape(times, mins, now);
  }

  /** An instance: "bogus" in front of "08:00" and "09:00", at midnight. */
  lemma MisalignedExample()
    ensures PickWindow(["bogus", "08:00", "09:00"], 0) == TimeWindow("08:00", "bogus", "08:00", Some(480))
  {
    TimeToMinutesRejectsExamples();
    TimeToMinutesAccepts(8, 0, true);
    assert Spell(8, 0, true).Source() == "08:00";
    TimeToMinutesAccepts(9, 0, true);
    assert Spell(9, 0, true).Source() == "09:00";
    Misaligned("bogus", "08:00", "09:00", 0);
  }

  /** An instance with an empty entry in front: `next` is the empty string
      although a departure exists. */
  lemma EmptyEntryExample()
    ensures PickWindow(["", "08:00", "09:00"], 0) == TimeWindow("08:00", "", "08:00", Some(480))
  {
    assert TimeToMinutes("") == None by {
      assert Trim("") == "";
    }
    TimeToMinutesAccepts(8, 0, true);
    assert Spell(8, 0, true).Source() == "08:00";
    TimeToMinutesAccepts(9, 0, true);
    assert Spell(9, 0, true).Source() == "09:00";
    Misaligned("", "08:00", "09:00", 0);
  }

  /** Three departures with `now` after the first and at or before the
      second: the window is the three of them in order, today. */
  lemma Between(a: string, b: string, c: string, now: int)
    requires TimeToMinutes(a).Some? && TimeToMinutes(b).Some? && TimeToMinutes(c).Some?
    requires TimeToMinutes(a).value < now <= TimeToMinutes(b).value
    ensures PickWindow([a, b, c], now) == TimeWindow(a, b, c, TimeToMinutes(b))
  {
    var times := [a, b, c];
    assert times[0] == a && times[1] == b && times[2] == c;
    PickWindowFirstUpcoming(times, now, 1);
  }

  /** An instance: 08:00, 08:30 and 09:00 at 08:20. */
  lemma BetweenExample()
    ensures PickWindow(["08:00", "08:30", "09:00"], 500) == TimeWindow("08:00", "08:30", "09:00", Some(510))
  {
    TimeToMinutesAccepts(8, 0, true);
    assert Spell(8, 0, true).Source() == "08:00";
    TimeToMinutesAccepts(8, 30, true);
    assert Spell(8, 30, true).Source() == "08:30";
    TimeToMinutesAccepts(9, 0, true);
    assert Spell(9, 0, true).Source() == "09:00";
    Between("08:00", "08:30", "09:00", 500);
  }

  /** On unsorted input the scan still takes the first departure at or after
      `now`, which need not be the earliest one: at 06:40, 10:00 listed
      before 08:20 is chosen. */
  lemma UnsortedTakesFirstMatch(a: string, b: string)
    requires TimeToMinutes(a) == Some(600) && TimeToMinutes(b) == Some(500)
    ensures PickWindow([a, b], 400).next == a
    ensures PickWindow([a, b], 400).nextMin == Some(600)
    ensures !Earliest(600, Minutes([a, b]), 400)
  {
    var times := [a, b];
    assert times[1..] == [b] && [b][1..] == [];
    assert Minutes([b]) == [500] + Minutes([]);
    var mins := Minutes(times);
    assert mins == [600, 500];
    PickIndexFirstUpcoming(mins, 400, 0);
    WindowOfShape(times, mins, 400);
    assert Occurrence(mins[1], 400) == 500;
  }
}
