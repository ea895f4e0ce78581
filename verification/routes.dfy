/** Routes as the feed describes them, `routeNextCountdown` (js/utils.js)
    and the route-id filter of the list page (js/internal.js). */
module Routes {
  import opened Wrappers
  import opened Text
  import opened Days
  import opened Window

  /** One direction of a route: its heading (the feed's `label` field;
      `label` is a reserved word in Dafny) and its departure strings. */
  datatype Direction = Direction(heading: string, lines: seq<string>)

  /** A route of the feed. A missing `id`, `days` or list is the empty
      string or list; a missing `title` is None. */
  datatype Route = Route(id: string, title: Option<string>, days: string, directions: seq<Direction>)

  /** The absolute minute of a direction's next departure, if it has one. */
  function NextMin(d: Direction, now: int): Option<int> {
    PickWindow(d.lines, now).nextMin
  }

  /** `v` is the smallest next departure over `dirs` and is attained. */
  predicate Soonest(v: int, dirs: seq<Direction>, now: int) {
    && (forall i :: 0 <= i < |dirs| && NextMin(dirs[i], now).Some? ==> v <= NextMin(dirs[i], now).value)
    && exists i :: 0 <= i < |dirs| && NextMin(dirs[i], now) == Some(v)
  }

  /** No direction of `dirs` has a next departure. */
  predicate NoneDeparts(dirs: seq<Direction>, now: int) {
    forall i :: 0 <= i < |dirs| ==> NextMin(dirs[i], now).None?
  }

  /** The loop of `routeNextCountdown` from the running minimum `best` on:
      a direction without departures is skipped, a strictly smaller one
      replaces the minimum. */
  function BestNext(best: Option<int>, dirs: seq<Direction>, now: int): (r: Option<int>)
    ensures r.None? <==> best.None? && NoneDeparts(dirs, now)
    ensures r.Some? && best.Some? ==> r.value <= best.value
    ensures r.Some? ==> forall i :: 0 <= i < |dirs| && NextMin(dirs[i], now).Some? ==> r.value <= NextMin(dirs[i], now).value
    ensures r.Some? ==> r == best || exists i :: 0 <= i < |dirs| && NextMin(dirs[i], now) == r
    decreases |dirs|
  {
    if dirs == [] then best
    else
      var m := NextMin(dirs[0], now);
      var best' := if m.None? then best else if best.None? || m.value < best.value then m else best;
      var r := BestNext(best', dirs[1..], now);
      assert forall i :: 1 <= i < |dirs| ==> dirs[i] == dirs[1..][i - 1];
      r
  }

  /** Started from nothing, the loop finds the soonest departure over all
      directions. */
  lemma BestNextIsSoonest(dirs: seq<Direction>, now: int)
    ensures BestNext(None, dirs, now).None? <==> NoneDeparts(dirs, now)
    ensures BestNext(None, dirs, now).Some? ==> Soonest(BestNext(None, dirs, now).value, dirs, now)
  {
  }

  /** `routeNextCountdown`: nothing when the route does not run today or no
      direction has a departure, otherwise the minutes until the soonest
      departure over all directions, clamped at zero. */
  function RouteNextCountdown(route: Route, now: int, day: int): (r: Option<int>)
    ensures !IsRouteActiveToday(route.days, day) ==> r.None?
    ensures IsRouteActiveToday(route.days, day) ==> (r.None? <==> NoneDeparts(route.directions, now))
    ensures r.Some? ==> r.value >= 0
    ensures r.Some? ==> exists v :: Soonest(v, route.directions, now) && r.value == if v > now then v - now else 0
  {
    if !IsRouteActiveToday(route.days, day) then None
    else
      BestNextIsSoonest(route.directions, now);
      match BestNext(None, route.directions, now)
      case None => None
      case Some(best) => Some(if best - now > 0 then best - now else 0)
  }

  /** For a current minute of the day the countdown is below a day. */
  lemma RouteNextCountdownBounds(route: Route, now: int, day: int)
    requires 0 <= now <= 1439
    requires RouteNextCountdown(route, now, day).Some?
    ensures 0 <= RouteNextCountdown(route, now, day).value <= 1439
  {
    var v :| Soonest(v, route.directions, now) && RouteNextCountdown(route, now, day).value == if v > now then v - now else 0;
    var i :| 0 <= i < |route.directions| && NextMin(route.directions[i], now) == Some(v);
    PickWindowBounds(route.directions[i].lines, now);
  }

  /** A route that does not run today has no countdown, whatever its
      directions hold. */
  lemma InactiveHasNoCountdown(route: Route, now: int, day: int, dirs: seq<Direction>)
    requires !IsRouteActiveToday(route.days, day)
    ensures RouteNextCountdown(route.(directions := dirs), now, day).None?
  {
  }

  /** The route list keeps the routes whose trimmed id is not empty. */
  function VisibleRoutes(routes: seq<Route>): (r: seq<Route>)
    ensures |r| <= |routes|
    ensures forall x :: x in r <==> x in routes && Trim(x.id) != ""
  {
    if routes == [] then []
    else if Trim(routes[0].id) != "" then [routes[0]] + VisibleRoutes(routes[1..])
    else VisibleRoutes(routes[1..])
  }

  /** The filter keeps the original order: it distributes over
      concatenation. */
  lemma {:induction false} VisibleRoutesAppend(a: seq<Route>, b: seq<Route>)
    ensures VisibleRoutes(a + b) == VisibleRoutes(a) + VisibleRoutes(b)
  {
    if a == [] {
      assert a + b == b;
    } else {
      assert (a + b)[1..] == a[1..] + b;
      VisibleRoutesAppend(a[1..], b);
    }
  }

  /** Filtering twice is filtering once. */
  lemma {:induction false} VisibleRoutesIdempotent(routes: seq<Route>)
    ensures VisibleRoutes(VisibleRoutes(routes)) == VisibleRoutes(routes)
  {
    if routes != [] {
      VisibleRoutesIdempotent(routes[1..]);
      if Trim(routes[0].id) != "" {
        assert ([routes[0]] + VisibleRoutes(routes[1..]))[1..] == VisibleRoutes(routes[1..]);
      }
    }
  }
}
