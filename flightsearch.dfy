/**
 * The itinerary composer of `flight_search.py`.
 *
 * The upstream service is given as plain data (`Upstream`): the airport list,
 * the destinations of each airport and, for the searched month, the fares of
 * each city pair. An absent entry stands for an empty reply, which is also
 * what the source returns when a request fails. With these inputs
 * `get_flight_data` is a function and `find_best_routes` a method whose loops
 * follow the source; its result is specified by a multiset of routes, because
 * the source walks a Python set of connecting airports in no fixed order.
 */
module FlightSearch {
  import opened Common
  import opened DateTimes

  type Code = string

  /** A point in time as the exact number of microseconds `DateTimes.Micros`
      assigns to a valid date and time; `DateTimes.MicrosOrder` shows the
      count is one-to-one and keeps the order, so no information is lost. */
  type Instant = int

  /** A fare's `price` field: falsy (null or an empty object), or an object whose `value` may be null. */
  datatype PriceField = NoPrice | PriceObject(value: Option<real>)

  /** One per-day fare as the fares endpoint returns it. */
  datatype FareRecord = FareRecord(departureDate: string, arrivalDate: string,
                                   price: PriceField, unavailable: bool)

  /** A flight between two airports, as `get_flight_data` builds it. */
  datatype Leg = Leg(from: Code, to: Code, departure: Instant, arrival: Instant, price: Option<real>)

  /** A row of the result table. Times are exact microsecond counts. */
  datatype Route = Route(connection: string, first: Leg, second: Option<Leg>,
                         layover: int, duration: int, totalPrice: Option<real>)

  datatype Upstream = Upstream(airports: seq<Code>,
                               destinations: map<Code, seq<Code>>,
                               fares: map<(Code, Code), seq<FareRecord>>)

  datatype Request = Request(startAirport: Code, endAirport: Code, maxLayoverDays: int)

  /** What makes a search raise: a fare date no layout accepts (ValueError),
      a connecting pair whose price is null (TypeError from `None + price`),
      and, in the code as written, sorting an empty table (KeyError). */
  datatype SearchError = BadDate(text: string) | MissingPrice | NoPriceColumn

  const MICROS_PER_HOUR: int := 3600 * MICROS_PER_SECOND

  // ---------------------------------------------------------------------------
  // get_available_destinations and get_flight_data
  // ---------------------------------------------------------------------------

  function Destinations(up: Upstream, a: Code): seq<Code> {
    if a in up.destinations then up.destinations[a] else []
  }

  function Fares(up: Upstream, from: Code, to: Code): seq<FareRecord> {
    if (from, to) in up.fares then up.fares[(from, to)] else []
  }

  /** `f["price"]["value"] if f["price"] else None` */
  function LegPrice(p: PriceField): (r: Option<real>)
    ensures r.Some? <==> p.PriceObject? && p.value.Some?
    ensures p.PriceObject? ==> r == p.value
    ensures p.NoPrice? ==> r.None?
  {
    match p
    case NoPrice => None
    case PriceObject(v) => v
  }

  /** `parse_datetime` on a fare date, raising ValueError with the text. */
  function ParseInstant(text: string): (r: Result<Instant, SearchError>)
    ensures r.Success? <==> FirstMatch(FORMATS, text).Success?
    ensures r.Success? ==> r.value == Micros(FirstMatch(FORMATS, text).value)
    ensures r.Failure? ==> r.error == BadDate(text)
  {
    match FirstMatch(FORMATS, text)
    case Success(dt) => Success(Micros(dt))
    case Failure(_) => Failure(BadDate(text))
  }

  /** Comparing two parsed instants compares the timestamps `parse_datetime`
      returns, as Python compares `datetime` values. */
  lemma InstantOrder(a: string, b: string)
    requires ParseInstant(a).Success? && ParseInstant(b).Success?
    ensures ParseInstant(a).value < ParseInstant(b).value
            <==> Before(FirstMatch(FORMATS, a).value, FirstMatch(FORMATS, b).value)
    ensures ParseInstant(a).value == ParseInstant(b).value
            <==> FirstMatch(FORMATS, a).value == FirstMatch(FORMATS, b).value
  {
    var da := FirstMatch(FORMATS, a).value;
    var db := FirstMatch(FORMATS, b).value;
    var ka :| 0 <= ka < |FORMATS| && Strptime(FORMATS[ka], a) == Some(da);
    var kb :| 0 <= kb < |FORMATS| && Strptime(FORMATS[kb], b) == Some(db);
    MicrosOrder(da, db);
  }

  /** The leg built from one available fare: departure parsed first, then arrival. */
  function LegOf(from: Code, to: Code, f: FareRecord): (r: Result<Leg, SearchError>)
    ensures r.Success? <==> ParseInstant(f.departureDate).Success? && ParseInstant(f.arrivalDate).Success?
    ensures r.Failure? && ParseInstant(f.departureDate).Failure? ==> r.error == BadDate(f.departureDate)
    ensures r.Failure? && ParseInstant(f.departureDate).Success? ==> r.error == BadDate(f.arrivalDate)
    ensures r.Success? ==>
              && r.value.from == from && r.value.to == to
              && r.value.price == LegPrice(f.price)
              && Success(r.value.departure) == ParseInstant(f.departureDate)
              && Success(r.value.arrival) == ParseInstant(f.arrivalDate)
  {
    match ParseInstant(f.departureDate)
    case Failure(e) => Failure(e)
    case Success(dep) =>
      match ParseInstant(f.arrivalDate)
      case Failure(e) => Failure(e)
      case Success(arr) => Success(Leg(from, to, dep, arr, LegPrice(f.price)))
  }

  predicate IsAvailable(f: FareRecord) {
    !f.unavailable
  }

  function LegMaker(from: Code, to: Code): FareRecord -> Result<Leg, SearchError> {
    f => LegOf(from, to, f)
  }

  /** `get_flight_data(from_code, to_code, date)`: no fare is looked up unless
      `to_code` is a destination of `from_code`; then one leg per available
      fare, in order. */
  function GetFlightData(up: Upstream, from: Code, to: Code): (r: Result<seq<Leg>, SearchError>)
    ensures to !in Destinations(up, from) ==> r == Success([])
    ensures r.Failure? ==> r.error.BadDate?
  {
    if to !in Destinations(up, from) then Success([])
    else Comprehension(Fares(up, from, to), IsAvailable, LegMaker(from, to))
  }

  /** `get_flight_data` raises exactly when an available fare has a date no
      layout accepts, with the error of the first such fare; otherwise each leg
      comes, in order, from one available fare. */
  lemma FlightDataSpec(up: Upstream, from: Code, to: Code)
    requires to in Destinations(up, from)
    ensures var r := GetFlightData(up, from, to);
            var fares := Fares(up, from, to);
            && (r.Success? <==> forall i :: 0 <= i < |fares| && !fares[i].unavailable ==> LegOf(from, to, fares[i]).Success?)
            && (r.Failure? ==> exists i :: 0 <= i < |fares| && !fares[i].unavailable
                                           && LegOf(from, to, fares[i]) == Failure(r.error)
                                           && forall j :: 0 <= j < i && !fares[j].unavailable ==> LegOf(from, to, fares[j]).Success?)
            && (r.Success? ==> |r.value| == |Filter(fares, IsAvailable)|
                               && forall i :: 0 <= i < |r.value| ==>
                                    LegOf(from, to, Filter(fares, IsAvailable)[i]) == Success(r.value[i]))
  {
    ComprehensionSpec(Fares(up, from, to), IsAvailable, LegMaker(from, to));
  }

  /** A direct route costs what the available fare it comes from costs: for
      a fare whose price value is 45.0 the route's total price is 45.0. */
  lemma DirectRoutePrice(up: Upstream, req: Request, i: int, p: real)
    requires req.endAirport in Destinations(up, req.startAirport)
    requires GetFlightData(up, req.startAirport, req.endAirport).Success?
    requires var fares := Filter(Fares(up, req.startAirport, req.endAirport), IsAvailable);
             0 <= i < |fares| && fares[i].price == PriceObject(Some(p))
    ensures 0 <= i < |DirectOutcome(up, req).value|
    ensures DirectOutcome(up, req).value[i].totalPrice == Some(p)
  {
    LegsOfFlightData(up, req.startAirport, req.endAirport);
  }

  /** Every leg `get_flight_data` returns runs between the requested airports
      and carries the price of the available fare it comes from. */
  lemma LegsOfFlightData(up: Upstream, from: Code, to: Code)
    requires GetFlightData(up, from, to).Success?
    ensures var legs := GetFlightData(up, from, to).value;
            forall i :: 0 <= i < |legs| ==> legs[i].from == from && legs[i].to == to
    ensures var legs := GetFlightData(up, from, to).value;
            var fares := Filter(Fares(up, from, to), IsAvailable);
            to in Destinations(up, from) ==>
              |legs| == |fares| && forall i :: 0 <= i < |legs| ==> legs[i].price == LegPrice(fares[i].price)
  {
    if to in Destinations(up, from) {
      FlightDataSpec(up, from, to);
      var legs := GetFlightData(up, from, to).value;
      var fares := Filter(Fares(up, from, to), IsAvailable);
      forall i | 0 <= i < |legs| ensures legs[i].from == from && legs[i].to == to && legs[i].price == LegPrice(fares[i].price) {
        assert LegOf(from, to, fares[i]) == Success(legs[i]);
      }
    }
  }

  // ---------------------------------------------------------------------------
  // Routes
  // ---------------------------------------------------------------------------

  function Span(a: Instant, b: Instant): int {
    b - a
  }

  /** A route on one leg. */
  function DirectRoute(leg: Leg): (r: Route)
    ensures r.first == leg && r.second.None? && r.layover == 0 && r.totalPrice == leg.price
  {
    Route(leg.from + "-" + leg.to + " (Direct)", leg, None, 0, Span(leg.departure, leg.arrival), leg.price)
  }

  /** `0 < layover_time <= max_layover_days * 24`, on exact microseconds. */
  predicate InWindow(f1: Leg, f2: Leg, maxLayoverDays: int) {
    0 < Span(f1.arrival, f2.departure) <= maxLayoverDays * 24 * MICROS_PER_HOUR
  }

  predicate Priced(leg: Leg) {
    leg.price.Some?
  }

  /** A route on two legs; its price is the sum of theirs. */
  function ConnectingRoute(f1: Leg, f2: Leg): (r: Route)
    requires Priced(f1) && Priced(f2)
    ensures r.first == f1 && r.second == Some(f2)
    ensures r.totalPrice == Some(f1.price.value + f2.price.value)
  {
    Route(f1.from + "-" + f1.to + " | " + f2.from + "-" + f2.to, f1, Some(f2),
          Span(f1.arrival, f2.departure), Span(f1.departure, f2.arrival),
          Some(f1.price.value + f2.price.value))
  }

  /** A pair inside the layover window that `None + price` makes raise. */
  predicate Unpriced(f1: Leg, f2: Leg, maxLayoverDays: int) {
    InWindow(f1, f2, maxLayoverDays) && !(Priced(f1) && Priced(f2))
  }

  /** `f1` paired with each of `f2s`, in order. */
  function Row(f1: Leg, f2s: seq<Leg>, maxLayoverDays: int): (r: Result<seq<Route>, SearchError>)
    ensures r.Failure? ==> r.error == MissingPrice
    ensures r.Success? ==> |r.value| <= |f2s|
  {
    if f2s == [] then Success([])
    else
      match Row(f1, f2s[..|f2s| - 1], maxLayoverDays)
      case Failure(e) => Failure(e)
      case Success(rs) =>
        var f2 := f2s[|f2s| - 1];
        if !InWindow(f1, f2, maxLayoverDays) then Success(rs)
        else if Priced(f1) && Priced(f2) then Success(rs + [ConnectingRoute(f1, f2)])
        else Failure(MissingPrice)
  }

  /** `route` is the route of `f1` and one of `f2s` inside the window. */
  ghost predicate RowRoute(f1: Leg, f2s: seq<Leg>, maxLayoverDays: int, route: Route) {
    exists j :: 0 <= j < |f2s| && InWindow(f1, f2s[j], maxLayoverDays)
                && Priced(f1) && Priced(f2s[j]) && route == ConnectingRoute(f1, f2s[j])
  }

  /** A row raises exactly when one of its pairs inside the window is
      unpriced; otherwise it holds the routes of the pairs inside the window. */
  lemma {:induction false} RowSpec(f1: Leg, f2s: seq<Leg>, maxLayoverDays: int)
    ensures var r := Row(f1, f2s, maxLayoverDays);
            && (r.Failure? <==> exists j :: 0 <= j < |f2s| && Unpriced(f1, f2s[j], maxLayoverDays))
            && (r.Failure? ==> r.error == MissingPrice)
            && (r.Success? ==> forall x :: x in r.value ==> RowRoute(f1, f2s, maxLayoverDays, x))
            && (r.Success? ==> forall j :: 0 <= j < |f2s| && InWindow(f1, f2s[j], maxLayoverDays) ==>
                  ConnectingRoute(f1, f2s[j]) in r.value)
  {
    if f2s != [] {
      var init := f2s[..|f2s| - 1];
      var last := |f2s| - 1;
      RowSpec(f1, init, maxLayoverDays);
      assert forall j :: 0 <= j < |init| ==> init[j] == f2s[j];
      var r0 := Row(f1, init, maxLayoverDays);
      var r := Row(f1, f2s, maxLayoverDays);
      if r.Success? {
        forall x | x in r.value ensures RowRoute(f1, f2s, maxLayoverDays, x) {
          if x in r0.value {
            assert RowRoute(f1, init, maxLayoverDays, x);
            var j :| 0 <= j < |init| && InWindow(f1, init[j], maxLayoverDays)
                     && Priced(f1) && Priced(init[j]) && x == ConnectingRoute(f1, init[j]);
            assert init[j] == f2s[j];
          } else {
            assert x == ConnectingRoute(f1, f2s[last]);
          }
        }
      }
    }
  }

  /** The cross product `product(first_leg, second_leg)` filtered by the layover window. */
  function Pairs(f1s: seq<Leg>, f2s: seq<Leg>, maxLayoverDays: int): (r: Result<seq<Route>, SearchError>)
    ensures r.Failure? ==> r.error == MissingPrice
  {
    if f1s == [] then Success([])
    else
      match Pairs(f1s[..|f1s| - 1], f2s, maxLayoverDays)
      case Failure(e) => Failure(e)
      case Success(rs) =>
        match Row(f1s[|f1s| - 1], f2s, maxLayoverDays)
        case Failure(e) => Failure(e)
        case Success(row) => Success(rs + row)
  }

  /** `route` is the route of a pair of `f1s` and `f2s` inside the window. */
  ghost predicate PairRoute(f1s: seq<Leg>, f2s: seq<Leg>, maxLayoverDays: int, route: Route) {
    exists i :: 0 <= i < |f1s| && RowRoute(f1s[i], f2s, maxLayoverDays, route)
  }

  /** The product raises exactly when one of its pairs inside the window is
      unpriced; otherwise it holds exactly the routes of the pairs inside the window. */
  lemma {:induction false} PairsSpec(f1s: seq<Leg>, f2s: seq<Leg>, maxLayoverDays: int)
    ensures var r := Pairs(f1s, f2s, maxLayoverDays);
            && (r.Failure? <==> exists i, j :: 0 <= i < |f1s| && 0 <= j < |f2s| && Unpriced(f1s[i], f2s[j], maxLayoverDays))
            && (r.Failure? ==> r.error == MissingPrice)
            && (r.Success? ==> forall x :: x in r.value ==> PairRoute(f1s, f2s, maxLayoverDays, x))
            && (r.Success? ==> forall i, j :: 0 <= i < |f1s| && 0 <= j < |f2s| && InWindow(f1s[i], f2s[j], maxLayoverDays) ==>
                  ConnectingRoute(f1s[i], f2s[j]) in r.value)
  {
    if f1s != [] {
      var init := f1s[..|f1s| - 1];
      var last := |f1s| - 1;
      PairsSpec(init, f2s, maxLayoverDays);
      RowSpec(f1s[last], f2s, maxLayoverDays);
      assert forall i :: 0 <= i < |init| ==> init[i] == f1s[i];
      var r0 := Pairs(init, f2s, maxLayoverDays);
      var row := Row(f1s[last], f2s, maxLayoverDays);
      var r := Pairs(f1s, f2s, maxLayoverDays);
      if r.Failure? {
        if r0.Failure? {
          var i, j :| 0 <= i < |init| && 0 <= j < |f2s| && Unpriced(init[i], f2s[j], maxLayoverDays);
          assert Unpriced(f1s[i], f2s[j], maxLayoverDays);
        } else {
          var j :| 0 <= j < |f2s| && Unpriced(f1s[last], f2s[j], maxLayoverDays);
        }
      } else {
        assert r.value == r0.value + row.value;
        forall x | x in r.value ensures PairRoute(f1s, f2s, maxLayoverDays, x) {
          if x in r0.value {
            assert PairRoute(init, f2s, maxLayoverDays, x);
            var i :| 0 <= i < |init| && RowRoute(init[i], f2s, maxLayoverDays, x);
            assert init[i] == f1s[i];
          } else {
            assert RowRoute(f1s[last], f2s, maxLayoverDays, x);
          }
        }
        forall i, j | 0 <= i < |f1s| && 0 <= j < |f2s| && InWindow(f1s[i], f2s[j], maxLayoverDays)
          ensures ConnectingRoute(f1s[i], f2s[j]) in r.value
        {
          if i < last {
            assert init[i] == f1s[i];
            assert ConnectingRoute(init[i], f2s[j]) in r0.value;
          }
        }
      }
    }
  }

  /** The loop of flight_search.py:150-165 over the pairs of first and second legs. */
  method ConnectPairs(firstLeg: seq<Leg>, secondLeg: seq<Leg>, maxLayoverDays: int)
    returns (r: Result<seq<Route>, SearchError>)
    ensures r == Pairs(firstLeg, secondLeg, maxLayoverDays)
  {
    var routes: seq<Route> := [];
    var i := 0;
    while i < |firstLeg|
      invariant 0 <= i <= |firstLeg|
      invariant Pairs(firstLeg[..i], secondLeg, maxLayoverDays) == Success(routes)
    {
      var f1 := firstLeg[i];
      ghost var before := routes;
      var j := 0;
      while j < |secondLeg|
        invariant 0 <= j <= |secondLeg|
        invariant Pairs(firstLeg[..i], secondLeg, maxLayoverDays) == Success(before)
        invariant Row(f1, secondLeg[..j], maxLayoverDays).Success?
        invariant routes == before + Row(f1, secondLeg[..j], maxLayoverDays).value
      {
        var f2 := secondLeg[j];
        assert secondLeg[..j + 1][..j] == secondLeg[..j];
        if InWindow(f1, f2, maxLayoverDays) {
          if !(Priced(f1) && Priced(f2)) {
            PairsSpec(firstLeg, secondLeg, maxLayoverDays);
            assert Unpriced(firstLeg[i], secondLeg[j], maxLayoverDays);
            return Failure(MissingPrice);
          }
          routes := routes + [ConnectingRoute(f1, f2)];
        }
        j := j + 1;
      }
      assert secondLeg[..j] == secondLeg;
      assert firstLeg[..i + 1][..i] == firstLeg[..i];
      i := i + 1;
    }
    assert firstLeg[..i] == firstLeg;
    r := Success(routes);
  }

  // ---------------------------------------------------------------------------
  // Connecting airports
  // ---------------------------------------------------------------------------

  /** `second_leg_airports`: the airports other than the destination that fly to it, in list order. */
  function SecondLegAirports(up: Upstream, airports: seq<Code>, endAirport: Code): (r: seq<Code>)
    ensures forall a :: a in r <==> a in airports && a != endAirport && endAirport in Destinations(up, a)
  {
    if airports == [] then []
    else
      var init := airports[..|airports| - 1];
      var a := airports[|airports| - 1];
      assert airports == init + [a];
      if a != endAirport && endAirport in Destinations(up, a) then SecondLegAirports(up, init, endAirport) + [a]
      else SecondLegAirports(up, init, endAirport)
  }

  /** The loop of flight_search.py:128-132. */
  method CollectSecondLegAirports(up: Upstream, endAirport: Code) returns (s: seq<Code>)
    ensures s == SecondLegAirports(up, up.airports, endAirport)
  {
    s := [];
    var i := 0;
    while i < |up.airports|
      invariant 0 <= i <= |up.airports|
      invariant s == SecondLegAirports(up, up.airports[..i], endAirport)
    {
      var airport := up.airports[i];
      assert up.airports[..i + 1][..i] == up.airports[..i];
      if airport != endAirport {
        var airportDestinations := Destinations(up, airport);
        if endAirport in airportDestinations {
          s := s + [airport];
        }
      }
      i := i + 1;
    }
    assert up.airports[..i] == up.airports;
  }

  /** `valid_airports = set(first_leg_airports) & set(second_leg_airports)` */
  function ValidAirports(up: Upstream, req: Request): (r: set<Code>)
    ensures forall v :: v in r ==> v in Destinations(up, req.startAirport) && v in up.airports && v != req.endAirport
  {
    (set v | v in Destinations(up, req.startAirport))
    * (set v | v in SecondLegAirports(up, up.airports, req.endAirport))
  }

  /** The airports the connecting pass considers are exactly those reachable
      from the start that are listed airports, not the destination, and fly to it. */
  lemma ValidAirportsExactly(up: Upstream, req: Request, v: Code)
    ensures v in ValidAirports(up, req) <==>
              v in Destinations(up, req.startAirport) && v in up.airports
              && v != req.endAirport && req.endAirport in Destinations(up, v)
  {
  }

  /** What one connecting airport contributes (flight_search.py:139-165). */
  function ConnectorOutcome(up: Upstream, req: Request, v: Code): (r: Result<seq<Route>, SearchError>)
    ensures (v == req.startAirport || v == req.endAirport) ==> r == Success([])
  {
    if v == req.startAirport || v == req.endAirport then Success([])
    else
      match GetFlightData(up, req.startAirport, v)
      case Failure(e) => Failure(e)
      case Success(firstLeg) =>
        if firstLeg == [] then Success([])
        else
          match GetFlightData(up, v, req.endAirport)
          case Failure(e) => Failure(e)
          case Success(secondLeg) =>
            if secondLeg == [] then Success([])
            else Pairs(firstLeg, secondLeg, req.maxLayoverDays)
  }

  /** The body of the connecting loop for one airport, with its `continue` skips. */
  method ConnectVia(up: Upstream, req: Request, v: Code) returns (r: Result<seq<Route>, SearchError>)
    ensures r == ConnectorOutcome(up, req, v)
  {
    if v == req.startAirport || v == req.endAirport {
      return Success([]);
    }
    var firstLeg := GetFlightData(up, req.startAirport, v);
    if firstLeg.Failure? {
      return Failure(firstLeg.error);
    }
    if firstLeg.value == [] {
      return Success([]);
    }
    var secondLeg := GetFlightData(up, v, req.endAirport);
    if secondLeg.Failure? {
      return Failure(secondLeg.error);
    }
    if secondLeg.value == [] {
      return Success([]);
    }
    r := ConnectPairs(firstLeg.value, secondLeg.value, req.maxLayoverDays);
  }

  function Contribution(up: Upstream, req: Request, v: Code): multiset<Route> {
    match ConnectorOutcome(up, req, v)
    case Success(rs) => multiset(rs)
    case Failure(_) => multiset{}
  }

  ghost function Pick(vs: set<Code>): (v: Code)
    requires vs != {}
    ensures v in vs
  {
    var v :| v in vs; v
  }

  /** The routes a set of connecting airports contributes, in no particular order. */
  ghost function ConnectingBag(up: Upstream, req: Request, vs: set<Code>): multiset<Route>
    decreases |vs|
  {
    if vs == {} then multiset{}
    else
      var v := Pick(vs);
      Contribution(up, req, v) + ConnectingBag(up, req, vs - {v})
  }

  /** The bag does not depend on the order in which the airports are visited. */
  lemma {:induction false} BagPick(up: Upstream, req: Request, vs: set<Code>, v: Code)
    requires v in vs
    ensures ConnectingBag(up, req, vs) == Contribution(up, req, v) + ConnectingBag(up, req, vs - {v})
    decreases |vs|
  {
    var w := Pick(vs);
    if w != v {
      BagPick(up, req, vs - {w}, v);
      BagPick(up, req, vs - {v}, w);
      assert vs - {w} - {v} == vs - {v} - {w};
    }
  }

  lemma {:induction false} BagMembers(up: Upstream, req: Request, vs: set<Code>, r: Route)
    ensures r in ConnectingBag(up, req, vs) <==>
              exists v :: v in vs && ConnectorOutcome(up, req, v).Success? && r in ConnectorOutcome(up, req, v).value
    decreases |vs|
  {
    if vs != {} {
      var v := Pick(vs);
      BagMembers(up, req, vs - {v}, r);
    }
  }

  // ---------------------------------------------------------------------------
  // find_best_routes
  // ---------------------------------------------------------------------------

  function DirectRoutes(legs: seq<Leg>): (r: seq<Route>)
    ensures |r| == |legs|
    ensures forall i :: 0 <= i < |legs| ==> r[i] == DirectRoute(legs[i])
  {
    if legs == [] then [] else DirectRoutes(legs[..|legs| - 1]) + [DirectRoute(legs[|legs| - 1])]
  }

  /** The direct pass (flight_search.py:104-118). */
  function DirectOutcome(up: Upstream, req: Request): (r: Result<seq<Route>, SearchError>)
    ensures r.Failure? <==> req.endAirport in Destinations(up, req.startAirport)
                            && GetFlightData(up, req.startAirport, req.endAirport).Failure?
    ensures r.Failure? ==> r.error.BadDate?
    ensures r.Success? ==> forall i :: 0 <= i < |r.value| ==> r.value[i].second.None? && r.value[i].layover == 0
  {
    if req.endAirport in Destinations(up, req.startAirport) then
      match GetFlightData(up, req.startAirport, req.endAirport)
      case Success(legs) => Success(DirectRoutes(legs))
      case Failure(e) => Failure(e)
    else Success([])
  }

  /** Whether `find_best_routes` raises. */
  ghost predicate SearchFails(up: Upstream, req: Request) {
    DirectOutcome(up, req).Failure?
    || exists v :: v in ValidAirports(up, req) && ConnectorOutcome(up, req, v).Failure?
  }

  /** Neither pass of a search that does not raise finds a route. */
  ghost predicate NoRouteFound(up: Upstream, req: Request) {
    && DirectOutcome(up, req).Success?
    && DirectOutcome(up, req).value == []
    && ConnectingBag(up, req, ValidAirports(up, req)) == multiset{}
  }

  /** The passes themselves raise only ValueError (a bad date) and TypeError
      (an unpriced pair), never the KeyError of the sort. */
  lemma NoPriceColumnNotRaised(up: Upstream, req: Request)
    ensures DirectOutcome(up, req) != Failure(NoPriceColumn)
    ensures forall v :: ConnectorOutcome(up, req, v) != Failure(NoPriceColumn)
  {
  }

  /** Price order of the table: ascending, rows without a price (NaN) last. */
  predicate PriceLe(a: Option<real>, b: Option<real>) {
    match a
    case None => b.None?
    case Some(x) => b.None? || x <= b.value
  }

  predicate SortedByPrice(rs: seq<Route>) {
    forall i, j :: 0 <= i < j < |rs| ==> PriceLe(rs[i].totalPrice, rs[j].totalPrice)
  }

  function InsertByPrice(x: Route, s: seq<Route>): (r: seq<Route>)
    requires SortedByPrice(s)
    ensures SortedByPrice(r) && multiset(r) == multiset(s) + multiset{x}
  {
    if s == [] || PriceLe(x.totalPrice, s[0].totalPrice) then
      ConsSorted(x, s);
      [x] + s
    else
      SortedTail(s);
      var t := InsertByPrice(x, s[1..]);
      BoundedBy(s[0], s[1..], x, t);
      ConsSorted(s[0], t);
      assert s == [s[0]] + s[1..];
      [s[0]] + t
  }

  lemma SortedTail(s: seq<Route>)
    requires s != [] && SortedByPrice(s)
    ensures SortedByPrice(s[1..])
    ensures forall y :: y in s[1..] ==> PriceLe(s[0].totalPrice, y.totalPrice)
  {
    forall i, j | 0 <= i < j < |s| - 1
      ensures PriceLe(s[1..][i].totalPrice, s[1..][j].totalPrice)
    {
      assert s[1..][i] == s[i + 1] && s[1..][j] == s[j + 1];
    }
    forall y | y in s[1..] ensures PriceLe(s[0].totalPrice, y.totalPrice) {
      var i :| 0 <= i < |s[1..]| && s[1..][i] == y;
      assert s[i + 1] == y;
    }
  }

  lemma BoundedBy(h: Route, s: seq<Route>, x: Route, t: seq<Route>)
    requires forall y :: y in s ==> PriceLe(h.totalPrice, y.totalPrice)
    requires !PriceLe(x.totalPrice, h.totalPrice)
    requires multiset(t) == multiset(s) + multiset{x}
    ensures forall k :: 0 <= k < |t| ==> PriceLe(h.totalPrice, t[k].totalPrice)
  {
    forall k | 0 <= k < |t| ensures PriceLe(h.totalPrice, t[k].totalPrice) {
      assert t[k] in multiset(t);
    }
  }

  lemma ConsSorted(h: Route, t: seq<Route>)
    requires SortedByPrice(t)
    requires forall k :: 0 <= k < |t| ==> PriceLe(h.totalPrice, t[k].totalPrice)
    ensures SortedByPrice([h] + t)
  {
    var r := [h] + t;
    forall i, j | 0 <= i < j < |r| ensures PriceLe(r[i].totalPrice, r[j].totalPrice) {
      assert r[j] == t[j - 1];
      if i > 0 {
        assert r[i] == t[i - 1];
      }
    }
  }

  /** `sort_values(by="Total Price (€)")`: a sorted permutation. The default
      sort of the table is not stable, so nothing is promised about the order
      of routes of equal price. */
  function SortByPrice(s: seq<Route>): (r: seq<Route>)
    ensures SortedByPrice(r) && multiset(r) == multiset(s)
  {
    if s == [] then [] else
      assert s == [s[0]] + s[1..];
      InsertByPrice(s[0], SortByPrice(s[1..]))
  }

  /** flight_search.py:168 as written: an empty list of routes yields a table
      without the price column, and sorting it by that column raises KeyError. */
  function SortValuesAsWritten(routes: seq<Route>): (r: Result<seq<Route>, SearchError>)
    ensures r.Success? <==> routes != []
    ensures r.Success? ==> SortedByPrice(r.value) && multiset(r.value) == multiset(routes)
  {
    if routes == [] then Failure(NoPriceColumn) else Success(SortByPrice(routes))
  }

  /** A search with no direct route and no connecting airport raises in the
      code as written, where the caller expects an empty table. */
  lemma EmptySearchRaises()
    ensures var up := Upstream([], map[], map[]);
            var req := Request("DUB", "BCN", 3);
            DirectOutcome(up, req) == Success([]) && ValidAirports(up, req) == {}
            && !SearchFails(up, req) && NoRouteFound(up, req)
            && SortValuesAsWritten(DirectOutcome(up, req).value) == Failure(NoPriceColumn)
            && SortByPrice(DirectOutcome(up, req).value) == []
  {
    var up := Upstream([], map[], map[]);
    var req := Request("DUB", "BCN", 3);
    assert Destinations(up, req.startAirport) == [];
  }

  /** A route that `find_best_routes` may return. */
  ghost predicate WellFormed(up: Upstream, req: Request, r: Route) {
    match r.second
    case None =>
      && req.endAirport in Destinations(up, req.startAirport)
      && r.first.from == req.startAirport && r.first.to == req.endAirport
      && r.layover == 0 && r.totalPrice == r.first.price
      && r.connection == req.startAirport + "-" + req.endAirport + " (Direct)"
    case Some(f2) =>
      var v := r.first.to;
      && v in Destinations(up, req.startAirport) && v in up.airports
      && v != req.endAirport && req.endAirport in Destinations(up, v) && v != req.startAirport
      && r.first.from == req.startAirport && f2.from == v && f2.to == req.endAirport
      && InWindow(r.first, f2, req.maxLayoverDays)
      && 0 < r.layover <= req.maxLayoverDays * 24 * MICROS_PER_HOUR
      && Priced(r.first) && Priced(f2)
      && r.totalPrice == Some(r.first.price.value + f2.price.value)
      && r.connection == req.startAirport + "-" + v + " | " + v + "-" + req.endAirport
  }

  lemma DirectRoutesWellFormed(up: Upstream, req: Request)
    requires DirectOutcome(up, req).Success?
    ensures forall r :: r in DirectOutcome(up, req).value ==> WellFormed(up, req, r)
  {
    if req.endAirport in Destinations(up, req.startAirport) {
      LegsOfFlightData(up, req.startAirport, req.endAirport);
      var legs := GetFlightData(up, req.startAirport, req.endAirport).value;
      forall r | r in DirectRoutes(legs) ensures WellFormed(up, req, r) {
        var i :| 0 <= i < |legs| && DirectRoutes(legs)[i] == r;
      }
    }
  }

  lemma ConnectingRouteWellFormed(up: Upstream, req: Request, f1: Leg, f2: Leg)
    requires f1.from == req.startAirport && f1.to == f2.from && f2.to == req.endAirport
    requires f1.to in ValidAirports(up, req) && f1.to != req.startAirport
    requires InWindow(f1, f2, req.maxLayoverDays) && Priced(f1) && Priced(f2)
    ensures WellFormed(up, req, ConnectingRoute(f1, f2))
  {
    ValidAirportsExactly(up, req, f1.to);
  }

  /** A connecting airport contributes routes only when it is neither end of
      the search and both of its legs were fetched; they are then its pairs. */
  lemma ConnectorOutcomeHasPairs(up: Upstream, req: Request, v: Code)
    requires ConnectorOutcome(up, req, v).Success? && ConnectorOutcome(up, req, v).value != []
    ensures v != req.startAirport && v != req.endAirport
    ensures GetFlightData(up, req.startAirport, v).Success? && GetFlightData(up, v, req.endAirport).Success?
    ensures ConnectorOutcome(up, req, v)
            == Pairs(GetFlightData(up, req.startAirport, v).value, GetFlightData(up, v, req.endAirport).value, req.maxLayoverDays)
  {
  }

  lemma PairRouteWellFormed(up: Upstream, req: Request, v: Code, firstLeg: seq<Leg>, secondLeg: seq<Leg>, r: Route)
    requires v in ValidAirports(up, req) && v != req.startAirport
    requires forall i :: 0 <= i < |firstLeg| ==> firstLeg[i].from == req.startAirport && firstLeg[i].to == v
    requires forall j :: 0 <= j < |secondLeg| ==> secondLeg[j].from == v && secondLeg[j].to == req.endAirport
    requires PairRoute(firstLeg, secondLeg, req.maxLayoverDays, r)
    ensures WellFormed(up, req, r)
  {
    var i :| 0 <= i < |firstLeg| && RowRoute(firstLeg[i], secondLeg, req.maxLayoverDays, r);
    var j :| 0 <= j < |secondLeg| && InWindow(firstLeg[i], secondLeg[j], req.maxLayoverDays)
             && Priced(firstLeg[i]) && Priced(secondLeg[j]) && r == ConnectingRoute(firstLeg[i], secondLeg[j]);
    ConnectingRouteWellFormed(up, req, firstLeg[i], secondLeg[j]);
  }

  lemma ConnectorRoutesWellFormed(up: Upstream, req: Request, v: Code)
    requires v in ValidAirports(up, req) && ConnectorOutcome(up, req, v).Success?
    ensures forall r :: r in ConnectorOutcome(up, req, v).value ==> WellFormed(up, req, r)
  {
    var out := ConnectorOutcome(up, req, v).value;
    if out != [] {
      ConnectorOutcomeHasPairs(up, req, v);
      var firstLeg := GetFlightData(up, req.startAirport, v).value;
      var secondLeg := GetFlightData(up, v, req.endAirport).value;
      LegsOfFlightData(up, req.startAirport, v);
      LegsOfFlightData(up, v, req.endAirport);
      PairsSpec(firstLeg, secondLeg, req.maxLayoverDays);
      forall r | r in out ensures WellFormed(up, req, r) {
        PairRouteWellFormed(up, req, v, firstLeg, secondLeg, r);
      }
    }
  }

  /** Every route of the direct pass and of the connecting pass is well formed. */
  lemma SearchRoutesWellFormed(up: Upstream, req: Request, routes: seq<Route>)
    requires DirectOutcome(up, req).Success?
    requires multiset(routes) == multiset(DirectOutcome(up, req).value) + ConnectingBag(up, req, ValidAirports(up, req))
    ensures forall x :: x in routes ==> WellFormed(up, req, x)
  {
    forall x | x in routes ensures WellFormed(up, req, x) {
      assert x in multiset(routes);
      if x in multiset(DirectOutcome(up, req).value) {
        DirectRoutesWellFormed(up, req);
      } else {
        BagMembers(up, req, ValidAirports(up, req), x);
        var v :| v in ValidAirports(up, req) && ConnectorOutcome(up, req, v).Success? && x in ConnectorOutcome(up, req, v).value;
        ConnectorRoutesWellFormed(up, req, v);
      }
    }
  }

  /** The loop of flight_search.py:108-118 over the direct flights. */
  method CollectDirectRoutes(legs: seq<Leg>) returns (routes: seq<Route>)
    ensures routes == DirectRoutes(legs)
  {
    routes := [];
    var i := 0;
    while i < |legs|
      invariant 0 <= i <= |legs|
      invariant routes == DirectRoutes(legs[..i])
    {
      assert legs[..i + 1][..i] == legs[..i];
      routes := routes + [DirectRoute(legs[i])];
      i := i + 1;
    }
    assert legs[..i] == legs;
  }

  /** The loop of flight_search.py:139-165 over the connecting airports, in
      whatever order the set yields them; the first airport that raises stops it. */
  method ConnectAll(up: Upstream, req: Request, airports: set<Code>) returns (r: Result<seq<Route>, SearchError>)
    ensures r.Failure? <==> exists v :: v in airports && ConnectorOutcome(up, req, v).Failure?
    ensures r.Failure? ==> exists v :: v in airports && ConnectorOutcome(up, req, v) == Failure(r.error)
    ensures r.Success? ==> multiset(r.value) == ConnectingBag(up, req, airports)
  {
    var routes: seq<Route> := [];
    var remaining := airports;
    ghost var visited: set<Code> := {};
    while remaining != {}
      invariant remaining <= airports && visited == airports - remaining
      invariant forall v :: v in visited ==> ConnectorOutcome(up, req, v).Success?
      invariant multiset(routes) == ConnectingBag(up, req, visited)
      decreases remaining
    {
      var viaAirport :| viaAirport in remaining;
      var contribution := ConnectVia(up, req, viaAirport);
      if contribution.Failure? {
        return Failure(contribution.error);
      }
      routes := routes + contribution.value;
      remaining := remaining - {viaAirport};
      BagPick(up, req, visited + {viaAirport}, viaAirport);
      assert visited + {viaAirport} - {viaAirport} == visited;
      visited := visited + {viaAirport};
    }
    assert visited == airports;
    r := Success(routes);
  }

  /** Lines 100-165 of `find_best_routes`: the direct pass, then the connecting
      pass, collecting the routes that are sorted afterwards. */
  method CollectRoutes(up: Upstream, req: Request) returns (r: Result<seq<Route>, SearchError>)
    ensures r.Failure? <==> SearchFails(up, req)
    ensures DirectOutcome(up, req).Failure? ==> r == Failure(DirectOutcome(up, req).error)
    ensures r.Failure? && DirectOutcome(up, req).Success? ==>
              exists v :: v in ValidAirports(up, req) && ConnectorOutcome(up, req, v) == Failure(r.error)
    ensures r.Success? ==> multiset(r.value) == multiset(DirectOutcome(up, req).value)
                                                + ConnectingBag(up, req, ValidAirports(up, req))
    ensures r.Success? ==> forall x :: x in r.value ==> WellFormed(up, req, x)
  {
    var routes: seq<Route> := [];
    var directDestinations := Destinations(up, req.startAirport);
    if req.endAirport in directDestinations {
      var directFlights := GetFlightData(up, req.startAirport, req.endAirport);
      if directFlights.Failure? {
        return Failure(directFlights.error);
      }
      routes := CollectDirectRoutes(directFlights.value);
    }
    assert DirectOutcome(up, req) == Success(routes);

    var firstLegAirports := Destinations(up, req.startAirport);
    var secondLegAirports := CollectSecondLegAirports(up, req.endAirport);
    var validAirports := (set v | v in firstLegAirports) * (set v | v in secondLegAirports);
    assert validAirports == ValidAirports(up, req);

    var connecting := ConnectAll(up, req, validAirports);
    if connecting.Failure? {
      return Failure(connecting.error);
    }
    routes := routes + connecting.value;
    SearchRoutesWellFormed(up, req, routes);
    r := Success(routes);
  }

  /** `find_best_routes(start_airport, end_airport, date, max_layover_days)` on
      the fares of the month `date` names, as written: when neither pass finds
      a route, the sort on line 168 raises KeyError. */
  method FindBestRoutes(up: Upstream, req: Request) returns (r: Result<seq<Route>, SearchError>)
    ensures r.Failure? <==> SearchFails(up, req) || NoRouteFound(up, req)
    ensures r == Failure(NoPriceColumn) <==> !SearchFails(up, req) && NoRouteFound(up, req)
    ensures DirectOutcome(up, req).Failure? ==> r == Failure(DirectOutcome(up, req).error)
    ensures r.Failure? && r != Failure(NoPriceColumn) && DirectOutcome(up, req).Success? ==>
              exists v :: v in ValidAirports(up, req) && ConnectorOutcome(up, req, v) == Failure(r.error)
    ensures r.Success? ==> SortedByPrice(r.value)
    ensures r.Success? ==> multiset(r.value) == multiset(DirectOutcome(up, req).value)
                                                + ConnectingBag(up, req, ValidAirports(up, req))
    ensures r.Success? ==> forall x :: x in r.value ==> WellFormed(up, req, x)
  {
    var routes := CollectRoutes(up, req);
    if routes.Failure? {
      assert routes.error != NoPriceColumn by { NoPriceColumnNotRaised(up, req); }
      return Failure(routes.error);
    }
    assert routes.value == [] <==> multiset(routes.value) == multiset{};
    r := SortValuesAsWritten(routes.value);
    assert r.Success? ==> forall x :: x in r.value ==> x in multiset(routes.value);
  }

  /** `find_best_routes` as intended: an empty result is an empty table,
      which the caller tests with `df_routes.empty`. */
  method FindBestRoutesIntended(up: Upstream, req: Request) returns (r: Result<seq<Route>, SearchError>)
    ensures r.Failure? <==> SearchFails(up, req)
    ensures DirectOutcome(up, req).Failure? ==> r == Failure(DirectOutcome(up, req).error)
    ensures r.Failure? && DirectOutcome(up, req).Success? ==>
              exists v :: v in ValidAirports(up, req) && ConnectorOutcome(up, req, v) == Failure(r.error)
    ensures r.Success? ==> SortedByPrice(r.value)
    ensures r.Success? ==> multiset(r.value) == multiset(DirectOutcome(up, req).value)
                                                + ConnectingBag(up, req, ValidAirports(up, req))
    ensures r.Success? ==> forall x :: x in r.value ==> WellFormed(up, req, x)
    ensures r.Success? ==> (r.value == [] <==> NoRouteFound(up, req))
  {
    var routes := CollectRoutes(up, req);
    if routes.Failure? {
      return Failure(routes.error);
    }
    r := Success(SortByPrice(routes.value));
    assert forall x :: x in r.value ==> x in multiset(routes.value);
  }

  // ---------------------------------------------------------------------------
  // Properties of the search
  // ---------------------------------------------------------------------------

  /** Without a direct route there is no direct itinerary. */
  lemma NoDirectWithoutRoute(up: Upstream, req: Request, r: Route)
    requires req.endAirport !in Destinations(up, req.startAirport)
    requires WellFormed(up, req, r)
    ensures r.second.Some?
  {
  }

  /** Every pair of legs inside the layover window of a connecting airport
      whose two leg lists were fetched is priced and is in the result. */
  lemma SearchIsComplete(up: Upstream, req: Request, v: Code, i: int, j: int)
    requires !SearchFails(up, req)
    requires v in ValidAirports(up, req) && v != req.startAirport
    requires GetFlightData(up, req.startAirport, v).Success? && GetFlightData(up, v, req.endAirport).Success?
    requires var firstLeg := GetFlightData(up, req.startAirport, v).value;
             var secondLeg := GetFlightData(up, v, req.endAirport).value;
             0 <= i < |firstLeg| && 0 <= j < |secondLeg| && InWindow(firstLeg[i], secondLeg[j], req.maxLayoverDays)
    ensures var firstLeg := GetFlightData(up, req.startAirport, v).value;
            var secondLeg := GetFlightData(up, v, req.endAirport).value;
            Priced(firstLeg[i]) && Priced(secondLeg[j]) &&
            ConnectingRoute(firstLeg[i], secondLeg[j]) in ConnectingBag(up, req, ValidAirports(up, req))
  {
    var firstLeg := GetFlightData(up, req.startAirport, v).value;
    var secondLeg := GetFlightData(up, v, req.endAirport).value;
    assert v != req.endAirport;
    assert ConnectorOutcome(up, req, v) == Pairs(firstLeg, secondLeg, req.maxLayoverDays);
    PairsSpec(firstLeg, secondLeg, req.maxLayoverDays);
    assert ConnectorOutcome(up, req, v).Success?;
    BagMembers(up, req, ValidAirports(up, req), ConnectingRoute(firstLeg[i], secondLeg[j]));
  }
}
