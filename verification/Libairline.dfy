/** The agency's only caller of BookingFlights: it groups the flights of a booking by airline. */
module Libairline {
  import opened Options
  import opened Transactions
  import T = TranLayer
  import Strings

  type AirlineId = string

  /** The airline of a flight is what stands before the first '-' of its id. */
  function GetAirlineFromFlightId(f: FlightId): AirlineId {
    Strings.Split(f, "-")[0]
  }

  function GetNewFlightId(airline: AirlineId, uniqueid: string): FlightId {
    airline + "-" + uniqueid
  }

  /** The flights of one airline, in order. */
  function FlightsOf(flights: seq<FlightId>, airline: FlightId -> AirlineId, a: AirlineId): seq<FlightId>
    decreases |flights|
  {
    if flights == [] then []
    else
      var last := flights[|flights| - 1];
      FlightsOf(flights[..|flights| - 1], airline, a) + if airline(last) == a then [last] else []
  }

  function Airlines(flights: seq<FlightId>, airline: FlightId -> AirlineId): set<AirlineId> {
    set k | 0 <= k < |flights| :: airline(flights[k])
  }

  /** One more flight in the flight list of an order. */
  function AddFlight(flightIds: string, f: FlightId): string {
    if flightIds == "" then f else flightIds + ":" + f
  }

  function Joined(fs: seq<FlightId>): string
    decreases |fs|
  {
    if fs == [] then "" else AddFlight(Joined(fs[..|fs| - 1]), fs[|fs| - 1])
  }

  /** Different airlines are reached at different addresses. */
  ghost predicate AddressesDiffer(address: AirlineId -> Ppt) {
    forall a, b :: address(a) == address(b) ==> a == b
  }

  ghost predicate NoRepeats(order: seq<AirlineId>) {
    forall j, k :: 0 <= j < k < |order| ==> order[j] != order[k]
  }

  /** MakeBooking up to the call of BookingFlights, which looks the address of each airline up. */
  method MakeBooking(flightids: seq<FlightId>, isRemove: bool, airline: FlightId -> AirlineId,
                     address: AirlineId -> Ppt)
    returns (orders: seq<Order>, ghost order: seq<AirlineId>)
    ensures |orders| == |order| && NoRepeats(order)
    ensures forall a :: a in order <==> a in Airlines(flightids, airline)
    ensures forall k :: 0 <= k < |orders| ==>
                          orders[k] == Order(Joined(FlightsOf(flightids, airline, order[k])), address(order[k]),
                                             if isRemove then -1 else 1)
    ensures AddressesDiffer(address) ==> DistinctParticipants(orders)
  {
    var orderQuantity := 1;
    if isRemove {
      orderQuantity := -1;
    }
    var orderGrpMap := Group(flightids, airline);
    orders, order := MakeOrders(orderGrpMap, orderQuantity, address);
    if AddressesDiffer(address) {
      OneOrderPerAirline(order, orders, address);
    }
  }

  /** The loop over the groups, in any order. */
  method MakeOrders(orderGrpMap: map<AirlineId, seq<FlightId>>, orderQuantity: int, address: AirlineId -> Ppt)
    returns (orders: seq<Order>, ghost order: seq<AirlineId>)
    ensures |orders| == |order| && NoRepeats(order)
    ensures forall a :: a in order <==> a in orderGrpMap
    ensures forall k :: 0 <= k < |orders| ==>
                          orders[k] == Order(Joined(orderGrpMap[order[k]]), address(order[k]), orderQuantity)
  {
    orders, order := [], [];
    var rest := orderGrpMap.Keys;
    while rest != {}
      invariant rest <= orderGrpMap.Keys
      invariant |orders| == |order| && NoRepeats(order)
      invariant forall a :: a in order <==> a in orderGrpMap && a !in rest
      invariant forall k :: 0 <= k < |orders| ==>
                              orders[k] == Order(Joined(orderGrpMap[order[k]]), address(order[k]), orderQuantity)
      decreases |rest|
    {
      var airlineId := Any(rest);
      var flightIds := Join(orderGrpMap[airlineId]);
      rest := rest - {airlineId};
      orders := orders + [Order(flightIds, address(airlineId), orderQuantity)];
      order := order + [airlineId];
    }
  }

  /** Filed so far: each airline with its flights. */
  ghost predicate Filed(groups: map<AirlineId, seq<FlightId>>, flights: seq<FlightId>, airline: FlightId -> AirlineId) {
    && groups.Keys == Airlines(flights, airline)
    && forall a :: a in groups ==> groups[a] == FlightsOf(flights, airline, a)
  }

  lemma NoFlights(flights: seq<FlightId>, airline: FlightId -> AirlineId, a: AirlineId)
    ensures a in Airlines(flights, airline) <==> FlightsOf(flights, airline, a) != []
    decreases |flights|
  {
    if flights != [] {
      var n := |flights| - 1;
      NoFlights(flights[..n], airline, a);
      assert flights[..n] + [flights[n]] == flights;
    }
  }

  lemma FileOne(groups: map<AirlineId, seq<FlightId>>, flights: seq<FlightId>, f: FlightId,
                airline: FlightId -> AirlineId)
    requires Filed(groups, flights, airline)
    ensures var a := airline(f);
            Filed(groups[a := (if a in groups then groups[a] else []) + [f]], flights + [f], airline)
  {
    var a := airline(f);
    var more := groups[a := (if a in groups then groups[a] else []) + [f]];
    forall b | b in more
      ensures more[b] == FlightsOf(flights + [f], airline, b)
    {
      NoFlights(flights, airline, b);
    }
  }

  /** The loop that files each flight under its airline. */
  method Group(flightids: seq<FlightId>, airline: FlightId -> AirlineId)
    returns (orderGrpMap: map<AirlineId, seq<FlightId>>)
    ensures Filed(orderGrpMap, flightids, airline)
  {
    orderGrpMap := map[];
    for i := 0 to |flightids|
      invariant Filed(orderGrpMap, flightids[..i], airline)
    {
      var v := flightids[i];
      FileOne(orderGrpMap, flightids[..i], v, airline);
      assert flightids[..i] + [v] == flightids[..i + 1];
      var airlineId := airline(v);
      var orderList := if airlineId in orderGrpMap then orderGrpMap[airlineId] else [];
      orderList := orderList + [v];
      orderGrpMap := orderGrpMap[airlineId := orderList];
    }
    assert flightids[..|flightids|] == flightids;
  }

  /** The loop that writes the flights of one order into one string. */
  method Join(fs: seq<FlightId>) returns (flightIds: string)
    ensures flightIds == Joined(fs)
  {
    flightIds := "";
    var orderList := fs;
    ghost var n := 0;
    while orderList != []
      invariant n <= |fs| && orderList == fs[n..] && flightIds == Joined(fs[..n])
      decreases |orderList|
    {
      var flightId := orderList[0];
      orderList := orderList[1..];
      assert fs[..n + 1][..n] == fs[..n];
      if flightIds == "" {
        flightIds := flightId;
      } else {
        flightIds := flightIds + ":" + flightId;
      }
      n := n + 1;
    }
    assert fs[..n] == fs;
  }

  /** A new flight is found at the airline it was created for exactly if the airline's name contains
      no '-'. */
  lemma NewFlightFoundIff(airline: AirlineId, uniqueid: string)
    ensures GetAirlineFromFlightId(GetNewFlightId(airline, uniqueid)) == airline <==> '-' !in airline
  {
    if '-' !in airline {
      Strings.SplitFirst(airline, "-", uniqueid);
    } else {
      Strings.PiecesAvoidSeparator(GetNewFlightId(airline, uniqueid), '-');
    }
  }

  /** The orders of MakeBooking go to different airline servers, whatever the flights. */
  lemma OneOrderPerAirline(order: seq<AirlineId>, orders: seq<Order>, address: AirlineId -> Ppt)
    requires AddressesDiffer(address) && |orders| == |order| && NoRepeats(order)
    requires forall k :: 0 <= k < |orders| ==> orders[k].ppt == address(order[k])
    ensures DistinctParticipants(orders) && |T.NewActive(orders).commitGrp| == |orders|
  {
    forall j, k | 0 <= j < k < |orders|
      ensures orders[j].ppt != orders[k].ppt
    {
      assert order[j] != order[k];
    }
    T.TallyMatchesOrders(orders);
  }

  /** The flights of an airline stay in the order in which they were asked for. */
  lemma {:induction false} FlightsInOrder(a: seq<FlightId>, b: seq<FlightId>, airline: FlightId -> AirlineId,
                                          id: AirlineId)
    ensures FlightsOf(a + b, airline, id) == FlightsOf(a, airline, id) + FlightsOf(b, airline, id)
    decreases |b|
  {
    if b == [] {
      assert a + b == a;
    } else {
      var n := |b| - 1;
      assert (a + b)[..|a + b| - 1] == a + b[..n];
      FlightsInOrder(a, b[..n], airline, id);
    }
  }

  /** Each flight is ordered as often as it was asked for, from its own airline only. */
  lemma {:induction false} EachFlightOrdered(flights: seq<FlightId>, airline: FlightId -> AirlineId, a: AirlineId,
                                             f: FlightId)
    ensures multiset(FlightsOf(flights, airline, a))[f] == if airline(f) == a then multiset(flights)[f] else 0
    decreases |flights|
  {
    if flights != [] {
      var n := |flights| - 1;
      assert flights == flights[..n] + [flights[n]];
      EachFlightOrdered(flights[..n], airline, a, f);
    }
  }

  /** No flight id contains the separator, and the first one is not empty unless it is the only one. */
  predicate Joinable(fs: seq<FlightId>) {
    && (forall k :: 0 <= k < |fs| ==> ':' !in fs[k])
    && (fs != [] ==> fs[0] != "" || |fs| == 1)
  }

  lemma OneField(f: FlightId)
    requires ':' !in f
    ensures Joined([f]) == f && Strings.Split(f, ":") == [f]
  {
    Strings.SplitSingle(f, ':');
    assert [f][..0] == [];
  }

  /** The last flight adds one field to what is there. */
  lemma LastField(rest: seq<FlightId>, f: FlightId)
    requires ':' !in f
    ensures Joined(rest) == "" ==> Joined(rest + [f]) == f
    ensures Joined(rest) != "" ==> Joined(rest + [f]) != ""
    ensures Joined(rest) != "" ==> Strings.Split(Joined(rest + [f]), ":") == Strings.Split(Joined(rest), ":") + [f]
  {
    OneField(f);
    assert (rest + [f])[..|rest|] == rest;
    Strings.SplitConcat(Joined(rest), ':', f);
  }

  lemma {:induction false} JoinedSplits(fs: seq<FlightId>)
    requires fs != [] && Joinable(fs)
    ensures Strings.Split(Joined(fs), ":") == fs
    ensures fs[0] != "" ==> Joined(fs) != ""
    decreases |fs|
  {
    var n := |fs| - 1;
    assert fs == fs[..n] + [fs[n]];
    if n == 0 {
      OneField(fs[0]);
    } else {
      JoinedSplits(fs[..n]);
      LastField(fs[..n], fs[n]);
    }
  }

  /** An empty flight id at the front is lost. */
  lemma {:induction false} FewerFields(fs: seq<FlightId>)
    requires |fs| > 1 && fs[0] == "" && forall k :: 0 <= k < |fs| ==> ':' !in fs[k]
    ensures |Strings.Split(Joined(fs), ":")| < |fs|
    decreases |fs|
  {
    var n := |fs| - 1;
    assert fs == fs[..n] + [fs[n]];
    OneField(fs[n]);
    LastField(fs[..n], fs[n]);
    if n == 1 {
      OneField("");
      assert fs[..1] == [""];
    } else {
      FewerFields(fs[..n]);
    }
  }

  /** An airline finds exactly its flights in the order, under a condition on the flight ids alone. */
  lemma FlightsArriveIff(fs: seq<FlightId>)
    requires fs != []
    ensures Strings.Split(Joined(fs), ":") == fs <==> Joinable(fs)
  {
    if Joinable(fs) {
      JoinedSplits(fs);
    } else if forall k :: 0 <= k < |fs| ==> ':' !in fs[k] {
      FewerFields(fs);
    } else {
      Strings.PiecesAvoidSeparator(Joined(fs), ':');
    }
  }

  /** A booking that names no flight at all reaches BookingFlights without orders. */
  lemma NoFlightsNoOrders(flights: seq<FlightId>, airline: FlightId -> AirlineId, order: seq<AirlineId>)
    requires forall a :: a in order <==> a in Airlines(flights, airline)
    ensures order == [] <==> flights == []
  {
    assert flights != [] ==> airline(flights[0]) in Airlines(flights, airline);
    assert order != [] ==> order[0] in Airlines(flights, airline);
  }
}
