/** `getPnrs` and `tripsWithBookingStatus`: joining trip rows with their reference data and selecting by status. */
module Reservations {
  import opened Entities
  import opened IdMap

  const EMITTED: string := "emitted"
  const BOOKED: string := "booked"

  /** The `GET pnrs` response: four reference collections and the trip rows the join fills in. */
  datatype PnrsResponse = PnrsResponse(
    stations: seq<Station>,
    passengers: seq<Passenger>,
    folders: seq<Folder>,
    pnrs: seq<Pnr>,
    trips: array<Trip>)

  /** The four id -> record objects the join looks ids up in. */
  datatype Tables = Tables(
    stations: map<Id, Station>,
    passengers: map<Id, Passenger>,
    folders: map<Id, Folder>,
    pnrs: map<Id, Pnr>)

  function TablesOf(infos: PnrsResponse): Tables
  {
    Tables(ToMap(infos.stations, StationId), ToMap(infos.passengers, PassengerId),
           ToMap(infos.folders, FolderId), ToMap(infos.pnrs, PnrId))
  }

  /** Reading a key of an object: a missing key gives `undefined`. */
  function Lookup<T>(m: map<Id, T>, k: Id): Option<T>
  {
    if k in m then Some(m[k]) else None
  }

  /**
   * The trip's folder exists and names a PNR that exists. The join reads
   * `.pnr_id` of the folder and `.code` of the PNR, which throws on `undefined`.
   */
  predicate Resolves(tables: Tables, t: Trip)
  {
    t.folderId in tables.folders && tables.folders[t.folderId].pnrId in tables.pnrs
  }

  /** The PNR that owns the trip's folder. */
  function OwnerPnr(tables: Tables, t: Trip): Pnr
    requires Resolves(tables, t)
  {
    tables.pnrs[tables.folders[t.folderId].pnrId]
  }

  /** The row as the response delivered it: the fields the join writes cleared. */
  function Row(t: Trip): Trip
  {
    t.(departureStation := None, arrivalStation := None, passenger := None,
       reference := None, bookingStatus := None, pnrId := None, isSelected := None)
  }

  /** What the join does to one trip row. */
  function JoinTrip(tables: Tables, t: Trip): (r: Trip)
    requires Resolves(tables, t)
    ensures Row(r) == Row(t)
    ensures r.arrivalStation == Lookup(tables.stations, t.arrivalStationId)
    ensures r.departureStation == Lookup(tables.stations, t.departureStationId)
    ensures r.passenger == Lookup(tables.passengers, t.passengerId)
    ensures r.pnrId == Some(tables.folders[t.folderId].pnrId)
    ensures r.reference == Some(OwnerPnr(tables, t).code)
    ensures r.bookingStatus == Some(OwnerPnr(tables, t).bookingStatus)
    ensures r.isSelected == Some(OwnerPnr(tables, t).isSelected)
  {
    var folder := tables.folders[t.folderId];
    var pnr := tables.pnrs[folder.pnrId];
    t.(arrivalStation := Lookup(tables.stations, t.arrivalStationId),
       departureStation := Lookup(tables.stations, t.departureStationId),
       passenger := Lookup(tables.passengers, t.passengerId),
       reference := Some(pnr.code),
       bookingStatus := Some(pnr.bookingStatus),
       pnrId := Some(folder.pnrId),
       isSelected := Some(pnr.isSelected))
  }

  /**
   * The PNR fields a joined trip carries are those of the last PNR in the
   * response whose id is the PNR id of the last folder with the trip's folder id.
   */
  lemma JoinedPnrIsLastMatch(infos: PnrsResponse, t: Trip)
    requires Resolves(TablesOf(infos), t)
    ensures exists i, j ::
      LastWithId(infos.folders, FolderId, i, t.folderId) &&
      LastWithId(infos.pnrs, PnrId, j, infos.folders[i].pnrId) &&
      JoinTrip(TablesOf(infos), t).pnrId == Some(infos.folders[i].pnrId) &&
      JoinTrip(TablesOf(infos), t).reference == Some(infos.pnrs[j].code) &&
      JoinTrip(TablesOf(infos), t).bookingStatus == Some(infos.pnrs[j].bookingStatus) &&
      JoinTrip(TablesOf(infos), t).isSelected == Some(infos.pnrs[j].isSelected)
  {
    var tables := TablesOf(infos);
    ToMapEntry(infos.folders, FolderId, t.folderId);
    var i :| LastWithId(infos.folders, FolderId, i, t.folderId) && infos.folders[i] == tables.folders[t.folderId];
    var p := infos.folders[i].pnrId;
    ToMapEntry(infos.pnrs, PnrId, p);
    var j :| LastWithId(infos.pnrs, PnrId, j, p) && infos.pnrs[j] == tables.pnrs[p];
    var r := JoinTrip(tables, t);
    assert r.pnrId == Some(p) && r.reference == Some(infos.pnrs[j].code);
  }

  /** The rows of `getPnrs`'s response can all be joined without an exception. */
  predicate AllResolve(tables: Tables, trips: seq<Trip>)
  {
    forall i :: 0 <= i < |trips| ==> Resolves(tables, trips[i])
  }

  /** The `forEach` callback of `getPnrs`: writes the seven joined fields of row `i`, one after the other. */
  method JoinRow(tables: Tables, trips: array<Trip>, i: nat)
    requires i < trips.Length && Resolves(tables, trips[i])
    modifies trips
    ensures trips[i] == JoinTrip(tables, old(trips[i]))
    ensures forall k :: 0 <= k < trips.Length && k != i ==> trips[k] == old(trips[k])
  {
    var folder := tables.folders[trips[i].folderId];
    var pnr := tables.pnrs[folder.pnrId];
    trips[i] := trips[i].(arrivalStation := Lookup(tables.stations, trips[i].arrivalStationId));
    trips[i] := trips[i].(departureStation := Lookup(tables.stations, trips[i].departureStationId));
    trips[i] := trips[i].(passenger := Lookup(tables.passengers, trips[i].passengerId));
    trips[i] := trips[i].(reference := Some(pnr.code));
    trips[i] := trips[i].(bookingStatus := Some(pnr.bookingStatus));
    trips[i] := trips[i].(pnrId := Some(folder.pnrId));
    trips[i] := trips[i].(isSelected := Some(pnr.isSelected));
  }

  /** The four `arrToObj` calls at the start of `getPnrs`. */
  method BuildTables(infos: PnrsResponse) returns (tables: Tables)
    ensures tables == TablesOf(infos)
  {
    var stations := ArrToObj(infos.stations, StationId);
    var passengers := ArrToObj(infos.passengers, PassengerId);
    var folders := ArrToObj(infos.folders, FolderId);
    var pnrs := ArrToObj(infos.pnrs, PnrId);
    tables := Tables(stations, passengers, folders, pnrs);
  }

  /** The `forEach` of `getPnrs`: joins every row of `trips` in place. */
  method JoinAll(tables: Tables, trips: array<Trip>)
    requires AllResolve(tables, trips[..])
    modifies trips
    ensures forall i :: 0 <= i < trips.Length ==> trips[i] == JoinTrip(tables, old(trips[i]))
  {
    ghost var rows := trips[..];
    var i := 0;
    while i < trips.Length
      invariant 0 <= i <= trips.Length
      invariant forall k :: 0 <= k < i ==> trips[k] == JoinTrip(tables, rows[k])
      invariant forall k :: i <= k < trips.Length ==> trips[k] == rows[k]
    {
      assert Resolves(tables, rows[i]);
      JoinRow(tables, trips, i);
      i := i + 1;
    }
  }

  /** `getPnrs`: builds the four id objects, then fills in every trip row in place. */
  method GetPnrs(infos: PnrsResponse)
    requires AllResolve(TablesOf(infos), infos.trips[..])
    modifies infos.trips
    ensures forall i :: 0 <= i < infos.trips.Length ==>
      infos.trips[i] == JoinTrip(TablesOf(infos), old(infos.trips[i]))
  {
    var tables := BuildTables(infos);
    JoinAll(tables, infos.trips);
  }

  /** The filter of `tripsWithBookingStatus`: the trips whose status is `status`, in their order. */
  function WithBookingStatus(trips: seq<Trip>, status: string): (r: seq<Trip>)
    ensures |r| <= |trips|
    ensures forall k :: 0 <= k < |r| ==> r[k].bookingStatus == Some(status)
  {
    if trips == [] then []
    else
      (if trips[0].bookingStatus == Some(status) then [trips[0]] else []) +
      WithBookingStatus(trips[1..], status)
  }

  /** Filtering a concatenation filters each part: the filter keeps relative order. */
  lemma {:induction false} WithBookingStatusAppend(a: seq<Trip>, b: seq<Trip>, status: string)
    ensures WithBookingStatus(a + b, status) == WithBookingStatus(a, status) + WithBookingStatus(b, status)
  {
    if a != [] {
      assert (a + b)[1..] == a[1..] + b;
      WithBookingStatusAppend(a[1..], b, status);
    } else {
      assert a + b == b;
    }
  }

  /** Every trip with the status is kept as often as it occurs, and no other trip is. */
  lemma {:induction false} WithBookingStatusCount(trips: seq<Trip>, status: string, t: Trip)
    ensures multiset(WithBookingStatus(trips, status))[t] ==
            (if t.bookingStatus == Some(status) then multiset(trips)[t] else 0)
  {
    if trips != [] {
      var x, rest := trips[0], trips[1..];
      assert trips == [x] + rest;
      WithBookingStatusCount(rest, status, t);
      var head := if x.bookingStatus == Some(status) then [x] else [];
      assert WithBookingStatus(trips, status) == head + WithBookingStatus(rest, status);
      assert multiset(WithBookingStatus(trips, status)) == multiset(head) + multiset(WithBookingStatus(rest, status));
      assert multiset(trips) == multiset{x} + multiset(rest);
    }
  }

  /** The positions of the trips with the status, in increasing order. */
  function MatchingPositions(trips: seq<Trip>, status: string): seq<nat>
  {
    if trips == [] then []
    else
      MatchingPositions(trips[..|trips| - 1], status) +
      (if trips[|trips| - 1].bookingStatus == Some(status) then [|trips| - 1] else [])
  }

  /** The matching positions are increasing, in range, and are exactly the positions whose status matches. */
  lemma {:induction false} MatchingPositionsExact(trips: seq<Trip>, status: string)
    ensures forall k :: 0 <= k < |MatchingPositions(trips, status)| ==> MatchingPositions(trips, status)[k] < |trips|
    ensures forall k, l :: 0 <= k < l < |MatchingPositions(trips, status)| ==>
              MatchingPositions(trips, status)[k] < MatchingPositions(trips, status)[l]
    ensures forall i :: 0 <= i < |trips| ==>
              (i in MatchingPositions(trips, status) <==> trips[i].bookingStatus == Some(status))
  {
    if trips != [] {
      var n := |trips| - 1;
      var p := trips[..n];
      MatchingPositionsExact(p, status);
      var pp := MatchingPositions(p, status);
      assert forall i :: 0 <= i < n ==> trips[i] == p[i];
      assert n !in pp;
    }
  }

  /**
   * The filter returns the subsequence of `trips` at the matching positions,
   * so it keeps exactly the trips with the status, in their relative order.
   */
  lemma {:induction false} WithBookingStatusIsSubsequence(trips: seq<Trip>, status: string)
    ensures |MatchingPositions(trips, status)| == |WithBookingStatus(trips, status)|
    ensures forall k :: 0 <= k < |MatchingPositions(trips, status)| ==>
              MatchingPositions(trips, status)[k] < |trips| &&
              WithBookingStatus(trips, status)[k] == trips[MatchingPositions(trips, status)[k]]
  {
    MatchingPositionsExact(trips, status);
    if trips != [] {
      var n := |trips| - 1;
      var p := trips[..n];
      WithBookingStatusIsSubsequence(p, status);
      MatchingPositionsExact(p, status);
      assert trips == p + [trips[n]];
      WithBookingStatusAppend(p, [trips[n]], status);
      assert [trips[n]][1..] == [];
    }
  }

  /** Trips that all carry one of the two statuses. */
  predicate OnlyEmittedOrBooked(trips: seq<Trip>)
  {
    forall k :: 0 <= k < |trips| ==>
      trips[k].bookingStatus == Some(EMITTED) || trips[k].bookingStatus == Some(BOOKED)
  }

  /** Each trip occurs in the ticketed trips and the basket together as often as in all trips. */
  lemma PartitionCount(trips: seq<Trip>, t: Trip)
    requires OnlyEmittedOrBooked(trips)
    ensures multiset(WithBookingStatus(trips, EMITTED))[t] + multiset(WithBookingStatus(trips, BOOKED))[t] ==
            multiset(trips)[t]
  {
    WithBookingStatusCount(trips, EMITTED, t);
    WithBookingStatusCount(trips, BOOKED, t);
    if t.bookingStatus != Some(EMITTED) && t.bookingStatus != Some(BOOKED) {
      assert t !in trips;
    }
  }

  /** With only the two statuses present, the ticketed trips and the basket split the trips between them. */
  lemma EmittedAndBookedPartition(trips: seq<Trip>)
    requires OnlyEmittedOrBooked(trips)
    ensures multiset(WithBookingStatus(trips, EMITTED)) + multiset(WithBookingStatus(trips, BOOKED)) == multiset(trips)
  {
    var emitted, booked := multiset(WithBookingStatus(trips, EMITTED)), multiset(WithBookingStatus(trips, BOOKED));
    forall t ensures (emitted + booked)[t] == multiset(trips)[t] {
      PartitionCount(trips, t);
    }
    assert emitted + booked == multiset(trips);
  }

  /** `tripsWithBookingStatus`: joins the response, then filters its trips by status. */
  method TripsWithBookingStatus(infos: PnrsResponse, status: string) returns (trips: seq<Trip>)
    requires AllResolve(TablesOf(infos), infos.trips[..])
    modifies infos.trips
    ensures forall i :: 0 <= i < infos.trips.Length ==>
      infos.trips[i] == JoinTrip(TablesOf(infos), old(infos.trips[i]))
    ensures trips == WithBookingStatus(infos.trips[..], status)
  {
    GetPnrs(infos);
    trips := WithBookingStatus(infos.trips[..], status);
  }

  /** `trainline.trips`: the user's ticketed trips. */
  method EmittedTrips(infos: PnrsResponse) returns (trips: seq<Trip>)
    requires AllResolve(TablesOf(infos), infos.trips[..])
    modifies infos.trips
    ensures forall i :: 0 <= i < infos.trips.Length ==>
      infos.trips[i] == JoinTrip(TablesOf(infos), old(infos.trips[i]))
    ensures trips == WithBookingStatus(infos.trips[..], EMITTED)
  {
    trips := TripsWithBookingStatus(infos, EMITTED);
  }

  /** `trainline.basket`: the user's booked, not yet ticketed, trips. */
  method Basket(infos: PnrsResponse) returns (trips: seq<Trip>)
    requires AllResolve(TablesOf(infos), infos.trips[..])
    modifies infos.trips
    ensures forall i :: 0 <= i < infos.trips.Length ==>
      infos.trips[i] == JoinTrip(TablesOf(infos), old(infos.trips[i]))
    ensures trips == WithBookingStatus(infos.trips[..], BOOKED)
  {
    trips := TripsWithBookingStatus(infos, BOOKED);
  }
}
