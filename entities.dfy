/** Records of the ticketing API's responses, as the client reads them. */
module Entities {

  /** Identifiers are opaque to the client; it only uses them as object keys. */
  type Id = string

  /** A looked-up value that may be missing (JavaScript's `undefined`). */
  datatype Option<T> = None | Some(value: T)

  datatype Station = Station(id: Id, name: string)

  datatype Passenger = Passenger(id: Id, firstName: string, lastName: string, cardIds: seq<Id>)

  /** A fare-class leg; in the reservations response it belongs to the PNR `pnrId`. */
  datatype Folder = Folder(id: Id, pnrId: Id, flexibility: string, travelClass: string)

  /** A reservation record; `code` is the reference shown to the user. */
  datatype Pnr = Pnr(id: Id, code: string, bookingStatus: string, isSelected: bool)

  /**
   * A trip row of the reservations response. The first nine fields come from
   * the response; the last seven are the ones the join writes (None while the
   * row has not been joined, or when the join stored `undefined`).
   */
  datatype Trip = Trip(
    id: Id,
    folderId: Id,
    departureStationId: Id,
    arrivalStationId: Id,
    passengerId: Id,
    departureDate: string,
    arrivalDate: string,
    cents: int,
    currency: string,
    departureStation: Option<Station>,
    arrivalStation: Option<Station>,
    passenger: Option<Passenger>,
    reference: Option<string>,
    bookingStatus: Option<string>,
    pnrId: Option<Id>,
    isSelected: Option<bool>)

  function StationId(s: Station): Id { s.id }
  function PassengerId(p: Passenger): Id { p.id }
  function FolderId(f: Folder): Id { f.id }
  function PnrId(p: Pnr): Id { p.id }
}
