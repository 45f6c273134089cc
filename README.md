# trainline-cli core, modelled in Dafny

This project models the data-processing core of `trainline.js`, the client library of a command-line tool for the Trainline ticketing API. The core is the code that turns the API's JSON responses into what the tool displays and pays for:

- `arrToObj` turns an array of records into an object keyed by `id`.
- `getPnrs` joins each trip row of the reservations response with its stations, passenger, folder and PNR (reservation record). It writes the results into the trip objects in place.
- `tripsWithBookingStatus` filters the joined trips by booking status. `trips` and `basket` are its two uses, with `emitted` and `booked`.
- `searchTrips` handles the search response:
  - It drops fare candidates whose folder is not `nonflexi`.
  - It groups the rest by itinerary digest, in first-seen order.
  - It builds each itinerary, with its segments, from the first candidate of its digest.
  - It records one fare per travel class.
- `payForPnrs` builds the body of the create-payment request for a list of basket trips.

Modules:

- `Entities`: the response records and `Option`. `None` plays JavaScript's `undefined`.
- `IdMap`: `arrToObj`. The method's loop is proved against the function `ToMap`.
- `Reservations`: the join, modelled as an in-place update of an `array<Trip>`, the status filter, and the two callers of the filter.
- `Search`: the aggregation.
  - `SearchTrips` has the source's loop. It keeps the source's digest-to-itinerary object and its list of itineraries.
  - The loop is proved equal to the fold `Aggregate`.
  - `Aggregate` is then characterised by independent definitions: `Kept` (the filter), `FirstSeen` (the distinct digests in first-seen order), `FirstWith` (the first candidate of a digest) and `ClassesOf` (the fares of a digest, by class, last write wins).
- `Payment`: the payment body, as a function returning `Option`.

How lookups are treated:

- A lookup the source simply reads is modelled as `Option`. These are the stations and passenger of a reservation trip: a missing key stores `undefined`.
- A lookup the source dereferences further is a precondition. A missing key there throws a `TypeError` in JavaScript. These are folders, PNRs and segments, and the stations of the first kept candidate of each digest.
- The search precondition `Resolvable` is exact. Only the first kept candidate of a digest has its stations and segments read.

Facts about `trainline.js` that the model keeps:

- A dangling station or passenger id in a reservation is not an error. The joined field is `undefined` (trainline.js:59-61).
- `getPnrs` builds four id objects: stations, passengers, folders and PNRs (trainline.js:53-56).
- A joined trip keeps all the fields of the response's row and gains seven more (trainline.js:59-65).
- The flexibility is the constant `nonflexi` (trainline.js:137).

## Model

| member | source | states |
|---|---|---|
| IdMap.ToMap | trainline.js:39-45 | Every element's id is a key of the object, and the record stored under a key has that key as its id. |
| IdMap.ArrToObj | trainline.js:39-45 | The object built by the loop is `ToMap(arr)`. Its keys are exactly the ids occurring in `arr`. |
| IdMap.ToMapKeys | trainline.js:39-45 | The key set of the object is exactly the set of ids of the array's elements. |
| IdMap.ToMapLastWins | trainline.js:41-43 | An element that no later element shares its id with is present, and is the value stored under its id. |
| IdMap.ToMapEntry | trainline.js:41-43 | Every stored value is an array element with that id, and no later element has that id. So the last element with an id wins. |
| Reservations.JoinTrip | trainline.js:59-65 | A joined row differs from the response row only in the seven joined fields. `arrival_station`, `departure_station` and `passenger` are the lookups by the row's ids, `undefined` when missing. `pnr_id` is the folder's `pnr_id`. `reference`, `booking_status` and `is_selected` are the owning PNR's `code`, `booking_status` and `is_selected`. |
| Reservations.JoinedPnrIsLastMatch | trainline.js:55-65 | The PNR fields a joined trip carries come from the last folder in the response with the trip's folder id, and from the last PNR with that folder's `pnr_id`. |
| Reservations.JoinRow | trainline.js:58-66 | The callback's seven in-place writes leave row `i` equal to `JoinTrip` of its old value. No other row changes. |
| Reservations.BuildTables | trainline.js:53-56 | The four objects are `arrToObj` of the stations, passengers, folders and PNRs of the response, each keyed by its own id. |
| Reservations.JoinAll | trainline.js:58-66 | After the `forEach`, every row of the array is the join of its old value. Every row's folder and PNR must exist (the precondition), because JavaScript throws otherwise. |
| Reservations.GetPnrs | trainline.js:51-69 | After the loop, every row of the trips array is the join of its old value. The array keeps its length and order. A folder or PNR that cannot be found is excluded by the precondition. |
| Reservations.WithBookingStatus | trainline.js:79-81 | The filter returns at most as many trips as it is given. Every trip it returns has the status. |
| Reservations.WithBookingStatusAppend | trainline.js:79-81 | Filtering a concatenation is the concatenation of the filtered parts. |
| Reservations.WithBookingStatusCount | trainline.js:79-81 | A trip with the status occurs in the result as often as in the input. A trip without it does not occur. |
| Reservations.MatchingPositionsExact | trainline.js:79-81 | The matching positions are in range and strictly increasing. They are exactly the positions whose status equals the one asked for. |
| Reservations.WithBookingStatusIsSubsequence | trainline.js:79-83 | The result is the subsequence of the input at the matching positions, so relative order is kept. An empty result is just the empty sequence. |
| Reservations.PartitionCount | trainline.js:77-116 | When trips carry only `emitted` or `booked`, each trip's count in the ticketed list plus its count in the basket is its count among all trips. |
| Reservations.EmittedAndBookedPartition | trainline.js:106-116 | When trips carry only `emitted` or `booked`, the ticketed trips and the basket together are, as a multiset, exactly all the trips. |
| Reservations.TripsWithBookingStatus | trainline.js:77-85 | The rows are joined in place, and the result is the filter of the joined rows by the status. |
| Reservations.EmittedTrips | trainline.js:106-108 | `trips` joins the rows and returns those with status `emitted`. |
| Reservations.Basket | trainline.js:114-116 | `basket` joins the rows and returns those with status `booked`. |
| Search.Kept | trainline.js:157-161 | The kept candidates are at most the given ones. Every kept candidate's folder exists and is `nonflexi`. |
| Search.KeptMembers | trainline.js:157-161 | A candidate is kept if and only if it is among the given ones and its folder exists and is `nonflexi`. |
| Search.KeptCount | trainline.js:157-161 | A candidate that passes the filter occurs among the kept ones as often as among the given ones. One that fails it does not occur. |
| Search.KeptAppend | trainline.js:157-161 | Filtering a concatenation is the concatenation of the filtered parts, so the filter keeps order. |
| Search.FirstSeen | trainline.js:163-186 | A digest is listed exactly when it occurs in the input. No digest is listed twice. |
| Search.Aggregate | trainline.js:154-199 | The aggregation has one itinerary per digest. Its digests are exactly the distinct digests of the kept candidates, without repetition, in first-seen order. |
| Search.AggregateItineraries | trainline.js:163-196 | The k-th itinerary is built from the first kept candidate with the k-th digest: station names, dates and resolved segments. Its `travel_classes` are the fares of the kept candidates with that digest, the last write winning. |
| Search.FirstSeenOrder | trainline.js:155-186 | Itineraries appear in the order in which their digests first occur among the kept candidates. |
| Search.ClassesOfKeys | trainline.js:189 | The travel classes of an itinerary are exactly the travel classes of the folders of the kept candidates with its digest. |
| Search.ClassesOfLast | trainline.js:189-196 | The fare under a class holds the `cents`, `currency`, search id and folder id of the last kept candidate of the digest with that class. |
| Search.RejectedHaveNoEffect | trainline.js:157-161 | Aggregating only the kept candidates gives exactly the same result as aggregating all of them. |
| Search.TwoClassesOneItinerary | trainline.js:163-196 | Two kept candidates with one digest and different classes give one itinerary, built from the first, with exactly two fares. |
| Search.SegmentList | trainline.js:174-183 | The segment views are as many as the segment ids and in their order. Each carries the names of its segment's stations and its train name. |
| Search.Step | trainline.js:156-197 | One candidate's step keeps one itinerary per digest. A rejected candidate changes nothing. |
| Search.StepEffect | trainline.js:163-196 | A step adds at most one digest, at the end, and leaves the itineraries of other digests alone. For a kept candidate, its digest is present afterwards and its itinerary holds the candidate's fare under the candidate's class. |
| Search.AddCandidate | trainline.js:156-197 | One run of the callback performs one `Step` of the aggregation. It keeps the digest object pointing at each digest's itinerary. |
| Search.SearchTrips | trainline.js:148-199 | The returned list is the itinerary list of `Aggregate` over the response's candidates. |
| Payment.PayForPnrs | trainline.js:250-268 | The empty list gives no request. Otherwise `cents` is the total of the trips' cents and `currency` is the first trip's. The mean is `payment_card`, the card id and CVV are as given, and `pnr_ids` are the trips' `pnr_id`s in input order. |
| Payment.TotalCents | trainline.js:255 | The total of a single trip is its cents. The algebra of the sum is stated in `TotalCentsSnoc`, `TotalCentsAppend`, `TotalCentsRemove` and `TotalCentsPermutation`. |
| Payment.TotalCentsSnoc | trainline.js:255 | Adding a trip at the end adds its cents, one step of the `reduce`. |
| Payment.TotalCentsNonNegative | trainline.js:255 | With no negative prices, the total is not negative. |
| Payment.TotalCentsAtLeastEach | trainline.js:255 | With no negative prices, the total is at least each trip's cents. |
| Payment.TotalCentsRemove | trainline.js:255 | Taking one trip out of a list takes its cents off the total. |
| Payment.TotalCentsAppend | trainline.js:255 | The total of a concatenation is the sum of the totals. |
| Payment.TotalCentsPermutation | trainline.js:255 | The total does not depend on the order of the trips. |

## Left out

- The `apiRequest` transport, the request library, URI building and the `Authorization` header (trainline.js:18-31): network I/O. Each response is a parameter of the operation that processes it.
- The `TOKEN` / `USER_ID` session object (trainline.js:6-9): it only feeds requests.
- `connexion`, `searchStation`, `bookTrip`, `selectPnr` and `paymentCards` (trainline.js:93-100, 123-125, 209-216, 224-232, 238-240): request wrappers with no logic of their own.
- The request body of `searchTrips` (trainline.js:137-147): the only part that matters to the model is the flexibility constant.
- The create-then-confirm promise chain of `payForPnrs` (trainline.js:270-274): remote-call sequencing. `PayForPnrs` stops at the body of the first request.
- `index.js`: command-line parsing, prompts and console output.
- JavaScript's loose `==` (trainline.js:80, 159) is modelled as string equality.
- JavaScript object keys are modelled as map keys. Inherited properties such as a digest or id of `constructor`, `__proto__` or `toString` take another path in JavaScript, and the model does not capture it.
- `travel_classes` is a JavaScript object, whose keys keep their first-insertion order. `map<string, Fare>` has no order, so the model does not capture the order in which the classes of an itinerary are listed.
- Payment.TotalCents: cents are unbounded integers. The source adds IEEE doubles, which are exact only up to 2^53.
- The JavaScript dictionary `trips` and the list `atrips` hold the same itinerary objects. The model stores an index into the list in the dictionary, so that one update reaches both.
- The join's in-place writes are modelled on an array of `Trip` values. Several rows sharing one JavaScript object is not modelled; rows parsed from JSON never share one.
- `searchTrips` builds the `passengers` object (trainline.js:150) but never reads it. `SearchTrips` builds it too, and it has no effect.
