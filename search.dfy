/**
 * The result processing of `searchTrips`: fare candidates of a search are
 * filtered by flexibility, grouped by itinerary digest and turned into
 * itineraries with their segments and one fare per travel class.
 */
module Search {
  import opened Entities
  import opened IdMap

  /** Only candidates whose folder has this flexibility are kept. */
  const FLEXIBILITY: string := "nonflexi"

  /** One vehicle leg of a search result. */
  datatype Segment = Segment(
    id: Id,
    departureStationId: Id,
    arrivalStationId: Id,
    departureDate: string,
    arrivalDate: string,
    trainName: string)

  /** A fare candidate; candidates that differ only in fare class share `digest`. */
  datatype Candidate = Candidate(
    digest: string,
    folderId: Id,
    segmentIds: seq<Id>,
    cents: int,
    currency: string,
    departureDate: string,
    arrivalDate: string,
    departureStationId: Id,
    arrivalStationId: Id)

  /** The `POST search` response. */
  datatype SearchResult = SearchResult(
    searchId: Id,
    stations: seq<Station>,
    passengers: seq<Passenger>,
    folders: seq<Folder>,
    segments: seq<Segment>,
    trips: seq<Candidate>)

  datatype SegmentView = SegmentView(
    departureStation: string,
    arrivalStation: string,
    departureDate: string,
    arrivalDate: string,
    trainName: string)

  /** What is needed later to book a fare. */
  datatype Booking = Booking(searchId: Id, folderId: Id)

  datatype Fare = Fare(cents: int, currency: string, tobook: Booking)

  /** One output itinerary; `travelClasses` maps a travel class to its fare. */
  datatype Itinerary = Itinerary(
    departureStation: string,
    arrivalStation: string,
    departureDate: string,
    arrivalDate: string,
    segments: seq<SegmentView>,
    travelClasses: map<string, Fare>)

  function SegmentId(s: Segment): Id { s.id }

  /** The search id and the id -> record objects the aggregation looks ids up in. */
  datatype Tables = Tables(
    searchId: Id,
    stations: map<Id, Station>,
    folders: map<Id, Folder>,
    segments: map<Id, Segment>)

  function TablesOf(result: SearchResult): Tables
  {
    Tables(result.searchId, ToMap(result.stations, StationId), ToMap(result.folders, FolderId),
           ToMap(result.segments, SegmentId))
  }

  // ---------------------------------------------------------------------------
  // Pieces of one candidate

  /** The candidate's folder exists and has the wanted flexibility. */
  predicate Keeps(tables: Tables, c: Candidate)
  {
    c.folderId in tables.folders && tables.folders[c.folderId].flexibility == FLEXIBILITY
  }

  /** Every segment id names a segment whose two stations exist. */
  predicate SegmentsResolve(tables: Tables, ids: seq<Id>)
  {
    forall i :: 0 <= i < |ids| ==>
      ids[i] in tables.segments &&
      tables.segments[ids[i]].departureStationId in tables.stations &&
      tables.segments[ids[i]].arrivalStationId in tables.stations
  }

  /** Everything an itinerary is built from when its first candidate is seen exists. */
  predicate ItineraryResolves(tables: Tables, c: Candidate)
  {
    c.departureStationId in tables.stations && c.arrivalStationId in tables.stations &&
    SegmentsResolve(tables, c.segmentIds)
  }

  function View(tables: Tables, s: Segment): SegmentView
    requires s.departureStationId in tables.stations && s.arrivalStationId in tables.stations
  {
    SegmentView(tables.stations[s.departureStationId].name, tables.stations[s.arrivalStationId].name,
                s.departureDate, s.arrivalDate, s.trainName)
  }

  /** The segment list of an itinerary: one view per segment id, in order. */
  function SegmentViews(tables: Tables, ids: seq<Id>): (r: seq<SegmentView>)
    requires SegmentsResolve(tables, ids)
  {
    seq(|ids|, i requires 0 <= i < |ids| => View(tables, tables.segments[ids[i]]))
  }

  /** A fresh itinerary for the first candidate of its digest, with no fare yet. */
  function NewItinerary(tables: Tables, c: Candidate): Itinerary
    requires ItineraryResolves(tables, c)
  {
    Itinerary(tables.stations[c.departureStationId].name, tables.stations[c.arrivalStationId].name,
              c.departureDate, c.arrivalDate, SegmentViews(tables, c.segmentIds), map[])
  }

  function ClassOf(tables: Tables, c: Candidate): string
    requires c.folderId in tables.folders
  {
    tables.folders[c.folderId].travelClass
  }

  function FareOf(tables: Tables, c: Candidate): Fare
    requires c.folderId in tables.folders
  {
    Fare(c.cents, c.currency, Booking(tables.searchId, tables.folders[c.folderId].id))
  }

  /** Writes the candidate's fare under its travel class. */
  function AddFare(tables: Tables, t: Itinerary, c: Candidate): Itinerary
    requires c.folderId in tables.folders
  {
    t.(travelClasses := t.travelClasses[ClassOf(tables, c) := FareOf(tables, c)])
  }

  // ---------------------------------------------------------------------------
  // Sequences of candidates

  /** The kept candidates, in order. */
  function Kept(tables: Tables, cs: seq<Candidate>): (r: seq<Candidate>)
    ensures |r| <= |cs|
    ensures forall i :: 0 <= i < |r| ==> Keeps(tables, r[i])
  {
    if cs == [] then []
    else Kept(tables, cs[..|cs| - 1]) + (if Keeps(tables, cs[|cs| - 1]) then [cs[|cs| - 1]] else [])
  }

  function Digests(cs: seq<Candidate>): seq<string>
  {
    seq(|cs|, i requires 0 <= i < |cs| => cs[i].digest)
  }

  predicate NoDuplicates<T(==)>(s: seq<T>)
  {
    forall i, j :: 0 <= i < j < |s| ==> s[i] != s[j]
  }

  /** The distinct elements of `s`, each at the place of its first occurrence. */
  function FirstSeen(s: seq<string>): (r: seq<string>)
    ensures forall x :: x in r <==> x in s
    ensures NoDuplicates(r)
  {
    if s == [] then []
    else
      var p := FirstSeen(s[..|s| - 1]);
      if s[|s| - 1] in s[..|s| - 1] then p else p + [s[|s| - 1]]
  }

  /** The position of the first occurrence of `x`. */
  function FirstIndex<T(==)>(s: seq<T>, x: T): (r: nat)
    requires x in s
    ensures r < |s| && s[r] == x
    ensures forall j :: 0 <= j < r ==> s[j] != x
  {
    if s[0] == x then 0 else 1 + FirstIndex(s[1..], x)
  }

  /** The first candidate with digest `d`. */
  function FirstWith(cs: seq<Candidate>, d: string): Candidate
    requires d in Digests(cs)
  {
    cs[FirstIndex(Digests(cs), d)]
  }

  /** Every candidate's folder exists (the aggregation reads its flexibility). */
  predicate FoldersResolve(tables: Tables, cs: seq<Candidate>)
  {
    forall i :: 0 <= i < |cs| ==> cs[i].folderId in tables.folders
  }

  /** The fares of the candidates with digest `d`, by travel class; a later candidate overwrites an earlier one. */
  function ClassesOf(tables: Tables, cs: seq<Candidate>, d: string): map<string, Fare>
    requires FoldersResolve(tables, cs)
  {
    if cs == [] then map[]
    else
      var m := ClassesOf(tables, cs[..|cs| - 1], d);
      var c := cs[|cs| - 1];
      if c.digest == d then m[ClassOf(tables, c) := FareOf(tables, c)] else m
  }

  /**
   * The lookups the aggregation makes succeed: every candidate's folder
   * exists, and the first kept candidate of each digest has its stations and
   * segments. Other lookups on `undefined` throw.
   */
  predicate Resolvable(tables: Tables, cs: seq<Candidate>)
  {
    cs == [] ||
    (var p, c := cs[..|cs| - 1], cs[|cs| - 1];
     Resolvable(tables, p) && c.folderId in tables.folders &&
     (Keeps(tables, c) && c.digest !in Digests(Kept(tables, p)) ==> ItineraryResolves(tables, c)))
  }

  // ---------------------------------------------------------------------------
  // The aggregation, one candidate at a time

  /** The digests seen so far and their itineraries, at the same positions. */
  datatype Acc = Acc(digests: seq<string>, itineraries: seq<Itinerary>)

  /** What one candidate does to the aggregation. */
  function Step(tables: Tables, a: Acc, c: Candidate): (b: Acc)
    requires |a.digests| == |a.itineraries|
    requires c.folderId in tables.folders
    requires Keeps(tables, c) && c.digest !in a.digests ==> ItineraryResolves(tables, c)
    ensures |b.digests| == |b.itineraries|
    ensures !Keeps(tables, c) ==> b == a
  {
    if !Keeps(tables, c) then a
    else if c.digest in a.digests then
      var j := FirstIndex(a.digests, c.digest);
      Acc(a.digests, a.itineraries[j := AddFare(tables, a.itineraries[j], c)])
    else
      Acc(a.digests + [c.digest], a.itineraries + [AddFare(tables, NewItinerary(tables, c), c)])
  }

  /**
   * One step adds at most the candidate's digest at the end, leaves the
   * itineraries of other digests alone, and then holds the candidate's fare
   * under its travel class in its digest's itinerary.
   */
  lemma StepEffect(tables: Tables, a: Acc, c: Candidate)
    requires |a.digests| == |a.itineraries|
    requires c.folderId in tables.folders
    requires Keeps(tables, c) && c.digest !in a.digests ==> ItineraryResolves(tables, c)
    ensures var b := Step(tables, a, c);
      |a.digests| <= |b.digests| <= |a.digests| + 1 && b.digests[..|a.digests|] == a.digests &&
      (forall k :: 0 <= k < |a.itineraries| && a.digests[k] != c.digest ==> b.itineraries[k] == a.itineraries[k])
    ensures Keeps(tables, c) ==>
      var b := Step(tables, a, c);
      c.digest in b.digests &&
      ClassOf(tables, c) in b.itineraries[FirstIndex(b.digests, c.digest)].travelClasses &&
      b.itineraries[FirstIndex(b.digests, c.digest)].travelClasses[ClassOf(tables, c)] == FareOf(tables, c)
  {
    if Keeps(tables, c) && c.digest !in a.digests {
      FirstIndexSnocNew(a.digests, c.digest);
    }
  }

  /** The aggregation of all candidates: one itinerary per distinct kept digest, in first-seen order. */
  function Aggregate(tables: Tables, cs: seq<Candidate>): (a: Acc)
    requires Resolvable(tables, cs)
    ensures |a.digests| == |a.itineraries|
    ensures a.digests == FirstSeen(Digests(Kept(tables, cs)))
  {
    if cs == [] then Acc([], [])
    else
      var p, c := cs[..|cs| - 1], cs[|cs| - 1];
      var a := Aggregate(tables, p);
      KeptDigestsLast(tables, cs);
      Step(tables, a, c)
  }

  lemma DigestsSnoc(cs: seq<Candidate>, c: Candidate)
    ensures Digests(cs + [c]) == Digests(cs) + [c.digest]
  {
  }

  /** How the first-seen kept digests grow by one candidate. */
  lemma KeptDigestsSnoc(tables: Tables, cs: seq<Candidate>, c: Candidate)
    ensures FirstSeen(Digests(Kept(tables, cs + [c]))) ==
      if !Keeps(tables, c) || c.digest in Digests(Kept(tables, cs)) then FirstSeen(Digests(Kept(tables, cs)))
      else FirstSeen(Digests(Kept(tables, cs))) + [c.digest]
  {
    assert (cs + [c])[..|cs|] == cs;
    if Keeps(tables, c) {
      assert Kept(tables, cs + [c]) == Kept(tables, cs) + [c];
      DigestsSnoc(Kept(tables, cs), c);
      FirstSeenSnoc(Digests(Kept(tables, cs)), c.digest);
    } else {
      assert Kept(tables, cs + [c]) == Kept(tables, cs);
    }
  }

  /** `KeptDigestsSnoc` for the last candidate of a non-empty sequence. */
  lemma KeptDigestsLast(tables: Tables, cs: seq<Candidate>)
    requires cs != []
    ensures var p, c := cs[..|cs| - 1], cs[|cs| - 1];
      FirstSeen(Digests(Kept(tables, cs))) ==
        if !Keeps(tables, c) || c.digest in Digests(Kept(tables, p)) then FirstSeen(Digests(Kept(tables, p)))
        else FirstSeen(Digests(Kept(tables, p))) + [c.digest]
  {
    var p, c := cs[..|cs| - 1], cs[|cs| - 1];
    assert cs == p + [c];
    KeptDigestsSnoc(tables, p, c);
  }

  lemma FirstSeenSnoc(s: seq<string>, x: string)
    ensures FirstSeen(s + [x]) == if x in s then FirstSeen(s) else FirstSeen(s) + [x]
  {
    assert (s + [x])[..|s|] == s;
  }

  lemma KeptSnoc(tables: Tables, cs: seq<Candidate>, c: Candidate)
    ensures Kept(tables, cs + [c]) == Kept(tables, cs) + (if Keeps(tables, c) then [c] else [])
  {
    assert (cs + [c])[..|cs|] == cs;
  }

  lemma FirstIndexSnoc<T>(s: seq<T>, y: T, x: T)
    requires x in s
    ensures FirstIndex(s + [y], x) == FirstIndex(s, x)
  {
    var r := FirstIndex(s, x);
    assert (s + [y])[r] == x;
  }

  lemma FirstIndexSnocNew<T>(s: seq<T>, x: T)
    requires x !in s
    ensures FirstIndex(s + [x], x) == |s|
  {
    assert (s + [x])[|s|] == x;
  }

  lemma FirstWithSnoc(cs: seq<Candidate>, c: Candidate, d: string)
    requires d in Digests(cs)
    ensures d in Digests(cs + [c]) && FirstWith(cs + [c], d) == FirstWith(cs, d)
  {
    DigestsSnoc(cs, c);
    FirstIndexSnoc(Digests(cs), c.digest, d);
  }

  lemma FirstWithSnocNew(cs: seq<Candidate>, c: Candidate)
    requires c.digest !in Digests(cs)
    ensures c.digest in Digests(cs + [c]) && FirstWith(cs + [c], c.digest) == c
  {
    DigestsSnoc(cs, c);
    FirstIndexSnocNew(Digests(cs), c.digest);
  }

  lemma ClassesOfSnoc(tables: Tables, cs: seq<Candidate>, c: Candidate, d: string)
    requires FoldersResolve(tables, cs + [c])
    ensures FoldersResolve(tables, cs) && c.folderId in tables.folders
    ensures ClassesOf(tables, cs + [c], d) ==
      if c.digest == d then ClassesOf(tables, cs, d)[ClassOf(tables, c) := FareOf(tables, c)]
      else ClassesOf(tables, cs, d)
  {
    assert forall i :: 0 <= i < |cs| ==> cs[i] == (cs + [c])[i];
    assert (cs + [c])[|cs|] == c;
    assert (cs + [c])[..|cs|] == cs;
  }

  /** A digest no candidate has gets no fares. */
  lemma {:induction false} ClassesOfAbsent(tables: Tables, cs: seq<Candidate>, d: string)
    requires FoldersResolve(tables, cs)
    requires d !in Digests(cs)
    ensures ClassesOf(tables, cs, d) == map[]
  {
    if cs != [] {
      var p, c := cs[..|cs| - 1], cs[|cs| - 1];
      assert cs == p + [c];
      DigestsSnoc(p, c);
      ClassesOfSnoc(tables, p, c, d);
      ClassesOfAbsent(tables, p, d);
    }
  }

  /** Resolvability of a sequence of candidates holds of each of its prefixes. */
  lemma {:induction false} ResolvablePrefix(tables: Tables, cs: seq<Candidate>, n: nat)
    requires Resolvable(tables, cs)
    requires n <= |cs|
    ensures Resolvable(tables, cs[..n])
  {
    if n < |cs| {
      var p := cs[..|cs| - 1];
      assert p[..n] == cs[..n];
      ResolvablePrefix(tables, p, n);
    } else {
      assert cs[..n] == cs;
    }
  }

  // ---------------------------------------------------------------------------
  // What the aggregation computes

  /** The itinerary the aggregation builds for digest `d`, given the kept candidates `ks`. */
  predicate IsItineraryFor(tables: Tables, ks: seq<Candidate>, d: string, t: Itinerary)
    requires FoldersResolve(tables, ks)
  {
    d in Digests(ks) &&
    ItineraryResolves(tables, FirstWith(ks, d)) &&
    t == NewItinerary(tables, FirstWith(ks, d)).(travelClasses := ClassesOf(tables, ks, d))
  }

  /** Aggregating one more candidate is one more step. */
  lemma AggregateSnoc(tables: Tables, cs: seq<Candidate>, c: Candidate)
    requires Resolvable(tables, cs + [c])
    ensures Resolvable(tables, cs) && c.folderId in tables.folders
    ensures Keeps(tables, c) && c.digest !in Aggregate(tables, cs).digests ==> ItineraryResolves(tables, c)
    ensures Keeps(tables, c) ==> (c.digest in Aggregate(tables, cs).digests <==> c.digest in Digests(Kept(tables, cs)))
    ensures Aggregate(tables, cs + [c]) == Step(tables, Aggregate(tables, cs), c)
  {
    assert (cs + [c])[..|cs|] == cs;
  }

  /** Aggregating the prefix of length `i + 1` is one more step after the prefix of length `i`. */
  lemma AggregatePrefixStep(tables: Tables, cs: seq<Candidate>, i: nat)
    requires Resolvable(tables, cs) && i < |cs|
    ensures Resolvable(tables, cs[..i]) && Resolvable(tables, cs[..i + 1]) && cs[i].folderId in tables.folders
    ensures Keeps(tables, cs[i]) && cs[i].digest !in Aggregate(tables, cs[..i]).digests ==>
              ItineraryResolves(tables, cs[i])
    ensures Aggregate(tables, cs[..i + 1]) == Step(tables, Aggregate(tables, cs[..i]), cs[i])
  {
    var p, q, c := cs[..i], cs[..i + 1], cs[i];
    ResolvablePrefix(tables, cs, i + 1);
    assert q == p + [c];
    AggregateSnoc(tables, p, c);
  }

  /** Every itinerary of `a` is the one built for its digest from the kept candidates `ks`. */
  predicate Characterised(tables: Tables, ks: seq<Candidate>, a: Acc)
  {
    FoldersResolve(tables, ks) && |a.digests| == |a.itineraries| &&
    forall k :: 0 <= k < |a.itineraries| ==> IsItineraryFor(tables, ks, a.digests[k], a.itineraries[k])
  }

  /** A kept candidate of a digest already seen adds its fare to that digest's itinerary only. */
  lemma StepSeenDigest(tables: Tables, ks: seq<Candidate>, a: Acc, c: Candidate)
    requires Characterised(tables, ks, a) && NoDuplicates(a.digests)
    requires Keeps(tables, c) && c.digest in a.digests
    ensures Characterised(tables, ks + [c], Step(tables, a, c))
  {
    var b := Step(tables, a, c);
    var j := FirstIndex(a.digests, c.digest);
    assert FoldersResolve(tables, ks + [c]) by {
      assert forall i :: 0 <= i < |ks| ==> (ks + [c])[i] == ks[i];
    }
    forall k | 0 <= k < |b.itineraries|
      ensures IsItineraryFor(tables, ks + [c], b.digests[k], b.itineraries[k])
    {
      var e := a.digests[k];
      assert IsItineraryFor(tables, ks, e, a.itineraries[k]);
      FirstWithSnoc(ks, c, e);
      ClassesOfSnoc(tables, ks, c, e);
      if k != j {
        assert e != c.digest;
      }
    }
  }

  /** A kept candidate of a new digest appends a new itinerary holding its fare. */
  lemma StepNewDigest(tables: Tables, ks: seq<Candidate>, a: Acc, c: Candidate)
    requires Characterised(tables, ks, a)
    requires Keeps(tables, c) && c.digest !in Digests(ks) && c.digest !in a.digests
    requires ItineraryResolves(tables, c)
    ensures Characterised(tables, ks + [c], Step(tables, a, c))
  {
    var b := Step(tables, a, c);
    assert FoldersResolve(tables, ks + [c]) by {
      assert forall i :: 0 <= i < |ks| ==> (ks + [c])[i] == ks[i];
    }
    forall k | 0 <= k < |b.itineraries|
      ensures IsItineraryFor(tables, ks + [c], b.digests[k], b.itineraries[k])
    {
      if k < |a.itineraries| {
        var e := a.digests[k];
        assert IsItineraryFor(tables, ks, e, a.itineraries[k]);
        FirstWithSnoc(ks, c, e);
        ClassesOfSnoc(tables, ks, c, e);
      } else {
        FirstWithSnocNew(ks, c);
        ClassesOfSnoc(tables, ks, c, c.digest);
        ClassesOfAbsent(tables, ks, c.digest);
      }
    }
  }

  /** One more candidate keeps the aggregation characterised. */
  lemma AggregateSnocCharacterised(tables: Tables, cs: seq<Candidate>, c: Candidate)
    requires Resolvable(tables, cs + [c])
    requires Resolvable(tables, cs) && Characterised(tables, Kept(tables, cs), Aggregate(tables, cs))
    ensures Characterised(tables, Kept(tables, cs + [c]), Aggregate(tables, cs + [c]))
  {
    AggregateSnoc(tables, cs, c);
    KeptSnoc(tables, cs, c);
    var a0, k0 := Aggregate(tables, cs), Kept(tables, cs);
    if Keeps(tables, c) {
      if c.digest in a0.digests {
        StepSeenDigest(tables, k0, a0, c);
      } else {
        StepNewDigest(tables, k0, a0, c);
      }
    } else {
      assert k0 + [] == k0;
    }
  }

  /**
   * The k-th itinerary is built from the first kept candidate with the k-th
   * digest, and its fares are those of all kept candidates with that digest.
   */
  lemma {:induction false} AggregateItineraries(tables: Tables, cs: seq<Candidate>)
    requires Resolvable(tables, cs)
    ensures Characterised(tables, Kept(tables, cs), Aggregate(tables, cs))
  {
    if cs == [] {
      assert Kept(tables, cs) == [];
    } else {
      var p, c := cs[..|cs| - 1], cs[|cs| - 1];
      assert cs == p + [c];
      AggregateSnoc(tables, p, c);
      AggregateItineraries(tables, p);
      AggregateSnocCharacterised(tables, p, c);
    }
  }

  /** The itineraries come in the order in which their digests are first seen among the kept candidates. */
  lemma {:induction false} FirstSeenOrder(s: seq<string>)
    ensures forall k, l :: 0 <= k < l < |FirstSeen(s)| ==>
              FirstIndex(s, FirstSeen(s)[k]) < FirstIndex(s, FirstSeen(s)[l])
  {
    if s != [] {
      var p, x := s[..|s| - 1], s[|s| - 1];
      assert s == p + [x];
      FirstSeenOrder(p);
      FirstSeenSnoc(p, x);
      var fp := FirstSeen(p);
      forall e | e in fp ensures FirstIndex(s, e) == FirstIndex(p, e) {
        FirstIndexSnoc(p, x, e);
      }
      if x !in p {
        FirstIndexSnocNew(p, x);
        assert forall k :: 0 <= k < |fp| ==> FirstIndex(p, fp[k]) < |p|;
      }
    }
  }

  /** The travel classes of an itinerary are exactly those of the kept candidates with its digest. */
  lemma {:induction false} ClassesOfKeys(tables: Tables, cs: seq<Candidate>, d: string)
    requires FoldersResolve(tables, cs)
    ensures forall cls :: cls in ClassesOf(tables, cs, d) <==>
              exists i :: 0 <= i < |cs| && cs[i].digest == d && ClassOf(tables, cs[i]) == cls
  {
    if cs != [] {
      var p, c := cs[..|cs| - 1], cs[|cs| - 1];
      assert cs == p + [c];
      ClassesOfSnoc(tables, p, c, d);
      ClassesOfKeys(tables, p, d);
      forall cls ensures cls in ClassesOf(tables, cs, d) <==>
                         exists i :: 0 <= i < |cs| && cs[i].digest == d && ClassOf(tables, cs[i]) == cls
      {
        if exists i :: 0 <= i < |cs| && cs[i].digest == d && ClassOf(tables, cs[i]) == cls {
          var i :| 0 <= i < |cs| && cs[i].digest == d && ClassOf(tables, cs[i]) == cls;
          if i < |p| {
            assert p[i] == cs[i];
          }
        }
        if exists i :: 0 <= i < |p| && p[i].digest == d && ClassOf(tables, p[i]) == cls {
          var i :| 0 <= i < |p| && p[i].digest == d && ClassOf(tables, p[i]) == cls;
          assert cs[i] == p[i];
        }
      }
    }
  }

  /** The fare under a travel class is that of the last kept candidate with the digest and that class. */
  lemma {:induction false} ClassesOfLast(tables: Tables, cs: seq<Candidate>, d: string, i: nat)
    requires FoldersResolve(tables, cs)
    requires i < |cs| && cs[i].digest == d
    requires forall j :: i < j < |cs| && cs[j].digest == d ==> ClassOf(tables, cs[j]) != ClassOf(tables, cs[i])
    ensures ClassOf(tables, cs[i]) in ClassesOf(tables, cs, d)
    ensures ClassesOf(tables, cs, d)[ClassOf(tables, cs[i])] == FareOf(tables, cs[i])
  {
    var p, c := cs[..|cs| - 1], cs[|cs| - 1];
    assert cs == p + [c];
    ClassesOfSnoc(tables, p, c, d);
    if i < |p| {
      assert p[i] == cs[i];
      ClassesOfLast(tables, p, d, i);
    }
  }

  /** A candidate is kept exactly when it is among the given ones and its folder is `nonflexi`. */
  lemma {:induction false} KeptMembers(tables: Tables, cs: seq<Candidate>)
    ensures forall c :: c in Kept(tables, cs) <==> c in cs && Keeps(tables, c)
  {
    if cs != [] {
      var p, c := cs[..|cs| - 1], cs[|cs| - 1];
      assert cs == p + [c];
      KeptSnoc(tables, p, c);
      KeptMembers(tables, p);
    }
  }

  /** Every `nonflexi` candidate is kept as often as it occurs; no other candidate is kept. */
  lemma {:induction false} KeptCount(tables: Tables, cs: seq<Candidate>, c: Candidate)
    ensures multiset(Kept(tables, cs))[c] == if Keeps(tables, c) then multiset(cs)[c] else 0
  {
    if cs != [] {
      var p, x := cs[..|cs| - 1], cs[|cs| - 1];
      assert cs == p + [x];
      KeptSnoc(tables, p, x);
      KeptCount(tables, p, c);
    }
  }

  /** Filtering a concatenation filters each part, so the kept candidates keep their relative order. */
  lemma {:induction false} KeptAppend(tables: Tables, a: seq<Candidate>, b: seq<Candidate>)
    ensures Kept(tables, a + b) == Kept(tables, a) + Kept(tables, b)
  {
    if b == [] {
      assert a + b == a;
      assert Kept(tables, a) + [] == Kept(tables, a);
    } else {
      var p, x := b[..|b| - 1], b[|b| - 1];
      var ap := a + p;
      assert a + b == ap + [x];
      KeptSnoc(tables, ap, x);
      KeptSnoc(tables, p, x);
      KeptAppend(tables, a, p);
      var ka, kp := Kept(tables, a), Kept(tables, p);
      var tail := if Keeps(tables, x) then [x] else [];
      assert Kept(tables, b) == kp + tail;
      assert (ka + kp) + tail == ka + (kp + tail);
    }
  }

  /** A sequence of kept candidates keeps all of them. */
  lemma {:induction false} KeptAll(tables: Tables, cs: seq<Candidate>)
    requires forall i :: 0 <= i < |cs| ==> Keeps(tables, cs[i])
    ensures Kept(tables, cs) == cs
  {
    if cs != [] {
      var p, c := cs[..|cs| - 1], cs[|cs| - 1];
      assert cs == p + [c];
      KeptSnoc(tables, p, c);
      KeptAll(tables, p);
    }
  }

  /** Candidates whose folder is not `nonflexi` have no effect: aggregating only the kept ones gives the same result. */
  lemma {:induction false} RejectedHaveNoEffect(tables: Tables, cs: seq<Candidate>)
    requires Resolvable(tables, cs)
    ensures Resolvable(tables, Kept(tables, cs))
    ensures Aggregate(tables, Kept(tables, cs)) == Aggregate(tables, cs)
  {
    if cs != [] {
      var p, c := cs[..|cs| - 1], cs[|cs| - 1];
      assert cs == p + [c];
      AggregateSnoc(tables, p, c);
      RejectedHaveNoEffect(tables, p);
      KeptSnoc(tables, p, c);
      if Keeps(tables, c) {
        KeptCandidateStep(tables, p, c);
      } else {
        assert Kept(tables, p) + [] == Kept(tables, p);
        assert Aggregate(tables, cs) == Aggregate(tables, p);
      }
    } else {
      assert Kept(tables, cs) == [];
    }
  }

  /** Appending a kept candidate to both the candidates and the kept ones takes the same step. */
  lemma KeptCandidateStep(tables: Tables, cs: seq<Candidate>, c: Candidate)
    requires Resolvable(tables, cs + [c]) && Keeps(tables, c)
    requires Resolvable(tables, Kept(tables, cs))
    requires Aggregate(tables, Kept(tables, cs)) == Aggregate(tables, cs)
    ensures Resolvable(tables, Kept(tables, cs) + [c])
    ensures Aggregate(tables, Kept(tables, cs) + [c]) == Aggregate(tables, cs + [c])
  {
    var k0 := Kept(tables, cs);
    AggregateSnoc(tables, cs, c);
    KeptAll(tables, k0);
    assert (k0 + [c])[..|k0|] == k0;
    assert Resolvable(tables, k0 + [c]);
    AggregateSnoc(tables, k0, c);
  }

  /**
   * Two kept candidates with one digest and different travel classes give
   * one itinerary, built from the first, with one fare per class.
   */
  lemma TwoClassesOneItinerary(tables: Tables, c1: Candidate, c2: Candidate)
    requires Keeps(tables, c1) && Keeps(tables, c2) && ItineraryResolves(tables, c1)
    requires c1.digest == c2.digest && ClassOf(tables, c1) != ClassOf(tables, c2)
    ensures Resolvable(tables, [c1, c2])
    ensures Aggregate(tables, [c1, c2]).itineraries ==
      [NewItinerary(tables, c1).(travelClasses := map[ClassOf(tables, c1) := FareOf(tables, c1),
                                                      ClassOf(tables, c2) := FareOf(tables, c2)])]
  {
    assert [c1, c2][..1] == [c1];
    assert [c1][..0] == [];
    KeptSnoc(tables, [], c1);
    assert Resolvable(tables, [c1]);
    var a1 := Aggregate(tables, [c1]);
    assert a1 == Step(tables, Acc([], []), c1);
    assert a1.digests == [c1.digest];
  }

  // ---------------------------------------------------------------------------
  // The source's loop

  /** A kept candidate of a new digest appends its itinerary, then writes its fare there. */
  lemma StepNew(tables: Tables, a: Acc, c: Candidate)
    requires |a.digests| == |a.itineraries|
    requires Keeps(tables, c) && c.digest !in a.digests && ItineraryResolves(tables, c)
    ensures Step(tables, a, c) ==
      Acc(a.digests + [c.digest],
          (a.itineraries + [NewItinerary(tables, c)])[|a.itineraries| := AddFare(tables, NewItinerary(tables, c), c)])
  {
    var t := NewItinerary(tables, c);
    assert (a.itineraries + [t])[|a.itineraries| := AddFare(tables, t, c)] == a.itineraries + [AddFare(tables, t, c)];
  }

  /** A kept candidate of a digest seen at position `k` writes its fare into the itinerary there. */
  lemma StepSeen(tables: Tables, a: Acc, c: Candidate, k: nat)
    requires |a.digests| == |a.itineraries| && NoDuplicates(a.digests)
    requires Keeps(tables, c) && k < |a.digests| && a.digests[k] == c.digest
    ensures Step(tables, a, c) == Acc(a.digests, a.itineraries[k := AddFare(tables, a.itineraries[k], c)])
  {
    assert FirstIndex(a.digests, c.digest) == k;
  }

  /** The `segment_ids.forEach` of `searchTrips`: one view per segment id, pushed in order. */
  method SegmentList(tables: Tables, ids: seq<Id>) returns (segs: seq<SegmentView>)
    requires SegmentsResolve(tables, ids)
    ensures segs == SegmentViews(tables, ids)
    ensures |segs| == |ids|
    ensures forall j :: 0 <= j < |ids| ==>
              segs[j].departureStation == tables.stations[tables.segments[ids[j]].departureStationId].name &&
              segs[j].arrivalStation == tables.stations[tables.segments[ids[j]].arrivalStationId].name &&
              segs[j].trainName == tables.segments[ids[j]].trainName
  {
    segs := [];
    var j := 0;
    while j < |ids|
      invariant 0 <= j <= |ids|
      invariant segs == SegmentViews(tables, ids)[..j]
    {
      var s := tables.segments[ids[j]];
      segs := segs + [SegmentView(tables.stations[s.departureStationId].name, tables.stations[s.arrivalStationId].name,
                                  s.departureDate, s.arrivalDate, s.trainName)];
      j := j + 1;
    }
  }

  /** `trips` maps each digest seen so far to the position of its itinerary. */
  ghost predicate IndexesDigests(trips: map<string, nat>, digests: seq<string>)
  {
    (forall d :: d in trips <==> d in digests) &&
    (forall d :: d in trips ==> trips[d] < |digests| && digests[trips[d]] == d)
  }

  /** The body of the `forEach` over the candidates in `searchTrips`. */
  method AddCandidate(tables: Tables, trips: map<string, nat>, itineraries: seq<Itinerary>,
                      ghost digests: seq<string>, trip: Candidate)
    returns (trips': map<string, nat>, itineraries': seq<Itinerary>, ghost digests': seq<string>)
    requires IndexesDigests(trips, digests) && NoDuplicates(digests) && |digests| == |itineraries|
    requires trip.folderId in tables.folders
    requires Keeps(tables, trip) && trip.digest !in digests ==> ItineraryResolves(tables, trip)
    ensures IndexesDigests(trips', digests')
    ensures Acc(digests', itineraries') == Step(tables, Acc(digests, itineraries), trip)
  {
    trips', itineraries', digests' := trips, itineraries, digests;
    var folder := tables.folders[trip.folderId];
    if folder.flexibility != FLEXIBILITY {
      return;
    }
    if trip.digest !in trips' {
      var segs := SegmentList(tables, trip.segmentIds);
      var t := Itinerary(tables.stations[trip.departureStationId].name, tables.stations[trip.arrivalStationId].name,
                         trip.departureDate, trip.arrivalDate, segs, map[]);
      trips' := trips'[trip.digest := |itineraries'|];
      itineraries' := itineraries' + [t];
      digests' := digests' + [trip.digest];
    }
    var k := trips'[trip.digest];
    var t := itineraries'[k];
    itineraries' := itineraries'[k := t.(travelClasses := t.travelClasses[folder.travelClass :=
                                     Fare(trip.cents, trip.currency, Booking(tables.searchId, folder.id))])];
    if trip.digest !in trips {
      StepNew(tables, Acc(digests, itineraries), trip);
    } else {
      StepSeen(tables, Acc(digests, itineraries), trip, k);
    }
  }

  /**
   * `searchTrips`'s processing of the response: one pass over the candidates
   * with an object from digest to itinerary and the list of itineraries.
   */
  method SearchTrips(result: SearchResult) returns (itineraries: seq<Itinerary>)
    requires Resolvable(TablesOf(result), result.trips)
    ensures itineraries == Aggregate(TablesOf(result), result.trips).itineraries
  {
    var stations := ArrToObj(result.stations, StationId);
    var passengers := ArrToObj(result.passengers, PassengerId);  // built, never read
    var folders := ArrToObj(result.folders, FolderId);
    var segments := ArrToObj(result.segments, SegmentId);
    var tables := Tables(result.searchId, stations, folders, segments);
    assert tables == TablesOf(result);

    var trips: map<string, nat> := map[];
    itineraries := [];
    ghost var digests: seq<string> := [];
    var i := 0;
    while i < |result.trips|
      invariant 0 <= i <= |result.trips|
      invariant Resolvable(tables, result.trips[..i])
      invariant Acc(digests, itineraries) == Aggregate(tables, result.trips[..i])
      invariant IndexesDigests(trips, digests)
    {
      var trip := result.trips[i];
      AggregatePrefixStep(tables, result.trips, i);
      trips, itineraries, digests := AddCandidate(tables, trips, itineraries, digests, trip);
      i := i + 1;
    }
    assert result.trips[..i] == result.trips;
  }
}
