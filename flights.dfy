/** The flight-search rules of `search_flights` in main.py: the query parameters,
    the three outcomes of the reply, and the stop-count filter over the offers. */
module Flights {
  import opened Wrappers
  import opened Filtering

  /** One non-stop leg of an itinerary (carrier code, flight number, ISO 8601 duration). */
  datatype Segment = Segment(carrierCode: string, number: string, duration: string)

  /** One direction of an offer, as its legs. */
  type Itinerary = seq<Segment>

  /** An offer, as its itineraries (outbound, and inbound for a round trip). */
  type Offer = seq<Itinerary>

  /** Code-to-name tables that come with the reply ("carriers", "aircraft", "locations"). */
  type Dictionaries = map<string, map<string, string>>

  /** The query string of the offer search. */
  datatype OfferQuery = OfferQuery(
    originLocationCode: string,
    destinationLocationCode: string,
    departureDate: string,
    adults: int,
    travelClass: string,
    currencyCode: string,
    max: int,
    returnDate: Option<string>)

  /** The fixed part of the query and the rule that a return date is sent only
      for a round trip that has one. */
  function SearchQuery(origin: string, destination: string, departureDate: string,
                       returnDate: Option<string>, adults: int, travelClass: string,
                       tripType: string): (q: OfferQuery)
    ensures q.currencyCode == "USD" && q.max == 249
    ensures q.originLocationCode == origin && q.destinationLocationCode == destination
    ensures q.departureDate == departureDate && q.adults == adults && q.travelClass == travelClass
    ensures q.returnDate.Some? <==> tripType == "Round-Trip" && returnDate.Some?
    ensures q.returnDate.Some? ==> q.returnDate == returnDate
  {
    OfferQuery(origin, destination, departureDate, adults, travelClass, "USD", 249,
               if tripType == "Round-Trip" && returnDate.Some? then returnDate else None)
  }

  /** Does one itinerary satisfy the stop policy? The stop count is the number of
      legs minus one, so an itinerary without legs has -1 stops. */
  predicate Matches(maxStops: string, segments: Itinerary) {
    var numStops := |segments| - 1;
    maxStops == "All"
    || (maxStops == "Non-stop" && numStops == 0)
    || (maxStops == "1 Stop" && numStops == 1)
    || (maxStops == "2+ Stops" && numStops >= 2)
  }

  /** An offer is kept when some itinerary of it matches. */
  predicate Qualifies(maxStops: string, offer: Offer) {
    exists j :: 0 <= j < |offer| && Matches(maxStops, offer[j])
  }

  function KeepsOffer(maxStops: string): Offer -> bool {
    offer => Qualifies(maxStops, offer)
  }

  /** The offers the stop filter keeps, in input order. */
  function Kept(flights: seq<Offer>, maxStops: string): seq<Offer> {
    Keep(flights, KeepsOffer(maxStops))
  }

  /** The nested loop of the filter: for each offer, scan its itineraries and append
      the offer at the first one that matches, then stop scanning it. */
  method FilterByStops(flights: seq<Offer>, maxStops: string) returns (filtered: seq<Offer>)
    ensures filtered == Kept(flights, maxStops)
  {
    filtered := [];
    for i := 0 to |flights|
      invariant filtered == Kept(flights[..i], maxStops)
    {
      assert flights[..i + 1][..i] == flights[..i];
      var flight := flights[i];
      for j := 0 to |flight|
        invariant filtered == Kept(flights[..i], maxStops)
        invariant forall k :: 0 <= k < j ==> !Matches(maxStops, flight[k])
      {
        var segments := flight[j];
        var numStops := |segments| - 1;
        if maxStops == "All"
           || (maxStops == "Non-stop" && numStops == 0)
           || (maxStops == "1 Stop" && numStops == 1)
           || (maxStops == "2+ Stops" && numStops >= 2)
        {
          assert Matches(maxStops, flight[j]);
          filtered := filtered + [flight];
          assert filtered == Kept(flights[..i + 1], maxStops);
          break;
        }
      }
    }
    assert flights[..|flights|] == flights;
  }

  /** The body of the reply: valid JSON with optional "data" and "dictionaries"
      members, or text that is not JSON. */
  datatype Body = NotJson | Json(data: Option<seq<Offer>>, dictionaries: Option<Dictionaries>)

  datatype Reply = Reply(status: int, body: Body)

  /** What `search_flights` returns for a reply: a non-200 status or a body that is
      not JSON gives no offers and no dictionaries; otherwise the filtered offers
      ("data" missing counts as none) and the dictionaries ("dictionaries" missing
      counts as empty). */
  method SearchFlights(reply: Reply, maxStops: string) returns (flights: seq<Offer>, dictionaries: Dictionaries)
    ensures reply.status != 200 || reply.body.NotJson? ==> flights == [] && dictionaries == map[]
    ensures reply.status == 200 && reply.body.Json? ==>
      flights == Kept(reply.body.data.GetOr([]), maxStops) && dictionaries == reply.body.dictionaries.GetOr(map[])
  {
    if reply.status == 200 {
      match reply.body
      case NotJson =>
        flights, dictionaries := [], map[];
      case Json(data, dicts) =>
        flights := FilterByStops(data.GetOr([]), maxStops);
        dictionaries := dicts.GetOr(map[]);
    } else {
      flights, dictionaries := [], map[];
    }
  }

  // Properties of the filter.

  /** An offer is kept exactly when it is one of the input offers and some
      itinerary of it has the stop count the policy asks for. */
  lemma KeptIff(flights: seq<Offer>, maxStops: string, offer: Offer)
    ensures offer in Kept(flights, maxStops) <==>
      offer in flights && exists j :: 0 <= j < |offer| && Matches(maxStops, offer[j])
  {
    KeepMembership(flights, KeepsOffer(maxStops), offer);
  }

  /** The output is the input with the failing offers struck out: the kept offers
      are the input at strictly increasing positions, and those positions are
      exactly the ones whose offer qualifies. */
  lemma KeptIsOrderedSelection(flights: seq<Offer>, maxStops: string)
    ensures exists idx: seq<nat> ::
      |idx| == |Kept(flights, maxStops)|
      && (forall k :: 0 <= k < |idx| ==> idx[k] < |flights| && Kept(flights, maxStops)[k] == flights[idx[k]])
      && (forall k, l :: 0 <= k < l < |idx| ==> idx[k] < idx[l])
      && (forall i :: 0 <= i < |flights| ==> (Qualifies(maxStops, flights[i]) <==> i in idx))
  {
    var idx := KeptPositions(flights, KeepsOffer(maxStops));
    KeptPositionsSpec(flights, KeepsOffer(maxStops));
    assert forall i :: 0 <= i < |flights| ==> (KeepsOffer(maxStops)(flights[i]) <==> Qualifies(maxStops, flights[i]));
  }

  /** Each offer is appended at most once per occurrence in the input: the break
      after the first matching itinerary means an offer with several matching
      itineraries is not duplicated. */
  lemma KeptOncePerOccurrence(flights: seq<Offer>, maxStops: string, offer: Offer)
    ensures multiset(Kept(flights, maxStops))[offer] ==
      if Qualifies(maxStops, offer) then multiset(flights)[offer] else 0
  {
    KeepCount(flights, KeepsOffer(maxStops), offer);
  }

  /** An offer without itineraries is dropped under every policy, "All" included. */
  lemma EmptyOfferDropped(flights: seq<Offer>, maxStops: string)
    ensures [] !in Kept(flights, maxStops)
  {
    KeepMembership(flights, KeepsOffer(maxStops), []);
  }

  /** A policy other than the four the form offers keeps nothing. */
  lemma UnknownPolicyKeepsNothing(flights: seq<Offer>, maxStops: string)
    requires maxStops != "All" && maxStops != "Non-stop" && maxStops != "1 Stop" && maxStops != "2+ Stops"
    ensures Kept(flights, maxStops) == []
  {
    if Kept(flights, maxStops) != [] {
      var o := Kept(flights, maxStops)[0];
      KeepMembership(flights, KeepsOffer(maxStops), o);
      assert false;
    }
  }

  /** "All" keeps exactly the offers that have at least one itinerary. */
  lemma AllKeepsNonEmpty(flights: seq<Offer>, offer: Offer)
    ensures offer in Kept(flights, "All") <==> offer in flights && offer != []
  {
    KeepMembership(flights, KeepsOffer("All"), offer);
    if offer != [] {
      assert Matches("All", offer[0]);
    }
  }

  /** The three specific policies split the non-empty itineraries: each one with at
      least one leg matches exactly one of them. */
  lemma PoliciesPartition(segments: Itinerary)
    ensures segments != [] <==>
      (Matches("Non-stop", segments) || Matches("1 Stop", segments) || Matches("2+ Stops", segments))
    ensures !(Matches("Non-stop", segments) && Matches("1 Stop", segments))
    ensures !(Matches("Non-stop", segments) && Matches("2+ Stops", segments))
    ensures !(Matches("1 Stop", segments) && Matches("2+ Stops", segments))
  {
  }

  /** Itinerary-level OR: an offer whose outbound leg count is 1 and inbound is 3 is
      kept under "Non-stop"; an offer whose only itinerary has 2 legs is not kept
      under "2+ Stops". */
  lemma OrAcrossItineraries(a: Segment, b: Segment, c: Segment, d: Segment)
    ensures Kept([[[a], [b, c, d]]], "Non-stop") == [[[a], [b, c, d]]]
    ensures Kept([[[a, b]]], "2+ Stops") == []
  {
    var o1: Offer := [[a], [b, c, d]];
    var o2: Offer := [[a, b]];
    assert Matches("Non-stop", o1[0]);
    assert Qualifies("Non-stop", o1);
    assert [o1][..0] == [];
    assert !Matches("2+ Stops", o2[0]);
    assert !Qualifies("2+ Stops", o2);
    assert [o2][..0] == [];
  }
}
