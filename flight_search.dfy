/** The flight lookup client: turning the locations and flight-offers
    responses into an airport code and a five-field flight record. */
module FlightSearch {
  import opened Base

  /** The flight record, in the order of its positional constructor:
      price, origin airport, destination airport, out date, return date. */
  datatype FlightData = FlightData(
    price: string,
    originAirport: string,
    destinationAirport: string,
    outDate: string,
    returnDate: string)

  /** The sentinel every field carries when no itinerary was found. */
  const NotAvailable: string := "N/A"

  const Unavailable: FlightData :=
    FlightData(NotAvailable, NotAvailable, NotAvailable, NotAvailable, NotAvailable)

  /** What an HTTP call gave the client: a request failure (transport error or a
      4xx/5xx status raised by raise_for_status), or a decoded body. */
  datatype Response = Failed | Body(json: Json)

  /** `data["data"][0]["iataCode"]` of a locations response. */
  function LocationCode(j: Json): Option<string> {
    var locations :- Member(j, "data");
    var first :- First(locations);
    var code :- Member(first, "iataCode");
    Text(code)
  }

  /** get_iata_code: the code of the first location, or "" when the request
      failed, the list is empty or a key is missing. */
  function GetIataCode(r: Response): (code: string)
    ensures r.Failed? ==> code == ""
    ensures r.Body? && Member(r.json, "data").None? ==> code == ""
    ensures r.Body? && Member(r.json, "data") == Some(JArr([])) ==> code == ""
    ensures r.Body? && LocationCode(r.json).Some? ==> code == LocationCode(r.json).value
    ensures code != "" ==> r.Body? && LocationCode(r.json) == Some(code)
  {
    match r
    case Failed => ""
    case Body(j) => LocationCode(j).GetOr("")
  }

  /** `segment[side][key]` as text. */
  function Endpoint(segment: Json, side: string, key: string): Option<string> {
    var place :- Member(segment, side);
    var value :- Member(place, key);
    Text(value)
  }

  /** The fields of the first offer: price from the offer, airports and out date
      from the first segment of the first itinerary, return date from the last
      segment of that same itinerary. */
  function FirstOffer(j: Json): Option<FlightData> {
    var offers :- Member(j, "data");
    var offer :- First(offers);
    var itineraries :- Member(offer, "itineraries");
    var itinerary :- First(itineraries);
    var segments :- Member(itinerary, "segments");
    var first :- First(segments);
    var last :- Last(segments);
    var priceObj :- Member(offer, "price");
    var totalJson :- Member(priceObj, "total");
    var total :- Text(totalJson);
    var origin :- Endpoint(first, "departure", "iataCode");
    var destination :- Endpoint(first, "arrival", "iataCode");
    var outAt :- Endpoint(first, "departure", "at");
    var backAt :- Endpoint(last, "arrival", "at");
    Some(FlightData(total, origin, destination, BeforeFirst(outAt, 'T'), BeforeFirst(backAt, 'T')))
  }

  /** search_flights: the first offer, or the all-"N/A" record when the request
      failed or any key or list on the way is missing; it never fails itself. */
  function SearchFlights(r: Response): (f: FlightData)
    ensures r.Failed? ==> f == Unavailable
    ensures r.Body? && Member(r.json, "data").None? ==> f == Unavailable
    ensures r.Body? && Member(r.json, "data") == Some(JArr([])) ==> f == Unavailable
    ensures r.Body? && FirstOffer(r.json).None? ==> f == Unavailable
  {
    match r
    case Failed => Unavailable
    case Body(j) => FirstOffer(j).GetOr(Unavailable)
  }

  // ---------------------------------------------------------------------
  // Responses built from their parts, to state what extraction reads back.

  /** One flight segment of an itinerary. */
  datatype Segment = Segment(from: string, departAt: string, to: string, arriveAt: string)

  function SegmentJson(s: Segment): Json {
    JObj(map[
      "departure" := JObj(map["iataCode" := JStr(s.from), "at" := JStr(s.departAt)]),
      "arrival" := JObj(map["iataCode" := JStr(s.to), "at" := JStr(s.arriveAt)])])
  }

  function SegmentsJson(segs: seq<Segment>): (j: Json)
    ensures j.JArr? && |j.items| == |segs|
    ensures forall i :: 0 <= i < |segs| ==> j.items[i] == SegmentJson(segs[i])
  {
    JArr(seq(|segs|, i requires 0 <= i < |segs| => SegmentJson(segs[i])))
  }

  function ItinerariesJson(its: seq<seq<Segment>>): (j: Json)
    ensures j.JArr? && |j.items| == |its|
    ensures forall i :: 0 <= i < |its| ==> j.items[i] == JObj(map["segments" := SegmentsJson(its[i])])
  {
    JArr(seq(|its|, i requires 0 <= i < |its| => JObj(map["segments" := SegmentsJson(its[i])])))
  }

  /** A flight-offers body whose first offer costs `total` and has the given itineraries,
      followed by further offers. */
  function OffersBody(total: string, its: seq<seq<Segment>>, others: seq<Json>): Json {
    JObj(map["data" := JArr([JObj(map[
      "price" := JObj(map["total" := JStr(total)]),
      "itineraries" := ItinerariesJson(its)])] + others)])
  }

  /** A locations body whose first location has the given code. */
  function LocationsBody(code: string, others: seq<Json>): Json {
    JObj(map["data" := JArr([JObj(map["iataCode" := JStr(code)])] + others)])
  }

  /** The client reads exactly the code of the first location back. */
  lemma GetIataCodeReadsFirst(code: string, others: seq<Json>)
    ensures GetIataCode(Body(LocationsBody(code, others))) == code
  {
    var j := LocationsBody(code, others);
    assert First(j.fields["data"]) == Some(JObj(map["iataCode" := JStr(code)]));
  }

  /** The record of a full offer: price of the first offer, airports and out date
      of the first segment of the first itinerary, return date of the last segment
      of that itinerary (later itineraries and offers are ignored). */
  lemma SearchFlightsReadsFirstOffer(total: string, its: seq<seq<Segment>>, others: seq<Json>)
    requires |its| > 0 && |its[0]| > 0
    ensures SearchFlights(Body(OffersBody(total, its, others)))
         == FlightData(total, its[0][0].from, its[0][0].to,
                       BeforeFirst(its[0][0].departAt, 'T'),
                       BeforeFirst(its[0][|its[0]| - 1].arriveAt, 'T'))
  {
    var j := OffersBody(total, its, others);
    var offer := JObj(map["price" := JObj(map["total" := JStr(total)]), "itineraries" := ItinerariesJson(its)]);
    assert First(j.fields["data"]) == Some(offer);
    var itinerary := JObj(map["segments" := SegmentsJson(its[0])]);
    assert First(ItinerariesJson(its)) == Some(itinerary);
    var segs := SegmentsJson(its[0]);
    assert First(segs) == Some(SegmentJson(its[0][0]));
    assert Last(segs) == Some(SegmentJson(its[0][|its[0]| - 1]));
    SegmentEndpoints(its[0][0]);
    SegmentEndpoints(its[0][|its[0]| - 1]);
  }

  /** Reading a segment back gives its airports and times. */
  lemma SegmentEndpoints(s: Segment)
    ensures Endpoint(SegmentJson(s), "departure", "iataCode") == Some(s.from)
    ensures Endpoint(SegmentJson(s), "departure", "at") == Some(s.departAt)
    ensures Endpoint(SegmentJson(s), "arrival", "iataCode") == Some(s.to)
    ensures Endpoint(SegmentJson(s), "arrival", "at") == Some(s.arriveAt)
  {}

  /** An itinerary without segments yields the all-"N/A" record. */
  lemma SearchFlightsNoSegments(total: string, its: seq<seq<Segment>>, others: seq<Json>)
    requires |its| > 0 && its[0] == []
    ensures SearchFlights(Body(OffersBody(total, its, others))) == Unavailable
  {
    var j := OffersBody(total, its, others);
    var offer := JObj(map["price" := JObj(map["total" := JStr(total)]), "itineraries" := ItinerariesJson(its)]);
    assert First(j.fields["data"]) == Some(offer);
    assert First(ItinerariesJson(its)) == Some(JObj(map["segments" := SegmentsJson(its[0])]));
    assert First(SegmentsJson(its[0])) == None;
  }
}
