/**
 One search-string lookup: geocode the location, find candidate places near
 the first geocode result, then fetch details for each candidate. The three
 remote calls are oracle inputs; every call made is logged in order.
 */
module Lookup {
  import opened Wrappers
  import opened PyJson
  import opened PlaceRecords

  type PlaceId = string

  /** A geocode result's location; only passed on as the find-place bias point. */
  datatype GeoPoint = GeoPoint(lat: real, lng: real)

  /** An HTTP response: its status code and its decoded JSON body. */
  datatype Response<T> = Response(status: int, body: T)

  /** Geocode body: the `results` list, `None` when the key is absent. */
  datatype GeocodeBody = GeocodeBody(results: Option<seq<GeoPoint>>)

  /** Find-place body: the candidates' place ids, `None` when `candidates` is absent. */
  datatype FindPlaceBody = FindPlaceBody(candidates: Option<seq<PlaceId>>)

  /** Place-details body: the `result` object, `None` when the key is absent. */
  datatype DetailsBody = DetailsBody(result: Option<PlaceDetails>)

  /** What the three upstream endpoints answer, per request parameters. */
  datatype Upstream = Upstream(
    geocode: Json -> Response<GeocodeBody>,
    findPlace: (Json, GeoPoint) -> Response<FindPlaceBody>,
    details: PlaceId -> Response<DetailsBody>)

  /** One outbound HTTP request, as it appears in the trace. */
  datatype Call =
    | GeocodeCall(address: Json)
    | FindPlaceCall(input: Json, bias: GeoPoint)
    | DetailsCall(placeId: PlaceId)
    | WebhookPost(url: Json, record: PlaceRecord, delivered: bool)

  predicate GeocodeOk(r: Response<GeocodeBody>) {
    r.status == 200 && r.body.results.Some? && |r.body.results.value| > 0
  }

  predicate FindOk(r: Response<FindPlaceBody>) {
    r.status == 200 && r.body.candidates.Some? && |r.body.candidates.value| > 0
  }

  predicate DetailsOk(r: Response<DetailsBody>) {
    r.status == 200 && r.body.result.Some?
  }

  predicate IsLookupCall(c: Call) {
    !c.WebhookPost?
  }

  /** Every candidate's details call succeeds. */
  predicate AllDetailsOk(cands: seq<PlaceId>, details: PlaceId -> Response<DetailsBody>) {
    forall i :: 0 <= i < |cands| ==> DetailsOk(details(cands[i]))
  }

  /** No candidate's details call succeeds. */
  predicate NoDetailsOk(cands: seq<PlaceId>, details: PlaceId -> Response<DetailsBody>) {
    forall i :: 0 <= i < |cands| ==> !DetailsOk(details(cands[i]))
  }

  /** The records gathered from a list of candidates and the details calls made. */
  datatype Fetched = Fetched(records: seq<PlaceRecord>, calls: seq<Call>)

  /**
   The candidate loop: one details call per candidate, in order; a candidate
   whose call fails or lacks `result` is skipped, every other one yields its
   record.
   */
  function FetchDetails(cands: seq<PlaceId>, details: PlaceId -> Response<DetailsBody>): (r: Fetched)
    ensures |r.calls| == |cands|
    ensures forall i {:trigger r.calls[i]} :: 0 <= i < |cands| ==> r.calls[i] == DetailsCall(cands[i])
    ensures |r.records| <= |cands|
    decreases |cands|
  {
    if |cands| == 0 then Fetched([], [])
    else
      var resp := details(cands[0]);
      var head := if DetailsOk(resp) then [ToRecord(resp.body.result.value)] else [];
      var rest := FetchDetails(cands[1..], details);
      assert forall i :: 1 <= i < |cands| ==> cands[i] == cands[1..][i - 1];
      Fetched(head + rest.records, [DetailsCall(cands[0])] + rest.calls)
  }

  /**
   The loop is compositional: the records of a concatenation of candidate
   lists are the records of the first followed by those of the second, and a
   single candidate yields its record exactly when its details call succeeded.
   Together these say the records keep the candidates' order.
   */
  lemma {:induction false} FetchDetailsAppend(a: seq<PlaceId>, b: seq<PlaceId>, details: PlaceId -> Response<DetailsBody>)
    ensures FetchDetails(a + b, details).records == FetchDetails(a, details).records + FetchDetails(b, details).records
    decreases |a|
  {
    if |a| == 0 {
      assert a + b == b;
    } else {
      FetchDetailsAppend(a[1..], b, details);
      assert (a + b)[1..] == a[1..] + b;
    }
  }

  /** A single candidate yields its record exactly when its details call succeeded. */
  lemma FetchDetailsSingle(c: PlaceId, details: PlaceId -> Response<DetailsBody>)
    ensures FetchDetails([c], details).records
            == if DetailsOk(details(c)) then [ToRecord(details(c).body.result.value)] else []
  {
  }

  /**
   Every candidate yields a record exactly when every details call succeeds,
   and none does exactly when every details call fails.
   */
  lemma {:induction false} FetchDetailsCount(cands: seq<PlaceId>, details: PlaceId -> Response<DetailsBody>)
    ensures |FetchDetails(cands, details).records| == |cands| <==> AllDetailsOk(cands, details)
    ensures FetchDetails(cands, details).records == [] <==> NoDetailsOk(cands, details)
    decreases |cands|
  {
    if |cands| > 0 {
      var rest := cands[1..];
      FetchDetailsCount(rest, details);
      assert AllDetailsOk(cands, details) <==> DetailsOk(details(cands[0])) && AllDetailsOk(rest, details) by {
        assert forall i :: 1 <= i < |cands| ==> cands[i] == rest[i - 1];
      }
      assert NoDetailsOk(cands, details) <==> !DetailsOk(details(cands[0])) && NoDetailsOk(rest, details) by {
        assert forall i :: 1 <= i < |cands| ==> cands[i] == rest[i - 1];
      }
    }
  }

  /** The outcome of one lookup: its records (`None` on failure) and the calls made. */
  datatype Looked = Looked(records: Option<seq<PlaceRecord>>, calls: seq<Call>)

  /**
   `get_place_details`: `None` when geocoding fails or returns no results, or
   when find-place fails or returns no candidates; otherwise the candidate
   loop's records. An empty list therefore means every details call failed.
   */
  function PlaceLookup(search: Json, location: Json, up: Upstream): (r: Looked)
    ensures |r.calls| >= 1 && r.calls[0] == GeocodeCall(location)
    ensures forall c :: c in r.calls ==> IsLookupCall(c)
    ensures !GeocodeOk(up.geocode(location)) ==> r == Looked(None, [GeocodeCall(location)])
    ensures GeocodeOk(up.geocode(location)) ==>
              var point := up.geocode(location).body.results.value[0];
              var find := up.findPlace(search, point);
              && |r.calls| >= 2 && r.calls[1] == FindPlaceCall(search, point)
              && (r.records.None? <==> !FindOk(find))
              && (!FindOk(find) ==> r.calls == [GeocodeCall(location), FindPlaceCall(search, point)])
              && (FindOk(find) ==>
                    var fetched := FetchDetails(find.body.candidates.value, up.details);
                    && r.records == Some(fetched.records)
                    && r.calls == [GeocodeCall(location), FindPlaceCall(search, point)] + fetched.calls)
              && (r.records.Some? ==>
                    var cands := find.body.candidates.value;
                    && |r.calls| == 2 + |cands|
                    && |r.records.value| <= |cands|
                    && (r.records.value == [] <==> NoDetailsOk(cands, up.details)))
  {
    var geo := up.geocode(location);
    if !GeocodeOk(geo) then Looked(None, [GeocodeCall(location)])
    else
      var point := geo.body.results.value[0];
      var find := up.findPlace(search, point);
      var calls := [GeocodeCall(location), FindPlaceCall(search, point)];
      if !FindOk(find) then Looked(None, calls)
      else
        var fetched := FetchDetails(find.body.candidates.value, up.details);
        FetchDetailsCount(find.body.candidates.value, up.details);
        Looked(Some(fetched.records), calls + fetched.calls)
  }
}
