/**
 `lambda_handler`: three ordered rejections, each a 400 made before any
 remote call, then the aggregation over the requested search strings and a
 200 carrying the aggregated records. Parsing the body is an oracle; the
 faults the source lets escape are explicit outcomes.
 */
module Handler {
  import opened Wrappers
  import opened PyJson
  import opened PlaceRecords
  import opened Lookup
  import opened Aggregate

  const BodyMissing: string := "Request body is missing."
  const InvalidJson: string := "Invalid JSON format."
  const MissingFields: string := "Missing search_strings_array, location_query, or webhook_url in request body."

  /** The triggering event: its `body` entry, `None` when absent. */
  datatype Event = Event(body: Option<string>)

  /** An exception that escapes the handler. */
  datatype Fault =
    | AttributeError  // `.get` on a body that decoded to something other than an object
    | TypeError       // iterating `None` or a non-iterable search list

  /** The response body before serialisation. */
  datatype Body = Message(text: string) | Records(places: seq<PlaceRecord>)

  datatype Outcome = Reply(statusCode: int, body: Body) | Crash(fault: Fault)

  datatype Handled = Handled(outcome: Outcome, calls: seq<Call>)

  /** `json.loads`: the decoded value, or `None` for a `JSONDecodeError`. */
  type Parser = string -> Option<Json>

  /** `not v` for the value of `d.get(key)`. */
  predicate Falsy(v: Option<Json>) {
    v.None? || !Truthy(v.value)
  }

  predicate BodyAbsent(event: Event) {
    event.body.None? || event.body.value == ""
  }

  /** All three request fields are present and truthy. */
  predicate FieldsPresent(members: seq<(string, Json)>) {
    && !Falsy(Get(members, "search_strings_array"))
    && !Falsy(Get(members, "location_query"))
    && !Falsy(Get(members, "webhook_url"))
  }

  /** The body decodes to an object holding all three fields. */
  predicate ValidRequest(event: Event, parse: Parser) {
    && !BodyAbsent(event)
    && parse(event.body.value).Some?
    && parse(event.body.value).value.JObject?
    && FieldsPresent(parse(event.body.value).value.members)
  }

  function LambdaHandler(event: Event, parse: Parser, up: Upstream, webhook: Webhook): (r: Handled)
    ensures r.outcome.Reply? ==> r.outcome.statusCode == 200 || r.outcome.statusCode == 400
    ensures r.outcome.Reply? && r.outcome.statusCode == 400 ==> r.calls == [] && r.outcome.body.Message?
    ensures r.outcome == Reply(400, Message(BodyMissing)) <==> BodyAbsent(event)
    ensures r.outcome == Reply(400, Message(InvalidJson)) <==>
              !BodyAbsent(event) && parse(event.body.value).None?
    ensures r.outcome == Crash(AttributeError) <==>
              !BodyAbsent(event) && parse(event.body.value).Some? && !parse(event.body.value).value.JObject?
    ensures r.outcome == Reply(400, Message(MissingFields)) <==>
              && !BodyAbsent(event) && parse(event.body.value).Some? && parse(event.body.value).value.JObject?
              && !FieldsPresent(parse(event.body.value).value.members)
    ensures r.calls != [] ==> ValidRequest(event, parse)
    ensures r.outcome.Reply? && r.outcome.statusCode == 200 ==>
              && ValidRequest(event, parse)
              && r.outcome.body.Records?
              && Posted(r.calls) == r.outcome.body.places
              && PostsOnlyTo(r.calls, Get(parse(event.body.value).value.members, "webhook_url").value)
    ensures ValidRequest(event, parse) ==>
              var members := parse(event.body.value).value.members;
              var searches := Get(members, "search_strings_array").value;
              var location := Get(members, "location_query").value;
              var url := Get(members, "webhook_url").value;
              && (Iterate(searches).None? ==> r == Handled(Crash(TypeError), []))
              && (Iterate(searches).Some? ==>
                    var agg := PlacesInfo(Iterate(searches).value, location, url, up, webhook);
                    && r.calls == agg.calls
                    && r.outcome == if agg.places.None? then Crash(TypeError) else Reply(200, Records(agg.places.value)))
  {
    if BodyAbsent(event) then Handled(Reply(400, Message(BodyMissing)), [])
    else
      match parse(event.body.value)
      case None => Handled(Reply(400, Message(InvalidJson)), [])
      case Some(data) =>
        if !data.JObject? then Handled(Crash(AttributeError), [])
        else
          var searches := Get(data.members, "search_strings_array");
          var location := Get(data.members, "location_query");
          var url := Get(data.members, "webhook_url");
          if Falsy(searches) || Falsy(url) || Falsy(location) then
            Handled(Reply(400, Message(MissingFields)), [])
          else
            match Iterate(searches.value)
            case None => Handled(Crash(TypeError), [])
            case Some(items) =>
              var agg := PlacesInfo(items, location.value, url.value, up, webhook);
              if agg.places.None? then Handled(Crash(TypeError), agg.calls)
              else Handled(Reply(200, Records(agg.places.value)), agg.calls)
  }

  /**
   What the webhook answers never changes the handler's outcome, and changes
   its calls only in whether each post is logged as delivered.
   */
  lemma WebhookNeverChangesOutcome(event: Event, parse: Parser, up: Upstream, w1: Webhook, w2: Webhook)
    ensures LambdaHandler(event, parse, up, w1).outcome == LambdaHandler(event, parse, up, w2).outcome
    ensures SameUpToDelivery(LambdaHandler(event, parse, up, w1).calls, LambdaHandler(event, parse, up, w2).calls)
  {
    if ValidRequest(event, parse) {
      var members := parse(event.body.value).value.members;
      var searches := Get(members, "search_strings_array").value;
      var location := Get(members, "location_query").value;
      var url := Get(members, "webhook_url").value;
      if Iterate(searches).Some? {
        WebhookStatusIrrelevant(Lookups(Iterate(searches).value, location, up), url, w1, w2);
      }
    }
  }

  /** A request object with the three fields set to the given values. */
  function RequestObject(searches: seq<string>, location: string, url: string): Json {
    JObject([
      ("search_strings_array", JArray(seq(|searches|, k requires 0 <= k < |searches| => JString(searches[k])))),
      ("location_query", JString(location)),
      ("webhook_url", JString(url))])
  }

  /**
   A valid request for one search string answers 200 with exactly that
   string's records when its lookup succeeds, and otherwise crashes with a
   `TypeError` after making only that lookup's calls: geocode failure,
   missing results, find-place failure and zero candidates all end here
   rather than in a structured error response.
   */
  lemma SingleSearch(body: string, search: string, location: string, url: string,
                     parse: Parser, up: Upstream, webhook: Webhook)
    requires body != "" && location != "" && url != ""
    requires parse(body) == Some(RequestObject([search], location, url))
    ensures var r := LambdaHandler(Event(Some(body)), parse, up, webhook);
            var one := PlaceLookup(JString(search), JString(location), up);
            && (one.records.Some? ==> r.outcome == Reply(200, Records(one.records.value)))
            && (one.records.None? ==> r == Handled(Crash(TypeError), one.calls))
  {
    var data := RequestObject([search], location, url);
    var items := [JString(search)];
    var listed := seq(1, k requires 0 <= k < 1 => JString([search][k]));
    assert listed[0] == JString(search);
    assert listed == items;
    assert data.members[0] == ("search_strings_array", JArray(items));
    assert Get(data.members, "search_strings_array") == Some(JArray(items));
    assert Iterate(JArray(items)) == Some(items);
    var ms := data.members;
    assert ms[1..][0] == ("location_query", JString(location));
    assert Get(ms[1..], "location_query") == Some(JString(location));
    assert ms[1..][1..] == [("webhook_url", JString(url))];
    assert Get(ms[1..][1..], "webhook_url") == Some(JString(url));
    assert Get(ms, "location_query") == Some(JString(location));
    assert Get(ms, "webhook_url") == Some(JString(url));
    assert FieldsPresent(ms);
    PlacesInfoSingle(JString(search), JString(location), JString(url), up, webhook);
    var looked := Lookups(items, JString(location), up);
    assert looked == [PlaceLookup(JString(search), JString(location), up)];
    assert looked[1..] == [];
    assert Gather(looked[1..], JString(url), webhook) == Aggregated(Some([]), []);
  }
}
