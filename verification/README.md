# FindPlaceFromText — a Dafny model of the place-lookup core

The system is an HTTP-triggered function. It takes a list of business-name
search strings, a location query and a webhook URL. For each search string it
geocodes the location, finds candidate places near the first geocode result,
fetches details for every candidate and maps each successful details result to
a place record. Each record is posted to the webhook, and all records come back
in a 200 response. The model covers this decision logic. The remote calls are
not made: each call's answer is an input, given as a status code plus a decoded
body. Every call the code would make is logged, in order, in a trace returned
next to the result. That trace is how the model states "no lookup happens on a
400" and "each record is posted exactly once, in order".

Modules:

- `Wrappers`: `Option`.
- `StrSplit`: Python's `str.split(sep)` and `sep.join(parts)`, and counting `", "`.
- `PyJson`: decoded JSON values, Python truthiness, `dict.get` and what `for x in v` iterates.
- `PlaceRecords`: splitting the formatted address and mapping a details result to a record.
- `Lookup`: the response shapes, the upstream oracle, the call trace, the candidate loop and
  `get_place_details`.
- `Aggregate`: `send_to_webhook` and the `get_places_info` loop.
- `Handler`: `lambda_handler`.

The model follows the code; in particular:

- Geocoding happens inside `get_place_details`, so once per search string (lambda_function.py:14).
  It does not happen once per request.
- A find-place failure or zero candidates makes `get_place_details` return `None`, not an empty
  list (lambda_function.py:34-39). The caller then fails with a `TypeError` when it iterates that
  `None` (lambda_function.py:86). The model makes this an explicit `Crash(TypeError)` outcome. The
  webhook posts already made for earlier search strings stay in the trace.

## Model

| member | source | states |
|---|---|---|
| StrSplit.Split | lambda_function.py:60 | `str.split(', ')` never returns an empty list; an input shorter than the separator is returned as the only part (so `''` splits to `['']`) |
| StrSplit.JoinSplit | lambda_function.py:60 | joining the parts of a split with the separator gives back the original string |
| StrSplit.SplitJoin | lambda_function.py:60 | joining ", "-free parts with ", " and splitting again gives back exactly those parts |
| StrSplit.SplitCount | lambda_function.py:60-64 | splitting on ", " gives one more part than the number of ", " occurrences in the string |
| StrSplit.SplitPartsAvoidSep | lambda_function.py:60 | no part produced by splitting on ", " contains ", " |
| StrSplit.SplitAtFirstSep | lambda_function.py:60 | the split cuts at the first ", " after a separator-free prefix |
| StrSplit.JoinAppend | lambda_function.py:60-64 | joining is associative over a cut of the part list, so dropping trailing segments loses exactly their joined text |
| StrSplit.NoCommaNoSep | lambda_function.py:60 | a string without a comma holds no ", " |
| PlaceRecords.SplitAddress | lambda_function.py:60-64 | street is always present (`""` when the address is missing); city, state and countryCode are `None` exactly when the address has fewer than 1, 2 or 3 ", " separators; no field contains ", " |
| PlaceRecords.AddressRoundTrip | lambda_function.py:60-64 | joining the present fields with ", " gives back the address exactly when it has at most three separators; otherwise the segments after the fourth are what is lost |
| PlaceRecords.SplitAddressOfFields | lambda_function.py:60-64 | an address assembled from one to four ", "-free fields splits back into those fields, with `None` for the missing positions |
| PlaceRecords.FullAddressExample | lambda_function.py:60-64 | "123 Main St, Springfield, IL, US" maps to street "123 Main St", city "Springfield", state "IL", countryCode "US" |
| PlaceRecords.ExampleJoin | lambda_function.py:60 | the four example fields joined with ", " give the example address |
| PlaceRecords.StreetOnlyExample | lambda_function.py:60-64 | "123 Main St" maps to that street and no city, state or countryCode |
| PlaceRecords.Category | lambda_function.py:76 | categoryName is present exactly when `types` is present and non-empty, and is then its first element |
| PlaceRecords.ToRecord | lambda_function.py:59-78 | the record's address fields come from splitting the formatted address, its category from `types`, and title, totalScore, reviewsCount, website, phone and url are copied unchanged |
| PlaceRecords.ToRecordRecovers | lambda_function.py:60-77 | two places with the same record agree on every copied field, and on the address text (a missing address read as `""`, as `get('formatted_address', '')` does) when both have at most three separators |
| PyJson.Get | lambda_function.py:115-117 | `dict.get(key)` is `None` exactly when no entry has that key, and otherwise returns a value stored under that key |
| PyJson.Iterate | lambda_function.py:84 | a list iterates its items, a string its characters, a dict its keys; `None`, booleans and numbers are not iterable |
| Lookup.FetchDetails | lambda_function.py:41-57 | one details call per candidate, in candidate order; never more records than candidates |
| Lookup.FetchDetailsAppend | lambda_function.py:41-80 | the records for a concatenation of candidate lists are those of the first list followed by those of the second (with FetchDetailsSingle: one record per successful candidate, in candidate order) |
| Lookup.FetchDetailsSingle | lambda_function.py:51-78 | a single candidate yields its record exactly when its details call had status 200 and a `result` |
| Lookup.FetchDetailsCount | lambda_function.py:51-57 | every candidate yields a record exactly when every details call succeeds; none does exactly when every details call fails |
| Lookup.PlaceLookup | lambda_function.py:14-80 | the result is `None` exactly when geocoding fails or returns no results, or find-place fails or returns no candidates; after a find-place failure the calls are exactly the geocode and the find-place; otherwise the records and details calls are exactly those of the candidate loop over the candidates, in order, after the geocode and the find-place with the first result's point; an empty list means candidates existed but every details call failed; no webhook post |
| Aggregate.Forward | lambda_function.py:91-97 | one POST per record, in order, to the given URL; the status only decides whether a delivery or a failure is logged |
| Aggregate.PostedForward | lambda_function.py:86-88 | forwarding a list posts exactly that list, in order |
| Aggregate.PostedAppend | lambda_function.py:84-88 | the records posted by two consecutive stretches of calls are those of the first followed by those of the second |
| Aggregate.PostedNone | lambda_function.py:4-80 | a trace made only of lookup calls posts nothing |
| Aggregate.GatherFails | lambda_function.py:84-86 | the loop fails exactly when one of the lookups returned `None` |
| Aggregate.GatherPosted | lambda_function.py:84-88 | when the loop succeeds, the posts carry exactly the returned records, each once and in order (GatherPostsTo: all to the one webhook URL) |
| Aggregate.GatherTrace | lambda_function.py:84-97 | when every lookup returns a list, the calls are, lookup by lookup in order, that lookup's own calls followed by one post per record to the given URL |
| Aggregate.GatherPostsTo | lambda_function.py:86-93 | every webhook post the loop makes goes to the given URL |
| Aggregate.GatherAppendFails | lambda_function.py:84-86 | once a prefix of the lookups fails, nothing after it is looked up or posted |
| Aggregate.GatherAppend | lambda_function.py:84-89 | after a successful prefix, the calls and records of the rest follow those of the prefix in order |
| Aggregate.GatherConcat | lambda_function.py:83-89 | when every lookup returns a list, the result is the concatenation of those lists in search order |
| Aggregate.GatherPostedBeforeFailure | lambda_function.py:84-88 | when lookup k is the first to fail, the records of the earlier lookups were already posted, each once and in order, and the loop stops there |
| Aggregate.WebhookStatusIrrelevant | lambda_function.py:88-97 | whatever the webhook answers, the returned records are the same, and the calls are the same except for whether each post is logged as delivered |
| Aggregate.Lookups | lambda_function.py:84-85 | the k-th lookup is the lookup of the k-th search string, one per search string, none of which posts to the webhook |
| Aggregate.PlacesInfo | lambda_function.py:82-89 | `get_places_info`, the loop `Gather` over `Lookups` of the search strings: it fails exactly when some search string's lookup returns `None`; otherwise the webhook received exactly the returned records, once each and in order; every post, on success or failure, goes to the given URL |
| Aggregate.PlacesInfoTrace | lambda_function.py:82-97 | when every search string's lookup returns a list, the calls are, search string by search string in order, that string's lookup calls followed by one post per record it found to the given URL |
| Aggregate.PlacesInfoConcat | lambda_function.py:82-89 | when every search string's lookup returns a list, `get_places_info` returns those lists concatenated in the order of the search strings |
| Aggregate.PlacesInfoSingle | lambda_function.py:82-89 | for one search string, the result is exactly that string's lookup result |
| Handler.LambdaHandler | lambda_function.py:99-130 | the replies are 200 or 400; every 400 is made before any remote call; a missing or empty body gives "Request body is missing.", otherwise an undecodable body gives "Invalid JSON format.", otherwise a non-object body crashes with `AttributeError`, otherwise a falsy field gives the missing-fields message; for a valid request, a non-iterable search list crashes with `TypeError` before any call, and otherwise the calls are those of `get_places_info` over the iterated search strings and the outcome is 200 with its records, or `TypeError` when it fails; a 200 carries exactly the records posted, and every post goes to the request's `webhook_url` |
| Handler.WebhookNeverChangesOutcome | lambda_function.py:82-130 | whatever the webhook answers, the handler's outcome is the same, and its calls differ only in whether each post is logged as delivered |
| Handler.SingleSearch | lambda_function.py:115-130 | a valid request for one search string answers 200 with that string's records when its lookup succeeds, and otherwise crashes with `TypeError` after only that lookup's calls (no structured error for geocode or find-place failure) |

## Left out

- Network calls (`requests.get`, `requests.post`): their answers are inputs (`Upstream`, `Webhook`). Transport exceptions and timeouts are not modelled.
- The upstream answers are functions of the request parameters. A service that answers the repeated geocode of the same location differently across search strings is not captured.
- `json.loads` is an oracle (`Parser`). `json.dumps` of the response bodies and of the posted records is not modelled; bodies are kept as values.
- A 200 upstream response whose body is not JSON (`.json()` raising) is not modelled. The same goes for KeyErrors on malformed payloads (`results[0]['geometry']`, `candidate['place_id']`) and for a JSON `null` under `result` or `formatted_address` (AttributeError).
- An event `body` that is not a string (`json.loads` raising `TypeError`) is not modelled.
- Latitude/longitude are carried as reals and only passed on as the find-place bias. The `point:{lat},{lng}` string formatting is not modelled.
- JSON numbers are reals; integers and floats are not distinguished. Ratings are only copied.
- Dictionaries are key/value lists in insertion order. The parser oracle is responsible for giving each key once, as `json.loads` does.
- The `print` logging in `send_to_webhook` is kept only as the `delivered` flag on each webhook post in the trace.
- The hardcoded API key placeholder (lambda_function.py:118) and the `__main__` example (lambda_function.py:133-143).
- StrSplit.Split: requires a non-empty separator. Python raises `ValueError` for an empty one, and the code only ever splits on ", ".
