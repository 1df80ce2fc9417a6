/**
 The mapping from one place-details result to the record the service emits:
 the formatted address is split on ", " into street, city, state and country
 code by position, the category is the first of the place's types, and the
 remaining fields are copied through.
 */
module PlaceRecords {
  import opened Wrappers
  import opened StrSplit

  /** The details the place-details call returns for one place; absent keys are `None`. */
  datatype PlaceDetails = PlaceDetails(
    name: Option<string>,
    rating: Option<real>,
    userRatingsTotal: Option<int>,
    formattedAddress: Option<string>,
    website: Option<string>,
    phone: Option<string>,
    types: Option<seq<string>>,
    url: Option<string>)

  datatype Address = Address(
    street: Option<string>,
    city: Option<string>,
    state: Option<string>,
    countryCode: Option<string>)

  /** The record forwarded to the webhook and returned to the caller. */
  datatype PlaceRecord = PlaceRecord(
    title: Option<string>,
    totalScore: Option<real>,
    reviewsCount: Option<int>,
    street: Option<string>,
    city: Option<string>,
    state: Option<string>,
    countryCode: Option<string>,
    website: Option<string>,
    phone: Option<string>,
    categoryName: Option<string>,
    url: Option<string>)

  /** The address text that is split: a missing formatted address counts as "". */
  function AddressText(formatted: Option<string>): string {
    formatted.GetOr("")
  }

  /** `parts[i] if len(parts) > i else None` */
  function Segment(parts: seq<string>, i: nat): Option<string> {
    if |parts| > i then Some(parts[i]) else None
  }

  /**
   Splits a formatted address into its first four ", "-separated segments.
   The street is always present; the city, state and country code are absent
   exactly when the address has fewer than one, two or three ", " separators.
   */
  function SplitAddress(formatted: Option<string>): (a: Address)
    ensures a.street.Some?
    ensures formatted.None? ==> a == Address(Some(""), None, None, None)
    ensures a.city.None? <==> CountSep(AddressText(formatted)) < 1
    ensures a.state.None? <==> CountSep(AddressText(formatted)) < 2
    ensures a.countryCode.None? <==> CountSep(AddressText(formatted)) < 3
    ensures CountSep(AddressText(formatted)) == 0 ==>
              a == Address(Some(AddressText(formatted)), None, None, None)
    ensures forall f :: f in [a.street, a.city, a.state, a.countryCode] && f.Some? ==> CountSep(f.value) == 0
  {
    var text := AddressText(formatted);
    var parts := Split(text, Sep);
    SplitCount(text);
    JoinSplit(text, Sep);
    SplitPartsAvoidSep(text);
    Address(Segment(parts, 0), Segment(parts, 1), Segment(parts, 2), Segment(parts, 3))
  }

  /** The present address fields, in order. */
  function Present(a: Address): seq<string> {
    (if a.street.Some? then [a.street.value] else [])
    + (if a.city.Some? then [a.city.value] else [])
    + (if a.state.Some? then [a.state.value] else [])
    + (if a.countryCode.Some? then [a.countryCode.value] else [])
  }

  /** The present fields are the first (at most four) segments of the split. */
  lemma PresentIsSplitPrefix(formatted: Option<string>)
    ensures var parts := Split(AddressText(formatted), Sep);
            Present(SplitAddress(formatted)) == parts[..if |parts| < 4 then |parts| else 4]
  {
  }

  /**
   Joining the present fields with ", " gives back the formatted address exactly
   when it has at most three separators; with more, the segments after the
   fourth are what is lost.
   */
  lemma AddressRoundTrip(formatted: Option<string>)
    ensures var text := AddressText(formatted);
            Join(Present(SplitAddress(formatted)), Sep) == text <==> CountSep(text) <= 3
    ensures var text := AddressText(formatted);
            var parts := Split(text, Sep);
            CountSep(text) > 3 ==>
              Join(Present(SplitAddress(formatted)), Sep) + Sep + Join(parts[4..], Sep) == text
  {
    var text := AddressText(formatted);
    var parts := Split(text, Sep);
    SplitCount(text);
    JoinSplit(text, Sep);
    PresentIsSplitPrefix(formatted);
    if |parts| > 4 {
      JoinAppend(parts[..4], parts[4..], Sep);
      assert parts[..4] + parts[4..] == parts;
    } else {
      assert parts[..|parts|] == parts;
    }
  }

  /**
   An address assembled from one to four ", "-free fields splits back into
   exactly those fields, in order, the missing positions being `None`.
   */
  lemma SplitAddressOfFields(fields: seq<string>)
    requires 1 <= |fields| <= 4
    requires forall k :: 0 <= k < |fields| ==> CountSep(fields[k]) == 0
    ensures SplitAddress(Some(Join(fields, Sep)))
            == Address(Segment(fields, 0), Segment(fields, 1), Segment(fields, 2), Segment(fields, 3))
  {
    SplitJoin(fields);
  }

  /**
   A four-part address splits into its four fields. The literals come in as
   parameters pinned by `requires`, because written inside the call they make
   the solver unfold the split far enough to run out of resources.
   */
  lemma FullAddressExample(address: string, fields: seq<string>)
    requires address == "123 Main St, Springfield, IL, US"
    requires fields == ["123 Main St", "Springfield", "IL", "US"]
    ensures SplitAddress(Some(address)) == Address(Some(fields[0]), Some(fields[1]), Some(fields[2]), Some(fields[3]))
  {
    forall k | 0 <= k < |fields|
      ensures CountSep(fields[k]) == 0
    {
      NoCommaNoSep(fields[k]);
    }
    ExampleJoin(address, fields);
    SplitAddressOfFields(fields);
  }

  /** The four example fields joined with ", " give the example address (literals passed as in `FullAddressExample`). */
  lemma ExampleJoin(address: string, fields: seq<string>)
    requires address == "123 Main St, Springfield, IL, US"
    requires fields == ["123 Main St", "Springfield", "IL", "US"]
    ensures Join(fields, Sep) == address
  {
    assert fields[1..][1..][1..] == ["US"];
    assert Join(fields[1..][1..], Sep) == "IL, US";
    assert Join(fields[1..], Sep) == "Springfield, IL, US";
  }

  /** A street-only address leaves the other fields `None`. */
  lemma StreetOnlyExample()
    ensures SplitAddress(Some("123 Main St")) == Address(Some("123 Main St"), None, None, None)
  {
    NoCommaNoSep("123 Main St");
  }

  /** `types[0] if types else None` */
  function Category(types: Option<seq<string>>): (c: Option<string>)
    ensures c.Some? <==> types.Some? && |types.value| > 0
    ensures c.Some? ==> c.value == types.value[0]
  {
    if types.Some? && |types.value| > 0 then Some(types.value[0]) else None
  }

  /** Builds the record for one place. */
  function ToRecord(p: PlaceDetails): (r: PlaceRecord)
    ensures r.street.Some?
    ensures Address(r.street, r.city, r.state, r.countryCode) == SplitAddress(p.formattedAddress)
    ensures r.categoryName == Category(p.types)
    ensures && r.title == p.name && r.totalScore == p.rating && r.reviewsCount == p.userRatingsTotal
            && r.website == p.website && r.phone == p.phone && r.url == p.url
  {
    var a := SplitAddress(p.formattedAddress);
    PlaceRecord(
      title := p.name,
      totalScore := p.rating,
      reviewsCount := p.userRatingsTotal,
      street := a.street,
      city := a.city,
      state := a.state,
      countryCode := a.countryCode,
      website := p.website,
      phone := p.phone,
      categoryName := Category(p.types),
      url := p.url)
  }

  /** The address fields of a record. */
  function RecordAddress(r: PlaceRecord): Address {
    Address(r.street, r.city, r.state, r.countryCode)
  }

  /**
   Two places whose records agree agree on everything the record copies, and
   on their address text (a missing address read as `""`) as long as both
   texts have at most three ", " separators: for such addresses the record
   loses nothing beyond the difference between a missing and an empty address.
   */
  lemma ToRecordRecovers(p: PlaceDetails, q: PlaceDetails)
    requires ToRecord(p) == ToRecord(q)
    ensures && p.name == q.name && p.rating == q.rating && p.userRatingsTotal == q.userRatingsTotal
            && p.website == q.website && p.phone == q.phone && p.url == q.url
    ensures CountSep(AddressText(p.formattedAddress)) <= 3 && CountSep(AddressText(q.formattedAddress)) <= 3 ==>
              AddressText(p.formattedAddress) == AddressText(q.formattedAddress)
  {
    AddressRoundTrip(p.formattedAddress);
    AddressRoundTrip(q.formattedAddress);
    assert RecordAddress(ToRecord(p)) == SplitAddress(p.formattedAddress);
    assert RecordAddress(ToRecord(q)) == SplitAddress(q.formattedAddress);
  }
}
