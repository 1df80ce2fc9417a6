/**
 `get_places_info` and `send_to_webhook`: look up every search string in
 order, append each record to the result and post it to the webhook right
 away. A lookup that returns `None` makes the loop fail with a `TypeError`
 (iterating `None`), after the earlier records were already posted.
 */
module Aggregate {
  import opened Wrappers
  import opened PyJson
  import opened PlaceRecords
  import opened Lookup

  /** The webhook endpoint's answer: the status code a POST of a record gets. */
  type Webhook = (Json, PlaceRecord) -> int

  /**
   `send_to_webhook` applied to each record in turn: one POST per record, in
   order; the status only decides which line is logged.
   */
  function Forward(records: seq<PlaceRecord>, url: Json, webhook: Webhook): (calls: seq<Call>)
    ensures |calls| == |records|
    ensures forall i {:trigger calls[i]} :: 0 <= i < |records| ==>
              calls[i] == WebhookPost(url, records[i], webhook(url, records[i]) == 200)
    decreases |records|
  {
    if |records| == 0 then []
    else
      [WebhookPost(url, records[0], webhook(url, records[0]) == 200)] + Forward(records[1..], url, webhook)
  }

  /** The records posted to the webhook, in the order of the posts. */
  function Posted(calls: seq<Call>): seq<PlaceRecord>
    decreases |calls|
  {
    if |calls| == 0 then []
    else (if calls[0].WebhookPost? then [calls[0].record] else []) + Posted(calls[1..])
  }

  lemma {:induction false} PostedAppend(a: seq<Call>, b: seq<Call>)
    ensures Posted(a + b) == Posted(a) + Posted(b)
    decreases |a|
  {
    if |a| == 0 {
      assert a + b == b;
    } else {
      PostedAppend(a[1..], b);
      assert (a + b)[1..] == a[1..] + b;
    }
  }

  /** Forwarding posts every record exactly once, in order. */
  lemma {:induction false} PostedForward(records: seq<PlaceRecord>, url: Json, webhook: Webhook)
    ensures Posted(Forward(records, url, webhook)) == records
    decreases |records|
  {
    if |records| > 0 {
      PostedForward(records[1..], url, webhook);
      var calls := Forward(records, url, webhook);
      assert calls[1..] == Forward(records[1..], url, webhook);
    }
  }

  /** A trace of lookups alone posts nothing. */
  lemma {:induction false} PostedNone(calls: seq<Call>)
    requires forall c :: c in calls ==> IsLookupCall(c)
    ensures Posted(calls) == []
    decreases |calls|
  {
    if |calls| > 0 {
      assert calls[0] in calls;
      assert forall c :: c in calls[1..] ==> c in calls;
      PostedNone(calls[1..]);
    }
  }

  /** The trace holds no webhook post. */
  predicate LookupOnly(calls: seq<Call>) {
    forall c :: c in calls ==> IsLookupCall(c)
  }

  /** The aggregated records (`None` when the loop failed) and every call made. */
  datatype Aggregated = Aggregated(places: Option<seq<PlaceRecord>>, calls: seq<Call>)

  /**
   The loop of `get_places_info` over the lookups' outcomes, in order: a failed
   lookup stops the loop; otherwise each of its records is posted, and the
   records are appended to the result.
   */
  function Gather(looked: seq<Looked>, url: Json, webhook: Webhook): (r: Aggregated)
    decreases |looked|
  {
    if |looked| == 0 then Aggregated(Some([]), [])
    else
      var one := looked[0];
      if one.records.None? then Aggregated(None, one.calls)
      else
        var posts := Forward(one.records.value, url, webhook);
        var rest := Gather(looked[1..], url, webhook);
        Aggregated(
          if rest.places.None? then None else Some(one.records.value + rest.places.value),
          one.calls + posts + rest.calls)
  }

  /** The loop fails exactly when one of the lookups failed. */
  lemma {:induction false} GatherFails(looked: seq<Looked>, url: Json, webhook: Webhook)
    ensures Gather(looked, url, webhook).places.None? <==> exists k :: 0 <= k < |looked| && looked[k].records.None?
    decreases |looked|
  {
    if |looked| > 0 {
      GatherFails(looked[1..], url, webhook);
      if looked[0].records.Some? {
        assert forall k :: 1 <= k < |looked| ==> looked[k] == looked[1..][k - 1];
        if exists k :: 0 <= k < |looked| && looked[k].records.None? {
          var k :| 0 <= k < |looked| && looked[k].records.None?;
          assert looked[1..][k - 1].records.None?;
        }
      }
    }
  }

  /**
   When the loop succeeds and no lookup posted anything itself, the webhook
   received exactly the returned records, each once and in the same order.
   */
  lemma {:induction false} GatherPosted(looked: seq<Looked>, url: Json, webhook: Webhook)
    requires forall k :: 0 <= k < |looked| ==> LookupOnly(looked[k].calls)
    ensures var r := Gather(looked, url, webhook);
            r.places.Some? ==> Posted(r.calls) == r.places.value
    decreases |looked|
  {
    if |looked| > 0 && looked[0].records.Some? {
      var one := looked[0];
      var posts := Forward(one.records.value, url, webhook);
      GatherPosted(looked[1..], url, webhook);
      PostedNone(one.calls);
      PostedForward(one.records.value, url, webhook);
      PostedAppend(one.calls, posts);
      PostedAppend(one.calls + posts, Gather(looked[1..], url, webhook).calls);
    }
  }

  /** If the first part fails, the loop over a concatenation fails right there with the same calls. */
  lemma {:induction false} GatherAppendFails(a: seq<Looked>, b: seq<Looked>, url: Json, webhook: Webhook)
    requires Gather(a, url, webhook).places.None?
    ensures Gather(a + b, url, webhook) == Gather(a, url, webhook)
    decreases |a|
  {
    var ab := a + b;
    assert ab[0] == a[0] && ab[1..] == a[1..] + b;
    if a[0].records.Some? {
      GatherAppendFails(a[1..], b, url, webhook);
    }
  }

  /**
   If the first part succeeds, the loop over a concatenation makes the first
   part's calls followed by the second's, and succeeds exactly when the second
   part does, with the first part's records followed by the second's.
   */
  lemma {:induction false} GatherAppend(a: seq<Looked>, b: seq<Looked>, url: Json, webhook: Webhook)
    requires Gather(a, url, webhook).places.Some?
    ensures var ra, rb := Gather(a, url, webhook), Gather(b, url, webhook);
            Gather(a + b, url, webhook).calls == ra.calls + rb.calls
    ensures var ra, rb := Gather(a, url, webhook), Gather(b, url, webhook);
            Gather(a + b, url, webhook).places
            == if rb.places.None? then None else Some(ra.places.value + rb.places.value)
    decreases |a|
  {
    var rb := Gather(b, url, webhook);
    if |a| == 0 {
      assert a + b == b;
      assert [] + rb.calls == rb.calls;
      if rb.places.Some? {
        assert [] + rb.places.value == rb.places.value;
      }
    } else {
      var ab := a + b;
      assert ab[0] == a[0] && ab[1..] == a[1..] + b;
      GatherAppend(a[1..], b, url, webhook);
      var one := a[0];
      var posts := Forward(one.records.value, url, webhook);
      var ra' := Gather(a[1..], url, webhook);
      assert one.calls + posts + (ra'.calls + rb.calls) == (one.calls + posts + ra'.calls) + rb.calls;
      if rb.places.Some? {
        assert one.records.value + (ra'.places.value + rb.places.value)
            == (one.records.value + ra'.places.value) + rb.places.value;
      }
    }
  }

  /** The lists concatenated in order. */
  function Concat<T>(lists: seq<seq<T>>): seq<T>
    decreases |lists|
  {
    if |lists| == 0 then [] else lists[0] + Concat(lists[1..])
  }

  /** Every lookup returned a list. */
  predicate AllFound(looked: seq<Looked>) {
    forall k :: 0 <= k < |looked| ==> looked[k].records.Some?
  }

  /** When every lookup returned a list, the loop returns their concatenation in order. */
  lemma {:induction false} GatherConcat(looked: seq<Looked>, url: Json, webhook: Webhook)
    requires AllFound(looked)
    ensures Gather(looked, url, webhook).places
            == Some(Concat(seq(|looked|, k requires 0 <= k < |looked| => looked[k].records.value)))
    decreases |looked|
  {
    var lists := seq(|looked|, k requires 0 <= k < |looked| => looked[k].records.value);
    if |looked| > 0 {
      var rest := looked[1..];
      assert AllFound(rest) by {
        assert forall k :: 0 <= k < |rest| ==> rest[k] == looked[k + 1];
      }
      GatherConcat(rest, url, webhook);
      assert lists[1..] == seq(|rest|, k requires 0 <= k < |rest| => rest[k].records.value);
    }
  }

  /**
   When every lookup returned a list, the loop's calls are, lookup by lookup
   and in order, that lookup's own calls followed by one post per record.
   */
  lemma {:induction false} GatherTrace(looked: seq<Looked>, url: Json, webhook: Webhook)
    requires AllFound(looked)
    ensures Gather(looked, url, webhook).calls
            == Concat(seq(|looked|, k requires 0 <= k < |looked| && looked[k].records.Some? =>
                            looked[k].calls + Forward(looked[k].records.value, url, webhook)))
    decreases |looked|
  {
    var steps := seq(|looked|, k requires 0 <= k < |looked| && looked[k].records.Some? =>
                       looked[k].calls + Forward(looked[k].records.value, url, webhook));
    if |looked| > 0 {
      var rest := looked[1..];
      assert AllFound(rest) by {
        assert forall k :: 0 <= k < |rest| ==> rest[k] == looked[k + 1];
      }
      GatherTrace(rest, url, webhook);
      assert steps[1..] == seq(|rest|, k requires 0 <= k < |rest| && rest[k].records.Some? =>
                                 rest[k].calls + Forward(rest[k].records.value, url, webhook));
      var one := looked[0];
      var posts := Forward(one.records.value, url, webhook);
      assert one.calls + posts + Gather(rest, url, webhook).calls
          == (one.calls + posts) + Concat(steps[1..]);
    }
  }

  /** Every webhook post in the trace goes to `url`. */
  predicate PostsOnlyTo(calls: seq<Call>, url: Json) {
    forall i :: 0 <= i < |calls| && calls[i].WebhookPost? ==> calls[i].url == url
  }

  /** When no lookup posts by itself, every post the loop makes goes to the given URL. */
  lemma {:induction false} GatherPostsTo(looked: seq<Looked>, url: Json, webhook: Webhook)
    requires forall k :: 0 <= k < |looked| ==> LookupOnly(looked[k].calls)
    ensures PostsOnlyTo(Gather(looked, url, webhook).calls, url)
    decreases |looked|
  {
    if |looked| > 0 {
      var one := looked[0];
      assert LookupOnly(one.calls);
      assert forall i :: 0 <= i < |one.calls| ==> one.calls[i] in one.calls;
      if one.records.Some? {
        GatherPostsTo(looked[1..], url, webhook);
        var posts := Forward(one.records.value, url, webhook);
        var rest := Gather(looked[1..], url, webhook).calls;
        var all := one.calls + posts + rest;
        forall i | 0 <= i < |all| && all[i].WebhookPost?
          ensures all[i].url == url
        {
          if |one.calls| <= i < |one.calls| + |posts| {
            assert all[i] == posts[i - |one.calls|];
          } else if |one.calls| + |posts| <= i {
            assert all[i] == rest[i - |one.calls| - |posts|];
          }
        }
      }
    }
  }

  /**
   When the loop fails at the first failing lookup `k`, the records of the
   lookups before it have already been posted, each once and in order, and
   nothing after it was looked up or posted.
   */
  lemma GatherPostedBeforeFailure(looked: seq<Looked>, k: nat, url: Json, webhook: Webhook)
    requires k < |looked| && looked[k].records.None?
    requires AllFound(looked[..k])
    requires forall j :: 0 <= j < |looked| ==> LookupOnly(looked[j].calls)
    ensures var r, before := Gather(looked, url, webhook), Gather(looked[..k], url, webhook);
            && r.places.None?
            && before.places.Some?
            && r.calls == before.calls + looked[k].calls
            && Posted(r.calls) == before.places.value
  {
    var before := looked[..k];
    var after := looked[k..];
    assert looked == before + after;
    assert after[0] == looked[k];
    GatherFails(before, url, webhook);
    GatherPosted(before, url, webhook);
    GatherAppend(before, after, url, webhook);
    PostedAppend(Gather(before, url, webhook).calls, looked[k].calls);
    PostedNone(looked[k].calls);
  }

  /**
   Two traces make the same calls, except that a webhook post may be logged
   as delivered in one and as failed in the other.
   */
  predicate SameUpToDelivery(c1: seq<Call>, c2: seq<Call>) {
    && |c1| == |c2|
    && forall i :: 0 <= i < |c1| ==>
         && (c1[i].WebhookPost? <==> c2[i].WebhookPost?)
         && (c1[i].WebhookPost? ==> c1[i].url == c2[i].url && c1[i].record == c2[i].record)
         && (!c1[i].WebhookPost? ==> c1[i] == c2[i])
  }

  lemma SameUpToDeliveryAppend(a1: seq<Call>, a2: seq<Call>, b1: seq<Call>, b2: seq<Call>)
    requires SameUpToDelivery(a1, a2) && SameUpToDelivery(b1, b2)
    ensures SameUpToDelivery(a1 + b1, a2 + b2)
  {
  }

  /**
   What the webhook answers never changes the returned records, and changes
   the calls only in whether each post is logged as delivered.
   */
  lemma {:induction false} WebhookStatusIrrelevant(looked: seq<Looked>, url: Json, w1: Webhook, w2: Webhook)
    ensures Gather(looked, url, w1).places == Gather(looked, url, w2).places
    ensures SameUpToDelivery(Gather(looked, url, w1).calls, Gather(looked, url, w2).calls)
    decreases |looked|
  {
    if |looked| > 0 {
      WebhookStatusIrrelevant(looked[1..], url, w1, w2);
      var one := looked[0];
      assert SameUpToDelivery(one.calls, one.calls);
      if one.records.Some? {
        var p1, p2 := Forward(one.records.value, url, w1), Forward(one.records.value, url, w2);
        assert SameUpToDelivery(p1, p2);
        SameUpToDeliveryAppend(one.calls, one.calls, p1, p2);
        SameUpToDeliveryAppend(one.calls + p1, one.calls + p2,
                               Gather(looked[1..], url, w1).calls, Gather(looked[1..], url, w2).calls);
      }
    }
  }

  /** The outcome of looking up each search string, in order. */
  function Lookups(searches: seq<Json>, location: Json, up: Upstream): (r: seq<Looked>)
    ensures |r| == |searches|
    ensures forall k :: 0 <= k < |r| ==> r[k] == PlaceLookup(searches[k], location, up)
    ensures forall k :: 0 <= k < |r| ==> LookupOnly(r[k].calls)
  {
    seq(|searches|, k requires 0 <= k < |searches| => PlaceLookup(searches[k], location, up))
  }

  /**
   `get_places_info`: fails (a `TypeError` in the source) exactly when some
   search string's lookup returns `None`; otherwise the webhook received exactly
   the returned records, each once and in the same order.
   */
  function PlacesInfo(searches: seq<Json>, location: Json, url: Json, up: Upstream, webhook: Webhook): (r: Aggregated)
    ensures r.places.None? <==>
              exists k :: 0 <= k < |searches| && PlaceLookup(searches[k], location, up).records.None?
    ensures r.places.Some? ==> Posted(r.calls) == r.places.value
    ensures PostsOnlyTo(r.calls, url)
  {
    var looked := Lookups(searches, location, up);
    GatherFails(looked, url, webhook);
    assert forall k :: 0 <= k < |searches| ==> looked[k] == PlaceLookup(searches[k], location, up);
    GatherPosted(looked, url, webhook);
    GatherPostsTo(looked, url, webhook);
    Gather(looked, url, webhook)
  }

  /** A single search string contributes exactly its lookup's records. */
  lemma PlacesInfoSingle(search: Json, location: Json, url: Json, up: Upstream, webhook: Webhook)
    ensures PlacesInfo([search], location, url, up, webhook).places == PlaceLookup(search, location, up).records
  {
    var looked := Lookups([search], location, up);
    assert looked[1..] == [];
    var one := looked[0];
    assert one == PlaceLookup(search, location, up);
    var r := Gather(looked, url, webhook);
    if one.records.Some? {
      assert Gather(looked[1..], url, webhook) == Aggregated(Some([]), []);
      assert one.records.value + [] == one.records.value;
    }
  }

  /**
   When every search string's lookup returns a list, `get_places_info`
   returns those lists concatenated in the order of the search strings.
   */
  lemma PlacesInfoConcat(searches: seq<Json>, location: Json, url: Json, up: Upstream, webhook: Webhook)
    requires forall k :: 0 <= k < |searches| ==> PlaceLookup(searches[k], location, up).records.Some?
    ensures PlacesInfo(searches, location, url, up, webhook).places
            == Some(Concat(seq(|searches|, k requires 0 <= k < |searches| => PlaceLookup(searches[k], location, up).records.value)))
  {
    var looked := Lookups(searches, location, up);
    GatherConcat(looked, url, webhook);
    assert seq(|looked|, k requires 0 <= k < |looked| => looked[k].records.value)
        == seq(|searches|, k requires 0 <= k < |searches| => PlaceLookup(searches[k], location, up).records.value);
  }

  /**
   When every search string's lookup returns a list, the calls of
   `get_places_info` are, search string by search string and in order, that
   string's lookup calls followed by one post per record it found.
   */
  lemma PlacesInfoTrace(searches: seq<Json>, location: Json, url: Json, up: Upstream, webhook: Webhook)
    requires forall k :: 0 <= k < |searches| ==> PlaceLookup(searches[k], location, up).records.Some?
    ensures PlacesInfo(searches, location, url, up, webhook).calls
            == Concat(seq(|searches|, k requires 0 <= k < |searches| =>
                            PlaceLookup(searches[k], location, up).calls
                            + Forward(PlaceLookup(searches[k], location, up).records.value, url, webhook)))
  {
    var looked := Lookups(searches, location, up);
    GatherTrace(looked, url, webhook);
    assert seq(|looked|, k requires 0 <= k < |looked| && looked[k].records.Some? =>
                 looked[k].calls + Forward(looked[k].records.value, url, webhook))
        == seq(|searches|, k requires 0 <= k < |searches| =>
                 PlaceLookup(searches[k], location, up).calls
                 + Forward(PlaceLookup(searches[k], location, up).records.value, url, webhook));
  }
}
