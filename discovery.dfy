/**
 * The two discovery adapters, on answers already received: the search one
 * (`get_sites_from_serp`) turns the search results of each keyword into a
 * list of links, the maps one (`get_sites_from_maps`) turns the places of
 * each keyword into a list of (website, address, phone) records. A keyword
 * whose request did not answer 200 contributes nothing.
 */
module Discovery {
  import opened Wrappers

  /** One entry of `organicResults`; only its `link` is read. */
  datatype SerpResult = SerpResult(link: Option<string>)

  /** The search provider's answer for one keyword. */
  datatype SerpResponse = SerpResponse(status: int, organicResults: Option<seq<SerpResult>>)

  /** `data.get("organicResults", [])`. */
  function Organic(resp: SerpResponse): seq<SerpResult> {
    resp.organicResults.GetOr([])
  }

  /** The truthy links of a list of search results, in order. */
  function Links(items: seq<SerpResult>): seq<string> {
    if items == [] then []
    else
      var last := items[|items| - 1];
      Links(items[..|items| - 1]) + (if Truthy(last.link) then [last.link.value] else [])
  }

  /** What one keyword adds to the list of links. */
  function KeywordLinks(resp: SerpResponse): seq<string> {
    if resp.status == 200 then Links(Organic(resp)) else []
  }

  /** The links of all keywords: keyword by keyword, result by result. */
  function SerpUrls(responses: seq<SerpResponse>): seq<string> {
    if responses == [] then []
    else SerpUrls(responses[..|responses| - 1]) + KeywordLinks(responses[|responses| - 1])
  }

  /** The result loop of `get_sites_from_serp`. */
  method CollectSerpUrls(responses: seq<SerpResponse>) returns (urls: seq<string>)
    ensures urls == SerpUrls(responses)
  {
    urls := [];
    for k := 0 to |responses|
      invariant urls == SerpUrls(responses[..k])
    {
      assert responses[..k + 1][..k] == responses[..k];
      var resp := responses[k];
      if resp.status == 200 {
        var items := resp.organicResults.GetOr([]);
        for j := 0 to |items|
          invariant urls == SerpUrls(responses[..k]) + Links(items[..j])
        {
          assert items[..j + 1][..j] == items[..j];
          var link := items[j].link;
          if Truthy(link) {
            urls := urls + [link.value];
          }
        }
        assert items[..|items|] == items;
      }
    }
    assert responses[..|responses|] == responses;
  }

  lemma {:induction false} LinksMembership(items: seq<SerpResult>, u: string)
    ensures u in Links(items) <==>
              exists j :: 0 <= j < |items| && items[j].link == Some(u) && u != ""
    decreases |items|
  {
    if items != [] {
      var init := items[..|items| - 1];
      LinksMembership(init, u);
      if exists j :: 0 <= j < |init| && init[j].link == Some(u) && u != "" {
        var j :| 0 <= j < |init| && init[j].link == Some(u) && u != "";
        assert items[j] == init[j];
      }
      if exists j :: 0 <= j < |items| && items[j].link == Some(u) && u != "" {
        var j :| 0 <= j < |items| && items[j].link == Some(u) && u != "";
        if j < |init| {
          assert init[j] == items[j];
        }
      }
    }
  }

  /**
   * A link is returned exactly when some keyword answered 200 with a search
   * result whose `link` is that (non-empty) string.
   */
  lemma {:induction false} SerpUrlsMembership(responses: seq<SerpResponse>, u: string)
    ensures u in SerpUrls(responses) <==>
              exists k, j :: 0 <= k < |responses| && responses[k].status == 200
                && 0 <= j < |Organic(responses[k])|
                && Organic(responses[k])[j].link == Some(u) && u != ""
    decreases |responses|
  {
    if responses != [] {
      var init := responses[..|responses| - 1];
      var last := responses[|responses| - 1];
      SerpUrlsMembership(init, u);
      LinksMembership(Organic(last), u);
      if exists k, j :: 0 <= k < |init| && init[k].status == 200
           && 0 <= j < |Organic(init[k])| && Organic(init[k])[j].link == Some(u) && u != "" {
        var k, j :| 0 <= k < |init| && init[k].status == 200
           && 0 <= j < |Organic(init[k])| && Organic(init[k])[j].link == Some(u) && u != "";
        assert responses[k] == init[k];
      }
      if exists k, j :: 0 <= k < |responses| && responses[k].status == 200
           && 0 <= j < |Organic(responses[k])| && Organic(responses[k])[j].link == Some(u) && u != "" {
        var k, j :| 0 <= k < |responses| && responses[k].status == 200
           && 0 <= j < |Organic(responses[k])| && Organic(responses[k])[j].link == Some(u) && u != "";
        if k < |init| {
          assert init[k] == responses[k];
        }
      }
    }
  }

  /** Keyword order is kept: the links of two batches of keywords are the two lists joined. */
  lemma {:induction false} SerpUrlsAppend(a: seq<SerpResponse>, b: seq<SerpResponse>)
    ensures SerpUrls(a + b) == SerpUrls(a) + SerpUrls(b)
    decreases |b|
  {
    if b == [] {
      assert a + b == a;
    } else {
      assert (a + b)[..|a + b| - 1] == a + b[..|b| - 1];
      SerpUrlsAppend(a, b[..|b| - 1]);
    }
  }

  /** When every keyword failed or found nothing, the list is empty and nothing is raised. */
  lemma {:induction false} SerpUrlsNoResults(responses: seq<SerpResponse>)
    requires forall k :: 0 <= k < |responses| ==>
               responses[k].status != 200 || Organic(responses[k]) == []
    ensures SerpUrls(responses) == []
    decreases |responses|
  {
    if responses != [] {
      SerpUrlsNoResults(responses[..|responses| - 1]);
    }
  }

  /** One entry of `localResults`, reduced to the three keys that are read. */
  datatype Place = Place(website: Option<string>, address: Option<string>, phone: Option<string>)

  /** The maps provider's answer for one keyword. */
  datatype MapsResponse = MapsResponse(status: int, localResults: Option<seq<Place>>)

  /** `data.get("localResults", [])`. */
  function Local(resp: MapsResponse): seq<Place> {
    resp.localResults.GetOr([])
  }

  /** A place is kept when at least one of website, address and phone is truthy. */
  predicate HasContact(p: Place) {
    Truthy(p.website) || Truthy(p.address) || Truthy(p.phone)
  }

  /** The places of one list worth keeping, in order. */
  function Kept(places: seq<Place>): seq<Place> {
    if places == [] then []
    else
      var last := places[|places| - 1];
      Kept(places[..|places| - 1]) + (if HasContact(last) then [last] else [])
  }

  /** What one keyword adds to the list of places. */
  function KeywordPlaces(resp: MapsResponse): seq<Place> {
    if resp.status == 200 then Kept(Local(resp)) else []
  }

  /** The places of all keywords: keyword by keyword, place by place. */
  function MapsPlaces(responses: seq<MapsResponse>): seq<Place> {
    if responses == [] then []
    else MapsPlaces(responses[..|responses| - 1]) + KeywordPlaces(responses[|responses| - 1])
  }

  /** The result loop of `get_sites_from_maps`. */
  method CollectMapsPlaces(responses: seq<MapsResponse>) returns (results: seq<Place>)
    ensures results == MapsPlaces(responses)
  {
    results := [];
    for k := 0 to |responses|
      invariant results == MapsPlaces(responses[..k])
    {
      assert responses[..k + 1][..k] == responses[..k];
      var resp := responses[k];
      if resp.status == 200 {
        var places := resp.localResults.GetOr([]);
        for j := 0 to |places|
          invariant results == MapsPlaces(responses[..k]) + Kept(places[..j])
        {
          assert places[..j + 1][..j] == places[..j];
          var place := places[j];
          if HasContact(place) {
            results := results + [Place(place.website, place.address, place.phone)];
          }
        }
        assert places[..|places|] == places;
      }
    }
    assert responses[..|responses|] == responses;
  }

  lemma {:induction false} KeptMembership(places: seq<Place>, p: Place)
    ensures p in Kept(places) <==> p in places && HasContact(p)
    decreases |places|
  {
    if places != [] {
      var init := places[..|places| - 1];
      KeptMembership(init, p);
      assert places == init + [places[|places| - 1]];
    }
  }

  /**
   * A place is returned exactly when some keyword answered 200 with that
   * place among its results and the place has a website, address or phone.
   */
  lemma {:induction false} MapsPlacesMembership(responses: seq<MapsResponse>, p: Place)
    ensures p in MapsPlaces(responses) <==>
              HasContact(p)
              && exists k :: 0 <= k < |responses| && responses[k].status == 200 && p in Local(responses[k])
    decreases |responses|
  {
    if responses != [] {
      var init := responses[..|responses| - 1];
      var last := responses[|responses| - 1];
      MapsPlacesMembership(init, p);
      KeptMembership(Local(last), p);
      if exists k :: 0 <= k < |init| && init[k].status == 200 && p in Local(init[k]) {
        var k :| 0 <= k < |init| && init[k].status == 200 && p in Local(init[k]);
        assert responses[k] == init[k];
      }
      if exists k :: 0 <= k < |responses| && responses[k].status == 200 && p in Local(responses[k]) {
        var k :| 0 <= k < |responses| && responses[k].status == 200 && p in Local(responses[k]);
        if k < |init| {
          assert init[k] == responses[k];
        }
      }
    }
  }

  /** Every place returned has a website, address or phone. */
  lemma MapsPlacesHaveContact(responses: seq<MapsResponse>)
    ensures forall p :: p in MapsPlaces(responses) ==> HasContact(p)
  {
    forall p | p in MapsPlaces(responses)
      ensures HasContact(p)
    {
      MapsPlacesMembership(responses, p);
    }
  }

  /**
   * The websites the maps mode scrapes: the truthy `website` of every place,
   * in order.
   */
  function SiteUrls(places: seq<Place>): (urls: seq<string>)
    ensures |urls| <= |places|
    ensures forall i :: 0 <= i < |urls| ==> urls[i] != ""
  {
    if places == [] then []
    else
      var last := places[|places| - 1];
      SiteUrls(places[..|places| - 1]) + (if Truthy(last.website) then [last.website.value] else [])
  }

  /**
   * Each website scraped in maps mode is the website of a place, listed at
   * or after that place's position.
   */
  lemma {:induction false} SiteUrlsFromPlaces(places: seq<Place>)
    ensures forall i :: 0 <= i < |SiteUrls(places)| ==>
              exists j :: i <= j < |places| && places[j].website == Some(SiteUrls(places)[i])
    decreases |places|
  {
    if places != [] {
      var init := places[..|places| - 1];
      SiteUrlsFromPlaces(init);
      var us := SiteUrls(places);
      forall i | 0 <= i < |us|
        ensures exists j :: i <= j < |places| && places[j].website == Some(us[i])
      {
        if i < |SiteUrls(init)| {
          var j :| i <= j < |init| && init[j].website == Some(SiteUrls(init)[i]);
          assert places[j] == init[j] && us[i] == SiteUrls(init)[i];
        } else {
          assert places[|places| - 1].website == Some(us[i]);
        }
      }
    } else {
      assert SiteUrls(places) == [];
    }
  }

  /** Every truthy website of a place is scraped. */
  lemma {:induction false} SiteUrlsComplete(places: seq<Place>, j: int)
    requires 0 <= j < |places| && Truthy(places[j].website)
    ensures places[j].website.value in SiteUrls(places)
    decreases |places|
  {
    if j < |places| - 1 {
      var init := places[..|places| - 1];
      assert init[j] == places[j];
      SiteUrlsComplete(init, j);
    }
  }

  /** Place order is kept: the websites of two lists of places are the two lists joined. */
  lemma {:induction false} SiteUrlsAppend(a: seq<Place>, b: seq<Place>)
    ensures SiteUrls(a + b) == SiteUrls(a) + SiteUrls(b)
    decreases |b|
  {
    if b == [] {
      assert a + b == a;
    } else {
      assert (a + b)[..|a + b| - 1] == a + b[..|b| - 1];
      SiteUrlsAppend(a, b[..|b| - 1]);
    }
  }
}
