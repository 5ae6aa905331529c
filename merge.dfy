/**
 * The maps-mode merge: the scraped records and the maps places are indexed by
 * the identity key of their website, the last entry with a key winning; then
 * every scraped website yields one row, which starts as the scraped record for
 * its key (or a bare row holding only the website) and takes address and phone
 * from the maps place for its key when that place has a truthy value.
 */
module Merge {
  import opened Wrappers
  import opened Urls
  import opened Scrape
  import opened Discovery

  /** The website an entry is indexed by. */
  function RecordSite(r: ContactRecord): Option<string> {
    Some(r.website)
  }

  function PlaceSite(p: Place): Option<string> {
    p.website
  }

  /**
   * `{key(site(x)): x for x in xs}`: a dictionary comprehension, so the last
   * entry with a key wins.
   */
  function Index<T>(xs: seq<T>, site: T -> Option<string>, key: Option<string> -> Option<string>)
    : (m: map<Option<string>, T>)
    ensures forall i :: 0 <= i < |xs| ==> key(site(xs[i])) in m
    ensures forall k :: k in m ==> m[k] in xs && key(site(m[k])) == k
  {
    if xs == [] then map[]
    else Index(xs[..|xs| - 1], site, key)[key(site(xs[|xs| - 1])) := xs[|xs| - 1]]
  }

  /** The position of the last entry of `xs` whose key is `k`, or -1 when there is none. */
  function LastIndex<T>(xs: seq<T>, site: T -> Option<string>, key: Option<string> -> Option<string>,
                        k: Option<string>): (r: int)
    ensures -1 <= r < |xs|
    ensures 0 <= r ==> key(site(xs[r])) == k
    ensures forall j :: r < j < |xs| ==> key(site(xs[j])) != k
  {
    if xs == [] then -1
    else if key(site(xs[|xs| - 1])) == k then |xs| - 1
    else LastIndex(xs[..|xs| - 1], site, key, k)
  }

  /** The comprehension holds, under each key, exactly the last entry with that key. */
  lemma {:induction false} IndexLastWins<T>(xs: seq<T>, site: T -> Option<string>,
                                            key: Option<string> -> Option<string>, k: Option<string>)
    ensures k in Index(xs, site, key) <==> 0 <= LastIndex(xs, site, key, k)
    ensures k in Index(xs, site, key) ==> Index(xs, site, key)[k] == xs[LastIndex(xs, site, key, k)]
    decreases |xs|
  {
    if xs != [] {
      IndexLastWins(xs[..|xs| - 1], site, key, k);
    }
  }

  /** One merged row; a column the row's dictionary lacks is `None`. */
  datatype Row = Row(
    website: string,
    email: Option<EmailCell>,
    companyName: Option<string>,
    address: Option<string>,
    phone: Option<string>)

  /** `combined.update(record)` on an empty dictionary: all five columns. */
  function ScrapedRow(r: ContactRecord): Row {
    Row(r.website, Some(r.email), Some(r.companyName), Some(r.address), Some(r.phone))
  }

  /**
   * `maps_value or combined.get(column, '')`: a truthy maps value wins, and the
   * result is blank only when neither value is truthy.
   */
  function Prefer(mapsValue: Option<string>, current: Option<string>): (r: string)
    ensures Truthy(mapsValue) ==> r == mapsValue.value
    ensures r == mapsValue.GetOr("") || r == current.GetOr("")
    ensures r != "" <==> Truthy(mapsValue) || Truthy(current)
  {
    if Truthy(mapsValue) then mapsValue.value else current.GetOr("")
  }

  /**
   * The row for `site` when entries are identified by `key`, stated with "the
   * last entry with the site's key" in place of the dictionaries.
   */
  function MergedRow(key: Option<string> -> Option<string>, site: string,
                     scrapedData: seq<ContactRecord>, mapsData: seq<Place>): Row
  {
    var k := key(Some(site));
    var ri := LastIndex(scrapedData, RecordSite, key, k);
    var base := if 0 <= ri then ScrapedRow(scrapedData[ri]) else Row(site, None, None, None, None);
    var pi := LastIndex(mapsData, PlaceSite, key, k);
    if pi < 0 then base
    else
      base.(address := Some(Prefer(mapsData[pi].address, base.address)),
            phone := Some(Prefer(mapsData[pi].phone, base.phone)))
  }

  /** The row the loop body builds from the two dictionaries is the merged row. */
  lemma RowFromIndexes(key: Option<string> -> Option<string>, site: string,
                       scrapedData: seq<ContactRecord>, mapsData: seq<Place>)
    ensures var k := key(Some(site));
            var scrapedDict := Index(scrapedData, RecordSite, key);
            var mapsDict := Index(mapsData, PlaceSite, key);
            var base := if k in scrapedDict then ScrapedRow(scrapedDict[k]) else Row(site, None, None, None, None);
            MergedRow(key, site, scrapedData, mapsData)
            == if k in mapsDict
               then base.(address := Some(Prefer(mapsDict[k].address, base.address)),
                          phone := Some(Prefer(mapsDict[k].phone, base.phone)))
               else base
  {
    IndexLastWins(scrapedData, RecordSite, key, key(Some(site)));
    IndexLastWins(mapsData, PlaceSite, key, key(Some(site)));
  }

  /**
   * The merge loop of the maps mode, for any identity key: index both lists
   * by key, then build one row per scraped website, in order.
   */
  method MergeBy(key: Option<string> -> Option<string>, mapsData: seq<Place>,
                 scrapedData: seq<ContactRecord>, urls: seq<string>)
    returns (results: seq<Row>)
    ensures |results| == |urls|
    ensures forall i :: 0 <= i < |urls| ==> results[i] == MergedRow(key, urls[i], scrapedData, mapsData)
  {
    var mapsDict := Index(mapsData, PlaceSite, key);
    var scrapedDict := Index(scrapedData, RecordSite, key);
    results := [];
    for i := 0 to |urls|
      invariant |results| == i
      invariant forall j :: 0 <= j < i ==> results[j] == MergedRow(key, urls[j], scrapedData, mapsData)
    {
      var site := urls[i];
      var normSite := key(Some(site));
      RowFromIndexes(key, site, scrapedData, mapsData);
      var combined: Row;
      if normSite in scrapedDict {
        combined := ScrapedRow(scrapedDict[normSite]);
      } else {
        combined := Row(site, None, None, None, None);
      }
      if normSite in mapsDict {
        var place := mapsDict[normSite];
        combined := combined.(address := Some(Prefer(place.address, combined.address)),
                              phone := Some(Prefer(place.phone, combined.phone)));
      }
      results := results + [combined];
    }
  }

  /** The maps-mode merge, which identifies websites by `universe_url`. */
  method MergeMaps(mapsData: seq<Place>, scrapedData: seq<ContactRecord>, urls: seq<string>)
    returns (results: seq<Row>)
    ensures |results| == |urls|
    ensures forall i :: 0 <= i < |urls| ==> results[i] == MergedRow(UniverseUrl, urls[i], scrapedData, mapsData)
  {
    results := MergeBy(UniverseUrl, mapsData, scrapedData, urls);
  }

  /**
   * A site whose key has scraped records takes Website, Email and Company
   * Name from the last of them, whatever the maps data says; without maps
   * data for the key its Address and Phone are the record's too.
   */
  lemma RowFromLastRecord(key: Option<string> -> Option<string>, site: string,
                          scrapedData: seq<ContactRecord>, mapsData: seq<Place>, i: int)
    requires 0 <= i < |scrapedData| && key(Some(scrapedData[i].website)) == key(Some(site))
    requires forall j :: i < j < |scrapedData| ==> key(Some(scrapedData[j].website)) != key(Some(site))
    ensures var row := MergedRow(key, site, scrapedData, mapsData);
            && row.website == scrapedData[i].website
            && row.email == Some(scrapedData[i].email)
            && row.companyName == Some(scrapedData[i].companyName)
    ensures (forall j :: 0 <= j < |mapsData| ==> key(mapsData[j].website) != key(Some(site))) ==>
              && MergedRow(key, site, scrapedData, mapsData).address == Some(scrapedData[i].address)
              && MergedRow(key, site, scrapedData, mapsData).phone == Some(scrapedData[i].phone)
  {
    var ri := LastIndex(scrapedData, RecordSite, key, key(Some(site)));
    assert RecordSite(scrapedData[i]) == Some(scrapedData[i].website);
    var pi := LastIndex(mapsData, PlaceSite, key, key(Some(site)));
    if 0 <= pi {
      assert PlaceSite(mapsData[pi]) == mapsData[pi].website;
    }
  }

  /** A site whose key has no scraped record keeps its own spelling and has no Email or Company Name. */
  lemma RowWithoutRecord(key: Option<string> -> Option<string>, site: string,
                         scrapedData: seq<ContactRecord>, mapsData: seq<Place>)
    requires forall j :: 0 <= j < |scrapedData| ==> key(Some(scrapedData[j].website)) != key(Some(site))
    ensures var row := MergedRow(key, site, scrapedData, mapsData);
            row.website == site && row.email.None? && row.companyName.None?
  {
    var ri := LastIndex(scrapedData, RecordSite, key, key(Some(site)));
  }

  /**
   * Address and Phone come from the last maps place with the site's key only
   * when that place's value is truthy; otherwise they keep the value of the
   * last scraped record with that key, or `""` when there is none.
   */
  lemma AddressPhonePrecedence(key: Option<string> -> Option<string>, site: string,
                               scrapedData: seq<ContactRecord>, mapsData: seq<Place>, i: int)
    requires 0 <= i < |mapsData| && key(mapsData[i].website) == key(Some(site))
    requires forall j :: i < j < |mapsData| ==> key(mapsData[j].website) != key(Some(site))
    ensures var row := MergedRow(key, site, scrapedData, mapsData);
            var ri := LastIndex(scrapedData, RecordSite, key, key(Some(site)));
            && row.address == Some(if Truthy(mapsData[i].address) then mapsData[i].address.value
                                   else if 0 <= ri then scrapedData[ri].address else "")
            && row.phone == Some(if Truthy(mapsData[i].phone) then mapsData[i].phone.value
                                 else if 0 <= ri then scrapedData[ri].phone else "")
  {
    var pi := LastIndex(mapsData, PlaceSite, key, key(Some(site)));
    assert PlaceSite(mapsData[i]) == mapsData[i].website;
  }

  /**
   * One scraped record and one place for the same website: an empty scraped
   * address is replaced by the place's, and a scraped address survives a
   * place without one.
   */
  lemma AddressOverride(key: Option<string> -> Option<string>, site: string, rec: ContactRecord, place: Place)
    requires key(Some(rec.website)) == key(Some(site)) && key(place.website) == key(Some(site))
    ensures rec.address == "" && Truthy(place.address) ==>
              MergedRow(key, site, [rec], [place]).address == place.address
    ensures rec.address != "" && !Truthy(place.address) ==>
              MergedRow(key, site, [rec], [place]).address == Some(rec.address)
  {
    AddressPhonePrecedence(key, site, [rec], [place], 0);
    assert RecordSite([rec][0]) == Some(rec.website);
  }

  /** Under `universe_url` a place without a website is never the one a site is merged with. */
  lemma MatchedPlaceHasWebsite(site: string, mapsData: seq<Place>)
    ensures var pi := LastIndex(mapsData, PlaceSite, UniverseUrl, UniverseUrl(Some(site)));
            0 <= pi ==> mapsData[pi].website.Some?
  {
    var pi := LastIndex(mapsData, PlaceSite, UniverseUrl, UniverseUrl(Some(site)));
    if 0 <= pi {
      assert UniverseUrl(PlaceSite(mapsData[pi])).Some?;
    }
  }

  /** The maps data can change only the Address and Phone of a row. */
  lemma MapsTouchOnlyAddressPhone(key: Option<string> -> Option<string>, site: string,
                                  scrapedData: seq<ContactRecord>, mapsData: seq<Place>)
    ensures var row := MergedRow(key, site, scrapedData, mapsData);
            var plain := MergedRow(key, site, scrapedData, []);
            row == plain.(address := row.address, phone := row.phone)
  {
  }

  /** Two sites with the same key and a scraped record for it get identical rows. */
  lemma SameKeySameRow(key: Option<string> -> Option<string>, s1: string, s2: string,
                       scrapedData: seq<ContactRecord>, mapsData: seq<Place>, i: int)
    requires key(Some(s1)) == key(Some(s2))
    requires 0 <= i < |scrapedData| && key(Some(scrapedData[i].website)) == key(Some(s1))
    ensures MergedRow(key, s1, scrapedData, mapsData) == MergedRow(key, s2, scrapedData, mapsData)
  {
    assert RecordSite(scrapedData[i]) == Some(scrapedData[i].website);
  }

  /**
   * Any two spellings of one host that differ in scheme, a `www.` prefix or a
   * trailing slash are one website to the merge, once the host has been scraped.
   */
  lemma SpellingsShareRow(h: string, scheme: string, www: string, slash: string,
                          scrapedData: seq<ContactRecord>, mapsData: seq<Place>, i: int)
    requires PlainHost(h)
    requires scheme == "" || scheme == "http://" || scheme == "https://"
    requires www == "" || www == "www."
    requires slash == "" || slash == "/"
    requires 0 <= i < |scrapedData| && UniverseUrl(Some(scrapedData[i].website)) == Some("http://" + h)
    ensures MergedRow(UniverseUrl, scheme + www + h + slash, scrapedData, mapsData)
            == MergedRow(UniverseUrl, h, scrapedData, mapsData)
  {
    HostKey(h, scheme, www, slash);
    HostKey(h, "", "", "");
    assert "" + "" + h + "" == h;
    SameKeySameRow(UniverseUrl, scheme + www + h + slash, h, scrapedData, mapsData, i);
  }

  /**
   * The maps mode end to end: the websites of the places are scraped (one
   * answer each) and merged back. Every row then has all five columns; its
   * Website and Email are those of the last website with the same key, and
   * Address and Phone are present because every scraped website came from a
   * place.
   */
  lemma MapsModeRows(key: Option<string> -> Option<string>, mapsData: seq<Place>,
                     responses: seq<Response>, i: int)
    requires |responses| == |SiteUrls(mapsData)|
    requires 0 <= i < |SiteUrls(mapsData)|
    ensures var urls := SiteUrls(mapsData);
            var row := MergedRow(key, urls[i], ScrapeAll(urls, responses), mapsData);
            && row.email.Some? && row.companyName.Some? && row.address.Some? && row.phone.Some?
            && exists j :: 0 <= j < |urls|
                 && key(Some(urls[j])) == key(Some(urls[i]))
                 && (forall l :: j < l < |urls| ==> key(Some(urls[l])) != key(Some(urls[i])))
                 && row.website == urls[j]
                 && row.email == Some(BuildRecord(urls[j], responses[j]).email)
  {
    var urls := SiteUrls(mapsData);
    var records := ScrapeAll(urls, responses);
    var k := key(Some(urls[i]));
    assert RecordSite(records[i]) == Some(urls[i]);
    var j := LastIndex(records, RecordSite, key, k);
    assert records[j] == BuildRecord(urls[j], responses[j]);
    assert RecordSite(records[j]) == Some(urls[j]);
    forall l | j < l < |urls|
      ensures key(Some(urls[l])) != k
    {
      assert RecordSite(records[l]) == Some(urls[l]);
    }
    SiteUrlsFromPlaces(mapsData);
    var p :| i <= p < |mapsData| && mapsData[p].website == Some(urls[i]);
    assert PlaceSite(mapsData[p]) == Some(urls[i]);
  }
}
