# Email scraper core, modelled in Dafny

This project models the data path of the email-scraper Streamlit tool
(`streamlit_app.py`), which collects contact details for websites from a
scraping service. The tool's web requests are not modelled. The answers the
services gave are inputs to the model.

- **Discovery** (`discovery.dfy`):
  - The search adapter (`get_sites_from_serp`) turns each keyword's search results into a list of links.
  - The maps adapter (`get_sites_from_maps`) turns each keyword's places into (website, address, phone) records. A place with none of the three is dropped.
  - A keyword whose request did not answer 200 contributes nothing.
  - The maps mode then scrapes the truthy websites of those places.
- **URLs** (`urls.dfy`):
  - `normalize_url` gives a scheme-less URL the prefix `http://`.
  - `universe_url` turns a website into the identity key the merge joins on. It strips, lower-cases, adds `http://` when the text does not start with `http`, rewrites `https://` to `http://`, deletes every `www.` and drops one trailing `/`. A `None` website fails inside its `try` and is returned unchanged.
- **Scrape** (`scrape.dfy`):
  - The JSON body posted for one website, and the contact record made of the answer (`scrape_single_site`).
  - The batch of such calls (`scrape_contacts_from_sites_async`). It returns one record per website, in input order.
- **Merge** (`merge.dfy`):
  - The maps mode indexes the scraped records and the places by identity key. These are dictionary comprehensions, so the last entry with a key wins.
  - It then builds one row per scraped website. Website, Email and Company Name come from the scraped record for that key.
  - Address and Phone come from the place when the place's value is truthy. Otherwise they keep the scraped value, or `""`.
  - The loop is `Merge.MergeBy`, which takes the key function as a parameter. `Merge.MergeMaps` runs it with `universe_url`.
- **Strings** (`strings.dfy`) and **Wrappers** (`wrappers.dfy`):
  - The Python string methods the code relies on: `strip`, `lower`, `upper`, `startswith`, `endswith` and `replace`.
  - `Option` for a JSON key that may be absent, and Python's truthiness of an optional string.

Where the code and the design intent differ, the model follows the code:

- **The identity key is not idempotent.** Only one trailing `/` is removed per call. `x//` has the key `http://x/`, and that key's own key is `http://x` (`Urls.KeyNotIdempotent`).
- **A host that begins with `http` has two keys.** Line 72 adds no scheme to text that already starts with `http`, so `httpbin.org` keeps that spelling as its key. `www.httpbin.org` does not start with `http`, so it gets the scheme and loses the `www.`, giving `http://httpbin.org`. One host therefore gets two identities (`Urls.HttpHostSplits`, `Urls.HttpbinSplits`).
- **Two pages of one host have two keys.** `universe_url` keeps the path, so `example.com/a` and `example.com/b` get the keys `http://example.com/a` and `http://example.com/b`, and the merge treats them as different sites. Two paths under one host, typed without a scheme, capitals or a trailing `/`, never share a key (`Urls.PathsKeepApart`, `Urls.ExamplePagesApart`).
- **The maps-mode merge does not remove duplicates.** It returns one row per scraped website, duplicates included. Two websites with the same key and a scraped record get identical rows (`Merge.SameKeySameRow`, `Merge.SpellingsShareRow`).

## Model

| member | source | states |
|---|---|---|
| Urls.NormalizeUrl | streamlit_app.py:64-67 | the result always has an `http://` or `https://` scheme; it equals the input exactly when the input already had one, and is otherwise `http://` + input |
| Urls.NormalizeUrlIdempotent | streamlit_app.py:64-67 | normalizing twice is normalizing once |
| Urls.UniverseUrl | streamlit_app.py:69-81 | the key is `None` exactly when the website is `None`; a key always starts with `http` and holds no capital letter |
| Urls.CaseInsensitive | streamlit_app.py:71 | two websites equal up to case have the same key |
| Urls.HostKey | streamlit_app.py:69-78 | for a plain host (one that does not itself begin with `http`, because such a host gets no scheme at line 72 and is covered by `Urls.HttpHostSplits`), all twelve spellings (no scheme, `http://` or `https://`; with or without `www.`; with or without a trailing `/`) have the key `http://` + host |
| Urls.ExampleSpellings | streamlit_app.py:69-78 | `HTTPS://WWW.Example.com/`, `example.com` and `http://example.com/` all have the key `http://example.com` |
| Urls.HttpHostBare | streamlit_app.py:71-78 | a host that begins with `http` and holds no `/`, space, capital or `www.` is its own key: no scheme is added |
| Urls.HttpHostWww | streamlit_app.py:71-78 | the same host written with `www.` in front has the key `http://` + host |
| Urls.HttpHostSplits | streamlit_app.py:72-75 | for such a host, the bare spelling and the `www.` spelling have different keys |
| Urls.HttpbinSplits | streamlit_app.py:72-75 | `httpbin.org` has the key `httpbin.org`, while `www.httpbin.org` has the key `http://httpbin.org` |
| Urls.KeyNotIdempotent | streamlit_app.py:76-77 | the key of `x//` is `http://x/`, whose key is `http://x`: applying the key twice differs from applying it once |
| Urls.PlainPathKey | streamlit_app.py:69-78 | a website with a path (no scheme, no capital, no white space, no `www.` or `https://` inside, no trailing `/`) only gains `http://`: its path stays part of the key |
| Urls.PathsKeepApart | streamlit_app.py:69-78 | two such websites on one host with different paths get different keys |
| Urls.ExamplePagesApart | streamlit_app.py:69-78 | `example.com/a` and `example.com/b` get different keys |
| Strings.Lower | streamlit_app.py:71 | `lower()` keeps the length, lower-cases each letter and leaves no capital |
| Strings.Upper | streamlit_app.py:106 | `upper()` keeps the length, upper-cases each letter and leaves no lower-case letter |
| Strings.StripLeft | streamlit_app.py:71 | the result is a suffix of the input that starts with a non-space, and everything dropped is white space |
| Strings.StripRight | streamlit_app.py:71 | the result is a prefix of the input that ends with a non-space, and everything dropped is white space |
| Strings.Strip | streamlit_app.py:71 | `strip()` returns a slice of the input that neither starts nor ends with white space, and everything cut off on either side is white space |
| Strings.Replace | streamlit_app.py:74-75 | `replace` with a replacement no longer than the pattern never lengthens the string |
| Strings.StripLower | streamlit_app.py:71 | stripping and lower-casing commute |
| Strings.ReplaceAbsent | streamlit_app.py:74-75 | `replace` leaves a string without the pattern unchanged |
| Strings.ReplaceHere | streamlit_app.py:74-75 | a pattern at the start is replaced and the rest is processed on |
| Strings.ReplaceNoUpper | streamlit_app.py:74-75 | replacing with text free of capitals leaves a string free of capitals |
| Scrape.BuildPayload | streamlit_app.py:90-106 | the body carries the normalized URL, both flags set, the four extraction fields in order; `proxyType` is present exactly when the proxy is non-empty and is that proxy; `proxyCountry` is present exactly when the country is non-empty and is the country upper-cased |
| Scrape.PayloadMeaning | streamlit_app.py:90-106 | the posted URL has a scheme and ends with the website as given; the proxy country has the chosen country's length, no lower-case letter, and the same letters up to case |
| Scrape.KeywordModePayload | streamlit_app.py:319-326 | the keyword modes, which pass an empty country and proxy, send neither proxy key |
| Scrape.BuildPayloads | streamlit_app.py:150-155 | one request body per website, in order; body `i` carries the normalized website `i`, and all bodies carry the same proxy type and proxy country |
| Scrape.BuildRecord | streamlit_app.py:116-148 | the record keeps the website as given; Email is the error sentinel exactly when the status is not 200, and then the other three fields are `-`; on 200 the Email set holds exactly the listed addresses plus the AI email when it is non-empty, and Company Name, Address and Phone are the AI values when present and `-` when absent |
| Scrape.EmptyEmailCell | streamlit_app.py:126-130 | on 200 the set of Email addresses is empty exactly when the service listed no address and the AI email is empty or absent |
| Scrape.ScrapeAll | streamlit_app.py:150-157 | one record per website |
| Scrape.ScrapeAllOneToOne | streamlit_app.py:150-157 | the records' websites are the input websites in input order, and record `i` is an error exactly when answer `i` was not 200 |
| Discovery.CollectSerpUrls | streamlit_app.py:22-39 | the loop returns the links of all keywords, keyword by keyword and result by result |
| Discovery.LinksMembership | streamlit_app.py:33-36 | a string is among one keyword's links exactly when it is non-empty and some result's `link` |
| Discovery.SerpUrlsMembership | streamlit_app.py:24-39 | a string is returned exactly when some keyword answered 200 with a result whose `link` is that non-empty string |
| Discovery.SerpUrlsAppend | streamlit_app.py:24-39 | the links of two batches of keywords are the two lists joined, so keyword order is kept |
| Discovery.SerpUrlsNoResults | streamlit_app.py:22-39 | when every keyword failed or found nothing the list is empty |
| Discovery.CollectMapsPlaces | streamlit_app.py:42-62 | the loop returns the kept places of all keywords, keyword by keyword and place by place |
| Discovery.KeptMembership | streamlit_app.py:52-61 | a place is kept from one list exactly when it is in the list and has a truthy website, address or phone |
| Discovery.MapsPlacesMembership | streamlit_app.py:42-62 | a place is returned exactly when it has a truthy website, address or phone and some keyword answered 200 with it among its results |
| Discovery.MapsPlacesHaveContact | streamlit_app.py:56-61 | every returned place has a truthy website, address or phone |
| Discovery.SiteUrls | streamlit_app.py:325 | there are no more websites than places, and none is empty |
| Discovery.SiteUrlsFromPlaces | streamlit_app.py:325 | each website scraped is the website of a place at or after its position |
| Discovery.SiteUrlsComplete | streamlit_app.py:325 | every truthy website of a place is scraped |
| Discovery.SiteUrlsAppend | streamlit_app.py:325 | the websites of two lists of places are the two lists joined, so place order is kept |
| Merge.Index | streamlit_app.py:328-329 | the comprehension has an entry under the key of every element, and each entry is an element of the list with that key |
| Merge.LastIndex | streamlit_app.py:328-329 | the position found holds the key asked for and no later entry does; -1 means no entry has the key |
| Merge.IndexLastWins | streamlit_app.py:328-329 | the comprehension has a key exactly when some entry has it, and holds under it the last such entry |
| Merge.MergeBy | streamlit_app.py:331-345 | one row per scraped website, in order; row `i` is the merged row of website `i` as stated with the last entry per key |
| Merge.MergeMaps | streamlit_app.py:328-345 | the same, with `universe_url` as the key |
| Merge.Prefer | streamlit_app.py:342-343 | a truthy maps value wins; the result is one of the two values, and blank exactly when neither is truthy |
| Merge.RowFromLastRecord | streamlit_app.py:336-337 | a website whose key has scraped records takes Website, Email and Company Name from the last of them, whatever the maps data; without a place for the key, Address and Phone are that record's too |
| Merge.RowWithoutRecord | streamlit_app.py:338-339 | a website whose key has no scraped record keeps its own spelling and has no Email and no Company Name |
| Merge.AddressPhonePrecedence | streamlit_app.py:341-343 | with a place for the key, Address and Phone are the last such place's values when truthy, and otherwise the last scraped record's values, or `""` without one |
| Merge.AddressOverride | streamlit_app.py:341-342 | an empty scraped address is replaced by a place's non-empty one, and a scraped address survives a place without one |
| Merge.MatchedPlaceHasWebsite | streamlit_app.py:328 | under `universe_url`, a place without a website is never matched to a scraped website |
| Merge.MapsTouchOnlyAddressPhone | streamlit_app.py:341-343 | the maps data changes nothing in a row but Address and Phone |
| Merge.SameKeySameRow | streamlit_app.py:332-345 | two websites with the same key and a scraped record for it get identical rows |
| Merge.SpellingsShareRow | streamlit_app.py:328-345 | the twelve spellings of a scraped plain host all get the row of the bare host |
| Merge.MapsModeRows | streamlit_app.py:323-345 | in the maps mode every row has all five columns; its Website and Email are those of the last scraped website with the same key |

## Left out

- The HTTP requests are not modelled. The answers of the search, maps and scrape services are inputs: a status plus the JSON keys the code reads. This covers the usage, search, maps and scrape endpoints, the headers and the query parameters.
- asyncio, aiohttp, the shared session and the semaphore are not modelled. When every request comes back with a status, their observable effect is one record per website in input order, which `Scrape.ScrapeAllOneToOne` states. A request that does not come back with a status is not covered; see the `Scrape.ScrapeAll` line below. How many requests run at once is a scheduling property with no counterpart in a sequential model.
- `get_available_concurrency` is not modelled: it is an HTTP call whose value only sizes the semaphore. It returns the service's `availableConcurrency`, or 1 when that is absent or the status is not 200. It does not clamp the value to at least 1.
- Strings.Lower: models `str.lower()` on ASCII letters only, because Unicode case mapping would need the full Unicode tables.
- Strings.Upper: models `str.upper()` on ASCII letters only, for the same reason.
- Scrape.BuildRecord: the Email column is the set of addresses. The code joins that set with `", "` in Python's set iteration order, which is unspecified. A successful answer whose only address is the string `error` therefore reads like the failure sentinel in the rendered table. The model keeps the two apart. Likewise, a successful answer whose `emails` is `[""]` renders as an empty cell, while the model holds `Emails({""})`. `Scrape.EmptyEmailCell` therefore speaks of the set, not of the rendered text.
- Scrape.ScrapeAll: a request that raises is not modelled. Causes include a transport error, a time-out, a 200 answer that is not a JSON object, and a JSON `null` `aiResponse` or `emails`. In the code, the exception leaves `asyncio.gather` at line 156, because it is called without `return_exceptions`. The run then ends with no records at all. The model covers only answers that come back with a status, and it confines a non-200 answer to its own record.
- Scrape.BuildRecord: AI fields are modelled as strings. A JSON `null` or a non-string value in `aiResponse` or `emails` is not modelled.
- Discovery.CollectSerpUrls: `link` is modelled as an optional string. A truthy non-string `link` is not modelled.
- Discovery.CollectSerpUrls: an `organicResults` that is JSON `null` is not modelled. In the code, `get` then returns `None`, and iterating over it raises and ends the run. The model reads only a missing key, as `[]`.
- Discovery.CollectMapsPlaces: a `localResults` that is JSON `null` is not modelled, for the same reason. The model reads only a missing key, as `[]`.
- Discovery.CollectMapsPlaces: `website`, `address` and `phone` are modelled as optional strings. A non-string `address` or `phone` reaching the `or` of the merge is not modelled.
- Urls.UniverseUrl: models string and `None` websites. A different non-string value would also be returned unchanged, and it is not modelled.
- The error messages printed for a failed keyword or website are not modelled.
- The country, language and proxy lookup tables are not modelled.
- The Streamlit form, the splitting of the input into lines and the mode dispatch are not modelled. Only the empty country and proxy the keyword modes pass are kept (`Scrape.KeywordModePayload`).
- The pandas table and the CSV and JSON downloads are not modelled.
