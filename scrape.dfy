/**
 * One call of the scrape provider for one website (`scrape_single_site`): the
 * JSON body it posts and the contact record it makes of the answer; and the
 * batch of such calls, one per website, in order
 * (`scrape_contacts_from_sites_async`). The HTTP exchange itself is not
 * modelled: the answer the provider gave is an input.
 */
module Scrape {
  import opened Wrappers
  import opened Strings
  import opened Urls

  /** One entry of `aiExtractRules`: the field asked for, its description, its type. */
  datatype ExtractRule = ExtractRule(field: string, description: string, kind: string)

  /** The JSON body posted to the scrape endpoint; an absent key is `None`. */
  datatype Payload = Payload(
    url: string,
    extractEmails: bool,
    jsRendering: bool,
    aiExtractRules: seq<ExtractRule>,
    proxyType: Option<string>,
    proxyCountry: Option<string>)

  /** The fixed extraction schema sent with every request. */
  const AiExtractRules: seq<ExtractRule> := [
    ExtractRule("address", "Physical address", "string"),
    ExtractRule("phone", "Phone number", "string"),
    ExtractRule("email", "Email addresses", "string"),
    ExtractRule("companyName", "Company name", "string")
  ]

  function Fields(rules: seq<ExtractRule>): (r: seq<string>)
    ensures |r| == |rules|
  {
    seq(|rules|, i requires 0 <= i < |rules| => rules[i].field)
  }

  /**
   * The request body for `url`. The URL gets a scheme when it has none; the
   * proxy type and the (upper-cased) proxy country are attached only when
   * they are non-empty, Python's truthiness of a string.
   */
  function BuildPayload(url: string, country: string, proxy: string): (p: Payload)
    ensures p.url == NormalizeUrl(url)
    ensures p.extractEmails && p.jsRendering
    ensures Fields(p.aiExtractRules) == ["address", "phone", "email", "companyName"]
    ensures p.proxyType.Some? <==> proxy != ""
    ensures p.proxyType.Some? ==> p.proxyType.value == proxy
    ensures p.proxyCountry.Some? <==> country != ""
    ensures p.proxyCountry.Some? ==> p.proxyCountry.value == Upper(country)
  {
    Payload(
      NormalizeUrl(url),
      true,
      true,
      AiExtractRules,
      if proxy != "" then Some(proxy) else None,
      if country != "" then Some(Upper(country)) else None)
  }

  /**
   * What the request asks of the provider: a fetchable URL that still ends
   * with the website as given, and a proxy country that is the chosen
   * country in capitals.
   */
  lemma PayloadMeaning(url: string, country: string, proxy: string)
    ensures var p := BuildPayload(url, country, proxy);
            && HasScheme(p.url)
            && |url| <= |p.url| && p.url[|p.url| - |url|..] == url
            && (p.proxyCountry.Some? ==>
                  |p.proxyCountry.value| == |country|
                  && NoLower(p.proxyCountry.value)
                  && Lower(p.proxyCountry.value) == Lower(country))
  {
    LowerOfUpper(country);
  }

  /** The keyword modes scrape with an empty country and proxy: no proxy keys are sent. */
  lemma KeywordModePayload(url: string)
    ensures BuildPayload(url, "", "").proxyType.None?
    ensures BuildPayload(url, "", "").proxyCountry.None?
  {
  }

  /**
   * The provider's answer: the HTTP status and, in the JSON body, the optional
   * `emails` list and the optional `aiResponse` object.
   */
  datatype Response = Response(
    status: int,
    emails: Option<seq<string>>,
    aiResponse: Option<map<string, string>>)

  /** `data.get("emails", [])`. */
  function RawEmails(resp: Response): seq<string> {
    resp.emails.GetOr([])
  }

  /** `data.get("aiResponse", {})`. */
  function Ai(resp: Response): map<string, string> {
    resp.aiResponse.GetOr(map[])
  }

  /** `ai_resp.get(key, default)`. */
  function AiField(resp: Response, key: string, default: string): string {
    if key in Ai(resp) then Ai(resp)[key] else default
  }

  /**
   * The `Email` column: the set of addresses found (shown joined by `", "`,
   * in an order Python leaves unspecified, and as `""` when empty), or the
   * failure sentinel `"error"`.
   */
  datatype EmailCell = Emails(addresses: set<string>) | EmailError

  /** One row of the scrape result: Website, Email, Company Name, Address, Phone. */
  datatype ContactRecord = ContactRecord(
    website: string,
    email: EmailCell,
    companyName: string,
    address: string,
    phone: string)

  /** The contact record made of the provider's answer for `url`. */
  function BuildRecord(url: string, resp: Response): (r: ContactRecord)
    ensures r.website == url
    ensures r.email.EmailError? <==> resp.status != 200
    ensures resp.status != 200 ==> r.companyName == "-" && r.address == "-" && r.phone == "-"
    ensures resp.status == 200 ==>
              forall e :: e in r.email.addresses <==>
                e in RawEmails(resp) || (e == AiField(resp, "email", "") && e != "")
    ensures resp.status == 200 ==>
              && ("companyName" in Ai(resp) ==> r.companyName == Ai(resp)["companyName"])
              && ("companyName" !in Ai(resp) ==> r.companyName == "-")
              && ("address" in Ai(resp) ==> r.address == Ai(resp)["address"])
              && ("address" !in Ai(resp) ==> r.address == "-")
              && ("phone" in Ai(resp) ==> r.phone == Ai(resp)["phone"])
              && ("phone" !in Ai(resp) ==> r.phone == "-")
  {
    if resp.status == 200 then
      var emailAi := AiField(resp, "email", "");
      var allEmails := set e | e in RawEmails(resp);
      var allEmails := if emailAi != "" then allEmails + {emailAi} else allEmails;
      ContactRecord(
        url,
        Emails(allEmails),
        AiField(resp, "companyName", "-"),
        AiField(resp, "address", "-"),
        AiField(resp, "phone", "-"))
    else
      ContactRecord(url, EmailError, "-", "-", "-")
  }

  /**
   * A successful answer shows an empty `Email` exactly when the provider found
   * no address at all, neither in `emails` nor in the AI `email` field.
   */
  lemma EmptyEmailCell(url: string, resp: Response)
    requires resp.status == 200
    ensures (BuildRecord(url, resp).email == Emails({}))
            <==> (RawEmails(resp) == [] && AiField(resp, "email", "") == "")
  {
    var r := BuildRecord(url, resp);
    if RawEmails(resp) != [] {
      assert RawEmails(resp)[0] in r.email.addresses;
    }
    if AiField(resp, "email", "") != "" {
      assert AiField(resp, "email", "") in r.email.addresses;
    }
  }

  /**
   * The request bodies of one batch: one per website, in order, each for its
   * own website and all with the same proxy settings.
   */
  function BuildPayloads(urls: seq<string>, country: string, proxy: string): (ps: seq<Payload>)
    ensures |ps| == |urls|
    ensures forall i :: 0 <= i < |ps| ==> ps[i].url == NormalizeUrl(urls[i])
    ensures forall i, j :: 0 <= i < |ps| && 0 <= j < |ps| ==>
              ps[i].proxyType == ps[j].proxyType && ps[i].proxyCountry == ps[j].proxyCountry
  {
    seq(|urls|, i requires 0 <= i < |urls| => BuildPayload(urls[i], country, proxy))
  }

  /**
   * `scrape_contacts_from_sites_async`: one record per website, in the order
   * of `urls` whatever order the answers came in; `responses[i]` is the
   * answer to the request for `urls[i]`.
   */
  function ScrapeAll(urls: seq<string>, responses: seq<Response>): (records: seq<ContactRecord>)
    requires |responses| == |urls|
    ensures |records| == |urls|
  {
    seq(|urls|, i requires 0 <= i < |urls| => BuildRecord(urls[i], responses[i]))
  }

  function Websites(records: seq<ContactRecord>): (ws: seq<string>)
    ensures |ws| == |records|
  {
    seq(|records|, i requires 0 <= i < |records| => records[i].website)
  }

  /**
   * No website is dropped, added or moved by the batch, and a non-200
   * answer is confined to its own record.
   */
  lemma ScrapeAllOneToOne(urls: seq<string>, responses: seq<Response>)
    requires |responses| == |urls|
    ensures Websites(ScrapeAll(urls, responses)) == urls
    ensures forall i :: 0 <= i < |urls| ==>
              (ScrapeAll(urls, responses)[i].email.EmailError? <==> responses[i].status != 200)
  {
  }
}
