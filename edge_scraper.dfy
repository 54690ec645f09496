/**
 * The server-side scraper (supabase/functions/scrape-product/index.ts): its own copies of
 * the title, price, image and merchant extractors, which differ from the browser-side
 * ones, and the request handler that decides the response. Its `parsePrice` and
 * `makeAbsoluteUrl` are the same algorithm as the browser-side ones, so those are shared.
 */
module EdgeScraper {
  import opened Common
  import opened Web
  import opened Scraper

  // ---------------------------------------------------------------------------
  // extractTitle
  // ---------------------------------------------------------------------------

  /** The host-naming fallback title; unlike the browser copy it keeps a leading "www.". */
  function HostTitle(api: UrlApi, url: string): string {
    match api.parse(url)
    case None => "Unknown Product"
    case Some(u) => "Product from " + u.hostname
  }

  /**
   * extractTitle: the first present (non-empty) value among og:title, twitter:title,
   * `<title>` and h1, trimmed, with no suffix removal; else a title naming the host.
   * Because presence, not non-blankness, is tested, the result can be empty.
   */
  function ExtractTitle(doc: Document, api: UrlApi, url: string): (r: string)
    ensures Truthy(AttrOf(doc, OgTitle, "content")) ==> r == Trim(AttrOf(doc, OgTitle, "content").value)
    ensures (!Truthy(AttrOf(doc, OgTitle, "content")) && Truthy(AttrOf(doc, TwitterTitle, "content"))) ==>
              r == Trim(AttrOf(doc, TwitterTitle, "content").value)
    ensures (!Truthy(AttrOf(doc, OgTitle, "content")) && !Truthy(AttrOf(doc, TwitterTitle, "content"))
             && Truthy(TextOf(doc, TitleTag))) ==>
              r == Trim(TextOf(doc, TitleTag).value)
    ensures (!Truthy(AttrOf(doc, OgTitle, "content")) && !Truthy(AttrOf(doc, TwitterTitle, "content"))
             && !Truthy(TextOf(doc, TitleTag)) && Truthy(TextOf(doc, H1))) ==>
              r == Trim(TextOf(doc, H1).value)
    ensures (!Truthy(AttrOf(doc, OgTitle, "content")) && !Truthy(AttrOf(doc, TwitterTitle, "content"))
             && !Truthy(TextOf(doc, TitleTag)) && !Truthy(TextOf(doc, H1))) ==>
              r == HostTitle(api, url)
  {
    var og := AttrOf(doc, OgTitle, "content");
    var twitter := AttrOf(doc, TwitterTitle, "content");
    var page := TextOf(doc, TitleTag);
    var h1 := TextOf(doc, H1);
    if Truthy(og) then Trim(og.value)
    else if Truthy(twitter) then Trim(twitter.value)
    else if Truthy(page) then Trim(page.value)
    else if Truthy(h1) then Trim(h1.value)
    else HostTitle(api, url)
  }

  /** A white-space-only og:title gives the empty title here, where the browser copy falls through. */
  lemma BlankOgTitleDiverges(doc: Document, api: UrlApi, url: string)
    requires Truthy(AttrOf(doc, OgTitle, "content")) && !NonBlank(AttrOf(doc, OgTitle, "content").value)
    ensures ExtractTitle(doc, api, url) == ""
    ensures Scraper.ExtractTitle(doc, api, url) != ExtractTitle(doc, api, url)
  {
  }

  /** The host fallback keeps "www." here and drops it in the browser copy. */
  lemma HostTitleKeepsWww(doc: Document, api: UrlApi, url: string)
    requires !Truthy(AttrOf(doc, OgTitle, "content")) && !Truthy(AttrOf(doc, TwitterTitle, "content"))
    requires !Truthy(TextOf(doc, TitleTag)) && !Truthy(TextOf(doc, H1))
    requires api.parse(url).Some? && StartsWith(api.parse(url).value.hostname, "www.")
    ensures ExtractTitle(doc, api, url) == "Product from " + api.parse(url).value.hostname
    ensures Scraper.ExtractTitle(doc, api, url) == "Product from " + api.parse(url).value.hostname[4..]
  {
  }

  // ---------------------------------------------------------------------------
  // extractPrice
  // ---------------------------------------------------------------------------

  const EdgePriceSelectors: seq<string> :=
    [ItempropPrice, ".price", "[class*=\"price\"]", "[id*=\"price\"]", OgPriceAmount]

  /** The element's content attribute, then its text. */
  function ElementStrings(doc: Document, selector: string): seq<Option<string>> {
    [AttrOf(doc, selector, "content"), TextOf(doc, selector)]
  }

  /** For each selector in turn: the element's content attribute, then its text. */
  function ElementCandidates(doc: Document, selectors: seq<string>): (r: seq<Option<string>>)
    ensures |r| == 2 * |selectors|
  {
    if selectors == [] then [] else ElementStrings(doc, selectors[0]) + ElementCandidates(doc, selectors[1..])
  }

  /** FirstPrice over a concatenation looks at the second part only when the first has no price. */
  lemma {:induction false} FirstPriceAppend(a: seq<Option<string>>, b: seq<Option<string>>)
    ensures FirstPrice(a + b) == if FirstPrice(a).Some? then FirstPrice(a) else FirstPrice(b)
    decreases |a|
  {
    if a == [] {
      assert a + b == b;
    } else {
      assert (a + b)[0] == a[0];
      assert (a + b)[1..] == a[1..] + b;
      FirstPriceAppend(a[1..], b);
    }
  }

  /** The price of one element: its content attribute if that parses, else its text. */
  method ElementPrice(doc: Document, selector: string) returns (p: Option<real>)
    ensures p == FirstPrice(ElementStrings(doc, selector))
  {
    var element := Query(doc, selector);
    var cands := ElementStrings(doc, selector);
    assert cands[1..] == [TextOf(doc, selector)] && cands[1..][1..] == [];
    FirstPriceCons(cands);
    FirstPriceCons(cands[1..]);
    if element.None? {
      return None;
    }
    var content := GetAttribute(element.value, "content");
    if Truthy(content) {
      p := ParsePrice(content.value);
      if p.Some? {
        return p;
      }
    }
    var text := element.value.textContent;
    if text != "" {
      p := ParsePrice(text);
      if p.Some? {
        return p;
      }
    }
    return None;
  }

  /**
   * extractPrice: schema.org price first and og:price:amount last, each element's
   * content before its text; the first candidate that parses wins.
   */
  method ExtractPrice(doc: Document) returns (price: Option<real>)
    ensures price == FirstPrice(ElementCandidates(doc, EdgePriceSelectors))
  {
    for i := 0 to |EdgePriceSelectors|
      invariant FirstPrice(ElementCandidates(doc, EdgePriceSelectors))
                == FirstPrice(ElementCandidates(doc, EdgePriceSelectors[i..]))
    {
      assert EdgePriceSelectors[i..][1..] == EdgePriceSelectors[i + 1..];
      FirstPriceAppend(ElementStrings(doc, EdgePriceSelectors[i]), ElementCandidates(doc, EdgePriceSelectors[i + 1..]));
      var p := ElementPrice(doc, EdgePriceSelectors[i]);
      if p.Some? {
        return p;
      }
    }
    return None;
  }

  /**
   * The two copies order the price sources differently: when both og:price:amount and
   * the schema.org content parse, the browser copy takes the first and this copy the second.
   */
  lemma PriceOrderDiverges(doc: Document)
    requires CandidatePrice(AttrOf(doc, OgPriceAmount, "content")).Some?
    requires CandidatePrice(AttrOf(doc, ItempropPrice, "content")).Some?
    ensures FirstPrice(PriceCandidates(doc)) == CandidatePrice(AttrOf(doc, OgPriceAmount, "content"))
    ensures FirstPrice(ElementCandidates(doc, EdgePriceSelectors)) == CandidatePrice(AttrOf(doc, ItempropPrice, "content"))
  {
    assert PriceCandidates(doc)[0] == MetaPrice(doc);
    assert ElementCandidates(doc, EdgePriceSelectors)[0] == AttrOf(doc, ItempropPrice, "content");
  }

  // ---------------------------------------------------------------------------
  // extractImage
  // ---------------------------------------------------------------------------

  const EdgeImageSelectors: seq<string> :=
    [ItempropImage, ".product-image img", "[class*=\"product\"] img", "img[alt*=\"product\"]"]

  /** The strings this extractImage tries, in order: og, twitter, then src/data-src per selector. */
  function EdgeImageCandidates(doc: Document): seq<Option<string>> {
    [AttrOf(doc, OgImage, "content")]
    + ([AttrOf(doc, TwitterImage, "content")] + SourceCandidates(doc, EdgeImageSelectors))
  }

  /** extractImage: the first image URL found, made absolute; None when nothing is found. */
  method ExtractImage(doc: Document, api: UrlApi, baseUrl: string) returns (image: Option<string>)
    ensures image == Absolutize(api, FirstTruthy(EdgeImageCandidates(doc)), baseUrl)
    ensures image.None? <==> forall k :: 0 <= k < |EdgeImageCandidates(doc)| ==> !Truthy(EdgeImageCandidates(doc)[k])
  {
    var ogImage := AttrOf(doc, OgImage, "content");
    var twitterImage := AttrOf(doc, TwitterImage, "content");
    var sources := SourceCandidates(doc, EdgeImageSelectors);
    FirstTruthyNone(EdgeImageCandidates(doc));
    FirstTruthyCons(twitterImage, sources);
    FirstTruthyCons(ogImage, [twitterImage] + sources);
    if Truthy(ogImage) {
      return Some(MakeAbsoluteUrl(api, ogImage.value, baseUrl));
    }
    if Truthy(twitterImage) {
      return Some(MakeAbsoluteUrl(api, twitterImage.value, baseUrl));
    }
    for i := 0 to |EdgeImageSelectors|
      invariant FirstTruthy(EdgeImageCandidates(doc)) == FirstTruthy(SourceCandidates(doc, EdgeImageSelectors[i..]))
    {
      assert EdgeImageSelectors[i..][1..] == EdgeImageSelectors[i + 1..];
      FirstTruthyCons(ImageSource(doc, EdgeImageSelectors[i]), SourceCandidates(doc, EdgeImageSelectors[i + 1..]));
      var img := Query(doc, EdgeImageSelectors[i]);
      if img.Some? {
        var src := Or(GetAttribute(img.value, "src"), GetAttribute(img.value, "data-src"));
        if Truthy(src) {
          return Some(MakeAbsoluteUrl(api, src.value, baseUrl));
        }
      }
    }
    return None;
  }

  // ---------------------------------------------------------------------------
  // extractMerchant
  // ---------------------------------------------------------------------------

  /** extractMerchant without the merchant map: the host label, capitalised. */
  function ExtractMerchant(api: UrlApi, url: string): (r: Option<string>)
    ensures r.None? <==> api.parse(url).None?
    ensures r.Some? ==> r.value == Capitalize(Domain(api.parse(url).value.hostname)) && '.' !in r.value
  {
    match api.parse(url)
    case None => None
    case Some(u) => Some(Capitalize(Domain(u.hostname)))
  }

  /** The two merchant extractors agree exactly on hosts that are not known merchants. */
  lemma MerchantAgreesOffTheMap(api: UrlApi, url: string)
    requires api.parse(url).Some? ==> ToLower(Domain(api.parse(url).value.hostname)) !in KnownMerchants
    ensures ExtractMerchant(api, url) == Scraper.ExtractMerchant(api, url)
  {
  }

  /** On www.ebay.com the browser copy says "eBay" and this copy "Ebay". */
  lemma EbayDiverges(api: UrlApi, url: string)
    requires api.parse(url).Some? && api.parse(url).value.hostname == "www.ebay.com"
    ensures Scraper.ExtractMerchant(api, url) == Some("eBay")
    ensures ExtractMerchant(api, url) == Some("Ebay")
  {
    EbayMerchantName();
    EbayDomain();
    EbayCapitalized();
  }

  lemma EbayCapitalized()
    ensures Capitalize("ebay") == "Ebay"
  {
    assert "ebay"[1..] == "bay";
  }

  // ---------------------------------------------------------------------------
  // The request handler
  // ---------------------------------------------------------------------------

  /** What `req.json()` produced: the `url` field (absent, or a string), or a rejection. */
  datatype RequestBody = Json(url: Option<string>) | Unreadable(message: Option<string>)

  datatype Request = Request(httpMethod: string, body: RequestBody)

  /** What fetching the page and parsing it produced. */
  datatype EdgeFetch =
    | Fetched(ok: bool, statusText: string, parsed: Option<Document>)
    | FetchRejected(message: Option<string>)

  datatype ResponseBody =
    | PlainText(text: string)
    | UrlMissing(error: string)
    | Product(product: ScrapedProduct)

  datatype Response = Response(status: int, body: ResponseBody)

  /** The 500 body: every field null, currency "USD", and the thrown error's message. */
  function ErrorBody(message: Option<string>): ScrapedProduct {
    ScrapedProduct(None, None, "USD", None, None, false, message)
  }

  /**
   * The handler: a preflight gets "ok"; a request without a url gets 400; a page that
   * was fetched and parsed gets 200 with currency "USD"; every other failure gets 500
   * with every field null.
   */
  method Serve(api: UrlApi, req: Request, fetch: EdgeFetch) returns (resp: Response)
    ensures req.httpMethod == "OPTIONS" ==> resp == Response(200, PlainText("ok"))
    ensures req.httpMethod != "OPTIONS" && req.body.Json? && !Truthy(req.body.url) ==>
              resp == Response(400, UrlMissing("URL is required"))
    ensures resp.status == 200 && resp.body.Product? <==>
              req.httpMethod != "OPTIONS" && req.body.Json? && Truthy(req.body.url)
              && fetch.Fetched? && fetch.ok && fetch.parsed.Some?
    ensures req.httpMethod != "OPTIONS" && req.body.Json? && Truthy(req.body.url)
            && fetch.Fetched? && fetch.ok && fetch.parsed.Some? ==>
              var doc := fetch.parsed.value;
              var url := req.body.url.value;
              resp == Response(200, Product(ScrapedProduct(
                Some(ExtractTitle(doc, api, url)),
                FirstPrice(ElementCandidates(doc, EdgePriceSelectors)),
                "USD",
                Absolutize(api, FirstTruthy(EdgeImageCandidates(doc)), url),
                ExtractMerchant(api, url),
                true,
                None)))
    ensures resp.body.Product? && !resp.body.product.success ==>
              resp.status == 500 && resp.body.product == ErrorBody(resp.body.product.error)
    ensures resp.body.Product? ==> (resp.status == 200 <==> resp.body.product.success)
    ensures req.httpMethod != "OPTIONS" && req.body.Unreadable? ==>
              resp == Response(500, Product(ErrorBody(req.body.message)))
    ensures req.httpMethod != "OPTIONS" && req.body.Json? && Truthy(req.body.url) ==>
              match fetch
              case FetchRejected(m) => resp == Response(500, Product(ErrorBody(m)))
              case Fetched(ok, statusText, parsed) =>
                && (!ok ==> resp == Response(500, Product(ErrorBody(Some("Failed to fetch URL: " + statusText)))))
                && (ok && parsed.None? ==> resp == Response(500, Product(ErrorBody(Some("Failed to parse HTML")))))
  {
    if req.httpMethod == "OPTIONS" {
      return Response(200, PlainText("ok"));
    }
    match req.body
    case Unreadable(message) =>
      resp := Response(500, Product(ErrorBody(message)));
    case Json(url) =>
      if !Truthy(url) {
        return Response(400, UrlMissing("URL is required"));
      }
      match fetch
      case FetchRejected(message) =>
        resp := Response(500, Product(ErrorBody(message)));
      case Fetched(ok, statusText, parsed) =>
        if !ok {
          return Response(500, Product(ErrorBody(Some("Failed to fetch URL: " + statusText))));
        }
        if parsed.None? {
          return Response(500, Product(ErrorBody(Some("Failed to parse HTML"))));
        }
        var doc := parsed.value;
        var price := ExtractPrice(doc);
        var image := ExtractImage(doc, api, url.value);
        var product := ScrapedProduct(Some(ExtractTitle(doc, api, url.value)), price, "USD", image,
                                      ExtractMerchant(api, url.value), true, None);
        resp := Response(200, Product(product));
  }
}
