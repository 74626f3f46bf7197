/**
 * The `/scrape` endpoint of app.py: it checks the posted URL, runs the scraper
 * and turns the outcome into a JSON response with a status code. Running the
 * scraper is outside the model; its outcome is given as `Extraction`.
 */
module App {
  import opened Wrappers
  import opened Text
  import opened Scraper

  /** What running the scraper on the URL came to: a result (possibly none), or an exception's message. */
  datatype Extraction = Returned(result: Option<ProductRecord>) | Raised(message: string)

  /** The response: the product record with status 200, or `{'error': message}` with a status. */
  datatype Response = Product(record: ProductRecord) | Error(status: nat, message: string)

  const HttpsPrefix := "https://www.amazon.in/"
  const HttpPrefix := "http://www.amazon.in/"

  /** The URL begins, exactly and case-sensitively, with one of the two Amazon India prefixes. */
  predicate IsAmazonIndiaUrl(url: string) {
    HasAt(url, HttpsPrefix, 0) || HasAt(url, HttpPrefix, 0)
  }

  /** A URL the endpoint hands to the scraper: present, non-empty and on Amazon India. */
  predicate Accepted(url: Option<string>) {
    url.Some? && url.value != [] && IsAmazonIndiaUrl(url.value)
  }

  /** `scrape`: the two URL checks in order, then the scraper's outcome. */
  function Scrape(url: Option<string>, extraction: Extraction): (r: Response)
    ensures url.None? || url.value == [] ==> r == Error(400, "URL is required")
    ensures url.Some? && url.value != [] && !IsAmazonIndiaUrl(url.value) ==>
              r == Error(400, "Only Amazon India URLs are supported")
    ensures r.Product? <==> Accepted(url) && extraction.Returned? && extraction.result.Some?
    ensures r.Product? ==> extraction == Returned(Some(r.record))
    ensures Accepted(url) && extraction == Returned(None) ==> r == Error(500, "Failed to extract product details")
    ensures Accepted(url) && extraction.Raised? ==> r == Error(500, "Scraping error: " + extraction.message)
  {
    if url.None? || url.value == [] then Error(400, "URL is required")
    else if !HasAt(url.value, HttpsPrefix, 0) && !HasAt(url.value, HttpPrefix, 0) then
      Error(400, "Only Amazon India URLs are supported")
    else
      match extraction
      case Raised(message) => Error(500, "Scraping error: " + message)
      case Returned(result) =>
        if result.Some? then Product(result.value) else Error(500, "Failed to extract product details")
  }

  /** A rejected URL gets its 400 answer whatever the scraper would have done. */
  lemma RejectionIgnoresExtraction(url: Option<string>, e1: Extraction, e2: Extraction)
    requires !Accepted(url)
    ensures Scrape(url, e1) == Scrape(url, e2)
    ensures Scrape(url, e1).Error? && Scrape(url, e1).status == 400
  {
  }

  /** Status 400 means the URL was rejected; status 500 means the scraper failed on an accepted URL. */
  lemma StatusMeaning(url: Option<string>, extraction: Extraction)
    ensures Scrape(url, extraction).Error? ==> Scrape(url, extraction).status in {400, 500}
    ensures Scrape(url, extraction).Error? && Scrape(url, extraction).status == 400 <==> !Accepted(url)
  {
  }

  /** The prefix check is case-sensitive: the upper-case host is turned away. */
  lemma PrefixIsCaseSensitive(e: Extraction)
    ensures Scrape(Some("https://WWW.AMAZON.IN/tv"), e) == Error(400, "Only Amazon India URLs are supported")
  {
    var url := "https://WWW.AMAZON.IN/tv";
    assert url[8] != HttpsPrefix[8];
    assert url[..22] != HttpsPrefix;
    assert url[7] != HttpPrefix[7];
    assert url[..21] != HttpPrefix;
  }
}
