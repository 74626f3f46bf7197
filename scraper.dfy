/**
 * `extract_product_details`: one product record assembled from a loaded page.
 * The page is given as a `Snapshot` of what the element lookups find on it;
 * `revealed` is the page as re-read after the bank-offer panel was opened.
 */
module Scraper {
  import opened Wrappers
  import opened Text
  import opened Price
  import opened Offers
  import opened Details
  import opened Images
  import opened Summary

  /** What the element lookups find on a loaded product page. */
  datatype Snapshot = Snapshot(
    title: Option<string>,
    ratingText: Option<string>,
    ratingsCountText: Option<string>,
    priceWholeText: Option<string>,
    mrpCandidates: seq<Option<PriceElement>>,
    offerCards: seq<string>,
    featureBullets: Option<seq<string>>,
    techSpecRows: Option<seq<TableRow>>,
    imagePage: ImagePage,
    aplusImages: Option<seq<Option<string>>>)

  /** The product dict, its keys in the order the scraper adds them. */
  datatype ProductRecord = ProductRecord(
    productName: Option<string>,
    rating: Option<string>,
    numberOfRatings: Option<string>,
    sellingPrice: Option<real>,
    mrp: Option<real>,
    discountPercentage: Option<string>,
    bankOffers: seq<BankOffer>,
    aboutThisItem: seq<string>,
    productInformation: Info,
    productImages: seq<string>,
    manufacturerImages: seq<string>,
    aiReviewSummary: Option<string>)

  /**
   * `r` is a record of `page`: every field is what its extractor yields, the
   * manufacturer images are the section's sources without repeats, and the
   * summary is generated from the record's own price, bullets, details and discount.
   */
  ghost predicate Describes(page: Snapshot, revealed: Option<Revealed>, r: ProductRecord) {
    var priceInfo := PriceInfoOf(page.priceWholeText, page.mrpCandidates);
    var ratingInfo := RatingInfoOf(page.ratingText, page.ratingsCountText);
    && r.productName == ProductName(page.title)
    && r.rating == ratingInfo.rating
    && r.numberOfRatings == ratingInfo.numberOfRatings
    && r.sellingPrice == priceInfo.sellingPrice
    && r.mrp == priceInfo.mrp
    && r.discountPercentage == priceInfo.discountPercentage
    && r.bankOffers == BankOffersOf(revealed, page.offerCards)
    && r.aboutThisItem == AboutThisItem(page.featureBullets)
    && r.productInformation == ProductInformationOf(page.techSpecRows)
    && r.productImages == ProductImagesOf(page.imagePage)
    && NoDuplicates(r.manufacturerImages)
    && (forall u :: u in r.manufacturerImages <==> u in ManufacturerSources(page.aplusImages))
    && r.aiReviewSummary == Some(ReviewSummary(r.sellingPrice, r.aboutThisItem, r.productInformation, r.discountPercentage))
  }

  /** `extract_product_details`: no record without page content, else every extractor in turn. */
  method ExtractProductDetails(page: Option<Snapshot>, revealed: Option<Revealed>) returns (r: Option<ProductRecord>)
    ensures r.None? <==> page.None?
    ensures r.Some? ==> Describes(page.value, revealed, r.value)
  {
    if page.None? {
      return None;
    }
    var p := page.value;
    var name := ProductName(p.title);
    var ratingInfo := RatingInfoOf(p.ratingText, p.ratingsCountText);
    var priceInfo := GetPriceInfo(p.priceWholeText, p.mrpCandidates);
    var offers := GetBankOffers(revealed, p.offerCards);
    var about := AboutThisItem(p.featureBullets);
    var info := GetProductInformation(p.techSpecRows);
    var images := GetProductImages(p.imagePage);
    var manufacturer := GetManufacturerImages(p.aplusImages);
    var record := ProductRecord(
      name, ratingInfo.rating, ratingInfo.numberOfRatings,
      priceInfo.sellingPrice, priceInfo.mrp, priceInfo.discountPercentage,
      offers, about, info, images, manufacturer, None);
    var summary := GenerateReviewSummary(
      record.sellingPrice, record.aboutThisItem, record.productInformation, record.discountPercentage);
    record := record.(aiReviewSummary := Some(summary));
    return Some(record);
  }

  /**
   * A discounted product's summary names its price tier and quotes the discount:
   * a discount is only shown for a non-zero selling price.
   */
  lemma DiscountedRecordSummary(page: Snapshot, revealed: Option<Revealed>, r: ProductRecord)
    requires Describes(page, revealed, r)
    requires r.discountPercentage.Some?
    ensures r.sellingPrice.Some? && r.sellingPrice.value != 0.0
    ensures Contains(r.aiReviewSummary.value, "Currently available at a " + r.discountPercentage.value + " discount")
    ensures Contains(r.aiReviewSummary.value, "This " + Segment(r.sellingPrice.value) + " TV offers")
  {
    MrpNonNegative(page.mrpCandidates);
    SummaryQuotesDiscount(r.sellingPrice, r.aboutThisItem, r.productInformation, r.discountPercentage);
    SummaryNamesTier(r.sellingPrice, r.aboutThisItem, r.productInformation, r.discountPercentage);
  }

  /** Every record carries a summary, and it is the fallback sentence only when no clause fires. */
  lemma RecordSummaryPresent(page: Snapshot, revealed: Option<Revealed>, r: ProductRecord)
    requires Describes(page, revealed, r)
    ensures r.aiReviewSummary.Some?
    ensures r.aiReviewSummary.value == Fallback <==>
              Clauses(r.sellingPrice, r.aboutThisItem, r.productInformation, r.discountPercentage) == []
  {
    SummaryFallbackIffNoClause(r.sellingPrice, r.aboutThisItem, r.productInformation, r.discountPercentage);
  }
}
