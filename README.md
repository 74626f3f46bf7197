# Amazon India TV scraper — a Dafny model of its extraction core

The scraper loads an Amazon India television product page. It reads a fixed set
of fields from the page and assembles them into one product record:

- the title;
- the star rating and the ratings count;
- the selling price, the MRP (list price) and the discount percentage;
- the bank offers;
- the "About this item" bullets;
- the technical-details table;
- the product images and the manufacturer (A+ content) images;
- a rule-based "AI review summary" built from the collected fields.

A small web endpoint, `/scrape`, checks the posted URL, runs the scraper and
returns the record or an error with an HTTP status.

This project models that extraction logic. The browser and the HTML parser are
not modelled. Each page is given as a `Snapshot`: the texts and attributes that
the element lookups find on it. Each module follows one part of the scraper:

- `Text`: Python string primitives. These are `strip`, `split(sep)[0]`, `in`, `lower` and `", ".join`.
- `Numbers`:
  - Python `float()` on decimal literals;
  - the `:.2f` rendering, with a round-trip proof.
- `Price`: the selling price, the MRP search loop and the discount.
- `Offers`: bank-offer detection and parsing.
  - Bank detection follows the bank patterns in order.
  - The discount, minimum-purchase, EMI-duration and loose-amount regular expressions are written as scanners.
  - The side-panel phase and the main-page fallback are modelled.
- `Details`: the product name, the rating info, "About this item", and the technical-details dict.
  - The dict is an insertion-ordered association list.
- `Images`: product images from the thumbnails, the main image or the dynamic-image data, plus the manufacturer images.
- `Summary`: the review-summary generator.
- `Scraper`: the assembly of the record in `extract_product_details`.
- `App`: the `/scrape` endpoint, as a function from the URL and the scraper's outcome to a response.

Loops in the source are methods with loop invariants. Every method except
`Images.GetManufacturerImages` is proved equal to a specification function, and
lemmas state the promised properties of those functions.
`GetManufacturerImages` ends in `list(set(images))`, whose order Python does not
define. Its contract states only which URLs it returns and that none is repeated.

## Model

| member | source | states |
|---|---|---|
| Text.Strip | backend/amazon_scraper.py:156 | the result has no leading or trailing whitespace |
| Text.StripIdempotent | backend/amazon_scraper.py:381 | stripping twice is the same as stripping once |
| Text.BeforeFirstHasNoSeparator | backend/amazon_scraper.py:165-166 | `split(sep)[0]` never contains the separator |
| Text.BeforeFirstIsFirstPiece | backend/amazon_scraper.py:165-166 | `split(sep)[0]` is the one prefix that has no separator in it and ends where the first separator starts, or the whole text without a separator |
| Text.RemoveCharMembers | backend/amazon_scraper.py:211 | `replace(',', '')` keeps exactly the characters other than the comma |
| Text.RemoveCharAppend | backend/amazon_scraper.py:211 | `replace(',', '')` works piece by piece: removing from a concatenation is removing from each part |
| Text.JoinHasPart | backend/amazon_scraper.py:538 | every part joined by `". ".join` occurs in the joined text |
| Numbers.ParseFloatDigits | backend/amazon_scraper.py:183 | `float()` of a digit string is the number it denotes |
| Numbers.NatToStringValue | backend/amazon_scraper.py:229 | the decimal rendering of a natural number reads back as that number |
| Numbers.RoundHundredths | backend/amazon_scraper.py:229 | the rounded hundredths lie within half a hundredth of the value |
| Numbers.FormatFixed2RoundTrip | backend/amazon_scraper.py:229 | the `:.2f` rendering of h hundredths reads back under `float()` as h/100 |
| Price.KeepPriceCharsMembers | backend/amazon_scraper.py:209 | the cleaned text holds exactly the digits, points and commas of the original |
| Price.KeepPriceCharsAppend | backend/amazon_scraper.py:209 | `re.sub(r'[^\d.,]', '')` works piece by piece: filtering a concatenation is filtering each part |
| Price.KeepPriceCharsIgnoresStrip | backend/amazon_scraper.py:207-209 | stripping before the filter changes nothing, since whitespace is filtered out anyway |
| Price.CandidateValue | backend/amazon_scraper.py:197-214 | a candidate element that parses gives a non-negative MRP |
| Price.CandidateValueReadsAmount | backend/amazon_scraper.py:199-214 | a candidate text made of a sign or label, comma-grouped digits, a point and decimals reads as the number with the commas dropped |
| Price.CandidateValueExample | backend/amazon_scraper.py:199-214 | the strike-through text "₹49,999.00" gives 49999.0 |
| Price.FindMrp | backend/amazon_scraper.py:188-222 | the MRP loop computes `Mrp` of the candidate elements |
| Price.MrpIsFirstPositive | backend/amazon_scraper.py:196-219 | the MRP is the first candidate whose value is positive |
| Price.MrpWithoutPositive | backend/amazon_scraper.py:196-222 | with no positive candidate, the MRP is 0.0 if some candidate parsed, and None iff none did |
| Price.MrpNonNegative | backend/amazon_scraper.py:188-222 | the MRP is never negative |
| Price.DiscountExact | backend/amazon_scraper.py:227 | the exact discount is positive, and below 100 iff the selling price is positive |
| Price.Discount | backend/amazon_scraper.py:224-229 | a discount is shown iff the price and MRP are both non-zero and the price is below the MRP; it ends in `%` |
| Price.DiscountShown | backend/amazon_scraper.py:226-229 | the shown percentage reads back within half a hundredth of the exact discount and lies in 0..100 |
| Price.GetPriceInfo | backend/amazon_scraper.py:175-236 | the price record is the selling price, the MRP and the discount of the page |
| Offers.FirstBankFrom | backend/amazon_scraper.py:297-300 | returns the first bank, in pattern order, whose pattern occurs in the lower-cased text |
| Offers.DetectBank | backend/amazon_scraper.py:296-300 | the detection loop returns `BankOf` the text |
| Offers.BankIsFirstMentioned | backend/amazon_scraper.py:243-248 | the bank named is the first one in HDFC, SBI, ICICI, Axis order that the text mentions |
| Offers.BankAbsentIff | backend/amazon_scraper.py:297-300 | no bank name iff no pattern of any bank occurs |
| Offers.HdfcComesFirst | backend/amazon_scraper.py:243-244 | a text mentioning "hdfc" is always an HDFC offer |
| Offers.AmountEnd | backend/amazon_scraper.py:303 | the captured amount is digits, commas and points that starts and ends with a digit |
| Offers.AmountEndIsGreedy | backend/amazon_scraper.py:303 | the captured span matches `\d+(?:,\d+)?(?:\.\d{2})?` whole, and no longer span from the same digit does |
| Offers.DiscountMatchFrom | backend/amazon_scraper.py:303 | a reported discount match is a position where an amount followed by "discount" or "cashback" matches |
| Offers.DiscountMatchFromIsLeftmost | backend/amazon_scraper.py:303-304 | no earlier position matches the discount pattern, and none matches when no match is reported |
| Offers.DiscountAmountExample | backend/amazon_scraper.py:303-306 | "Flat ₹1,500 Instant Discount" gives a discount amount of 1500.0 |
| Offers.MinPurchaseFrom | backend/amazon_scraper.py:311 | a reported minimum-purchase match is a keyword position from which an amount is reached |
| Offers.MinPurchaseFromIsLeftmost | backend/amazon_scraper.py:311-312 | no earlier position matches the minimum-purchase pattern, and none matches when no match is reported |
| Offers.AmountStartAfter | backend/amazon_scraper.py:311 | the amount after the minimum-purchase keyword starts at a digit |
| Offers.AmountStartAfterIsLead | backend/amazon_scraper.py:311 | the amount starts at p iff optional spaces, an optional "of" with its spaces, an optional INR, Rs. or ₹ sign and optional spaces lead up to p and a digit is there; the lead holds no digit |
| Offers.MonthMatchFrom | backend/amazon_scraper.py:321 | a reported EMI duration match is a digit position followed by a digit run and "month" |
| Offers.MonthMatchFromIsLeftmost | backend/amazon_scraper.py:321-322 | no earlier position matches the month pattern, and none matches when no match is reported |
| Offers.MonthMatchIsWholeRun | backend/amazon_scraper.py:321-323 | the EMI duration is a whole digit run, never the tail of a longer number |
| Offers.FirstDigitFrom | backend/amazon_scraper.py:355 | the main-page amount starts at the first digit of the card text |
| Offers.KeptMembers | backend/amazon_scraper.py:289-290 | the kept texts are exactly those at least n long |
| Offers.KeptAppend | backend/amazon_scraper.py:284-290 | the skip is applied item by item: keeping from a concatenation is keeping from each part, in order |
| Offers.ParseSideOffer | backend/amazon_scraper.py:285-325 | parsing one side-panel item gives `SideOfferOf` its text |
| Offers.ParseCardOffer | backend/amazon_scraper.py:341-360 | parsing one main-page card gives `CardOfferOf` its text |
| Offers.SidePanelOffers | backend/amazon_scraper.py:284-328 | the side-panel loop gives `SideOffersOf` the items |
| Offers.CardOffers | backend/amazon_scraper.py:340-362 | the main-page loop gives `CardOffersOf` the cards |
| Offers.OffersAreKept | backend/amazon_scraper.py:284-290 | a skip-short-texts loop collects exactly the long-enough texts, in order, each parsed |
| Offers.SideOffersAreKept | backend/amazon_scraper.py:289-290 | the side-panel offers are the items at least 10 long, in order, each parsed |
| Offers.CardOffersAreKept | backend/amazon_scraper.py:342 | the main-page offers are the cards longer than 10, in order, each parsed |
| Offers.GetBankOffers | backend/amazon_scraper.py:241-369 | the bank offers are `BankOffersOf` the revealed page and the page cards |
| Offers.BankOffersFromOnePhase | backend/amazon_scraper.py:284-362 | either all offers are well-formed side-panel offers, or the side phase gave none and all are well-formed main-page offers |
| Offers.CardOffersOnlyAsFallback | backend/amazon_scraper.py:335 | a main-page offer appears only when the side panel gave no offer |
| Details.ProductName | backend/amazon_scraper.py:154-158 | a name exists iff a title exists; it has no surrounding whitespace |
| Details.ProductNameKeepsText | backend/amazon_scraper.py:156 | every non-space character of the title is kept; naming is idempotent |
| Details.RatingInfoOf | backend/amazon_scraper.py:160-171 | each rating field is present iff its element is; the rating is the text's prefix before the first " out of" and the count the prefix before the first " ratings" (the whole text without one) |
| Details.RatingOfExample | backend/amazon_scraper.py:165-166 | "4.2 out of 5 stars" and "1,234 ratings" give "4.2" and "1,234" |
| Details.AboutThisItem | backend/amazon_scraper.py:376-384 | each bullet is its list item's text stripped, one per item, in order; none without a section |
| Details.AboutThisItemStable | backend/amazon_scraper.py:381 | the bullets are already stripped |
| Details.KeyIndex | backend/amazon_scraper.py:396 | the first position of the key in the dict, or none |
| Details.Get | backend/amazon_scraper.py:396 | a lookup is present iff some entry has the key, and it returns that entry's value |
| Details.Put | backend/amazon_scraper.py:396 | dict assignment sets the key, leaves other keys unchanged, keeps key order and uniqueness, and appends a new key at the end |
| Details.GetProductInformation | backend/amazon_scraper.py:386-399 | the row loop builds `ProductInformationOf` the table |
| Details.InfoKeysUnique | backend/amazon_scraper.py:388-396 | no label occurs twice in the dict |
| Details.InfoHasLabelIff | backend/amazon_scraper.py:392-396 | a label is in the dict iff some row carries it with both header and cell |
| Details.InfoValueIsLastRow | backend/amazon_scraper.py:396 | a repeated label keeps the value of its last row |
| Details.InfoKeepsFirstPlace | backend/amazon_scraper.py:396 | later rows never move a label from where it was first added |
| Images.HighRes | backend/amazon_scraper.py:424-426 | the rewritten URL is the base before the first "._" plus `._SL1500_.jpg`, and the base has no "._" |
| Images.HighResIdempotent | backend/amazon_scraper.py:424-426 | rewriting a rewritten URL changes nothing |
| Images.AddNew | backend/amazon_scraper.py:430-431 | appending only if absent keeps the list free of duplicates and adds exactly the URL |
| Images.ThumbnailImages | backend/amazon_scraper.py:412-434 | the thumbnail loop gives `ThumbImagesOf` the thumbnails |
| Images.ThumbImagesUnique | backend/amazon_scraper.py:430-431 | thumbnail images have no duplicates |
| Images.ThumbImagesAre | backend/amazon_scraper.py:412-431 | a URL is a thumbnail image iff some thumbnail yields it and its lower-cased form mentions none of video, play, sprite, icon or gif |
| Images.DynamicImagesAre | backend/amazon_scraper.py:447-460 | the dynamic images have no duplicates and are the rewritten first keys of the parsed image maps |
| Images.GetProductImages | backend/amazon_scraper.py:401-464 | the image steps give `ProductImagesOf` the page |
| Images.ProductImagesPrecedence | backend/amazon_scraper.py:406-460 | thumbnails win, then the main image, then the dynamic images; the result has no duplicates |
| Images.ProductImagesRewritten | backend/amazon_scraper.py:418-458 | every product image is a thumbnail's hi-res URL or ends with the high-resolution suffix |
| Images.ManufacturerSources | backend/amazon_scraper.py:473-478 | the collected sources are exactly the `src` values in the A+ section |
| Images.GetManufacturerImages | backend/amazon_scraper.py:470-481 | the images are the section's sources, each once (membership only, not order) |
| Summary.SmartFeaturesIff | backend/amazon_scraper.py:504-515 | smart features are listed iff some "smart" bullet names a capability |
| Summary.SmartOfMeaning | backend/amazon_scraper.py:505-511 | a bullet gives voice control iff it mentions "smart" and Alexa or the Google Assistant, wireless connectivity iff "smart" and Wi-Fi or wireless, streaming iff "smart" and streaming or OTT, and nothing else |
| Summary.SmartFeaturesFromBullets | backend/amazon_scraper.py:504-511 | each capability is listed iff some bullet gives it, and nothing else is ever listed |
| Summary.SummaryNamesCapabilities | backend/amazon_scraper.py:504-538 | a bullet that gives a capability puts that capability's phrase in the summary |
| Summary.SummaryQuotesCapability | backend/amazon_scraper.py:513-538 | every listed capability occurs in the summary |
| Summary.CollectSmartFeatures | backend/amazon_scraper.py:504-512 | the bullet loop gives `SmartFeatures` the bullets |
| Summary.ResolutionClause | backend/amazon_scraper.py:494-496 | the 4K clause appears iff the resolution mentions "3840 x 2160" or "4k" |
| Summary.ScreenClause | backend/amazon_scraper.py:499-501 | the screen clause appears iff the screen size is non-empty |
| Summary.SmartClause | backend/amazon_scraper.py:514-515 | the features clause appears iff some smart feature was found |
| Summary.SoundClause | backend/amazon_scraper.py:518-520 | the sound clause appears iff the speaker output is non-empty |
| Summary.TierClause | backend/amazon_scraper.py:523-530 | the tier clause appears iff the price is truthy |
| Summary.DiscountClause | backend/amazon_scraper.py:533-534 | the discount clause appears iff the discount is truthy |
| Summary.DescriptionClauses | backend/amazon_scraper.py:494-520 | the description clauses come in the order 4K, size, features, sound |
| Summary.CollectClauses | backend/amazon_scraper.py:491-534 | the summary parts are `Clauses` of the record |
| Summary.GenerateReviewSummary | backend/amazon_scraper.py:483-550 | the generator gives `ReviewSummary` of the record |
| Summary.SummaryFallbackIffNoClause | backend/amazon_scraper.py:537-550 | the fallback sentence is returned iff no clause fired |
| Summary.SummaryFallbackIff | backend/amazon_scraper.py:491-550 | the fallback is returned iff there is no 4K, no size, no smart bullet, no sound, a falsy price and a falsy discount |
| Summary.SummaryNamesTier | backend/amazon_scraper.py:523-530 | a truthy price puts "This budget-friendly/mid-range/premium TV offers" in the summary at the 25000 and 50000 thresholds |
| Summary.SummaryQuotesDiscount | backend/amazon_scraper.py:533-534 | a truthy discount is quoted in the summary |
| Summary.SummaryClosing | backend/amazon_scraper.py:541-546 | the closing sentence follows the 30000 and 50000 thresholds, and is premium when the price is falsy |
| Scraper.ExtractProductDetails | backend/amazon_scraper.py:115-152 | no record iff no page content; otherwise every field is what its extractor yields, and the summary comes from the record's own fields |
| Scraper.DiscountedRecordSummary | backend/amazon_scraper.py:131-150 | a record with a discount has a non-zero price, and its summary quotes the discount and names the tier |
| Scraper.RecordSummaryPresent | backend/amazon_scraper.py:149-150 | every record has a summary; it is the fallback iff no clause fired |
| App.Scrape | app.py:14-34 | a missing or empty URL gives 400; a non-Amazon-India URL gives 400; a record gives 200; no record or an exception gives 500 |
| App.RejectionIgnoresExtraction | app.py:16-21 | a rejected URL gets its 400 answer whatever the scraper would do |
| App.StatusMeaning | app.py:17-34 | errors are 400 or 500, and 400 iff the URL was rejected |
| App.PrefixIsCaseSensitive | app.py:20-21 | the prefix check is case-sensitive: an upper-case host is rejected |

## Left out

- The browser session is not modelled:
  - page loading, waiting, scrolling, the click that reveals the bank-offer panel and `time.sleep`;
  - `get_page_content`, `close`, `save_to_json`, `main` and `sys.exit`.
  - Each page the scraper reads is a given `Snapshot` or `Revealed` value.
- HTML parsing (BeautifulSoup, CSS-class matching, `get_text(strip=True)`) is not modelled. The texts and attributes found are inputs.
- JSON parsing of `data-a-dynamic-image` is not modelled. It is given as the map's key list, or none when parsing fails.
- Logging, `print` and `traceback` output are left out.
- The Flask routing, CORS, the index page and the front-end script are left out.
- Only the decimal literals the price code can meet are parsed. Python `float()` also accepts exponents, `inf`, `nan` and underscores; these are not modelled.
- Case-folding is not modelled beyond ASCII. Lower-casing is ASCII-only, and `\d` means ASCII digits.
- Price.DiscountShown: the discount is computed on exact reals, and `:.2f` rounding is modelled as half-up on the exact value. Python rounds the binary float half-to-even, so the last digit can differ at exact ties.
- App.Scrape: two failure paths are not modelled: a request body that is not JSON, and a URL that is not a string. Both end in the outer 500 handler (app.py:39-40).
- Summary.GenerateReviewSummary: the exception path that returns None (backend/amazon_scraper.py:552-554) is not modelled. No operation in the model can fail there.
- Each extractor's blanket `except` fallback is not modelled separately (`None`, `[]` or `{}`). Inputs that would raise are modelled as absent elements.
- Images.GetManufacturerImages: `list(set(images))` has no defined order. The contract states the membership and the absence of duplicates, not the order.
- Offers.AmountEnd: Indian lakh grouping such as `1,00,000` is read the way the regular expression reads it. The pattern allows one comma group only. So "1,00,000 Discount" captures `00,000` (0.0), and "Min purchase ₹1,00,000" captures `1,00` (100.0). The model keeps that behaviour and claims nothing about lakh amounts.
- The model follows the code, not the prose description of it, in three places:
  - The main-page fallback reads the page as re-read after the reveal click, whenever the reveal step succeeded.
  - Main-page offers carry no EMI field.
  - The MRP can be 0.0 when no candidate is positive but one parsed.
