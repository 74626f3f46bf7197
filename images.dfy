/**
 * The two image lists of a product page: the product images, found by three
 * strategies tried in turn (thumbnails, the main image, the images that carry a
 * dynamic-image attribute), and the manufacturer ("A+") images.
 */
module Images {
  import opened Wrappers
  import opened Text

  /** The marker before an image URL's size specification. */
  const SizeMarker := "._"
  const HighResSuffix := SizeMarker + "SL1500_.jpg"

  /** A thumbnail's image, with its `data-old-hires` and `src` attributes when present. */
  datatype Img = Img(hiRes: Option<string>, src: Option<string>)

  /** The large version of an image URL: everything before the first `._`, then `._SL1500_.jpg`. */
  function HighRes(url: string): (r: string)
    ensures r == BeforeFirst(url, "._") + HighResSuffix
    ensures !Contains(r[..|r| - |HighResSuffix|], "._")
  {
    BeforeFirstHasNoSeparator(url, "._");
    BeforeFirst(url, "._") + HighResSuffix
  }

  /** Rewriting a rewritten URL changes nothing. */
  lemma HighResIdempotent(url: string)
    ensures HighRes(HighRes(url)) == HighRes(url)
  {
    var b := BeforeFirst(url, "._");
    var h := HighRes(url);
    assert h == b + SizeMarker + "SL1500_.jpg";
    assert h[|b|] == '.' && h[|b| + 1] == '_';
    forall j | 0 <= j < |b|
      ensures !HasAt(h, "._", j)
    {
      if j + 1 < |b| {
        if HasAt(h, "._", j) {
          assert h[j..j + 2] == b[j..j + 2];
          ContainsAt(b, "._", j);
        }
      } else {
        assert h[j..j + 2][1] == h[|b|];
      }
    }
    assert h[|b|..|b| + 2] == "._";
    IndexOfIs(h, "._", |b|);
    assert BeforeFirst(h, "._") == b;
  }

  const ExcludedWords: seq<string> := ["video", "play", "sprite", "icon", "gif"]

  /** A video thumbnail or small icon: the lower-cased URL mentions one of the excluded words. */
  predicate Excluded(url: string) {
    MentionsAny(Lower(url), ExcludedWords)
  }

  /** Python's `any(w in s for w in words)`. */
  predicate MentionsAny(s: string, words: seq<string>) {
    words != [] && (Contains(s, words[0]) || MentionsAny(s, words[1..]))
  }

  predicate NoDuplicates(images: seq<string>) {
    forall i, j :: 0 <= i < j < |images| ==> images[i] != images[j]
  }

  /** Append `url` unless it is already listed. */
  function AddNew(images: seq<string>, url: string): (r: seq<string>)
    ensures NoDuplicates(images) ==> NoDuplicates(r)
    ensures forall u :: u in r <==> u in images || u == url
    ensures images <= r
  {
    if url in images then images else images + [url]
  }

  // ---------------------------------------------------------------------------
  // Strategy 1: thumbnails

  /** The URL a thumbnail's image gives: its `data-old-hires`, else the rewrite of its `src`. */
  function ThumbUrl(thumb: Option<Img>): Option<string> {
    match thumb
    case None => None
    case Some(img) =>
      if img.hiRes.Some? then img.hiRes
      else if img.src.Some? then Some(HighRes(img.src.value))
      else None
  }

  /** The thumbnail list after the thumbnails seen so far. */
  function ThumbImagesOf(thumbs: seq<Option<Img>>): seq<string> {
    if thumbs == [] then []
    else
      var images := ThumbImagesOf(thumbs[..|thumbs| - 1]);
      match ThumbUrl(thumbs[|thumbs| - 1])
      case None => images
      case Some(u) => if Excluded(u) then images else AddNew(images, u)
  }

  /**
   * The thumbnail loop. `imageUrl` is the single variable the loop reuses: a
   * thumbnail whose image has neither attribute leaves it as the previous
   * thumbnail set it (or unset, which raises and skips the thumbnail).
   */
  method ThumbnailImages(thumbs: seq<Option<Img>>) returns (images: seq<string>)
    ensures images == ThumbImagesOf(thumbs)
  {
    images := [];
    var imageUrl: Option<string> := None;
    for i := 0 to |thumbs|
      invariant images == ThumbImagesOf(thumbs[..i])
      invariant imageUrl.Some? ==> imageUrl.value in images || Excluded(imageUrl.value)
    {
      assert thumbs[..i + 1][..i] == thumbs[..i];
      var thumb := thumbs[i];
      if thumb.None? {
        continue;
      }
      var img := thumb.value;
      if img.hiRes.Some? {
        imageUrl := img.hiRes;
      } else if img.src.Some? {
        var baseUrl := BeforeFirst(img.src.value, "._");
        imageUrl := Some(baseUrl + HighResSuffix);
      }
      if imageUrl.None? {
        continue;
      }
      var url := imageUrl.value;
      if !Excluded(url) {
        if url !in images {
          images := images + [url];
        }
      }
    }
    assert thumbs[..|thumbs|] == thumbs;
  }

  /** The thumbnail list never repeats a URL. */
  lemma {:induction false} ThumbImagesUnique(thumbs: seq<Option<Img>>)
    ensures NoDuplicates(ThumbImagesOf(thumbs))
  {
    if thumbs != [] {
      ThumbImagesUnique(thumbs[..|thumbs| - 1]);
    }
  }

  /** A thumbnail gives URL `u`. */
  predicate ThumbGives(thumbs: seq<Option<Img>>, u: string) {
    exists i :: 0 <= i < |thumbs| && ThumbUrl(thumbs[i]) == Some(u)
  }

  /** A thumbnail of `thumbs` gives `u` iff one of the earlier ones or the last one does. */
  lemma ThumbGivesStep(thumbs: seq<Option<Img>>, u: string)
    requires thumbs != []
    ensures ThumbGives(thumbs, u) <==>
              ThumbGives(thumbs[..|thumbs| - 1], u) || ThumbUrl(thumbs[|thumbs| - 1]) == Some(u)
  {
    var init := thumbs[..|thumbs| - 1];
    if ThumbGives(init, u) {
      var i :| 0 <= i < |init| && ThumbUrl(init[i]) == Some(u);
      assert thumbs[i] == init[i];
    }
    if ThumbGives(thumbs, u) && ThumbUrl(thumbs[|thumbs| - 1]) != Some(u) {
      var i :| 0 <= i < |thumbs| && ThumbUrl(thumbs[i]) == Some(u);
      assert init[i] == thumbs[i];
    }
  }

  /** One thumbnail adds `u` to the list iff it gives `u` and `u` is not excluded. */
  lemma ThumbImagesStep(thumbs: seq<Option<Img>>, u: string)
    requires thumbs != []
    ensures u in ThumbImagesOf(thumbs) <==>
              u in ThumbImagesOf(thumbs[..|thumbs| - 1]) || (ThumbUrl(thumbs[|thumbs| - 1]) == Some(u) && !Excluded(u))
  {
  }

  /** The thumbnail list holds exactly the non-excluded URLs of the thumbnails. */
  lemma {:induction false} ThumbImagesAre(thumbs: seq<Option<Img>>, u: string)
    ensures u in ThumbImagesOf(thumbs) <==> !Excluded(u) && ThumbGives(thumbs, u)
  {
    if thumbs != [] {
      ThumbImagesAre(thumbs[..|thumbs| - 1], u);
      ThumbImagesStep(thumbs, u);
      ThumbGivesStep(thumbs, u);
    }
  }

  // ---------------------------------------------------------------------------
  // Strategy 3: images with a dynamic-image attribute

  /**
   * The URL a dynamic image gives: the rewrite of the first key of its attribute's
   * JSON object. `None` stands for an attribute that is not a JSON object.
   */
  function DynamicUrl(keys: Option<seq<string>>): Option<string> {
    match keys
    case None => None
    case Some(ks) => if ks == [] then None else Some(HighRes(ks[0]))
  }

  function DynamicImagesOf(dynamic: seq<Option<seq<string>>>): seq<string> {
    if dynamic == [] then []
    else
      var images := DynamicImagesOf(dynamic[..|dynamic| - 1]);
      match DynamicUrl(dynamic[|dynamic| - 1])
      case None => images
      case Some(u) => AddNew(images, u)
  }

  /** The dynamic-image list holds exactly the URLs the attributes give, each once. */
  lemma {:induction false} DynamicImagesAre(dynamic: seq<Option<seq<string>>>)
    ensures NoDuplicates(DynamicImagesOf(dynamic))
    ensures forall u :: u in DynamicImagesOf(dynamic) <==>
              exists i :: 0 <= i < |dynamic| && DynamicUrl(dynamic[i]) == Some(u)
  {
    if dynamic != [] {
      var init := dynamic[..|dynamic| - 1];
      DynamicImagesAre(init);
      assert forall i :: 0 <= i < |init| ==> init[i] == dynamic[i];
      forall u | exists i :: 0 <= i < |dynamic| && DynamicUrl(dynamic[i]) == Some(u)
        ensures u in DynamicImagesOf(dynamic)
      {
        var i :| 0 <= i < |dynamic| && DynamicUrl(dynamic[i]) == Some(u);
        if i < |init| {
          assert DynamicUrl(init[i]) == Some(u);
        }
      }
    }
  }

  // ---------------------------------------------------------------------------
  // The three strategies together

  /**
   * What the page offers the image strategies: the thumbnails of the primary
   * class, those of the alternative class, the `src` of the main image, and
   * the attribute of every image carrying a dynamic-image attribute.
   */
  datatype ImagePage = ImagePage(
    primaryThumbs: seq<Option<Img>>,
    alternativeThumbs: seq<Option<Img>>,
    mainImageSrc: Option<string>,
    dynamicImages: seq<Option<seq<string>>>)

  /** The alternative thumbnails are used only when the primary class matches nothing. */
  function Thumbnails(page: ImagePage): seq<Option<Img>> {
    if page.primaryThumbs != [] then page.primaryThumbs else page.alternativeThumbs
  }

  function ProductImagesOf(page: ImagePage): seq<string> {
    var thumbImages := ThumbImagesOf(Thumbnails(page));
    var images :=
      if thumbImages == [] && page.mainImageSrc.Some? then [HighRes(page.mainImageSrc.value)]
      else thumbImages;
    if images == [] then DynamicImagesOf(page.dynamicImages) else images
  }

  /** `_get_product_images`: thumbnails, then the main image, then the dynamic images. */
  method GetProductImages(page: ImagePage) returns (images: seq<string>)
    ensures images == ProductImagesOf(page)
  {
    images := ThumbnailImages(Thumbnails(page));
    if images == [] {
      if page.mainImageSrc.Some? {
        var baseUrl := BeforeFirst(page.mainImageSrc.value, "._");
        images := images + [baseUrl + HighResSuffix];
      }
    }
    if images == [] {
      for i := 0 to |page.dynamicImages|
        invariant images == DynamicImagesOf(page.dynamicImages[..i])
      {
        assert page.dynamicImages[..i + 1][..i] == page.dynamicImages[..i];
        var keys := page.dynamicImages[i];
        if keys.None? {
          continue;
        }
        if keys.value != [] {
          var baseUrl := BeforeFirst(keys.value[0], "._");
          var highResUrl := baseUrl + HighResSuffix;
          if highResUrl !in images {
            images := images + [highResUrl];
          }
        }
      }
      assert page.dynamicImages[..|page.dynamicImages|] == page.dynamicImages;
    }
  }

  /**
   * The product images never repeat; a later strategy is used only when the
   * earlier ones found nothing; and the exclusion filter applies to thumbnails only.
   */
  lemma ProductImagesPrecedence(page: ImagePage)
    ensures NoDuplicates(ProductImagesOf(page))
    ensures ThumbImagesOf(Thumbnails(page)) != [] ==> ProductImagesOf(page) == ThumbImagesOf(Thumbnails(page))
    ensures ThumbImagesOf(Thumbnails(page)) == [] && page.mainImageSrc.Some? ==>
              ProductImagesOf(page) == [HighRes(page.mainImageSrc.value)]
    ensures ThumbImagesOf(Thumbnails(page)) == [] && page.mainImageSrc.None? ==>
              ProductImagesOf(page) == DynamicImagesOf(page.dynamicImages)
  {
    ThumbImagesUnique(Thumbnails(page));
    DynamicImagesAre(page.dynamicImages);
  }

  /** Every product image that is not a thumbnail's `data-old-hires` ends in the high-resolution suffix. */
  lemma ProductImagesRewritten(page: ImagePage, u: string)
    requires u in ProductImagesOf(page)
    ensures (exists i :: 0 <= i < |Thumbnails(page)| && Thumbnails(page)[i].Some? &&
               Thumbnails(page)[i].value.hiRes == Some(u)) ||
            (|HighResSuffix| <= |u| && u[|u| - |HighResSuffix|..] == HighResSuffix)
  {
    var thumbs := Thumbnails(page);
    ThumbImagesAre(thumbs, u);
    DynamicImagesAre(page.dynamicImages);
    if u in ThumbImagesOf(thumbs) {
      var i :| 0 <= i < |thumbs| && ThumbUrl(thumbs[i]) == Some(u);
    } else if ThumbImagesOf(thumbs) == [] && page.mainImageSrc.Some? {
    } else {
      var i :| 0 <= i < |page.dynamicImages| && DynamicUrl(page.dynamicImages[i]) == Some(u);
    }
  }

  // ---------------------------------------------------------------------------
  // Manufacturer images

  /** The `src` of every image in the manufacturer section that has one, in page order. */
  function ManufacturerSources(section: Option<seq<Option<string>>>): (r: seq<string>)
    ensures section.None? ==> r == []
    ensures section.Some? ==> forall u :: u in r <==> Some(u) in section.value
  {
    match section
    case None => []
    case Some(srcs) => SomeValues(srcs)
  }

  function SomeValues(srcs: seq<Option<string>>): (r: seq<string>)
    ensures forall u :: u in r <==> Some(u) in srcs
  {
    if srcs == [] then []
    else
      var init := srcs[..|srcs| - 1];
      assert srcs == init + [srcs[|srcs| - 1]];
      SomeValues(init) + (if srcs[|srcs| - 1].Some? then [srcs[|srcs| - 1].value] else [])
  }

  /**
   * `_get_manufacturer_images`: the sources are collected, then put through a set
   * and back into a list, which loses duplicates and leaves the order unspecified.
   */
  method GetManufacturerImages(section: Option<seq<Option<string>>>) returns (images: seq<string>)
    ensures NoDuplicates(images)
    ensures forall u :: u in images <==> u in ManufacturerSources(section)
  {
    var collected: seq<string> := [];
    if section.Some? {
      var srcs := section.value;
      for i := 0 to |srcs|
        invariant collected == SomeValues(srcs[..i])
      {
        assert srcs[..i + 1][..i] == srcs[..i];
        if srcs[i].Some? {
          collected := collected + [srcs[i].value];
        }
      }
      assert srcs[..|srcs|] == srcs;
    }
    var unique := set u | u in collected;
    images := [];
    while unique != {}
      invariant NoDuplicates(images)
      invariant forall u :: u in images ==> u in collected && u !in unique
      invariant forall u :: u in collected ==> u in images || u in unique
      invariant unique <= set u | u in collected
      decreases |unique|
    {
      var u :| u in unique;
      images := images + [u];
      unique := unique - {u};
    }
  }
}
