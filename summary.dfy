/**
 * The generated review summary: up to six clauses chosen from the product's
 * price, feature bullets, technical details and discount, joined into sentences
 * and followed by a closing sentence picked by price.
 */
module Summary {
  import opened Wrappers
  import opened Text
  import opened Details

  // Written in two pieces so that the verifier can see the first word of the sentence.
  const Fallback := "Unable" + " to generate review summary due to insufficient product information."
  const Lead := " Based on the specifications and features, this TV provides "
  const BudgetClosing := "good value for budget-conscious buyers looking for a smart TV with basic features."
  const BalancedClosing := "a balanced mix of features and performance for the average user."
  const PremiumClosing := "a premium viewing experience with advanced features for demanding users."

  /** Python truthiness of the selling price: present and non-zero. */
  predicate PriceGiven(price: Option<real>) {
    price.Some? && price.value != 0.0
  }

  /** Python truthiness of the discount text: present and non-empty. */
  predicate DiscountGiven(discount: Option<string>) {
    discount.Some? && discount.value != []
  }

  /** `tech_info.get(k, '')`. */
  function InfoText(info: Info, k: string): string {
    match Get(info, k)
    case None => ""
    case Some(v) => v
  }

  predicate Is4K(info: Info) {
    var resolution := Lower(InfoText(info, "Resolution"));
    Contains(resolution, "3840 x 2160") || Contains(resolution, "4k")
  }

  /** The three capabilities a smart bullet can name. */
  const Voice := "voice control capabilities"
  const Wireless := "wireless connectivity"
  const Streaming := "access to streaming services"

  /** The capabilities one feature bullet contributes: none unless it mentions "smart". */
  function SmartOf(feature: string): seq<string> {
    var f := Lower(feature);
    if !Contains(f, "smart") then []
    else
      (if Contains(f, "alexa") || Contains(f, "google assistant") then [Voice] else []) +
      (if Contains(f, "wifi") || Contains(f, "wireless") then [Wireless] else []) +
      (if Contains(f, "streaming") || Contains(f, "ott") then [Streaming] else [])
  }

  /** The lists `f` gives for the items, concatenated in order. */
  function ConcatMap(items: seq<string>, f: string -> seq<string>): seq<string> {
    if items == [] then []
    else ConcatMap(items[..|items| - 1], f) + f(items[|items| - 1])
  }

  /** The concatenation is non-empty exactly when some item gives a non-empty list. */
  lemma {:induction false} ConcatMapNonEmptyIff(items: seq<string>, f: string -> seq<string>)
    ensures ConcatMap(items, f) != [] <==> exists i :: 0 <= i < |items| && f(items[i]) != []
  {
    if items != [] {
      var init := items[..|items| - 1];
      ConcatMapNonEmptyIff(init, f);
      if exists i :: 0 <= i < |init| && f(init[i]) != [] {
        var i :| 0 <= i < |init| && f(init[i]) != [];
        assert items[i] == init[i];
      }
      if exists i :: 0 <= i < |items| && f(items[i]) != [] {
        var i :| 0 <= i < |items| && f(items[i]) != [];
        if i < |init| {
          assert init[i] == items[i];
        }
      }
    }
  }

  /** `x` is among the lists `f` gives exactly when some item gives it. */
  lemma {:induction false} ConcatMapHas(items: seq<string>, f: string -> seq<string>, x: string)
    ensures x in ConcatMap(items, f) <==> exists i :: 0 <= i < |items| && x in f(items[i])
  {
    if items != [] {
      var init := items[..|items| - 1];
      ConcatMapHas(init, f, x);
      if exists i :: 0 <= i < |init| && x in f(init[i]) {
        var i :| 0 <= i < |init| && x in f(init[i]);
        assert items[i] == init[i];
      }
      if exists i :: 0 <= i < |items| && x in f(items[i]) {
        var i :| 0 <= i < |items| && x in f(items[i]);
        if i < |init| {
          assert init[i] == items[i];
        }
      }
    }
  }

  /** The capabilities of the bullets seen so far, in order, repeats kept. */
  function SmartFeatures(features: seq<string>): seq<string> {
    ConcatMap(features, SmartOf)
  }

  /** Some bullet yields a capability exactly when the capability list is non-empty. */
  lemma SmartFeaturesIff(features: seq<string>)
    ensures SmartFeatures(features) != [] <==> exists i :: 0 <= i < |features| && SmartOf(features[i]) != []
  {
    ConcatMapNonEmptyIff(features, SmartOf);
  }

  /** A smart bullet that mentions Alexa or the Google Assistant. */
  predicate VoiceBullet(feature: string) {
    var f := Lower(feature);
    Contains(f, "smart") && (Contains(f, "alexa") || Contains(f, "google assistant"))
  }

  /** A smart bullet that mentions Wi-Fi or wireless. */
  predicate WirelessBullet(feature: string) {
    var f := Lower(feature);
    Contains(f, "smart") && (Contains(f, "wifi") || Contains(f, "wireless"))
  }

  /** A smart bullet that mentions streaming or OTT. */
  predicate StreamingBullet(feature: string) {
    var f := Lower(feature);
    Contains(f, "smart") && (Contains(f, "streaming") || Contains(f, "ott"))
  }

  /** The three capabilities, and the bullets that give each of them. */
  lemma SmartOfMeaning(feature: string)
    ensures Voice in SmartOf(feature) <==> VoiceBullet(feature)
    ensures Wireless in SmartOf(feature) <==> WirelessBullet(feature)
    ensures Streaming in SmartOf(feature) <==> StreamingBullet(feature)
    ensures forall x :: x in SmartOf(feature) ==>
              x == Voice || x == Wireless || x == Streaming
  {
    assert |Voice| != |Wireless| && |Voice| != |Streaming| && |Wireless| != |Streaming|;
  }

  /**
   * Each capability is listed exactly when some bullet gives it, and no other text
   * is ever listed.
   */
  lemma SmartFeaturesFromBullets(features: seq<string>)
    ensures Voice in SmartFeatures(features) <==>
              exists i :: 0 <= i < |features| && VoiceBullet(features[i])
    ensures Wireless in SmartFeatures(features) <==>
              exists i :: 0 <= i < |features| && WirelessBullet(features[i])
    ensures Streaming in SmartFeatures(features) <==>
              exists i :: 0 <= i < |features| && StreamingBullet(features[i])
    ensures forall x :: x in SmartFeatures(features) ==>
              x == Voice || x == Wireless || x == Streaming
  {
    forall i | 0 <= i < |features| {
      SmartOfMeaning(features[i]);
    }
    ConcatMapHas(features, SmartOf, Voice);
    ConcatMapHas(features, SmartOf, Wireless);
    ConcatMapHas(features, SmartOf, Streaming);
    forall x | x in SmartFeatures(features)
      ensures x == Voice || x == Wireless || x == Streaming
    {
      ConcatMapHas(features, SmartOf, x);
    }
  }

  function Segment(price: real): string {
    if price < 25000.0 then "budget-friendly"
    else if price < 50000.0 then "mid-range"
    else "premium"
  }

  function Closing(price: Option<real>): string {
    if PriceGiven(price) && price.value < 30000.0 then BudgetClosing
    else if PriceGiven(price) && price.value < 50000.0 then BalancedClosing
    else PremiumClosing
  }

  /** A clause of the summary: it begins with one of the words the clauses begin with. */
  predicate ClauseShaped(c: string) {
    c != [] && c[0] in "TWFEC"
  }

  function ResolutionClause(info: Info): (r: seq<string>)
    ensures |r| <= 1 && (r != [] <==> Is4K(info)) && forall c :: c in r ==> ClauseShaped(c)
  {
    if Is4K(info) then ["This TV offers crisp 4K Ultra HD resolution"] else []
  }

  function ScreenClause(info: Info): (r: seq<string>)
    ensures |r| <= 1 && (r != [] <==> InfoText(info, "Standing screen display size") != [])
    ensures forall c :: c in r ==> ClauseShaped(c)
  {
    var screenSize := InfoText(info, "Standing screen display size");
    if screenSize != [] then ["With a " + screenSize + " display"] else []
  }

  function SmartClause(features: seq<string>): (r: seq<string>)
    ensures |r| <= 1 && (r != [] <==> SmartFeatures(features) != []) && forall c :: c in r ==> ClauseShaped(c)
  {
    var smart := SmartFeatures(features);
    if smart != [] then ["Features " + Join(smart, ", ")] else []
  }

  function SoundClause(info: Info): (r: seq<string>)
    ensures |r| <= 1 && (r != [] <==> InfoText(info, "Speakers Maximum Output Power") != [])
    ensures forall c :: c in r ==> ClauseShaped(c)
  {
    var sound := InfoText(info, "Speakers Maximum Output Power");
    if sound != [] then ["Equipped with " + sound + " speaker output"] else []
  }

  function TierClause(price: Option<real>): (r: seq<string>)
    ensures |r| <= 1 && (r != [] <==> PriceGiven(price)) && forall c :: c in r ==> ClauseShaped(c)
  {
    if PriceGiven(price) then ["This " + Segment(price.value) + " TV offers"] else []
  }

  function DiscountClause(discount: Option<string>): (r: seq<string>)
    ensures |r| <= 1 && (r != [] <==> DiscountGiven(discount)) && forall c :: c in r ==> ClauseShaped(c)
  {
    if DiscountGiven(discount) then ["Currently available at a " + discount.value + " discount"] else []
  }

  /** The clauses that fire, in order. */
  function Clauses(price: Option<real>, features: seq<string>, info: Info, discount: Option<string>): seq<string> {
    var described := ResolutionClause(info) + ScreenClause(info) + SmartClause(features) + SoundClause(info);
    described + TierClause(price) + DiscountClause(discount)
  }

  /** What follows the joined clauses: a full stop, the lead-in and the closing sentence. */
  function Ending(price: Option<real>): string {
    "." + Lead + Closing(price)
  }

  function ReviewSummary(price: Option<real>, features: seq<string>, info: Info, discount: Option<string>): string {
    var parts := Clauses(price, features, info, discount);
    if parts == [] then Fallback
    else Join(parts, ". ") + Ending(price)
  }

  /** `_generate_ai_review_summary`, reading the selling price, bullets, technical details and discount. */
  method GenerateReviewSummary(price: Option<real>, features: seq<string>, info: Info, discount: Option<string>)
    returns (summary: string)
    ensures summary == ReviewSummary(price, features, info, discount)
  {
    var parts := CollectClauses(price, features, info, discount);
    if parts != [] {
      summary := Join(parts, ". ");
      summary := summary + ".";
      summary := summary + Lead;
      if price.Some? && price.value != 0.0 && price.value < 30000.0 {
        summary := summary + BudgetClosing;
      } else if price.Some? && price.value != 0.0 && price.value < 50000.0 {
        summary := summary + BalancedClosing;
      } else {
        summary := summary + PremiumClosing;
      }
      Reassociate(Join(parts, ". "), ".", Lead, Closing(price));
      return;
    }
    summary := Fallback;
  }

  lemma Reassociate(a: string, b: string, c: string, d: string)
    ensures a + b + c + d == a + (b + c + d)
  {
  }

  /** The `summary_parts` list, clause by clause. */
  method CollectClauses(price: Option<real>, features: seq<string>, info: Info, discount: Option<string>)
    returns (parts: seq<string>)
    ensures parts == Clauses(price, features, info, discount)
  {
    parts := DescriptionClauses(features, info);
    ghost var described := parts;
    if price.Some? && price.value != 0.0 {
      var segment;
      if price.value < 25000.0 {
        segment := "budget-friendly";
      } else if price.value < 50000.0 {
        segment := "mid-range";
      } else {
        segment := "premium";
      }
      parts := parts + ["This " + segment + " TV offers"];
    }
    assert parts == described + TierClause(price);
    if discount.Some? && discount.value != [] {
      parts := parts + ["Currently available at a " + discount.value + " discount"];
    }
  }

  /** The first four clauses: resolution, screen size, smart capabilities and speaker power. */
  method DescriptionClauses(features: seq<string>, info: Info) returns (parts: seq<string>)
    ensures parts == ResolutionClause(info) + ScreenClause(info) + SmartClause(features) + SoundClause(info)
  {
    parts := [];
    var resolution := Lower(InfoText(info, "Resolution"));
    if Contains(resolution, "3840 x 2160") || Contains(resolution, "4k") {
      parts := parts + ["This TV offers crisp 4K Ultra HD resolution"];
    }
    var screenSize := InfoText(info, "Standing screen display size");
    if screenSize != [] {
      parts := parts + ["With a " + screenSize + " display"];
    }
    assert parts == ResolutionClause(info) + ScreenClause(info);
    var smart := CollectSmartFeatures(features);
    if smart != [] {
      parts := parts + ["Features " + Join(smart, ", ")];
    }
    assert parts == ResolutionClause(info) + ScreenClause(info) + SmartClause(features);
    var sound := InfoText(info, "Speakers Maximum Output Power");
    if sound != [] {
      parts := parts + ["Equipped with " + sound + " speaker output"];
    }
  }

  /** The loop over the feature bullets that gathers the smart capabilities. */
  method CollectSmartFeatures(features: seq<string>) returns (smart: seq<string>)
    ensures smart == SmartFeatures(features)
  {
    smart := [];
    for i := 0 to |features|
      invariant smart == SmartFeatures(features[..i])
    {
      assert features[..i + 1][..i] == features[..i];
      assert SmartFeatures(features[..i + 1]) == SmartFeatures(features[..i]) + SmartOf(features[i]);
      ghost var before := smart;
      var f := Lower(features[i]);
      if Contains(f, "smart") {
        var voice := Contains(f, "alexa") || Contains(f, "google assistant");
        var wireless := Contains(f, "wifi") || Contains(f, "wireless");
        var streaming := Contains(f, "streaming") || Contains(f, "ott");
        assert SmartOf(features[i]) ==
          (if voice then [Voice] else []) + (if wireless then [Wireless] else []) + (if streaming then [Streaming] else []);
        if voice {
          smart := smart + [Voice];
        }
        if wireless {
          smart := smart + [Wireless];
        }
        if streaming {
          smart := smart + [Streaming];
        }
      }
      assert smart == before + SmartOf(features[i]);
    }
    assert features[..|features|] == features;
  }

  /** `s` ends with `t`. */
  predicate EndsWith(s: string, t: string) {
    |t| <= |s| && s[|s| - |t|..] == t
  }

  /** The summary is the fixed fallback sentence exactly when no clause fires. */
  lemma SummaryFallbackIffNoClause(price: Option<real>, features: seq<string>, info: Info, discount: Option<string>)
    ensures ReviewSummary(price, features, info, discount) == Fallback <==> Clauses(price, features, info, discount) == []
  {
    var parts := Clauses(price, features, info, discount);
    if parts != [] {
      assert parts[0] in parts;
      JoinedDiffersFromFallback(parts, Ending(price));
    }
  }

  /** Joined clauses begin with a clause's first letter, which the fallback sentence does not. */
  lemma JoinedDiffersFromFallback(parts: seq<string>, ending: string)
    requires parts != [] && ClauseShaped(parts[0])
    ensures Join(parts, ". ") + ending != Fallback
  {
    JoinStartsWithFirst(parts, ". ");
    var s := Join(parts, ". ") + ending;
    assert s[0] == parts[0][0];
    assert Fallback[0] == 'U';
  }

  /**
   * The summary is the fixed fallback sentence exactly when nothing is known:
   * no 4K resolution, no screen size, no smart capability, no speaker power,
   * no non-zero price and no discount.
   */
  lemma SummaryFallbackIff(price: Option<real>, features: seq<string>, info: Info, discount: Option<string>)
    ensures ReviewSummary(price, features, info, discount) == Fallback <==>
            && !Is4K(info)
            && InfoText(info, "Standing screen display size") == []
            && (forall i :: 0 <= i < |features| ==> SmartOf(features[i]) == [])
            && InfoText(info, "Speakers Maximum Output Power") == []
            && !PriceGiven(price)
            && !DiscountGiven(discount)
  {
    SummaryFallbackIffNoClause(price, features, info, discount);
    SmartFeaturesIff(features);
  }

  /** A non-zero price puts its tier in the summary: below 25000, below 50000, or above. */
  lemma SummaryNamesTier(price: Option<real>, features: seq<string>, info: Info, discount: Option<string>)
    requires PriceGiven(price)
    ensures var s := ReviewSummary(price, features, info, discount);
            && (price.value < 25000.0 ==> Contains(s, "This " + "budget-friendly" + " TV offers"))
            && (25000.0 <= price.value < 50000.0 ==> Contains(s, "This " + "mid-range" + " TV offers"))
            && (50000.0 <= price.value ==> Contains(s, "This " + "premium" + " TV offers"))
  {
    var parts := Clauses(price, features, info, discount);
    var clause := "This " + Segment(price.value) + " TV offers";
    var described := ResolutionClause(info) + ScreenClause(info) + SmartClause(features) + SoundClause(info);
    var i := |described|;
    assert parts[i] == clause;
    JoinHasPart(parts, ". ", i);
    ContainsExtends(Join(parts, ". "), Ending(price), clause);
  }

  /**
   * A smart bullet with a capability's keyword puts that capability in the summary:
   * voice control for Alexa or the Google Assistant, wireless connectivity for Wi-Fi
   * or wireless, streaming services for streaming or OTT.
   */
  lemma SummaryNamesCapabilities(price: Option<real>, features: seq<string>, info: Info, discount: Option<string>, i: nat)
    requires i < |features|
    ensures var s := ReviewSummary(price, features, info, discount);
            && (VoiceBullet(features[i]) ==> Contains(s, Voice))
            && (WirelessBullet(features[i]) ==> Contains(s, Wireless))
            && (StreamingBullet(features[i]) ==> Contains(s, Streaming))
  {
    SmartFeaturesFromBullets(features);
    if VoiceBullet(features[i]) {
      SummaryQuotesCapability(price, features, info, discount, Voice);
    }
    if WirelessBullet(features[i]) {
      SummaryQuotesCapability(price, features, info, discount, Wireless);
    }
    if StreamingBullet(features[i]) {
      SummaryQuotesCapability(price, features, info, discount, Streaming);
    }
  }

  /** A listed capability is quoted in the summary, inside the "Features ..." clause. */
  lemma SummaryQuotesCapability(price: Option<real>, features: seq<string>, info: Info, discount: Option<string>, cap: string)
    requires cap in SmartFeatures(features)
    ensures Contains(ReviewSummary(price, features, info, discount), cap)
  {
    var smart := SmartFeatures(features);
    var k :| 0 <= k < |smart| && smart[k] == cap;
    JoinHasPart(smart, ", ", k);
    var clause := "Features " + Join(smart, ", ");
    ContainsPrepends("Features ", Join(smart, ", "), cap);
    var parts := Clauses(price, features, info, discount);
    var i := |ResolutionClause(info)| + |ScreenClause(info)|;
    assert parts[i] == clause;
    JoinHasPart(parts, ". ", i);
    ContainsTrans(Join(parts, ". "), clause, cap);
    ContainsExtends(Join(parts, ". "), Ending(price), cap);
  }

  /** A discount is quoted in the summary. */
  lemma SummaryQuotesDiscount(price: Option<real>, features: seq<string>, info: Info, discount: Option<string>)
    requires DiscountGiven(discount)
    ensures Contains(ReviewSummary(price, features, info, discount), "Currently available at a " + discount.value + " discount")
  {
    var parts := Clauses(price, features, info, discount);
    var clause := "Currently available at a " + discount.value + " discount";
    assert parts[|parts| - 1] == clause;
    JoinHasPart(parts, ". ", |parts| - 1);
    ContainsExtends(Join(parts, ". "), Ending(price), clause);
  }

  /**
   * Unless it is the fallback, the summary ends with the closing sentence for
   * the price: under 30000, under 50000, or otherwise, which includes a missing
   * or zero price.
   */
  lemma SummaryClosing(price: Option<real>, features: seq<string>, info: Info, discount: Option<string>)
    requires Clauses(price, features, info, discount) != []
    ensures var s := ReviewSummary(price, features, info, discount);
            && (PriceGiven(price) && price.value < 30000.0 ==> EndsWith(s, BudgetClosing))
            && (PriceGiven(price) && 30000.0 <= price.value < 50000.0 ==> EndsWith(s, BalancedClosing))
            && (!PriceGiven(price) || 50000.0 <= price.value ==> EndsWith(s, PremiumClosing))
  {
    var s := ReviewSummary(price, features, info, discount);
    var c := Closing(price);
    assert s == Join(Clauses(price, features, info, discount), ". ") + (("." + Lead) + c);
    EndsWithNested(Join(Clauses(price, features, info, discount), ". "), "." + Lead, c);
  }

  lemma EndsWithNested(a: string, b: string, c: string)
    ensures EndsWith(a + (b + c), c)
  {
    assert (a + (b + c))[|a + (b + c)| - |c|..] == c;
  }
}
