/**
 * Bank-offer parsing (backend/amazon_scraper.py, `_get_bank_offers`): offer texts
 * from the revealed side panel, or failing that from the page's offer cards, turned
 * into offer records. The regular expressions of the source are written out as
 * scanners that find the same leftmost match and the same captured amount.
 */
module Offers {
  import opened Wrappers
  import opened Text
  import opened Numbers

  datatype Bank = HDFC | SBI | ICICI | Axis

  /** The `bank_name` string stored for a bank. */
  function BankLabel(b: Bank): string {
    match b
    case HDFC => "HDFC"
    case SBI => "SBI"
    case ICICI => "ICICI"
    case Axis => "Axis"
  }

  /** The bank table in its iteration order, each bank with its lower-case spellings. */
  const BankPatterns: seq<(Bank, seq<string>)> := [
    (HDFC, ["hdfc", "h.d.f.c"]),
    (SBI, ["sbi", "s.b.i"]),
    (ICICI, ["icici", "i.c.i.c.i"]),
    (Axis, ["axis"])
  ]

  /** Some spelling of table entry `i` occurs in the lower-cased text. */
  predicate Mentions(lowered: string, i: nat)
    requires i < |BankPatterns|
  {
    var patterns := BankPatterns[i].1;
    exists k :: 0 <= k < |patterns| && Contains(lowered, patterns[k])
  }

  /** The first table entry at or after `i` that the lower-cased text mentions. */
  function FirstBankFrom(lowered: string, i: nat): (r: Option<nat>)
    requires i <= |BankPatterns|
    decreases |BankPatterns| - i
    ensures r.Some? ==> i <= r.value < |BankPatterns| && Mentions(lowered, r.value)
    ensures r.Some? ==> forall j :: i <= j < r.value ==> !Mentions(lowered, j)
    ensures r.None? ==> forall j :: i <= j < |BankPatterns| ==> !Mentions(lowered, j)
  {
    if i == |BankPatterns| then None
    else if Mentions(lowered, i) then Some(i)
    else FirstBankFrom(lowered, i + 1)
  }

  /** The bank an offer names: the first table entry whose spelling occurs in the lower-cased text. */
  function BankOf(text: string): Option<Bank> {
    match FirstBankFrom(Lower(text), 0)
    case None => None
    case Some(i) => Some(BankPatterns[i].0)
  }

  /** The table loop: try the banks in order and stop at the first one mentioned. */
  method DetectBank(text: string) returns (bank: Option<Bank>)
    ensures bank == BankOf(text)
  {
    var lowered := Lower(text);
    bank := None;
    for i := 0 to |BankPatterns|
      invariant forall j :: 0 <= j < i ==> !Mentions(lowered, j)
    {
      if Mentions(lowered, i) {
        bank := Some(BankPatterns[i].0);
        break;
      }
    }
  }

  /** The bank named is the first table entry mentioned, whatever later entries are mentioned too. */
  lemma BankIsFirstMentioned(text: string, i: nat)
    requires i < |BankPatterns| && Mentions(Lower(text), i)
    requires forall j :: 0 <= j < i ==> !Mentions(Lower(text), j)
    ensures BankOf(text) == Some(BankPatterns[i].0)
  {
    var r := FirstBankFrom(Lower(text), 0);
    assert r.Some?;
    assert r.value == i;
  }

  /** No bank is named exactly when no spelling of any bank occurs. */
  lemma BankAbsentIff(text: string)
    ensures BankOf(text).None? <==> forall j :: 0 <= j < |BankPatterns| ==> !Mentions(Lower(text), j)
  {
  }

  /** An offer mentioning HDFC in any case is an HDFC offer. */
  lemma HdfcComesFirst(text: string)
    requires Contains(Lower(text), "hdfc")
    ensures BankOf(text) == Some(HDFC)
  {
    assert BankPatterns[0].1[0] == "hdfc";
    BankIsFirstMentioned(text, 0);
  }

  // ---------------------------------------------------------------------------
  // Scanners for the amount patterns

  /** The end of the run of digits that starts at `i`. */
  function DigitRunEnd(t: string, i: nat): (e: nat)
    requires i <= |t|
    decreases |t| - i
    ensures i <= e <= |t|
    ensures forall k :: i <= k < e ==> IsDigit(t[k])
    ensures e < |t| ==> !IsDigit(t[e])
  {
    if i < |t| && IsDigit(t[i]) then DigitRunEnd(t, i + 1) else i
  }

  /** The end of the run of whitespace that starts at `i` (`\s*`). */
  function SkipSpaces(t: string, i: nat): (e: nat)
    requires i <= |t|
    decreases |t| - i
    ensures i <= e <= |t|
    ensures forall k :: i <= k < e ==> IsSpace(t[k])
    ensures e < |t| ==> !IsSpace(t[e])
  {
    if i < |t| && IsSpace(t[i]) then SkipSpaces(t, i + 1) else i
  }

  /**
   * The end of the greedy match of `\d+(?:,\d+)?(?:\.\d{2})?` at `d`: digits, at most
   * one comma group, and a point only when exactly two digits can follow it.
   */
  function AmountEnd(t: string, d: nat): (e: nat)
    requires d < |t| && IsDigit(t[d])
    ensures d < e <= |t|
    ensures forall k :: d <= k < e ==> IsDigit(t[k]) || t[k] == ',' || t[k] == '.'
    ensures IsDigit(t[e - 1])
  {
    var e1 := DigitRunEnd(t, d);
    var e2 := if e1 + 1 < |t| && t[e1] == ',' && IsDigit(t[e1 + 1]) then DigitRunEnd(t, e1 + 1) else e1;
    if e2 + 2 < |t| && t[e2] == '.' && IsDigit(t[e2 + 1]) && IsDigit(t[e2 + 2]) then e2 + 3 else e2
  }

  /**
   * `s` is matched whole by `\d+(?:,\d+)?(?:\.\d{2})?`, with the comma group starting
   * at `i` and the decimals at `j` (`j == i` without a comma group, `j == |s|`
   * without decimals).
   */
  predicate AmountSplit(s: string, i: nat, j: nat) {
    && 0 < i <= j <= |s|
    && (forall k :: 0 <= k < i ==> IsDigit(s[k]))
    && (j == i || (i + 2 <= j && s[i] == ',' && forall k :: i < k < j ==> IsDigit(s[k])))
    && (j == |s| || (j + 3 == |s| && s[j] == '.' && IsDigit(s[j + 1]) && IsDigit(s[j + 2])))
  }

  /** `s` is an amount as the offer patterns capture it. */
  predicate IsAmount(s: string) {
    exists i: nat, j: nat | i <= j <= |s| :: AmountSplit(s, i, j)
  }

  /**
   * `AmountEnd` is the greedy match: the span it ends is an amount, and no longer
   * span from `d` is one.
   */
  lemma AmountEndIsGreedy(t: string, d: nat)
    requires d < |t| && IsDigit(t[d])
    ensures IsAmount(t[d..AmountEnd(t, d)])
    ensures forall e :: AmountEnd(t, d) < e <= |t| ==> !IsAmount(t[d..e])
  {
    var e1 := DigitRunEnd(t, d);
    var e2 := if e1 + 1 < |t| && t[e1] == ',' && IsDigit(t[e1 + 1]) then DigitRunEnd(t, e1 + 1) else e1;
    var s := t[d..AmountEnd(t, d)];
    assert AmountSplit(s, e1 - d, e2 - d);
    forall e | AmountEnd(t, d) < e <= |t|
      ensures !IsAmount(t[d..e])
    {
      if IsAmount(t[d..e]) {
        var i: nat, j: nat :| AmountSplit(t[d..e], i, j);
        AmountNoLonger(t, d, e, i, j);
      }
    }
  }

  /** Any amount at `d` ends at or before `AmountEnd(t, d)`. */
  lemma AmountNoLonger(t: string, d: nat, e: nat, i: nat, j: nat)
    requires d < e <= |t| && IsDigit(t[d])
    requires AmountSplit(t[d..e], i, j)
    ensures e <= AmountEnd(t, d)
  {
    var s := t[d..e];
    assert forall k :: 0 <= k < |s| ==> s[k] == t[d + k];
    assert forall k :: d <= k < d + i ==> IsDigit(t[k]);
    assert i < |s| ==> !IsDigit(t[d + i]);
    assert j > i ==> t[d + i] == ',' && IsDigit(t[d + i + 1]);
    assert forall k :: d + i < k < d + j ==> IsDigit(t[k]);
    assert j < |s| ==> !IsDigit(t[d + j]) && t[d + j] == '.' && IsDigit(t[d + j + 1]) && IsDigit(t[d + j + 2]);
  }

  /** The captured amount at `d`, commas removed, read with `float()`. */
  function AmountValue(t: string, d: nat): Option<real>
    requires d < |t| && IsDigit(t[d])
  {
    ParseFloat(RemoveChar(t[d..AmountEnd(t, d)], ','))
  }

  /** `Discount` or `Cashback`, in any case, at `i`. */
  predicate KeywordAt(t: string, i: nat) {
    HasAtIgnoringCase(t, "discount", i) || HasAtIgnoringCase(t, "cashback", i)
  }

  /** `\s*(?:Instant\s+)?(?:Discount|Cashback)` matches at `e`, ignoring case. */
  predicate DiscountSuffixAt(t: string, e: nat)
    requires e <= |t|
  {
    var p := SkipSpaces(t, e);
    KeywordAt(t, p) ||
    (HasAtIgnoringCase(t, "instant", p) && p + 7 < |t| && IsSpace(t[p + 7]) && KeywordAt(t, SkipSpaces(t, p + 7)))
  }

  /**
   * The discount pattern has a match whose amount starts at `d`. Everything before the
   * amount in that pattern is optional and never consumes a digit, so the leftmost match
   * is the one whose amount starts at the smallest such `d`.
   */
  predicate DiscountMatchAt(t: string, d: nat) {
    d < |t| && IsDigit(t[d]) && DiscountSuffixAt(t, AmountEnd(t, d))
  }

  /** Where the discount pattern matches, position by position. */
  function DiscountMatches(t: string): nat -> bool {
    (j: nat) => DiscountMatchAt(t, j)
  }

  /** The first position at or after `d` where the discount pattern matches. */
  function DiscountMatchFrom(t: string, d: nat): (r: Option<nat>)
    requires d <= |t|
    ensures r.Some? ==> d <= r.value < |t| && DiscountMatchAt(t, r.value)
  {
    Leftmost(|t|, DiscountMatches(t), d)
  }

  /** No position before the one `DiscountMatchFrom` finds matches; none at all when it finds none. */
  lemma DiscountMatchFromIsLeftmost(t: string, d: nat)
    requires d <= |t|
    ensures DiscountMatchFrom(t, d).Some? ==> forall j :: d <= j < DiscountMatchFrom(t, d).value ==> !DiscountMatchAt(t, j)
    ensures DiscountMatchFrom(t, d).None? ==> forall j :: d <= j < |t| ==> !DiscountMatchAt(t, j)
  {
    forall j: nat | d <= j < |t|
      ensures DiscountMatches(t)(j) == DiscountMatchAt(t, j)
    {
    }
  }

  /** `discount_amount` of a side-panel offer. */
  function DiscountAmount(t: string): Option<real> {
    match DiscountMatchFrom(t, 0)
    case None => None
    case Some(d) => AmountValue(t, d)
  }

  /** A side-panel discount line: the leftmost match captures `1,500`, read as 1500. */
  lemma DiscountAmountExample()
    ensures DiscountAmount("Flat \U{20B9}1,500 Instant Discount") == Some(1500.0)
  {
    var t := "Flat \U{20B9}1,500 Instant Discount";
    ExampleLayout(t);
    ExampleAmountEnd(t);
    ExampleSuffix(t);
    ExampleMatchFrom(t);
    ExampleAmountValue(t);
  }

  /** The pieces of the example line, position by position. */
  predicate ExamplePieces(t: string) {
    && |t| == 28 && t[..5] == "Flat " && t[5] == '\U{20B9}' && t[6..11] == "1,500" && t[11] == ' '
    && t[12..19] == "Instant" && t[19] == ' ' && t[20..] == "Discount"
  }

  lemma ExampleLayout(t: string)
    requires t == "Flat \U{20B9}1,500 Instant Discount"
    ensures ExamplePieces(t)
  {
    var head := "Flat " + "\U{20B9}" + "1,500" + " ";
    var tail := "Instant" + " " + "Discount";
    assert t == head + tail;
    assert t[..12] == head && t[12..] == tail;
    assert head[..5] == "Flat " && head[6..11] == "1,500";
    assert tail[..7] == "Instant" && tail[8..] == "Discount";
    assert t[..5] == head[..5] && t[6..11] == head[6..11];
    assert t[12..19] == tail[..7] && t[20..] == tail[8..];
  }

  /** In the example line the amount at position 6 is `1,500`, ending before the space. */
  lemma ExampleAmountEnd(t: string)
    requires ExamplePieces(t)
    ensures IsDigit(t[6]) && AmountEnd(t, 6) == 11
  {
    assert t[6..11][0] == '1' && t[6..11][1] == ',' && t[6..11][2] == '5' && t[6..11][3] == '0' && t[6..11][4] == '0';
    assert DigitRunEnd(t, 6) == 7;
    assert DigitRunEnd(t, 8) == 11;
  }

  /** In the example line `Instant Discount` follows the amount. */
  lemma ExampleSuffix(t: string)
    requires ExamplePieces(t)
    ensures DiscountSuffixAt(t, 11)
  {
    assert t[12] == t[12..19][0] == 'I';
    assert t[20] == t[20..][0] == 'D';
    assert SkipSpaces(t, 11) == 12;
    assert SkipSpaces(t, 20) == 20;
    assert Lower("Instant") == "instant";
    assert Lower("Discount") == "discount";
    assert t[20..20 + |"discount"|] == t[20..];
    assert KeywordAt(t, 20);
  }

  /** In the example line the leftmost discount match has its amount at position 6. */
  lemma ExampleMatchFrom(t: string)
    requires ExamplePieces(t)
    requires IsDigit(t[6]) && AmountEnd(t, 6) == 11 && DiscountSuffixAt(t, 11)
    ensures DiscountMatchFrom(t, 0) == Some(6)
  {
    assert DiscountMatchAt(t, 6);
    forall j | 0 <= j < 6
      ensures !IsDigit(t[j])
    {
      if j < 5 {
        assert t[j] == t[..5][j];
      }
    }
    DiscountMatchFromIsLeftmost(t, 0);
  }

  /** The example's captured amount reads as 1500. */
  lemma ExampleAmountValue(t: string)
    requires ExamplePieces(t)
    requires IsDigit(t[6]) && AmountEnd(t, 6) == 11
    ensures AmountValue(t, 6) == Some(1500.0)
  {
    assert t[6..AmountEnd(t, 6)] == "1,500";
    ExampleCommas();
    ExampleDigitsValue();
  }

  lemma ExampleCommas()
    ensures RemoveChar("1,500", ',') == "1500"
  {
    assert "1,500" == "1" + ("," + "500");
    RemoveCharAppend("1", "," + "500", ',');
    RemoveCharAppend(",", "500", ',');
    RemoveCharAbsent("1", ',');
    RemoveCharAbsent("500", ',');
  }

  lemma ExampleDigitsValue()
    ensures ParseFloat("1500") == Some(1500.0)
  {
    ExampleFifteenHundred();
    ParseFloatDigits("1500");
  }

  lemma ExampleFifteenHundred()
    ensures DigitsValue("1500") == 1500
  {
    assert "1500"[..3] == "150";
    assert "150"[..2] == "15";
    assert "15"[..1] == "1";
  }

  /** Where `Min(?:imum)?\s*purchase|Min\s*value` ends when it matches at `s`, ignoring case. */
  function MinKeywordEnd(t: string, s: nat): (r: Option<nat>)
    ensures r.Some? ==> s + 3 < r.value <= |t|
  {
    if !HasAtIgnoringCase(t, "min", s) then None
    else if HasAtIgnoringCase(t, "imum", s + 3) then
      var q := SkipSpaces(t, s + 7);
      if HasAtIgnoringCase(t, "purchase", q) then Some(q + 8) else None
    else
      var q := SkipSpaces(t, s + 3);
      if HasAtIgnoringCase(t, "purchase", q) then Some(q + 8)
      else if HasAtIgnoringCase(t, "value", q) then Some(q + 5)
      else None
  }

  /** Past `(?:of\s*)?` at `a`: the word and the spaces after it when the word is there. */
  function OfEnd(t: string, a: nat): (b: nat)
    requires a <= |t|
    ensures a <= b <= |t|
  {
    if HasAtIgnoringCase(t, "of", a) then SkipSpaces(t, a + 2) else a
  }

  /** Past `(?:INR|Rs\.|₹)?` at `b`: the currency label or sign when one is there. */
  function CurrencyEnd(t: string, b: nat): (c: nat)
    requires b <= |t|
    ensures b <= c <= |t|
  {
    if HasAtIgnoringCase(t, "inr", b) || HasAtIgnoringCase(t, "rs.", b) then b + 3
    else if HasAt(t, "\U{20B9}", b) then b + 1
    else b
  }

  /**
   * Where the amount starts after `\s*(?:of\s*)?(?:INR|Rs\.|₹)?\s*`, if a digit is
   * there. Each optional part is taken when present (see `AmountStartAfterIsLead`).
   */
  function AmountStartAfter(t: string, e: nat): (r: Option<nat>)
    requires e <= |t|
    ensures r.Some? ==> e <= r.value < |t| && IsDigit(t[r.value])
  {
    var d := SkipSpaces(t, CurrencyEnd(t, OfEnd(t, SkipSpaces(t, e))));
    if d < |t| && IsDigit(t[d]) then Some(d) else None
  }

  /** `\s*` matches `t[i..j]`. */
  predicate SpacesBetween(t: string, i: nat, j: nat) {
    i <= j <= |t| && forall k :: i <= k < j ==> IsSpace(t[k])
  }

  /** `(?:of\s*)?` matches `t[x..y]`, ignoring case. */
  predicate OfPart(t: string, x: nat, y: nat) {
    y == x || (HasAtIgnoringCase(t, "of", x) && SpacesBetween(t, x + 2, y))
  }

  /** `(?:INR|Rs\.|₹)?` matches `t[y..z]`, ignoring case. */
  predicate CurrencyPart(t: string, y: nat, z: nat) {
    || z == y
    || (z == y + 3 && (HasAtIgnoringCase(t, "inr", y) || HasAtIgnoringCase(t, "rs.", y)))
    || (z == y + 1 && HasAt(t, "\U{20B9}", y))
  }

  /** `\s*(?:of\s*)?(?:INR|Rs\.|₹)?\s*` matches `t[e..p]`. */
  predicate LeadBetween(t: string, e: nat, p: nat) {
    exists x: nat, y: nat, z: nat | e <= x <= y <= z <= p ::
      SpacesBetween(t, e, x) && OfPart(t, x, y) && CurrencyPart(t, y, z) && SpacesBetween(t, z, p)
  }

  /**
   * The amount starts at `p` exactly when the lead pattern matches from `e` to `p`
   * and a digit follows; so there is none when no such `p` exists. Nothing the lead
   * pattern matches is a digit.
   */
  lemma AmountStartAfterIsLead(t: string, e: nat, p: nat)
    requires e <= |t|
    ensures AmountStartAfter(t, e) == Some(p) <==> LeadBetween(t, e, p) && p < |t| && IsDigit(t[p])
    ensures LeadBetween(t, e, p) ==> forall k :: e <= k < p ==> !IsDigit(t[k])
  {
    var a := SkipSpaces(t, e);
    var b := OfEnd(t, a);
    var c := CurrencyEnd(t, b);
    if AmountStartAfter(t, e) == Some(p) {
      assert OfPart(t, a, b) && CurrencyPart(t, b, c);
    }
    if LeadBetween(t, e, p) {
      var x: nat, y: nat, z: nat :| e <= x <= y <= z <= p &&
        SpacesBetween(t, e, x) && OfPart(t, x, y) && CurrencyPart(t, y, z) && SpacesBetween(t, z, p);
      LeadHasNoDigit(t, e, p, x, y, z);
      if p < |t| && IsDigit(t[p]) {
        LeadReachesDigit(t, e, p, x, y, z);
      }
    }
  }

  lemma LeadHasNoDigit(t: string, e: nat, p: nat, x: nat, y: nat, z: nat)
    requires e <= x <= y <= z <= p
    requires SpacesBetween(t, e, x) && OfPart(t, x, y) && CurrencyPart(t, y, z) && SpacesBetween(t, z, p)
    ensures forall k :: e <= k < p ==> !IsDigit(t[k])
  {
    if y > x {
      WordHasNoDigit(t, "of", x);
    }
    if z == y + 3 {
      if HasAtIgnoringCase(t, "inr", y) {
        WordHasNoDigit(t, "inr", y);
      } else {
        WordHasNoDigit(t, "rs.", y);
      }
    } else if z == y + 1 {
      assert t[y..y + 1][0] == t[y];
    }
  }

  /** A word without digits, found ignoring case, covers no digit. */
  lemma WordHasNoDigit(t: string, w: string, x: nat)
    requires HasAtIgnoringCase(t, w, x) && forall i :: 0 <= i < |w| ==> !IsDigit(w[i])
    ensures forall k :: x <= k < x + |w| ==> !IsDigit(t[k])
  {
    forall k | x <= k < x + |w|
      ensures !IsDigit(t[k])
    {
      LowerAt(t, w, x, k - x);
    }
  }

  /** `INR`, `Rs.` or `₹` starts at `y`. */
  predicate CurrencyAt(t: string, y: nat) {
    HasAtIgnoringCase(t, "inr", y) || HasAtIgnoringCase(t, "rs.", y) || HasAt(t, "\U{20B9}", y)
  }

  /**
   * The optional words of the lead pattern start with characters that are neither
   * spaces nor digits, and `of` starts with no currency.
   */
  lemma LeadWordStarts(t: string, y: nat)
    ensures HasAtIgnoringCase(t, "of", y) ==> !IsSpace(t[y]) && !IsDigit(t[y]) && !CurrencyAt(t, y)
    ensures CurrencyAt(t, y) ==> !IsSpace(t[y]) && !IsDigit(t[y])
    ensures HasAt(t, "\U{20B9}", y) ==> !HasAtIgnoringCase(t, "inr", y) && !HasAtIgnoringCase(t, "rs.", y)
  {
    if HasAtIgnoringCase(t, "of", y) {
      LowerAt(t, "of", y, 0);
    }
    if HasAtIgnoringCase(t, "inr", y) {
      LowerAt(t, "inr", y, 0);
    }
    if HasAtIgnoringCase(t, "rs.", y) {
      LowerAt(t, "rs.", y, 0);
    }
    if HasAt(t, "\U{20B9}", y) {
      assert t[y..y + 1][0] == t[y];
    }
  }

  /** Spaces from `i` up to a character that is no space: `\s*` stops exactly there. */
  lemma SpacesThenStop(t: string, i: nat, p: nat)
    requires SpacesBetween(t, i, p) && p < |t| && !IsSpace(t[p])
    ensures SkipSpaces(t, i) == p
  {
  }

  /** The currency stage reaches the digit at `p` whichever way the pattern took it. */
  lemma CurrencyReachesDigit(t: string, y: nat, z: nat, p: nat)
    requires y <= z <= p && CurrencyPart(t, y, z) && SpacesBetween(t, z, p) && p < |t| && IsDigit(t[p])
    ensures SkipSpaces(t, CurrencyEnd(t, y)) == p
  {
    SpacesThenStop(t, z, p);
    LeadWordStarts(t, y);
    if z == y {
      assert !CurrencyAt(t, y);
    } else if z == y + 1 {
      assert CurrencyEnd(t, y) == y + 1;
    }
  }

  /** The `of` stage, then the currency stage, reach the digit at `p`. */
  lemma OfReachesDigit(t: string, x: nat, y: nat, z: nat, p: nat)
    requires x <= y <= z <= p && OfPart(t, x, y) && CurrencyPart(t, y, z) && SpacesBetween(t, z, p)
    requires p < |t| && IsDigit(t[p])
    ensures SkipSpaces(t, CurrencyEnd(t, OfEnd(t, x))) == p
  {
    LeadWordStarts(t, x);
    LeadWordStarts(t, y);
    LeadWordStarts(t, p);
    var b := OfEnd(t, x);
    if y == b {
      CurrencyReachesDigit(t, y, z, p);
    } else {
      // The pattern and the scan part where one takes spaces the other does not:
      // only spaces lie between, and both stop at the digit.
      SpacesThenStop(t, b, p);
      CurrencyReachesDigit(t, p, p, p);
    }
  }

  lemma LeadReachesDigit(t: string, e: nat, p: nat, x: nat, y: nat, z: nat)
    requires e <= x <= y <= z <= p
    requires SpacesBetween(t, e, x) && OfPart(t, x, y) && CurrencyPart(t, y, z) && SpacesBetween(t, z, p)
    requires p < |t| && IsDigit(t[p])
    ensures AmountStartAfter(t, e) == Some(p)
  {
    var a := SkipSpaces(t, e);
    if x == a {
      OfReachesDigit(t, x, y, z, p);
    } else {
      LeadWordStarts(t, x);
      SpacesThenStop(t, e, p);
      OfReachesDigit(t, p, p, p, p);
    }
  }

  /** The minimum-purchase pattern matches at `s` (it starts with its keyword). */
  predicate MinPurchaseAt(t: string, s: nat) {
    MinKeywordEnd(t, s).Some? && AmountStartAfter(t, MinKeywordEnd(t, s).value).Some?
  }

  /** Where the minimum-purchase pattern matches, position by position. */
  function MinPurchaseMatches(t: string): nat -> bool {
    (j: nat) => MinPurchaseAt(t, j)
  }

  /** The first position at or after `s` where the minimum-purchase pattern matches. */
  function MinPurchaseFrom(t: string, s: nat): (r: Option<nat>)
    requires s <= |t|
    ensures r.Some? ==> s <= r.value < |t| && MinPurchaseAt(t, r.value)
  {
    Leftmost(|t|, MinPurchaseMatches(t), s)
  }

  /** No position before the one `MinPurchaseFrom` finds matches; none at all when it finds none. */
  lemma MinPurchaseFromIsLeftmost(t: string, s: nat)
    requires s <= |t|
    ensures MinPurchaseFrom(t, s).Some? ==> forall j :: s <= j < MinPurchaseFrom(t, s).value ==> !MinPurchaseAt(t, j)
    ensures MinPurchaseFrom(t, s).None? ==> forall j :: s <= j < |t| ==> !MinPurchaseAt(t, j)
  {
    forall j: nat | s <= j < |t|
      ensures MinPurchaseMatches(t)(j) == MinPurchaseAt(t, j)
    {
    }
  }

  /** `min_purchase` of a side-panel offer: the greedy amount after the leftmost keyword match. */
  function MinPurchase(t: string): Option<real> {
    match MinPurchaseFrom(t, 0)
    case None => None
    case Some(s) => AmountValue(t, AmountStartAfter(t, MinKeywordEnd(t, s).value).value)
  }

  /** `(\d+)\s*month` matches with its digits starting at `d` (case-sensitive). */
  predicate MonthMatchAt(t: string, d: nat) {
    d < |t| && IsDigit(t[d]) && HasAt(t, "month", SkipSpaces(t, DigitRunEnd(t, d)))
  }

  /** Where the month pattern matches, position by position. */
  function MonthMatches(t: string): nat -> bool {
    (j: nat) => MonthMatchAt(t, j)
  }

  /** The first position at or after `d` where the month pattern matches. */
  function MonthMatchFrom(t: string, d: nat): (r: Option<nat>)
    requires d <= |t|
    ensures r.Some? ==> d <= r.value < |t| && MonthMatchAt(t, r.value)
  {
    Leftmost(|t|, MonthMatches(t), d)
  }

  /** No position before the one `MonthMatchFrom` finds matches; none at all when it finds none. */
  lemma MonthMatchFromIsLeftmost(t: string, d: nat)
    requires d <= |t|
    ensures MonthMatchFrom(t, d).Some? ==> forall j :: d <= j < MonthMatchFrom(t, d).value ==> !MonthMatchAt(t, j)
    ensures MonthMatchFrom(t, d).None? ==> forall j :: d <= j < |t| ==> !MonthMatchAt(t, j)
  {
    forall j: nat | d <= j < |t|
      ensures MonthMatches(t)(j) == MonthMatchAt(t, j)
    {
    }
  }

  /** `emi_duration`: `int()` of the digits of the leftmost month match. */
  function EmiMonths(t: string): Option<nat> {
    match MonthMatchFrom(t, 0)
    case None => None
    case Some(d) => Some(DigitsValue(t[d..DigitRunEnd(t, d)]))
  }

  /** The leftmost month match captures a whole run of digits, never the tail of one. */
  lemma MonthMatchIsWholeRun(t: string)
    requires MonthMatchFrom(t, 0).Some?
    ensures var d := MonthMatchFrom(t, 0).value; d == 0 || !IsDigit(t[d - 1])
  {
    var d := MonthMatchFrom(t, 0).value;
    MonthMatchFromIsLeftmost(t, 0);
    if d > 0 && IsDigit(t[d - 1]) {
      MonthMatchExtendsLeft(t, d);
    }
  }

  lemma MonthMatchExtendsLeft(t: string, d: nat)
    requires 0 < d <= |t| && IsDigit(t[d - 1]) && MonthMatchAt(t, d)
    ensures MonthMatchAt(t, d - 1)
  {
    assert DigitRunEnd(t, d - 1) == DigitRunEnd(t, d);
  }

  /** The first digit at or after `i`. */
  function FirstDigitFrom(t: string, i: nat): (r: Option<nat>)
    requires i <= |t|
    decreases |t| - i
    ensures r.Some? ==> i <= r.value < |t| && IsDigit(t[r.value])
    ensures r.Some? ==> forall j :: i <= j < r.value ==> !IsDigit(t[j])
    ensures r.None? ==> forall j :: i <= j < |t| ==> !IsDigit(t[j])
  {
    if i == |t| then None
    else if IsDigit(t[i]) then Some(i)
    else FirstDigitFrom(t, i + 1)
  }

  /**
   * The looser amount of a page offer card, `(?:INR|Rs\.|₹)?\s*(\d+...)`: every part
   * before the amount is optional, so the leftmost match takes the first digit.
   */
  function LooseAmount(t: string): Option<real> {
    match FirstDigitFrom(t, 0)
    case None => None
    case Some(d) => AmountValue(t, d)
  }

  // ---------------------------------------------------------------------------
  // Offer records and the two phases

  datatype OfferSource = SidePanel | MainPage

  /**
   * One offer dict. A side-panel offer has no `source` key and always has
   * `emi_available`; a page-card offer carries `source = 'main_page'` and has
   * neither `min_purchase` nor the EMI keys.
   */
  datatype BankOffer = BankOffer(
    offerText: string,
    source: OfferSource,
    bankName: Option<Bank>,
    discountAmount: Option<real>,
    minPurchase: Option<real>,
    emiAvailable: Option<bool>,
    emiDuration: Option<nat>)

  /** The offer a side-panel text yields. */
  function SideOfferOf(text: string): BankOffer {
    var emi := Contains(text, "EMI");
    BankOffer(text, SidePanel, BankOf(text), DiscountAmount(text), MinPurchase(text),
              Some(emi), if emi then EmiMonths(text) else None)
  }

  /** The offer a page card's text yields. */
  function CardOfferOf(text: string): BankOffer {
    BankOffer(text, MainPage, BankOf(text), LooseAmount(text), None, None, None)
  }

  /** The side-panel offer dict, filled in key by key. */
  method ParseSideOffer(text: string) returns (offer: BankOffer)
    ensures offer == SideOfferOf(text)
  {
    offer := BankOffer(text, SidePanel, None, None, None, None, None);
    var bank := DetectBank(text);
    offer := offer.(bankName := bank);
    offer := offer.(discountAmount := DiscountAmount(text));
    offer := offer.(minPurchase := MinPurchase(text));
    if Contains(text, "EMI") {
      offer := offer.(emiAvailable := Some(true), emiDuration := EmiMonths(text));
    } else {
      offer := offer.(emiAvailable := Some(false));
    }
  }

  /** The page-card offer dict, filled in key by key. */
  method ParseCardOffer(text: string) returns (offer: BankOffer)
    ensures offer == CardOfferOf(text)
  {
    offer := BankOffer(text, MainPage, None, None, None, None, None);
    var bank := DetectBank(text);
    offer := offer.(bankName := bank);
    offer := offer.(discountAmount := LooseAmount(text));
  }

  /** The texts of at least `n` characters, in order. */
  function Kept(texts: seq<string>, n: nat): (r: seq<string>)
    ensures |r| <= |texts|
  {
    if texts == [] then []
    else
      var last := texts[|texts| - 1];
      assert texts == texts[..|texts| - 1] + [last];
      Kept(texts[..|texts| - 1], n) + (if |last| >= n then [last] else [])
  }

  /** The kept texts are exactly the texts of at least `n` characters. */
  lemma {:induction false} KeptMembers(texts: seq<string>, n: nat)
    ensures forall x :: x in Kept(texts, n) <==> x in texts && |x| >= n
  {
    if texts != [] {
      var init := texts[..|texts| - 1];
      KeptMembers(init, n);
      assert texts == init + [texts[|texts| - 1]];
    }
  }

  /** `Kept` keeps order and repeats: it works piece by piece. */
  lemma {:induction false} KeptAppend(a: seq<string>, b: seq<string>, n: nat)
    ensures Kept(a + b, n) == Kept(a, n) + Kept(b, n)
    decreases |b|
  {
    if b == [] {
      assert a + b == a;
    } else {
      var init := b[..|b| - 1];
      var last := b[|b| - 1];
      assert (a + b)[..|a + b| - 1] == a + init;
      assert (a + b)[|a + b| - 1] == last;
      KeptAppend(a, init, n);
    }
  }

  /** A single text is kept exactly when it has at least `n` characters. */
  lemma KeptOne(x: string, n: nat)
    ensures Kept([x], n) == if |x| >= n then [x] else []
  {
    assert [x][..0] == [];
  }

  /**
   * What a loop over `texts` collects: texts shorter than `n` characters are
   * skipped, and each other text is parsed into an offer, in order.
   */
  function OffersOf(texts: seq<string>, n: nat, parse: string -> BankOffer): seq<BankOffer> {
    if texts == [] then []
    else
      var last := texts[|texts| - 1];
      OffersOf(texts[..|texts| - 1], n, parse) + (if |last| >= n then [parse(last)] else [])
  }

  /** The side-panel loop: texts under 10 characters are skipped. */
  function SideOffersOf(items: seq<string>): seq<BankOffer> {
    OffersOf(items, 10, SideOfferOf)
  }

  /** The page-card loop: only texts over 10 characters are kept. */
  function CardOffersOf(cards: seq<string>): seq<BankOffer> {
    OffersOf(cards, 11, CardOfferOf)
  }

  method SidePanelOffers(items: seq<string>) returns (offers: seq<BankOffer>)
    ensures offers == SideOffersOf(items)
  {
    offers := [];
    for i := 0 to |items|
      invariant offers == SideOffersOf(items[..i])
    {
      assert items[..i + 1][..i] == items[..i];
      var text := items[i];
      if |text| < 10 {
        continue;
      }
      var offer := ParseSideOffer(text);
      offers := offers + [offer];
    }
    assert items[..|items|] == items;
  }

  method CardOffers(cards: seq<string>) returns (offers: seq<BankOffer>)
    ensures offers == CardOffersOf(cards)
  {
    offers := [];
    for i := 0 to |cards|
      invariant offers == CardOffersOf(cards[..i])
    {
      assert cards[..i + 1][..i] == cards[..i];
      var text := cards[i];
      if |text| > 10 {
        var offer := ParseCardOffer(text);
        offers := offers + [offer];
      }
    }
    assert cards[..|cards|] == cards;
  }

  /** The collected offers are the long-enough texts, in order, each parsed. */
  lemma {:induction false} OffersAreKept(texts: seq<string>, n: nat, parse: string -> BankOffer)
    ensures |OffersOf(texts, n, parse)| == |Kept(texts, n)|
    ensures forall i :: 0 <= i < |Kept(texts, n)| ==> OffersOf(texts, n, parse)[i] == parse(Kept(texts, n)[i])
  {
    if texts != [] {
      OffersAreKept(texts[..|texts| - 1], n, parse);
    }
  }

  /** The side-panel offers are the texts of at least 10 characters, in order, each parsed. */
  lemma {:induction false} SideOffersAreKept(items: seq<string>)
    ensures |SideOffersOf(items)| == |Kept(items, 10)|
    ensures forall i :: 0 <= i < |Kept(items, 10)| ==> SideOffersOf(items)[i] == SideOfferOf(Kept(items, 10)[i])
  {
    OffersAreKept(items, 10, SideOfferOf);
  }

  /** The page-card offers are the texts over 10 characters, in order, each parsed. */
  lemma {:induction false} CardOffersAreKept(cards: seq<string>)
    ensures |CardOffersOf(cards)| == |Kept(cards, 11)|
    ensures forall i :: 0 <= i < |Kept(cards, 11)| ==> CardOffersOf(cards)[i] == CardOfferOf(Kept(cards, 11)[i])
  {
    OffersAreKept(cards, 11, CardOfferOf);
  }

  /** The offer items of the side panel: the first class pair, or the alternative class if that finds none. */
  datatype SidePanelItems = SidePanelItems(primary: seq<string>, alternative: seq<string>)

  /**
   * The page as re-read after the reveal click: the side panel if present, and the
   * offer cards of its main content.
   */
  datatype Revealed = Revealed(sidePanel: Option<SidePanelItems>, offerCards: seq<string>)

  /** The texts the side-panel phase reads; none when the reveal step or the panel is missing. */
  function SidePhaseItems(revealed: Option<Revealed>): seq<string> {
    match revealed
    case None => []
    case Some(r) =>
      match r.sidePanel
      case None => []
      case Some(p) => if p.primary != [] then p.primary else p.alternative
  }

  /**
   * The cards the fallback phase reads: once the reveal step has re-read the page,
   * the fallback searches that re-read page, otherwise the original one.
   */
  function FallbackCards(revealed: Option<Revealed>, pageCards: seq<string>): seq<string> {
    match revealed
    case None => pageCards
    case Some(r) => r.offerCards
  }

  function BankOffersOf(revealed: Option<Revealed>, pageCards: seq<string>): seq<BankOffer> {
    var side := SideOffersOf(SidePhaseItems(revealed));
    if side != [] then side else CardOffersOf(FallbackCards(revealed, pageCards))
  }

  /** `_get_bank_offers`: the side-panel phase, then the page-card phase only if it found nothing. */
  method GetBankOffers(revealed: Option<Revealed>, pageCards: seq<string>) returns (offers: seq<BankOffer>)
    ensures offers == BankOffersOf(revealed, pageCards)
  {
    offers := SidePanelOffers(SidePhaseItems(revealed));
    if offers == [] {
      offers := CardOffers(FallbackCards(revealed, pageCards));
    }
  }

  /** What every side-panel offer satisfies. */
  predicate WellFormedSideOffer(o: BankOffer) {
    && o.source == SidePanel
    && |o.offerText| >= 10
    && o.bankName == BankOf(o.offerText)
    && o.emiAvailable == Some(Contains(o.offerText, "EMI"))
    && (o.emiDuration.Some? <==> Contains(o.offerText, "EMI") && MonthMatchFrom(o.offerText, 0).Some?)
    && (o.emiDuration.Some? ==> o.emiAvailable == Some(true))
  }

  /** What every page-card offer satisfies. */
  predicate WellFormedCardOffer(o: BankOffer) {
    && o.source == MainPage
    && |o.offerText| > 10
    && o.bankName == BankOf(o.offerText)
    && o.minPurchase.None? && o.emiAvailable.None? && o.emiDuration.None?
  }

  /**
   * Offers come from one phase only: either all are well-formed side-panel offers,
   * or the side panel yielded none and all are well-formed page-card offers.
   */
  lemma BankOffersFromOnePhase(revealed: Option<Revealed>, pageCards: seq<string>)
    ensures var offers := BankOffersOf(revealed, pageCards);
            || (forall o :: o in offers ==> WellFormedSideOffer(o))
            || (SideOffersOf(SidePhaseItems(revealed)) == [] && forall o :: o in offers ==> WellFormedCardOffer(o))
  {
    SideOffersWellFormed(SidePhaseItems(revealed));
    CardOffersWellFormed(FallbackCards(revealed, pageCards));
  }

  lemma SideOffersWellFormed(items: seq<string>)
    ensures forall o :: o in SideOffersOf(items) ==> WellFormedSideOffer(o)
  {
    var side := SideOffersOf(items);
    SideOffersAreKept(items);
    KeptMembers(items, 10);
    forall o | o in side
      ensures WellFormedSideOffer(o)
    {
      var i :| 0 <= i < |side| && side[i] == o;
      assert Kept(items, 10)[i] in Kept(items, 10);
    }
  }

  lemma CardOffersWellFormed(cards: seq<string>)
    ensures forall o :: o in CardOffersOf(cards) ==> WellFormedCardOffer(o)
  {
    var offers := CardOffersOf(cards);
    CardOffersAreKept(cards);
    KeptMembers(cards, 11);
    forall o | o in offers
      ensures WellFormedCardOffer(o)
    {
      var i :| 0 <= i < |offers| && offers[i] == o;
      assert Kept(cards, 11)[i] in Kept(cards, 11);
    }
  }

  /** A page-card offer appears only when the side panel yielded nothing. */
  lemma CardOffersOnlyAsFallback(revealed: Option<Revealed>, pageCards: seq<string>, o: BankOffer)
    requires o in BankOffersOf(revealed, pageCards) && o.source == MainPage
    ensures SideOffersOf(SidePhaseItems(revealed)) == []
  {
    BankOffersFromOnePhase(revealed, pageCards);
  }
}
