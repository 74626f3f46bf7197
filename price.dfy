/**
 * Price normalisation: the selling price, the MRP found by a chain of three
 * strike-through candidates, and the discount percentage computed from the two
 * (backend/amazon_scraper.py, `_get_price_info`).
 */
module Price {
  import opened Wrappers
  import opened Text
  import opened Numbers

  /** A strike-through price element: the text of its first inner span, if any, and its own text. */
  datatype PriceElement = PriceElement(innerSpanText: Option<string>, text: string)

  datatype PriceInfo = PriceInfo(sellingPrice: Option<real>, mrp: Option<real>, discountPercentage: Option<string>)

  /** The `a-price-whole` text, stripped, without commas, read with `float()`. */
  function SellingPrice(wholeText: Option<string>): Option<real>
  {
    match wholeText
    case None => None
    case Some(t) => ParseFloat(RemoveChar(Strip(t), ','))
  }

  /** The characters the MRP cleaning keeps: digits, '.' and ','. */
  predicate IsPriceChar(c: char) {
    IsDigit(c) || c == '.' || c == ','
  }

  /** `re.sub(r'[^\d.,]', '', s)`. */
  function KeepPriceChars(s: string): string
  {
    if s == [] then []
    else (if IsPriceChar(s[0]) then [s[0]] else []) + KeepPriceChars(s[1..])
  }

  /** The filter keeps exactly the price characters of `s`. */
  lemma {:induction false} KeepPriceCharsMembers(s: string)
    ensures forall c :: c in KeepPriceChars(s) <==> c in s && IsPriceChar(c)
  {
    if s != [] {
      KeepPriceCharsMembers(s[1..]);
      assert s == [s[0]] + s[1..];
    }
  }

  /** The filter keeps the price characters in their order: it works piece by piece. */
  lemma {:induction false} KeepPriceCharsAppend(a: string, b: string)
    ensures KeepPriceChars(a + b) == KeepPriceChars(a) + KeepPriceChars(b)
  {
    if a == [] {
      assert a + b == b;
    } else {
      var head := if IsPriceChar(a[0]) then [a[0]] else [];
      assert (a + b)[0] == a[0];
      assert (a + b)[1..] == a[1..] + b;
      KeepPriceCharsAppend(a[1..], b);
      assert KeepPriceChars(a + b) == head + (KeepPriceChars(a[1..]) + KeepPriceChars(b));
    }
  }

  /** On one character the filter keeps exactly a price character. */
  lemma KeepPriceCharsOne(c: char)
    ensures KeepPriceChars([c]) == if IsPriceChar(c) then [c] else []
  {
    assert [c][1..] == [];
  }

  /** Text made only of price characters passes the filter unchanged. */
  lemma {:induction false} KeepPriceCharsKeepsAll(s: string)
    requires forall i :: 0 <= i < |s| ==> IsPriceChar(s[i])
    ensures KeepPriceChars(s) == s
  {
    if s != [] {
      KeepPriceCharsKeepsAll(s[1..]);
    }
  }

  /** Text without price characters is filtered away entirely. */
  lemma {:induction false} KeepPriceCharsDropsAll(s: string)
    requires forall i :: 0 <= i < |s| ==> !IsPriceChar(s[i])
    ensures KeepPriceChars(s) == []
  {
    if s != [] {
      KeepPriceCharsDropsAll(s[1..]);
    }
  }

  /** Filtering a string is filtering its two halves, split anywhere. */
  lemma KeepPriceCharsSplit(s: string, k: nat)
    requires k <= |s|
    ensures KeepPriceChars(s) == KeepPriceChars(s[..k]) + KeepPriceChars(s[k..])
  {
    assert s == s[..k] + s[k..];
    KeepPriceCharsAppend(s[..k], s[k..]);
  }

  /** Stripping first makes no difference to the filter: whitespace is not a price character. */
  lemma KeepPriceCharsIgnoresStrip(s: string)
    ensures KeepPriceChars(Strip(s)) == KeepPriceChars(s)
  {
    var k := LeadEnd(s);
    var t := s[k..];
    var m := TrailStart(t);
    assert Strip(s) == t[..m];
    KeepPriceCharsSplit(s, k);
    forall i | 0 <= i < k
      ensures !IsPriceChar(s[..k][i])
    {
      assert IsSpace(s[i]);
    }
    KeepPriceCharsDropsAll(s[..k]);
    KeepPriceCharsSplit(t, m);
    forall i | 0 <= i < |t| - m
      ensures !IsPriceChar(t[m..][i])
    {
      assert IsSpace(t[m + i]);
    }
    KeepPriceCharsDropsAll(t[m..]);
  }

  /** The text an MRP candidate is read from: its inner span's text if it has one. */
  function CandidateText(e: PriceElement): string {
    match e.innerSpanText
    case Some(t) => t
    case None => e.text
  }

  /** One MRP candidate, cleaned to digits and points and read with `float()`; absent or unreadable is None. */
  function CandidateValue(c: Option<PriceElement>): (r: Option<real>)
    ensures r.Some? ==> r.value >= 0.0
  {
    match c
    case None => None
    case Some(e) =>
      KeepPriceCharsMembers(Strip(CandidateText(e)));
      RemoveCharMembers(KeepPriceChars(Strip(CandidateText(e))), ',');
      var cleaned := RemoveChar(KeepPriceChars(Strip(CandidateText(e))), ',');
      var v := ParseFloat(cleaned);
      if v.Some? then ParseFloatNonNegative(cleaned); v else v
  }

  /**
   * The cleaning of a candidate text that is a currency sign or label (no price
   * characters), then digits grouped by commas, a point and decimals: only the
   * digits, the point and the decimals remain, in order.
   */
  lemma CleanedAmount(text: string, sym: string, whole: string, decimals: string)
    requires text == sym + whole + "." + decimals
    requires forall i :: 0 <= i < |sym| ==> !IsPriceChar(sym[i])
    requires forall i :: 0 <= i < |whole| ==> IsDigit(whole[i]) || whole[i] == ','
    requires AllDigits(decimals)
    ensures RemoveChar(KeepPriceChars(Strip(text)), ',') == RemoveChar(whole, ',') + "." + decimals
  {
    FilteredAmount(text, sym, whole, decimals);
    CommasBeforePoint(whole, decimals);
  }

  /** The filter leaves the amount after a label, whitespace around the text included. */
  lemma FilteredAmount(text: string, sym: string, whole: string, decimals: string)
    requires text == sym + whole + "." + decimals
    requires forall i :: 0 <= i < |sym| ==> !IsPriceChar(sym[i])
    requires forall i :: 0 <= i < |whole| ==> IsDigit(whole[i]) || whole[i] == ','
    requires AllDigits(decimals)
    ensures KeepPriceChars(Strip(text)) == whole + "." + decimals
  {
    var amount := whole + "." + decimals;
    assert text == sym + amount;
    KeepPriceCharsAfterLabel(sym, amount);
    KeepPriceCharsKeepsAll(amount);
  }

  /** A label without price characters in front of the amount is filtered away, whitespace included. */
  lemma KeepPriceCharsAfterLabel(sym: string, amount: string)
    requires forall i :: 0 <= i < |sym| ==> !IsPriceChar(sym[i])
    ensures KeepPriceChars(Strip(sym + amount)) == KeepPriceChars(amount)
  {
    KeepPriceCharsIgnoresStrip(sym + amount);
    KeepPriceCharsAppend(sym, amount);
    KeepPriceCharsDropsAll(sym);
  }

  /** Removing the commas touches only the whole part of an amount. */
  lemma CommasBeforePoint(whole: string, decimals: string)
    requires AllDigits(decimals)
    ensures RemoveChar(whole + "." + decimals, ',') == RemoveChar(whole, ',') + "." + decimals
  {
    var rest := "." + decimals;
    assert whole + "." + decimals == whole + rest;
    RemoveCharAppend(whole, rest, ',');
    RemoveCharAbsent(rest, ',');
    assert RemoveChar(whole, ',') + rest == RemoveChar(whole, ',') + "." + decimals;
  }

  /** Digits grouped by commas, starting with a digit, leave a non-empty run of digits without the commas. */
  lemma CommasRemoved(whole: string)
    requires whole != [] && IsDigit(whole[0]) && forall i :: 0 <= i < |whole| ==> IsDigit(whole[i]) || whole[i] == ','
    ensures RemoveChar(whole, ',') != [] && AllDigits(RemoveChar(whole, ','))
  {
    var digits := RemoveChar(whole, ',');
    assert whole == [whole[0]] + whole[1..];
    RemoveCharAppend([whole[0]], whole[1..], ',');
    RemoveCharMembers(whole, ',');
    forall i | 0 <= i < |digits|
      ensures IsDigit(digits[i])
    {
      assert digits[i] in digits;
    }
  }

  /**
   * A candidate whose text is a currency sign or label (no price characters), then
   * digits grouped by commas, a point and decimals, reads as the number those
   * digits spell: the commas are dropped and the point splits the whole part from
   * the decimals.
   */
  lemma CandidateValueReadsAmount(e: PriceElement, sym: string, whole: string, decimals: string)
    requires CandidateText(e) == sym + whole + "." + decimals
    requires forall i :: 0 <= i < |sym| ==> !IsPriceChar(sym[i])
    requires whole != [] && IsDigit(whole[0]) && forall i :: 0 <= i < |whole| ==> IsDigit(whole[i]) || whole[i] == ','
    requires AllDigits(decimals)
    ensures CandidateValue(Some(e)) == DecimalValue(RemoveChar(whole, ','), decimals)
  {
    CleanedAmount(CandidateText(e), sym, whole, decimals);
    CommasRemoved(whole);
    ParseFloatDecimal(RemoveChar(whole, ','), decimals);
  }

  /** The common strike-through text "₹49,999.00" gives an MRP candidate of 49999. */
  lemma CandidateValueExample()
    ensures CandidateValue(Some(PriceElement(None, "\U{20B9}49,999.00"))) == Some(49999.0)
  {
    var e := PriceElement(None, "\U{20B9}49,999.00");
    assert CandidateText(e) == "\U{20B9}" + "49,999" + "." + "00";
    CandidateValueReadsAmount(e, "\U{20B9}", "49,999", "00");
    ExampleDigits();
    ExampleValue();
  }

  lemma ExampleDigits()
    ensures RemoveChar("49,999", ',') == "49999"
  {
    assert "49,999" == "49" + ("," + "999");
    RemoveCharAppend("49", "," + "999", ',');
    RemoveCharAppend(",", "999", ',');
    RemoveCharAbsent("49", ',');
    RemoveCharAbsent("999", ',');
  }

  lemma ExampleValue()
    ensures DecimalValue("49999", "00") == Some(49999.0)
  {
    assert DigitsValue("49999") == 49999 by {
      assert "49999"[..4] == "4999";
      assert "4999"[..3] == "499";
      assert "499"[..2] == "49";
      assert "49"[..1] == "4";
    }
    assert DigitsValue("00") == 0 by {
      assert "00"[..1] == "0";
    }
  }

  /** The candidates' values, in order. */
  function Values(cands: seq<Option<PriceElement>>): (vs: seq<Option<real>>)
    ensures |vs| == |cands| && forall i :: 0 <= i < |cands| ==> vs[i] == CandidateValue(cands[i])
  {
    seq(|cands|, i requires 0 <= i < |cands| => CandidateValue(cands[i]))
  }

  predicate Positive(v: Option<real>) {
    v.Some? && v.value > 0.0
  }

  /**
   * The MRP loop from a point on, over the candidates' values, `last` being the
   * value it holds: a value that reads is assigned, and a positive one ends the loop.
   */
  function MrpFrom(vs: seq<Option<real>>, last: Option<real>): Option<real>
    decreases |vs|
  {
    if vs == [] then last
    else
      match vs[0]
      case None => MrpFrom(vs[1..], last)
      case Some(v) => if v > 0.0 then Some(v) else MrpFrom(vs[1..], Some(v))
  }

  function Mrp(cands: seq<Option<PriceElement>>): Option<real> {
    MrpFrom(Values(cands), None)
  }

  /** The MRP loop: try each candidate in order and stop at the first positive value. */
  method FindMrp(cands: seq<Option<PriceElement>>) returns (mrp: Option<real>)
    ensures mrp == Mrp(cands)
  {
    mrp := None;
    for i := 0 to |cands|
      invariant MrpFrom(Values(cands)[i..], mrp) == Mrp(cands)
    {
      var v := CandidateValue(cands[i]);
      if v.Some? {
        mrp := v;
        if v.value > 0.0 {
          break;
        }
      }
    }
  }

  lemma {:induction false} MrpFromFirstPositive(vs: seq<Option<real>>, last: Option<real>, i: nat)
    requires i < |vs| && Positive(vs[i])
    requires forall j :: 0 <= j < i ==> !Positive(vs[j])
    ensures MrpFrom(vs, last) == vs[i]
    decreases i
  {
    if i > 0 {
      var next := if vs[0].Some? then vs[0] else last;
      assert !Positive(vs[0]);
      MrpFromFirstPositive(vs[1..], next, i - 1);
    }
  }

  /** The MRP is the value of the first candidate that reads as a positive number. */
  lemma MrpIsFirstPositive(cands: seq<Option<PriceElement>>, i: nat)
    requires i < |cands| && Positive(CandidateValue(cands[i]))
    requires forall j :: 0 <= j < i ==> !Positive(CandidateValue(cands[j]))
    ensures Mrp(cands) == CandidateValue(cands[i])
  {
    MrpFromFirstPositive(Values(cands), None, i);
  }

  lemma {:induction false} MrpFromWithoutPositive(vs: seq<Option<real>>, last: Option<real>)
    requires forall j :: 0 <= j < |vs| ==> vs[j].Some? ==> vs[j].value == 0.0
    requires last.Some? ==> last.value == 0.0
    ensures MrpFrom(vs, last).Some? ==> MrpFrom(vs, last).value == 0.0
    ensures MrpFrom(vs, last).None? <==> last.None? && forall j :: 0 <= j < |vs| ==> vs[j].None?
    decreases |vs|
  {
    if vs != [] {
      var next := if vs[0].Some? then vs[0] else last;
      assert forall j :: 0 <= j < |vs[1..]| ==> vs[1..][j] == vs[j + 1];
      MrpFromWithoutPositive(vs[1..], next);
    }
  }

  /**
   * Without a positive candidate the loop never breaks: the MRP is absent when no
   * candidate reads, and 0.0 (the last value read) otherwise.
   */
  lemma MrpWithoutPositive(cands: seq<Option<PriceElement>>)
    requires forall j :: 0 <= j < |cands| ==> !Positive(CandidateValue(cands[j]))
    ensures Mrp(cands).Some? ==> Mrp(cands).value == 0.0
    ensures Mrp(cands).None? <==> forall j :: 0 <= j < |cands| ==> CandidateValue(cands[j]).None?
  {
    MrpFromWithoutPositive(Values(cands), None);
  }

  lemma {:induction false} MrpFromNonNegative(vs: seq<Option<real>>, last: Option<real>)
    requires forall j :: 0 <= j < |vs| ==> vs[j].Some? ==> vs[j].value >= 0.0
    requires last.Some? ==> last.value >= 0.0
    ensures MrpFrom(vs, last).Some? ==> MrpFrom(vs, last).value >= 0.0
    decreases |vs|
  {
    if vs != [] {
      var next := if vs[0].Some? then vs[0] else last;
      assert forall j :: 0 <= j < |vs[1..]| ==> vs[1..][j] == vs[j + 1];
      MrpFromNonNegative(vs[1..], next);
    }
  }

  /** The MRP is never negative: the cleaning leaves no sign to read. */
  lemma MrpNonNegative(cands: seq<Option<PriceElement>>)
    ensures Mrp(cands).Some? ==> Mrp(cands).value >= 0.0
  {
    MrpFromNonNegative(Values(cands), None);
  }

  lemma DivBelowOne(a: real, b: real)
    requires 0.0 < b
    ensures a / b < 1.0 <==> a < b
    ensures 0.0 < a ==> 0.0 < a / b
  {
    var q := a / b;
    assert q * b == a;
    if q < 1.0 {
      assert q * b < 1.0 * b;
    } else {
      assert q * b >= 1.0 * b;
    }
  }

  /** The exact discount, in percent of the MRP. */
  function DiscountExact(price: real, mrp: real): (x: real)
    requires 0.0 < mrp && price < mrp
    ensures 0.0 < x
    ensures x < 100.0 <==> 0.0 < price
  {
    DivBelowOne(mrp - price, mrp);
    (mrp - price) / mrp * 100.0
  }

  /**
   * The discount, shown with two decimals and a percent sign; present only when
   * both prices are non-zero and the selling price is below the MRP.
   */
  function Discount(price: Option<real>, mrp: Option<real>): (r: Option<string>)
    requires mrp.Some? ==> mrp.value >= 0.0
    ensures r.Some? <==> price.Some? && price.value != 0.0 && mrp.Some? && mrp.value != 0.0 && price.value < mrp.value
    ensures r.Some? ==> |r.value| >= 5 && r.value[|r.value| - 1] == '%'
  {
    if price.Some? && price.value != 0.0 && mrp.Some? && mrp.value != 0.0 && price.value < mrp.value then
      var h := RoundHundredths(DiscountExact(price.value, mrp.value));
      Some(FormatFixed2(h) + "%")
    else None
  }

  /**
   * A shown discount reads back as the exact discount rounded to the nearest
   * hundredth (within half a hundredth of it); for a positive selling price it lies
   * between 0.00 and 100.00.
   */
  lemma DiscountShown(price: real, mrp: real)
    requires 0.0 < mrp && price != 0.0 && price < mrp
    ensures var s := Discount(Some(price), Some(mrp)).value;
            var shown := ParseFloat(s[..|s| - 1]);
            var x := DiscountExact(price, mrp);
            && shown.Some?
            && shown.value * 100.0 - 0.5 <= x * 100.0 < shown.value * 100.0 + 0.5
            && (0.0 < price ==> 0.0 <= shown.value <= 100.0)
  {
    var x := DiscountExact(price, mrp);
    var h := RoundHundredths(x);
    var s := Discount(Some(price), Some(mrp)).value;
    assert s == FormatFixed2(h) + "%";
    assert s[..|s| - 1] == FormatFixed2(h);
    FormatFixed2RoundTrip(h);
    var y := h as real / 100.0;
    assert y * 100.0 == h as real;
    assert 0.0 < price ==> 0 <= h <= 10000;
  }

  /** The `_get_price_info` assembly. */
  function PriceInfoOf(wholeText: Option<string>, cands: seq<Option<PriceElement>>): PriceInfo
  {
    var price := SellingPrice(wholeText);
    var mrp := Mrp(cands);
    MrpNonNegative(cands);
    PriceInfo(price, mrp, Discount(price, mrp))
  }

  method GetPriceInfo(wholeText: Option<string>, cands: seq<Option<PriceElement>>) returns (info: PriceInfo)
    ensures info == PriceInfoOf(wholeText, cands)
  {
    var price := SellingPrice(wholeText);
    var mrp := FindMrp(cands);
    MrpNonNegative(cands);
    info := PriceInfo(price, mrp, Discount(price, mrp));
  }
}
