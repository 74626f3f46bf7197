/**
 * The plain-text fields of a product page: its title, its rating line,
 * the "About this item" bullets and the technical-details table.
 * Each element the page may lack is an `Option`; an element's text is a string.
 */
module Details {
  import opened Wrappers
  import opened Text

  // ---------------------------------------------------------------------------
  // Title

  /** `_get_product_name`: the title text without surrounding whitespace, if the title exists. */
  function ProductName(title: Option<string>): (r: Option<string>)
    ensures r.Some? <==> title.Some?
    ensures r.Some? ==> r.value == [] || (!IsSpace(r.value[0]) && !IsSpace(r.value[|r.value| - 1]))
  {
    match title
    case None => None
    case Some(t) => Some(Strip(t))
  }

  /** The name keeps every non-whitespace character of the title, and naming it again changes nothing. */
  lemma ProductNameKeepsText(t: string)
    ensures forall c :: c in t && !IsSpace(c) ==> c in ProductName(Some(t)).value
    ensures ProductName(ProductName(Some(t))) == ProductName(Some(t))
  {
    forall c | c in t && !IsSpace(c)
      ensures c in Strip(t)
    {
      StripKeepsNonSpace(t, c);
    }
    StripIdempotent(t);
  }

  // ---------------------------------------------------------------------------
  // Rating line

  datatype RatingInfo = RatingInfo(rating: Option<string>, numberOfRatings: Option<string>)

  /**
   * `_get_rating_info`: each field is present exactly when its element is, and is
   * the element's text before the first ` out of` (the rating, `4.2` from
   * `4.2 out of 5 stars`) or before the first ` ratings` (the count, `1,234` from
   * `1,234 ratings`), or the whole text when the separator is missing.
   */
  function RatingInfoOf(ratingText: Option<string>, countText: Option<string>): (r: RatingInfo)
    ensures r.rating.Some? <==> ratingText.Some?
    ensures r.numberOfRatings.Some? <==> countText.Some?
    ensures r.rating.Some? ==>
              IsFirstPiece(ratingText.value, " out of", r.rating.value) && !Contains(r.rating.value, " out of")
    ensures r.numberOfRatings.Some? ==>
              IsFirstPiece(countText.value, " ratings", r.numberOfRatings.value) && !Contains(r.numberOfRatings.value, " ratings")
  {
    var rating := match ratingText
      case None => None
      case Some(t) => (BeforeFirstIsFirstPiece(t, " out of", t); Some(BeforeFirst(t, " out of")));
    var count := match countText
      case None => None
      case Some(t) => (BeforeFirstIsFirstPiece(t, " ratings", t); Some(BeforeFirst(t, " ratings")));
    RatingInfo(rating, count)
  }

  /** The usual rating texts give the bare rating and count. */
  lemma RatingOfExample()
    ensures RatingInfoOf(Some("4.2 out of 5 stars"), Some("1,234 ratings")) == RatingInfo(Some("4.2"), Some("1,234"))
  {
    var rating, count := "4.2 out of 5 stars", "1,234 ratings";
    forall j | 0 <= j < 3
      ensures !HasAt(rating, " out of", j)
    {
      assert rating[j..j + 7][0] == rating[j] != ' ';
    }
    assert rating[3..10] == " out of";
    IndexOfIs(rating, " out of", 3);
    forall j | 0 <= j < 5
      ensures !HasAt(count, " ratings", j)
    {
      assert count[j..j + 8][0] == count[j] != ' ';
    }
    assert count[5..13] == " ratings";
    IndexOfIs(count, " ratings", 5);
    assert BeforeFirst(rating, " out of") == rating[..3] == "4.2";
    assert BeforeFirst(count, " ratings") == count[..5] == "1,234";
  }

  // ---------------------------------------------------------------------------
  // About this item

  /** `_get_about_this_item`: every bullet of the section, stripped; none without the section. */
  function AboutThisItem(section: Option<seq<string>>): (r: seq<string>)
    ensures section.None? ==> r == []
    ensures section.Some? ==> |r| == |section.value|
    ensures section.Some? ==> forall i :: 0 <= i < |r| ==> r[i] == Strip(section.value[i])
    ensures forall i :: 0 <= i < |r| ==> r[i] == [] || (!IsSpace(r[i][0]) && !IsSpace(r[i][|r[i]| - 1]))
  {
    match section
    case None => []
    case Some(items) => seq(|items|, i requires 0 <= i < |items| => Strip(items[i]))
  }

  /** Re-stripping the bullets changes nothing. */
  lemma AboutThisItemStable(section: Option<seq<string>>)
    ensures AboutThisItem(Some(AboutThisItem(section))) == AboutThisItem(section)
  {
    var r := AboutThisItem(section);
    forall i | 0 <= i < |r|
      ensures Strip(r[i]) == r[i]
    {
      StripKeeps(r[i]);
    }
  }

  // ---------------------------------------------------------------------------
  // Technical details table

  /** One `tr` of the table: the text of its `th` and of its `td`, when present. */
  datatype TableRow = TableRow(labelText: Option<string>, valueText: Option<string>)

  /** An insertion-ordered dictionary from labels to values. */
  type Info = seq<(string, string)>

  predicate UniqueKeys(info: Info) {
    forall i, j :: 0 <= i < j < |info| ==> info[i].0 != info[j].0
  }

  /** Where key `k` sits in `info`, if anywhere (the first such place). */
  function KeyIndex(info: Info, k: string): (r: Option<nat>)
    ensures r.Some? ==> r.value < |info| && info[r.value].0 == k
    ensures r.Some? ==> forall j :: 0 <= j < r.value ==> info[j].0 != k
    ensures r.None? ==> forall j :: 0 <= j < |info| ==> info[j].0 != k
  {
    if info == [] then None
    else if info[0].0 == k then Some(0)
    else
      match KeyIndex(info[1..], k)
      case None => None
      case Some(i) => Some(i + 1)
  }

  /** `info.get(k)`. */
  function Get(info: Info, k: string): (r: Option<string>)
    ensures r.None? <==> forall i :: 0 <= i < |info| ==> info[i].0 != k
    ensures r.Some? ==> exists i :: 0 <= i < |info| && info[i] == (k, r.value)
  {
    match KeyIndex(info, k)
    case None => None
    case Some(i) => Some(info[i].1)
  }

  /** Two dictionaries with the same keys in the same places find every key in the same place. */
  lemma SameKeysSameIndex(a: Info, b: Info, k: string)
    requires |a| == |b| && forall i :: 0 <= i < |a| ==> a[i].0 == b[i].0
    ensures KeyIndex(a, k) == KeyIndex(b, k)
  {
  }

  /** `info[k] = v`: a new key goes last, an existing key keeps its place and takes the new value. */
  function Put(info: Info, k: string, v: string): (r: Info)
    ensures Get(r, k) == Some(v)
    ensures forall k' :: k' != k ==> Get(r, k') == Get(info, k')
    ensures UniqueKeys(info) ==> UniqueKeys(r)
    ensures |r| == if Get(info, k).Some? then |info| else |info| + 1
    ensures forall i :: 0 <= i < |info| ==> r[i].0 == info[i].0
    ensures Get(info, k).None? ==> r[|info|] == (k, v)
  {
    match KeyIndex(info, k)
    case None =>
      var r := info + [(k, v)];
      assert forall k' :: k' != k ==> KeyIndex(r, k') == KeyIndex(info, k') by {
        forall k' | k' != k
          ensures KeyIndex(r, k') == KeyIndex(info, k')
        {
          if KeyIndex(info, k').Some? {
            KeyIndexIs(r, k', KeyIndex(info, k').value);
          }
        }
      }
      KeyIndexIs(r, k, |info|);
      r
    case Some(i) =>
      var r := info[i := (k, v)];
      SameKeysSameIndex(r, info, k);
      assert forall k' :: KeyIndex(r, k') == KeyIndex(info, k') by {
        forall k' ensures KeyIndex(r, k') == KeyIndex(info, k') { SameKeysSameIndex(r, info, k'); }
      }
      r
  }

  /** The first place a key sits is what `KeyIndex` finds. */
  lemma KeyIndexIs(info: Info, k: string, i: nat)
    requires i < |info| && info[i].0 == k
    requires forall j :: 0 <= j < i ==> info[j].0 != k
    ensures KeyIndex(info, k) == Some(i)
  {
  }

  /** A row with both a label and a value; only those enter the dictionary. */
  predicate Complete(row: TableRow) {
    row.labelText.Some? && row.valueText.Some?
  }

  function LabelOf(row: TableRow): string
    requires Complete(row)
  {
    Strip(row.labelText.value)
  }

  function ValueOf(row: TableRow): string
    requires Complete(row)
  {
    Strip(row.valueText.value)
  }

  /** The dictionary after the rows seen so far. */
  function InfoOf(rows: seq<TableRow>): Info {
    if rows == [] then []
    else
      var info := InfoOf(rows[..|rows| - 1]);
      var row := rows[|rows| - 1];
      if Complete(row) then Put(info, LabelOf(row), ValueOf(row)) else info
  }

  function ProductInformationOf(table: Option<seq<TableRow>>): Info {
    match table
    case None => []
    case Some(rows) => InfoOf(rows)
  }

  /** `_get_product_information`: the table's rows, entered one by one. */
  method GetProductInformation(table: Option<seq<TableRow>>) returns (info: Info)
    ensures info == ProductInformationOf(table)
  {
    info := [];
    if table.Some? {
      var rows := table.value;
      for i := 0 to |rows|
        invariant info == InfoOf(rows[..i])
      {
        assert rows[..i + 1][..i] == rows[..i];
        var row := rows[i];
        if row.labelText.Some? && row.valueText.Some? {
          info := Put(info, Strip(row.labelText.value), Strip(row.valueText.value));
        }
      }
      assert rows[..|rows|] == rows;
    }
  }

  /** Labels are never repeated in the dictionary. */
  lemma {:induction false} InfoKeysUnique(rows: seq<TableRow>)
    ensures UniqueKeys(InfoOf(rows))
  {
    if rows != [] {
      InfoKeysUnique(rows[..|rows| - 1]);
    }
  }

  /** Row `row` enters the dictionary under label `k`. */
  predicate CarriesLabel(row: TableRow, k: string) {
    Complete(row) && LabelOf(row) == k
  }

  /** A last row that does not carry `k` leaves `k`'s entry alone. */
  lemma InfoStepOther(rows: seq<TableRow>, k: string)
    requires rows != [] && !CarriesLabel(rows[|rows| - 1], k)
    ensures Get(InfoOf(rows), k) == Get(InfoOf(rows[..|rows| - 1]), k)
  {
  }

  /** A label is in the dictionary exactly when some complete row carries it. */
  lemma {:induction false} InfoHasLabelIff(rows: seq<TableRow>, k: string)
    ensures Get(InfoOf(rows), k).Some? <==> exists i :: 0 <= i < |rows| && CarriesLabel(rows[i], k)
  {
    if rows != [] {
      var init := rows[..|rows| - 1];
      var n := |rows| - 1;
      if CarriesLabel(rows[n], k) {
        assert Get(InfoOf(rows), k).Some?;
      } else {
        InfoStepOther(rows, k);
        InfoHasLabelIff(init, k);
        assert forall i :: 0 <= i < n ==> init[i] == rows[i];
      }
    }
  }

  /** A label's value is that of the LAST complete row carrying it. */
  lemma {:induction false} InfoValueIsLastRow(rows: seq<TableRow>, k: string, i: nat)
    requires i < |rows| && CarriesLabel(rows[i], k)
    requires forall j :: i < j < |rows| ==> !CarriesLabel(rows[j], k)
    ensures Get(InfoOf(rows), k) == Some(ValueOf(rows[i]))
  {
    var init := rows[..|rows| - 1];
    if i < |rows| - 1 {
      assert init[i] == rows[i];
      InfoValueIsLastRow(init, k, i);
    }
  }

  /** Dictionary order is the order in which labels first appear. */
  lemma {:induction false} InfoKeepsFirstPlace(rows: seq<TableRow>, more: seq<TableRow>, i: nat)
    requires i < |InfoOf(rows)|
    ensures i < |InfoOf(rows + more)| && InfoOf(rows + more)[i].0 == InfoOf(rows)[i].0
  {
    if more != [] {
      var init := more[..|more| - 1];
      InfoKeepsFirstPlace(rows, init, i);
      assert (rows + more)[..|rows + more| - 1] == rows + init;
    } else {
      assert rows + more == rows;
    }
  }
}
