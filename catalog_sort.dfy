/**
 * Sorting the filtered catalog by one nutrient column (src/App.tsx:18-27, 226-256).
 * The comparator sends "-", unparseable values and values equal to -1 to the end in
 * either direction; `Array.prototype.sort` is stable, so ties keep catalog order.
 */
module CatalogSort {
  import opened Wrappers
  import opened JsRuntime
  import opened Seqs
  import opened StableSort
  import opened CatCanRecords

  /** The sortable columns (`SortField` without `null`). */
  datatype SortField = WeightG | Kcal | MoistureContent | Protein | Fat | Ca | P

  /** `SortOrder` without `null`. */
  datatype SortOrder = Asc | Desc

  function FieldText(c: CatCan, f: SortField): string {
    match f
    case WeightG => c.weightG
    case Kcal => c.kcal
    case MoistureContent => c.moistureContent
    case Protein => c.protein
    case Fat => c.fat
    case Ca => c.ca
    case P => c.p
  }

  /** `getValue`: the parsed number, or -1 for "-" and for text that does not parse. */
  function SortValue(js: Js, c: CatCan, f: SortField): real {
    var text := FieldText(c, f);
    if text == "-" then -1.0
    else match js.parseFloat(text)
      case None => -1.0
      case Some(x) => x
  }

  /** A value the comparator treats as missing. */
  predicate Missing(js: Js, c: CatCan, f: SortField) {
    SortValue(js, c, f) == -1.0
  }

  /** The comparator's result; negative puts `a` first. */
  function Compare(js: Js, field: Option<SortField>, order: Option<SortOrder>, a: CatCan, b: CatCan): real {
    if field.None? || order.None? then 0.0
    else
      var av := SortValue(js, a, field.value);
      var bv := SortValue(js, b, field.value);
      if av == -1.0 && bv == -1.0 then 0.0
      else if av == -1.0 then 1.0
      else if bv == -1.0 then -1.0
      else if order.value == Asc then av - bv
      else bv - av
  }

  /** `a` may stay before `b`. */
  function SortLe(js: Js, field: Option<SortField>, order: Option<SortOrder>): (CatCan, CatCan) -> bool {
    (a: CatCan, b: CatCan) => Compare(js, field, order, a, b) <= 0.0
  }

  /** `sortedCatCans`: a stable sort of `cans` by the comparator. */
  function SortCatCans(js: Js, cans: seq<CatCan>, field: Option<SortField>, order: Option<SortOrder>): (r: seq<CatCan>)
    ensures multiset(r) == multiset(cans)
    ensures |r| == |cans|
  {
    SortPermutes(cans, SortLe(js, field, order));
    Sort(cans, SortLe(js, field, order))
  }

  /** Without a field or an order every pair ties, and the list is left as it is. */
  lemma UnsortedIsIdentity(js: Js, cans: seq<CatCan>, field: Option<SortField>, order: Option<SortOrder>)
    requires field.None? || order.None?
    ensures SortCatCans(js, cans, field, order) == cans
  {
    SortAllEqualIsIdentity(cans, SortLe(js, field, order));
  }

  /** The comparator is a total preorder, so the sort is well defined. */
  lemma SortLeTotalPreorder(js: Js, field: Option<SortField>, order: Option<SortOrder>)
    ensures Total(SortLe(js, field, order))
    ensures Transitive(SortLe(js, field, order))
  {
    var le := SortLe(js, field, order);
    forall a, b, c | le(a, b) && le(b, c) ensures le(a, c) {
      if field.Some? && order.Some? {
        var f := field.value;
        if !Missing(js, c, f) {
          assert !Missing(js, b, f);
          assert !Missing(js, a, f);
        }
      }
    }
  }

  /** Two records tie exactly when their values are equal (all missing values are equal). */
  lemma TieIffSameValue(js: Js, f: SortField, o: SortOrder, a: CatCan, b: CatCan)
    ensures (SortLe(js, Some(f), Some(o))(a, b) && SortLe(js, Some(f), Some(o))(b, a))
            <==> SortValue(js, a, f) == SortValue(js, b, f)
  {
  }

  /**
   * With a field and an order: records with a missing value come last, and the others
   * are in ascending order for `Asc` and descending order for `Desc`.
   */
  lemma SortedByValue(js: Js, cans: seq<CatCan>, f: SortField, o: SortOrder)
    ensures var r := SortCatCans(js, cans, Some(f), Some(o));
            forall i, j :: 0 <= i < j < |r| ==>
              && (Missing(js, r[i], f) ==> Missing(js, r[j], f))
              && (!Missing(js, r[j], f) && o == Asc ==> SortValue(js, r[i], f) <= SortValue(js, r[j], f))
              && (!Missing(js, r[j], f) && o == Desc ==> SortValue(js, r[i], f) >= SortValue(js, r[j], f))
  {
    var le := SortLe(js, Some(f), Some(o));
    SortLeTotalPreorder(js, Some(f), Some(o));
    SortSorted(cans, le);
  }

  /** Records with equal values keep their catalog order (the sort is stable). */
  lemma EqualValuesKeepOrder(js: Js, cans: seq<CatCan>, field: Option<SortField>, order: Option<SortOrder>, z: CatCan)
    ensures var le := SortLe(js, field, order);
            Ties(SortCatCans(js, cans, field, order), le, z) == Ties(cans, le, z)
  {
    SortLeTotalPreorder(js, field, order);
    SortStable(cans, SortLe(js, field, order), z);
  }

  /** "-" ranks with the missing values, whichever the direction. */
  lemma DashIsMissing(js: Js, c: CatCan, f: SortField)
    requires FieldText(c, f) == "-"
    ensures Missing(js, c, f)
  {
  }

  /** The sort state of the page. */
  datatype SortState = SortState(field: Option<SortField>, order: Option<SortOrder>)

  /** The state the page starts in: by weight, descending (src/App.tsx:86-87). */
  const InitialSort := SortState(Some(WeightG), Some(Desc))

  /**
   * `handleSort(field)`: the current field flips between ascending and descending
   * (anything but `asc` becomes `asc`); another field becomes current, descending.
   */
  function ClickSort(s: SortState, clicked: SortField): (r: SortState)
    ensures r.field == Some(clicked) && r.order.Some?
    ensures s.field != Some(clicked) ==> r.order == Some(Desc)
    ensures s.field == Some(clicked) ==> r.order != s.order
  {
    if s.field == Some(clicked) then
      SortState(s.field, if s.order == Some(Asc) then Some(Desc) else Some(Asc))
    else SortState(Some(clicked), Some(Desc))
  }

  /** Clicking the current column twice restores the order. */
  lemma ClickTwiceRestores(s: SortState, clicked: SortField)
    requires s.field == Some(clicked) && s.order.Some?
    ensures ClickSort(ClickSort(s, clicked), clicked) == s
  {
    match s.order.value
    case Asc =>
    case Desc =>
  }

  /** A new column is first sorted descending, then ascending on the next click. */
  lemma NewColumnThenAgain(s: SortState, clicked: SortField)
    requires s.field != Some(clicked)
    ensures ClickSort(s, clicked) == SortState(Some(clicked), Some(Desc))
    ensures ClickSort(ClickSort(s, clicked), clicked) == SortState(Some(clicked), Some(Asc))
  {
  }

  /** From the initial state, no sequence of clicks ever leaves the field or the order unset. */
  lemma {:induction false} ClicksKeepSortActive(s: SortState, clicks: seq<SortField>)
    requires s.field.Some? && s.order.Some?
    ensures var t := ClickAll(s, clicks); t.field.Some? && t.order.Some?
    decreases |clicks|
  {
    if clicks != [] {
      ClicksKeepSortActive(ClickSort(s, clicks[0]), clicks[1..]);
    }
  }

  function ClickAll(s: SortState, clicks: seq<SortField>): SortState
    decreases |clicks|
  {
    if clicks == [] then s else ClickAll(ClickSort(s, clicks[0]), clicks[1..])
  }
}
