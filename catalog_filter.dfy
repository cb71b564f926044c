/**
 * The option lists of the three dropdowns (`getUniqueValues`, src/App.tsx:61-69 and
 * 153-183) and the filter the page applies to the catalog (src/App.tsx:189-220).
 */
module CatalogFilter {
  import opened Wrappers
  import opened JsRuntime
  import opened Text
  import opened Seqs
  import opened StableSort
  import opened CatCanRecords
  import MultiSelect

  predicate NotDash(v: string) {
    v != "-"
  }

  /**
   * `getUniqueValues`: the values other than "-", each once (first occurrence), sorted
   * by `le` (`le(a, b)` stands for `compare(a, b) <= 0`).
   */
  function UniqueValues(values: seq<string>, le: (string, string) -> bool): (r: seq<string>)
    ensures NoDup(r)
    ensures forall v :: v in r <==> v in values && v != "-"
  {
    var distinct := Dedup(Filter(values, NotDash));
    FilterSpec(values, NotDash);
    DedupSpec(Filter(values, NotDash));
    SortPermutes(distinct, le);
    PermutationKeepsNoDup(distinct, Sort(distinct, le));
    assert forall v :: v in Sort(distinct, le) <==> v in distinct by {
      forall v ensures v in Sort(distinct, le) <==> v in distinct {
        assert multiset(Sort(distinct, le))[v] == multiset(distinct)[v];
      }
    }
    Sort(distinct, le)
  }

  /** With a total preorder the options come out in order. */
  lemma UniqueValuesSorted(values: seq<string>, le: (string, string) -> bool)
    requires Total(le) && Transitive(le)
    ensures SortedBy(UniqueValues(values, le), le)
  {
    SortSorted(Dedup(Filter(values, NotDash)), le);
  }

  /** `parseFloat(a) - parseFloat(b) <= 0`; a `NaN` difference counts as a tie. */
  function WeightLe(js: Js): (string, string) -> bool {
    (a: string, b: string) =>
      var x, y := js.parseFloat(a), js.parseFloat(b);
      x.Some? && y.Some? ==> x.value <= y.value
  }

  lemma WeightLeTotal(js: Js)
    ensures Total(WeightLe(js))
  {
  }

  lemma WeightLeNumeric(js: Js, a: string, b: string)
    requires WeightLe(js)(a, b) && js.parseFloat(a).Some? && js.parseFloat(b).Some?
    ensures NumberOrZero(js, a) <= NumberOrZero(js, b)
  {
  }

  /** Every neighbouring pair of the weight options is in order, whatever the weights parse to. */
  lemma WeightOptionsAdjacentInOrder(js: Js, values: seq<string>)
    ensures AdjacentSortedBy(UniqueValues(values, WeightLe(js)), WeightLe(js))
  {
    WeightLeTotal(js);
    SortAdjacentSorted(Dedup(Filter(values, NotDash)), WeightLe(js));
  }

  /** When every weight parses, the weight options are in ascending numeric order. */
  lemma WeightOptionsAscending(js: Js, values: seq<string>)
    requires forall v :: v in values && v != "-" ==> js.parseFloat(v).Some?
    ensures var r := UniqueValues(values, WeightLe(js));
            forall i, j :: 0 <= i < j < |r| ==> NumberOrZero(js, r[i]) <= NumberOrZero(js, r[j])
  {
    var r := UniqueValues(values, WeightLe(js));
    WeightOptionsAdjacentInOrder(js, values);
    assert forall k :: 0 <= k < |r| ==> js.parseFloat(r[k]).Some? by {
      forall k | 0 <= k < |r| ensures js.parseFloat(r[k]).Some? {
        assert r[k] in r;
      }
    }
    forall i, j | 0 <= i < j < |r|
      ensures NumberOrZero(js, r[i]) <= NumberOrZero(js, r[j])
    {
      var k := i;
      while k < j
        invariant i <= k <= j
        invariant NumberOrZero(js, r[i]) <= NumberOrZero(js, r[k])
      {
        WeightLeNumeric(js, r[k], r[k + 1]);
        k := k + 1;
      }
    }
  }

  /** The three dropdowns. */
  datatype Dimension = Weight | Made | Brand

  function DimValue(c: CatCan, d: Dimension): string {
    match d
    case Weight => c.weightG
    case Made => c.made
    case Brand => c.brand
  }

  /** The key of every record for `d`, in catalog order (`items.map(key)`). */
  function Keys(cans: seq<CatCan>, d: Dimension): (r: seq<string>)
    ensures |r| == |cans|
    ensures forall i :: 0 <= i < |cans| ==> r[i] == DimValue(cans[i], d)
  {
    seq(|cans|, i requires 0 <= i < |cans| => DimValue(cans[i], d))
  }

  /** The order of each dropdown: numeric for weights, `localeCompare` otherwise. */
  function OptionOrder(js: Js, d: Dimension): (string, string) -> bool {
    if d == Weight then WeightLe(js) else js.localeLe
  }

  /** The options offered for `d` (`availableWeights`, `availableMades`, `availableBrands`). */
  function Available(js: Js, cans: seq<CatCan>, d: Dimension): seq<string> {
    UniqueValues(Keys(cans, d), OptionOrder(js, d))
  }

  /**
   * The options are duplicate-free and are exactly the values other than "-" that
   * some record has.
   */
  lemma AvailableSpec(js: Js, cans: seq<CatCan>, d: Dimension)
    ensures NoDup(Available(js, cans, d))
    ensures forall v :: v in Available(js, cans, d) <==> v != "-" && exists c :: c in cans && DimValue(c, d) == v
  {
    var keys := Keys(cans, d);
    forall v ensures v in keys <==> exists c :: c in cans && DimValue(c, d) == v {
      if v in keys {
        var i :| 0 <= i < |keys| && keys[i] == v;
        assert cans[i] in cans;
      }
      if exists c :: c in cans && DimValue(c, d) == v {
        var c :| c in cans && DimValue(c, d) == v;
        var i :| 0 <= i < |cans| && cans[i] == c;
        assert keys[i] == v;
      }
    }
  }

  /** With `localeCompare` a total preorder, origin and brand options are sorted by it. */
  lemma NameOptionsSorted(js: Js, cans: seq<CatCan>, d: Dimension)
    requires LocaleIsTotalPreorder(js) && d != Weight
    ensures SortedBy(Available(js, cans, d), js.localeLe)
  {
    UniqueValuesSorted(Keys(cans, d), js.localeLe);
  }

  /** What the user has asked for: a search text and the three selections. */
  datatype Criteria = Criteria(query: string, weights: seq<string>, mades: seq<string>, brands: seq<string>)

  /** An empty selection restricts nothing; otherwise the value must be selected. */
  predicate InSelection(selected: seq<string>, v: string) {
    |selected| == 0 || v in selected
  }

  /**
   * A blank query matches everything; otherwise the lower-cased, trimmed query must
   * occur in the lower-cased origin, brand, name or flavour.
   */
  predicate MatchesQuery(c: CatCan, query: string) {
    Trim(query) == [] ||
    var q := Trim(ToLower(query));
    Includes(ToLower(c.made), q) || Includes(ToLower(c.brand), q) ||
    Includes(ToLower(c.name), q) || Includes(ToLower(c.flaver), q)
  }

  predicate Keeps(c: CatCan, crit: Criteria) {
    && MatchesQuery(c, crit.query)
    && InSelection(crit.weights, c.weightG)
    && InSelection(crit.mades, c.made)
    && InSelection(crit.brands, c.brand)
  }

  /** `filteredCatCans`: the records the criteria keep, in catalog order. */
  function FilterCatCans(cans: seq<CatCan>, crit: Criteria): (r: seq<CatCan>)
    ensures forall c :: c in r <==> c in cans && Keeps(c, crit)
    ensures IsSubsequence(r, cans)
    ensures forall c :: multiset(r)[c] == if Keeps(c, crit) then multiset(cans)[c] else 0
  {
    FilterSpec(cans, c => Keeps(c, crit));
    Filter(cans, c => Keeps(c, crit))
  }

  /** No query and no selection: the whole catalog is shown, in order. */
  lemma NoCriteriaKeepsAll(cans: seq<CatCan>, query: string)
    requires AllSpace(query)
    ensures FilterCatCans(cans, Criteria(query, [], [], [])) == cans
  {
    FilterAll(cans, c => Keeps(c, Criteria(query, [], [], [])));
  }

  /** The query is matched without regard to ASCII case. */
  lemma QueryIgnoresCase(c: CatCan, query: string)
    ensures MatchesQuery(c, ToLower(query)) <==> MatchesQuery(c, query)
  {
    ToLowerIdempotent(query);
    ToLowerKeepsSpace(query);
  }

  /**
   * With every selection at its full option list (the state right after loading),
   * a record is kept exactly when it matches the query and, for each dimension that
   * has options at all, its value is not "-".
   */
  lemma FullSelectionsKeep(js: Js, cans: seq<CatCan>, query: string, c: CatCan)
    requires c in cans
    ensures var crit := Criteria(query, Available(js, cans, Weight), Available(js, cans, Made), Available(js, cans, Brand));
            Keeps(c, crit) <==>
              && MatchesQuery(c, query)
              && (|Available(js, cans, Weight)| == 0 || c.weightG != "-")
              && (|Available(js, cans, Made)| == 0 || c.made != "-")
              && (|Available(js, cans, Brand)| == 0 || c.brand != "-")
  {
    FullSelectionHolds(js, cans, Weight, c);
    FullSelectionHolds(js, cans, Made, c);
    FullSelectionHolds(js, cans, Brand, c);
  }

  /** One dimension of `FullSelectionsKeep`. */
  lemma FullSelectionHolds(js: Js, cans: seq<CatCan>, d: Dimension, c: CatCan)
    requires c in cans
    ensures InSelection(Available(js, cans, d), DimValue(c, d)) <==>
              |Available(js, cans, d)| == 0 || DimValue(c, d) != "-"
  {
    var i :| 0 <= i < |cans| && cans[i] == c;
    assert Keys(cans, d)[i] == DimValue(c, d);
  }

  /**
   * Selecting every option and clearing the selection differ: with all selected a
   * record whose weight is "-" is hidden; with the selection cleared it is shown
   * (given it passes the other criteria).
   */
  lemma AllSelectedHidesDashWeight(js: Js, cans: seq<CatCan>, c: CatCan, crit: Criteria)
    requires c in cans && c.weightG == "-"
    requires crit.weights == Available(js, cans, Weight) && |crit.weights| > 0
    ensures !Keeps(c, crit)
    ensures Keeps(c, crit.(weights := MultiSelect.ClearAll())) <==>
              MatchesQuery(c, crit.query) && InSelection(crit.mades, c.made) && InSelection(crit.brands, c.brand)
  {
  }
}
