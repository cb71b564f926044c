/**
 * The page state of `App` (src/App.tsx:80-87) and the handlers that change it: loading
 * the catalog, the search box, the three filter dropdowns and the column-header sort.
 *
 * The option lists `availableWeights`, `availableMades` and `availableBrands` are
 * recomputed from `catCans` on every render (src/App.tsx:176-183); since only loading
 * changes `catCans`, the model keeps them in fields that loading refreshes, and
 * `Derived` says they equal what the render would compute.
 */
module CatalogApp {
  import opened Wrappers
  import opened JsRuntime
  import opened Seqs
  import opened CatCanRecords
  import opened CatalogFilter
  import opened CatalogSort
  import MultiSelect

  /** The text handler's parsing part (src/App.tsx:102-147). */
  method ReadCatalog(js: Js, text: string) returns (r: Option<seq<CatCan>>)
    ensures r == LoadedRecords(js, text)
  {
    var lines := Lines(text);
    if |lines| <= 1 {
      return None;
    }
    var data := BuildCatCans(js, lines);
    return Some(data);
  }

  class App {
    const js: Js
    var catCans: seq<CatCan>
    var loading: bool
    var searchQuery: string
    var selectedWeights: seq<string>
    var selectedMades: seq<string>
    var selectedBrands: seq<string>
    var sortField: Option<SortField>
    var sortOrder: Option<SortOrder>
    var availableWeights: seq<string>
    var availableMades: seq<string>
    var availableBrands: seq<string>

    /** The option lists are those of the loaded catalog. */
    ghost predicate Derived()
      reads this`catCans, this`availableWeights, this`availableMades, this`availableBrands
    {
      && availableWeights == Available(js, catCans, Weight)
      && availableMades == Available(js, catCans, Made)
      && availableBrands == Available(js, catCans, Brand)
    }

    /**
     * The option lists are duplicate-free, each selection is a duplicate-free subset
     * of its options, and a sort column and direction are always set.
     */
    ghost predicate Valid()
      reads this
    {
      && NoDup(availableWeights) && NoDup(availableMades) && NoDup(availableBrands)
      && MultiSelect.Valid(availableWeights, selectedWeights)
      && MultiSelect.Valid(availableMades, selectedMades)
      && MultiSelect.Valid(availableBrands, selectedBrands)
      && sortField.Some? && sortOrder.Some?
    }

    function Criteria(): CatalogFilter.Criteria
      reads this
    {
      CatalogFilter.Criteria(searchQuery, selectedWeights, selectedMades, selectedBrands)
    }

    /** `sortedCatCans`: the rows the table shows. */
    function Shown(): (r: seq<CatCan>)
      reads this
      ensures multiset(r) == multiset(FilterCatCans(catCans, Criteria()))
      ensures forall c :: c in r <==> c in catCans && Keeps(c, Criteria())
    {
      var kept := FilterCatCans(catCans, Criteria());
      var r := SortCatCans(js, kept, sortField, sortOrder);
      assert forall c :: c in r <==> c in kept by {
        forall c ensures c in r <==> c in kept {
          assert multiset(r)[c] == multiset(kept)[c];
        }
      }
      r
    }

    /** The initial state: no data, loading, sorted by weight descending. */
    constructor(js: Js)
      ensures this.js == js && catCans == [] && loading && searchQuery == ""
      ensures selectedWeights == [] && selectedMades == [] && selectedBrands == []
      ensures sortField == Some(WeightG) && sortOrder == Some(Desc)
      ensures Valid() && Derived()
    {
      this.js := js;
      catCans := [];
      loading := true;
      searchQuery := "";
      selectedWeights := [];
      selectedMades := [];
      selectedBrands := [];
      sortField := Some(WeightG);
      sortOrder := Some(Desc);
      availableWeights := Available(js, [], Weight);
      availableMades := Available(js, [], Made);
      availableBrands := Available(js, [], Brand);
    }

    /**
     * `setCatCans(data)` and the three `setSelected…` calls that select every option
     * (src/App.tsx:150-164).
     */
    method SetCatalog(data: seq<CatCan>)
      requires sortField.Some? && sortOrder.Some?
      modifies this
      ensures Valid() && Derived() && !loading
      ensures catCans == data
      ensures selectedWeights == availableWeights && selectedMades == availableMades
      ensures selectedBrands == availableBrands
      ensures searchQuery == old(searchQuery) && sortField == old(sortField) && sortOrder == old(sortOrder)
    {
      var w, m, b := Available(js, data, Weight), Available(js, data, Made), Available(js, data, Brand);
      catCans, availableWeights, availableMades, availableBrands, selectedWeights, selectedMades, selectedBrands, loading :=
        data, w, m, b, w, m, b, false;
      assert catCans == data && availableWeights == w && availableMades == m && availableBrands == b;
    }

    /**
     * The download finished with `text` (src/App.tsx:102-164). Without a data row only
     * the loading flag changes; otherwise the records replace the catalog and every
     * dropdown starts with all of its options selected.
     */
    method Load(text: string)
      requires Valid() && Derived()
      modifies this
      ensures Valid() && Derived() && !loading
      ensures LoadedRecords(js, text).None? ==>
                && catCans == old(catCans) && selectedWeights == old(selectedWeights)
                && selectedMades == old(selectedMades) && selectedBrands == old(selectedBrands)
      ensures LoadedRecords(js, text).Some? ==>
                && catCans == LoadedRecords(js, text).value
                && selectedWeights == availableWeights
                && selectedMades == availableMades
                && selectedBrands == availableBrands
      ensures searchQuery == old(searchQuery) && sortField == old(sortField) && sortOrder == old(sortOrder)
    {
      var loaded := ReadCatalog(js, text);
      if loaded.None? {
        loading := false;
        return;
      }
      SetCatalog(loaded.value);
    }

    /** The download failed (src/App.tsx:166-169): only the loading flag changes. */
    method LoadFailed()
      requires Valid()
      modifies this
      ensures Valid() && !loading
      ensures catCans == old(catCans) && searchQuery == old(searchQuery)
      ensures selectedWeights == old(selectedWeights) && selectedMades == old(selectedMades)
      ensures selectedBrands == old(selectedBrands)
      ensures sortField == old(sortField) && sortOrder == old(sortOrder)
      ensures availableWeights == old(availableWeights) && availableMades == old(availableMades)
      ensures availableBrands == old(availableBrands)
    {
      loading := false;
    }

    /** The search box changed (`onSearchChange={setSearchQuery}`). */
    method SetSearchQuery(q: string)
      requires Valid()
      modifies this
      ensures Valid() && searchQuery == q
      ensures catCans == old(catCans) && loading == old(loading)
      ensures selectedWeights == old(selectedWeights) && selectedMades == old(selectedMades)
      ensures selectedBrands == old(selectedBrands)
      ensures sortField == old(sortField) && sortOrder == old(sortOrder)
      ensures availableWeights == old(availableWeights) && availableMades == old(availableMades)
      ensures availableBrands == old(availableBrands)
    {
      searchQuery := q;
    }

    /** An event in the weight dropdown (`onWeightChange={setSelectedWeights}`). */
    method SelectWeights(e: MultiSelect.Event)
      requires Valid() && MultiSelect.Offered(availableWeights, e)
      modifies this
      ensures Valid()
      ensures selectedWeights == MultiSelect.Apply(availableWeights, old(selectedWeights), e)
      ensures selectedMades == old(selectedMades) && selectedBrands == old(selectedBrands)
      ensures catCans == old(catCans) && loading == old(loading) && searchQuery == old(searchQuery)
      ensures sortField == old(sortField) && sortOrder == old(sortOrder)
      ensures availableWeights == old(availableWeights) && availableMades == old(availableMades)
      ensures availableBrands == old(availableBrands)
    {
      MultiSelect.ApplyValid(availableWeights, selectedWeights, e);
      selectedWeights := MultiSelect.Apply(availableWeights, selectedWeights, e);
    }

    /** An event in the origin dropdown (`onMadeChange={setSelectedMades}`). */
    method SelectMades(e: MultiSelect.Event)
      requires Valid() && MultiSelect.Offered(availableMades, e)
      modifies this
      ensures Valid()
      ensures selectedMades == MultiSelect.Apply(availableMades, old(selectedMades), e)
      ensures selectedWeights == old(selectedWeights) && selectedBrands == old(selectedBrands)
      ensures catCans == old(catCans) && loading == old(loading) && searchQuery == old(searchQuery)
      ensures sortField == old(sortField) && sortOrder == old(sortOrder)
      ensures availableWeights == old(availableWeights) && availableMades == old(availableMades)
      ensures availableBrands == old(availableBrands)
    {
      MultiSelect.ApplyValid(availableMades, selectedMades, e);
      selectedMades := MultiSelect.Apply(availableMades, selectedMades, e);
    }

    /** An event in the brand dropdown (`onBrandChange={setSelectedBrands}`). */
    method SelectBrands(e: MultiSelect.Event)
      requires Valid() && MultiSelect.Offered(availableBrands, e)
      modifies this
      ensures Valid()
      ensures selectedBrands == MultiSelect.Apply(availableBrands, old(selectedBrands), e)
      ensures selectedWeights == old(selectedWeights) && selectedMades == old(selectedMades)
      ensures catCans == old(catCans) && loading == old(loading) && searchQuery == old(searchQuery)
      ensures sortField == old(sortField) && sortOrder == old(sortOrder)
      ensures availableWeights == old(availableWeights) && availableMades == old(availableMades)
      ensures availableBrands == old(availableBrands)
    {
      MultiSelect.ApplyValid(availableBrands, selectedBrands, e);
      selectedBrands := MultiSelect.Apply(availableBrands, selectedBrands, e);
    }

    /** `handleSort(field)` (src/App.tsx:226-235). */
    method HandleSort(field: SortField)
      requires Valid()
      modifies this
      ensures Valid()
      ensures SortState(sortField, sortOrder) == ClickSort(old(SortState(sortField, sortOrder)), field)
      ensures catCans == old(catCans) && loading == old(loading) && searchQuery == old(searchQuery)
      ensures selectedWeights == old(selectedWeights) && selectedMades == old(selectedMades)
      ensures selectedBrands == old(selectedBrands)
      ensures availableWeights == old(availableWeights) && availableMades == old(availableMades)
      ensures availableBrands == old(availableBrands)
    {
      if sortField == Some(field) {
        sortOrder := if sortOrder == Some(Asc) then Some(Desc) else Some(Asc);
      } else {
        sortField := Some(field);
        sortOrder := Some(Desc);
      }
    }
  }
}
