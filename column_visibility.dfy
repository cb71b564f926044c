/**
 * Which table columns are shown (src/components/TableFilter.tsx and the `visibleCols`
 * filter of src/components/CatCanTable.tsx). The page keeps a map from column id to a
 * flag; a column is hidden only by an explicit `false`, so a missing entry means shown.
 * The flavour column is always shown and is not offered as a toggle.
 */
module ColumnVisibility {
  import opened Seqs
  import opened TableColumns

  /** `visibleColumns`: `Record<string, boolean>`. */
  type Visibility = map<string, bool>

  /** `visibleColumns[id] !== false`. */
  predicate IsVisible(vis: Visibility, id: string) {
    !(id in vis && !vis[id])
  }

  predicate IsToggleable(c: Column) {
    c.id != FlavourId
  }

  function VisibleIn(vis: Visibility): Column -> bool {
    (c: Column) => IsVisible(vis, c.id)
  }

  /** The columns the dropdown offers as toggles: all but the flavour column. */
  function ToggleableColumns(): seq<Column> {
    Filter(Registry, IsToggleable)
  }

  /** The dropdown offers every column but the flavour column, in registry order. */
  lemma ToggleableIsAllButFlavour()
    ensures ToggleableColumns() == Registry[1..]
    ensures forall c :: c in ToggleableColumns() ==> c.id != FlavourId
  {
    RegistryFlavourFirst();
    DropFlavour(Registry);
    FilterSpec(Registry, IsToggleable);
  }

  /** The columns `visibleCount` counts: any but the flavour column, unless hidden. */
  function CountedIn(vis: Visibility): Column -> bool {
    (c: Column) => c.id != FlavourId && IsVisible(vis, c.id)
  }

  /** The counted columns are the toggleable columns that are not hidden. */
  lemma CountedAreVisibleToggleable(vis: Visibility)
    ensures Filter(Registry, CountedIn(vis)) == Filter(ToggleableColumns(), VisibleIn(vis))
  {
    FilterTwice(Registry, IsToggleable, VisibleIn(vis), CountedIn(vis));
  }

  /** `visibleCount`: one for the flavour column plus the counted columns. */
  function VisibleCount(vis: Visibility): (r: nat)
    ensures 1 <= r <= |Registry|
  {
    CountedAreVisibleToggleable(vis);
    ToggleableIsAllButFlavour();
    1 + |Filter(Registry, CountedIn(vis))|
  }

  /** `isAllVisible`: no toggleable column is hidden. */
  predicate IsAllVisible(vis: Visibility) {
    forall c :: c in ToggleableColumns() ==> IsVisible(vis, c.id)
  }

  /** The counter reads "14 / 14" exactly when every column is visible. */
  lemma AllVisibleIffFullCount(vis: Visibility)
    ensures IsAllVisible(vis) <==> VisibleCount(vis) == |Registry|
  {
    CountedAreVisibleToggleable(vis);
    ToggleableIsAllButFlavour();
    FilterKeepsLength(ToggleableColumns(), VisibleIn(vis));
  }

  /**
   * `handleToggle(id)`: the entry becomes `visibleColumns[id] === false`, so a hidden
   * column is shown and a shown one (listed or not) is hidden; no other entry changes.
   */
  function ToggleColumn(vis: Visibility, id: string): (r: Visibility)
    ensures id in r && (IsVisible(r, id) <==> !IsVisible(vis, id))
    ensures forall k :: k != id ==> (k in r <==> k in vis)
    ensures forall k :: k != id && k in vis ==> r[k] == vis[k]
  {
    vis[id := id in vis && !vis[id]]
  }

  /** Toggling a column twice restores whether every column is shown. */
  lemma ToggleTwiceRestores(vis: Visibility, id: string)
    ensures forall k :: IsVisible(ToggleColumn(ToggleColumn(vis, id), id), k) <==> IsVisible(vis, k)
  {
  }

  /** Toggling a column changes that column's visibility only. */
  lemma ToggleChangesOneColumn(vis: Visibility, id: string, k: string)
    ensures IsVisible(ToggleColumn(vis, id), k) <==> (IsVisible(vis, k) != (k == id))
  {
  }

  /** `handleSelectAll`: every registry id, the flavour column's included, mapped to `true`. */
  function SelectAll(): (r: Visibility)
    ensures forall c :: c in Registry ==> c.id in r && r[c.id]
    ensures forall k :: k in r ==> k in Ids(Registry)
  {
    map k | k in Ids(Registry) :: true
  }

  /** After "select all" every column is shown and the counter is full. */
  lemma SelectAllShowsAll()
    ensures IsAllVisible(SelectAll())
    ensures VisibleCount(SelectAll()) == |Registry|
  {
    forall c | c in ToggleableColumns() ensures IsVisible(SelectAll(), c.id) {
      ToggleableIsAllButFlavour();
      assert c in Registry;
    }
    AllVisibleIffFullCount(SelectAll());
  }

  function ShownIn(vis: Visibility): Column -> bool {
    (c: Column) => c.id == FlavourId || IsVisible(vis, c.id)
  }

  /** `visibleCols`: the columns the table renders, in registry order. */
  function VisibleColumns(vis: Visibility): (r: seq<Column>)
    ensures IsSubsequence(r, Registry)
    ensures forall c :: c in r <==> c in Registry && (c.id == FlavourId || IsVisible(vis, c.id))
  {
    FilterSpec(Registry, ShownIn(vis));
    Filter(Registry, ShownIn(vis))
  }

  /** The flavour column is always rendered, first, so the table is never empty. */
  lemma FlavourAlwaysRendered(vis: Visibility)
    ensures |VisibleColumns(vis)| > 0 && VisibleColumns(vis)[0] == Registry[0]
  {
    FlavourColumnFirst();
    assert Registry == [Registry[0]] + Registry[1..];
  }

  /** The flavour column first, and no other column with its id. */
  predicate FlavourFirst(cols: seq<Column>) {
    |cols| > 0 && cols[0].id == FlavourId && forall i :: 1 <= i < |cols| ==> cols[i].id != FlavourId
  }

  lemma RegistryFlavourFirst()
    ensures FlavourFirst(Registry)
  {
    FlavourColumnFirst();
  }

  /** Dropping the flavour column leaves the rest, in order. */
  lemma {:induction false} DropFlavour(cols: seq<Column>)
    requires FlavourFirst(cols)
    ensures Filter(cols, IsToggleable) == cols[1..]
  {
    var rest := cols[1..];
    forall c | c in rest ensures IsToggleable(c) {
      var i :| 0 <= i < |rest| && rest[i] == c;
      assert c == cols[i + 1];
    }
    FilterAll(rest, IsToggleable);
    assert cols == [cols[0]] + rest;
  }

  /** With the flavour column first, the table renders one column more than the counter counts. */
  lemma {:induction false} RenderedCount(cols: seq<Column>, vis: Visibility)
    requires FlavourFirst(cols)
    ensures |Filter(cols, ShownIn(vis))| == 1 + |Filter(cols, CountedIn(vis))|
  {
    var rest := cols[1..];
    forall c | c in rest ensures ShownIn(vis)(c) == CountedIn(vis)(c) {
      var i :| 0 <= i < |rest| && rest[i] == c;
      assert c == cols[i + 1];
    }
    FilterCongruent(rest, ShownIn(vis), CountedIn(vis));
    assert cols == [cols[0]] + rest;
  }

  /** The counter in the dropdown is the number of columns the table renders. */
  lemma CountMatchesRenderedColumns(vis: Visibility)
    ensures |VisibleColumns(vis)| == VisibleCount(vis)
  {
    RegistryFlavourFirst();
    RenderedCount(Registry, vis);
  }
}
