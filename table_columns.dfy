/**
 * The column registry of the catalog table and what the header shows for a sortable
 * column (src/components/CatCanTable.tsx).
 */
module TableColumns {
  import opened Wrappers
  import opened Seqs
  import opened CatalogSort

  /** One entry of `TABLE_COLUMNS` (`title` is its `label`); `sticky`, `sortField` and `sortAriaLabel` are optional there. */
  datatype Column = Column(id: string, title: string, sticky: bool,
                           sortField: Option<SortField>, sortAriaLabel: Option<string>)

  function Plain(id: string, title: string): Column {
    Column(id, title, false, None, None)
  }

  function Sortable(id: string, title: string, field: SortField, ariaLabel: string): Column {
    Column(id, title, false, Some(field), Some(ariaLabel))
  }

  /** `TABLE_COLUMNS`, in display order. */
  const Registry: seq<Column> := [
    Column("flaver", "口味", true, None, None),
    Plain("brand", "品牌"),
    Plain("name", "名稱"),
    Plain("made", "產地"),
    Sortable("weight_g", "重量(g)", WeightG, "依重量排序"),
    Sortable("kcal", "熱量(kcal)", Kcal, "依熱量排序"),
    Sortable("moistureContent", "水分(ml)", MoistureContent, "依水分含量排序"),
    Sortable("protein", "粗蛋白質(%)", Protein, "依粗蛋白質排序"),
    Sortable("fat", "粗脂肪(%)", Fat, "依粗脂肪排序"),
    Sortable("Ca", "鈣(%)", Ca, "依鈣排序"),
    Sortable("P", "磷(%)", P, "依磷排序"),
    Plain("fiber", "粗纖維(%)"),
    Plain("ash", "灰分(%)"),
    Plain("taurineContent", "牛磺酸(mg)")
  ]

  /** The id of the flavour column, which is always shown. */
  const FlavourId := "flaver"

  function Ids(cols: seq<Column>): (r: seq<string>)
    ensures |r| == |cols|
    ensures forall i :: 0 <= i < |cols| ==> r[i] == cols[i].id
  {
    seq(|cols|, i requires 0 <= i < |cols| => cols[i].id)
  }

  /** The ids of `TABLE_COLUMNS`, in order. */
  lemma RegistryIds()
    ensures Ids(Registry) == ["flaver", "brand", "name", "made", "weight_g", "kcal", "moistureContent",
                              "protein", "fat", "Ca", "P", "fiber", "ash", "taurineContent"]
  {
  }

  /** Fourteen columns with distinct ids. */
  lemma RegistryIdsDistinct()
    ensures |Registry| == 14 && NoDup(Ids(Registry))
  {
    RegistryIds();
    var ids := Ids(Registry);
    forall i, j | 0 <= i < j < |ids| ensures ids[i] != ids[j] {
      assert |ids[i]| != |ids[j]| || ids[i][0] != ids[j][0];
    }
  }

  /** The flavour column comes first and is the only sticky one. */
  lemma FlavourColumnFirst()
    ensures Registry[0].id == FlavourId && Registry[0].sticky
    ensures forall i :: 1 <= i < |Registry| ==> Registry[i].id != FlavourId && !Registry[i].sticky
  {
    RegistryIds();
    forall i | 1 <= i < |Registry| ensures Registry[i].id != FlavourId {
      assert Ids(Registry)[i] == Registry[i].id;
    }
  }

  /** The sortable columns are the seven from the weight to phosphorus, each with an aria label. */
  lemma SortableColumns()
    ensures forall i :: 0 <= i < |Registry| ==> (Registry[i].sortField.Some? <==> 4 <= i <= 10)
    ensures forall i :: 0 <= i < |Registry| ==> (Registry[i].sortField.Some? <==> Registry[i].sortAriaLabel.Some?)
  {
  }

  /** The position in `TABLE_COLUMNS` of the column sorted by `f`. */
  function ColumnOf(f: SortField): nat {
    match f
    case WeightG => 4
    case Kcal => 5
    case MoistureContent => 6
    case Protein => 7
    case Fat => 8
    case Ca => 9
    case P => 10
  }

  /** Every sort field has exactly one column. */
  lemma EverySortFieldHasOneColumn(f: SortField)
    ensures 0 <= ColumnOf(f) < |Registry| && Registry[ColumnOf(f)].sortField == Some(f)
    ensures forall i :: 0 <= i < |Registry| && Registry[i].sortField == Some(f) ==> i == ColumnOf(f)
  {
  }

  /** The column a sort field belongs to is the one the comparator reads. */
  lemma SortColumnsMatchFields()
    ensures forall i :: 0 <= i < |Registry| && Registry[i].sortField.Some? ==>
              Registry[i].id == SortFieldName(Registry[i].sortField.value)
  {
  }

  /** `SortField`'s string value. */
  function SortFieldName(f: SortField): string {
    match f
    case WeightG => "weight_g"
    case Kcal => "kcal"
    case MoistureContent => "moistureContent"
    case Protein => "protein"
    case Fat => "fat"
    case Ca => "Ca"
    case P => "P"
  }

  /** The arrow next to a sortable column's title (`SortIcon`). */
  datatype SortIcon = ArrowsUpDown | ChevronUp | ChevronDown

  /** `SortIcon`: neutral for another column, up for ascending, down otherwise (a missing order included). */
  function IconOf(field: SortField, sortField: Option<SortField>, sortOrder: Option<SortOrder>): SortIcon {
    if sortField != Some(field) then ArrowsUpDown
    else if sortOrder == Some(Asc) then ChevronUp
    else ChevronDown
  }

  const NotSortedText := "可點擊排序"
  const AscendingText := "目前為升冪，點擊改為降冪"
  const DescendingText := "目前為降冪，點擊改為升冪"

  /** `sortState` in `SortableHeader`: what the screen reader is told about the column. */
  function SortStateText(field: SortField, sortField: Option<SortField>, sortOrder: Option<SortOrder>): string {
    if sortField != Some(field) then NotSortedText
    else if sortOrder == Some(Asc) then AscendingText
    else DescendingText
  }

  /** The header's `aria-label`: the column's aria label (or nothing), a full-width comma, the state. */
  function HeaderAriaLabel(col: Column, sortField: Option<SortField>, sortOrder: Option<SortOrder>): (r: string)
    requires col.sortField.Some?
    ensures var aria := if col.sortAriaLabel.Some? then col.sortAriaLabel.value else "";
            var state := SortStateText(col.sortField.value, sortField, sortOrder);
            && |r| == |aria| + 1 + |state|
            && r[..|aria|] == aria
            && r[|aria|] == '，'
            && r[|aria| + 1..] == state
  {
    var aria := if col.sortAriaLabel.Some? then col.sortAriaLabel.value else "";
    aria + "，" + SortStateText(col.sortField.value, sortField, sortOrder)
  }

  /** The arrow and the spoken state always tell the same story. */
  lemma IconAgreesWithText(field: SortField, sortField: Option<SortField>, sortOrder: Option<SortOrder>)
    ensures IconOf(field, sortField, sortOrder) == ArrowsUpDown <==> SortStateText(field, sortField, sortOrder) == NotSortedText
    ensures IconOf(field, sortField, sortOrder) == ChevronUp <==> SortStateText(field, sortField, sortOrder) == AscendingText
    ensures IconOf(field, sortField, sortOrder) == ChevronDown <==> SortStateText(field, sortField, sortOrder) == DescendingText
  {
    assert NotSortedText != AscendingText && NotSortedText != DescendingText by {
      assert |NotSortedText| == 5 && |AscendingText| == 12 && |DescendingText| == 12;
    }
    assert AscendingText[3] != DescendingText[3];
  }

  /**
   * After a click on a column's header that column, and no other, shows a direction,
   * and it shows "up" exactly when the new order is ascending.
   */
  lemma ClickedColumnShowsDirection(s: SortState, clicked: SortField, other: SortField)
    requires other != clicked
    ensures var t := ClickSort(s, clicked);
            && IconOf(clicked, t.field, t.order) != ArrowsUpDown
            && (IconOf(clicked, t.field, t.order) == ChevronUp <==> t.order == Some(Asc))
            && IconOf(other, t.field, t.order) == ArrowsUpDown
  {
  }

  /** Clicking the column that shows a direction flips the arrow. */
  lemma ClickFlipsArrow(s: SortState, clicked: SortField)
    requires s.field == Some(clicked) && s.order.Some?
    ensures var t := ClickSort(s, clicked);
            IconOf(clicked, t.field, t.order) != IconOf(clicked, s.field, s.order)
  {
  }
}
