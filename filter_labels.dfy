/**
 * The trigger-button text of each filter dropdown, the one place where the three
 * filter components differ.
 */
module WeightFilter {
  import opened Text
  import opened MultiSelect

  /** src/components/WeightFilter.tsx:89-93: weights are shown with a "g" suffix. */
  function WeightLabel(available: seq<string>, selected: seq<string>): (r: string)
    ensures IsAllSelected(available, selected) ==> r == "重量"
    ensures !IsAllSelected(available, selected) && |selected| == 0 ==> r == "選擇重量"
    ensures !IsAllSelected(available, selected) && |selected| > 0 ==>
              r == Join(Suffixed(selected, "g"), ", ")
    ensures !IsAllSelected(available, selected) ==>
              forall k :: 0 <= k < |selected| ==> Includes(r, selected[k] + "g")
  {
    assert !IsAllSelected(available, selected) ==>
             forall k :: 0 <= k < |selected| ==>
               Includes(TriggerLabel("重量", "選擇重量", "g", available, selected), selected[k] + "g") by {
      if !IsAllSelected(available, selected) {
        forall k | 0 <= k < |selected| {
          LabelNamesEverySelected("重量", "選擇重量", "g", available, selected, k);
        }
      }
    }
    TriggerLabel("重量", "選擇重量", "g", available, selected)
  }
}

module BrandFilter {
  import opened Text
  import opened MultiSelect

  /** src/components/BrandFilter.tsx:89-93. */
  function BrandLabel(available: seq<string>, selected: seq<string>): (r: string)
    ensures IsAllSelected(available, selected) ==> r == "品牌"
    ensures !IsAllSelected(available, selected) && |selected| == 0 ==> r == "選擇品牌"
    ensures !IsAllSelected(available, selected) && |selected| > 0 ==> r == Join(selected, ", ")
    ensures !IsAllSelected(available, selected) ==>
              forall k :: 0 <= k < |selected| ==> Includes(r, selected[k])
  {
    SuffixedEmpty(selected);
    assert !IsAllSelected(available, selected) ==>
             forall k :: 0 <= k < |selected| ==>
               Includes(TriggerLabel("品牌", "選擇品牌", "", available, selected), selected[k]) by {
      if !IsAllSelected(available, selected) {
        forall k | 0 <= k < |selected|
          ensures Includes(TriggerLabel("品牌", "選擇品牌", "", available, selected), selected[k])
        {
          LabelNamesEverySelected("品牌", "選擇品牌", "", available, selected, k);
          assert selected[k] + "" == selected[k];
        }
      }
    }
    TriggerLabel("品牌", "選擇品牌", "", available, selected)
  }
}

module MadeFilter {
  import opened Text
  import opened MultiSelect

  /** src/components/MadeFilter.tsx:88-92. */
  function MadeLabel(available: seq<string>, selected: seq<string>): (r: string)
    ensures IsAllSelected(available, selected) ==> r == "產地"
    ensures !IsAllSelected(available, selected) && |selected| == 0 ==> r == "選擇產地"
    ensures !IsAllSelected(available, selected) && |selected| > 0 ==> r == Join(selected, ", ")
    ensures !IsAllSelected(available, selected) ==>
              forall k :: 0 <= k < |selected| ==> Includes(r, selected[k])
  {
    SuffixedEmpty(selected);
    assert !IsAllSelected(available, selected) ==>
             forall k :: 0 <= k < |selected| ==>
               Includes(TriggerLabel("產地", "選擇產地", "", available, selected), selected[k]) by {
      if !IsAllSelected(available, selected) {
        forall k | 0 <= k < |selected|
          ensures Includes(TriggerLabel("產地", "選擇產地", "", available, selected), selected[k])
        {
          LabelNamesEverySelected("產地", "選擇產地", "", available, selected, k);
          assert selected[k] + "" == selected[k];
        }
      }
    }
    TriggerLabel("產地", "選擇產地", "", available, selected)
  }
}
