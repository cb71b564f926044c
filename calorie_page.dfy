/**
 * The calorie calculator component (src/components/CalorieCalculator.tsx). It keeps
 * its own copy of the DER table and of the daily-calorie formula; its state is the
 * weight text and the chosen life stage, and the select box shows the stage's index.
 */
module CalorieCalculatorPage {
  import opened Wrappers
  import opened JsRuntime
  import opened Seqs
  import opened CalorieConstants
  import opened CalorieUtils

  /** The component's own `DER_RANGES`. */
  const PageDerRanges: seq<DerRange> := [
    DerRange("幼貓 (<4個月)", 2.5, 3.0),
    DerRange("幼貓 (4-12個月)", 2.0, 2.5),
    DerRange("成貓 (絕育)", 1.2, 1.4),
    DerRange("成貓 (未絕育)", 1.4, 1.6),
    DerRange("懷孕", 1.6, 2.0),
    DerRange("哺乳", 2.0, 6.0),
    DerRange("減重", 0.8, 1.0),
    DerRange("增重", 1.2, 1.8)
  ]

  /** The copy is the shared table, entry for entry. */
  lemma PageTableIsSharedTable()
    ensures PageDerRanges == DerRanges
  {
  }

  /** The component's own `calculateRER`. */
  function PageRer(js: Js, weightKg: real): real {
    70.0 * js.pow075(weightKg)
  }

  /** The component's own `calculateDailyCalories`, over the state it closes over. */
  function PageDailyCalories(js: Js, weight: string, der: DerRange): Option<DailyCalorieResult> {
    var weightNum := js.parseFloat(weight);
    if weight == [] || weightNum.None? || weightNum.value <= 0.0 then None
    else Some(PageResult(js, weightNum.value, der))
  }

  /** The part of the component's `calculateDailyCalories` after the guard. */
  function PageResult(js: Js, weightNum: real, der: DerRange): DailyCalorieResult {
    var rer := PageRer(js, weightNum);
    var minCalories := Energy(rer, der.min);
    var maxCalories := Energy(rer, der.max);
    var minWater := weightNum * 40.0;
    var maxWater := weightNum * 60.0;
    DailyCalorieResult(js.toFixed(rer, 1), js.toFixed(minCalories, 1), js.toFixed(maxCalories, 1),
                       js.toFixed(minWater, 0), js.toFixed(maxWater, 0))
  }

  /** The copy computes what the shared `calculateDailyCalories` computes, for every input. */
  lemma PageCalculatorIsShared(js: Js, weight: string, der: DerRange)
    ensures PageDailyCalories(js, weight, der) == DailyCalories(js, weight, der)
  {
    if !NoWeight(js, weight) {
      var w := js.parseFloat(weight).value;
      assert PageResult(js, w, der) == Format(js, Amounts(js, weight, der).value);
    }
  }

  /** `ranges.findIndex((r) => r.label === stage)`: the first entry with that label, or -1. */
  function FindStage(ranges: seq<DerRange>, stage: string): (r: int)
    ensures -1 <= r < |ranges|
    ensures r >= 0 ==> ranges[r].stage == stage && forall k :: 0 <= k < r ==> ranges[k].stage != stage
    ensures r == -1 ==> forall k :: 0 <= k < |ranges| ==> ranges[k].stage != stage
  {
    if ranges == [] then -1
    else if ranges[0].stage == stage then 0
    else
      var i := FindStage(ranges[1..], stage);
      if i == -1 then -1 else i + 1
  }

  /** In a table with distinct labels, looking up an entry's label finds that entry. */
  lemma FindStageOfEntry(ranges: seq<DerRange>, i: nat)
    requires i < |ranges| && NoDup(Labels(ranges))
    ensures FindStage(ranges, ranges[i].stage) == i
  {
  }

  /** Choosing option `i` and reading the select's index back gives `i`. */
  lemma StageIndexRoundTrip(i: nat)
    requires i < |PageDerRanges|
    ensures FindStage(PageDerRanges, PageDerRanges[i].stage) == i
  {
    PageTableIsSharedTable();
    DerLabelsDistinct();
    FindStageOfEntry(DerRanges, i);
  }

  class CalorieCalculator {
    const js: Js
    var weight: string
    var selectedDer: DerRange

    /** The chosen stage is one of the table's. */
    ghost predicate Valid()
      reads this
    {
      selectedDer in PageDerRanges
    }

    /** `result`. */
    function Result(): Option<DailyCalorieResult>
      reads this
    {
      PageDailyCalories(js, weight, selectedDer)
    }

    /** The select's `value`. */
    function SelectedIndex(): int
      reads this
    {
      FindStage(PageDerRanges, selectedDer.stage)
    }

    /** No weight yet, and the neutered-adult stage (DER 1.2 to 1.4); nothing is computed. */
    constructor(js: Js)
      ensures this.js == js && weight == "" && selectedDer == PageDerRanges[2]
      ensures selectedDer.min == 1.2 && selectedDer.max == 1.4
      ensures Valid() && Result() == None && SelectedIndex() == 2
    {
      this.js := js;
      weight := "";
      selectedDer := PageDerRanges[2];
      new;
      StageIndexRoundTrip(2);
    }

    /** The weight box changed (`setWeight`). */
    method SetWeight(text: string)
      requires Valid()
      modifies this
      ensures Valid() && weight == text && selectedDer == old(selectedDer)
      ensures Result() == DailyCalories(js, text, selectedDer)
    {
      weight := text;
      PageCalculatorIsShared(js, weight, selectedDer);
    }

    /** Option `i` of the select was chosen (`setSelectedDER(DER_RANGES[i])`). */
    method ChooseStage(i: nat)
      requires i < |PageDerRanges|
      modifies this
      ensures Valid() && selectedDer == PageDerRanges[i] && weight == old(weight)
      ensures SelectedIndex() == i
    {
      selectedDer := PageDerRanges[i];
      StageIndexRoundTrip(i);
    }

    /** The RER slot. */
    function RerText(): (r: string)
      reads this
      ensures r == "-" <==> Result().None?
    {
      match Result()
      case None => "-"
      case Some(res) => res.rer + " kcal"
    }

    /** The daily-calorie slot. */
    function CaloriesText(): (r: string)
      reads this
      ensures r == "-" <==> Result().None?
    {
      match Result()
      case None => "-"
      case Some(res) => res.minCalories + " - " + res.maxCalories + " kcal"
    }

    /** The water slot. */
    function WaterText(): (r: string)
      reads this
      ensures r == "-" <==> Result().None?
    {
      match Result()
      case None => "-"
      case Some(res) => res.minWater + " - " + res.maxWater + " ml"
    }
  }

  /** Every slot shows "-" exactly when the weight text gives no result. */
  lemma DashesIffNoWeight(page: CalorieCalculator)
    ensures page.RerText() == "-" <==> NoWeight(page.js, page.weight)
    ensures page.CaloriesText() == "-" <==> NoWeight(page.js, page.weight)
    ensures page.WaterText() == "-" <==> NoWeight(page.js, page.weight)
  {
    PageCalculatorIsShared(page.js, page.weight, page.selectedDer);
  }
}
