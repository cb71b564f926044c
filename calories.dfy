/**
 * The calorie calculator's table and formulas (src/components/calorieCalculator/
 * constants.ts and utils.ts): the daily-energy-requirement (DER) multipliers of each
 * life stage, the can label of the suggestion box, the resting energy requirement
 * RER = 70 × weight^0.75 and the daily calorie and water ranges.
 */
module CalorieConstants {
  import opened Seqs
  import opened Text
  import opened CatCanRecords

  /** `DERRange`: a life stage (its `label`) and its DER multipliers. */
  datatype DerRange = DerRange(stage: string, min: real, max: real)

  /** `DER_RANGES`. */
  const DerRanges: seq<DerRange> := [
    DerRange("幼貓 (<4個月)", 2.5, 3.0),
    DerRange("幼貓 (4-12個月)", 2.0, 2.5),
    DerRange("成貓 (絕育)", 1.2, 1.4),
    DerRange("成貓 (未絕育)", 1.4, 1.6),
    DerRange("懷孕", 1.6, 2.0),
    DerRange("哺乳", 2.0, 6.0),
    DerRange("減重", 0.8, 1.0),
    DerRange("增重", 1.2, 1.8)
  ]

  function Labels(ranges: seq<DerRange>): (r: seq<string>)
    ensures |r| == |ranges|
    ensures forall i :: 0 <= i < |ranges| ==> r[i] == ranges[i].stage
  {
    seq(|ranges|, i requires 0 <= i < |ranges| => ranges[i].stage)
  }

  /** Eight life stages, each with 0 < min < max. */
  lemma DerRangesWellFormed()
    ensures |DerRanges| == 8
    ensures forall i :: 0 <= i < |DerRanges| ==> 0.0 < DerRanges[i].min < DerRanges[i].max
  {
  }

  /** No two life stages share a label, so a label identifies its entry. */
  lemma DerLabelsDistinct()
    ensures NoDup(Labels(DerRanges))
  {
    var labels := Labels(DerRanges);
    forall i, j | 0 <= i < j < |labels| ensures labels[i] != labels[j] {
      assert |labels[i]| != |labels[j]| || labels[i][0] != labels[j][0];
    }
  }

  /**
   * `canLabel(c)`: "brand - name (flavour)". The brand opens the label, the name
   * follows after " - ", and the flavour sits inside the closing parentheses.
   */
  function CanLabel(c: CatCan): (r: string)
    ensures |r| == |c.brand| + |c.name| + |c.flaver| + 6
    ensures r[..|c.brand|] == c.brand
    ensures r[|c.brand|..|c.brand| + 3] == " - "
    ensures OccursAt(r, c.name, |c.brand| + 3)
    ensures r[|c.brand| + |c.name| + 3..|c.brand| + |c.name| + 5] == " ("
    ensures OccursAt(r, c.flaver, |c.brand| + |c.name| + 5)
    ensures r[|r| - 1] == ')'
  {
    var r := c.brand + " - " + c.name + " (" + c.flaver + ")";
    assert r[|c.brand|..|c.brand| + 3] == " - ";
    assert r[|c.brand| + 3..|c.brand| + 3 + |c.name|] == c.name;
    assert r[|c.brand| + |c.name| + 3..|c.brand| + |c.name| + 5] == " (";
    assert r[|c.brand| + |c.name| + 5..|c.brand| + |c.name| + 5 + |c.flaver|] == c.flaver;
    r
  }
}

module CalorieUtils {
  import opened Wrappers
  import opened JsRuntime
  import opened CalorieConstants

  /** `calculateRER`: 70 × weight^0.75. */
  function Rer(js: Js, weightKg: real): (r: real)
    ensures PowPositive(js) && weightKg > 0.0 ==> r > 0.0
  {
    70.0 * js.pow075(weightKg)
  }

  /** The daily energy for a DER factor: `rer * factor`. */
  function Energy(rer: real, factor: real): real {
    rer * factor
  }

  /** The amounts of `DailyCalorieResult` before `toFixed` turns them into text. */
  datatype DailyAmounts = DailyAmounts(rer: real, minCalories: real, maxCalories: real, minWater: real, maxWater: real)

  /** `DailyCalorieResult`. */
  datatype DailyCalorieResult = DailyCalorieResult(
    rer: string, minCalories: string, maxCalories: string, minWater: string, maxWater: string)

  /** `!weight || isNaN(weightNum) || weightNum <= 0`: the weight gives no result. */
  predicate NoWeight(js: Js, weight: string) {
    weight == [] || js.parseFloat(weight).None? || js.parseFloat(weight).value <= 0.0
  }

  /**
   * The amounts for a valid weight: calories are RER times the DER bounds, water is
   * 40 to 60 ml per kilogram.
   */
  function Amounts(js: Js, weight: string, der: DerRange): (r: Option<DailyAmounts>)
    ensures r.None? <==> NoWeight(js, weight)
    ensures r.Some? ==>
              var w := js.parseFloat(weight).value;
              && w > 0.0
              && r.value.rer == Rer(js, w)
              && r.value.minCalories == r.value.rer * der.min
              && r.value.maxCalories == r.value.rer * der.max
              && r.value.minWater == 40.0 * w && r.value.maxWater == 60.0 * w
  {
    if NoWeight(js, weight) then None
    else
      var w := js.parseFloat(weight).value;
      var rer := Rer(js, w);
      Some(DailyAmounts(rer, Energy(rer, der.min), Energy(rer, der.max), w * 40.0, w * 60.0))
  }

  /** The amounts as text: one decimal for energy, none for water. */
  function Format(js: Js, a: DailyAmounts): DailyCalorieResult {
    DailyCalorieResult(js.toFixed(a.rer, 1), js.toFixed(a.minCalories, 1), js.toFixed(a.maxCalories, 1),
                       js.toFixed(a.minWater, 0), js.toFixed(a.maxWater, 0))
  }

  /** `calculateDailyCalories(weight, selectedDER)`. */
  function DailyCalories(js: Js, weight: string, der: DerRange): (r: Option<DailyCalorieResult>)
    ensures r.None? <==> NoWeight(js, weight)
    ensures r.Some? ==> r.value == Format(js, Amounts(js, weight, der).value)
  {
    match Amounts(js, weight, der)
    case None => None
    case Some(a) => Some(Format(js, a))
  }

  /** The water range is never empty: less at the low end than at the high end. */
  lemma WaterRangeOrdered(js: Js, weight: string, der: DerRange)
    requires Amounts(js, weight, der).Some?
    ensures Amounts(js, weight, der).value.minWater < Amounts(js, weight, der).value.maxWater
  {
  }

  /**
   * With a positive power function, the calorie range follows the DER range: positive,
   * and ordered whenever the DER bounds are.
   */
  lemma CalorieRangeOrdered(js: Js, weight: string, der: DerRange)
    requires PowPositive(js) && Amounts(js, weight, der).Some?
    requires 0.0 < der.min <= der.max
    ensures var a := Amounts(js, weight, der).value;
            0.0 < a.minCalories <= a.maxCalories
  {
    var a := Amounts(js, weight, der).value;
    assert a.rer > 0.0;
    assert a.rer * der.min <= a.rer * der.max;
    assert a.rer * der.min > 0.0;
  }

  /** Every life stage of the table gives a strictly ordered calorie range. */
  lemma TableStagesOrdered(js: Js, weight: string, i: nat)
    requires PowPositive(js) && i < |DerRanges| && !NoWeight(js, weight)
    ensures var a := Amounts(js, weight, DerRanges[i]).value;
            0.0 < a.minCalories < a.maxCalories
  {
    DerRangesWellFormed();
    var der := DerRanges[i];
    var a := Amounts(js, weight, der).value;
    assert a.rer > 0.0;
    assert a.rer * der.min < a.rer * der.max;
    assert a.rer * der.min > 0.0;
  }

  /** Doubling the weight doubles the water range. */
  lemma WaterIsLinear(js: Js, weight: string, weight2: string, der: DerRange)
    requires !NoWeight(js, weight) && !NoWeight(js, weight2)
    requires js.parseFloat(weight2).value == 2.0 * js.parseFloat(weight).value
    ensures Amounts(js, weight2, der).value.minWater == 2.0 * Amounts(js, weight, der).value.minWater
    ensures Amounts(js, weight2, der).value.maxWater == 2.0 * Amounts(js, weight, der).value.maxWater
  {
  }
}
