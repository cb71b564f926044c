/**
 * The multi-select dropdown shared by the weight, brand and origin filters
 * (src/components/WeightFilter.tsx, BrandFilter.tsx and MadeFilter.tsx hold the same
 * handlers line for line). Each handler builds a new selection from the options on
 * offer and the current selection, and hands it to the page.
 */
module MultiSelect {
  import opened Seqs
  import opened Text

  /** The selection holds only offered options, each at most once. */
  predicate Valid(available: seq<string>, selected: seq<string>) {
    NoDup(selected) && forall v :: v in selected ==> v in available
  }

  /** `isAllSelected`: as many selected as offered, and something is offered. */
  predicate IsAllSelected(available: seq<string>, selected: seq<string>) {
    |selected| == |available| && |available| > 0
  }

  /** `handleToggleAll`: from everything selected keep only the first option, else select all. */
  function ToggleAll(available: seq<string>, selected: seq<string>): (r: seq<string>)
    ensures IsAllSelected(available, selected) ==> |r| == 1 && r[0] == available[0]
    ensures !IsAllSelected(available, selected) ==> r == available
  {
    if IsAllSelected(available, selected) then
      if |available| > 0 then [available[0]] else []
    else available
  }

  /**
   * `handleToggle(v)`: a selected option is removed, the others keeping their order;
   * an unselected one is appended, and a selection that then has as many entries as
   * there are options becomes the option list itself, in its order.
   */
  function Toggle(available: seq<string>, selected: seq<string>, v: string): (r: seq<string>)
    ensures v in selected ==> v !in r && IsSubsequence(r, selected)
    ensures v in selected ==> forall w :: w in r <==> w in selected && w != v
    ensures v !in selected && |selected| + 1 != |available| ==> r == selected + [v]
    ensures v !in selected && |selected| + 1 == |available| ==> r == available
  {
    if v in selected then
      FilterSpec(selected, w => w != v);
      Filter(selected, w => w != v)
    else
      var grown := selected + [v];
      if |grown| == |available| then available else grown
  }

  /** `handleClearAll`: nothing selected. */
  function ClearAll(): (r: seq<string>)
    ensures |r| == 0
  {
    []
  }

  /** What a user can do in the dropdown. */
  datatype Event = ToggleAllClicked | OptionClicked(option: string) | ClearAllClicked

  /** The selection after one event. */
  function Apply(available: seq<string>, selected: seq<string>, e: Event): seq<string> {
    match e
    case ToggleAllClicked => ToggleAll(available, selected)
    case OptionClicked(v) => Toggle(available, selected, v)
    case ClearAllClicked => ClearAll()
  }

  /** The dropdown only offers its options. */
  predicate Offered(available: seq<string>, e: Event) {
    e.OptionClicked? ==> e.option in available
  }

  /** The selection after a run of events, first event first. */
  function ApplyAll(available: seq<string>, selected: seq<string>, events: seq<Event>): seq<string>
    decreases |events|
  {
    if events == [] then selected
    else ApplyAll(available, Apply(available, selected, events[0]), events[1..])
  }

  /**
   * With duplicate-free options, `isAllSelected` (a length test) holds exactly when
   * the selection holds the same values as the option list.
   */
  lemma AllSelectedIffSameValues(available: seq<string>, selected: seq<string>)
    requires NoDup(available) && Valid(available, selected)
    ensures IsAllSelected(available, selected) <==> |available| > 0 && Elements(selected) == Elements(available)
  {
    SameLengthIffSameValues(selected, available);
  }

  /** Selecting every option by toggle-all shows as "all selected". */
  lemma ToggleAllFromPartialSelectsAll(available: seq<string>, selected: seq<string>)
    requires |available| > 0 && !IsAllSelected(available, selected)
    ensures IsAllSelected(available, ToggleAll(available, selected))
  {
  }

  /** Toggle-all pressed twice from "all selected" returns to all selected. */
  lemma ToggleAllTwice(available: seq<string>, selected: seq<string>)
    requires IsAllSelected(available, selected)
    ensures ToggleAll(available, ToggleAll(available, selected)) == available
  {
  }

  /** Toggling an unselected option adds exactly that value, auto-promotion included. */
  lemma ToggleAddsValue(available: seq<string>, selected: seq<string>, v: string)
    requires NoDup(available) && Valid(available, selected)
    requires v in available && v !in selected
    ensures Elements(Toggle(available, selected, v)) == Elements(selected) + {v}
  {
    var grown := selected + [v];
    if |grown| == |available| {
      assert NoDup(grown) by {
        forall i, j | 0 <= i < j < |grown| ensures grown[i] != grown[j] {
          if j == |selected| { assert grown[i] in selected; }
        }
      }
      SameLengthIffSameValues(grown, available);
      assert Elements(grown) == Elements(selected) + {v};
    }
  }

  /** Toggling an option twice leaves the same values selected. */
  lemma ToggleTwiceSameValues(available: seq<string>, selected: seq<string>, v: string)
    requires NoDup(available) && Valid(available, selected) && v in available
    ensures Elements(Toggle(available, Toggle(available, selected, v), v)) == Elements(selected)
  {
    var once := Toggle(available, selected, v);
    ToggleValid(available, selected, v);
    if v in selected {
      ToggleAddsValue(available, once, v);
      assert Elements(once) == Elements(selected) - {v};
    } else {
      ToggleAddsValue(available, selected, v);
      assert v in once;
    }
  }

  /** Every handler keeps the selection a duplicate-free subset of the options. */
  lemma ToggleValid(available: seq<string>, selected: seq<string>, v: string)
    requires NoDup(available) && Valid(available, selected) && v in available
    ensures Valid(available, Toggle(available, selected, v))
  {
    var r := Toggle(available, selected, v);
    if v in selected {
      FilterNoDup(selected, w => w != v);
    } else if |selected| + 1 != |available| {
      forall i, j | 0 <= i < j < |r| ensures r[i] != r[j] {
        if j == |selected| { assert r[i] in selected; }
      }
    }
  }

  lemma ApplyValid(available: seq<string>, selected: seq<string>, e: Event)
    requires NoDup(available) && Valid(available, selected) && Offered(available, e)
    ensures Valid(available, Apply(available, selected, e))
  {
    match e
    case ToggleAllClicked =>
    case OptionClicked(v) => ToggleValid(available, selected, v);
    case ClearAllClicked =>
  }

  /** However the user clicks, the selection stays a duplicate-free subset of the options. */
  lemma {:induction false} ApplyAllValid(available: seq<string>, selected: seq<string>, events: seq<Event>)
    requires NoDup(available) && Valid(available, selected)
    requires forall i :: 0 <= i < |events| ==> Offered(available, events[i])
    ensures Valid(available, ApplyAll(available, selected, events))
    decreases |events|
  {
    if events != [] {
      ApplyValid(available, selected, events[0]);
      ApplyAllValid(available, Apply(available, selected, events[0]), events[1..]);
    }
  }

  /**
   * The text on the dropdown's button: the dimension's name when everything is
   * selected, the selected values (each with `suffix`) joined by ", " when some are,
   * and the placeholder when none is.
   */
  function TriggerLabel(name: string, placeholder: string, suffix: string,
                        available: seq<string>, selected: seq<string>): (r: string)
    ensures IsAllSelected(available, selected) ==> r == name
    ensures !IsAllSelected(available, selected) && |selected| == 0 ==> r == placeholder
    ensures !IsAllSelected(available, selected) && |selected| > 0 ==> r == Join(Suffixed(selected, suffix), ", ")
  {
    if IsAllSelected(available, selected) then name
    else if |selected| > 0 then Join(Suffixed(selected, suffix), ", ")
    else placeholder
  }

  /** Every value with `suffix` appended. */
  function Suffixed(values: seq<string>, suffix: string): (r: seq<string>)
    ensures |r| == |values|
    ensures forall i :: 0 <= i < |values| ==> r[i] == values[i] + suffix
  {
    seq(|values|, i requires 0 <= i < |values| => values[i] + suffix)
  }

  /** An empty suffix leaves the values as they are. */
  lemma SuffixedEmpty(values: seq<string>)
    ensures Suffixed(values, "") == values
  {
    assert forall i :: 0 <= i < |values| ==> values[i] + "" == values[i];
  }

  /**
   * On a partial selection the label lists the selected values in selection order:
   * value `k` (with `suffix`) starts at `JoinOffset`, ", " follows every value but the
   * last, and the label ends with the last value.
   */
  lemma LabelLayout(name: string, placeholder: string, suffix: string,
                    available: seq<string>, selected: seq<string>, k: nat)
    requires !IsAllSelected(available, selected) && k < |selected|
    ensures var r := TriggerLabel(name, placeholder, suffix, available, selected);
            var at := JoinOffset(Suffixed(selected, suffix), ", ", k);
            && OccursAt(r, selected[k] + suffix, at)
            && (k < |selected| - 1 ==> OccursAt(r, ", ", at + |selected[k]| + |suffix|))
            && (k == |selected| - 1 ==> |r| == at + |selected[k]| + |suffix|)
  {
    var items := Suffixed(selected, suffix);
    JoinItemAt(items, ", ", k);
    if k < |selected| - 1 {
      JoinSepAfter(items, ", ", k);
    } else {
      JoinLength(items, ", ");
    }
  }

  /** On a partial selection the label names every selected value, suffix included. */
  lemma LabelNamesEverySelected(name: string, placeholder: string, suffix: string,
                                available: seq<string>, selected: seq<string>, k: nat)
    requires !IsAllSelected(available, selected) && k < |selected|
    ensures Includes(TriggerLabel(name, placeholder, suffix, available, selected), selected[k] + suffix)
  {
    JoinIncludesItems(Suffixed(selected, suffix), ", ", k);
  }
}
