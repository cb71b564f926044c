/**
 * The "today's menu" part of the calorie calculator
 * (src/components/calorieCalculator/CalorieCalculatorTodayMenu.tsx): a text box that
 * suggests cans from the catalog, the select/clear protocol for the chosen can, and
 * the read-only fields and button that depend on it.
 */
module TodayMenu {
  import opened Wrappers
  import opened Text
  import opened Seqs
  import opened CatCanRecords
  import opened CalorieConstants

  /** The most suggestions the list shows (`.slice(0, 20)`). */
  const SuggestionLimit: nat := 20

  /** The brand, the name or the flavour contains `q`, case and all; the origin is not searched. */
  predicate MatchesCan(c: CatCan, q: string) {
    Includes(c.brand, q) || Includes(c.name, q) || Includes(c.flaver, q)
  }

  /** Every can of the catalog that matches `q`, in catalog order. */
  function Matches(catCans: seq<CatCan>, q: string): (r: seq<CatCan>)
    ensures forall c :: c in r <==> c in catCans && MatchesCan(c, q)
    ensures IsSubsequence(r, catCans)
    ensures forall c :: multiset(r)[c] == if MatchesCan(c, q) then multiset(catCans)[c] else 0
  {
    FilterSpec(catCans, (c: CatCan) => MatchesCan(c, q));
    Filter(catCans, (c: CatCan) => MatchesCan(c, q))
  }

  /**
   * The `suggestions` memo: nothing for a blank input; otherwise the first twenty
   * cans, in catalog order, whose brand, name or flavour contains the trimmed input.
   */
  function Suggestions(catCans: seq<CatCan>, input: string): (r: seq<CatCan>)
    ensures AllSpace(input) ==> r == []
    ensures |r| <= SuggestionLimit
    ensures IsSubsequence(r, catCans)
    ensures forall c :: c in r ==> c in catCans && MatchesCan(c, Trim(input))
    ensures !AllSpace(input) ==>
              var m := Matches(catCans, Trim(input));
              && |r| == (if |m| <= SuggestionLimit then |m| else SuggestionLimit)
              && r == m[..|r|]
  {
    var q := Trim(input);
    if q == [] then []
    else
      var m := Matches(catCans, q);
      var r := Take(m, SuggestionLimit);
      PrefixIsSubsequence(m, |r|);
      SubsequenceTransitive(r, m, catCans);
      r
  }

  /** With at most twenty matches, every matching can is suggested. */
  lemma FewMatchesAllSuggested(catCans: seq<CatCan>, input: string, c: CatCan)
    requires !AllSpace(input) && |Matches(catCans, Trim(input))| <= SuggestionLimit
    requires c in catCans && MatchesCan(c, Trim(input))
    ensures c in Suggestions(catCans, input)
  {
    var m := Matches(catCans, Trim(input));
    assert c in m;
    assert m[..|m|] == m;
  }

  /** The same cans with every origin replaced by `made`. */
  function WithOrigin(cans: seq<CatCan>, made: string): (r: seq<CatCan>)
    ensures |r| == |cans|
    ensures forall i :: 0 <= i < |cans| ==> r[i] == cans[i].(made := made)
  {
    seq(|cans|, i requires 0 <= i < |cans| => cans[i].(made := made))
  }

  lemma WithOriginSplits(cans: seq<CatCan>, made: string)
    requires cans != []
    ensures WithOrigin(cans, made) == [cans[0].(made := made)] + WithOrigin(cans[1..], made)
  {
  }

  lemma WithOriginPrefix(cans: seq<CatCan>, k: nat, made: string)
    requires k <= |cans|
    ensures WithOrigin(cans, made)[..k] == WithOrigin(cans[..k], made)
  {
  }

  /** Matching does not look at the origin. */
  lemma {:induction false} MatchesIgnoreOrigin(cans: seq<CatCan>, q: string, made: string)
    ensures Matches(WithOrigin(cans, made), q) == WithOrigin(Matches(cans, q), made)
    decreases |cans|
  {
    if cans != [] {
      var w := WithOrigin(cans, made);
      var rest := Matches(cans[1..], q);
      MatchesIgnoreOrigin(cans[1..], q, made);
      WithOriginSplits(cans, made);
      assert w[1..] == WithOrigin(cans[1..], made);
      assert MatchesCan(w[0], q) == MatchesCan(cans[0], q);
      if MatchesCan(cans[0], q) {
        assert Matches(cans, q) == [cans[0]] + rest;
        WithOriginSplits([cans[0]] + rest, made);
        assert ([cans[0]] + rest)[1..] == rest;
      } else {
        assert Matches(cans, q) == rest;
      }
    }
  }

  /**
   * The origin is not searched: with every origin changed, the same cans are
   * suggested, in the same order.
   */
  lemma OriginNotSearched(catCans: seq<CatCan>, input: string, made: string)
    ensures Suggestions(WithOrigin(catCans, made), input) == WithOrigin(Suggestions(catCans, input), made)
  {
    if !AllSpace(input) {
      var q := Trim(input);
      var m := Matches(catCans, q);
      MatchesIgnoreOrigin(catCans, q, made);
      var k := |Suggestions(catCans, input)|;
      WithOriginPrefix(m, k, made);
    }
  }

  /** A can alone in the catalog is suggested exactly when it matches. */
  lemma SingleSuggestion(c: CatCan, input: string)
    requires !AllSpace(input)
    ensures Suggestions([c], input) == if MatchesCan(c, Trim(input)) then [c] else []
  {
    assert [c][1..] == [];
    var m := Matches([c], Trim(input));
    assert m == if MatchesCan(c, Trim(input)) then [c] else [];
  }

  /** A one-letter input that is not white space is its own trimmed form. */
  lemma OneLetterInput(ch: char)
    requires !IsJsSpace(ch)
    ensures !AllSpace([ch]) && Trim([ch]) == [ch]
  {
    assert [ch][0] == ch;
  }

  /** A brand "Z" with name and flavour missing contains "Z" but not "z". */
  lemma CapitalZ(c: CatCan)
    requires c.brand == "Z" && c.name == "-" && c.flaver == "-"
    ensures !MatchesCan(c, "z") && MatchesCan(c, "Z")
  {
    assert "Z"[..1] == "Z" && "Z"[1..] == [] && "-"[..1] == "-" && "-"[1..] == [];
    assert !Includes([], "z");
  }

  /**
   * The search is case-sensitive: a can branded "Z" (name and flavour missing) is
   * suggested for "Z" but not for "z".
   */
  lemma MatchIsCaseSensitive(c: CatCan)
    requires c.brand == "Z" && c.name == "-" && c.flaver == "-"
    ensures Suggestions([c], "z") == [] && Suggestions([c], "Z") == [c]
  {
    CapitalZ(c);
    OneLetterInput('z');
    OneLetterInput('Z');
    SingleSuggestion(c, "z");
    SingleSuggestion(c, "Z");
  }

  /** The menu's state: the chosen can, the text box, and whether the list is open. */
  class TodayMenu {
    var selectedCan: Option<CatCan>
    var canSearchInput: string
    var showSuggestions: bool

    /** A chosen can is always the one whose label is in the text box. */
    ghost predicate Consistent()
      reads this
    {
      selectedCan.Some? ==> canSearchInput == CanLabel(selectedCan.value)
    }

    /** The suggestion list on screen: rendered only while open and non-empty. */
    function ShownSuggestions(catCans: seq<CatCan>): (r: seq<CatCan>)
      reads this
      ensures !showSuggestions ==> r == []
      ensures showSuggestions ==> r == Suggestions(catCans, canSearchInput)
    {
      var s := Suggestions(catCans, canSearchInput);
      if showSuggestions && |s| > 0 then s else []
    }

    /** The read-only kcal field: the chosen can's energy, or empty. */
    function KcalField(): string
      reads this
    {
      if selectedCan.Some? then selectedCan.value.kcal else ""
    }

    /** The read-only ml field: the chosen can's moisture content, or empty. */
    function MlField(): string
      reads this
    {
      if selectedCan.Some? then selectedCan.value.moistureContent else ""
    }

    /** `disabled={!selectedCan}` on the add button. */
    predicate AddDisabled()
      reads this
    {
      selectedCan.None?
    }

    /**
     * The chosen can and the text box belong to the parent component and start as it
     * passes them; the list starts closed.
     */
    constructor(initialCan: Option<CatCan>, initialInput: string)
      ensures selectedCan == initialCan && canSearchInput == initialInput && !showSuggestions
    {
      selectedCan := initialCan;
      canSearchInput := initialInput;
      showSuggestions := false;
    }

    /**
     * `handleSelectCan(c)`: the can becomes the chosen one, its label fills the text
     * box and the list closes; the kcal and ml fields show the can's values and the
     * add button is enabled.
     */
    method SelectCan(c: CatCan)
      modifies this
      ensures selectedCan == Some(c) && canSearchInput == CanLabel(c) && !showSuggestions
      ensures Consistent()
      ensures KcalField() == c.kcal && MlField() == c.moistureContent && !AddDisabled()
      ensures forall catCans :: ShownSuggestions(catCans) == []
    {
      selectedCan := Some(c);
      canSearchInput := CanLabel(c);
      showSuggestions := false;
    }

    /**
     * The text box's `onChange`: any edit, even one back to the chosen can's label,
     * forgets the chosen can and opens the list; the fields empty and the add button
     * is disabled.
     */
    method EditInput(v: string)
      modifies this
      ensures canSearchInput == v && selectedCan == None && showSuggestions
      ensures Consistent()
      ensures KcalField() == "" && MlField() == "" && AddDisabled()
      ensures forall catCans :: ShownSuggestions(catCans) == Suggestions(catCans, v)
    {
      canSearchInput := v;
      selectedCan := None;
      showSuggestions := true;
    }

    /** The text box's `onFocus`: the list opens; the choice and the text stay. */
    method Focus()
      modifies this
      ensures showSuggestions
      ensures selectedCan == old(selectedCan) && canSearchInput == old(canSearchInput)
      ensures old(Consistent()) ==> Consistent()
    {
      showSuggestions := true;
    }
  }
}
