/** The companies grid's progressive disclosure: beyond the first eight
    cards the grid can be collapsed until its button expands it. The
    company list and `expandedByDefault` are fixed props; `isExpanded` is
    the component's state, which only the button changes. */
module CompaniesGrid {
  import opened Strings

  /** `initialLimit`: two desktop rows of four cards. */
  const InitialLimit: nat := 8

  /** `shouldShowProgressiveDisclosure`. */
  predicate ShouldShowDisclosure(count: nat, expandedByDefault: bool) {
    !expandedByDefault && count > InitialLimit
  }

  /** Whether the card at `index` is hidden (`display: none`). */
  predicate IsHidden(index: nat, count: nat, expandedByDefault: bool, isExpanded: bool) {
    ShouldShowDisclosure(count, expandedByDefault) && !isExpanded && index >= InitialLimit
  }

  /** Whether the gradient overlay and its expand button are rendered. */
  predicate IsButtonShown(count: nat, expandedByDefault: bool, isExpanded: bool) {
    ShouldShowDisclosure(count, expandedByDefault) && !isExpanded
  }

  /** The first eight cards are never hidden, and a hidden card has only
      hidden cards after it: the visible cards are a prefix of the grid.
      Without disclosure, or once expanded, nothing is hidden. */
  lemma VisibleCardsArePrefix(count: nat, expandedByDefault: bool, isExpanded: bool, i: nat, j: nat)
    ensures i < InitialLimit ==> !IsHidden(i, count, expandedByDefault, isExpanded)
    ensures IsHidden(i, count, expandedByDefault, isExpanded) && i <= j ==> IsHidden(j, count, expandedByDefault, isExpanded)
    ensures isExpanded || !ShouldShowDisclosure(count, expandedByDefault) ==> !IsHidden(i, count, expandedByDefault, isExpanded)
  {
  }

  /** Some card is hidden exactly when the button is shown: then the cards
      from index 8 on are hidden, and there is at least one of them. */
  lemma HiddenIffButton(count: nat, expandedByDefault: bool, isExpanded: bool)
    ensures (exists i: nat :: i < count && IsHidden(i, count, expandedByDefault, isExpanded))
      <==> IsButtonShown(count, expandedByDefault, isExpanded)
  {
    if IsButtonShown(count, expandedByDefault, isExpanded) {
      assert InitialLimit < count && IsHidden(InitialLimit, count, expandedByDefault, isExpanded);
    }
  }

  /** The button's text, "Show all N companies". */
  function ButtonLabel(count: nat): (r: String)
    ensures |r| > 19
    ensures r[..9] == "Show all " && r[|r| - 10..] == " companies"
    ensures forall i :: 9 <= i < |r| - 10 ==> IsDigit(r[i])
  {
    "Show all " + NatToString(count) + " companies"
  }

  /** The number between the label's fixed words reads back as the total
      count of companies. */
  lemma ButtonLabelStatesCount(count: nat)
    ensures var r := ButtonLabel(count); ParseDecimal(r[9..|r| - 10]) == count
  {
    var r := ButtonLabel(count);
    assert r[9..|r| - 10] == NatToString(count);
    ParseNatToString(count);
  }

  /** One rendered grid: its props and its `isExpanded` state. */
  class Grid {
    const count: nat
    const expandedByDefault: bool
    var isExpanded: bool

    /** `useState(expandedByDefault)`. */
    constructor (count: nat, expandedByDefault: bool)
      ensures this.count == count && this.expandedByDefault == expandedByDefault
      ensures isExpanded == expandedByDefault
    {
      this.count := count;
      this.expandedByDefault := expandedByDefault;
      isExpanded := expandedByDefault;
    }

    predicate Hidden(index: nat)
      reads this
    {
      IsHidden(index, count, expandedByDefault, isExpanded)
    }

    predicate ButtonShown()
      reads this
    {
      IsButtonShown(count, expandedByDefault, isExpanded)
    }

    /** The button's `setIsExpanded(true)`: afterwards no card is hidden
      and the button is gone. */
    method Expand()
      modifies this
      ensures isExpanded
      ensures forall i: nat :: !Hidden(i)
      ensures !ButtonShown()
    {
      isExpanded := true;
    }
  }
}
