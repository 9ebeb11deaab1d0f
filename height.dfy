/** The row height: every item's measured text plus its vertical insets,
    then the heading, the inner insets and the stack insets. */
module Height {
  import opened DiffTypes

  /** One item's share: its text measured at the available width less its
      own side insets, plus its top and bottom insets. */
  function ItemHeight(item: ItemViewModel, availableWidth: int, measure: Measure): (h: int) {
    var p := item.textPadding;
    measure(BodyText(item.text), item.traits, availableWidth - p.leading - p.trailing) + p.top + p.bottom
  }

  /** The items' shares summed in order (as the loop accumulates them). */
  function ItemsHeight(items: seq<ItemViewModel>, availableWidth: int, measure: Measure): (h: int)
    decreases |items|
  {
    if items == [] then 0
    else ItemsHeight(items[..|items| - 1], availableWidth, measure) + ItemHeight(items[|items| - 1], availableWidth, measure)
  }

  function TotalHeight(items: seq<ItemViewModel>, availableWidth: int, innerPadding: Insets,
                       heading: AttributedText, headingPadding: Insets, stackViewPadding: Insets,
                       measure: Measure): (h: int)
  {
    ItemsHeight(items, availableWidth, measure)
    + headingPadding.top + headingPadding.bottom + measure(heading.text, heading.traits, availableWidth)
    + innerPadding.top + innerPadding.bottom
    + stackViewPadding.top + stackViewPadding.bottom
  }

  method CalculateHeight(items: seq<ItemViewModel>, availableWidth: int, innerPadding: Insets,
                         headingAttributedString: AttributedText, headingPadding: Insets, stackViewPadding: Insets,
                         measure: Measure) returns (height: int)
    ensures height == TotalHeight(items, availableWidth, innerPadding, headingAttributedString, headingPadding, stackViewPadding, measure)
  {
    height := 0;
    var i := 0;
    while i < |items|
      invariant 0 <= i <= |items|
      invariant height == ItemsHeight(items[..i], availableWidth, measure)
    {
      var item := items[i];
      var newHeight := measure(BodyText(item.text), item.traits, availableWidth - item.textPadding.leading - item.textPadding.trailing);
      height := height + newHeight;
      height := height + item.textPadding.top;
      height := height + item.textPadding.bottom;
      assert items[..i + 1][..i] == items[..i];
      i := i + 1;
    }
    assert items[..i] == items;

    height := height + headingPadding.top;
    height := height + headingPadding.bottom;
    height := height + measure(headingAttributedString.text, headingAttributedString.traits, availableWidth);

    height := height + innerPadding.top;
    height := height + innerPadding.bottom;
    height := height + stackViewPadding.top;
    height := height + stackViewPadding.bottom;
  }

  // ---------------------------------------------------------------------------
  // Properties of the height
  // ---------------------------------------------------------------------------

  lemma {:induction false} ItemsHeightAppend(a: seq<ItemViewModel>, b: seq<ItemViewModel>, w: int, measure: Measure)
    ensures ItemsHeight(a + b, w, measure) == ItemsHeight(a, w, measure) + ItemsHeight(b, w, measure)
    decreases |b|
  {
    if b == [] {
      assert a + b == a;
    } else {
      var b' := b[..|b| - 1];
      assert (a + b)[..|a + b| - 1] == a + b';
      assert (a + b)[|a + b| - 1] == b[|b| - 1];
      ItemsHeightAppend(a, b', w, measure);
    }
  }

  /** Items whose vertical insets do not cancel out. */
  predicate PaddingsNonNegative(items: seq<ItemViewModel>) {
    forall i | 0 <= i < |items| :: items[i].textPadding.top + items[i].textPadding.bottom >= 0
  }

  lemma {:induction false} ItemsHeightNonNegative(items: seq<ItemViewModel>, w: int, measure: Measure)
    requires PaddingsNonNegative(items)
    ensures ItemsHeight(items, w, measure) >= 0
    decreases |items|
  {
    if items != [] {
      ItemsHeightNonNegative(items[..|items| - 1], w, measure);
    }
  }

  /** The height is non-negative whenever no inset pair is negative, since
      measurements never are. */
  lemma TotalHeightNonNegative(items: seq<ItemViewModel>, availableWidth: int, innerPadding: Insets,
                               heading: AttributedText, headingPadding: Insets, stackViewPadding: Insets,
                               measure: Measure)
    requires PaddingsNonNegative(items)
    requires innerPadding.top + innerPadding.bottom >= 0
    requires headingPadding.top + headingPadding.bottom >= 0
    requires stackViewPadding.top + stackViewPadding.bottom >= 0
    ensures TotalHeight(items, availableWidth, innerPadding, heading, headingPadding, stackViewPadding, measure) >= 0
  {
    ItemsHeightNonNegative(items, availableWidth, measure);
  }

  /** A measurement that never shrinks when the width does: narrower text wraps more. */
  ghost predicate MeasureAntitone(measure: Measure) {
    forall t, traits, w1, w2 | w1 <= w2 :: measure(t, traits, w2) <= measure(t, traits, w1)
  }

  lemma {:induction false} ItemsHeightAntitone(items: seq<ItemViewModel>, narrow: int, wide: int, measure: Measure)
    requires MeasureAntitone(measure) && narrow <= wide
    ensures ItemsHeight(items, wide, measure) <= ItemsHeight(items, narrow, measure)
    decreases |items|
  {
    if items != [] {
      ItemsHeightAntitone(items[..|items| - 1], narrow, wide, measure);
      var p := items[|items| - 1].textPadding;
      assert narrow - p.leading - p.trailing <= wide - p.leading - p.trailing;
    }
  }

  /** With such a measurement, a narrower row is never shorter. */
  lemma TotalHeightAntitone(items: seq<ItemViewModel>, narrow: int, wide: int, innerPadding: Insets,
                            heading: AttributedText, headingPadding: Insets, stackViewPadding: Insets,
                            measure: Measure)
    requires MeasureAntitone(measure) && narrow <= wide
    ensures TotalHeight(items, wide, innerPadding, heading, headingPadding, stackViewPadding, measure)
         <= TotalHeight(items, narrow, innerPadding, heading, headingPadding, stackViewPadding, measure)
  {
    ItemsHeightAntitone(items, narrow, wide, measure);
  }

  /** Two item lists with the same text, insets and traits, position by position
      (their themes and kinds may differ). */
  predicate SameLayout(a: seq<ItemViewModel>, b: seq<ItemViewModel>) {
    |a| == |b| &&
    forall i | 0 <= i < |a| :: a[i].text == b[i].text && a[i].textPadding == b[i].textPadding && a[i].traits == b[i].traits
  }

  /** The items' height depends on their text, insets and traits, not on their theme. */
  lemma {:induction false} ItemsHeightIgnoresTheme(a: seq<ItemViewModel>, b: seq<ItemViewModel>, w: int, measure: Measure)
    requires SameLayout(a, b)
    ensures ItemsHeight(a, w, measure) == ItemsHeight(b, w, measure)
    decreases |a|
  {
    if a != [] {
      ItemsHeightIgnoresTheme(a[..|a| - 1], b[..|b| - 1], w, measure);
    }
  }
}
