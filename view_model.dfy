/** The view model of one change row of the diff list: a fixed heading and
    child rows, and derived colours, insets and height that follow the theme,
    the trait collection and the width. */
module ViewModel {
  import opened DiffTypes
  import opened Headings
  import opened Paddings
  import opened Height

  /** The child row built for the diff item at position i; it is told about
      the item after it, when there is one. */
  function MakeItem(diffItems: seq<DiffItem>, i: int, changeType: ChangeType, layout: ItemLayout,
                    theme: Theme, traits: Traits): (item: ItemViewModel)
    requires 0 <= i < |diffItems|
    ensures item.kind == diffItems[i].kind && item.text == diffItems[i].text
    ensures item.theme == theme && item.traits == traits
    ensures i + 1 < |diffItems| ==> item.textPadding == layout(diffItems[i], Some(diffItems[i + 1]), changeType)
    ensures i + 1 == |diffItems| ==> item.textPadding == layout(diffItems[i], None, changeType)
  {
    var next := if i + 1 < |diffItems| then Some(diffItems[i + 1]) else None;
    ItemViewModel(diffItems[i].kind, diffItems[i].text, layout(diffItems[i], next, changeType), theme, traits)
  }

  /** One child row per diff item, in order. */
  method BuildItemViewModels(diffItems: seq<DiffItem>, changeType: ChangeType, layout: ItemLayout,
                             theme: Theme, traits: Traits) returns (itemViewModels: seq<ItemViewModel>)
    ensures |itemViewModels| == |diffItems|
    ensures forall i | 0 <= i < |diffItems| :: itemViewModels[i] == MakeItem(diffItems, i, changeType, layout, theme, traits)
  {
    itemViewModels := [];
    var index := 0;
    while index < |diffItems|
      invariant 0 <= index <= |diffItems| && |itemViewModels| == index
      invariant forall i | 0 <= i < index :: itemViewModels[i] == MakeItem(diffItems, i, changeType, layout, theme, traits)
    {
      var nextItem := if index + 1 < |diffItems| then Some(diffItems[index + 1]) else None;
      var diffItem := diffItems[index];
      var changeItemViewModel := ItemViewModel(diffItem.kind, diffItem.text, layout(diffItem, nextItem, changeType), theme, traits);
      itemViewModels := itemViewModels + [changeItemViewModel];
      index := index + 1;
    }
  }

  /** Hands a new theme down to every child row, leaving all else as it was. */
  method PropagateTheme(items: seq<ItemViewModel>, theme: Theme) returns (updated: seq<ItemViewModel>)
    ensures |updated| == |items|
    ensures forall i | 0 <= i < |items| :: updated[i] == items[i].(theme := theme)
  {
    updated := items;
    var i := 0;
    while i < |updated|
      invariant 0 <= i <= |updated| == |items|
      invariant forall j | 0 <= j < i :: updated[j] == items[j].(theme := theme)
      invariant forall j | i <= j < |items| :: updated[j] == items[j]
    {
      updated := updated[i := updated[i].(theme := theme)];
      i := i + 1;
    }
  }

  /** Hands a new trait collection down to every child row, leaving all else as it was. */
  method PropagateTraits(items: seq<ItemViewModel>, traits: Traits) returns (updated: seq<ItemViewModel>)
    ensures |updated| == |items|
    ensures forall i | 0 <= i < |items| :: updated[i] == items[i].(traits := traits)
  {
    updated := items;
    var i := 0;
    while i < |updated|
      invariant 0 <= i <= |updated| == |items|
      invariant forall j | 0 <= j < i :: updated[j] == items[j].(traits := traits)
      invariant forall j | i <= j < |items| :: updated[j] == items[j]
    {
      updated := updated[i := updated[i].(traits := traits)];
      i := i + 1;
    }
  }

  /** The heading set in the bold footnote font for the traits, in the heading
      colour: the colour is recorded, but the text and the traits that decide
      its measured height are the heading's and the given ones. */
  function HeadingAttributedString(headingColor: Color, heading: Heading, traits: Traits): (styled: AttributedText)
    ensures styled.text == HeadingText(heading) && styled.traits == traits
    ensures styled.color == headingColor
  {
    AttributedText(HeadingText(heading), headingColor, traits)
  }

  /** Re-theming the children of a valid row keeps them the rows the diff
      items call for, under the new theme, with the same layout and kinds. */
  lemma RethemedItems(diffItems: seq<DiffItem>, changeType: ChangeType, layout: ItemLayout,
                      oldTheme: Theme, newTheme: Theme, traits: Traits,
                      before: seq<ItemViewModel>, after: seq<ItemViewModel>, stackViewPadding: Insets)
    requires |before| == |diffItems|
    requires forall i | 0 <= i < |before| :: before[i] == MakeItem(diffItems, i, changeType, layout, oldTheme, traits)
    requires |after| == |before|
    requires forall i | 0 <= i < |before| :: after[i] == before[i].(theme := newTheme)
    ensures forall i | 0 <= i < |after| :: after[i] == MakeItem(diffItems, i, changeType, layout, newTheme, traits)
    ensures SameLayout(after, before)
    ensures StackPaddingRule(changeType, after, stackViewPadding) == StackPaddingRule(changeType, before, stackViewPadding)
  {
  }

  class DiffListChangeViewModel {
    const changeType: ChangeType
    const heading: Heading
    const headingPadding: Insets
    const stackViewPadding: Insets
    const innerViewClipsToBounds: bool
    const measure: Measure
    ghost const diffItems: seq<DiffItem>
    ghost const layout: ItemLayout

    var items: seq<ItemViewModel>
    var theme: Theme
    var traitCollection: Traits
    var width: int
    var borderColor: Color
    var height: int
    var innerPadding: Insets
    var headingAttributedString: AttributedText

    /** Every derived field except the height agrees with the current theme,
        trait collection and diff items. */
    ghost predicate Valid()
      reads this
    {
      && |items| == |diffItems|
      && (forall i | 0 <= i < |items| :: items[i] == MakeItem(diffItems, i, changeType, layout, theme, traitCollection))
      && borderColor == BorderColor(changeType, theme)
      && innerPadding == InnerPadding(traitCollection)
      && headingAttributedString == HeadingAttributedString(HeadingColor(changeType, theme), heading, traitCollection)
      && headingPadding == HeadingPadding(changeType)
      && StackPaddingRule(changeType, items, stackViewPadding)
      && innerViewClipsToBounds == (changeType == CompareRevision)
    }

    /** The width left for text: the row width less the inner and stack side insets. */
    function AvailableWidth(): (w: int)
      reads this
      requires Valid()
      ensures w == width - 2 * innerPadding.leading
      ensures w == width - 100 <==> traitCollection.horizontal == Regular && traitCollection.vertical == Regular
      ensures w == width - 100 || w == width - 30
    {
      width - innerPadding.leading - innerPadding.trailing - stackViewPadding.leading - stackViewPadding.trailing
    }

    /** The height the current state calls for. */
    ghost function FreshHeight(): (h: int)
      reads this
      requires Valid()
    {
      TotalHeight(items, AvailableWidth(), innerPadding, headingAttributedString, headingPadding, stackViewPadding, measure)
    }

    constructor (changeType: ChangeType, diffItems: seq<DiffItem>, theme: Theme, width: int, traitCollection: Traits,
                 sectionInfo: Option<seq<SectionInfo>>, layout: ItemLayout, measure: Measure)
      ensures Valid()
      ensures this.changeType == changeType && this.diffItems == diffItems && this.layout == layout && this.measure == measure
      ensures this.theme == theme && this.traitCollection == traitCollection && this.width == width
      ensures heading == InitialHeading(changeType, diffItems, sectionInfo)
      ensures height == FreshHeight()
    {
      this.changeType := changeType;
      this.theme := theme;
      this.width := width;
      this.traitCollection := traitCollection;
      this.innerViewClipsToBounds := changeType == CompareRevision;
      this.measure := measure;
      this.diffItems := diffItems;
      this.layout := layout;

      var heading := InitialHeading(changeType, diffItems, sectionInfo);
      this.heading := heading;

      var itemViewModels := BuildItemViewModels(diffItems, changeType, layout, theme, traitCollection);
      this.items := itemViewModels;

      this.borderColor := BorderColor(changeType, theme);
      var innerPadding := InnerPadding(traitCollection);
      this.innerPadding := innerPadding;
      var headingPadding := HeadingPadding(changeType);
      this.headingPadding := headingPadding;

      var headingColor := HeadingColor(changeType, theme);
      var headingAttributedString := HeadingAttributedString(headingColor, heading, traitCollection);
      this.headingAttributedString := headingAttributedString;
      var stackViewPadding := CalculateStackViewPadding(changeType, itemViewModels);
      this.stackViewPadding := stackViewPadding;

      var availableWidth := width - innerPadding.leading - innerPadding.trailing - stackViewPadding.leading - stackViewPadding.trailing;
      var height := CalculateHeight(itemViewModels, availableWidth, innerPadding, headingAttributedString, headingPadding, stackViewPadding, measure);
      this.height := height;
      new;
      assert Valid();
      assert AvailableWidth() == availableWidth;
    }

    /** The theme observer: new colours for the border and the heading, the
        theme handed to every child; the height is left alone, and it needs
        no refresh because colour plays no part in layout. */
    method SetTheme(newTheme: Theme)
      requires Valid()
      modifies this
      ensures Valid()
      ensures theme == newTheme
      ensures traitCollection == old(traitCollection) && width == old(width)
      ensures innerPadding == old(innerPadding) && height == old(height)
      ensures headingAttributedString.text == old(headingAttributedString.text)
      ensures FreshHeight() == old(FreshHeight())
    {
      ghost var before := items;
      ghost var freshBefore := FreshHeight();
      ghost var availableBefore := AvailableWidth();
      theme := newTheme;
      borderColor := BorderColor(changeType, theme);
      var headingColor := HeadingColor(changeType, theme);
      headingAttributedString := HeadingAttributedString(headingColor, heading, traitCollection);
      items := PropagateTheme(items, theme);
      RethemedItems(diffItems, changeType, layout, old(theme), theme, traitCollection, before, items, stackViewPadding);
      assert Valid();
      assert AvailableWidth() == availableBefore;
      ItemsHeightIgnoresTheme(items, before, availableBefore, measure);
    }

    /** The trait-collection observer: the traits handed to every child, new
        inner insets and a re-set heading. The height is NOT recomputed here. */
    method SetTraitCollection(newTraits: Traits)
      requires Valid()
      modifies this
      ensures Valid()
      ensures traitCollection == newTraits && innerPadding == InnerPadding(newTraits)
      ensures theme == old(theme) && width == old(width) && height == old(height)
      ensures headingAttributedString.text == old(headingAttributedString.text)
    {
      traitCollection := newTraits;
      items := PropagateTraits(items, traitCollection);
      innerPadding := InnerPadding(traitCollection);
      var headingColor := HeadingColor(changeType, theme);
      headingAttributedString := HeadingAttributedString(headingColor, heading, traitCollection);
    }

    /** The width setter: stores the width and recomputes the height from the current insets. */
    method SetWidth(newWidth: int)
      requires Valid()
      modifies this
      ensures Valid()
      ensures width == newWidth && height == FreshHeight()
      ensures theme == old(theme) && traitCollection == old(traitCollection)
      ensures items == old(items) && innerPadding == old(innerPadding)
    {
      width := newWidth;
      height := CalculateHeight(items, AvailableWidth(), innerPadding, headingAttributedString, headingPadding, stackViewPadding, measure);
    }

    /** A size change: the width is stored without the setter, the trait
        collection goes through its observer, then the height is recomputed. */
    method UpdateSize(newWidth: int, newTraits: Traits)
      requires Valid()
      modifies this
      ensures Valid()
      ensures width == newWidth && traitCollection == newTraits && innerPadding == InnerPadding(newTraits)
      ensures theme == old(theme) && height == FreshHeight()
    {
      width := newWidth;
      SetTraitCollection(newTraits);
      height := CalculateHeight(items, AvailableWidth(), innerPadding, headingAttributedString, headingPadding, stackViewPadding, measure);
    }
  }
}
