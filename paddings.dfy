/** The fixed style tables of a change row: its colours and its three insets. */
module Paddings {
  import opened DiffTypes

  /** Move sources and move destinations mark the ends of a relocated block. */
  predicate IsMoveBoundary(k: DiffItemType) {
    k == MoveSource || k == MoveDestination
  }

  function BorderColor(changeType: ChangeType, theme: Theme): (c: Color)
    ensures c.theme == theme
    ensures c.name == DiffCompareAccent <==> changeType == CompareRevision
    ensures c.name == PaperBackground <==> changeType == SingleRevision
  {
    match changeType
    case CompareRevision => Color(theme, DiffCompareAccent)
    case SingleRevision => Color(theme, PaperBackground)
  }

  function HeadingColor(changeType: ChangeType, theme: Theme): (c: Color)
    ensures c.theme == theme
    ensures c.name == DiffCompareChangeHeading <==> changeType == CompareRevision
    ensures c.name == SecondaryText <==> changeType == SingleRevision
  {
    match changeType
    case CompareRevision => Color(theme, DiffCompareChangeHeading)
    case SingleRevision => Color(theme, SecondaryText)
  }

  /** The stack insets a comparison row leaves around its items: none at an
      end that is a move boundary, 10 points otherwise; never any at the
      sides, and none at all for a single revision. */
  predicate StackPaddingRule(changeType: ChangeType, items: seq<ItemViewModel>, p: Insets) {
    && p.leading == 0 && p.trailing == 0
    && (changeType == SingleRevision ==> p.top == 0 && p.bottom == 0)
    && (changeType == CompareRevision ==>
          && (p.top == 0 <==> |items| > 0 && IsMoveBoundary(items[0].kind))
          && (p.top == 0 || p.top == 10)
          && (p.bottom == 0 <==> |items| > 0 && IsMoveBoundary(items[|items| - 1].kind))
          && (p.bottom == 0 || p.bottom == 10))
  }

  method CalculateStackViewPadding(changeType: ChangeType, items: seq<ItemViewModel>) returns (p: Insets)
    ensures StackPaddingRule(changeType, items, p)
  {
    match changeType {
      case CompareRevision =>
        var top := 10;
        var bottom := 10;
        if items != [] {
          var firstItemType := items[0].kind;
          var lastItemType := items[|items| - 1].kind;
          if firstItemType == MoveDestination || firstItemType == MoveSource {
            top := 0;
          }
          if lastItemType == MoveDestination || lastItemType == MoveSource {
            bottom := 0;
          }
        }
        p := Insets(top, 0, bottom, 0);
      case SingleRevision =>
        p := Insets(0, 0, 0, 0);
    }
  }

  /** The insets around the heading text, by change type. */
  function HeadingPadding(changeType: ChangeType): (p: Insets)
    ensures p.leading == p.trailing && p.bottom == 10
    ensures changeType == CompareRevision ==> p.top == 10 && p.leading == 7
    ensures changeType == SingleRevision ==> p.top == 5 && p.leading == 0
  {
    match changeType
    case CompareRevision => Insets(10, 7, 10, 7)
    case SingleRevision => Insets(5, 0, 10, 0)
  }

  /** The insets inside the row's border: wide margins only when both size
      classes are regular. */
  function InnerPadding(traits: Traits): (p: Insets)
    ensures p.top == 0 && p.bottom == 0 && p.leading == p.trailing
    ensures p.leading == 50 <==> traits.horizontal == Regular && traits.vertical == Regular
    ensures p.leading == 50 || p.leading == 15
  {
    match (traits.horizontal, traits.vertical)
    case (Regular, Regular) => Insets(0, 50, 0, 50)
    case _ => Insets(0, 15, 0, 15)
  }
}
