# Diff-list change row, modelled in Dafny

This project models the view model of one change row in the Wikipedia iOS app's diff list (`DiffListChangeViewModel`). A row groups several diff items under a heading. The view model works out:

- the heading: a line range, or a section title of the revision;
- the border and heading colours;
- three sets of insets;
- the row's total height.

The theme, the trait collection and the width can change after construction. The view model then recomputes what depends on them.

The model has five modules:

- `DiffTypes`: the values. Diff items, section infos, insets, traits, themes, colours, styled text, child rows, and the measurement and layout services.
- `Headings`: the two ways of deriving a heading, and the choice between them made at construction.
- `Paddings`: the colour and inset tables, and the stack-inset rule.
- `Height`: the height as a specification function, the loop that computes it, and its properties.
- `ViewModel`: the class `DiffListChangeViewModel`.
  - Its constant fields are the ones Swift sets only at construction: the change type, `heading` and `innerViewClipsToBounds` (Swift `let`), and `headingPadding` and `stackViewPadding` (Swift `private(set) var`, assigned only in `init`). Swift's `items` is a `let` too, but it is a `var` here because the observers replace the child values (see "## Left out").
  - The fields that Swift's observers and setters reassign are `var` fields. The methods that change them have `modifies` clauses.
  - `Valid()` ties every derived field except `height` to the current theme, traits and diff items.

Text measurement (`boundingRect` followed by `ceil`) is a function-typed value, `Measure = (Text, Traits, int) -> nat`. It is an uninterpreted, non-negative height that depends on the text, the traits that pick the font, and the wrapping width. Colour is not one of its inputs. The two localised line formats are the `Heading` constructors `SingleLine(n)` and `MultiLine(a, b)`. Every other heading, including `""` and `"Unknown Section"`, is `Plain(s)`. `CGFloat` is modelled as `int`.

Two behaviours of the code are worth knowing:

- **One surviving line number gives a range.** With several items and only one line that keeps its number, the code gives the multi-line format with equal ends (`Wikipedia/Code/DiffListChangeViewModel.swift:123-126`). The single-line format is used only when there is exactly one diff item. `Headings.LoneContributorGivesRange` proves this, and the contract of `Headings.HeadingFromLineNumbers` shows that the `""` branch at lines 127-128 is never taken.
- **A trait change leaves the height stale.** The trait-collection observer (lines 26-36) updates the inner insets and the heading but does not recompute `height`; only the width setter and `updateSize` do. `SetTraitCollection` therefore promises `height == old(height)`, and `Valid()` leaves the height out. `SetWidth`, `UpdateSize` and the constructor promise `height == FreshHeight()`. `SetTheme` promises that `FreshHeight()` does not change.

## Model

| member | source | states |
|---|---|---|
| `Headings.LineNumbers` | Wikipedia/Code/DiffListChangeViewModel.swift:117 | The collected line numbers are no more than the items, and none are collected exactly when no item is a non-deleted, non-move-source line that carries a number |
| `Headings.LineNumbersAppend` | Wikipedia/Code/DiffListChangeViewModel.swift:117 | Collecting distributes over concatenation, so the numbers keep the input order |
| `Headings.LineNumbersFirst` | Wikipedia/Code/DiffListChangeViewModel.swift:117-119 | The first collected number is the number of the first contributing item |
| `Headings.LineNumbersLast` | Wikipedia/Code/DiffListChangeViewModel.swift:117-121 | The last collected number is the number of the last contributing item |
| `Headings.LineNumbersEnds` | Wikipedia/Code/DiffListChangeViewModel.swift:117-121 | For every input, the first and last collected numbers are those of the first and last contributing items |
| `Headings.HeadingFromLineNumbers` | Wikipedia/Code/DiffListChangeViewModel.swift:115-134 | The heading is `""` exactly when no item contributes, and never any other plain string. A lone item that contributes gives the single-line format. With more than one item, the heading is the multi-line format of the first and last contributors. The `""` branch at lines 127-128 is never taken |
| `Headings.LoneContributorGivesRange` | Wikipedia/Code/DiffListChangeViewModel.swift:123-126 | With more than one item and exactly one contributor, the heading is the multi-line format with the same line at both ends |
| `Headings.FirstResolving` | Wikipedia/Code/DiffListChangeViewModel.swift:105-110 | The scan returns the first item whose section index is present and in bounds, or reports that no item has one |
| `Headings.HeadingFromSectionInfo` | Wikipedia/Code/DiffListChangeViewModel.swift:103-113 | The heading is the title of the first resolving item. When no item resolves it is exactly `"Unknown Section"` |
| `Headings.SectionHeadingIgnoresLaterItems` | Wikipedia/Code/DiffListChangeViewModel.swift:105-110 | Once an item resolves, items after it never change the section heading |
| `Headings.InitialHeading` | Wikipedia/Code/DiffListChangeViewModel.swift:69-79 | A single revision uses section titles if and only if section info is present and non-empty, and the heading is then always plain text. Otherwise the line-number heading is used. A comparison ignores section info entirely |
| `Paddings.BorderColor` | Wikipedia/Code/DiffListChangeViewModel.swift:136-143 | The border colour is the theme's compare accent for a comparison and its paper background for a single revision |
| `Paddings.HeadingColor` | Wikipedia/Code/DiffListChangeViewModel.swift:145-152 | The heading colour is the theme's compare-change heading colour for a comparison and its secondary text colour for a single revision |
| `Paddings.CalculateStackViewPadding` | Wikipedia/Code/DiffListChangeViewModel.swift:154-176 | In a comparison, the top inset is 0 exactly when the first item is a move source or destination, and 10 otherwise. The bottom inset follows the same rule for the last item, and no items gives 10/10. The side insets are always 0. A single revision has all four at 0 |
| `Paddings.HeadingPadding` | Wikipedia/Code/DiffListChangeViewModel.swift:178-185 | The heading insets are (10,7,10,7) for a comparison and (5,0,10,0) for a single revision |
| `Paddings.InnerPadding` | Wikipedia/Code/DiffListChangeViewModel.swift:221-228 | The inner insets have a zero top and bottom and equal sides. The sides are 50 exactly when both size classes are regular, and 15 otherwise |
| `Height.CalculateHeight` | Wikipedia/Code/DiffListChangeViewModel.swift:197-219 | The accumulating loop returns the items' measured heights plus their vertical insets, plus the heading's insets and measured height, plus the inner and stack vertical insets |
| `Height.ItemsHeightAppend` | Wikipedia/Code/DiffListChangeViewModel.swift:201-206 | The items' height is additive over a split of the item list |
| `Height.ItemsHeightNonNegative` | Wikipedia/Code/DiffListChangeViewModel.swift:201-206 | The items' height is non-negative when no item's vertical insets sum below zero |
| `Height.TotalHeightNonNegative` | Wikipedia/Code/DiffListChangeViewModel.swift:197-219 | The row height is non-negative when no pair of vertical insets sums below zero |
| `Height.ItemsHeightAntitone` | Wikipedia/Code/DiffListChangeViewModel.swift:201-206 | If narrower text never measures shorter, the items' height never falls as the width shrinks |
| `Height.TotalHeightAntitone` | Wikipedia/Code/DiffListChangeViewModel.swift:197-219 | If narrower text never measures shorter, a narrower row is never shorter |
| `Height.ItemsHeightIgnoresTheme` | Wikipedia/Code/DiffListChangeViewModel.swift:202 | Child lists with the same text, insets and traits, position by position, have the same height, whatever their themes and kinds |
| `ViewModel.BuildItemViewModels` | Wikipedia/Code/DiffListChangeViewModel.swift:81-90 | There is one child row per diff item, in order. Each carries its item's kind and text and is laid out knowing the next item |
| `ViewModel.MakeItem` | Wikipedia/Code/DiffListChangeViewModel.swift:85-86 | A child row keeps its diff item's kind and text and gets the group's theme and traits. Its text insets are laid out with the next item, or with none for the last item (Swift's `safeIndex`) |
| `ViewModel.HeadingAttributedString` | Wikipedia/Code/DiffListChangeViewModel.swift:187-195 | The styled heading carries the heading text and the given traits, which decide its measured height, and records the heading colour |
| `ViewModel.PropagateTheme` | Wikipedia/Code/DiffListChangeViewModel.swift:21-23 | Every child row gets the new theme, and nothing else about the children changes |
| `ViewModel.PropagateTraits` | Wikipedia/Code/DiffListChangeViewModel.swift:28-30 | Every child row gets the new trait collection, and nothing else about the children changes |
| `ViewModel.DiffListChangeViewModel.AvailableWidth` | Wikipedia/Code/DiffListChangeViewModel.swift:38-40 | The available width is the width less both inner side insets, since the stack side insets are 0. That is 100 points less for regular/regular traits and 30 points less otherwise |
| `ViewModel.DiffListChangeViewModel.constructor` | Wikipedia/Code/DiffListChangeViewModel.swift:61-101 | After construction the heading is the one chosen by change type and section info. Every derived field agrees with the inputs, and the height is the fresh height |
| `ViewModel.DiffListChangeViewModel.SetTheme` | Wikipedia/Code/DiffListChangeViewModel.swift:15-25 | The theme observer recolours the border and heading and passes the theme to the children. It leaves the heading text, traits, width, insets and height as they were, and the fresh height does not change either |
| `ViewModel.DiffListChangeViewModel.SetTraitCollection` | Wikipedia/Code/DiffListChangeViewModel.swift:26-36 | The trait observer passes the traits to the children and recomputes the inner insets and the styled heading. It does not touch the height |
| `ViewModel.DiffListChangeViewModel.SetWidth` | Wikipedia/Code/DiffListChangeViewModel.swift:42-51 | The width setter stores the width and recomputes the height from the current insets, leaving everything else alone |
| `ViewModel.DiffListChangeViewModel.UpdateSize` | Wikipedia/Code/DiffListChangeViewModel.swift:230-235 | After a size update, the inner insets follow the new traits (through the observer) and the height is recomputed from them and the new width |

## Left out

- UIKit text layout is not modelled. This covers `boundingRect`, `ceil`, `NSAttributedString`, fonts and dynamic type. The measurement service `Measure` stands in for all of it. `calculateHeadingAttributedString` becomes a record of text, colour and traits.
- Floating-point `CGFloat` arithmetic becomes integer arithmetic. Rounding and the order of additions no longer matter.
- Theme colours are tags: a theme and a colour name. What the colours look like is not modelled.
- Localisation through `String.localizedStringWithFormat` and `CommonStrings` is not modelled. The two formats are abstract `Heading` constructors.
- The internals of `DiffListChangeItemViewModel` are not part of this model. A child row is a value with a kind, a text, text insets, a theme and traits. Its insets come from a caller-supplied `ItemLayout` function of the item, the next item and the change type. The child's re-styling when its theme or traits change is not modelled.
- `groupedMoveIndexes`, `moveDistances` and `semanticContentAttribute` are only passed through to the children, so they are left out.
- `DiffItemType` is declared outside DiffListChangeViewModel.swift. The model's `DiffTypes.DiffItemType` assumes the cases `Context`, `AddLine` and `Change` beside the three this file names. The rules modelled here distinguish only `deleteLine`, `moveSource` and `moveDestination`, so the assumed cases are interchangeable.
- Child rows are shared reference objects in the source. Here they are values that the observers replace, so aliasing of a child through another reference is not modelled.
- The trivial `width` getter and `innerViewClipsToBounds` are covered by the constructor's state and `Valid()`. They have no methods of their own.
