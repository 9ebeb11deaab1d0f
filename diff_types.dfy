/** Values shared by the diff-list change row: diff items, insets, trait
    collections, themes and colours, styled text and the measurement service. */
module DiffTypes {

  datatype Option<+T> = None | Some(value: T)

  /** The change kind of one line or block of a precomputed diff. */
  datatype DiffItemType = Context | AddLine | DeleteLine | Change | MoveSource | MoveDestination

  /** One diff item as the diff service supplies it. `text` stands for the
      item's content; `sectionInfoIndex` points into the section-title list. */
  datatype DiffItem = DiffItem(kind: DiffItemType, text: string, lineNumber: Option<int>, sectionInfoIndex: Option<int>)

  /** A section title of the revision, addressed by its position in the list. */
  datatype SectionInfo = SectionInfo(title: string)

  /** Whether the row shows a single revision or a comparison of two. */
  datatype ChangeType = SingleRevision | CompareRevision

  /** The heading string. The two localised formats are kept abstract;
      every other heading (a section title, "Unknown Section", "") is plain text. */
  datatype Heading = Plain(s: string) | SingleLine(line: int) | MultiLine(first: int, last: int)

  /** Directional edge insets, in points. */
  datatype Insets = Insets(top: int, leading: int, bottom: int, trailing: int)

  datatype SizeClass = Unspecified | Compact | Regular

  /** The part of a trait collection this row depends on: its size classes
      and the dynamic-type size that fonts are chosen from. */
  datatype Traits = Traits(horizontal: SizeClass, vertical: SizeClass, contentSize: int)

  /** A theme is an opaque value; its colours are looked up by name. */
  datatype Theme = Theme(name: string)

  datatype ColorName = DiffCompareAccent | PaperBackground | DiffCompareChangeHeading | SecondaryText

  datatype Color = Color(theme: Theme, name: ColorName)

  /** Text content before styling: the heading or a diff item's body. */
  datatype Text = HeadingText(heading: Heading) | BodyText(body: string)

  /** Styled text: content, foreground colour, and the trait collection its font was chosen for. */
  datatype AttributedText = AttributedText(text: Text, color: Color, traits: Traits)

  /** Ceiling-rounded height of text set in the font for the given traits and
      wrapped at the given width. Colour plays no part in layout. */
  type Measure = (Text, Traits, int) -> nat

  /** A child row of the group: its diff kind, its text, the insets around
      its text, and the theme and traits the group last handed down to it. */
  datatype ItemViewModel = ItemViewModel(kind: DiffItemType, text: string, textPadding: Insets, theme: Theme, traits: Traits)

  /** How a child row chooses its text insets from its diff item, the item
      after it and the change type. */
  type ItemLayout = (DiffItem, Option<DiffItem>, ChangeType) -> Insets

  /** Swift's `Array.last`. */
  function Last<T>(s: seq<T>): (r: Option<T>) {
    if s == [] then None else Some(s[|s| - 1])
  }
}
