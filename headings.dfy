/** How the heading of a change row is derived: from the line numbers of its
    diff items, or from the section titles the items point into. */
module Headings {
  import opened DiffTypes

  const UnknownSection: string := "Unknown Section"

  // ---------------------------------------------------------------------------
  // Line-number headings
  // ---------------------------------------------------------------------------

  /** An item yields a line number when it is neither a deleted line nor the
      source of a move, and carries one. */
  predicate Contributes(d: DiffItem) {
    d.kind != DeleteLine && d.kind != MoveSource && d.lineNumber.Some?
  }

  predicate IsFirstContributor(items: seq<DiffItem>, k: int) {
    0 <= k < |items| && Contributes(items[k]) &&
    forall j | 0 <= j < k :: !Contributes(items[j])
  }

  predicate IsLastContributor(items: seq<DiffItem>, k: int) {
    0 <= k < |items| && Contributes(items[k]) &&
    forall j | k < j < |items| :: !Contributes(items[j])
  }

  /** The `compactMap` over the items: the line numbers of the contributing
      items, in input order. */
  function LineNumbers(items: seq<DiffItem>): (nums: seq<int>)
    ensures |nums| <= |items|
    ensures nums == [] <==> forall j | 0 <= j < |items| :: !Contributes(items[j])
  {
    if items == [] then []
    else
      assert forall j | 1 <= j < |items| :: items[j] == items[1..][j - 1];
      (if Contributes(items[0]) then [items[0].lineNumber.value] else []) + LineNumbers(items[1..])
  }

  /** The line-number heading, branch for branch as `calculateHeadingsFromLineNumbers` writes it.
      It is empty exactly when no item contributes, and never any other plain
      string; a lone item that contributes gives the single-line format;
      otherwise the multi-line format of the first and last contributors.
      The trailing `""` branch is therefore never taken. */
  function HeadingFromLineNumbers(items: seq<DiffItem>): (h: Heading)
    ensures h == Plain("") <==> forall j | 0 <= j < |items| :: !Contributes(items[j])
    ensures h.Plain? ==> h.s == ""
    ensures |items| == 1 && Contributes(items[0]) ==> h == SingleLine(items[0].lineNumber.value)
    ensures forall k, m | |items| > 1 && IsFirstContributor(items, k) && IsLastContributor(items, m) ::
              h == MultiLine(items[k].lineNumber.value, items[m].lineNumber.value)
  {
    var nums := LineNumbers(items);
    LineNumbersEnds(items);
    if nums != [] then
      var last := Last(nums);
      if |items| == 1 || last.None? then SingleLine(nums[0])
      else if last.Some? then MultiLine(nums[0], last.value)
      else Plain("")
    else Plain("")
  }

  lemma {:induction false} LineNumbersAppend(a: seq<DiffItem>, b: seq<DiffItem>)
    ensures LineNumbers(a + b) == LineNumbers(a) + LineNumbers(b)
  {
    if a == [] {
      assert a + b == b;
    } else {
      assert (a + b)[1..] == a[1..] + b;
      LineNumbersAppend(a[1..], b);
    }
  }

  /** The first collected number is that of the first contributing item. */
  lemma {:induction false} LineNumbersFirst(items: seq<DiffItem>, k: int)
    requires IsFirstContributor(items, k)
    ensures LineNumbers(items) != [] && LineNumbers(items)[0] == items[k].lineNumber.value
  {
    if k > 0 {
      assert IsFirstContributor(items[1..], k - 1);
      LineNumbersFirst(items[1..], k - 1);
    }
  }

  /** The last collected number is that of the last contributing item. */
  lemma LineNumbersLast(items: seq<DiffItem>, k: int)
    requires IsLastContributor(items, k)
    ensures LineNumbers(items) != [] && LineNumbers(items)[|LineNumbers(items)| - 1] == items[k].lineNumber.value
  {
    var rest := items[k + 1..];
    assert forall j | 0 <= j < |rest| :: !Contributes(rest[j]) by {
      forall j | 0 <= j < |rest| ensures !Contributes(rest[j]) {
        assert rest[j] == items[k + 1 + j];
      }
    }
    assert items[k..][1..] == rest;
    assert items == items[..k] + items[k..];
    LineNumbersAppend(items[..k], items[k..]);
  }

  /** The ends of the collected numbers are the numbers of the first and the
      last contributing items. */
  lemma LineNumbersEnds(items: seq<DiffItem>)
    ensures forall k | IsFirstContributor(items, k) ::
              LineNumbers(items) != [] && LineNumbers(items)[0] == items[k].lineNumber.value
    ensures forall m | IsLastContributor(items, m) ::
              LineNumbers(items) != [] && LineNumbers(items)[|LineNumbers(items)| - 1] == items[m].lineNumber.value
  {
    forall k | IsFirstContributor(items, k)
      ensures LineNumbers(items) != [] && LineNumbers(items)[0] == items[k].lineNumber.value
    {
      LineNumbersFirst(items, k);
    }
    forall m | IsLastContributor(items, m)
      ensures LineNumbers(items) != [] && LineNumbers(items)[|LineNumbers(items)| - 1] == items[m].lineNumber.value
    {
      LineNumbersLast(items, m);
    }
  }

  /** The quirk: with more than one item the multi-line format is used even
      when a single item contributes, so the range starts and ends on its line. */
  lemma LoneContributorGivesRange(items: seq<DiffItem>, k: int)
    requires |items| > 1 && 0 <= k < |items| && Contributes(items[k])
    requires forall j | 0 <= j < |items| && j != k :: !Contributes(items[j])
    ensures HeadingFromLineNumbers(items) == MultiLine(items[k].lineNumber.value, items[k].lineNumber.value)
  {
    assert IsFirstContributor(items, k) && IsLastContributor(items, k);
  }

  // ---------------------------------------------------------------------------
  // Section-info headings
  // ---------------------------------------------------------------------------

  /** An item resolves when its section index is present and in bounds
      (Swift's `safeIndex` subscript). */
  predicate Resolves(d: DiffItem, info: seq<SectionInfo>) {
    d.sectionInfoIndex.Some? && 0 <= d.sectionInfoIndex.value < |info|
  }

  predicate IsFirstResolving(items: seq<DiffItem>, info: seq<SectionInfo>, k: int) {
    0 <= k < |items| && Resolves(items[k], info) &&
    forall j | 0 <= j < k :: !Resolves(items[j], info)
  }

  /** The position of the first resolving item, as the early-returning scan finds it. */
  function FirstResolving(items: seq<DiffItem>, info: seq<SectionInfo>): (k: Option<nat>)
    ensures k.Some? ==> IsFirstResolving(items, info, k.value)
    ensures k.None? ==> forall j | 0 <= j < |items| :: !Resolves(items[j], info)
  {
    if items == [] then None
    else if Resolves(items[0], info) then Some(0)
    else
      assert forall j | 1 <= j < |items| :: items[j] == items[1..][j - 1];
      match FirstResolving(items[1..], info)
      case None => None
      case Some(k) => Some(k + 1)
  }

  function TitleOf(d: DiffItem, info: seq<SectionInfo>): (title: string)
    requires Resolves(d, info)
  {
    info[d.sectionInfoIndex.value].title
  }

  /** The section heading: the title the first resolving item points to, or
      the literal fallback when no item resolves. */
  function HeadingFromSectionInfo(items: seq<DiffItem>, info: seq<SectionInfo>): (h: Heading)
    ensures forall k | IsFirstResolving(items, info, k) :: h == Plain(TitleOf(items[k], info))
    ensures (forall j | 0 <= j < |items| :: !Resolves(items[j], info)) ==> h == Plain(UnknownSection)
  {
    match FirstResolving(items, info)
    case Some(k) => Plain(TitleOf(items[k], info))
    case None => Plain(UnknownSection)
  }

  /** Items after the first resolving one are never consulted. */
  lemma SectionHeadingIgnoresLaterItems(items: seq<DiffItem>, later: seq<DiffItem>, info: seq<SectionInfo>, k: int)
    requires 0 <= k < |items| && Resolves(items[k], info)
    ensures HeadingFromSectionInfo(items + later, info) == HeadingFromSectionInfo(items, info)
  {
    var f := FirstResolving(items, info);
    assert f.Some?;
    var i := f.value;
    assert IsFirstResolving(items + later, info, i) by {
      forall j | 0 <= j < i ensures !Resolves((items + later)[j], info) {
        assert (items + later)[j] == items[j];
      }
      assert (items + later)[i] == items[i];
    }
  }

  // ---------------------------------------------------------------------------
  // Choosing the heading
  // ---------------------------------------------------------------------------

  /** Section titles are used only for a single revision that has a non-empty list of them. */
  predicate UsesSectionInfo(changeType: ChangeType, sectionInfo: Option<seq<SectionInfo>>) {
    changeType == SingleRevision && sectionInfo.Some? && sectionInfo.value != []
  }

  /** The heading chosen once, at construction. A comparison always shows
      line numbers (or nothing), whatever section info is passed; a single
      revision with a non-empty list of section titles always shows a plain
      title, never a line format; otherwise line numbers are used. */
  function InitialHeading(changeType: ChangeType, items: seq<DiffItem>, sectionInfo: Option<seq<SectionInfo>>): (h: Heading)
    ensures UsesSectionInfo(changeType, sectionInfo) ==> h == HeadingFromSectionInfo(items, sectionInfo.value) && h.Plain?
    ensures !UsesSectionInfo(changeType, sectionInfo) ==> h == HeadingFromLineNumbers(items) && (h.Plain? ==> h.s == "")
    ensures changeType == CompareRevision ==> h == HeadingFromLineNumbers(items)
  {
    match changeType
    case CompareRevision => HeadingFromLineNumbers(items)
    case SingleRevision =>
      if sectionInfo.Some? && sectionInfo.value != [] then HeadingFromSectionInfo(items, sectionInfo.value)
      else HeadingFromLineNumbers(items)
  }
}
