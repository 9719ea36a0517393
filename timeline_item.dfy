/** One card of the timeline (`TimelineItem.tsx`): the expand/collapse and
    focus state, the keys it reacts to while focused, the screen-reader
    announcement of a toggle, the side of the line it sits on, its date
    label and its type label. Month-and-year renderings come with the
    instants; icons and animation styles are not modelled. */
module TimelineItem {
  import opened Wrappers
  import opened Content

  /** Cards alternate sides: even positions sit on the left. */
  predicate IsLeft(index: nat) {
    index % 2 == 0
  }

  lemma SidesAlternate(index: nat)
    ensures IsLeft(index) != IsLeft(index + 1)
    ensures IsLeft(index) == IsLeft(index + 2)
  {
  }

  const DetailsFor: string := " details for "

  /** The live-region text of a toggle, from the state before it. */
  function Announcement(wasExpanded: bool, title: string): (r: string)
    ensures |r| > |title|
  {
    (if wasExpanded then "Collapsed" else "Expanded") + DetailsFor + title
  }

  /** The announcement names the state the toggle leads to and ends with
      the title. */
  lemma AnnouncementNamesNewState(wasExpanded: bool, title: string)
    ensures var r := Announcement(wasExpanded, title);
      r[|r| - |title|..] == title
      && (wasExpanded <==> r[..9] == "Collapsed")
  {
    var r := Announcement(wasExpanded, title);
    var head := if wasExpanded then "Collapsed" else "Expanded";
    assert r == head + (DetailsFor + title);
    assert r[|r| - |title|..] == title;
    if !wasExpanded {
      assert r[..9][8] == ' ';
    }
  }

  datatype ItemKey = ArrowUp | ArrowDown | Enter | Space | Escape | OtherKey

  /** `isExpanded` after a key press. */
  function ExpandedAfter(key: ItemKey, focused: bool, expanded: bool): bool {
    if !focused then expanded
    else match key
      case Enter => !expanded
      case Space => !expanded
      case Escape => false
      case _ => expanded
  }

  /** Whether the key press has its default action prevented. */
  predicate PreventsDefault(key: ItemKey, focused: bool, expanded: bool) {
    focused && (key == ArrowUp || key == ArrowDown || key == Enter || key == Space
                || (key == Escape && expanded))
  }

  /** Unfocused cards ignore every key. */
  lemma UnfocusedIgnoresKeys(key: ItemKey, expanded: bool)
    ensures ExpandedAfter(key, false, expanded) == expanded
    ensures !PreventsDefault(key, false, expanded)
  {
  }

  /** Enter and Space toggle, so pressing either twice restores the state. */
  lemma ToggleTwice(k1: ItemKey, k2: ItemKey, expanded: bool)
    requires k1 == Enter || k1 == Space
    requires k2 == Enter || k2 == Space
    ensures ExpandedAfter(k1, true, expanded) != expanded
    ensures ExpandedAfter(k2, true, ExpandedAfter(k1, true, expanded)) == expanded
  {
  }

  /** Escape collapses; on a collapsed card it changes nothing and lets
      the default action through. */
  lemma EscapeCollapses(expanded: bool)
    ensures !ExpandedAfter(Escape, true, expanded)
    ensures ExpandedAfter(Escape, true, ExpandedAfter(Escape, true, expanded)) == ExpandedAfter(Escape, true, expanded)
    ensures !expanded ==> !PreventsDefault(Escape, true, expanded)
  {
  }

  /** `formatDate`: "start - end", or "start - Present" for an ongoing entry. */
  function DateLabel(date: Instant, endDate: Option<Instant>): (r: string)
    ensures |r| >= |date.monthYear| + 3
  {
    date.monthYear + " - " + (if endDate.Some? then endDate.value.monthYear else "Present")
  }

  /** A label starts with the start date, and an entry with an end date is
      told apart from an ongoing one unless the end renders as "Present". */
  lemma DateLabelParts(date: Instant, endDate: Option<Instant>)
    ensures DateLabel(date, endDate)[..|date.monthYear| + 3] == date.monthYear + " - "
    ensures DateLabel(date, endDate)[|date.monthYear| + 3..] ==
            (if endDate.Some? then endDate.value.monthYear else "Present")
    ensures endDate.Some? && endDate.value.monthYear != "Present" ==>
            DateLabel(date, endDate) != DateLabel(date, None)
  {
    var tail := if endDate.Some? then endDate.value.monthYear else "Present";
    var r := DateLabel(date, endDate);
    assert r == (date.monthYear + " - ") + tail;
    var ongoing := DateLabel(date, None);
    assert ongoing == (date.monthYear + " - ") + "Present";
    assert ongoing[|date.monthYear| + 3..] == "Present";
  }

  /** `getTypeLabel`. */
  function TypeLabel(kind: TimelineKind): string {
    match kind
    case Education => "Education milestone"
    case Work => "Work experience"
    case Achievement => "Achievement"
    case Milestone => "Career milestone"
  }

  /** Each kind gets its own label. */
  lemma TypeLabelInjective(a: TimelineKind, b: TimelineKind)
    requires a != b
    ensures TypeLabel(a) != TypeLabel(b)
  {
    assert |TypeLabel(Education)| == 19 && |TypeLabel(Work)| == 15;
    assert |TypeLabel(Achievement)| == 11 && |TypeLabel(Milestone)| == 16;
  }

  class ItemState {
    const item: TimelineEntry
    const index: nat
    var isExpanded: bool
    var isFocused: bool

    constructor(item: TimelineEntry, index: nat)
      ensures this.item == item && this.index == index
      ensures !isExpanded && !isFocused
    {
      this.item := item;
      this.index := index;
      isExpanded := false;
      isFocused := false;
    }

    /** `toggleExpanded`: flip and announce. */
    method ToggleExpanded() returns (announcement: string)
      modifies this
      ensures isExpanded == !old(isExpanded) && isFocused == old(isFocused)
      ensures announcement == Announcement(old(isExpanded), item.title)
    {
      announcement := Announcement(isExpanded, item.title);
      isExpanded := !isExpanded;
    }

    /** The keydown listener, attached only while focused. */
    method HandleKeyDown(key: ItemKey) returns (prevented: bool, announcement: Option<string>)
      modifies this
      ensures isExpanded == ExpandedAfter(key, old(isFocused), old(isExpanded))
      ensures prevented == PreventsDefault(key, old(isFocused), old(isExpanded))
      ensures announcement == (if old(isFocused) && (key == Enter || key == Space)
                               then Some(Announcement(old(isExpanded), item.title)) else None)
      ensures isFocused == old(isFocused)
    {
      if !isFocused {
        return false, None;
      }
      prevented, announcement := false, None;
      match key {
        case ArrowUp =>
          prevented := true;
        case ArrowDown =>
          prevented := true;
        case Enter =>
          prevented := true;
          var a := ToggleExpanded();
          announcement := Some(a);
        case Space =>
          prevented := true;
          var a := ToggleExpanded();
          announcement := Some(a);
        case Escape =>
          if isExpanded {
            prevented := true;
            isExpanded := false;
          }
        case OtherKey =>
      }
    }

    /** `handleFocus`: mark focused and report the id to the timeline. */
    method HandleFocus() returns (reportedId: string)
      modifies this
      ensures isFocused && isExpanded == old(isExpanded)
      ensures reportedId == item.id
    {
      isFocused := true;
      reportedId := item.id;
    }

    /** `handleBlur`: expansion is left as it was. */
    method HandleBlur()
      modifies this
      ensures !isFocused && isExpanded == old(isExpanded)
    {
      isFocused := false;
    }
  }
}
