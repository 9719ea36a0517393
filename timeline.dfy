/** The career timeline of `Timeline.tsx`: the items are shown sorted by
    date on a copy of the input, and the navigation keys target an item.
    The listener looks the targeted item's card up with `querySelector` and
    focuses it; the card's focus handler then reports the item's id, and the
    timeline records the index of the first sorted item with that id. The
    selector as written matches no element, so as written a key never moves
    focus; `HandleKeyDownAsWritten` models that, and `HandleKeyDown` the
    evidently intended selector. */
module Timeline {
  import opened Wrappers
  import opened Seqs
  import opened Ranking
  import opened Content

  /** The sort key: `date.getTime()`, ascending. */
  function DateRank(e: TimelineEntry): Rank {
    Rank(e.date.millis, 0, 0)
  }

  /** `[...items].sort((a, b) => a.date.getTime() - b.date.getTime())`. */
  function SortedItems(items: seq<TimelineEntry>): (r: seq<TimelineEntry>)
    ensures |r| == |items|
  {
    SortBy(items, DateRank)
  }

  /** The sorted copy holds the same items, oldest first, and items with the
      same date keep their input order. */
  lemma SortedItemsSpec(items: seq<TimelineEntry>)
    ensures multiset(SortedItems(items)) == multiset(items)
    ensures forall i, j :: 0 <= i < j < |SortedItems(items)| ==>
              SortedItems(items)[i].date.millis <= SortedItems(items)[j].date.millis
    ensures forall k :: WithRank(SortedItems(items), DateRank, k) == WithRank(items, DateRank, k)
  {
    SortByPermutes(items, DateRank);
    SortBySorted(items, DateRank);
    var r := SortedItems(items);
    forall i, j | 0 <= i < j < |r| ensures r[i].date.millis <= r[j].date.millis {
      assert RankLe(DateRank(r[i]), DateRank(r[j]));
    }
    forall k ensures WithRank(r, DateRank, k) == WithRank(items, DateRank, k) {
      SortByStable(items, DateRank, k);
    }
  }

  /** `isLast` for the item rendered at `index`. */
  predicate IsLast(sorted: seq<TimelineEntry>, index: nat) {
    index == |sorted| - 1
  }

  /** The item marked last is the latest one. */
  lemma LastIsLatest(items: seq<TimelineEntry>, index: nat)
    requires index < |items| && IsLast(SortedItems(items), index)
    ensures forall j :: 0 <= j < |items| ==>
              SortedItems(items)[j].date.millis <= SortedItems(items)[index].date.millis
  {
    SortedItemsSpec(items);
  }

  predicate HasId(id: string, e: TimelineEntry) {
    e.id == id
  }

  /** `sortedItems.findIndex(item => item.id === itemId)`. */
  function IndexOfId(sorted: seq<TimelineEntry>, id: string): (r: int)
    ensures -1 <= r < |sorted|
    ensures r >= 0 ==> sorted[r].id == id && forall i :: 0 <= i < r ==> sorted[i].id != id
    ensures r == -1 <==> forall i :: 0 <= i < |sorted| ==> sorted[i].id != id
  {
    FindIndex(sorted, e => HasId(id, e))
  }

  predicate UniqueIds(sorted: seq<TimelineEntry>) {
    forall i, j :: 0 <= i < j < |sorted| ==> sorted[i].id != sorted[j].id
  }

  /** With distinct ids, the index recorded for an item's id is its own. */
  lemma IndexOfOwnId(sorted: seq<TimelineEntry>, t: nat)
    requires UniqueIds(sorted) && t < |sorted|
    ensures IndexOfId(sorted, sorted[t].id) == t
  {
  }

  datatype Key = ArrowUp | ArrowDown | Home | End | OtherKey

  /** The item a key press asks to focus, if any, given the focused index. */
  function KeyTarget(key: Key, focused: int, length: nat): (r: Option<nat>)
    ensures r.Some? ==> r.value < length
    ensures key == ArrowUp ==> r == (if focused > 0 && focused - 1 < length then Some(focused - 1) else None)
    ensures key == ArrowDown ==> r == (if -1 <= focused < length - 1 then Some(focused + 1) else None)
    ensures key == Home ==> r == (if length > 0 then Some(0) else None)
    ensures key == End ==> r == (if length > 0 then Some(length - 1) else None)
    ensures key == OtherKey ==> r == None
  {
    match key
    case ArrowUp => if focused > 0 && focused - 1 < length then Some(focused - 1) else None
    case ArrowDown => if -1 <= focused < length - 1 then Some(focused + 1) else None
    case Home => if length > 0 then Some(0) else None
    case End => if length > 0 then Some(length - 1) else None
    case OtherKey => None
  }

  /** From no focus (`-1`), ArrowDown targets the first item and ArrowUp
      targets none. */
  lemma KeysFromNoFocus(length: nat)
    ensures KeyTarget(ArrowUp, -1, length) == None
    ensures KeyTarget(ArrowDown, -1, length) == (if length > 0 then Some(0) else None)
  {
  }

  /** ArrowDown then ArrowUp comes back to a focused item that has a
      successor. */
  lemma DownThenUp(focused: nat, length: nat)
    requires focused + 1 < length
    ensures KeyTarget(ArrowDown, focused, length) == Some(focused + 1)
    ensures KeyTarget(ArrowUp, focused + 1, length) == Some(focused)
  {
  }

  /** The `aria-labelledby` value of an item's wrapper. */
  function TitleId(id: string): string {
    "timeline-item-" + id + "-title"
  }

  lemma TitleIdInjective(a: string, b: string)
    requires TitleId(a) == TitleId(b)
    ensures a == b
  {
    assert |a| == |b|;
    assert a == TitleId(a)[14..14 + |a|];
    assert b == TitleId(b)[14..14 + |b|];
  }

  /** What a selector sees of a rendered element: its `role`, its own
      `aria-labelledby`, and the `aria-labelledby` of the labelled element
      it sits inside. */
  datatype Element = Element(role: string, labelledBy: Option<string>, insideLabelled: Option<string>)

  /** The two elements with a role that each `TimelineItem` renders: the
      `role="article"` wrapper, which carries `aria-labelledby`, and the
      focusable `role="button"` card inside it, which does not. */
  function ItemElements(e: TimelineEntry): seq<Element> {
    [Element("article", Some(TitleId(e.id)), None), Element("button", None, Some(TitleId(e.id)))]
  }

  /** The timeline's elements in document order. */
  function Rendered(sorted: seq<TimelineEntry>): (r: seq<Element>)
    ensures |r| == 2 * |sorted|
  {
    if sorted == [] then [] else ItemElements(sorted[0]) + Rendered(sorted[1..])
  }

  /** Element `k` is the wrapper (even `k`) or the card (odd `k`) of item `k / 2`. */
  lemma {:induction false} RenderedAt(sorted: seq<TimelineEntry>, k: nat)
    requires k < 2 * |sorted|
    ensures Rendered(sorted)[k] == ItemElements(sorted[k / 2])[k % 2]
  {
    if k >= 2 {
      RenderedAt(sorted[1..], k - 2);
      assert Rendered(sorted)[k] == Rendered(sorted[1..])[k - 2];
    }
  }

  /** `[role="button"][aria-labelledby="timeline-item-<id>-title"]`, as the
      listener writes it: both attributes on one element. */
  predicate MatchesAsWritten(id: string, el: Element) {
    el.role == "button" && el.labelledBy == Some(TitleId(id))
  }

  /** `[aria-labelledby="timeline-item-<id>-title"] [role="button"]`: the
      button inside the labelled wrapper. */
  predicate MatchesIntended(id: string, el: Element) {
    el.role == "button" && el.insideLabelled == Some(TitleId(id))
  }

  function SelectAsWritten(id: string): Element -> bool {
    el => MatchesAsWritten(id, el)
  }

  function SelectIntended(id: string): Element -> bool {
    el => MatchesIntended(id, el)
  }

  /** `querySelector`: the first element in document order that matches. */
  function QuerySelector(els: seq<Element>, matches: Element -> bool): (r: Option<nat>)
    ensures r.Some? ==> r.value < |els| && matches(els[r.value])
    ensures r.Some? ==> forall k :: 0 <= k < r.value ==> !matches(els[k])
    ensures r.None? <==> forall k :: 0 <= k < |els| ==> !matches(els[k])
  {
    var k := FindIndex(els, matches);
    if k < 0 then None else Some(k)
  }

  /** The element a navigation key focuses: the first match of the
      selector for the targeted item, when the key targets one. */
  function KeyFocus(sorted: seq<TimelineEntry>, select: string -> (Element -> bool), key: Key, focused: int): (r: Option<nat>)
    ensures r.Some? ==> r.value < 2 * |sorted|
    ensures KeyTarget(key, focused, |sorted|).None? ==> r.None?
  {
    match KeyTarget(key, focused, |sorted|)
    case None => None
    case Some(t) => QuerySelector(Rendered(sorted), select(sorted[t].id))
  }

  /** As written, the selector matches no element of the timeline, whatever
      the id: the wrapper has the label but not the role, the card the role
      but not the label. */
  lemma AsWrittenSelectorNeverMatches(sorted: seq<TimelineEntry>, id: string)
    ensures QuerySelector(Rendered(sorted), SelectAsWritten(id)) == None
  {
    forall k | 0 <= k < |Rendered(sorted)| ensures !SelectAsWritten(id)(Rendered(sorted)[k]) {
      RenderedAt(sorted, k);
    }
  }

  /** So as written no key focuses anything. */
  lemma AsWrittenFocusesNothing(sorted: seq<TimelineEntry>, key: Key, focused: int)
    ensures KeyFocus(sorted, SelectAsWritten, key, focused) == None
  {
    var target := KeyTarget(key, focused, |sorted|);
    if target.Some? {
      AsWrittenSelectorNeverMatches(sorted, sorted[target.value].id);
    }
  }

  /** Two items, focus on the first, ArrowDown: the key targets the second
      item, and the selector as written finds nothing to focus. */
  lemma ArrowDownFindsNothing(a: TimelineEntry, b: TimelineEntry)
    ensures KeyTarget(ArrowDown, 0, 2) == Some(1)
    ensures KeyFocus([a, b], SelectAsWritten, ArrowDown, 0) == None
  {
    AsWrittenFocusesNothing([a, b], ArrowDown, 0);
  }

  /** The intended selector focuses a card exactly when the key targets an
      item, and that card belongs to an item with the target's id. */
  lemma IntendedFocusesTarget(sorted: seq<TimelineEntry>, key: Key, focused: int)
    ensures var t := KeyTarget(key, focused, |sorted|);
            var f := KeyFocus(sorted, SelectIntended, key, focused);
            (f.Some? <==> t.Some?)
            && (f.Some? ==> f.value % 2 == 1 && sorted[f.value / 2].id == sorted[t.value].id)
  {
    var t := KeyTarget(key, focused, |sorted|);
    if t.Some? {
      var id := sorted[t.value].id;
      RenderedAt(sorted, 2 * t.value + 1);
      assert SelectIntended(id)(Rendered(sorted)[2 * t.value + 1]);
      var f := QuerySelector(Rendered(sorted), SelectIntended(id));
      RenderedAt(sorted, f.value);
      TitleIdInjective(sorted[f.value / 2].id, id);
    }
  }

  class TimelineFocus {
    const sorted: seq<TimelineEntry>
    var focusedItemIndex: int

    ghost predicate Valid()
      reads this
    {
      -1 <= focusedItemIndex < |sorted|
    }

    /** Mounting sorts a copy of the items and records no focus. */
    constructor(items: seq<TimelineEntry>)
      ensures sorted == SortedItems(items) && focusedItemIndex == -1
      ensures Valid()
    {
      sorted := SortedItems(items);
      focusedItemIndex := -1;
    }

    /** `handleItemFocus`: record where the focused item sits. */
    method HandleItemFocus(id: string)
      modifies this
      ensures focusedItemIndex == IndexOfId(sorted, id)
      ensures Valid()
    {
      focusedItemIndex := IndexOfId(sorted, id);
    }

    /** The document `keydown` listener, with the element lookup as a
        parameter. Keys pressed while focus is outside the container are
        ignored; otherwise the four navigation keys prevent the default
        scroll, and the element the lookup finds for the targeted item, if
        any, takes focus: its item reports its id, and the timeline records
        the index of the first item with that id. `focusedItem` is the
        targeted item when an element took focus. */
    method HandleKeyDownWith(select: string -> (Element -> bool), key: Key, focusInside: bool)
      returns (prevented: bool, focusedItem: Option<nat>)
      requires Valid()
      modifies this
      ensures Valid()
      ensures prevented <==> focusInside && key != OtherKey
      ensures var found := if focusInside then KeyFocus(sorted, select, key, old(focusedItemIndex)) else None;
              (found.None? ==> focusedItem.None? && focusedItemIndex == old(focusedItemIndex))
              && (found.Some? ==> focusedItem == KeyTarget(key, old(focusedItemIndex), |sorted|)
                                  && focusedItemIndex == IndexOfId(sorted, sorted[found.value / 2].id))
    {
      if !focusInside {
        return false, None;
      }
      prevented := key != OtherKey;
      var found := KeyFocus(sorted, select, key, focusedItemIndex);
      focusedItem := None;
      if found.Some? {
        focusedItem := KeyTarget(key, focusedItemIndex, |sorted|);
        HandleItemFocus(sorted[found.value / 2].id);
      }
    }

    /** The listener as written (Timeline.tsx:33-77): its selector matches
        nothing, so only the default is prevented and focus never moves. */
    method HandleKeyDownAsWritten(key: Key, focusInside: bool) returns (prevented: bool, focusedItem: Option<nat>)
      requires Valid()
      modifies this
      ensures Valid()
      ensures prevented <==> focusInside && key != OtherKey
      ensures focusedItem == None
      ensures focusedItemIndex == old(focusedItemIndex)
    {
      AsWrittenFocusesNothing(sorted, key, focusedItemIndex);
      prevented, focusedItem := HandleKeyDownWith(SelectAsWritten, key, focusInside);
    }

    /** The listener with the evidently intended selector: the targeted
        item's card takes focus and the timeline records the index of the
        first item with its id. */
    method HandleKeyDown(key: Key, focusInside: bool) returns (prevented: bool, focusedItem: Option<nat>)
      requires Valid()
      modifies this
      ensures Valid()
      ensures prevented <==> focusInside && key != OtherKey
      ensures focusedItem == (if focusInside then KeyTarget(key, old(focusedItemIndex), |sorted|) else None)
      ensures focusedItem.None? ==> focusedItemIndex == old(focusedItemIndex)
      ensures focusedItem.Some? ==> focusedItemIndex == IndexOfId(sorted, sorted[focusedItem.value].id)
    {
      IntendedFocusesTarget(sorted, key, focusedItemIndex);
      prevented, focusedItem := HandleKeyDownWith(SelectIntended, key, focusInside);
    }
  }

  /** With the intended selector and distinct ids, a navigation key inside
      the timeline leaves the focus on exactly the item it targeted. */
  method NavigateTo(t: TimelineFocus, key: Key) returns (focusedItem: Option<nat>)
    requires t.Valid() && UniqueIds(t.sorted)
    modifies t
    ensures focusedItem == KeyTarget(key, old(t.focusedItemIndex), |t.sorted|)
    ensures focusedItem.Some? ==> t.focusedItemIndex == focusedItem.value
    ensures focusedItem.None? ==> t.focusedItemIndex == old(t.focusedItemIndex)
  {
    var prevented;
    prevented, focusedItem := t.HandleKeyDown(key, true);
    if focusedItem.Some? {
      IndexOfOwnId(t.sorted, focusedItem.value);
    }
  }
}
