/** The site header (`Header.tsx`): the scrolled look, the active-section
    scan run on every scroll event, navigation by `scrollToSection` with a
    flag that blocks the scan while the page scrolls on its own, and the
    mobile menu. The page is an input: `lookup(id)` is the top of the
    bounding box of the element with that id, or `None` when there is no
    such element. The 100 ms and 1500 ms timers are explicit events. */
module Header {
  import opened Wrappers
  import opened Text

  const Sections: seq<string> := ["hero", "about", "projects", "articles", "contact"]

  /** A section is a candidate when its element exists and its top is at
      most 100 px below the viewport's top. */
  predicate Reached(lookup: string -> Option<int>, id: string) {
    lookup(id).Some? && lookup(id).value <= 100
  }

  /** The last of the first `n` sections that has been reached, if any. */
  function LastReached(lookup: string -> Option<int>, n: nat): (r: Option<nat>)
    requires n <= |Sections|
    ensures r.Some? ==> r.value < n && Reached(lookup, Sections[r.value])
    ensures r.Some? ==> forall j :: r.value < j < n ==> !Reached(lookup, Sections[j])
    ensures r.None? ==> forall j :: 0 <= j < n ==> !Reached(lookup, Sections[j])
  {
    if n == 0 then None
    else if Reached(lookup, Sections[n - 1]) then Some(n - 1)
    else LastReached(lookup, n - 1)
  }

  /** `href.replace('#', '')`: only the first `'#'` goes. */
  function RemoveFirst(s: string, c: char): (r: string)
    ensures c !in s ==> r == s
    ensures c in s ==> |r| == |s| - 1 && multiset(r) == multiset(s) - multiset{c}
    ensures c in s ==> exists i :: 0 <= i < |s| && s[i] == c && c !in s[..i] && r == s[..i] + s[i + 1..]
  {
    var i := IndexOf(s, c);
    if i == |s| then s
    else
      assert s == s[..i] + [s[i]] + s[i + 1..];
      assert s[i] == c && c !in s[..i];
      s[..i] + s[i + 1..]
  }

  /** A `#id` link yields `id`, even when `id` itself holds a `'#'`. */
  lemma RemoveLeadingHash(id: string)
    ensures RemoveFirst("#" + id, '#') == id
  {
    assert ("#" + id)[0] == '#';
  }

  /** The nav item for `href` is highlighted. */
  predicate IsActive(activeSection: string, href: string) {
    activeSection == RemoveFirst(href, '#')
  }

  class HeaderState {
    var isOpen: bool
    var activeSection: string
    var isScrolled: bool
    var isProgrammaticScroll: bool
    /** A 1500 ms flag reset is scheduled. */
    var resetPending: bool

    constructor()
      ensures !isOpen && activeSection == "hero" && !isScrolled
      ensures !isProgrammaticScroll && !resetPending
    {
      isOpen := false;
      activeSection := "hero";
      isScrolled := false;
      isProgrammaticScroll := false;
      resetPending := false;
    }

    /** `handleScroll`. The scrolled look always follows `scrollY`; the scan
        runs backwards over the sections only when the flag is off, and
        takes the last reached section, keeping the old one when no
        section is reached. */
    method HandleScroll(scrollY: int, lookup: string -> Option<int>)
      modifies this
      ensures isScrolled == (scrollY > 50)
      ensures old(isProgrammaticScroll) ==> activeSection == old(activeSection)
      ensures !old(isProgrammaticScroll) ==>
                activeSection == (match LastReached(lookup, |Sections|)
                                  case Some(k) => Sections[k]
                                  case None => old(activeSection))
      ensures isOpen == old(isOpen) && isProgrammaticScroll == old(isProgrammaticScroll)
      ensures resetPending == old(resetPending)
    {
      isScrolled := scrollY > 50;
      if isProgrammaticScroll {
        return;
      }
      var i := |Sections|;
      while i > 0
        invariant 0 <= i <= |Sections|
        invariant forall j :: i <= j < |Sections| ==> !Reached(lookup, Sections[j])
        invariant activeSection == old(activeSection)
        decreases i
      {
        var sectionId := Sections[i - 1];
        var top := lookup(sectionId);
        if top.Some? && top.value <= 100 {
          activeSection := sectionId;
          assert LastReached(lookup, |Sections|) == LastReached(lookup, i);
          return;
        }
        i := i - 1;
      }
    }

    /** `scrollToSection`: close the menu, cancel any scheduled reset, raise
        the flag and mark the target active at once. */
    method ScrollToSection(href: string)
      modifies this
      ensures activeSection == RemoveFirst(href, '#') && IsActive(activeSection, href)
      ensures !isOpen && isProgrammaticScroll && !resetPending
      ensures isScrolled == old(isScrolled)
    {
      var targetId := RemoveFirst(href, '#');
      isOpen := false;
      resetPending := false;
      isProgrammaticScroll := true;
      activeSection := targetId;
    }

    /** The 100 ms timer: when the target exists the page scrolls to it and a
        reset is scheduled; otherwise nothing is scheduled and the flag
        stays up. */
    method ScrollTimerFired(targetExists: bool)
      modifies this
      ensures resetPending == (old(resetPending) || targetExists)
      ensures isOpen == old(isOpen) && activeSection == old(activeSection)
      ensures isScrolled == old(isScrolled) && isProgrammaticScroll == old(isProgrammaticScroll)
    {
      if targetExists {
        resetPending := true;
      }
    }

    /** The 1500 ms timer, which fires only when scheduled. */
    method ResetTimerFired()
      modifies this
      ensures old(resetPending) ==> !isProgrammaticScroll && !resetPending
      ensures !old(resetPending) ==> isProgrammaticScroll == old(isProgrammaticScroll) && !resetPending
      ensures isOpen == old(isOpen) && activeSection == old(activeSection) && isScrolled == old(isScrolled)
    {
      if resetPending {
        isProgrammaticScroll := false;
        resetPending := false;
      }
    }

    /** The mobile menu button. */
    method ToggleMenu()
      modifies this
      ensures isOpen == !old(isOpen)
      ensures activeSection == old(activeSection) && isScrolled == old(isScrolled)
      ensures isProgrammaticScroll == old(isProgrammaticScroll) && resetPending == old(resetPending)
    {
      isOpen := !isOpen;
    }
  }

  /** Navigating to a section that does not exist leaves the flag up for
      good: the scan stays blocked after both timers, whatever the page. */
  method MissingTargetBlocksScan(h: HeaderState, href: string, scrollY: int, lookup: string -> Option<int>)
    modifies h
    ensures h.isProgrammaticScroll
    ensures h.activeSection == RemoveFirst(href, '#')
  {
    h.ScrollToSection(href);
    h.ScrollTimerFired(false);
    h.ResetTimerFired();
    h.HandleScroll(scrollY, lookup);
  }

  /** Navigating to an existing section re-enables the scan once the reset
      has fired. */
  method ExistingTargetReleasesScan(h: HeaderState, href: string)
    modifies h
    ensures !h.isProgrammaticScroll
    ensures h.activeSection == RemoveFirst(href, '#')
  {
    h.ScrollToSection(href);
    h.ScrollTimerFired(true);
    h.ResetTimerFired();
  }
}
