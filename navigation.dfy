/**
 * Active-section tracking: on every scroll the page looks for the first of
 * its sections whose box contains the point 100 pixels below the top of the
 * viewport, and highlights that section's navigation entry.
 *
 * `document.getElementById` is a parameter from section id to an optional
 * box; only the two layout numbers the scan reads are kept.
 */
module Navigation {
  import opened Wrappers

  /** The section ids, in the order they are tried. */
  const Sections: seq<string> := ["home", "about", "skills", "portfolio", "contact"]

  /** How far below the top of the viewport the probe point lies. */
  const ProbeOffset := 100

  /** The layout of an element: `offsetTop` and `offsetHeight`. */
  datatype Box = Box(offsetTop: int, offsetHeight: int)

  /** The element exists and its range [offsetTop, offsetTop + offsetHeight)
      contains pos. */
  predicate Covers(element: Option<Box>, pos: int)
  {
    element.Some? && element.value.offsetTop <= pos < element.value.offsetTop + element.value.offsetHeight
  }

  /** The index of the first section whose element covers pos, if any. */
  function FirstCovering(sections: seq<string>, lookup: string -> Option<Box>, pos: int): (r: Option<nat>)
    ensures r.Some? ==> r.value < |sections| && Covers(lookup(sections[r.value]), pos)
    ensures r.Some? ==> forall j | 0 <= j < r.value :: !Covers(lookup(sections[j]), pos)
    ensures r.None? <==> forall j | 0 <= j < |sections| :: !Covers(lookup(sections[j]), pos)
  {
    if sections == [] then None
    else if Covers(lookup(sections[0]), pos) then Some(0)
    else match FirstCovering(sections[1..], lookup, pos)
      case None => None
      case Some(k) => Some(k + 1)
  }

  /** When the probe point lies in exactly one section's box, as it does
      on a page whose sections do not overlap, the order of the list does not
      matter: that section is the one selected. */
  lemma OnlyCoveringSectionIsSelected(sections: seq<string>, lookup: string -> Option<Box>, pos: int, k: nat)
    requires k < |sections| && Covers(lookup(sections[k]), pos)
    requires forall j | 0 <= j < |sections| && j != k :: !Covers(lookup(sections[j]), pos)
    ensures FirstCovering(sections, lookup, pos) == Some(k)
  {
  }

  class NavState {
    var activeSection: string

    ghost predicate Valid()
      reads this
    {
      activeSection in Sections
    }

    constructor ()
      ensures Valid() && activeSection == "home"
    {
      activeSection := "home";
    }

    /** `handleScroll`: the first section, in order, whose element covers
        `scrollY + 100` becomes active; missing elements are skipped, and
        when none covers the point the active section stays. */
    method HandleScroll(scrollY: int, lookup: string -> Option<Box>)
      requires Valid()
      modifies this`activeSection
      ensures Valid()
      ensures match FirstCovering(Sections, lookup, scrollY + ProbeOffset)
              case Some(k) => activeSection == Sections[k]
              case None => activeSection == old(activeSection)
    {
      var scrollPosition := scrollY + ProbeOffset;
      for i := 0 to |Sections|
        invariant forall j | 0 <= j < i :: !Covers(lookup(Sections[j]), scrollPosition)
        invariant activeSection == old(activeSection)
      {
        var element := lookup(Sections[i]);
        if element.Some? {
          var box := element.value;
          if scrollPosition >= box.offsetTop && scrollPosition < box.offsetTop + box.offsetHeight {
            activeSection := Sections[i];
            break;
          }
        }
      }
    }
  }
}
