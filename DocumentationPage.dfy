/**
 * The state of the order-documentation page component: the active navigation
 * section, the expanded decision / infrastructure-layer / pattern lists, the
 * per-layer expanded subcategories, which section elements are mounted, and the
 * active section the subscribed scroll listener closed over.
 * Each React setter call is a method that reassigns one field.
 */
module DocumentationPage {

  import opened Options
  import opened ExpandedSet
  import opened ScrollSpy

  class Page {
    var activeSection: string
    var expandedDecisions: seq<int>
    var expandedInfrastructure: seq<int>
    var expandedPatterns: seq<int>
    var expandedSubcategories: map<int, seq<int>>
    var sectionRefs: SectionRefs
    /**
     * The `activeSection` captured by the scroll listener now subscribed. The effect
     * that subscribes it re-runs only after a render with a new `activeSection`, so in
     * between the listener compares against an older value.
     */
    var listenerActive: string
    /** The navigation list the component declares, in display order. */
    const navigationItems: seq<NavItem>

    /** Every expanded list is duplicate-free; the toggles keep it so. */
    ghost predicate Valid()
      reads this
    {
      && NoDup(expandedDecisions)
      && NoDup(expandedInfrastructure)
      && NoDup(expandedPatterns)
      && forall k :: k in expandedSubcategories ==> NoDup(expandedSubcategories[k])
    }

    /** First decision, layer and pattern open; every subcategory closed; "overview" active. */
    constructor ()
      ensures Valid()
      ensures activeSection == "overview"
      ensures expandedDecisions == [0] && expandedInfrastructure == [0] && expandedPatterns == [0]
      ensures expandedSubcategories == map[]
      ensures sectionRefs == map[]
      ensures listenerActive == "overview"
      ensures navigationItems == NavigationItems
      ensures forall l, s :: !SubExpanded(l, s)
    {
      navigationItems := NavigationItems;
      activeSection := "overview";
      expandedDecisions := [0];
      expandedInfrastructure := [0];
      expandedSubcategories := map[];
      expandedPatterns := [0];
      sectionRefs := map[];
      listenerActive := "overview";
    }

    /** `expandedSubcategories[layerIdx]?.includes(subIdx) ?? false`. */
    predicate SubExpanded(layerIdx: int, subIdx: int)
      reads this
      ensures SubExpanded(layerIdx, subIdx) ==> layerIdx in expandedSubcategories
    {
      IsSubExpanded(expandedSubcategories, layerIdx, subIdx)
    }

    /** The ref callback of a section: `sectionRefs.current[id] = el`, with `mounted` false for `null`. */
    method AttachSection(id: string, mounted: bool)
      modifies this
      ensures sectionRefs == old(sectionRefs)[id := mounted]
      ensures listenerActive == old(listenerActive)
      ensures activeSection == old(activeSection)
      ensures expandedDecisions == old(expandedDecisions)
      ensures expandedInfrastructure == old(expandedInfrastructure)
      ensures expandedPatterns == old(expandedPatterns)
      ensures expandedSubcategories == old(expandedSubcategories)
    {
      sectionRefs := sectionRefs[id := mounted];
    }

    /** A navigation click activates `sectionId`, registered or not; scrolling into view is a browser effect. */
    method ScrollToSection(sectionId: string)
      modifies this
      ensures activeSection == sectionId
      ensures sectionRefs == old(sectionRefs) && listenerActive == old(listenerActive)
      ensures expandedDecisions == old(expandedDecisions)
      ensures expandedInfrastructure == old(expandedInfrastructure)
      ensures expandedPatterns == old(expandedPatterns)
      ensures expandedSubcategories == old(expandedSubcategories)
    {
      activeSection := sectionId;
    }

    method ToggleDecision(index: int)
      modifies this
      ensures old(Valid()) ==> Valid()
      ensures expandedDecisions == Toggle(old(expandedDecisions), index)
      ensures index !in old(expandedDecisions) ==> |expandedDecisions| == |old(expandedDecisions)| + 1
      ensures old(Valid()) && index in old(expandedDecisions) ==> |expandedDecisions| == |old(expandedDecisions)| - 1
      ensures activeSection == old(activeSection) && sectionRefs == old(sectionRefs)
      ensures listenerActive == old(listenerActive)
      ensures expandedInfrastructure == old(expandedInfrastructure)
      ensures expandedPatterns == old(expandedPatterns)
      ensures expandedSubcategories == old(expandedSubcategories)
    {
      if index in expandedDecisions {
        TogglePresentRemoves(expandedDecisions, index);
      } else {
        ToggleAbsentAppends(expandedDecisions, index);
      }
      if Valid() {
        ToggleNoDup(expandedDecisions, index);
      }
      expandedDecisions := Toggle(expandedDecisions, index);
    }

    method ToggleInfrastructure(index: int)
      modifies this
      ensures old(Valid()) ==> Valid()
      ensures expandedInfrastructure == Toggle(old(expandedInfrastructure), index)
      ensures index !in old(expandedInfrastructure) ==> |expandedInfrastructure| == |old(expandedInfrastructure)| + 1
      ensures old(Valid()) && index in old(expandedInfrastructure) ==> |expandedInfrastructure| == |old(expandedInfrastructure)| - 1
      ensures activeSection == old(activeSection) && sectionRefs == old(sectionRefs)
      ensures listenerActive == old(listenerActive)
      ensures expandedDecisions == old(expandedDecisions)
      ensures expandedPatterns == old(expandedPatterns)
      ensures expandedSubcategories == old(expandedSubcategories)
    {
      if index in expandedInfrastructure {
        TogglePresentRemoves(expandedInfrastructure, index);
      } else {
        ToggleAbsentAppends(expandedInfrastructure, index);
      }
      if Valid() {
        ToggleNoDup(expandedInfrastructure, index);
      }
      expandedInfrastructure := Toggle(expandedInfrastructure, index);
    }

    /** The inline `setExpandedPatterns(prev => ...)` of a design-pattern card. */
    method TogglePattern(index: int)
      modifies this
      ensures old(Valid()) ==> Valid()
      ensures expandedPatterns == Toggle(old(expandedPatterns), index)
      ensures index !in old(expandedPatterns) ==> |expandedPatterns| == |old(expandedPatterns)| + 1
      ensures old(Valid()) && index in old(expandedPatterns) ==> |expandedPatterns| == |old(expandedPatterns)| - 1
      ensures activeSection == old(activeSection) && sectionRefs == old(sectionRefs)
      ensures listenerActive == old(listenerActive)
      ensures expandedDecisions == old(expandedDecisions)
      ensures expandedInfrastructure == old(expandedInfrastructure)
      ensures expandedSubcategories == old(expandedSubcategories)
    {
      if index in expandedPatterns {
        TogglePresentRemoves(expandedPatterns, index);
      } else {
        ToggleAbsentAppends(expandedPatterns, index);
      }
      if Valid() {
        ToggleNoDup(expandedPatterns, index);
      }
      expandedPatterns := Toggle(expandedPatterns, index);
    }

    method ToggleSubcategory(layerIdx: int, subIdx: int)
      modifies this
      ensures old(Valid()) ==> Valid()
      ensures expandedSubcategories == ToggleEntry(old(expandedSubcategories), layerIdx, subIdx)
      ensures forall l, s :: SubExpanded(l, s) == (old(SubExpanded(l, s)) != (l == layerIdx && s == subIdx))
      ensures activeSection == old(activeSection) && sectionRefs == old(sectionRefs)
      ensures listenerActive == old(listenerActive)
      ensures expandedDecisions == old(expandedDecisions)
      ensures expandedInfrastructure == old(expandedInfrastructure)
      ensures expandedPatterns == old(expandedPatterns)
    {
      if Valid() {
        ToggleNoDup(Entry(expandedSubcategories, layerIdx), subIdx);
      }
      expandedSubcategories := ToggleEntry(expandedSubcategories, layerIdx, subIdx);
    }

    /**
     * The `[activeSection]` effect re-runs after a render: the old listener is removed and
     * a new one, closing over the current `activeSection`, is added.
     */
    method RerunScrollEffect()
      modifies this
      ensures listenerActive == activeSection
      ensures activeSection == old(activeSection) && sectionRefs == old(sectionRefs)
      ensures expandedDecisions == old(expandedDecisions)
      ensures expandedInfrastructure == old(expandedInfrastructure)
      ensures expandedPatterns == old(expandedPatterns)
      ensures expandedSubcategories == old(expandedSubcategories)
    {
      listenerActive := activeSection;
    }

    /**
     * The scroll listener: walk the navigation items in order, skip unmounted ones, and
     * at the first whose section, as laid out now, covers `scrollY + 170`, set it unless
     * it equals the active section the listener closed over; then stop.
     */
    method HandleScroll(scrollY: int, layout: Layout)
      modifies this
      ensures activeSection == ListenerResult(old(activeSection), listenerActive, navigationItems, sectionRefs, layout, Probe(scrollY))
      ensures sectionRefs == old(sectionRefs) && listenerActive == old(listenerActive)
      ensures expandedDecisions == old(expandedDecisions)
      ensures expandedInfrastructure == old(expandedInfrastructure)
      ensures expandedPatterns == old(expandedPatterns)
      ensures expandedSubcategories == old(expandedSubcategories)
    {
      var scrollPosition := scrollY + ProbeOffset;
      var i := 0;
      ghost var target := ListenerResult(old(activeSection), listenerActive, navigationItems, sectionRefs, layout, scrollPosition);
      while i < |navigationItems|
        invariant 0 <= i <= |navigationItems|
        invariant activeSection == old(activeSection) && sectionRefs == old(sectionRefs)
        invariant listenerActive == old(listenerActive)
        invariant expandedDecisions == old(expandedDecisions) && expandedInfrastructure == old(expandedInfrastructure)
        invariant expandedPatterns == old(expandedPatterns) && expandedSubcategories == old(expandedSubcategories)
        invariant FirstHit(navigationItems[i..], sectionRefs, layout, scrollPosition).Some? ==>
          var id := navigationItems[i + FirstHit(navigationItems[i..], sectionRefs, layout, scrollPosition).value].id;
          target == if id != listenerActive then id else activeSection
        invariant FirstHit(navigationItems[i..], sectionRefs, layout, scrollPosition).None? ==> target == activeSection
        decreases |navigationItems| - i
      {
        var item := navigationItems[i];
        FirstHitFrom(navigationItems, sectionRefs, layout, scrollPosition, i);
        if item.id in sectionRefs && sectionRefs[item.id] {
          var element := layout(item.id);
          var offsetTop := element.offsetTop;
          var offsetHeight := element.offsetHeight;
          if scrollPosition >= offsetTop && scrollPosition < offsetTop + offsetHeight {
            if listenerActive != item.id {
              activeSection := item.id;
            }
            break;
          }
        }
        i := i + 1;
      }
    }
  }
}
