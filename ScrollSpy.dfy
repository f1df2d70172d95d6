/**
 * The scroll-spy of the order-documentation page: which navigation item's section
 * contains the probe line `scrollY + 170`. The sections' offsets are read from the live
 * elements at every scroll event, so they are an input of each event; which sections
 * are mounted is what the ref callbacks recorded. Offsets are whole pixels here.
 */
module ScrollSpy {

  import opened Options

  /** The geometry an element reports at the moment of a scroll event. */
  datatype Element = Element(offsetTop: int, offsetHeight: int)

  /** A navigation entry; `caption` is the source's `label`, which is a keyword in Dafny. */
  datatype NavItem = NavItem(id: string, caption: string)

  /** `sectionRefs.current`: `true` while an element is mounted, `false` once the ref was set to `null`. */
  type SectionRefs = map<string, bool>

  /** The offsets of the mounted elements as read at one scroll event (they move as accordions open and close). */
  type Layout = string -> Element

  /** The probe line sits 170 pixels below the top of the viewport (the fixed header). */
  const ProbeOffset: int := 170

  const NavigationItems: seq<NavItem> := [
    NavItem("overview", "Overview"),
    NavItem("architecture", "Architecture"),
    NavItem("infrastructure", "AWS Infra"),
    NavItem("dataflows", "Data Flows"),
    NavItem("decisions", "Decisions"),
    NavItem("security", "Security"),
    NavItem("limitations", "Limitations")
  ]

  function Probe(scrollY: int): int {
    scrollY + ProbeOffset
  }

  /** The half-open interval `[offsetTop, offsetTop + offsetHeight)` contains the probe. */
  predicate Covers(e: Element, probe: int) {
    e.offsetTop <= probe < e.offsetTop + e.offsetHeight
  }

  /** The section of `id` is mounted and, as laid out now, covers the probe. */
  predicate Hits(refs: SectionRefs, layout: Layout, id: string, probe: int) {
    id in refs && refs[id] && Covers(layout(id), probe)
  }

  /** The index of the first item, in navigation order, whose section covers the probe. */
  function FirstHit(items: seq<NavItem>, refs: SectionRefs, layout: Layout, probe: int): (r: Option<nat>)
    ensures r.Some? ==> r.value < |items| && Hits(refs, layout, items[r.value].id, probe)
    ensures r.Some? ==> forall j :: 0 <= j < r.value ==> !Hits(refs, layout, items[j].id, probe)
    ensures r.None? ==> forall j :: 0 <= j < |items| ==> !Hits(refs, layout, items[j].id, probe)
  {
    if items == [] then None
    else if Hits(refs, layout, items[0].id, probe) then Some(0)
    else match FirstHit(items[1..], refs, layout, probe)
      case None => None
      case Some(k) => Some(k + 1)
  }

  /** Scanning from item `i`: a hit there is the first hit; a miss defers to the items after it. */
  lemma FirstHitFrom(items: seq<NavItem>, refs: SectionRefs, layout: Layout, probe: int, i: nat)
    requires i < |items|
    ensures Hits(refs, layout, items[i].id, probe) ==> FirstHit(items[i..], refs, layout, probe) == Some(0)
    ensures !Hits(refs, layout, items[i].id, probe) ==>
      (FirstHit(items[i..], refs, layout, probe).Some? <==> FirstHit(items[i + 1..], refs, layout, probe).Some?)
    ensures !Hits(refs, layout, items[i].id, probe) && FirstHit(items[i + 1..], refs, layout, probe).Some? ==>
      FirstHit(items[i..], refs, layout, probe).value == FirstHit(items[i + 1..], refs, layout, probe).value + 1
  {
    assert items[i..][0] == items[i];
    assert items[i..][1..] == items[i + 1..];
  }

  /**
   * The active section after a scroll event handled by an up-to-date listener: the first
   * hit, or the current one when nothing hits. A change only ever lands on a hitting item.
   */
  function NextActive(current: string, items: seq<NavItem>, refs: SectionRefs, layout: Layout, probe: int): (r: string)
    ensures r != current ==> exists k :: 0 <= k < |items| && items[k].id == r && Hits(refs, layout, r, probe)
  {
    match FirstHit(items, refs, layout, probe)
    case Some(k) => items[k].id
    case None => current
  }

  /**
   * One run of a listener that closed over the active section `seen`: on the first hit it
   * sets that item only when the item differs from `seen`, then stops.
   */
  function ListenerResult(current: string, seen: string, items: seq<NavItem>, refs: SectionRefs, layout: Layout, probe: int): (r: string)
    ensures r != current ==> r != seen && exists k :: 0 <= k < |items| && items[k].id == r && Hits(refs, layout, r, probe)
  {
    match FirstHit(items, refs, layout, probe)
    case Some(k) => if items[k].id != seen then items[k].id else current
    case None => current
  }

  /** No two mounted sections of the listed items cover a common line. */
  ghost predicate Disjoint(items: seq<NavItem>, refs: SectionRefs, layout: Layout) {
    forall i, j, p ::
      (0 <= i < |items| && 0 <= j < |items| && items[i].id != items[j].id
       && Hits(refs, layout, items[i].id, p)) ==> !Hits(refs, layout, items[j].id, p)
  }

  /**
   * The result is characterised by the first-hit rule: the chosen item hits and every
   * earlier one misses; with no hit at all the active section stays as it was.
   */
  lemma NextActiveIsFirstHit(current: string, items: seq<NavItem>, refs: SectionRefs, layout: Layout, probe: int, k: nat)
    requires k < |items| && Hits(refs, layout, items[k].id, probe)
    requires forall j :: 0 <= j < k ==> !Hits(refs, layout, items[j].id, probe)
    ensures NextActive(current, items, refs, layout, probe) == items[k].id
  {
  }

  lemma NoHitKeepsActive(current: string, items: seq<NavItem>, refs: SectionRefs, layout: Layout, probe: int)
    requires forall j :: 0 <= j < |items| ==> !Hits(refs, layout, items[j].id, probe)
    ensures NextActive(current, items, refs, layout, probe) == current
  {
  }

  /** An item whose section is not mounted never becomes active through the scroll-spy, whatever the layout. */
  lemma UnregisteredSkipped(current: string, items: seq<NavItem>, refs: SectionRefs, layout: Layout, probe: int, id: string)
    requires id !in refs || !refs[id]
    requires id != current
    ensures NextActive(current, items, refs, layout, probe) != id
  {
  }

  /** When sections do not overlap, navigation order does not matter: any hitting item is chosen. */
  lemma DisjointAnyHitWins(current: string, items: seq<NavItem>, refs: SectionRefs, layout: Layout, probe: int, k: nat)
    requires Disjoint(items, refs, layout)
    requires k < |items| && Hits(refs, layout, items[k].id, probe)
    ensures NextActive(current, items, refs, layout, probe) == items[k].id
  {
    var r := FirstHit(items, refs, layout, probe);
    assert r.Some?;
  }

  /** A listener that closed over the current active section behaves as the first-hit rule says. */
  lemma FreshListenerIsNextActive(current: string, items: seq<NavItem>, refs: SectionRefs, layout: Layout, probe: int)
    ensures ListenerResult(current, current, items, refs, layout, probe) == NextActive(current, items, refs, layout, probe)
  {
  }

  /**
   * A stale listener, one that closed over an older active section, skips the update when
   * the first hit is that older section: the newer section stays active although the probe
   * is back in the older one.
   */
  lemma StaleListenerKeepsNewer(current: string, seen: string, items: seq<NavItem>, refs: SectionRefs, layout: Layout, probe: int, k: nat)
    requires k < |items| && Hits(refs, layout, items[k].id, probe)
    requires forall j :: 0 <= j < k ==> !Hits(refs, layout, items[j].id, probe)
    requires items[k].id == seen && seen != current
    ensures ListenerResult(current, seen, items, refs, layout, probe) == current
    ensures ListenerResult(current, seen, items, refs, layout, probe) != NextActive(current, items, refs, layout, probe)
  {
    NextActiveIsFirstHit(current, items, refs, layout, probe, k);
  }
}
