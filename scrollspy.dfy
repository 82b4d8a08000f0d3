/**
 * The scroll-spy of js/main.js (`initScrollSpy`): which section counts as
 * the one being read, and which navigation link carries `active`.
 *
 * Two signals pick a section.  The intersection-observer callback takes the
 * entry with the highest intersection ratio (ties: smallest top).  The
 * scroll routine forces `home` near the top of the page and otherwise takes
 * the section with the highest weighted visible ratio.  Both mark links the
 * same guarded way, and a `ticking` flag lets at most one scroll
 * recomputation wait for the next animation frame.
 *
 * Browser objects are values here: an observer entry, a section's bounding
 * rectangle and the viewport are inputs, the links are a sequence of
 * (href, active) pairs, and ratios are exact reals.
 */
module ScrollSpy {
  import opened Wrappers

  /** Below this scroll offset (px) the home link is forced active. */
  const HomeScrollLimit: real := 100.0
  /** A section must show more than this fraction of its height to qualify. */
  const MinVisibleRatio: real := 0.1
  /** Weight of a section whose top lies in the upper half of the window. */
  const UpperHalfBias: real := 1.2
  /** `offsetHeight || 80`: the fallback height of the navigation bar. */
  const DefaultNavHeight: nat := 80
  /** Space below the navigation bar that still counts as covered. */
  const NavClearance: nat := 20
  const HomeId: string := "home"

  /** An `IntersectionObserverEntry`: target id, whether it intersects, ratio, `boundingClientRect.top`. */
  datatype Entry = Entry(id: string, isIntersecting: bool, ratio: real, top: real)
  /** A section with its bounding rectangle: `top` relative to the viewport, and height. */
  datatype Section = Section(id: string, top: real, height: real)
  /** `window.scrollY`, `window.innerHeight` and the measured `#mainNav` height (None without that element). */
  datatype Viewport = Viewport(scrollY: real, windowHeight: real, navMeasured: Option<nat>)
  /** A `.nav-link` element: its `href` attribute and whether it has class `active`. */
  datatype Link = Link(href: string, active: bool)
  /** The spy's closure state: `currentActive` and the links. */
  datatype Spy = Spy(currentActive: string, links: seq<Link>)

  /** `document.querySelector('#mainNav')?.offsetHeight || 80`. */
  function NavHeight(measured: Option<nat>): (h: nat)
    ensures h > 0
    ensures measured.Some? && measured.value > 0 ==> h == measured.value
    ensures !(measured.Some? && measured.value > 0) ==> h == DefaultNavHeight
  {
    if measured.Some? && measured.value != 0 then measured.value else DefaultNavHeight
  }

  // ---------------------------------------------------------------------
  // Links

  predicate AtMostOneActive(links: seq<Link>) {
    forall i, j :: 0 <= i < |links| && 0 <= j < |links| && links[i].active && links[j].active ==> i == j
  }

  predicate HasLink(links: seq<Link>, href: string) {
    exists i :: 0 <= i < |links| && links[i].href == href
  }

  /** `querySelector('.nav-link[href="…"]')`: the first link in document order with that href. */
  function FirstWithHref(links: seq<Link>, href: string): (r: Option<nat>)
    ensures r.Some? ==> r.value < |links| && links[r.value].href == href
                        && forall j :: 0 <= j < r.value ==> links[j].href != href
    ensures r.None? <==> !HasLink(links, href)
  {
    if links == [] then None
    else if links[0].href == href then Some(0)
    else match FirstWithHref(links[1..], href)
      case None => assert forall j :: 1 <= j < |links| ==> links[j] == links[1..][j - 1]; None
      case Some(k) => Some(k + 1)
  }

  /** Every link with `active` removed. */
  function Cleared(links: seq<Link>): (r: seq<Link>)
    ensures |r| == |links|
    ensures forall i :: 0 <= i < |r| ==> r[i] == Link(links[i].href, false)
  {
    seq(|links|, i requires 0 <= i < |links| => Link(links[i].href, false))
  }

  /**
   * Every link loses `active`, then the first link whose href is `#id`
   * gains it: afterwards exactly that link is active, or none if there is
   * no such link.
   */
  function Marked(links: seq<Link>, id: string): (r: seq<Link>)
    ensures |r| == |links|
    ensures forall i :: 0 <= i < |r| ==> r[i].href == links[i].href
    ensures forall i :: 0 <= i < |r| ==>
              (r[i].active <==> links[i].href == "#" + id && forall j :: 0 <= j < i ==> links[j].href != "#" + id)
    ensures AtMostOneActive(r)
    ensures HasLink(links, "#" + id) <==> exists i :: 0 <= i < |r| && r[i].active
  {
    var c := Cleared(links);
    match FirstWithHref(links, "#" + id)
    case None => c
    case Some(k) =>
      var r := c[k := Link(links[k].href, true)];
      assert forall i :: 0 <= i < |r| ==> (r[i].active <==> i == k);
      r
  }

  /** Every active link points at the section recorded as current. */
  predicate PointsAtCurrent(s: Spy) {
    forall i :: 0 <= i < |s.links| && s.links[i].active ==> s.links[i].href == "#" + s.currentActive
  }

  /** The settled-state invariant: at most one link is active, and it is the current section's. */
  predicate Settled(s: Spy) {
    AtMostOneActive(s.links) && PointsAtCurrent(s)
  }

  /**
   * The guarded marking shared by both signals: nothing is written when
   * `id` is already current; otherwise `id` becomes current and the links
   * are re-marked for it.
   */
  function Activated(s: Spy, id: string): (r: Spy)
    ensures r.currentActive == id
    ensures s.currentActive == id ==> r.links == s.links
    ensures s.currentActive != id ==> r.links == Marked(s.links, id)
    ensures Settled(s) ==> Settled(r)
    ensures s.currentActive != id ==> Settled(r)
  {
    if s.currentActive == id then s else Spy(id, Marked(s.links, id))
  }

  /** Whether the guarded marking writes to the links at all. */
  predicate ActivationWrites(s: Spy, id: string) {
    s.currentActive != id
  }

  /** Marking the same section twice: the second time changes and writes nothing. */
  lemma ActivateTwice(s: Spy, id: string)
    ensures Activated(Activated(s, id), id) == Activated(s, id)
    ensures !ActivationWrites(Activated(s, id), id)
  {
  }

  // ---------------------------------------------------------------------
  // Intersection-observer callback

  /** `entries.filter(entry => entry.isIntersecting)`, order kept. */
  function Intersecting(entries: seq<Entry>): (r: seq<Entry>)
    ensures |r| <= |entries|
    ensures forall e :: e in r <==> e in entries && e.isIntersecting
  {
    if entries == [] then []
    else
      assert entries == [entries[0]] + entries[1..];
      (if entries[0].isIntersecting then [entries[0]] else []) + Intersecting(entries[1..])
  }

  /**
   * The filter keeps the list's order: filtering a concatenation is
   * concatenating the filtered halves.
   */
  lemma {:induction false} IntersectingAppend(a: seq<Entry>, b: seq<Entry>)
    ensures Intersecting(a + b) == Intersecting(a) + Intersecting(b)
    decreases |a|
  {
    if a != [] {
      assert (a + b)[0] == a[0] && (a + b)[1..] == a[1..] + b;
      IntersectingAppend(a[1..], b);
    } else {
      assert a + b == b;
    }
  }

  /** `a` sorts strictly before `b`: higher ratio, or equal ratio and smaller top. */
  predicate Precedes(a: Entry, b: Entry) {
    a.ratio > b.ratio || (a.ratio == b.ratio && a.top < b.top)
  }

  /**
   * The element a stable sort by the callback's comparator puts first: no
   * entry sorts strictly before it, and it sorts strictly before every
   * entry that comes earlier in the list.
   */
  function Best(es: seq<Entry>): (i: nat)
    requires |es| > 0
    ensures i < |es|
    ensures forall j :: 0 <= j < |es| ==> !Precedes(es[j], es[i])
    ensures forall j :: 0 <= j < i ==> Precedes(es[i], es[j])
    decreases |es|
  {
    if |es| == 1 then 0
    else
      var k := 1 + Best(es[1..]);
      assert forall j :: 1 <= j < |es| ==> es[j] == es[1..][j - 1];
      if Precedes(es[k], es[0]) then k else 0
  }

  /** The id the callback settles on, if any entry intersects. */
  function ObservedId(entries: seq<Entry>): (r: Option<string>)
    ensures r.None? <==> forall e :: e in entries ==> !e.isIntersecting
    ensures r.Some? ==> exists e :: e in entries && e.isIntersecting && e.id == r.value
                          && forall e' :: e' in entries && e'.isIntersecting ==> !Precedes(e', e)
  {
    var hits := Intersecting(entries);
    if hits == [] then None
    else
      var b := Best(hits);
      assert hits[b] in hits;
      assert forall e' :: e' in hits ==> exists j :: 0 <= j < |hits| && hits[j] == e';
      Some(hits[b].id)
  }

  predicate SomeIntersecting(entries: seq<Entry>) {
    exists j :: 0 <= j < |entries| && entries[j].isIntersecting
  }

  /**
   * The winner picked directly from the callback's list: an intersecting
   * entry that no intersecting entry sorts before, and that sorts strictly
   * before every earlier intersecting entry, so that of entries tied on
   * ratio and top the earliest wins.
   */
  function EarliestBest(entries: seq<Entry>): (i: nat)
    requires SomeIntersecting(entries)
    ensures i < |entries| && entries[i].isIntersecting
    ensures forall j :: 0 <= j < |entries| && entries[j].isIntersecting ==> !Precedes(entries[j], entries[i])
    ensures forall j :: 0 <= j < i && entries[j].isIntersecting ==> Precedes(entries[i], entries[j])
    decreases |entries|
  {
    assert forall j :: 1 <= j < |entries| ==> entries[j] == entries[1..][j - 1];
    if !entries[0].isIntersecting then
      1 + EarliestBest(entries[1..])
    else if !SomeIntersecting(entries[1..]) then
      0
    else
      var k := 1 + EarliestBest(entries[1..]);
      if Precedes(entries[k], entries[0]) then k else 0
  }

  /** A leading entry that does not intersect is skipped by both pickers. */
  lemma SkipLeading(entries: seq<Entry>)
    requires |entries| > 0 && !entries[0].isIntersecting && SomeIntersecting(entries)
    ensures SomeIntersecting(entries[1..])
    ensures Intersecting(entries) == Intersecting(entries[1..])
    ensures entries[EarliestBest(entries)] == entries[1..][EarliestBest(entries[1..])]
  {
    var rest := entries[1..];
    assert entries == [entries[0]] + rest;
    var j :| 0 <= j < |entries| && entries[j].isIntersecting;
    assert rest[j - 1] == entries[j];
  }

  /** An intersecting entry followed by none is what both pickers pick. */
  lemma LoneLeading(entries: seq<Entry>)
    requires |entries| > 0 && entries[0].isIntersecting && !SomeIntersecting(entries[1..])
    ensures Intersecting(entries) == [entries[0]]
    ensures EarliestBest(entries) == 0
  {
    var rest := entries[1..];
    assert entries == [entries[0]] + rest;
    assert forall e :: e in rest ==> !e.isIntersecting;
  }

  /** An intersecting leading entry heads the filtered list. */
  lemma KeepLeading(entries: seq<Entry>)
    requires |entries| > 0 && entries[0].isIntersecting
    ensures Intersecting(entries) == [entries[0]] + Intersecting(entries[1..])
  {
    assert entries == [entries[0]] + entries[1..];
  }

  /** With two or more entries, `Best` compares the head with the pick from the rest. */
  lemma BestStep(es: seq<Entry>)
    requires |es| > 1
    ensures var k := 1 + Best(es[1..]);
            Best(es) == (if Precedes(es[k], es[0]) then k else 0)
  {
  }

  /** With an intersecting head and more after it, `EarliestBest` compares the two. */
  lemma EarliestBestStep(entries: seq<Entry>)
    requires |entries| > 0 && entries[0].isIntersecting && SomeIntersecting(entries[1..])
    ensures var k := 1 + EarliestBest(entries[1..]);
            EarliestBest(entries) == (if Precedes(entries[k], entries[0]) then k else 0)
  {
  }

  /**
   * Filtering and then taking the head of the stable sort picks the entry
   * `EarliestBest` picks from the unfiltered list.
   */
  lemma {:induction false} BestOfIntersecting(entries: seq<Entry>)
    requires SomeIntersecting(entries)
    ensures Intersecting(entries) != []
    ensures Intersecting(entries)[Best(Intersecting(entries))] == entries[EarliestBest(entries)]
    decreases |entries|
  {
    var rest := entries[1..];
    if !entries[0].isIntersecting {
      SkipLeading(entries);
      BestOfIntersecting(rest);
    } else if !SomeIntersecting(rest) {
      LoneLeading(entries);
    } else {
      BestOfIntersecting(rest);
      KeepLeading(entries);
      var hits := Intersecting(entries);
      assert hits[1..] == Intersecting(rest);
      BestStep(hits);
      EarliestBestStep(entries);
      assert hits[1 + Best(hits[1..])] == rest[EarliestBest(rest)] == entries[1 + EarliestBest(rest)];
    }
  }

  /** `ObservedId` reports the id of the entry `EarliestBest` picks. */
  lemma ObservedIdIsEarliestBest(entries: seq<Entry>)
    requires SomeIntersecting(entries)
    ensures ObservedId(entries) == Some(entries[EarliestBest(entries)].id)
  {
    BestOfIntersecting(entries);
  }

  /**
   * `observerCallback`: with no intersecting entry nothing changes;
   * otherwise the most visible entry's section is marked, guarded.
   */
  function Observed(s: Spy, entries: seq<Entry>): (r: Spy)
    ensures ObservedId(entries).None? ==> r == s
    ensures ObservedId(entries).Some? ==> r == Activated(s, ObservedId(entries).value)
    ensures Settled(s) ==> Settled(r)
  {
    match ObservedId(entries)
    case None => s
    case Some(id) => Activated(s, id)
  }

  // ---------------------------------------------------------------------
  // Scroll routine

  function Max(a: real, b: real): real { if a < b then b else a }
  function Min(a: real, b: real): real { if a < b then a else b }

  /**
   * The fraction of a section's height that is visible between the bottom
   * of the navigation bar (plus clearance) and the bottom of the window.
   */
  function VisibleRatio(s: Section, v: Viewport): (r: real)
    requires s.height > 0.0
    ensures 0.0 <= r <= 1.0
  {
    var visibleTop := Max(s.top, (NavHeight(v.navMeasured) + NavClearance) as real);
    var visibleBottom := Min(s.top + s.height, v.windowHeight);
    var visibleHeight := Max(0.0, visibleBottom - visibleTop);
    visibleHeight / s.height
  }

  /**
   * Whether a section can be chosen: more than 10% of it is visible.  A
   * section of height 0 divides 0 by 0 in the source, and the resulting NaN
   * fails every comparison, so it never qualifies.
   */
  predicate Qualifies(s: Section, v: Viewport) {
    s.height > 0.0 && VisibleRatio(s, v) > MinVisibleRatio
  }

  /** The weighted ratio: sections whose top is in the upper half of the window weigh 1.2. */
  function Score(s: Section, v: Viewport): (r: real)
    ensures Qualifies(s, v) ==> r > MinVisibleRatio
  {
    if s.height > 0.0 then
      VisibleRatio(s, v) * (if s.top < v.windowHeight * 0.5 then UpperHalfBias else 1.0)
    else 0.0
  }

  /**
   * The winner of the scroll routine's loop over the sections in document
   * order: a qualifying section of maximal score, the earliest of equals
   * (the loop replaces its candidate only on a strictly greater score), or
   * none when no section qualifies.
   */
  function Pick(ss: seq<Section>, v: Viewport): (r: Option<nat>)
    ensures r.None? <==> forall i :: 0 <= i < |ss| ==> !Qualifies(ss[i], v)
    ensures r.Some? ==> r.value < |ss| && Qualifies(ss[r.value], v)
    ensures r.Some? ==> forall j :: 0 <= j < |ss| && Qualifies(ss[j], v) ==> Score(ss[j], v) <= Score(ss[r.value], v)
    ensures r.Some? ==> forall j :: 0 <= j < r.value && Qualifies(ss[j], v) ==> Score(ss[j], v) < Score(ss[r.value], v)
    decreases |ss|
  {
    if ss == [] then None
    else
      var last := |ss| - 1;
      var p := Pick(ss[..last], v);
      assert forall j :: 0 <= j < last ==> ss[..last][j] == ss[j];
      var best := if p.None? then 0.0 else Score(ss[p.value], v);
      if Score(ss[last], v) > best && Qualifies(ss[last], v) then Some(last) else p
  }

  /** The loop of `updateActiveOnScroll` over the sections, with its running maximum. */
  method MostVisibleSection(sections: seq<Section>, v: Viewport) returns (r: Option<nat>)
    ensures r == Pick(sections, v)
  {
    var maxVisibleRatio := 0.0;
    r := None;
    for i := 0 to |sections|
      invariant r == Pick(sections[..i], v)
      invariant maxVisibleRatio == if r.None? then 0.0 else Score(sections[r.value], v)
    {
      assert sections[..i + 1][..i] == sections[..i];
      var section := sections[i];
      if section.height > 0.0 {
        var visibleRatio := VisibleRatio(section, v);
        var adjustedRatio := visibleRatio * (if section.top < v.windowHeight * 0.5 then UpperHalfBias else 1.0);
        if adjustedRatio > maxVisibleRatio && visibleRatio > MinVisibleRatio {
          maxVisibleRatio := adjustedRatio;
          r := Some(i);
        }
      }
    }
    assert sections[..|sections|] == sections;
  }

  /**
   * `updateActiveOnScroll`.  Near the top of the page every link is
   * cleared without a guard and the first `#home` link, if there is one,
   * becomes active and `home` current.  Further down, the picked section is
   * marked, guarded; if none qualifies nothing changes.
   */
  function Scrolled(s: Spy, v: Viewport, sections: seq<Section>): (r: Spy)
    ensures v.scrollY < HomeScrollLimit ==> r.links == Marked(s.links, HomeId)
    ensures v.scrollY < HomeScrollLimit && HasLink(s.links, "#" + HomeId) ==> r.currentActive == HomeId
    ensures v.scrollY < HomeScrollLimit && !HasLink(s.links, "#" + HomeId) ==>
              r.currentActive == s.currentActive && forall i :: 0 <= i < |r.links| ==> !r.links[i].active
    ensures v.scrollY >= HomeScrollLimit && Pick(sections, v).None? ==> r == s
    ensures v.scrollY >= HomeScrollLimit && Pick(sections, v).Some? ==>
              r == Activated(s, sections[Pick(sections, v).value].id)
    ensures Settled(s) ==> Settled(r)
  {
    if v.scrollY < HomeScrollLimit then
      Spy(if HasLink(s.links, "#" + HomeId) then HomeId else s.currentActive, Marked(s.links, HomeId))
    else
      match Pick(sections, v)
      case None => s
      case Some(i) => Activated(s, sections[i].id)
  }

  /** Whether the scroll routine writes to the links. */
  predicate ScrollWrites(s: Spy, v: Viewport, sections: seq<Section>) {
    if v.scrollY < HomeScrollLimit then true
    else Pick(sections, v).Some? && ActivationWrites(s, sections[Pick(sections, v).value].id)
  }

  /**
   * Running the scroll routine twice on the same input leaves the same
   * state, but near the top of the page the second run writes the links
   * again: only further down does the guard make it write nothing.
   */
  lemma ScrollTwice(s: Spy, v: Viewport, sections: seq<Section>)
    ensures Scrolled(Scrolled(s, v, sections), v, sections) == Scrolled(s, v, sections)
    ensures ScrollWrites(Scrolled(s, v, sections), v, sections) <==> v.scrollY < HomeScrollLimit
  {
  }

  // ---------------------------------------------------------------------
  // The `ticking` gate in front of `requestAnimationFrame`

  datatype GateEvent = ScrollEvent | AnimationFrame

  /** After a run of events: the flag, frames requested and recomputations done. */
  datatype GateRun = GateRun(ticking: bool, requests: nat, updates: nat)

  function Frames(events: seq<GateEvent>): nat {
    if events == [] then 0 else (if events[0] == AnimationFrame then 1 else 0) + Frames(events[1..])
  }

  /**
   * The scroll listener and the frame callback over a stream of events.  A
   * scroll event requests a frame only when none is pending; a frame runs
   * the recomputation only when one was requested.  Every request is
   * answered by exactly one recomputation (one may still be pending at the
   * end), and there are never more recomputations than frames.
   */
  function RunGate(ticking: bool, events: seq<GateEvent>): (r: GateRun)
    ensures r.requests + (if ticking then 1 else 0) == r.updates + (if r.ticking then 1 else 0)
    ensures r.updates <= Frames(events)
    ensures r.requests <= Frames(events) + 1
    decreases |events|
  {
    if events == [] then GateRun(ticking, 0, 0)
    else if events[0] == ScrollEvent then
      var r := RunGate(true, events[1..]);
      GateRun(r.ticking, r.requests + (if ticking then 0 else 1), r.updates)
    else if ticking then
      var r := RunGate(false, events[1..]);
      GateRun(r.ticking, r.requests, r.updates + 1)
    else RunGate(false, events[1..])
  }

  function Scrolls(n: nat): (r: seq<GateEvent>)
    ensures |r| == n && forall i :: 0 <= i < n ==> r[i] == ScrollEvent
  {
    seq(n, _ => ScrollEvent)
  }

  /** Scroll events that arrive while a frame is pending change nothing. */
  lemma {:induction false} ScrollsWhilePending(n: nat, rest: seq<GateEvent>)
    ensures RunGate(true, Scrolls(n) + rest) == RunGate(true, rest)
    decreases n
  {
    if n == 0 {
      assert Scrolls(n) + rest == rest;
    } else {
      assert (Scrolls(n) + rest)[0] == ScrollEvent;
      assert (Scrolls(n) + rest)[1..] == Scrolls(n - 1) + rest;
      ScrollsWhilePending(n - 1, rest);
    }
  }

  /** Any burst of n >= 1 scroll events before one frame: one request, one recomputation. */
  lemma BurstCoalesces(n: nat)
    requires n >= 1
    ensures RunGate(false, Scrolls(n) + [AnimationFrame]) == GateRun(false, 1, 1)
  {
    assert (Scrolls(n) + [AnimationFrame])[1..] == Scrolls(n - 1) + [AnimationFrame];
    ScrollsWhilePending(n - 1, [AnimationFrame]);
  }

  /** Two runs back to back: the flag of the second, the counts of both. */
  function Then(a: GateRun, b: GateRun): GateRun {
    GateRun(b.ticking, a.requests + b.requests, a.updates + b.updates)
  }

  /**
   * A run is its first event followed by the rest, started from the flag
   * that event leaves: so the one-event steps of `FrameGate` compose into
   * `RunGate`.
   */
  lemma GateRunStepwise(ticking: bool, e: GateEvent, rest: seq<GateEvent>)
    ensures RunGate(ticking, [e] + rest) == Then(RunGate(ticking, [e]), RunGate(RunGate(ticking, [e]).ticking, rest))
  {
    assert ([e] + rest)[0] == e && ([e] + rest)[1..] == rest;
    assert [e][1..] == [];
  }

  /** The `ticking` closure variable, with the browser's queue of frame callbacks. */
  class FrameGate {
    var ticking: bool
    ghost var pending: nat

    ghost predicate Valid()
      reads this
    {
      pending == if ticking then 1 else 0
    }

    constructor ()
      ensures Valid() && !ticking
    {
      ticking := false;
      pending := 0;
    }

    /** The scroll listener: request a frame unless one is pending. */
    method OnScroll() returns (requested: bool)
      requires Valid()
      modifies this
      ensures Valid() && ticking && pending <= 1
      ensures requested == !old(ticking)
      // one scroll event of `RunGate`
      ensures ticking == RunGate(old(ticking), [ScrollEvent]).ticking
      ensures (if requested then 1 else 0) == RunGate(old(ticking), [ScrollEvent]).requests
    {
      requested := !ticking;
      if !ticking {
        pending := pending + 1;
        ticking := true;
      }
    }

    /** The frame callback, after it has run the recomputation. */
    method OnFrame()
      requires Valid() && pending > 0
      modifies this
      ensures Valid() && !ticking
      // one frame of `RunGate` with a request pending: one recomputation
      ensures RunGate(old(ticking), [AnimationFrame]) == GateRun(ticking, 0, 1)
    {
      pending := pending - 1;
      ticking := false;
    }
  }

  // ---------------------------------------------------------------------
  // The spy object

  /** The closure of `initScrollSpy`: `currentActive` and the `.nav-link` elements. */
  class ScrollSpy {
    var currentActive: string
    var links: seq<Link>

    function State(): Spy
      reads this
    {
      Spy(currentActive, links)
    }

    constructor (navLinks: seq<Link>)
      ensures State() == Spy("", navLinks)
    {
      currentActive := "";
      links := navLinks;
    }

    /** `navLinks.forEach(link => link.classList.remove('active'))`. */
    method ClearActive()
      modifies this
      ensures links == Cleared(old(links)) && currentActive == old(currentActive)
    {
      var i := 0;
      while i < |links|
        invariant 0 <= i <= |links| == |old(links)|
        invariant currentActive == old(currentActive)
        invariant forall j :: 0 <= j < i ==> links[j] == Link(old(links)[j].href, false)
        invariant forall j :: i <= j < |links| ==> links[j] == old(links)[j]
      {
        links := links[i := Link(links[i].href, false)];
        i := i + 1;
      }
    }

    /** Adds `active` to the first link with this href, if any. */
    method MarkFirst(href: string)
      modifies this
      ensures FirstWithHref(old(links), href).None? ==> links == old(links)
      ensures FirstWithHref(old(links), href).Some? ==>
                var i := FirstWithHref(old(links), href).value; links == old(links)[i := Link(old(links)[i].href, true)]
      ensures currentActive == old(currentActive)
    {
      var first := FirstWithHref(links, href);
      if first.Some? {
        links := links[first.value := Link(links[first.value].href, true)];
      }
    }

    /** The guarded marking of both signals; `wrote` tells whether the links were touched. */
    method Activate(id: string) returns (wrote: bool)
      modifies this
      ensures State() == Activated(old(State()), id)
      ensures wrote == ActivationWrites(old(State()), id)
    {
      wrote := currentActive != id;
      if wrote {
        currentActive := id;
        ClearActive();
        MarkFirst("#" + id);
      }
    }

    /** `observerCallback`. */
    method ObserverCallback(entries: seq<Entry>) returns (wrote: bool)
      modifies this
      ensures State() == Observed(old(State()), entries)
      ensures wrote == (ObservedId(entries).Some? && ActivationWrites(old(State()), ObservedId(entries).value))
    {
      var intersecting := Intersecting(entries);
      wrote := false;
      if |intersecting| > 0 {
        var mostVisible := intersecting[Best(intersecting)];
        wrote := Activate(mostVisible.id);
      }
    }

    /** `updateActiveOnScroll`. */
    method UpdateActiveOnScroll(v: Viewport, sections: seq<Section>) returns (wrote: bool)
      modifies this
      ensures State() == Scrolled(old(State()), v, sections)
      ensures wrote == ScrollWrites(old(State()), v, sections)
    {
      if v.scrollY < HomeScrollLimit {
        ClearActive();
        var home := FirstWithHref(links, "#" + HomeId);
        if home.Some? {
          links := links[home.value := Link(links[home.value].href, true)];
          currentActive := HomeId;
        }
        wrote := true;
        return;
      }
      var mostVisibleSection := MostVisibleSection(sections, v);
      wrote := false;
      if mostVisibleSection.Some? {
        wrote := Activate(sections[mostVisibleSection.value].id);
      }
    }
  }

  /** The frame callback of the scroll listener: recompute, then lower the flag. */
  method RunScheduledUpdate(gate: FrameGate, spy: ScrollSpy, v: Viewport, sections: seq<Section>)
    returns (wrote: bool)
    requires gate.Valid() && gate.pending > 0
    modifies gate, spy
    ensures gate.Valid() && !gate.ticking
    ensures spy.State() == Scrolled(old(spy.State()), v, sections)
    ensures wrote == ScrollWrites(old(spy.State()), v, sections)
  {
    wrote := spy.UpdateActiveOnScroll(v, sections);
    gate.OnFrame();
  }
}
