/**
 * Scroll-triggered reveal animations, form-field focus highlighting and the
 * smooth-scroll guard on in-page anchors.
 *
 * The page is a `Document` whose elements are records held in document order;
 * an element is identified by its index. What the browser computes (whether an
 * element intersects the viewport, whether `closest('section')` finds a
 * section, whether `querySelector(href)` finds a target) enters the model as
 * data.
 */
module Animations {
  import opened Wrappers

  /** Position of an element in document order. */
  type Id = nat

  /**
   * The part of a DOM element the scripts read or write. `tagName` is upper
   * case, as the DOM reports it; `inSection` is whether `closest('section')`
   * finds an element; `opacity` is the inline `style.opacity` ("" when unset);
   * `value` is a form control's current value.
   */
  datatype Element = Element(
    tagName: string,
    inSection: bool,
    hasDataAnimate: bool,
    classList: set<string>,
    opacity: string,
    value: string,
    parent: Option<Id>)

  const SlideUpClass := "scroll-animate-slide-up"
  const FadeClass := "scroll-animate-fade"
  const FocusedClass := "focused"

  /** One of the four card classes, tested in the order the script tests them. */
  predicate HasCardClass(e: Element) {
    "service-card" in e.classList || "realisations-item" in e.classList ||
    "equipement-card" in e.classList || "temoignage-card" in e.classList
  }

  predicate IsSectionTitle(e: Element) { e.tagName == "H2" && e.inSection }

  predicate IsImage(e: Element) { e.tagName == "IMG" }

  /** Matched by '[data-animate], .service-card, .realisations-item, .equipement-card, .temoignage-card'. */
  predicate IsAnimated(e: Element) { e.hasDataAnimate || HasCardClass(e) }

  /** Observed by `init`: an animated element, a 'section h2' or an 'img'. */
  predicate IsWatched(e: Element) { IsAnimated(e) || IsSectionTitle(e) || IsImage(e) }

  // ---------------------------------------------------------------------------
  // Classification and the reveal of one element
  // ---------------------------------------------------------------------------

  /** The four branches of the reveal handler's if/else-if chain. */
  datatype Branch = SectionTitle | Image | Card | Other

  datatype Animation = SlideUp | Fade

  function AnimationOf(b: Branch): Animation {
    match b
    case SectionTitle => SlideUp
    case Image => Fade
    case Card => SlideUp
    case Other => Fade
  }

  /**
   * The branch an intersecting element takes. Every element takes exactly one;
   * an image takes the fade branch even when it carries a card class, and only
   * a section title or a card that is not an image slides up.
   */
  function Classify(e: Element): (b: Branch)
    ensures IsImage(e) ==> AnimationOf(b) == Fade
    ensures AnimationOf(b) == SlideUp <==> IsSectionTitle(e) || (HasCardClass(e) && !IsImage(e))
    ensures b == SectionTitle <==> IsSectionTitle(e)
  {
    if IsSectionTitle(e) then SectionTitle
    else if IsImage(e) then Image
    else if HasCardClass(e) then Card
    else Other
  }

  /**
   * The element after the reveal handler has processed an intersecting entry
   * for it: its reveal class is in the class list afterwards and no other
   * class is added (an element whose markup already carries it gains nothing),
   * and the inline opacity becomes '1' except for a section title, whose
   * inline opacity is left as it was.
   */
  function Revealed(e: Element): (r: Element)
    ensures r == e.(classList := r.classList, opacity := r.opacity)
    ensures r.classList == e.classList +
      {if IsSectionTitle(e) || (HasCardClass(e) && !IsImage(e)) then SlideUpClass else FadeClass}
    ensures r.opacity == if IsSectionTitle(e) then e.opacity else "1"
  {
    match Classify(e)
    case SectionTitle => e.(classList := e.classList + {SlideUpClass})
    case Image => e.(opacity := "1", classList := e.classList + {FadeClass})
    case Card => e.(opacity := "1", classList := e.classList + {SlideUpClass})
    case Other => e.(opacity := "1", classList := e.classList + {FadeClass})
  }

  /** The reveal adds one reveal class and never both. */
  lemma RevealIsExclusive(e: Element)
    requires SlideUpClass !in e.classList && FadeClass !in e.classList
    ensures var r := Revealed(e);
      (SlideUpClass in r.classList) != (FadeClass in r.classList) &&
      |r.classList - e.classList| == 1
  {
  }

  /**
   * Revealing twice is the same as revealing once: the reveal classes are not
   * card classes, so the second pass takes the same branch and changes nothing.
   */
  lemma RevealIsIdempotent(e: Element)
    ensures Revealed(Revealed(e)) == Revealed(e)
  {
  }

  // ---------------------------------------------------------------------------
  // Initial state set up by init
  // ---------------------------------------------------------------------------

  /** An animated element without 'data-animate' starts with inline opacity '0'. */
  function Prepared(e: Element): (r: Element)
    ensures r == e.(opacity := r.opacity)
    ensures r.opacity == if IsAnimated(e) && !e.hasDataAnimate then "0" else e.opacity
  {
    if IsAnimated(e) && !e.hasDataAnimate then e.(opacity := "0") else e
  }

  function PreparedAll(els: seq<Element>): (r: seq<Element>)
    ensures |r| == |els|
    ensures forall j :: 0 <= j < |els| ==> r[j] == Prepared(els[j])
  {
    seq(|els|, j requires 0 <= j < |els| => Prepared(els[j]))
  }

  /** The ids of the elements a selector matches. */
  function IdsWhere(els: seq<Element>, selects: Element -> bool): set<Id> {
    set j | 0 <= j < |els| && selects(els[j])
  }

  /** The ids `init` observes: the union of its three selections. */
  function WatchedIds(els: seq<Element>): (r: set<Id>)
    ensures r == IdsWhere(els, IsAnimated) + IdsWhere(els, IsSectionTitle) + IdsWhere(els, IsImage)
    ensures forall j :: 0 <= j < |els| ==> (j in r <==> IsWatched(els[j]))
  {
    set j | 0 <= j < |els| && IsWatched(els[j])
  }

  /**
   * The inline opacity of a watched element after `init` and its reveal: '1'
   * unless it is a section title, which keeps what `init` left. A section title
   * that also carries a card class without 'data-animate' gets inline opacity
   * '0' from `init`, and the section-title branch never sets it back.
   */
  lemma RevealedAfterInitOpacity(e: Element)
    requires IsWatched(e)
    ensures Revealed(Prepared(e)).opacity == "1" <==>
      !IsSectionTitle(e) || (e.opacity == "1" && (e.hasDataAnimate || !HasCardClass(e)))
    ensures IsSectionTitle(e) && HasCardClass(e) && !e.hasDataAnimate ==>
      Revealed(Prepared(e)).opacity == "0"
  {
  }

  /** A concrete page element whose inline opacity stays '0' after its reveal. */
  lemma CardTitleKeepsZeroOpacity()
    ensures var h := Element("H2", true, false, {"service-card"}, "", "", None);
      IsWatched(h) && Revealed(Prepared(h)).opacity == "0" &&
      SlideUpClass in Revealed(Prepared(h)).classList
  {
  }

  // ---------------------------------------------------------------------------
  // Batches of intersection entries
  // ---------------------------------------------------------------------------

  /** One IntersectionObserver entry: its target and whether it intersects. */
  datatype Entry = Entry(target: Id, isIntersecting: bool)

  /** The page's elements together with the observer's watched set. */
  datatype RevealState = RevealState(elements: seq<Element>, observed: set<Id>)

  /** Targets of the intersecting entries of a batch. */
  function RevealedIn(batch: seq<Entry>): set<Id> {
    set k | 0 <= k < |batch| && batch[k].isIntersecting :: batch[k].target
  }

  /** An id is revealed by a batch exactly when some intersecting entry of the batch names it. */
  lemma RevealedInMembers(batch: seq<Entry>, id: Id)
    ensures id in RevealedIn(batch) <==>
      exists k :: 0 <= k < |batch| && batch[k].target == id && batch[k].isIntersecting
  {
  }

  /**
   * Reference definition of one callback: every target of an intersecting
   * entry is revealed once and unobserved; everything else is left alone.
   */
  function AfterBatch(s: RevealState, batch: seq<Entry>): (t: RevealState)
    ensures |t.elements| == |s.elements|
    ensures t.observed <= s.observed
    ensures forall k :: 0 <= k < |batch| && batch[k].isIntersecting ==> batch[k].target !in t.observed
  {
    RevealState(
      seq(|s.elements|, j requires 0 <= j < |s.elements| =>
        if j in RevealedIn(batch) then Revealed(s.elements[j]) else s.elements[j]),
      s.observed - RevealedIn(batch))
  }

  /**
   * After a batch every intersecting target is unobserved; an element no
   * intersecting entry names keeps its record and its observation.
   */
  lemma BatchEffect(s: RevealState, batch: seq<Entry>)
    ensures forall k :: 0 <= k < |batch| && batch[k].isIntersecting ==>
      batch[k].target !in AfterBatch(s, batch).observed
    ensures forall j :: 0 <= j < |s.elements| && j !in RevealedIn(batch) ==>
      AfterBatch(s, batch).elements[j] == s.elements[j] &&
      (j in AfterBatch(s, batch).observed <==> j in s.observed)
    ensures AfterBatch(s, batch).observed <= s.observed
  {
  }

  /** The platform reports only elements the observer still watches. */
  predicate Delivers(s: RevealState, batch: seq<Entry>) {
    forall k :: 0 <= k < |batch| ==> batch[k].target in s.observed
  }

  /** A series of callbacks, each one reporting only still-observed elements. */
  predicate PlatformDelivers(s: RevealState, batches: seq<seq<Entry>>)
    decreases |batches|
  {
    batches == [] ||
    (Delivers(s, batches[0]) && PlatformDelivers(AfterBatch(s, batches[0]), batches[1..]))
  }

  function Run(s: RevealState, batches: seq<seq<Entry>>): RevealState
    decreases |batches|
  {
    if batches == [] then s else Run(AfterBatch(s, batches[0]), batches[1..])
  }

  /** Number of callbacks of a series that reveal element `id`. */
  function RevealCount(s: RevealState, batches: seq<seq<Entry>>, id: Id): nat
    decreases |batches|
  {
    if batches == [] then 0
    else
      var now := if id in RevealedIn(batches[0]) then 1 else 0;
      now + RevealCount(AfterBatch(s, batches[0]), batches[1..], id)
  }

  /** No later callback reveals or changes an unobserved element. */
  lemma {:induction false} UnobservedIsFrozen(s: RevealState, batches: seq<seq<Entry>>, id: Id)
    requires PlatformDelivers(s, batches)
    requires id !in s.observed && id < |s.elements|
    ensures RevealCount(s, batches, id) == 0
    ensures |Run(s, batches).elements| == |s.elements|
    ensures Run(s, batches).elements[id] == s.elements[id]
    decreases |batches|
  {
    if batches != [] {
      var t := AfterBatch(s, batches[0]);
      assert id !in RevealedIn(batches[0]);
      UnobservedIsFrozen(t, batches[1..], id);
    }
  }

  /**
   * At most once: over any series of callbacks that report only observed
   * elements, each element is revealed at most once, and never if it was not
   * observed to begin with.
   */
  lemma {:induction false} RevealAtMostOnce(s: RevealState, batches: seq<seq<Entry>>, id: Id)
    requires PlatformDelivers(s, batches)
    requires id < |s.elements|
    ensures RevealCount(s, batches, id) <= 1
    ensures id !in s.observed ==> RevealCount(s, batches, id) == 0
    decreases |batches|
  {
    if id !in s.observed {
      UnobservedIsFrozen(s, batches, id);
    } else if batches != [] {
      var t := AfterBatch(s, batches[0]);
      if id in RevealedIn(batches[0]) {
        UnobservedIsFrozen(t, batches[1..], id);
      } else {
        RevealAtMostOnce(t, batches[1..], id);
      }
    }
  }

  // ---------------------------------------------------------------------------
  // The page and the ScrollAnimations object
  // ---------------------------------------------------------------------------

  predicate ParentsInRange(els: seq<Element>) {
    forall j :: 0 <= j < |els| && els[j].parent.Some? ==> els[j].parent.value < |els|
  }

  lemma ReplaceKeepsParents(els: seq<Element>, t: Id, e: Element)
    requires ParentsInRange(els) && t < |els| && e.parent == els[t].parent
    ensures ParentsInRange(els[t := e])
  {
  }

  /** A state that agrees with `AfterBatch` element by element is `AfterBatch`. */
  lemma AfterBatchPointwise(s: RevealState, batch: seq<Entry>, els: seq<Element>, obs: set<Id>)
    requires |els| == |s.elements| && obs == s.observed - RevealedIn(batch)
    requires forall j :: 0 <= j < |els| ==>
      els[j] == if j in RevealedIn(batch) then Revealed(s.elements[j]) else s.elements[j]
    ensures RevealState(els, obs) == AfterBatch(s, batch)
  {
  }

  lemma RevealedInSnoc(entries: seq<Entry>, i: nat)
    requires i < |entries|
    ensures RevealedIn(entries[..i + 1]) ==
      RevealedIn(entries[..i]) + (if entries[i].isIntersecting then {entries[i].target} else {})
  {
  }

  /** Focus: the input's parent, if any, gains 'focused'. */
  function Focused(els: seq<Element>, input: Id): (r: seq<Element>)
    requires input < |els| && ParentsInRange(els)
    ensures |r| == |els| && ParentsInRange(r)
    ensures forall p :: els[input].parent == Some(p) ==>
      r[p] == els[p].(classList := els[p].classList + {FocusedClass})
    ensures forall j :: 0 <= j < |els| && els[input].parent != Some(j) ==> r[j] == els[j]
  {
    match els[input].parent
    case None => els
    case Some(p) => els[p := els[p].(classList := els[p].classList + {FocusedClass})]
  }

  /** Blur: the input's parent, if any, loses 'focused' when the value is empty. */
  function Blurred(els: seq<Element>, input: Id): (r: seq<Element>)
    requires input < |els| && ParentsInRange(els)
    ensures |r| == |els| && ParentsInRange(r)
    ensures forall p :: els[input].parent == Some(p) ==>
      r[p] == els[p].(classList := r[p].classList) &&
      (FocusedClass in r[p].classList <==> els[input].value != "" && FocusedClass in els[p].classList) &&
      r[p].classList - {FocusedClass} == els[p].classList - {FocusedClass}
    ensures forall j :: 0 <= j < |els| && els[input].parent != Some(j) ==> r[j] == els[j]
  {
    match els[input].parent
    case None => els
    case Some(p) =>
      if els[input].value == "" then els[p := els[p].(classList := els[p].classList - {FocusedClass})]
      else els
  }

  /** Focus followed by blur leaves the parent highlighted exactly when the field holds a value. */
  lemma FocusThenBlur(els: seq<Element>, input: Id, p: Id)
    requires input < |els| && ParentsInRange(els) && els[input].parent == Some(p)
    ensures FocusedClass in Blurred(Focused(els, input), input)[p].classList <==> els[input].value != ""
  {
  }

  /** The page: its elements in document order. */
  class Document {
    var elements: seq<Element>

    ghost predicate Valid()
      reads this
    {
      ParentsInRange(elements)
    }

    /** The 'focus' listener of an input or textarea. */
    method OnFocus(input: Id)
      requires Valid() && input < |elements|
      modifies this
      ensures Valid()
      ensures elements == Focused(old(elements), input)
    {
      var parent := elements[input].parent;
      if parent.Some? {
        var p := parent.value;
        elements := elements[p := elements[p].(classList := elements[p].classList + {FocusedClass})];
      }
    }

    /** The 'blur' listener of an input or textarea. */
    method OnBlur(input: Id)
      requires Valid() && input < |elements|
      modifies this
      ensures Valid()
      ensures elements == Blurred(old(elements), input)
    {
      if elements[input].value == "" {
        var parent := elements[input].parent;
        if parent.Some? {
          var p := parent.value;
          elements := elements[p := elements[p].(classList := elements[p].classList - {FocusedClass})];
        }
      }
    }
  }

  /** The reveal controller: the observer's watched set over one page. */
  class ScrollAnimations {
    const doc: Document
    var observed: set<Id>

    /** The observer watches elements of the page only. */
    ghost predicate Valid()
      reads this, doc
    {
      doc.Valid() && forall id :: id in observed ==> id < |doc.elements|
    }

    ghost function State(): RevealState
      reads this, doc
    {
      RevealState(doc.elements, observed)
    }

    /** Creates the observer and runs `init`. */
    constructor (page: Document)
      requires page.Valid()
      modifies page
      ensures doc == page && Valid()
      ensures page.elements == PreparedAll(old(page.elements))
      ensures observed == WatchedIds(old(page.elements))
    {
      doc := page;
      observed := {};
      new;
      Init();
    }

    /**
     * Observes every animated element, section title and image, and sets
     * inline opacity '0' on the animated elements that have no 'data-animate'.
     */
    method Init()
      requires Valid()
      modifies this, doc
      ensures Valid()
      ensures doc.elements == PreparedAll(old(doc.elements))
      ensures observed == old(observed) + WatchedIds(old(doc.elements))
    {
      ghost var els0 := doc.elements;
      ObserveAnimated();
      ObserveWhere(IsSectionTitle);
      ObserveWhere(IsImage);
      assert IdsWhere(doc.elements, IsSectionTitle) == IdsWhere(els0, IsSectionTitle);
      assert IdsWhere(doc.elements, IsImage) == IdsWhere(els0, IsImage);
    }

    /** The first loop of `init`: set inline opacity '0' where required and observe the animated elements. */
    method ObserveAnimated()
      requires Valid()
      modifies this, doc
      ensures Valid()
      ensures doc.elements == PreparedAll(old(doc.elements))
      ensures observed == old(observed) + IdsWhere(old(doc.elements), IsAnimated)
    {
      ghost var els0 := doc.elements;
      var n := |doc.elements|;
      var i := 0;
      while i < n
        invariant 0 <= i <= n == |doc.elements| == |els0|
        invariant forall j :: 0 <= j < n ==> doc.elements[j] == if j < i then Prepared(els0[j]) else els0[j]
        invariant observed == old(observed) + set j | 0 <= j < i && IsAnimated(els0[j])
        invariant Valid()
      {
        var el := doc.elements[i];
        if IsAnimated(el) {
          if !el.hasDataAnimate {
            ReplaceKeepsParents(doc.elements, i, el.(opacity := "0"));
            doc.elements := doc.elements[i := el.(opacity := "0")];
          }
          observed := observed + {i};
        }
        i := i + 1;
      }
    }

    /** The second and third loops of `init`: observe the section titles, then the images. */
    method ObserveWhere(selects: Element -> bool)
      requires Valid()
      modifies this
      ensures Valid()
      ensures observed == old(observed) + IdsWhere(doc.elements, selects)
    {
      var n := |doc.elements|;
      var i := 0;
      while i < n
        invariant 0 <= i <= n
        invariant observed == old(observed) + set j | 0 <= j < i && selects(doc.elements[j])
        invariant Valid()
      {
        if selects(doc.elements[i]) {
          observed := observed + {i};
        }
        i := i + 1;
      }
    }

    /**
     * The IntersectionObserver callback: reveals and unobserves the target of
     * every intersecting entry, in order.
     */
    method HandleIntersection(entries: seq<Entry>)
      requires Valid()
      requires forall k :: 0 <= k < |entries| ==> entries[k].target < |doc.elements|
      modifies this, doc
      ensures Valid()
      ensures State() == AfterBatch(old(State()), entries)
    {
      ghost var els0 := doc.elements;
      var i := 0;
      while i < |entries|
        invariant 0 <= i <= |entries|
        invariant |doc.elements| == |els0|
        invariant forall j :: 0 <= j < |els0| ==>
          doc.elements[j] == if j in RevealedIn(entries[..i]) then Revealed(els0[j]) else els0[j]
        invariant observed == old(observed) - RevealedIn(entries[..i])
        invariant Valid()
      {
        var entry := entries[i];
        if entry.isIntersecting {
          RevealIsIdempotent(els0[entry.target]);
          RevealTarget(entry.target);
        }
        RevealedInSnoc(entries, i);
        i := i + 1;
      }
      assert entries[..i] == entries;
      AfterBatchPointwise(RevealState(els0, old(observed)), entries, doc.elements, observed);
    }

    /** The body of the callback for one intersecting entry: classify, style, unobserve. */
    method RevealTarget(t: Id)
      requires Valid() && t < |doc.elements|
      modifies this, doc
      ensures Valid()
      ensures doc.elements == old(doc.elements)[t := Revealed(old(doc.elements[t]))]
      ensures observed == old(observed) - {t}
    {
      var el := doc.elements[t];
      if el.tagName == "H2" && el.inSection {
        el := el.(classList := el.classList + {SlideUpClass});
      } else if el.tagName == "IMG" {
        el := el.(opacity := "1");
        el := el.(classList := el.classList + {FadeClass});
      } else if "service-card" in el.classList || "realisations-item" in el.classList ||
                "equipement-card" in el.classList || "temoignage-card" in el.classList {
        el := el.(opacity := "1");
        el := el.(classList := el.classList + {SlideUpClass});
      } else {
        el := el.(opacity := "1");
        el := el.(classList := el.classList + {FadeClass});
      }
      assert el == Revealed(doc.elements[t]);
      ReplaceKeepsParents(doc.elements, t, el);
      doc.elements := doc.elements[t := el];
      observed := observed - {t};
    }
  }

  // ---------------------------------------------------------------------------
  // Smooth scrolling for in-page anchors
  // ---------------------------------------------------------------------------

  /** What `document.querySelector(href)` does for the clicked anchor's href. */
  datatype TargetLookup = Found | NotFound | BadSelector

  /**
   * Outcome of a click on an anchor whose href starts with '#':
   * `SmoothScroll` calls preventDefault and scrolls to the target;
   * `DefaultAction` lets the browser follow the link;
   * `Uncaught` is the exception querySelector throws for an href that is not
   * a valid selector, after which the browser follows the link.
   */
  datatype ClickOutcome = SmoothScroll | DefaultAction | Uncaught

  function OnAnchorClick(href: string, lookup: TargetLookup): (r: ClickOutcome)
    ensures r == SmoothScroll <==> href != "#" && lookup == Found
    ensures r == Uncaught <==> href != "#" && lookup == BadSelector
    ensures href == "#" ==> r == DefaultAction
  {
    if href != "#" then
      match lookup
      case Found => SmoothScroll
      case NotFound => DefaultAction
      case BadSelector => Uncaught
    else DefaultAction
  }
}
