/**
 * The overlay guard (index.js:457-502): the fingerprint of the site's
 * full-screen advert overlay, one pass that removes (or, when removal
 * throws, hides) every overlay in the document, and the guard that runs a
 * pass on start and on every DOM mutation, installed once per page.
 */
module Overlay {

  /** The ten classes `isBlockingAdOverlay` requires, all of them. */
  const AdClasses: set<string> := {
    "fixed", "top-0", "left-0", "w-screen", "h-screen",
    "bg-white", "bg-opacity-75", "z-50", "flex", "items-center"
  }

  /** `isBlockingAdOverlay` (index.js:457-472), on what it reads of an element. */
  predicate IsBlockingAdOverlay(isHtml: bool, classes: set<string>) {
    && isHtml
    && "fixed" in classes
    && "top-0" in classes
    && "left-0" in classes
    && "w-screen" in classes
    && "h-screen" in classes
    && "bg-white" in classes
    && "bg-opacity-75" in classes
    && "z-50" in classes
    && "flex" in classes
    && "items-center" in classes
  }

  /** The fingerprint is exactly: an HTML element carrying every one of the ten classes. */
  lemma FingerprintIsAllTen(isHtml: bool, classes: set<string>)
    ensures IsBlockingAdOverlay(isHtml, classes) <==> isHtml && AdClasses <= classes
  {
    if isHtml && AdClasses <= classes {
      assert "fixed" in AdClasses && "items-center" in AdClasses;
    }
  }

  /** A missing class, whichever it is, is enough to spare an element. */
  lemma OneMissingClassSpares(isHtml: bool, classes: set<string>, c: string)
    requires c in AdClasses && c !in classes
    ensures !IsBlockingAdOverlay(isHtml, classes)
  {
    FingerprintIsAllTen(isHtml, classes);
  }

  /** An element of the page, as far as the guard sees and touches it. */
  class Element {
    const tag: string
    const isHtml: bool
    const classes: set<string>
    /** Whether `el.remove()` succeeds rather than throws. */
    const removable: bool
    var attached: bool
    var display: string
    var pointerEvents: string
    var opacity: string

    constructor (tag: string, isHtml: bool, classes: set<string>, removable: bool)
      ensures this.tag == tag && this.isHtml == isHtml && this.classes == classes && this.removable == removable
      ensures attached && display == "" && pointerEvents == "" && opacity == ""
    {
      this.tag := tag;
      this.isHtml := isHtml;
      this.classes := classes;
      this.removable := removable;
      attached := true;
      display := "";
      pointerEvents := "";
      opacity := "";
    }
  }

  /** Selected by `div.fixed.z-50` and kept by the fingerprint filter. */
  predicate IsOverlay(e: Element) {
    e.tag == "div" && "fixed" in e.classes && "z-50" in e.classes && IsBlockingAdOverlay(e.isHtml, e.classes)
  }

  /** The overlays of the document, in document order (index.js:475). */
  function Overlays(doc: seq<Element>): (r: seq<Element>)
    ensures |r| <= |doc|
    ensures forall k | 0 <= k < |r| :: r[k] in doc && IsOverlay(r[k])
    ensures forall k | 0 <= k < |doc| && IsOverlay(doc[k]) :: doc[k] in r
  {
    if doc == [] then []
    else if IsOverlay(doc[0]) then [doc[0]] + Overlays(doc[1..])
    else Overlays(doc[1..])
  }

  /** The selector adds nothing to the fingerprint but the `div` tag. */
  lemma OverlayIsFingerprintedDiv(e: Element)
    ensures IsOverlay(e) <==> e.tag == "div" && IsBlockingAdOverlay(e.isHtml, e.classes)
  {
  }

  /** Elements of `doc` appear once each. */
  predicate Distinct(doc: seq<Element>) {
    forall i, j | 0 <= i < j < |doc| :: doc[i] != doc[j]
  }

  /** `querySelectorAll` only returns elements that are in the document. */
  predicate InDocument(doc: seq<Element>)
    reads set e | e in doc
  {
    forall e | e in doc :: e.attached
  }

  lemma {:induction false} OverlaysDistinct(doc: seq<Element>)
    requires Distinct(doc)
    ensures Distinct(Overlays(doc))
  {
    if doc != [] {
      OverlaysDistinct(doc[1..]);
      assert doc[0] !in doc[1..];
    }
  }

  /** One overlay: `el.remove()`, or when that throws, hide it and let clicks through. */
  method Neutralise(el: Element)
    modifies el
    ensures el.removable ==>
      !el.attached && el.display == old(el.display) && el.pointerEvents == old(el.pointerEvents) && el.opacity == old(el.opacity)
    ensures !el.removable ==>
      el.attached == old(el.attached) && el.display == "none" && el.pointerEvents == "none" && el.opacity == "0"
  {
    if el.removable {
      el.attached := false;
    } else {
      el.display := "none";
      el.pointerEvents := "none";
      el.opacity := "0";
    }
  }

  /**
   * `removeAdOverlaysOnce` (index.js:474-490): every overlay is removed, or
   * hidden when its removal throws; every other element is left as it was;
   * the result is the number of overlays. `doc` is the elements of the
   * document, in document order.
   */
  method RemoveAdOverlaysOnce(doc: seq<Element>) returns (count: nat)
    requires Distinct(doc) && InDocument(doc)
    modifies set e | e in doc
    ensures count == |Overlays(doc)|
    ensures forall e | e in doc && !IsOverlay(e) :: unchanged(e)
    ensures forall e | e in doc && IsOverlay(e) && e.removable ::
      !e.attached && e.display == old(e.display) && e.pointerEvents == old(e.pointerEvents) && e.opacity == old(e.opacity)
    ensures forall e | e in doc && IsOverlay(e) && !e.removable ::
      e.attached == old(e.attached) && e.display == "none" && e.pointerEvents == "none" && e.opacity == "0"
  {
    var overlays := Overlays(doc);
    OverlaysDistinct(doc);
    if |overlays| == 0 {
      return 0;
    }
    var i := 0;
    while i < |overlays|
      invariant 0 <= i <= |overlays|
      invariant forall e | e in doc && !IsOverlay(e) :: unchanged(e)
      invariant forall k | i <= k < |overlays| :: unchanged(overlays[k])
      invariant forall k | 0 <= k < i && overlays[k].removable ::
        var e := overlays[k];
        !e.attached && e.display == old(e.display) && e.pointerEvents == old(e.pointerEvents) && e.opacity == old(e.opacity)
      invariant forall k | 0 <= k < i && !overlays[k].removable ::
        var e := overlays[k];
        e.attached == old(e.attached) && e.display == "none" && e.pointerEvents == "none" && e.opacity == "0"
    {
      Neutralise(overlays[i]);
      i := i + 1;
    }
    return |overlays|;
  }

  /** `window.__cl_ad_guard_started__` and the observer `startAdOverlayGuard` installs. */
  class OverlayGuard {
    var started: bool
    /** Mutation observers installed. */
    var observers: nat

    ghost predicate Valid()
      reads this
    {
      observers == if started then 1 else 0
    }

    constructor ()
      ensures Valid() && !started
    {
      started := false;
      observers := 0;
    }

    /**
     * `startAdOverlayGuard` (index.js:492-502): the first call runs a pass
     * and installs one observer; any later call does nothing.
     */
    method Start(doc: seq<Element>) returns (removed: nat)
      requires Valid()
      requires Distinct(doc)
      requires !started ==> InDocument(doc)
      modifies this, set e | e in doc
      ensures Valid() && started
      ensures old(started) ==> observers == old(observers) && removed == 0 && forall e | e in doc :: unchanged(e)
      ensures !old(started) ==> observers == 1 && removed == |Overlays(doc)|
      ensures !old(started) ==> forall e | e in doc && !IsOverlay(e) :: unchanged(e)
      ensures !old(started) ==> forall e | e in doc && IsOverlay(e) && e.removable ::
        !e.attached && e.display == old(e.display) && e.pointerEvents == old(e.pointerEvents) && e.opacity == old(e.opacity)
      ensures !old(started) ==> forall e | e in doc && IsOverlay(e) && !e.removable ::
        e.attached && e.display == "none" && e.pointerEvents == "none" && e.opacity == "0"
    {
      if started {
        return 0;
      }
      started := true;
      removed := RemoveAdOverlaysOnce(doc);
      observers := observers + 1;
    }
  }

  /** However often the guard is started, one observer is installed. */
  method StartTwice(g: OverlayGuard, doc1: seq<Element>, doc2: seq<Element>)
    requires g.Valid()
    requires Distinct(doc1) && InDocument(doc1)
    requires Distinct(doc2)
    modifies g, set e | e in doc1, set e | e in doc2
    ensures g.started && g.observers == 1
  {
    var _ := g.Start(doc1);
    var r := g.Start(doc2);
    assert r == 0;
  }
}
