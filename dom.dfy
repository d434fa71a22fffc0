/** The part of the document the marker touches: the top-level elements of the
    page body, among them at most one overlay carrying a fixed id. */
module Dom {
  import opened Config

  const OverlayId: string := "page-marker-mask-layer"

  /** A full-size child of the overlay: a backdrop blur of the given radius, or a
      black background at the given opacity. */
  datatype Layer = BlurLayer(radius: real) | MaskLayer(opacity: real)

  /** An element of the body: the marker's overlay with its layers, or an
      element of the page itself, known only by its id. */
  datatype Element = Overlay(layers: seq<Layer>) | PageElement(id: string)

  function IdOf(e: Element): string {
    match e
    case Overlay(_) => OverlayId
    case PageElement(id) => id
  }

  predicate HasOverlayId(e: Element) {
    IdOf(e) == OverlayId
  }

  /** The children the overlay gets for a mode: a blur layer when the mode
      includes blur, a mask layer when it includes the mask, blur first. */
  function Layers(mode: Mode, blurAmount: real, maskOpacity: real): (r: seq<Layer>)
    ensures |r| == (if mode.Both? then 2 else if mode.Unrecognised? then 0 else 1)
    ensures (exists i :: 0 <= i < |r| && r[i].BlurLayer?) <==> mode.Blur? || mode.Both?
    ensures (exists i :: 0 <= i < |r| && r[i].MaskLayer?) <==> mode.Mask? || mode.Both?
    ensures forall i :: 0 <= i < |r| && r[i].BlurLayer? ==> r[i].radius == blurAmount
    ensures forall i :: 0 <= i < |r| && r[i].MaskLayer? ==> r[i].opacity == maskOpacity
    ensures forall i, j :: 0 <= i < j < |r| ==> r[i].BlurLayer? && r[j].MaskLayer?
  {
    match mode
    case Blur => var r := [BlurLayer(blurAmount)]; assert r[0].BlurLayer?; r
    case Mask => var r := [MaskLayer(maskOpacity)]; assert r[0].MaskLayer?; r
    case Both =>
      var r := [BlurLayer(blurAmount), MaskLayer(maskOpacity)];
      assert r[0].BlurLayer? && r[1].MaskLayer?;
      r
    case Unrecognised(_) => []
  }

  /** The overlay a configuration renders. */
  function OverlayFor(c: MarkerConfig): Element {
    Overlay(Layers(c.mode, c.blurAmount, c.maskOpacity))
  }

  /** How many elements of `body` carry the overlay id. */
  function CountOverlays(body: seq<Element>): nat {
    if body == [] then 0
    else (if HasOverlayId(body[0]) then 1 else 0) + CountOverlays(body[1..])
  }

  /** `getElementById`: the position of the first element carrying the overlay id. */
  function FindOverlay(body: seq<Element>): (r: Option<nat>)
    ensures r.Some? ==> r.value < |body| && HasOverlayId(body[r.value])
    ensures r.Some? ==> forall j :: 0 <= j < r.value ==> !HasOverlayId(body[j])
    ensures r.None? ==> forall j :: 0 <= j < |body| ==> !HasOverlayId(body[j])
  {
    if body == [] then None
    else if HasOverlayId(body[0]) then Some(0)
    else match FindOverlay(body[1..])
      case None => None
      case Some(i) => Some(i + 1)
  }

  /** The page's own content: the elements that do not carry the overlay id, in order. */
  function PageContent(body: seq<Element>): seq<Element> {
    if body == [] then []
    else (if HasOverlayId(body[0]) then [] else [body[0]]) + PageContent(body[1..])
  }

  /** The body after the first element carrying the overlay id, if any, is
      removed: one element with the id fewer when there was one, the page's own
      content untouched, and a body without the id left as it was. */
  function Removed(body: seq<Element>): (r: seq<Element>)
    ensures CountOverlays(r) == if CountOverlays(body) == 0 then 0 else CountOverlays(body) - 1
    ensures CountOverlays(body) == 0 ==> r == body
    ensures PageContent(r) == PageContent(body)
  {
    FindCount(body);
    match FindOverlay(body)
    case None => body
    case Some(i) => RemoveFirst(body, i); body[..i] + body[i + 1..]
  }

  /** The body after the overlay is removed and, when the configuration is
      enabled, a fresh one rendering it is appended at the end; the page's own
      content is untouched. */
  function Applied(body: seq<Element>, c: MarkerConfig): (r: seq<Element>)
    ensures PageContent(r) == PageContent(body)
    ensures c.enabled ==> |r| > 0 && r[|r| - 1] == OverlayFor(c)
  {
    var rest := if c.enabled then [OverlayFor(c)] else [];
    PageContentAppend(Removed(body), rest);
    assert PageContent(rest) == [] by {
      if c.enabled {
        assert rest[1..] == [];
      }
    }
    Removed(body) + rest
  }

  lemma {:induction false} PageContentAppend(a: seq<Element>, b: seq<Element>)
    ensures PageContent(a + b) == PageContent(a) + PageContent(b)
  {
    if a == [] {
      assert a + b == b;
    } else {
      assert (a + b)[1..] == a[1..] + b;
      PageContentAppend(a[1..], b);
    }
  }

  /** Taking out the first element with the id removes one such element and
      none of the page's own. */
  lemma {:induction false} RemoveFirst(body: seq<Element>, i: nat)
    requires i < |body| && HasOverlayId(body[i])
    requires forall j :: 0 <= j < i ==> !HasOverlayId(body[j])
    ensures CountOverlays(body[..i] + body[i + 1..]) == CountOverlays(body) - 1
    ensures PageContent(body[..i] + body[i + 1..]) == PageContent(body)
  {
    var before, single, after := body[..i], [body[i]], body[i + 1..];
    assert body == before + (single + after);
    assert single[1..] == [];
    assert CountOverlays(single) == 1 && PageContent(single) == [];
    CountAppend(before, single + after);
    CountAppend(single, after);
    CountAppend(before, after);
    PageContentAppend(before, single + after);
    PageContentAppend(single, after);
    PageContentAppend(before, after);
  }

  lemma {:induction false} CountAppend(a: seq<Element>, b: seq<Element>)
    ensures CountOverlays(a + b) == CountOverlays(a) + CountOverlays(b)
  {
    if a == [] {
      assert a + b == b;
    } else {
      assert (a + b)[1..] == a[1..] + b;
      CountAppend(a[1..], b);
    }
  }

  /** The lookup finds an element exactly when some element carries the id. */
  lemma {:induction false} FindCount(body: seq<Element>)
    ensures FindOverlay(body).None? <==> CountOverlays(body) == 0
  {
    if body != [] {
      FindCount(body[1..]);
    }
  }

  /** With at most one overlay in the body, none is left after a removal; and a
      body without one is left exactly as it was. */
  lemma RemovedLeavesNone(body: seq<Element>)
    requires CountOverlays(body) <= 1
    ensures CountOverlays(Removed(body)) == 0
    ensures CountOverlays(body) == 0 ==> Removed(body) == body
  {
  }

  /** An apply leaves exactly one overlay when enabled and none otherwise, and
      the one it leaves renders the configuration and is the one the lookup finds. */
  lemma AppliedOverlay(body: seq<Element>, c: MarkerConfig)
    requires CountOverlays(body) <= 1
    ensures CountOverlays(Applied(body, c)) == if c.enabled then 1 else 0
    ensures c.enabled ==> FindOverlay(Applied(body, c)) == Some(|Applied(body, c)| - 1)
    ensures c.enabled ==> Applied(body, c)[|Applied(body, c)| - 1] == OverlayFor(c)
  {
    RemovedLeavesNone(body);
    var rest := if c.enabled then [OverlayFor(c)] else [];
    CountAppend(Removed(body), rest);
    if c.enabled {
      FindAfterClean(Removed(body), OverlayFor(c));
    }
  }

  /** Behind a body without the id, an appended overlay is the one the lookup finds. */
  lemma {:induction false} FindAfterClean(body: seq<Element>, e: Element)
    requires CountOverlays(body) == 0 && HasOverlayId(e)
    ensures FindOverlay(body + [e]) == Some(|body|)
  {
    if body == [] {
      assert body + [e] == [e];
    } else {
      assert (body + [e])[1..] == body[1..] + [e];
      FindAfterClean(body[1..], e);
    }
  }

  /** Applying twice with the same configuration is applying once. */
  lemma AppliedIdempotent(body: seq<Element>, c: MarkerConfig)
    requires CountOverlays(body) <= 1
    ensures Applied(Applied(body, c), c) == Applied(body, c)
  {
    RemovedLeavesNone(body);
    var clean := Removed(body);
    if c.enabled {
      FindAfterClean(clean, OverlayFor(c));
      assert (clean + [OverlayFor(c)])[..|clean|] == clean;
      assert Removed(Applied(body, c)) == clean;
    } else {
      assert Applied(body, c) == clean;
      RemovedLeavesNone(clean);
    }
  }

  /** Removing what an apply appended gives the body with the old overlay removed. */
  lemma RemovedApplied(body: seq<Element>, c: MarkerConfig)
    requires CountOverlays(body) <= 1
    ensures Removed(Applied(body, c)) == Removed(body)
  {
    RemovedLeavesNone(body);
    var clean := Removed(body);
    if c.enabled {
      FindAfterClean(clean, OverlayFor(c));
      assert (clean + [OverlayFor(c)])[..|clean|] == clean;
    } else {
      assert Applied(body, c) == clean;
      RemovedLeavesNone(clean);
    }
  }

  /** The DOM document, whose body the marker appends to and removes from. */
  class Document {
    var body: seq<Element>

    constructor (initial: seq<Element>)
      ensures body == initial
    {
      body := initial;
    }

    /** `document.getElementById` for the overlay id. */
    method GetOverlay() returns (r: Option<nat>)
      ensures r == FindOverlay(body)
    {
      r := FindOverlay(body);
    }

    /** `element.remove()` on the element at position `i`. */
    method RemoveAt(i: nat)
      requires i < |body|
      modifies this
      ensures body == old(body)[..i] + old(body)[i + 1..]
    {
      body := body[..i] + body[i + 1..];
    }

    /** `document.body.appendChild`. */
    method AppendChild(e: Element)
      modifies this
      ensures body == old(body) + [e]
    {
      body := body + [e];
    }
  }
}
