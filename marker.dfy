/** The marker controller: it holds the configuration, writes it to the store
    and puts the overlay into the document or takes it out. */
module Marker {
  import opened Config
  import opened Storage
  import opened Dom

  /** The configuration after a toggle. */
  function Toggled(c: MarkerConfig): (t: MarkerConfig)
    ensures t.enabled != c.enabled
    ensures t.(enabled := c.enabled) == c
  {
    c.(enabled := !c.enabled)
  }

  /** The body after a toggle of configuration `c`: the overlay is redrawn when
      the toggle enables the marker, and taken out when it disables it. The
      page's own content is untouched either way. */
  function ToggledBody(body: seq<Element>, c: MarkerConfig): (r: seq<Element>)
    ensures PageContent(r) == PageContent(body)
    ensures Toggled(c).enabled ==> |r| > 0 && r[|r| - 1] == OverlayFor(Toggled(c))
  {
    if Toggled(c).enabled then Applied(body, Toggled(c)) else Removed(body)
  }

  /** A toggle leaves an overlay exactly when it enables the marker. */
  lemma ToggledOverlay(body: seq<Element>, c: MarkerConfig)
    requires CountOverlays(body) <= 1
    ensures CountOverlays(ToggledBody(body, c)) == if Toggled(c).enabled then 1 else 0
  {
    if Toggled(c).enabled {
      AppliedOverlay(body, Toggled(c));
    } else {
      RemovedLeavesNone(body);
    }
  }

  /** Two toggles restore the configuration, and leave the body as one apply
      (from enabled) or one removal (from disabled) would have. */
  lemma ToggleTwice(body: seq<Element>, c: MarkerConfig)
    requires CountOverlays(body) <= 1
    ensures Toggled(Toggled(c)) == c
    ensures ToggledBody(ToggledBody(body, c), Toggled(c))
         == if c.enabled then Applied(body, c) else Removed(body)
  {
    var once := ToggledBody(body, c);
    if c.enabled {
      RemovedLeavesNone(body);
      assert once == Removed(body);
      RemovedLeavesNone(once);
    } else {
      RemovedApplied(body, Toggled(c));
    }
  }

  /** On a fresh store, the first toggle enables the marker and draws an
      overlay holding a blur layer of radius 8 and then a mask layer of opacity 0.9. */
  lemma FirstToggle(body: seq<Element>, defaultPosition: Point)
    requires CountOverlays(body) <= 1
    ensures Toggled(Load(map[], defaultPosition)).enabled
    ensures var after := ToggledBody(body, Load(map[], defaultPosition));
            |after| > 0 && after[|after| - 1] == Overlay([BlurLayer(8.0), MaskLayer(0.9)])
  {
    LoadEmpty(defaultPosition);
    AppliedOverlay(body, Toggled(Load(map[], defaultPosition)));
  }

  /** Updating the blur amount of an enabled marker redraws the overlay with the
      new radius and the old opacity. */
  lemma UpdateBlurRedraws(body: seq<Element>, c: MarkerConfig, amount: real)
    requires CountOverlays(body) <= 1 && c.enabled && c.mode.Both?
    ensures var u := NoChange.(blurAmount := Some(amount));
            var after := Applied(body, Merge(c, u));
            |after| > 0 && after[|after| - 1] == Overlay([BlurLayer(amount), MaskLayer(c.maskOpacity)])
  {
    AppliedOverlay(body, Merge(c, NoChange.(blurAmount := Some(amount))));
  }

  /** `PageMarker`. Its store and document are the page's and never replaced. */
  class PageMarker {
    var config: MarkerConfig
    const store: Store
    const doc: Document

    ghost predicate Valid()
      reads this, doc
    {
      WellFormedMode(config.mode) && CountOverlays(doc.body) <= 1
    }

    /** The private constructor: the configuration is loaded from the store.
        `defaultPosition` is the viewport-derived default button position. */
    constructor (store: Store, doc: Document, defaultPosition: Point)
      requires CountOverlays(doc.body) <= 1
      ensures this.store == store && this.doc == doc
      ensures config == Load(store.entries, defaultPosition)
      ensures Valid()
    {
      this.store := store;
      this.doc := doc;
      config := Load(store.entries, defaultPosition);
    }

    /** Writes each field under its own key. */
    method SaveConfig()
      modifies store
      ensures store.entries == Saved(old(store.entries), config)
    {
      store.Set(EnabledKey, BoolValue(config.enabled));
      store.Set(BlurAmountKey, NumberValue(config.blurAmount));
      store.Set(MaskOpacityKey, NumberValue(config.maskOpacity));
      store.Set(ModeKey, StringValue(ModeName(config.mode)));
      store.Set(ExcludeSelectorsKey, ListValue(config.excludeSelectors));
      store.Set(ShowButtonKey, BoolValue(config.showButton));
      store.Set(ButtonPositionKey, PointValue(config.buttonPosition));
    }

    /** A copy of the configuration: a value, so no later change to the marker
        reaches it. */
    function GetConfig(): (c: MarkerConfig)
      reads this
      ensures c == config
    {
      config
    }

    function IsEnabled(): (enabled: bool)
      reads this
      ensures enabled == config.enabled
    {
      config.enabled
    }

    /** Merges the update, saves the whole record and, when the result is
        enabled, redraws the overlay; when it is disabled the document is not touched. */
    method UpdateConfig(u: ConfigUpdate)
      requires Valid() && TypedUpdate(u)
      modifies this, store, doc
      ensures Valid()
      ensures config == Merge(old(config), u)
      ensures store.entries == Saved(old(store.entries), config)
      ensures doc.body == if config.enabled then Applied(old(doc.body), config) else old(doc.body)
      ensures config.enabled ==> CountOverlays(doc.body) == 1
    {
      MergeWellFormed(config, u);
      config := Merge(config, u);
      SaveConfig();
      if config.enabled {
        ApplyMarker();
      }
    }

    /** A new overlay element: it carries the overlay id and has no children yet. */
    function CreateMaskLayer(): (e: Element)
      ensures HasOverlayId(e) && e.Overlay? && e.layers == []
    {
      Overlay([])
    }

    /** Clears the overlay's children and appends the layers the mode asks for. */
    method UpdateMaskLayer(layer: Element) returns (filled: Element)
      requires layer.Overlay?
      ensures filled == OverlayFor(config)
    {
      var children: seq<Layer> := [];
      if config.mode == Blur || config.mode == Both {
        children := children + [BlurLayer(config.blurAmount)];
      }
      if config.mode == Mask || config.mode == Both {
        children := children + [MaskLayer(config.maskOpacity)];
      }
      filled := layer.(layers := children);
    }

    /** Removes any overlay, then appends a fresh one when enabled. */
    method ApplyMarker()
      requires Valid()
      modifies doc
      ensures Valid()
      ensures doc.body == Applied(old(doc.body), config)
      ensures CountOverlays(doc.body) == if config.enabled then 1 else 0
    {
      RemoveMarker();
      if !config.enabled {
        AppliedOverlay(old(doc.body), config);
        return;
      }
      var layer := CreateMaskLayer();
      layer := UpdateMaskLayer(layer);
      doc.AppendChild(layer);
      AppliedOverlay(old(doc.body), config);
    }

    /** Removes the element the id lookup finds, if there is one. */
    method RemoveMarker()
      modifies doc
      ensures doc.body == Removed(old(doc.body))
      ensures CountOverlays(old(doc.body)) <= 1 ==> CountOverlays(doc.body) == 0
      ensures CountOverlays(old(doc.body)) == 0 ==> doc.body == old(doc.body)
    {
      var existing := doc.GetOverlay();
      if existing.Some? {
        doc.RemoveAt(existing.value);
      }
      if CountOverlays(old(doc.body)) <= 1 {
        RemovedLeavesNone(old(doc.body));
      }
    }

    /** Flips `enabled`, saves the record, redraws or removes the overlay, and
        returns the new flag. */
    method Toggle() returns (enabled: bool)
      requires Valid()
      modifies this, store, doc
      ensures Valid()
      ensures config == Toggled(old(config))
      ensures enabled == config.enabled
      ensures store.entries == Saved(old(store.entries), config)
      ensures doc.body == ToggledBody(old(doc.body), old(config))
      ensures CountOverlays(doc.body) == if enabled then 1 else 0
    {
      config := config.(enabled := !config.enabled);
      SaveConfig();
      if config.enabled {
        ApplyMarker();
      } else {
        RemoveMarker();
      }
      enabled := config.enabled;
      ToggledOverlay(old(doc.body), old(config));
    }
  }

  /** The page: its store, its document and the slot of the single marker. */
  class Page {
    var marker: PageMarker?
    const store: Store
    const doc: Document

    ghost predicate Valid()
      reads this, marker, doc
    {
      && CountOverlays(doc.body) <= 1
      && (marker != null ==> marker.store == store && marker.doc == doc && marker.Valid())
    }

    constructor (store: Store, doc: Document)
      requires CountOverlays(doc.body) <= 1
      ensures this.store == store && this.doc == doc && marker == null
      ensures Valid()
    {
      this.store := store;
      this.doc := doc;
      marker := null;
    }

    /** The first call creates the marker and loads its configuration; every
        later call returns that same marker without loading again. */
    method GetInstance(defaultPosition: Point) returns (m: PageMarker)
      requires Valid()
      modifies this
      ensures Valid() && marker == m
      ensures m.store == store && m.doc == doc
      ensures old(marker) != null ==> m == old(marker) && m.config == old(marker.config)
      ensures old(marker) == null ==> fresh(m) && m.config == Load(store.entries, defaultPosition)
    {
      if marker == null {
        marker := new PageMarker(store, doc, defaultPosition);
      }
      m := marker;
    }
  }
}
