/** Persistence of the configuration: one key per field in a key-value store.
    The userscript host's value API and the browser's local storage fallback
    are one abstract store here. */
module Storage {
  import opened Config

  /** The values the marker writes. */
  datatype Value =
    | BoolValue(b: bool)
    | NumberValue(n: real)
    | StringValue(s: string)
    | ListValue(items: seq<string>)
    | PointValue(p: Point)

  const EnabledKey: string := "marker_enabled"
  const BlurAmountKey: string := "marker_blur_amount"
  const MaskOpacityKey: string := "marker_mask_opacity"
  const ModeKey: string := "marker_mode"
  const ExcludeSelectorsKey: string := "marker_exclude_selectors"
  const ShowButtonKey: string := "marker_show_button"
  const ButtonPositionKey: string := "marker_button_position"

  const MarkerKeys: set<string> := {EnabledKey, BlurAmountKey, MaskOpacityKey, ModeKey,
                                    ExcludeSelectorsKey, ShowButtonKey, ButtonPositionKey}

  /** The defaults read for keys that were never written. */
  const DefaultEnabled: bool := false
  const DefaultBlurAmount: real := 8.0
  const DefaultMaskOpacity: real := 0.9
  const DefaultMode: Mode := Both
  const DefaultShowButton: bool := true

  /** The key-value store, which the marker writes one key at a time. */
  class Store {
    var entries: map<string, Value>

    constructor (initial: map<string, Value>)
      ensures entries == initial
    {
      entries := initial;
    }

    /** `GM_getValue`: the stored value, or `default` when the key was never written. */
    function Get(key: string, default: Value): (v: Value)
      reads this
      ensures key in entries ==> v == entries[key]
      ensures key !in entries ==> v == default
    {
      Lookup(entries, key, default)
    }

    method Set(key: string, v: Value)
      modifies this
      ensures entries == old(entries)[key := v]
    {
      entries := entries[key := v];
    }
  }

  /** The lookup both storage backends perform: the value written last under
      `key`, or `default` when the key was never written. */
  function Lookup(entries: map<string, Value>, key: string, default: Value): Value {
    if key in entries then entries[key] else default
  }

  /** A read right after a write of `key` gives the written value, and a write
      of `key` leaves every other key's read as it was. */
  lemma LookupAfterWrite(entries: map<string, Value>, key: string, v: Value, other: string, default: Value)
    ensures Lookup(entries[key := v], key, default) == v
    ensures other != key ==> Lookup(entries[key := v], other, default) == Lookup(entries, other, default)
  {
  }

  /** The stored flag when a flag is stored; the default when the key is absent
      or holds a value of another kind. */
  function ReadBool(entries: map<string, Value>, key: string, default: bool): (r: bool)
    ensures key in entries && entries[key].BoolValue? ==> entries[key] == BoolValue(r)
    ensures !(key in entries && entries[key].BoolValue?) ==> r == default
  {
    match Lookup(entries, key, BoolValue(default))
    case BoolValue(b) => b
    case _ => default
  }

  /** The stored number when a number is stored; the default otherwise. */
  function ReadNumber(entries: map<string, Value>, key: string, default: real): (r: real)
    ensures key in entries && entries[key].NumberValue? ==> entries[key] == NumberValue(r)
    ensures !(key in entries && entries[key].NumberValue?) ==> r == default
  {
    match Lookup(entries, key, NumberValue(default))
    case NumberValue(n) => n
    case _ => default
  }

  /** The stored string cast to a mode when a string is stored; the default otherwise. */
  function ReadMode(entries: map<string, Value>, key: string, default: Mode): (r: Mode)
    requires WellFormedMode(default)
    ensures key in entries && entries[key].StringValue? ==> entries[key] == StringValue(ModeName(r))
    ensures !(key in entries && entries[key].StringValue?) ==> r == default
  {
    match Lookup(entries, key, StringValue(ModeName(default)))
    case StringValue(s) => ModeNameParse(s); ParseModeName(default); ParseMode(s)
    case _ => default
  }

  /** The stored point when a point is stored; the default otherwise. */
  function ReadPoint(entries: map<string, Value>, key: string, default: Point): (r: Point)
    ensures key in entries && entries[key].PointValue? ==> entries[key] == PointValue(r)
    ensures !(key in entries && entries[key].PointValue?) ==> r == default
  {
    match Lookup(entries, key, PointValue(default))
    case PointValue(p) => p
    case _ => default
  }

  /** The record built from the store when the marker starts. The stored
      selector list is never read: the record always starts with none.
      `defaultPosition` stands for the position derived from the viewport. */
  function Load(entries: map<string, Value>, defaultPosition: Point): (c: MarkerConfig)
    ensures c.excludeSelectors == []
    ensures WellFormedMode(c.mode)
  {
    MarkerConfig(
      ReadBool(entries, EnabledKey, DefaultEnabled),
      ReadNumber(entries, BlurAmountKey, DefaultBlurAmount),
      ReadNumber(entries, MaskOpacityKey, DefaultMaskOpacity),
      ReadMode(entries, ModeKey, DefaultMode),
      [],
      ReadBool(entries, ShowButtonKey, DefaultShowButton),
      ReadPoint(entries, ButtonPositionKey, defaultPosition))
  }

  /** The store after the seven writes of a save, in the order they are made:
      the seven marker keys are added and every other key keeps its value. */
  function Saved(entries: map<string, Value>, c: MarkerConfig): (r: map<string, Value>)
    ensures r.Keys == entries.Keys + MarkerKeys
    ensures forall k :: k in entries && k !in MarkerKeys ==> r[k] == entries[k]
  {
    entries
      [EnabledKey := BoolValue(c.enabled)]
      [BlurAmountKey := NumberValue(c.blurAmount)]
      [MaskOpacityKey := NumberValue(c.maskOpacity)]
      [ModeKey := StringValue(ModeName(c.mode))]
      [ExcludeSelectorsKey := ListValue(c.excludeSelectors)]
      [ShowButtonKey := BoolValue(c.showButton)]
      [ButtonPositionKey := PointValue(c.buttonPosition)]
  }

  /** A store nothing was written to loads as the documented defaults. */
  lemma LoadEmpty(defaultPosition: Point)
    ensures Load(map[], defaultPosition)
         == MarkerConfig(false, 8.0, 0.9, Both, [], true, defaultPosition)
  {
  }

  /** A save followed by a load gives back the record, except for the
      selector list, which always loads empty. */
  lemma LoadSaved(entries: map<string, Value>, c: MarkerConfig, defaultPosition: Point)
    requires WellFormedMode(c.mode)
    ensures Load(Saved(entries, c), defaultPosition) == c.(excludeSelectors := [])
  {
    ParseModeName(c.mode);
  }

  /** Whatever is stored under the selector key has no effect on a load. */
  lemma LoadIgnoresSelectors(entries: map<string, Value>, v: Value, defaultPosition: Point)
    ensures Load(entries[ExcludeSelectorsKey := v], defaultPosition) == Load(entries, defaultPosition)
  {
  }

  /** A save writes each field under its own key, whatever the store held before. */
  lemma SavedKeys(entries: map<string, Value>, c: MarkerConfig)
    ensures Saved(entries, c)[EnabledKey] == BoolValue(c.enabled)
    ensures Saved(entries, c)[BlurAmountKey] == NumberValue(c.blurAmount)
    ensures Saved(entries, c)[MaskOpacityKey] == NumberValue(c.maskOpacity)
    ensures Saved(entries, c)[ModeKey] == StringValue(ModeName(c.mode))
    ensures Saved(entries, c)[ExcludeSelectorsKey] == ListValue(c.excludeSelectors)
    ensures Saved(entries, c)[ShowButtonKey] == BoolValue(c.showButton)
    ensures Saved(entries, c)[ButtonPositionKey] == PointValue(c.buttonPosition)
  {
  }

  /** Only the last of two saves is visible. */
  lemma SavedTwice(entries: map<string, Value>, c: MarkerConfig, d: MarkerConfig)
    ensures Saved(Saved(entries, c), d) == Saved(entries, d)
  {
  }
}
