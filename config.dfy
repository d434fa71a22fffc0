/** The marker's configuration record and the partial updates merged into it. */
module Config {

  datatype Option<+T> = None | Some(value: T)

  /** The stored names of the three declared modes. */
  const BlurName: string := "blur"
  const MaskName: string := "mask"
  const BothName: string := "both"

  predicate IsModeName(s: string) {
    s == BlurName || s == MaskName || s == BothName
  }

  /** Which effects the overlay renders. The mode read back from storage is a
      string cast to the mode type without a check, so any other string can
      stand in the record too; `Unrecognised` keeps it. */
  datatype Mode = Blur | Mask | Both | Unrecognised(name: string)

  /** A mode the record can actually hold: an unrecognised one never carries the
      name of a declared mode. */
  predicate WellFormedMode(m: Mode) {
    m.Unrecognised? ==> !IsModeName(m.name)
  }

  /** A mode a typed caller may pass in an update. */
  predicate DeclaredMode(m: Mode) {
    !m.Unrecognised?
  }

  /** The string a mode is stored as: one of the three names exactly for a
      declared mode, when the mode is well formed. */
  function ModeName(m: Mode): (s: string)
    ensures DeclaredMode(m) ==> IsModeName(s)
    ensures WellFormedMode(m) && IsModeName(s) ==> DeclaredMode(m)
  {
    match m
    case Blur => BlurName
    case Mask => MaskName
    case Both => BothName
    case Unrecognised(name) => name
  }

  function ParseMode(s: string): (m: Mode)
    ensures WellFormedMode(m)
    ensures DeclaredMode(m) <==> IsModeName(s)
  {
    if s == BlurName then Blur
    else if s == MaskName then Mask
    else if s == BothName then Both
    else Unrecognised(s)
  }

  /** Writing a mode and reading it back gives the same mode. */
  lemma ParseModeName(m: Mode)
    requires WellFormedMode(m)
    ensures ParseMode(ModeName(m)) == m
  {
  }

  /** Reading a stored string and writing it back gives the same string. */
  lemma ModeNameParse(s: string)
    ensures ModeName(ParseMode(s)) == s
  {
  }

  datatype Point = Point(x: real, y: real)

  datatype MarkerConfig = MarkerConfig(
    enabled: bool,
    blurAmount: real,
    maskOpacity: real,
    mode: Mode,
    excludeSelectors: seq<string>,
    showButton: bool,
    buttonPosition: Point)

  /** A `Partial<MarkerConfig>`: each field present or absent. */
  datatype ConfigUpdate = ConfigUpdate(
    enabled: Option<bool>,
    blurAmount: Option<real>,
    maskOpacity: Option<real>,
    mode: Option<Mode>,
    excludeSelectors: Option<seq<string>>,
    showButton: Option<bool>,
    buttonPosition: Option<Point>)

  /** The update type admits only the declared modes. */
  predicate TypedUpdate(u: ConfigUpdate) {
    u.mode.Some? ==> DeclaredMode(u.mode.value)
  }

  const NoChange: ConfigUpdate := ConfigUpdate(None, None, None, None, None, None, None)

  /** The update that carries every field of `c`. */
  function Whole(c: MarkerConfig): (u: ConfigUpdate)
    ensures forall f :: Carries(u, f)
  {
    ConfigUpdate(Some(c.enabled), Some(c.blurAmount), Some(c.maskOpacity), Some(c.mode),
                 Some(c.excludeSelectors), Some(c.showButton), Some(c.buttonPosition))
  }

  function Pick<T>(update: Option<T>, current: T): T {
    match update
    case Some(v) => v
    case None => current
  }

  /** `{ ...c, ...u }`: every field the update carries takes the update's value,
      and every other field keeps the value it had. */
  function Merge(c: MarkerConfig, u: ConfigUpdate): (r: MarkerConfig)
    ensures forall f :: Carries(u, f) ==> TakesUpdate(r, u, f)
    ensures forall f :: !Carries(u, f) ==> Agree(r, c, f)
  {
    MarkerConfig(
      Pick(u.enabled, c.enabled),
      Pick(u.blurAmount, c.blurAmount),
      Pick(u.maskOpacity, c.maskOpacity),
      Pick(u.mode, c.mode),
      Pick(u.excludeSelectors, c.excludeSelectors),
      Pick(u.showButton, c.showButton),
      Pick(u.buttonPosition, c.buttonPosition))
  }

  /** `{ ...u, ...v }`: one update followed by another, as a single update. */
  function Then(u: ConfigUpdate, v: ConfigUpdate): (w: ConfigUpdate)
    ensures forall f :: Carries(w, f) <==> Carries(u, f) || Carries(v, f)
  {
    ConfigUpdate(
      if v.enabled.Some? then v.enabled else u.enabled,
      if v.blurAmount.Some? then v.blurAmount else u.blurAmount,
      if v.maskOpacity.Some? then v.maskOpacity else u.maskOpacity,
      if v.mode.Some? then v.mode else u.mode,
      if v.excludeSelectors.Some? then v.excludeSelectors else u.excludeSelectors,
      if v.showButton.Some? then v.showButton else u.showButton,
      if v.buttonPosition.Some? then v.buttonPosition else u.buttonPosition)
  }

  datatype Field = EnabledField | BlurAmountField | MaskOpacityField | ModeField
                 | ExcludeSelectorsField | ShowButtonField | ButtonPositionField

  /** Whether an update carries field `f`. */
  predicate Carries(u: ConfigUpdate, f: Field) {
    match f
    case EnabledField => u.enabled.Some?
    case BlurAmountField => u.blurAmount.Some?
    case MaskOpacityField => u.maskOpacity.Some?
    case ModeField => u.mode.Some?
    case ExcludeSelectorsField => u.excludeSelectors.Some?
    case ShowButtonField => u.showButton.Some?
    case ButtonPositionField => u.buttonPosition.Some?
  }

  /** The update carries field `f`, and `r` holds the value it carries there. */
  predicate TakesUpdate(r: MarkerConfig, u: ConfigUpdate, f: Field) {
    match f
    case EnabledField => u.enabled == Some(r.enabled)
    case BlurAmountField => u.blurAmount == Some(r.blurAmount)
    case MaskOpacityField => u.maskOpacity == Some(r.maskOpacity)
    case ModeField => u.mode == Some(r.mode)
    case ExcludeSelectorsField => u.excludeSelectors == Some(r.excludeSelectors)
    case ShowButtonField => u.showButton == Some(r.showButton)
    case ButtonPositionField => u.buttonPosition == Some(r.buttonPosition)
  }

  /** Two records hold the same value in field `f`. */
  predicate Agree(a: MarkerConfig, b: MarkerConfig, f: Field) {
    match f
    case EnabledField => a.enabled == b.enabled
    case BlurAmountField => a.blurAmount == b.blurAmount
    case MaskOpacityField => a.maskOpacity == b.maskOpacity
    case ModeField => a.mode == b.mode
    case ExcludeSelectorsField => a.excludeSelectors == b.excludeSelectors
    case ShowButtonField => a.showButton == b.showButton
    case ButtonPositionField => a.buttonPosition == b.buttonPosition
  }

  /** The empty update changes nothing. */
  lemma MergeNoChange(c: MarkerConfig)
    ensures Merge(c, NoChange) == c
  {
  }

  /** An update that carries every field replaces the record outright. */
  lemma MergeWhole(c: MarkerConfig, d: MarkerConfig)
    ensures Merge(c, Whole(d)) == d
  {
  }

  /** Applying the same update twice is applying it once. */
  lemma MergeIdempotent(c: MarkerConfig, u: ConfigUpdate)
    ensures Merge(Merge(c, u), u) == Merge(c, u)
  {
  }

  /** Two updates in a row are the combined update. */
  lemma MergeThen(c: MarkerConfig, u: ConfigUpdate, v: ConfigUpdate)
    ensures Merge(Merge(c, u), v) == Merge(c, Then(u, v))
  {
  }

  /** A typed update keeps the mode well formed. */
  lemma MergeWellFormed(c: MarkerConfig, u: ConfigUpdate)
    requires WellFormedMode(c.mode) && TypedUpdate(u)
    ensures WellFormedMode(Merge(c, u).mode)
  {
  }
}
