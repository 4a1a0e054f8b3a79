/**
 * The watermark settings of the editor and the functional updater that the
 * watermark panel hands to its state setter: one field changes, and the
 * change may also switch the watermark on and pick its type (text or
 * logo) on the way.
 */
module WatermarkControl {
  import opened Wrappers

  /** 'text' | 'logo' | null */
  datatype WatermarkType = NoType | TextType | LogoType

  datatype Position = TopLeft | TopRight | BottomLeft | BottomRight | Center | Diagonal | Tile

  /** A logo file is known to the model only by its identity. */
  type FileId = nat

  datatype Settings = Settings(
    enabled: bool,
    kind: WatermarkType,
    text: string,
    font: string,
    textColor: string,
    logoDataUrl: Option<string>,
    logoFile: Option<FileId>,
    opacity: real,
    size: real,
    position: Position)

  const DefaultWatermarkSettings: Settings := Settings(
    false, NoType, "BatchShots.com", "Arial", "#ffffff", None, None, 0.5, 10.0, BottomRight)

  /** A call `handleInputChange(field, value)`: the field and its new value. */
  datatype Change =
    | SetEnabled(newEnabled: bool)
    | SetType(newKind: WatermarkType)
    | SetText(newText: string)
    | SetFont(newFont: string)
    | SetTextColor(newTextColor: string)
    | SetLogoDataUrl(newLogoDataUrl: Option<string>)
    | SetLogoFile(newLogoFile: Option<FileId>)
    | SetOpacity(newOpacity: real)
    | SetSize(newSize: real)
    | SetPosition(newPosition: Position)
  {
    /** The settings shared by both watermark types: opacity, size, position, font, textColor. */
    predicate IsShared() {
      SetOpacity? || SetSize? || SetPosition? || SetFont? || SetTextColor?
    }
  }

  /** The computed key `[field]: value`, written last over the spread. */
  function Write(s: Settings, c: Change): Settings {
    match c
    case SetEnabled(v) => s.(enabled := v)
    case SetType(v) => s.(kind := v)
    case SetText(v) => s.(text := v)
    case SetFont(v) => s.(font := v)
    case SetTextColor(v) => s.(textColor := v)
    case SetLogoDataUrl(v) => s.(logoDataUrl := v)
    case SetLogoFile(v) => s.(logoFile := v)
    case SetOpacity(v) => s.(opacity := v)
    case SetSize(v) => s.(size := v)
    case SetPosition(v) => s.(position := v)
  }

  /** Every field that is neither `enabled`, nor `type`, nor the changed one is copied from prev. */
  predicate KeepsOtherFields(prev: Settings, next: Settings, c: Change) {
    (c.SetText? || next.text == prev.text) &&
    (c.SetFont? || next.font == prev.font) &&
    (c.SetTextColor? || next.textColor == prev.textColor) &&
    (c.SetLogoDataUrl? || next.logoDataUrl == prev.logoDataUrl) &&
    (c.SetLogoFile? || next.logoFile == prev.logoFile) &&
    (c.SetOpacity? || next.opacity == prev.opacity) &&
    (c.SetSize? || next.size == prev.size) &&
    (c.SetPosition? || next.position == prev.position)
  }

  /** The changed field holds the value passed in. */
  predicate HasValue(s: Settings, c: Change) {
    match c
    case SetEnabled(v) => s.enabled == v
    case SetType(v) => s.kind == v
    case SetText(v) => s.text == v
    case SetFont(v) => s.font == v
    case SetTextColor(v) => s.textColor == v
    case SetLogoDataUrl(v) => s.logoDataUrl == v
    case SetLogoFile(v) => s.logoFile == v
    case SetOpacity(v) => s.opacity == v
    case SetSize(v) => s.size == v
    case SetPosition(v) => s.position == v
  }

  /**
   * handleInputChange: the state after one change; `addTypeTab` is the tab
   * the panel shows, used as the type when a shared setting changes while
   * no type is chosen.
   */
  function HandleInputChange(prev: Settings, c: Change, addTypeTab: WatermarkType): (next: Settings)
    ensures HasValue(next, c) && KeepsOtherFields(prev, next, c)
    ensures c.SetType? ==> next.enabled && next.kind == c.newKind
    ensures c.SetText? ==> next.enabled && next.kind == TextType
    ensures c.SetLogoDataUrl? && c.newLogoDataUrl.Some? ==> next.enabled && next.kind == LogoType
    ensures c.SetLogoDataUrl? && c.newLogoDataUrl.None? ==> next == prev.(logoDataUrl := None)
    ensures c.IsShared() ==> next.enabled && next.kind == (if prev.kind == NoType then addTypeTab else prev.kind)
    ensures c.SetEnabled? ==> next.enabled == c.newEnabled && next.kind == (if c.newEnabled then prev.kind else NoType)
    ensures c.SetLogoFile? ==> next == prev.(logoFile := c.newLogoFile)
  {
    var (currentType, currentEnabled) :=
      if c.SetType? then (c.newKind, true)
      else if c.SetText? then (TextType, true)
      else if c.SetLogoDataUrl? && c.newLogoDataUrl.Some? then (LogoType, true)
      else if c.IsShared() then (if prev.kind == NoType then addTypeTab else prev.kind, true)
      else if c.SetEnabled? then (if !c.newEnabled then NoType else prev.kind, c.newEnabled)
      else (prev.kind, prev.enabled);
    Write(prev.(enabled := currentEnabled, kind := currentType), c)
  }

  /** The invariant every update keeps: a disabled watermark has no type. */
  predicate DisabledHasNoType(s: Settings) {
    !s.enabled ==> s.kind == NoType
  }

  lemma DefaultSettingsAreOff()
    ensures !DefaultWatermarkSettings.enabled && DefaultWatermarkSettings.kind == NoType
    ensures DefaultWatermarkSettings.text == "BatchShots.com"
    ensures DefaultWatermarkSettings.opacity == 0.5 && DefaultWatermarkSettings.size == 10.0
    ensures DefaultWatermarkSettings.position == BottomRight
    ensures DisabledHasNoType(DefaultWatermarkSettings)
  {
  }

  lemma ChangeKeepsInvariant(prev: Settings, c: Change, addTypeTab: WatermarkType)
    requires DisabledHasNoType(prev)
    ensures DisabledHasNoType(HandleInputChange(prev, c, addTypeTab))
  {
  }

  /** Repeating a change has no further effect. */
  lemma ChangeIsIdempotent(prev: Settings, c: Change, addTypeTab: WatermarkType)
    ensures var once := HandleInputChange(prev, c, addTypeTab);
      HandleInputChange(once, c, addTypeTab) == once
  {
  }

  /**
   * Ticking the enable box on the defaults switches the watermark on
   * without giving it a type: `enabled` alone does not pick one.
   */
  lemma EnableAloneLeavesNoType()
    ensures var s := HandleInputChange(DefaultWatermarkSettings, SetEnabled(true), TextType);
      s.enabled && s.kind == NoType
  {
  }

  /** A data URL is truthy when present and non-empty. */
  predicate HasLogo(s: Settings) {
    s.logoDataUrl.Some? && s.logoDataUrl.value != ""
  }

  /**
   * handleAddTypeTabSwitch: the tab always changes; the settings get a
   * type change only when the watermark is on, or when the logo tab is
   * chosen while a logo is loaded.
   */
  function AddTypeTabSwitch(s: Settings, addTypeTab: WatermarkType, newTab: WatermarkType): (r: (WatermarkType, Settings))
    ensures r.0 == newTab
    ensures (s.enabled || (newTab == LogoType && HasLogo(s))) ==>
      r.1.enabled && r.1.kind == newTab && r.1 == s.(enabled := true, kind := newTab)
    ensures !(s.enabled || (newTab == LogoType && HasLogo(s))) ==> r.1 == s
  {
    if s.enabled || (newTab == LogoType && HasLogo(s)) then
      (newTab, HandleInputChange(s, SetType(newTab), addTypeTab))
    else
      (newTab, s)
  }

  /** handleLogoUpload's update once the file is read: logo type, on, with the data URL and file. */
  function HandleLogoUpload(prev: Settings, dataUrl: string, file: FileId): (r: (WatermarkType, Settings))
    ensures r.0 == LogoType && r.1.enabled && r.1.kind == LogoType
    ensures r.1 == prev.(enabled := true, kind := LogoType, logoDataUrl := Some(dataUrl), logoFile := Some(file))
  {
    (LogoType, prev.(enabled := true, kind := LogoType, logoDataUrl := Some(dataUrl), logoFile := Some(file)))
  }

  /** From the defaults, any sequence of panel changes keeps the invariant. */
  lemma {:induction false} ChangesKeepInvariant(start: Settings, changes: seq<Change>, tab: WatermarkType)
    requires DisabledHasNoType(start)
    ensures DisabledHasNoType(ApplyAll(start, changes, tab))
    decreases |changes|
  {
    if |changes| > 0 {
      ChangeKeepsInvariant(start, changes[0], tab);
      ChangesKeepInvariant(HandleInputChange(start, changes[0], tab), changes[1..], tab);
    }
  }

  /** The settings after a sequence of changes made with the same tab open. */
  function ApplyAll(s: Settings, changes: seq<Change>, tab: WatermarkType): Settings
    decreases |changes|
  {
    if |changes| == 0 then s else ApplyAll(HandleInputChange(s, changes[0], tab), changes[1..], tab)
  }
}
