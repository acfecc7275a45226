/** The virtual-store editor: a configuration edited by partial updates, a
    dirty flag, Save (which hands the configuration to the page) and Reset
    (back to the defaults), with both buttons disabled while nothing has
    changed. */
module MetaverseEditor {
  import opened Common

  datatype Theme = Modern | Futuristic | Minimalist | Cyberpunk

  datatype Layout = Grid | Circle | Random | Showcase

  datatype Config = Config(
    theme: Theme,
    floorColor: string,
    wallColor: string,
    lightingIntensity: real,
    ambientMusic: bool,
    productLayout: Layout,
    specialEffects: bool)

  /** `defaultConfig`. */
  const DefaultConfig: Config := Config(Modern, "#1a1a1a", "#2a2a2a", 0.8, false, Grid, true)

  /** A `Partial<MetaverseConfig>`: the fields an update sets. */
  datatype Patch = Patch(
    theme: Option<Theme>,
    floorColor: Option<string>,
    wallColor: Option<string>,
    lightingIntensity: Option<real>,
    ambientMusic: Option<bool>,
    productLayout: Option<Layout>,
    specialEffects: Option<bool>)

  datatype Editor = Editor(config: Config, preview: bool, hasChanges: bool)

  /** The editor as it mounts. */
  function Initial(): (e: Editor)
    ensures e.config == DefaultConfig && !e.hasChanges && !e.preview
  {
    Editor(DefaultConfig, false, false)
  }

  function Pick<T>(o: Option<T>, current: T): T
  {
    if o.Some? then o.value else current
  }

  /** `{ ...prev, ...updates }`. */
  function ApplyPatch(c: Config, p: Patch): (r: Config)
    ensures p.theme.Some? ==> r.theme == p.theme.value
    ensures p.theme.None? ==> r.theme == c.theme
    ensures p.floorColor.Some? ==> r.floorColor == p.floorColor.value
    ensures p.floorColor.None? ==> r.floorColor == c.floorColor
    ensures p.wallColor.Some? ==> r.wallColor == p.wallColor.value
    ensures p.wallColor.None? ==> r.wallColor == c.wallColor
    ensures p.lightingIntensity.Some? ==> r.lightingIntensity == p.lightingIntensity.value
    ensures p.lightingIntensity.None? ==> r.lightingIntensity == c.lightingIntensity
    ensures p.ambientMusic.Some? ==> r.ambientMusic == p.ambientMusic.value
    ensures p.ambientMusic.None? ==> r.ambientMusic == c.ambientMusic
    ensures p.productLayout.Some? ==> r.productLayout == p.productLayout.value
    ensures p.productLayout.None? ==> r.productLayout == c.productLayout
    ensures p.specialEffects.Some? ==> r.specialEffects == p.specialEffects.value
    ensures p.specialEffects.None? ==> r.specialEffects == c.specialEffects
  {
    Config(Pick(p.theme, c.theme), Pick(p.floorColor, c.floorColor), Pick(p.wallColor, c.wallColor),
           Pick(p.lightingIntensity, c.lightingIntensity), Pick(p.ambientMusic, c.ambientMusic),
           Pick(p.productLayout, c.productLayout), Pick(p.specialEffects, c.specialEffects))
  }

  /** The empty patch. */
  const NoChange: Patch := Patch(None, None, None, None, None, None, None)

  /** `updateConfig(updates)`: the patch is applied and the editor is dirty,
      even when the patch changes nothing. */
  function Update(e: Editor, p: Patch): (r: Editor)
    ensures r.config == ApplyPatch(e.config, p) && r.hasChanges && r.preview == e.preview
  {
    e.(config := ApplyPatch(e.config, p), hasChanges := true)
  }

  /** `{ ...p, ...q }`: the later patch wins where both set a field. */
  function Merge(p: Patch, q: Patch): Patch
  {
    Patch(if q.theme.Some? then q.theme else p.theme,
          if q.floorColor.Some? then q.floorColor else p.floorColor,
          if q.wallColor.Some? then q.wallColor else p.wallColor,
          if q.lightingIntensity.Some? then q.lightingIntensity else p.lightingIntensity,
          if q.ambientMusic.Some? then q.ambientMusic else p.ambientMusic,
          if q.productLayout.Some? then q.productLayout else p.productLayout,
          if q.specialEffects.Some? then q.specialEffects else p.specialEffects)
  }

  /** Two updates in a row are one update with the merged patch; applying
      the same patch twice is applying it once; the empty patch keeps the
      configuration. */
  lemma UpdatesCompose(e: Editor, p: Patch, q: Patch)
    ensures Update(Update(e, p), q) == Update(e, Merge(p, q))
    ensures Update(Update(e, p), p) == Update(e, p)
    ensures Update(e, NoChange).config == e.config
  {
  }

  /** `handleSave()`: the current configuration goes to `onSave` and the
      editor is clean. */
  function HandleSave(e: Editor): (r: (Editor, Config))
    ensures r.1 == e.config && r.0.config == e.config && !r.0.hasChanges && r.0.preview == e.preview
  {
    (e.(hasChanges := false), e.config)
  }

  /** `handleReset()`: the defaults are back and the editor is dirty. */
  function HandleReset(e: Editor): (r: Editor)
    ensures r.config == DefaultConfig && r.hasChanges && r.preview == e.preview
  {
    e.(config := DefaultConfig, hasChanges := true)
  }

  /** Whether Save and Reset are disabled. */
  predicate ButtonsDisabled(e: Editor)
  {
    !e.hasChanges
  }

  /** A click on Save: nothing while disabled, otherwise the handler and what it emits. */
  function PressSave(e: Editor): (r: (Editor, Option<Config>))
    ensures ButtonsDisabled(e) ==> r == (e, None)
    ensures !ButtonsDisabled(e) ==>
      r.1 == Some(e.config) && !r.0.hasChanges && r.0.config == e.config && r.0.preview == e.preview
  {
    if ButtonsDisabled(e) then (e, None) else var s := HandleSave(e); (s.0, Some(s.1))
  }

  /** A click on Reset: nothing while disabled. */
  function PressReset(e: Editor): (r: Editor)
    ensures ButtonsDisabled(e) ==> r == e
    ensures !ButtonsDisabled(e) ==> r.config == DefaultConfig && r.hasChanges && r.preview == e.preview
  {
    if ButtonsDisabled(e) then e else HandleReset(e)
  }

  /** The preview toggle. */
  function TogglePreview(e: Editor): (r: Editor)
    ensures r.preview != e.preview && r.config == e.config && r.hasChanges == e.hasChanges
  {
    e.(preview := !e.preview)
  }

  /** Reset followed by Save hands the defaults to the page, whatever was
      edited before, as long as Reset was enabled. */
  lemma ResetThenSaveEmitsDefault(e: Editor)
    requires !ButtonsDisabled(e)
    ensures PressSave(PressReset(e)).1 == Some(DefaultConfig)
    ensures !PressSave(PressReset(e)).0.hasChanges
  {
  }

  /** After a save a second click on Save emits nothing, until the next edit. */
  lemma SaveIsOneShot(e: Editor, p: Patch)
    requires !ButtonsDisabled(e)
    ensures PressSave(PressSave(e).0).1 == None
    ensures PressSave(Update(PressSave(e).0, p)).1 == Some(ApplyPatch(e.config, p))
  {
  }

  /** On a fresh editor both buttons are disabled; any edit enables them. */
  lemma FreshEditorIsClean(p: Patch)
    ensures ButtonsDisabled(Initial())
    ensures PressSave(Initial()) == (Initial(), None) && PressReset(Initial()) == Initial()
    ensures !ButtonsDisabled(Update(Initial(), p))
  {
  }
}
