// The settings store: default settings, the two presets, loading the saved copy merged over the
// defaults, and the store operations that replace the value and write the saved copy.
module Settings {
  import opened Wrappers
  import opened JsValues

  const PoemTypeKey := "poemType"
  const PresetKey := "preset"

  /** Every setting and its default value. */
  const DefaultSettings: Object := map[
    "autoBackspace" := JBool(false),
    "enableShake" := JBool(true),
    "enableConfetti" := JBool(true),
    "enableGentleErrorPulse" := JBool(true),
    "lineGuideOnFocus" := JBool(true),
    "softSuccessPulse" := JBool(true),
    "poemType" := JStr("haiku"),
    "indicatorMode" := JStr("count"),
    "showProgressBar" := JBool(false),
    "hideHeader" := JBool(false),
    "enableEphemeralHints" := JBool(true),
    "preset" := JStr("default")
  ]

  /** The settings the focus preset changes (it says nothing about `poemType` or `preset`). */
  const FocusPreset: Object := map[
    "autoBackspace" := JBool(true),
    "enableShake" := JBool(false),
    "enableConfetti" := JBool(false),
    "enableGentleErrorPulse" := JBool(true),
    "lineGuideOnFocus" := JBool(true),
    "softSuccessPulse" := JBool(true),
    "indicatorMode" := JStr("minimal"),
    "showProgressBar" := JBool(true),
    "hideHeader" := JBool(true),
    "enableEphemeralHints" := JBool(true)
  ]

  /** The full focus settings: the defaults overlaid with the focus preset. */
  function FocusSettings(): (r: Object)
    ensures r.Keys == DefaultSettings.Keys
    ensures forall k :: k in FocusPreset ==> r[k] == FocusPreset[k]
    ensures forall k :: k in DefaultSettings && k !in FocusPreset ==> r[k] == DefaultSettings[k]
  {
    DefaultSettings + FocusPreset
  }

  /** `presets[name]`: the settings a preset name stands for, if it names one. */
  function Preset(name: string): (r: Option<Object>)
    ensures name == "default" ==> r == Some(DefaultSettings)
    ensures name == "focus" ==> r == Some(FocusSettings())
    ensures name != "default" && name != "focus" ==> r == None
  {
    if name == "default" then Some(DefaultSettings)
    else if name == "focus" then Some(FocusSettings())
    else None
  }

  /** `presets[name] || defaultSettings`: an unknown name falls back to the defaults. */
  function Base(name: string): (r: Object)
    ensures r.Keys == DefaultSettings.Keys
    ensures Preset(name).None? ==> r == DefaultSettings
  {
    match Preset(name)
    case Some(p) => p
    case None => DefaultSettings
  }

  /** A helper fact about the constant defaults, used by the proofs below; not a property of an operation. */
  lemma KeysOfDefaults()
    ensures PoemTypeKey in DefaultSettings && PresetKey in DefaultSettings
  {
    assert DefaultSettings[PoemTypeKey] == JStr("haiku");
    assert DefaultSettings[PresetKey] == JStr("default");
  }

  /**
   * The settings read back at start-up: the defaults overlaid with whatever the saved entry
   * spreads to, or a copy of the defaults when nothing is saved or it cannot be read.
   */
  function LoadSettings(saved: Stored): (r: Object)
    ensures DefaultSettings.Keys <= r.Keys
    ensures saved.Parsed? ==> forall k :: k in OwnFields(saved.value) ==> k in r && r[k] == OwnFields(saved.value)[k]
    ensures saved.Parsed? ==> forall k :: k in r ==> k in DefaultSettings || k in OwnFields(saved.value)
    ensures forall k :: k in DefaultSettings && !(saved.Parsed? && k in OwnFields(saved.value)) ==>
              r[k] == DefaultSettings[k]
    ensures !saved.Parsed? ==> r == DefaultSettings
  {
    match saved
    case Parsed(v) => DefaultSettings + OwnFields(v)
    case _ => DefaultSettings
  }

  /** A saved value that holds every setting reads back as itself. */
  lemma ReloadPersisted(v: Object)
    requires DefaultSettings.Keys <= v.Keys
    ensures LoadSettings(Persisted(v)) == v
  {
    var r := LoadSettings(Persisted(v));
    assert OwnFields(JObj(v)) == v;
    assert r.Keys == v.Keys;
  }

  /**
   * `applyPreset(name)` on the current settings: the current settings overlaid with the preset,
   * except that `poemType` keeps its current value (and stays unset when it is unset) and
   * `preset` becomes the name.
   */
  function ApplyPreset(current: Object, name: string): (r: Object)
    ensures PresetKey in r && r[PresetKey] == JStr(name)
    ensures PoemTypeKey in r <==> PoemTypeKey in current
    ensures PoemTypeKey in current ==> r[PoemTypeKey] == current[PoemTypeKey]
    ensures forall k :: k in Base(name) && k != PoemTypeKey && k != PresetKey ==> k in r && r[k] == Base(name)[k]
    ensures forall k :: k in current && k !in Base(name) ==> k in r && r[k] == current[k]
    ensures forall k :: k in r ==> k in current || k in Base(name)
  {
    KeysOfDefaults();
    var merged := current + Base(name);
    var kept := if PoemTypeKey in current then merged[PoemTypeKey := current[PoemTypeKey]] else merged - {PoemTypeKey};
    kept[PresetKey := JStr(name)]
  }

  /** Applying the same preset twice is applying it once. */
  lemma ApplyPresetIdempotent(current: Object, name: string)
    ensures ApplyPreset(ApplyPreset(current, name), name) == ApplyPreset(current, name)
  {
    var once := ApplyPreset(current, name);
    var twice := ApplyPreset(once, name);
    KeysOfDefaults();
    forall k | k in twice ensures k in once && twice[k] == once[k] {
      if k !in Base(name) {
        assert k in once;
      }
    }
    assert twice.Keys == once.Keys;
  }

  /** Settings that hold every setting still hold every setting after a preset is applied. */
  lemma ApplyPresetKeepsKeys(current: Object, name: string)
    requires DefaultSettings.Keys <= current.Keys
    ensures DefaultSettings.Keys <= ApplyPreset(current, name).Keys
  {
    KeysOfDefaults();
  }

  /**
   * The settings store: the value it holds and the saved entry it writes on every change.
   * Reading the saved entry at construction does not write it.
   */
  class SettingsStore {
    var value: Object
    var saved: Stored

    /** The saved copy is the value held. */
    predicate SavedMatches()
      reads this
    {
      saved == Persisted(value)
    }

    constructor (stored: Stored)
      ensures value == LoadSettings(stored)
      ensures saved == stored
    {
      value := LoadSettings(stored);
      saved := stored;
    }

    /** `set(v)`: save `v` and hold it. */
    method Set(v: Object)
      modifies this
      ensures value == v
      ensures SavedMatches()
    {
      saved := Persisted(v);
      value := v;
    }

    /** `update(updater)`: hold and save what the updater makes of the current value. */
    method Update(updater: Object -> Object)
      modifies this
      ensures value == updater(old(value))
      ensures SavedMatches()
    {
      var next := updater(value);
      saved := Persisted(next);
      value := next;
    }

    /** `reset()`: hold and save a copy of the defaults. */
    method Reset()
      modifies this
      ensures value == DefaultSettings
      ensures SavedMatches()
      ensures LoadSettings(saved) == DefaultSettings
    {
      var next := DefaultSettings;
      saved := Persisted(next);
      value := next;
      ReloadPersisted(next);
    }

    /** `applyPreset(name)`: hold and save the current value with the preset applied. */
    method ApplyPresetNamed(name: string)
      modifies this
      ensures value == ApplyPreset(old(value), name)
      ensures SavedMatches()
      ensures DefaultSettings.Keys <= old(value).Keys ==> LoadSettings(saved) == value
    {
      var next := ApplyPreset(value, name);
      saved := Persisted(next);
      if DefaultSettings.Keys <= value.Keys {
        ApplyPresetKeepsKeys(value, name);
        ReloadPersisted(next);
      }
      value := next;
    }
  }
}
