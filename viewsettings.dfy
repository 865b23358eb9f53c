/** frontend/src/viewSettings.ts: the debug view's switches and the
    keyboard shortcuts that flip them. */
module ViewSettings {
  import opened Wrappers

  datatype ViewSettings = ViewSettings(
    animate: bool,
    focusOnHover: bool,
    showSpringArrows: bool,
    showGridPoints: bool,
    showGrid: bool,
    showGridNumbers: bool,
    // a normalised distance
    showSpringsThreshold: real,
    showSpringsByDistance: bool)

  /** The boolean fields of `ViewSettings`, as `keyof ViewSettings` names
      them. */
  datatype Setting =
    | Animate | FocusOnHover | ShowSpringArrows | ShowGridPoints
    | ShowGrid | ShowGridNumbers | ShowSpringsByDistance

  /** `viewSettings[setting]`. */
  function Get(v: ViewSettings, s: Setting): bool {
    match s
    case Animate => v.animate
    case FocusOnHover => v.focusOnHover
    case ShowSpringArrows => v.showSpringArrows
    case ShowGridPoints => v.showGridPoints
    case ShowGrid => v.showGrid
    case ShowGridNumbers => v.showGridNumbers
    case ShowSpringsByDistance => v.showSpringsByDistance
  }

  /** `toggleSetting`: a copy with the named field negated. */
  function ToggleSetting(v: ViewSettings, s: Setting): (r: ViewSettings)
    ensures Get(r, s) == !Get(v, s)
    ensures forall t :: t != s ==> Get(r, t) == Get(v, t)
    ensures r.showSpringsThreshold == v.showSpringsThreshold
  {
    match s
    case Animate => v.(animate := !v.animate)
    case FocusOnHover => v.(focusOnHover := !v.focusOnHover)
    case ShowSpringArrows => v.(showSpringArrows := !v.showSpringArrows)
    case ShowGridPoints => v.(showGridPoints := !v.showGridPoints)
    case ShowGrid => v.(showGrid := !v.showGrid)
    case ShowGridNumbers => v.(showGridNumbers := !v.showGridNumbers)
    case ShowSpringsByDistance => v.(showSpringsByDistance := !v.showSpringsByDistance)
  }

  /** The settings are fixed by their switches and threshold, so the
      contract of `ToggleSetting` leaves it no other result. */
  lemma SettingsExtensional(v: ViewSettings, w: ViewSettings)
    requires forall t :: Get(v, t) == Get(w, t)
    requires v.showSpringsThreshold == w.showSpringsThreshold
    ensures v == w
  {
    assert Get(v, Animate) == Get(w, Animate);
    assert Get(v, FocusOnHover) == Get(w, FocusOnHover);
    assert Get(v, ShowSpringArrows) == Get(w, ShowSpringArrows);
    assert Get(v, ShowGridPoints) == Get(w, ShowGridPoints);
    assert Get(v, ShowGrid) == Get(w, ShowGrid);
    assert Get(v, ShowGridNumbers) == Get(w, ShowGridNumbers);
    assert Get(v, ShowSpringsByDistance) == Get(w, ShowSpringsByDistance);
  }

  /** Toggling the same setting twice gives the settings back. */
  lemma ToggleTwice(v: ViewSettings, s: Setting)
    ensures ToggleSetting(ToggleSetting(v, s), s) == v
  {
    SettingsExtensional(ToggleSetting(ToggleSetting(v, s), s), v);
  }

  /** The `keyCodeToSetting` table. */
  function KeyCodeToSetting(keyCode: string): Option<Setting> {
    if keyCode == "KeyA" then Some(Animate)
    else if keyCode == "KeyS" then Some(ShowGridNumbers)
    else if keyCode == "KeyD" then Some(ShowGridPoints)
    else if keyCode == "KeyF" then Some(ShowGrid)
    else if keyCode == "KeyH" then Some(FocusOnHover)
    else if keyCode == "KeyQ" then Some(ShowSpringsByDistance)
    else if keyCode == "KeyW" then Some(ShowSpringArrows)
    else None
  }

  /** `updateViewSettings`: toggles the key's setting, or changes nothing
      for a key without one. */
  function UpdateViewSettings(v: ViewSettings, keyCode: string): (r: ViewSettings)
    ensures r.showSpringsThreshold == v.showSpringsThreshold
  {
    match KeyCodeToSetting(keyCode)
    case Some(s) => ToggleSetting(v, s)
    case None => v
  }

  /** A mapped key toggles exactly its setting; any other key leaves the
      settings as they are. */
  lemma UpdateSpec(v: ViewSettings, keyCode: string)
    ensures KeyCodeToSetting(keyCode).Some? ==>
      var s := KeyCodeToSetting(keyCode).value;
      Get(UpdateViewSettings(v, keyCode), s) == !Get(v, s) &&
      forall t :: t != s ==> Get(UpdateViewSettings(v, keyCode), t) == Get(v, t)
    ensures KeyCodeToSetting(keyCode).None? ==> UpdateViewSettings(v, keyCode) == v
    ensures keyCode !in {"KeyA", "KeyS", "KeyD", "KeyF", "KeyH", "KeyQ", "KeyW"} ==> UpdateViewSettings(v, keyCode) == v
  {
  }

  /** The key the table assigns to each setting. */
  function KeyFor(s: Setting): string {
    match s
    case Animate => "KeyA"
    case ShowGridNumbers => "KeyS"
    case ShowGridPoints => "KeyD"
    case ShowGrid => "KeyF"
    case FocusOnHover => "KeyH"
    case ShowSpringsByDistance => "KeyQ"
    case ShowSpringArrows => "KeyW"
  }

  /** The table is one-to-one and covers every boolean setting: a key maps
      to s exactly when it is KeyFor(s). */
  lemma KeyTableBijective(keyCode: string, s: Setting)
    ensures KeyCodeToSetting(keyCode) == Some(s) <==> keyCode == KeyFor(s)
  {
  }

  lemma KeyTableInjective(k1: string, k2: string)
    requires KeyCodeToSetting(k1).Some? && KeyCodeToSetting(k1) == KeyCodeToSetting(k2)
    ensures k1 == k2
  {
    KeyTableBijective(k1, KeyCodeToSetting(k1).value);
    KeyTableBijective(k2, KeyCodeToSetting(k1).value);
  }
}
