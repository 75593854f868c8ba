/** The `DarkModeToggle` component: the selected color theme, mirrored onto
    the root element's `data-theme` attribute and persisted under the
    `"theme"` key of `localStorage`.

    The component is a class over the shared `Document` and `LocalStorage`.
    Its two effects (the mount effect and the effect that re-runs when the
    selected mode or `mounted` changes) and the click handler are methods
    that callers invoke explicitly; the device's color-scheme preference is
    a parameter of the mount effect. */
module DarkModeToggle {
  import opened Optional
  import opened Host

  /** The values of `DarkModeToggleTypeEnum`. */
  const Light: string := "light"
  const Dark: string := "dark"

  /** The mode buttons, in order. */
  const Modes: seq<string> := [Light, Dark]

  /** The `localStorage` key of the theme preference. */
  const ThemeKey: string := "theme"

  /** The mode chosen on mount: a non-empty stored value as it is (it is not
      checked against the two modes), otherwise dark exactly when the device
      prefers a dark color scheme. */
  function InitialMode(stored: Option<string>, prefersDark: bool): (m: string)
    ensures m != ""
    ensures stored.Some? && stored.value != "" ==> m == stored.value
    ensures stored.None? || stored.value == "" ==> m in Modes && (m == Dark <==> prefersDark)
  {
    if stored.Some? && stored.value != "" then stored.value
    else if prefersDark then Dark else Light
  }

  /** Without a stored value, or with a stored value that is a mode, the
      initial mode is one of the two modes. */
  lemma InitialModeIsMode(stored: Option<string>, prefersDark: bool)
    requires stored.None? || stored.value in Modes || stored.value == ""
    ensures InitialMode(stored, prefersDark) in Modes
  {
  }

  /** The `active` flag of each mode button, in button order. */
  function ButtonStates(selected: string): (r: seq<bool>)
    ensures |r| == |Modes|
    ensures forall i :: 0 <= i < |r| ==> (r[i] <==> Modes[i] == selected)
  {
    [Light == selected, Dark == selected]
  }

  /** At most one mode button is active, and none is when the selected mode
      is a stored value that is neither light nor dark. */
  lemma ActiveButtons(selected: string)
    ensures !(ButtonStates(selected)[0] && ButtonStates(selected)[1])
    ensures (ButtonStates(selected)[0] || ButtonStates(selected)[1]) <==> selected in Modes
  {
  }

  class DarkModeToggle {
    const document: Document
    const storage: LocalStorage
    var modeSelected: string
    var mounted: bool

    /** First render: `useState(LIGHT)` and `useState(false)`. */
    constructor (document: Document, storage: LocalStorage)
      ensures this.document == document && this.storage == storage
      ensures modeSelected == Light && !mounted
    {
      this.document := document;
      this.storage := storage;
      modeSelected := Light;
      mounted := false;
    }

    /** The attribute, the stored theme and the selected mode agree. */
    ghost predicate Synced()
      reads this, document, storage
    {
      document.theme == Some(modeSelected)
      && ThemeKey in storage.items && storage.items[ThemeKey] == modeSelected
    }

    /** The mount effect. It sets the attribute but does not write storage. */
    method MountEffect(prefersDark: bool)
      modifies this, document
      ensures mounted
      ensures modeSelected == InitialMode(storage.GetItem(ThemeKey), prefersDark)
      ensures document.theme == Some(modeSelected)
    {
      mounted := true;
      var stored := storage.GetItem(ThemeKey);
      if stored.Some? && stored.value != "" {
        modeSelected := stored.value;
        document.SetTheme(stored.value);
        return;
      }
      var initialMode := if prefersDark then Dark else Light;
      modeSelected := initialMode;
      document.SetTheme(initialMode);
    }

    /** `handleChangeDarkMode`: the mode is always selected; the attribute
        and storage are written only once mounted. */
    method HandleChangeDarkMode(mode: string)
      modifies this, document, storage
      ensures modeSelected == mode && mounted == old(mounted)
      ensures old(mounted) ==> Synced() && storage.items == old(storage.items)[ThemeKey := mode]
      ensures !old(mounted) ==> document.theme == old(document.theme) && storage.items == old(storage.items)
      ensures mode == old(modeSelected) && old(!mounted || Synced()) ==>
                document.theme == old(document.theme) && storage.items == old(storage.items)
    {
      modeSelected := mode;
      if mounted {
        document.SetTheme(mode);
        storage.SetItem(ThemeKey, mode);
      }
    }

    /** The effect on `[modeSelected, mounted]`: once mounted it writes the
        selected mode to the attribute and to storage. */
    method SyncEffect()
      modifies document, storage
      ensures mounted ==> Synced() && storage.items == old(storage.items)[ThemeKey := modeSelected]
      ensures !mounted ==> document.theme == old(document.theme) && storage.items == old(storage.items)
    {
      if mounted {
        document.SetTheme(modeSelected);
        storage.SetItem(ThemeKey, modeSelected);
      }
    }

    /** Mounting and then running the effect it triggers: the initial
        choice, stored or device-derived, ends up in all three places. */
    method MountAndSync(prefersDark: bool)
      modifies this, document, storage
      ensures mounted && Synced()
      ensures modeSelected == InitialMode(old(storage.GetItem(ThemeKey)), prefersDark)
      ensures forall k :: k != ThemeKey ==> storage.GetItem(k) == old(storage.GetItem(k))
    {
      MountEffect(prefersDark);
      SyncEffect();
    }
  }
}
