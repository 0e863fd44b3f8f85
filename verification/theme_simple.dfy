/**
 * The simplified theme manager (js/modules/theme-simple.js): the same
 * stored theme and toggle as the full manager, but the initial theme
 * never consults the system preference, only the `dark` class is written
 * on the html element, and the toggle shows only `aria-pressed` and
 * `title`. Its toggle listens to clicks only.
 */
module ThemeSimple {
  import opened Js
  import opened Dom
  import opened Theme

  /** `detectInitialTheme()`: a valid stored theme, else dark for an html `dark` class, else light. */
  function SimpleInitialTheme(stored: Option<string>, htmlDark: bool): (r: string)
    ensures IsTheme(r)
  {
    if IsSavedTheme(stored) then stored.value
    else if htmlDark then "dark"
    else "light"
  }

  /**
   * The simplified detection is the full one with the system preference
   * taken as light: whatever the system says, it is never queried.
   */
  lemma SimpleIgnoresSystem(stored: Option<string>, htmlDark: bool, media: MediaSupport)
    ensures SimpleInitialTheme(stored, htmlDark) == InitialTheme(stored, htmlDark, NoMatchMedia)
    ensures media != MatchMedia(true) ==> SimpleInitialTheme(stored, htmlDark) == InitialTheme(stored, htmlDark, media)
  {
  }

  class SimpleThemeManager {
    const root: Root
    const storage: Storage
    const hasToggle: bool

    var theme: string
    var toggleAriaPressed: Option<string>
    var toggleTitle: Option<string>

    /** The toggle button, when there is one, shows `theme`. */
    predicate ToggleShowsTheme()
      reads this
    {
      hasToggle ==> toggleAriaPressed == Some(BoolToString(theme == "dark")) && toggleTitle == Some(ToggleLabel(theme))
    }

    predicate Valid()
      reads this
    {
      IsTheme(theme) && ToggleShowsTheme()
    }

    /** `new SimpleThemeManager()`: detect, apply, show; nothing is stored yet. */
    constructor (root: Root, storage: Storage, hasToggle: bool)
      modifies root
      ensures this.root == root && this.storage == storage && this.hasToggle == hasToggle
      ensures theme == SimpleInitialTheme(storage.GetItem(StorageKey), "dark" in old(root.classes))
      ensures root.classes == DarkClassOnly(old(root.classes), theme)
      ensures root.themeColor == old(root.themeColor) && root.colorScheme == old(root.colorScheme)
      ensures Valid()
    {
      this.root := root;
      this.storage := storage;
      this.hasToggle := hasToggle;
      theme := SimpleInitialTheme(storage.GetItem(StorageKey), "dark" in root.classes);
      toggleAriaPressed := None;
      toggleTitle := None;
      new;
      ApplyTheme(theme);
      UpdateToggleState();
    }

    /** `applyTheme(t)`: only the `dark` class, never `light`, the meta tag or `color-scheme`. */
    method ApplyTheme(t: string)
      modifies root
      ensures root.classes == DarkClassOnly(old(root.classes), t)
      ensures root.themeColor == old(root.themeColor) && root.colorScheme == old(root.colorScheme)
    {
      if t == "dark" {
        root.classes := root.classes + {"dark"};
      } else {
        root.classes := root.classes - {"dark"};
      }
    }

    /** `updateToggleState()`: with a toggle, `aria-pressed` and `title` follow `theme`. */
    method UpdateToggleState()
      modifies this
      ensures theme == old(theme)
      ensures IsTheme(theme) ==> Valid()
      ensures !hasToggle ==> toggleAriaPressed == old(toggleAriaPressed) && toggleTitle == old(toggleTitle)
      ensures hasToggle ==> ToggleShowsTheme()
    {
      if hasToggle {
        toggleAriaPressed := Some(BoolToString(theme == "dark"));
        toggleTitle := Some(ToggleLabel(theme));
      }
    }

    /** `setTheme(t)`: an invalid value changes nothing; a theme is set, applied, stored and shown. */
    method SetTheme(t: string)
      modifies this, root, storage
      ensures !IsTheme(t) ==> unchanged(this) && unchanged(root) && unchanged(storage)
      ensures IsTheme(t) ==>
                && theme == t
                && storage.items == old(storage.items)[StorageKey := t]
                && root.classes == DarkClassOnly(old(root.classes), t)
                && Valid()
    {
      if !IsTheme(t) {
        return;
      }
      theme := t;
      ApplyTheme(t);
      storage.SetItem(StorageKey, t);
      UpdateToggleState();
    }

    /** `toggleTheme()`, which a click on the toggle runs. */
    method ToggleTheme()
      modifies this, root, storage
      ensures theme == Toggled(old(theme))
      ensures storage.items == old(storage.items)[StorageKey := theme]
      ensures root.classes == DarkClassOnly(old(root.classes), theme)
      ensures Valid()
    {
      SetTheme(Toggled(theme));
    }
  }

  /**
   * The simplified manager never removes `light`: a page that starts with
   * `<html class="light">` keeps it after switching to dark, so both
   * classes are present, where the full manager leaves exactly one.
   */
  method LightClassSurvivesDark() returns (dark: bool, light: bool, fullLight: bool)
    ensures dark && light && !fullLight
  {
    var root := new Root({"light"}, false);
    var storage := new Storage(map[]);
    var m := new SimpleThemeManager(root, storage, true);
    m.ToggleTheme();
    dark, light := "dark" in root.classes, "light" in root.classes;
    var root' := new Root({"light"}, false);
    var storage' := new Storage(map[]);
    var full := new ThemeManager(root', storage', true, {}, NoMatchMedia);
    full.ToggleTheme();
    fullLight := "light" in root'.classes;
  }
}
