/**
 * The theme manager (js/modules/theme.js): a light or dark theme chosen
 * from the stored preference, the html element's class and the system
 * preference, shown as classes on `<html>`, the theme-color meta tag and
 * the state of the toggle button, and persisted in `localStorage`.
 *
 * The names defined here before the class (the storage key, the two
 * themes, the toggle, the meta colours, the system preference) are shared
 * with the pre-initialisation script and the simplified manager.
 */
module Theme {
  import opened Js
  import opened Dom

  const StorageKey: string := "kingspeech-theme"
  /** Added by every `applyTheme` and removed by a timer 300 ms later. */
  const TransitioningClass: string := "theme-transitioning"
  const DarkMetaColor: string := "#0F172A"
  const LightMetaColor: string := "#FFFFFF"
  /** The toggle's label and title: what a click switches to. */
  const ToLightLabel: string := "Переключить на светлую тему"
  const ToDarkLabel: string := "Переключить на тёмную тему"

  /** `['light', 'dark'].includes(t)` */
  predicate IsTheme(t: string) {
    t == "light" || t == "dark"
  }

  /** What `window.matchMedia('(prefers-color-scheme: dark)')` answers, if the browser has it. */
  datatype MediaSupport = NoMatchMedia | MatchMedia(prefersDark: bool)

  /** `getSystemTheme()`: dark only when `matchMedia` exists and matches. */
  function SystemTheme(media: MediaSupport): (r: string)
    ensures IsTheme(r)
    ensures r == "dark" <==> media == MatchMedia(true)
  {
    if media.MatchMedia? && media.prefersDark then "dark" else "light"
  }

  /** `savedTheme && ['light', 'dark'].includes(savedTheme)` */
  predicate IsSavedTheme(stored: Option<string>) {
    stored.Some? && IsTheme(stored.value)
  }

  /** `detectInitialTheme()`: a valid stored theme, else the html class, else the system. */
  function InitialTheme(stored: Option<string>, htmlDark: bool, media: MediaSupport): (r: string)
    ensures IsTheme(r)
  {
    if IsSavedTheme(stored) then stored.value
    else if htmlDark then "dark"
    else SystemTheme(media)
  }

  /**
   * The priority order: a valid stored theme wins whatever the page and
   * the system say; without one the theme is dark exactly when the html
   * element or the system asks for dark.
   */
  lemma InitialThemePriority(stored: Option<string>, htmlDark: bool, media: MediaSupport, htmlDark': bool, media': MediaSupport)
    ensures IsSavedTheme(stored) ==> InitialTheme(stored, htmlDark, media) == stored.value == InitialTheme(stored, htmlDark', media')
    ensures !IsSavedTheme(stored) ==> (InitialTheme(stored, htmlDark, media) == "dark" <==> htmlDark || media == MatchMedia(true))
  {
  }

  /** `this.theme === 'light' ? 'dark' : 'light'` */
  function Toggled(t: string): (r: string)
    ensures IsTheme(r)
    ensures r == "dark" <==> t == "light"
  {
    if t == "light" then "dark" else "light"
  }

  /** On a valid theme the toggle swaps the two themes, so toggling twice is the identity. */
  lemma ToggleInvolution(t: string)
    requires IsTheme(t)
    ensures Toggled(t) != t
    ensures Toggled(Toggled(t)) == t
  {
  }

  /** Anything that is not a theme toggles to light, and then back only as far as dark. */
  lemma ToggleOfInvalid(t: string)
    requires !IsTheme(t)
    ensures Toggled(t) == "light" && Toggled(Toggled(t)) == "dark"
  {
  }

  /** The theme-color meta tag's content for a theme. */
  function MetaColor(t: string): (r: string)
    ensures r == DarkMetaColor <==> t == "dark"
    ensures r == LightMetaColor <==> t != "dark"
  {
    if t == "dark" then DarkMetaColor else LightMetaColor
  }

  /** The html classes after `applyTheme(t)`. */
  function AppliedClasses(classes: set<string>, t: string): (r: set<string>)
    ensures ("dark" in r <==> t == "dark") && ("light" in r <==> t != "dark")
    ensures TransitioningClass in r
    ensures forall c :: c != "dark" && c != "light" && c != TransitioningClass ==> (c in r <==> c in classes)
  {
    var withTransition := classes + {TransitioningClass};
    if t == "dark" then withTransition + {"dark"} - {"light"}
    else withTransition - {"dark"} + {"light"}
  }

  /**
   * The html classes after the `applyTheme` of `theme-preinit.js` and of
   * `theme-simple.js`: `dark` is present exactly for the dark theme and no
   * other class changes, so `light` is neither added nor removed.
   */
  function DarkClassOnly(classes: set<string>, t: string): (r: set<string>)
    ensures "dark" in r <==> t == "dark"
    ensures forall c :: c != "dark" ==> (c in r <==> c in classes)
  {
    if t == "dark" then classes + {"dark"} else classes - {"dark"}
  }

  /** The toggle's `aria-label` and `title` while the theme is `t`. */
  function ToggleLabel(t: string): (r: string)
    ensures r == ToLightLabel <==> t == "dark"
  {
    if t == "dark" then ToLightLabel else ToDarkLabel
  }

  /** The manager once `init()` has run on a page with an html element and storage. */
  class ThemeManager {
    const root: Root
    const storage: Storage
    /** Whether `[data-theme-toggle]` exists. */
    const hasToggle: bool

    var theme: string
    /** The toggle button's `aria-label`, `aria-pressed`, `title` and class list. */
    var toggleAriaLabel: Option<string>
    var toggleAriaPressed: Option<string>
    var toggleTitle: Option<string>
    var toggleClasses: set<string>

    /** The toggle button, when there is one, shows `theme`. */
    predicate ToggleShowsTheme()
      reads this
    {
      hasToggle ==>
        && toggleAriaPressed == Some(BoolToString(theme == "dark"))
        && toggleAriaLabel == Some(ToggleLabel(theme))
        && toggleTitle == Some(ToggleLabel(theme))
        && ("theme-dark" in toggleClasses <==> theme == "dark")
        && ("theme-light" in toggleClasses <==> theme == "light")
    }

    predicate Valid()
      reads this
    {
      IsTheme(theme) && ToggleShowsTheme()
    }

    /**
     * `new ThemeManager()` with the system preference `media`: detects the
     * initial theme, applies it to the html element and shows it on the
     * toggle; nothing is stored yet.
     */
    constructor (root: Root, storage: Storage, hasToggle: bool, toggleClasses: set<string>, media: MediaSupport)
      modifies root
      ensures this.root == root && this.storage == storage && this.hasToggle == hasToggle
      ensures theme == InitialTheme(storage.GetItem(StorageKey), "dark" in old(root.classes), media)
      ensures root.classes == AppliedClasses(old(root.classes), theme)
      ensures root.themeColor == (if root.hasThemeColorMeta then Some(MetaColor(theme)) else old(root.themeColor))
      ensures root.colorScheme == Some(theme)
      ensures Valid()
    {
      this.root := root;
      this.storage := storage;
      this.hasToggle := hasToggle;
      theme := InitialTheme(storage.GetItem(StorageKey), "dark" in root.classes, media);
      toggleAriaLabel := None;
      toggleAriaPressed := None;
      toggleTitle := None;
      this.toggleClasses := toggleClasses;
      new;
      ApplyTheme(theme);
      UpdateToggleState();
    }

    /**
     * `applyTheme(t)`: marks the transition, leaves exactly one of `dark`
     * and `light` on the html element, sets the meta colour when the tag
     * exists and the `color-scheme` style. The `theme` field is not read.
     */
    method ApplyTheme(t: string)
      modifies root
      ensures root.classes == AppliedClasses(old(root.classes), t)
      ensures root.themeColor == (if root.hasThemeColorMeta then Some(MetaColor(t)) else old(root.themeColor))
      ensures root.colorScheme == Some(t)
    {
      root.classes := root.classes + {TransitioningClass};
      if t == "dark" {
        root.classes := root.classes + {"dark"};
        root.classes := root.classes - {"light"};
      } else {
        root.classes := root.classes - {"dark"};
        root.classes := root.classes + {"light"};
      }
      if root.hasThemeColorMeta {
        root.themeColor := Some(MetaColor(t));
      }
      root.colorScheme := Some(t);
    }

    /** The 300 ms timer `applyTheme` starts: the transition class goes, nothing else changes. */
    method TransitionTimerFired()
      modifies root
      ensures root.classes == old(root.classes) - {TransitioningClass}
    {
      root.classes := root.classes - {TransitioningClass};
    }

    /** `updateToggleState()`: with a toggle, its attributes and classes follow `theme`. */
    method UpdateToggleState()
      modifies this
      ensures theme == old(theme)
      ensures IsTheme(theme) ==> Valid()
      ensures !hasToggle ==> toggleAriaLabel == old(toggleAriaLabel) && toggleAriaPressed == old(toggleAriaPressed)
                             && toggleTitle == old(toggleTitle) && toggleClasses == old(toggleClasses)
      ensures hasToggle ==> ToggleShowsTheme()
      ensures forall c :: c != "theme-dark" && c != "theme-light" ==> (c in toggleClasses <==> c in old(toggleClasses))
    {
      if hasToggle {
        toggleAriaLabel := Some(ToggleLabel(theme));
        toggleAriaPressed := Some(BoolToString(theme == "dark"));
        toggleTitle := Some(ToggleLabel(theme));
        toggleClasses := if theme == "dark" then toggleClasses + {"theme-dark"} else toggleClasses - {"theme-dark"};
        toggleClasses := if theme == "light" then toggleClasses + {"theme-light"} else toggleClasses - {"theme-light"};
      }
    }

    /**
     * `setTheme(t)`: anything but 'light' and 'dark' changes nothing;
     * a theme becomes the field, is applied, is stored under
     * 'kingspeech-theme' and is shown on the toggle.
     */
    method SetTheme(t: string)
      modifies this, root, storage
      ensures !IsTheme(t) ==> unchanged(this) && unchanged(root) && unchanged(storage)
      ensures IsTheme(t) ==>
                && theme == t
                && storage.items == old(storage.items)[StorageKey := t]
                && root.classes == AppliedClasses(old(root.classes), t)
                && root.themeColor == (if root.hasThemeColorMeta then Some(MetaColor(t)) else old(root.themeColor))
                && root.colorScheme == Some(t)
                && Valid()
    {
      if !IsTheme(t) {
        return;
      }
      theme := t;
      ApplyTheme(t);
      storage.SetItem(StorageKey, t);
      UpdateToggleState();
    }

    /** `toggleTheme()`: sets the toggled theme; the sunset animation is not modelled. */
    method ToggleTheme()
      modifies this, root, storage
      ensures theme == Toggled(old(theme))
      ensures storage.items == old(storage.items)[StorageKey := theme]
      ensures root.classes == AppliedClasses(old(root.classes), theme)
      ensures root.themeColor == (if root.hasThemeColorMeta then Some(MetaColor(theme)) else old(root.themeColor))
      ensures root.colorScheme == Some(theme)
      ensures Valid()
    {
      SetTheme(Toggled(theme));
    }

    /** `keydown` on the toggle: Enter and Space toggle, other keys do nothing. */
    method OnToggleKeyDown(key: string)
      modifies this, root, storage
      ensures key == "Enter" || key == " " ==> theme == Toggled(old(theme)) && storage.items == old(storage.items)[StorageKey := theme]
      ensures !(key == "Enter" || key == " ") ==> unchanged(this) && unchanged(root) && unchanged(storage)
    {
      if key == "Enter" || key == " " {
        ToggleTheme();
      }
    }

    /**
     * A `change` of the system preference (the listener exists only with
     * `matchMedia`): when nothing non-empty is stored, the new preference
     * is applied to the page, but `theme` and the toggle keep their value.
     */
    method OnSystemChange(media: MediaSupport, matches: bool)
      modifies root
      ensures media.MatchMedia? && (storage.GetItem(StorageKey) == None || storage.GetItem(StorageKey) == Some("")) ==>
                root.classes == AppliedClasses(old(root.classes), if matches then "dark" else "light")
                && root.themeColor == (if root.hasThemeColorMeta then Some(MetaColor(if matches then "dark" else "light"))
                                       else old(root.themeColor))
                && root.colorScheme == Some(if matches then "dark" else "light")
      ensures !(media.MatchMedia? && (storage.GetItem(StorageKey) == None || storage.GetItem(StorageKey) == Some(""))) ==>
                unchanged(root)
    {
      if media.MatchMedia? {
        var stored := storage.GetItem(StorageKey);
        if stored == None || stored == Some("") {
          ApplyTheme(if matches then "dark" else "light");
        }
      }
    }

    /**
     * `resetToSystemTheme()`: removes the stored theme, then sets the
     * current system theme, which stores it again.
     */
    method ResetToSystemTheme(media: MediaSupport)
      modifies this, root, storage
      ensures theme == SystemTheme(media)
      ensures storage.items == old(storage.items)[StorageKey := SystemTheme(media)]
      ensures root.classes == AppliedClasses(old(root.classes), theme)
      ensures root.themeColor == (if root.hasThemeColorMeta then Some(MetaColor(theme)) else old(root.themeColor))
      ensures root.colorScheme == Some(theme)
      ensures Valid()
    {
      storage.RemoveItem(StorageKey);
      SetTheme(SystemTheme(media));
      assert storage.items == (old(storage.items) - {StorageKey})[StorageKey := SystemTheme(media)];
    }
  }

  /** Two clicks on the toggle restore the theme, and the stored value is that theme. */
  method ToggleTwiceRestores(stored: Option<string>, htmlClasses: set<string>, media: MediaSupport) returns (first: string, last: string, saved: Option<string>)
    ensures IsTheme(first) && first == InitialTheme(stored, "dark" in htmlClasses, media)
    ensures last == first && saved == Some(first)
  {
    var root := new Root(htmlClasses, true);
    var storage := new Storage(if stored.Some? then map[StorageKey := stored.value] else map[]);
    var m := new ThemeManager(root, storage, true, {}, media);
    first := m.theme;
    m.ToggleTheme();
    m.ToggleTheme();
    ToggleInvolution(first);
    last, saved := m.theme, storage.GetItem(StorageKey);
  }

  /**
   * Once the toggle has been used a theme is stored, so a later change of
   * the system preference no longer reaches the page.
   */
  method SystemChangeAfterToggle(media: MediaSupport, matches: bool) returns (dark: bool, theme: string)
    ensures theme == Toggled(SystemTheme(media)) && (dark <==> theme == "dark")
  {
    var root := new Root({}, false);
    var storage := new Storage(map[]);
    var m := new ThemeManager(root, storage, true, {}, media);
    m.ToggleTheme();
    m.OnSystemChange(media, matches);
    dark, theme := "dark" in root.classes, m.theme;
  }
}
