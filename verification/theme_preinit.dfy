/**
 * The pre-initialisation script (js/modules/theme-preinit.js), run before
 * the stylesheets to avoid a flash of the wrong theme: a pure choice of
 * the initial theme, then one write of the html `dark` class and the
 * theme-color meta tag. Whether it runs at once or on a zero-delay timer
 * (depending on `document.readyState`) does not change what it writes.
 */
module ThemePreinit {
  import opened Js
  import opened Dom
  import opened Theme

  /** Reading `localStorage`: it may throw (storage disabled), or answer. */
  datatype StorageRead = Throws | Answers(value: Option<string>)

  /** `getStoredTheme()`: the stored value, or null when storage access throws. */
  function GetStoredTheme(access: StorageRead): (r: Option<string>)
    ensures access.Throws? ==> r.None?
    ensures access.Answers? ==> r == access.value
  {
    match access
    case Throws => None
    case Answers(v) => v
  }

  /** `getInitialTheme()`: a valid stored theme, else the system theme; the html class is never read. */
  function GetInitialTheme(access: StorageRead, media: MediaSupport): (r: string)
    ensures IsTheme(r)
  {
    var stored := GetStoredTheme(access);
    if IsSavedTheme(stored) then stored.value else SystemTheme(media)
  }

  /**
   * A valid stored theme is chosen whatever the system says; otherwise
   * (nothing stored, an invalid value, or storage that throws) the system
   * preference decides.
   */
  lemma InitialThemeSources(access: StorageRead, media: MediaSupport, media': MediaSupport)
    ensures access.Answers? && IsSavedTheme(access.value) ==>
              GetInitialTheme(access, media) == access.value.value == GetInitialTheme(access, media')
    ensures !(access.Answers? && IsSavedTheme(access.value)) ==> GetInitialTheme(access, media) == SystemTheme(media)
  {
  }

  /**
   * The script agrees with the manager: with the html element's `dark`
   * class the script leaves, the manager's detection picks the theme the
   * script chose.
   */
  lemma ManagerKeepsPreinitTheme(stored: Option<string>, media: MediaSupport)
    ensures var t := GetInitialTheme(Answers(stored), media);
            InitialTheme(stored, t == "dark", media) == t
  {
  }

  /**
   * The script's `applyTheme()`: the `dark` class is present exactly when
   * the initial theme is dark, no other class changes (`light` is neither
   * added nor removed), and the meta tag, when present, gets that theme's
   * colour.
   */
  method ApplyTheme(root: Root, access: StorageRead, media: MediaSupport) returns (theme: string)
    modifies root
    ensures theme == GetInitialTheme(access, media)
    ensures root.classes == DarkClassOnly(old(root.classes), theme)
    ensures root.themeColor == (if root.hasThemeColorMeta then Some(MetaColor(theme)) else old(root.themeColor))
    ensures root.colorScheme == old(root.colorScheme)
  {
    theme := GetInitialTheme(access, media);
    if theme == "dark" {
      root.classes := root.classes + {"dark"};
    } else {
      root.classes := root.classes - {"dark"};
    }
    if root.hasThemeColorMeta {
      root.themeColor := Some(MetaColor(theme));
    }
  }

  /**
   * The page as a whole: the script runs, then the manager starts on the
   * same storage and system preference; the manager's theme is the one
   * the script chose, even when the server sent `<html class="dark">`.
   */
  method PreinitThenManager(htmlClasses: set<string>, stored: Option<string>, media: MediaSupport) returns (preinit: string, managed: string)
    ensures preinit == managed
    ensures IsSavedTheme(stored) ==> managed == stored.value
  {
    var root := new Root(htmlClasses, true);
    var storage := new Storage(if stored.Some? then map[StorageKey := stored.value] else map[]);
    preinit := ApplyTheme(root, Answers(storage.GetItem(StorageKey)), media);
    ManagerKeepsPreinitTheme(storage.GetItem(StorageKey), media);
    var m := new ThemeManager(root, storage, false, {}, media);
    managed := m.theme;
  }
}
