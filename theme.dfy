/**
 * The light/dark theme preference: read once when the page hydrates (from
 * the stored "theme" entry, falling back to the system colour-scheme
 * preference), applied to the document's `dark` class and written back to
 * storage on every change, and flipped by the toggle button.
 *
 * The browser is not modelled: the stored entry and the class membership
 * are fields of the state, and the system preference is a parameter.
 */
module Theme {
  import opened Wrappers

  /** The value written under the "theme" key. */
  function ThemeValue(dark: bool): string
  {
    if dark then "dark" else "light"
  }

  /** JavaScript truthiness of what `localStorage.getItem` returns: `null`
      (no entry) and the empty string are falsy. */
  predicate Truthy(stored: Option<string>)
  {
    stored.Some? && stored.value != ""
  }

  /** `savedTheme === "dark" || (!savedTheme && prefersDark)`: dark when the
      stored value says so, or when nothing usable is stored and the system
      prefers dark. */
  function InitialDarkMode(saved: Option<string>, prefersDark: bool): (dark: bool)
    ensures dark <==> saved == Some("dark") || ((saved == None || saved == Some("")) && prefersDark)
  {
    (saved.Some? && saved.value == "dark") || (!Truthy(saved) && prefersDark)
  }

  /** What the page writes is what it reads back on the next load, whatever
      the system preference is then. */
  lemma ReloadKeepsChoice(dark: bool, prefersDark: bool)
    ensures InitialDarkMode(Some(ThemeValue(dark)), prefersDark) == dark
  {
  }

  /** A non-empty stored value decides alone; the system preference only
      matters when nothing usable is stored. */
  lemma StoredValueDecides(saved: Option<string>, prefers1: bool, prefers2: bool)
    requires Truthy(saved)
    ensures InitialDarkMode(saved, prefers1) == InitialDarkMode(saved, prefers2)
    ensures InitialDarkMode(saved, prefers1) <==> saved.value == "dark"
  {
  }

  /** The theme state of the page. */
  class ThemeState {
    var isClient: bool
    var isDarkMode: bool
    /** The "theme" entry of local storage; None when there is none. */
    var storedTheme: Option<string>
    /** Whether the document element carries the `dark` class. */
    var darkClass: bool

    /** The document and the storage agree with the flag. */
    ghost predicate Applied()
      reads this
    {
      darkClass == isDarkMode && storedTheme == Some(ThemeValue(isDarkMode))
    }

    /** Once the page runs in the browser, every change has been applied. */
    ghost predicate Valid()
      reads this
    {
      isClient ==> Applied()
    }

    /** The first (server) render: light, not yet in the browser; the
        stored entry is whatever an earlier visit left. */
    constructor (stored: Option<string>)
      ensures Valid()
      ensures !isClient && !isDarkMode && storedTheme == stored && !darkClass
    {
      isClient := false;
      isDarkMode := false;
      storedTheme := stored;
      darkClass := false;
    }

    /** The effect that applies the flag: on the client it sets or removes
        the `dark` class and stores "dark" or "light"; before that it does
        nothing. */
    method ApplyTheme()
      modifies this`darkClass, this`storedTheme
      ensures isClient ==> Applied()
      ensures !isClient ==> darkClass == old(darkClass) && storedTheme == old(storedTheme)
    {
      if !isClient {
        return;
      }
      if isDarkMode {
        darkClass := true;
        storedTheme := Some("dark");
      } else {
        darkClass := false;
        storedTheme := Some("light");
      }
    }

    /** Hydration. In the commit that sets `isClient`, the initialising
        effect reads the stored entry (and the system preference), and the
        applying effect runs with the flag as it still is; when the first
        effect turned dark mode on, the applying effect runs once more. */
    method Hydrate(prefersDark: bool)
      requires !isClient
      modifies this
      ensures isClient
      ensures isDarkMode == (old(isDarkMode) || InitialDarkMode(old(storedTheme), prefersDark))
      ensures Valid()
    {
      isClient := true;
      var savedTheme := storedTheme;
      var turnDark := InitialDarkMode(savedTheme, prefersDark);
      ApplyTheme();
      if turnDark && !isDarkMode {
        isDarkMode := true;
        ApplyTheme();
      }
    }

    /** `toggleTheme`, followed by the applying effect. */
    method ToggleTheme()
      requires Valid()
      modifies this`isDarkMode, this`darkClass, this`storedTheme
      ensures Valid()
      ensures isDarkMode == !old(isDarkMode)
      ensures !isClient ==> darkClass == old(darkClass) && storedTheme == old(storedTheme)
    {
      isDarkMode := !isDarkMode;
      ApplyTheme();
    }
  }

  /** A page load, with whatever an earlier visit left in storage: the
      theme follows the stored entry or the system preference, and it is
      already applied. */
  method LoadPage(stored: Option<string>, prefersDark: bool) returns (theme: ThemeState)
    ensures theme.Valid() && theme.isClient
    ensures theme.isDarkMode == InitialDarkMode(stored, prefersDark)
    ensures theme.darkClass == theme.isDarkMode
    ensures theme.storedTheme == Some(ThemeValue(theme.isDarkMode))
  {
    theme := new ThemeState(stored);
    theme.Hydrate(prefersDark);
  }

  /** Toggling twice restores the flag, the stored entry and the class. */
  method ToggleTwice(theme: ThemeState)
    requires theme.Valid()
    modifies theme
    ensures theme.Valid()
    ensures theme.isDarkMode == old(theme.isDarkMode)
    ensures theme.storedTheme == old(theme.storedTheme)
    ensures theme.darkClass == old(theme.darkClass)
  {
    theme.ToggleTheme();
    theme.ToggleTheme();
  }
}
