/** Theme selection of main-modern.js. The page state it touches is the
    `light-theme` class on the document element and the `theme` entry of
    local storage. */
module Theme {
  import opened Catalog

  const LightTheme := "light"
  const DarkTheme := "dark"

  /** `savedTheme || (prefersDark ? 'dark' : 'light')`. A saved value counts
      only when it is a non-empty string. */
  function InitialTheme(saved: Option<string>, prefersDark: bool): (t: string)
    ensures t != ""
    ensures saved.Some? && saved.value != "" ==> t == saved.value
    ensures saved.None? || saved.value == "" ==>
      (t == DarkTheme <==> prefersDark) && (t == LightTheme <==> !prefersDark)
  {
    if saved.Some? && saved.value != "" then saved.value
    else if prefersDark then DarkTheme else LightTheme
  }

  /** Whether the document carries the light class, and what is stored. */
  datatype ThemeState = ThemeState(lightClass: bool, stored: Option<string>)

  /** `initializeTheme`: the light class is present exactly for the theme
      "light", and the chosen theme is written back. */
  function Initialize(s: ThemeState, prefersDark: bool): (r: ThemeState)
    ensures r.stored == Some(InitialTheme(s.stored, prefersDark))
    ensures r.stored.Some? && r.stored.value != ""
    ensures r.lightClass <==> r.stored == Some(LightTheme)
    ensures (s.stored.None? || s.stored.value == "") ==>
            (r.lightClass <==> !prefersDark) && r.stored == Some(if prefersDark then DarkTheme else LightTheme)
    ensures s.stored.Some? && s.stored.value != "" ==> r.stored == s.stored
  {
    var t := InitialTheme(s.stored, prefersDark);
    ThemeState(t == LightTheme, Some(t))
  }

  /** `toggleTheme`: reads the class, flips it and stores the new name. */
  function Toggle(s: ThemeState): ThemeState {
    if s.lightClass then ThemeState(false, Some(DarkTheme)) else ThemeState(true, Some(LightTheme))
  }

  /** The stored name agrees with the class. */
  predicate Consistent(s: ThemeState) {
    s.stored == Some(if s.lightClass then LightTheme else DarkTheme)
  }

  lemma ToggleFlips(s: ThemeState)
    ensures Toggle(s).lightClass == !s.lightClass
    ensures Consistent(Toggle(s))
    ensures Toggle(Toggle(s)).lightClass == s.lightClass
  {
  }

  lemma ToggleTwiceRestores(s: ThemeState)
    requires Consistent(s)
    ensures Toggle(Toggle(s)) == s
  {
  }

  /** A page load after the first finds the stored theme and keeps it,
      whatever the system preference is then. */
  lemma ReloadKeepsTheme(s: ThemeState, first: bool, later: bool)
    ensures Initialize(Initialize(s, first), later) == Initialize(s, first)
  {
  }

  /** Starting from nothing stored, or one of the two names, the class and the
      stored name agree after initialisation. Any other stored string is kept
      verbatim and gives the dark look. */
  lemma InitializeConsistent(s: ThemeState, prefersDark: bool)
    ensures s.stored.None? || s.stored.value in {"", LightTheme, DarkTheme} ==>
            Consistent(Initialize(s, prefersDark))
    ensures s.stored.Some? && s.stored.value !in {"", LightTheme, DarkTheme} ==>
            !Initialize(s, prefersDark).lightClass && !Consistent(Initialize(s, prefersDark))
  {
  }

  /** The document element's class list and local storage, as far as the
      theme code uses them. */
  class ThemeSettings {
    var lightClass: bool
    var stored: Option<string>

    function State(): ThemeState
      reads this
    {
      ThemeState(lightClass, stored)
    }

    constructor (lightClass: bool, stored: Option<string>)
      ensures State() == ThemeState(lightClass, stored)
    {
      this.lightClass := lightClass;
      this.stored := stored;
    }

    method InitializeTheme(prefersDark: bool)
      modifies this
      ensures State() == Initialize(old(State()), prefersDark)
    {
      var initialTheme := if stored.Some? && stored.value != "" then stored.value
                          else if prefersDark then DarkTheme else LightTheme;
      lightClass := initialTheme == LightTheme;
      stored := Some(initialTheme);
    }

    method ToggleTheme()
      modifies this
      ensures State() == Toggle(old(State()))
    {
      var isLightMode := lightClass;
      if isLightMode {
        lightClass := false;
        stored := Some(DarkTheme);
      } else {
        lightClass := true;
        stored := Some(LightTheme);
      }
    }
  }
}
