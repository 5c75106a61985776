/** The web client's theme store: a light or dark theme that can be toggled,
    set, and initialised from the system preference when no theme is held.
    The system preference (`prefers-color-scheme: dark`) is a parameter. */
module ThemeStore {
  import opened Common

  datatype Theme = Light | Dark

  /** `toggleTheme`: light becomes dark and anything else becomes light; a
      missing (falsy) theme therefore becomes light. */
  function Toggled(theme: Option<Theme>): (t: Option<Theme>)
    ensures t.Some?
    ensures theme == Some(Light) ==> t == Some(Dark)
    ensures theme != Some(Light) ==> t == Some(Light)
  {
    if theme == Some(Light) then Some(Dark) else Some(Light)
  }

  /** `initTheme`: a held theme is kept; only when none is held is the system
      preference consulted. */
  function Initialised(theme: Option<Theme>, prefersDark: bool): (t: Option<Theme>)
    ensures theme.Some? ==> t == theme
    ensures theme.None? ==> t == Some(if prefersDark then Dark else Light)
  {
    if theme.None? then Some(if prefersDark then Dark else Light) else theme
  }

  /** Toggling twice gives back the theme that was held. */
  lemma ToggleTwice(theme: Option<Theme>)
    requires theme.Some?
    ensures Toggled(Toggled(theme)) == theme
  {
    assert theme == Some(theme.value);
    if theme.value == Dark {
      assert Toggled(theme) == Some(Light);
    }
  }

  /** Toggling always changes a held theme. */
  lemma ToggleChanges(theme: Option<Theme>)
    requires theme.Some?
    ensures Toggled(theme) != theme
  {
  }

  /** Initialising twice is initialising once, and after it a theme is held. */
  lemma InitialiseIdempotent(theme: Option<Theme>, prefersDark: bool, later: bool)
    ensures Initialised(theme, prefersDark).Some?
    ensures Initialised(Initialised(theme, prefersDark), later) == Initialised(theme, prefersDark)
  {
  }

  class ThemeState {
    /** The held theme; None stands for a falsy value restored from storage. */
    var theme: Option<Theme>

    /** The store starts light. */
    constructor ()
      ensures theme == Some(Light)
    {
      theme := Some(Light);
    }

    method ToggleTheme()
      modifies this
      ensures theme == Toggled(old(theme))
    {
      theme := if theme == Some(Light) then Some(Dark) else Some(Light);
    }

    /** `setTheme(t)`: the theme becomes exactly `t`. */
    method SetTheme(t: Theme)
      modifies this
      ensures theme == Some(t)
    {
      theme := Some(t);
    }

    method InitTheme(prefersDark: bool)
      modifies this
      ensures theme == Initialised(old(theme), prefersDark)
    {
      var savedTheme := theme;
      if savedTheme.None? {
        theme := Some(if prefersDark then Dark else Light);
      }
    }
  }
}
