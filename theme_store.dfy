/**
 * The colour-theme store: one field, switched by `toggleTheme` and
 * overwritten by `setTheme`. Its persistence in local storage is not
 * modelled.
 */
module ThemeStore {

  datatype Theme = Dark | Light

  /** The theme `toggleTheme` switches to: 'dark' becomes 'light' and 'light' becomes 'dark'. */
  function Toggled(t: Theme): (u: Theme)
    ensures u != t
  {
    if t == Dark then Light else Dark
  }

  /** Toggling twice restores the theme. */
  lemma ToggledTwice(t: Theme)
    ensures Toggled(Toggled(t)) == t
  {
  }

  class Store {
    var theme: Theme

    /** The application starts in the dark theme. */
    constructor ()
      ensures theme == Dark
    {
      theme := Dark;
    }

    method ToggleTheme()
      modifies this
      ensures theme == Toggled(old(theme))
      ensures theme != old(theme)
    {
      theme := if theme == Dark then Light else Dark;
    }

    /** Whatever the theme was, it is `newTheme` afterwards; a second call changes nothing. */
    method SetTheme(newTheme: Theme)
      modifies this
      ensures theme == newTheme
    {
      theme := newTheme;
    }
  }
}
