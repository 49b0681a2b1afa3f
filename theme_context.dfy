/**
 * The light/dark theme provider. The declared theme type has two values,
 * but a saved value is taken from storage without a check, so the theme is
 * a string here.
 */
module ThemeContext {
  import opened Base

  /** The theme `toggleTheme` switches to. */
  function Toggled(theme: string): (r: string)
    ensures theme == "light" ==> r == "dark"
    ensures theme != "light" ==> r == "light"
  {
    if theme == "light" then "dark" else "light"
  }

  /** On the two real themes, toggling twice restores the theme. */
  lemma ToggleTwice(theme: string)
    requires theme == "light" || theme == "dark"
    ensures Toggled(Toggled(theme)) == theme
  {
  }

  /** An unchecked saved value such as "blue" is `light` after one toggle and `dark` after two. */
  lemma ToggleUnknown(theme: string)
    requires theme != "light" && theme != "dark"
    ensures Toggled(theme) == "light" && Toggled(Toggled(theme)) == "dark"
  {
  }

  /** `(saved as Theme) || system`. */
  function InitialTheme(saved: Option<string>, systemDark: bool): (r: string)
    ensures saved.Some? && saved.value != "" ==> r == saved.value
    ensures (saved.None? || saved.value == "") ==> r == (if systemDark then "dark" else "light")
  {
    if saved.Some? && saved.value != "" then saved.value
    else if systemDark then "dark" else "light"
  }

  class Provider {
    var theme: string
    var mounted: bool
    /** `localStorage.getItem('theme')`. */
    var saved: Option<string>
    /** Whether the document root carries the `dark` class. */
    var darkClass: bool

    constructor (storage: Option<string>, dark: bool)
      ensures theme == "light" && !mounted && saved == storage && darkClass == dark
    {
      theme := "light";
      mounted := false;
      saved := storage;
      darkClass := dark;
    }

    /** `initTheme`: `fault` is a failing storage or media query, which falls back to light. */
    method InitTheme(systemDark: bool, fault: bool)
      modifies this
      ensures mounted
      ensures saved == old(saved)
      ensures fault ==> theme == "light" && darkClass == old(darkClass)
      ensures !fault ==> theme == InitialTheme(saved, systemDark) && darkClass == (theme == "dark")
    {
      if fault {
        theme := "light";
      } else {
        theme := InitialTheme(saved, systemDark);
        darkClass := theme == "dark";
      }
      mounted := true;
    }

    /** `setTheme(t)`: `fault` is a failing `setItem`, after which the class is not updated either. */
    method SetTheme(t: string, fault: bool)
      modifies this
      ensures theme == t && mounted == old(mounted)
      ensures !fault ==> saved == Some(t) && darkClass == (t == "dark")
      ensures fault ==> saved == old(saved) && darkClass == old(darkClass)
    {
      theme := t;
      if !fault {
        saved := Some(t);
        darkClass := t == "dark";
      }
    }

    method ToggleTheme(fault: bool)
      modifies this
      ensures theme == Toggled(old(theme)) && mounted == old(mounted)
      ensures !fault ==> saved == Some(theme) && darkClass == (theme == "dark")
      ensures fault ==> saved == old(saved) && darkClass == old(darkClass)
    {
      SetTheme(Toggled(theme), fault);
    }
  }

  /** `useTheme()`: the context, or the error for a component outside a provider. */
  function UseTheme<C>(context: Option<C>): (r: Result<C, string>)
    ensures context.None? <==> r.Failure?
    ensures r.Failure? ==> r.error == "useTheme must be used within a ThemeProvider"
    ensures r.Success? ==> r.value == context.value
  {
    if context.None? then Failure("useTheme must be used within a ThemeProvider") else Success(context.value)
  }
}
