/**
 * The theme state (lib/theme.ts): the theme name kept under the `app_theme`
 * key and the classes on the document's root element. The stored value is
 * whatever string was saved (the source casts it without checking); the
 * `prefers-color-scheme: dark` media query is a field read by `applyTheme`.
 */
module Theme {
  import opened Wrappers
  import opened Text

  /** `(stored as Theme) || 'dark'`: nothing stored, or the empty string, reads as "dark". */
  function ThemeOf(stored: Option<String>): String {
    if stored.None? || stored.value == [] then "dark" else stored.value
  }

  /** `current === 'dark' ? 'light' : 'dark'`. */
  function Toggled(current: String): String {
    if current == "dark" then "light" else "dark"
  }

  /** Nothing stored and an empty string both read as "dark"; any other stored string is read back as is. */
  lemma DefaultDark(s: String)
    ensures ThemeOf(None) == "dark" && ThemeOf(Some("")) == "dark"
    ensures s != [] ==> ThemeOf(Some(s)) == s
  {
  }

  /** A toggle only ever yields "light" (from "dark") or "dark" (from anything else, "system" included). */
  lemma ToggleChoice(current: String)
    ensures Toggled(current) == "light" <==> current == "dark"
    ensures Toggled(current) == "dark" <==> current != "dark"
  {
  }

  /** Two toggles from "dark" come back to "dark"; from any other theme they end at "light". */
  lemma ToggleTwice(current: String)
    ensures Toggled(Toggled(current)) == if current == "dark" then "dark" else "light"
  {
  }

  /**
   * The root classes after `applyTheme(theme)`: "system" is resolved by the
   * media query, then "light" swaps "dark" for "light" and anything else
   * swaps "light" for "dark".
   */
  function Applied(classes: set<String>, theme: String, prefersDark: bool): set<String> {
    var resolved := if theme == "system" then (if prefersDark then "dark" else "light") else theme;
    if resolved == "light" then classes - {"dark"} + {"light"} else classes - {"light"} + {"dark"}
  }

  /** After applying "light" the root has "light" and not "dark"; other classes are untouched. */
  lemma ApplyLight(classes: set<String>, prefersDark: bool, other: String)
    ensures "light" in Applied(classes, "light", prefersDark)
    ensures "dark" !in Applied(classes, "light", prefersDark)
    ensures other != "dark" && other != "light" ==> (other in Applied(classes, "light", prefersDark) <==> other in classes)
  {
  }

  /** Any theme other than "light" and "system" leaves "dark" and not "light"; other classes are untouched. */
  lemma ApplyDark(classes: set<String>, theme: String, prefersDark: bool, other: String)
    requires theme != "light" && theme != "system"
    ensures "dark" in Applied(classes, theme, prefersDark)
    ensures "light" !in Applied(classes, theme, prefersDark)
    ensures other != "dark" && other != "light" ==> (other in Applied(classes, theme, prefersDark) <==> other in classes)
  {
  }

  /** "system" follows the media query. */
  lemma ApplySystem(classes: set<String>, prefersDark: bool)
    ensures Applied(classes, "system", prefersDark) == Applied(classes, if prefersDark then "dark" else "light", prefersDark)
  {
  }

  class ThemeState {
    var stored: Option<String>
    var rootClasses: set<String>
    var prefersDark: bool

    /** Nothing stored; the root starts with `classes`, and the media query answers `prefersDark`. */
    constructor (classes: set<String>, prefersDark: bool)
      ensures stored == None && rootClasses == classes && this.prefersDark == prefersDark
      ensures GetTheme() == "dark"
    {
      stored := None;
      rootClasses := classes;
      this.prefersDark := prefersDark;
    }

    function GetTheme(): String
      reads this
    {
      ThemeOf(stored)
    }

    /** `applyTheme(theme)`: only the root's classes change. */
    method ApplyTheme(theme: String)
      modifies this`rootClasses
      ensures rootClasses == Applied(old(rootClasses), theme, prefersDark)
    {
      var t := theme;
      if t == "system" {
        t := if prefersDark then "dark" else "light";
      }
      if t == "light" {
        rootClasses := rootClasses - {"dark"};
        rootClasses := rootClasses + {"light"};
      } else {
        rootClasses := rootClasses - {"light"};
        rootClasses := rootClasses + {"dark"};
      }
    }

    /** `setTheme(theme)`: the theme is stored, then applied. */
    method SetTheme(theme: String)
      modifies this`stored, this`rootClasses
      ensures stored == Some(theme)
      ensures rootClasses == Applied(old(rootClasses), theme, prefersDark)
    {
      stored := Some(theme);
      ApplyTheme(theme);
    }

    /** `toggleTheme()`: the next theme is returned, stored and applied. */
    method ToggleTheme() returns (next: String)
      modifies this`stored, this`rootClasses
      ensures next == Toggled(old(GetTheme()))
      ensures GetTheme() == next
      ensures rootClasses == Applied(old(rootClasses), next, prefersDark)
    {
      var current := GetTheme();
      next := if current == "dark" then "light" else "dark";
      SetTheme(next);
    }
  }
}
