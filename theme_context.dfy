/** The theme preference (services/ThemeContext.tsx): the mode the user
    chose (follow the system, or a fixed light or dark theme), the theme in
    effect, the stored preference and the `dark` class on the document
    root. The browser's storage and the system preference are fields of the
    provider; the media-query event is a method. */
module ThemeContext {

  import opened Types

  datatype Theme = Light | Dark

  /** `'system'`, or one of the two themes chosen outright. */
  datatype Mode = System | Fixed(theme: Theme)

  /** The storage key of the preference. */
  const StorageKey := "theme-preference"

  /** How a mode is written to storage. */
  function ModeString(m: Mode): string {
    match m
    case System => "system"
    case Fixed(Light) => "light"
    case Fixed(Dark) => "dark"
  }

  /** The stored preference as read at start-up: exactly `'light'` and
      `'dark'` are kept, anything else (missing included) is `'system'`. */
  function ParseStored(saved: Option<string>): (m: Mode)
    ensures m.Fixed? <==> saved == Some("light") || saved == Some("dark")
    ensures m.Fixed? ==> Some(ModeString(m)) == saved
  {
    if saved == Some("light") then Fixed(Light)
    else if saved == Some("dark") then Fixed(Dark)
    else System
  }

  /** Writing a mode and reading it back gives the same mode. */
  lemma StoredRoundTrip(m: Mode)
    ensures ParseStored(Some(ModeString(m))) == m
  {
    match m
    case System => assert "system" != "light" && "system" != "dark";
    case Fixed(_) =>
  }

  /** `resolveTheme`: a fixed mode is its own theme, `'system'` follows
      the system preference. */
  function Resolve(m: Mode, systemDark: bool): (t: Theme)
    ensures m.Fixed? ==> t == m.theme
    ensures m == System ==> (t == Dark <==> systemDark)
  {
    match m
    case System => if systemDark then Dark else Light
    case Fixed(t) => t
  }

  /** A change of the system preference can move the theme only in
      `'system'` mode. */
  lemma FixedIgnoresSystem(t: Theme, before: bool, after: bool)
    ensures Resolve(Fixed(t), before) == Resolve(Fixed(t), after)
  {
  }

  /** The stored preference, if any. */
  function Stored(storage: map<string, string>): Option<string> {
    if StorageKey in storage then Some(storage[StorageKey]) else None
  }

  class ThemeProvider {
    var mode: Mode
    var theme: Theme
    /** `localStorage`. */
    var storage: map<string, string>
    /** Whether the document root carries the `dark` class. */
    var darkClass: bool
    /** The system's `prefers-color-scheme: dark`. */
    var systemDark: bool

    /** The theme in effect is the mode resolved against the system
        preference, the root is dark exactly when that theme is, and the
        mode is what storage would give on the next start. */
    ghost predicate Valid()
      reads this
    {
      theme == Resolve(mode, systemDark) &&
      darkClass == (theme == Dark) &&
      mode == ParseStored(Stored(storage))
    }

    /** Start-up: read the preference, resolve it, and apply the theme. */
    constructor(storage: map<string, string>, systemDark: bool)
      ensures mode == ParseStored(Stored(storage)) && theme == Resolve(mode, systemDark)
      ensures this.storage == storage && this.systemDark == systemDark
      ensures Valid()
    {
      this.storage := storage;
      this.systemDark := systemDark;
      var saved := ParseStored(Stored(storage));
      var resolved := Resolve(saved, systemDark);
      mode := saved;
      theme := resolved;
      darkClass := resolved == Dark;
    }

    /** `applyTheme`: add or remove the `dark` class. */
    method ApplyTheme(t: Theme)
      modifies this`darkClass
      ensures darkClass == (t == Dark)
    {
      if t == Dark {
        darkClass := true;
      } else {
        darkClass := false;
      }
    }

    /** `setMode`: keep the mode, store it, and apply its theme. */
    method SetMode(newMode: Mode)
      requires Valid()
      modifies this`mode, this`storage, this`theme, this`darkClass
      ensures mode == newMode
      ensures storage == old(storage)[StorageKey := ModeString(newMode)]
      ensures theme == Resolve(newMode, systemDark)
      ensures Valid()
    {
      mode := newMode;
      storage := storage[StorageKey := ModeString(newMode)];
      StoredRoundTrip(newMode);
      var resolved := Resolve(newMode, systemDark);
      theme := resolved;
      ApplyTheme(resolved);
    }

    /** The media-query handler: the system preference changes, and in
        `'system'` mode the theme follows it. */
    method OnSystemChange(nowDark: bool)
      requires Valid()
      modifies this`systemDark, this`theme, this`darkClass
      ensures systemDark == nowDark
      ensures mode.Fixed? ==> theme == old(theme) && darkClass == old(darkClass)
      ensures mode == System ==> (theme == Dark <==> nowDark)
      ensures Valid()
    {
      systemDark := nowDark;
      if mode == System {
        var resolved := if nowDark then Dark else Light;
        theme := resolved;
        ApplyTheme(resolved);
      }
    }
  }
}
