/** The theme composable: one shared current theme, mirrored into the
    document's `data-theme` attribute and into `localStorage`, stepped through
    light, dark and corporate in turn, and restored from storage on load. */
module UseTheme {
  import opened Wrappers

  datatype Theme = Light | Dark | Corporate

  const StorageKey := "app-theme"
  const DefaultTheme := Light

  /** The themes in toggling order. */
  const Themes := [Light, Dark, Corporate]

  /** A theme's name, as stored and as set on the document. */
  function Name(t: Theme): string {
    match t
    case Light => "light"
    case Dark => "dark"
    case Corporate => "corporate"
  }

  /** The theme a stored text names, if it names one of the three. */
  function Parse(s: string): (r: Option<Theme>)
    ensures r.Some? <==> s == "light" || s == "dark" || s == "corporate"
    ensures r.Some? ==> Name(r.value) == s
  {
    if s == "light" then Some(Light)
    else if s == "dark" then Some(Dark)
    else if s == "corporate" then Some(Corporate)
    else None
  }

  /** Every theme's name reads back as that theme. */
  lemma ParseName(t: Theme)
    ensures Parse(Name(t)) == Some(t)
  {
  }

  /** `themes.indexOf(t)`. */
  function IndexOf(t: Theme): (i: nat)
    ensures i < |Themes| && Themes[i] == t
  {
    match t
    case Light => 0
    case Dark => 1
    case Corporate => 2
  }

  /** The theme `toggleTheme` moves to: the next in the list, wrapping around. */
  function Next(t: Theme): (n: Theme)
    ensures n in Themes && n != t
  {
    Themes[(IndexOf(t) + 1) % |Themes|]
  }

  /** The cycle is light, dark, corporate, light; a toggle always changes the
      theme, and three toggles come back to the start. */
  lemma ToggleCycle(t: Theme)
    ensures Next(Light) == Dark && Next(Dark) == Corporate && Next(Corporate) == Light
    ensures Next(t) != t
    ensures Next(Next(Next(t))) == t
  {
  }

  /** The theme `loadTheme` applies from a storage: the saved theme when it is
      one of the three, the default otherwise. */
  function Loaded(storage: map<string, string>): (t: Theme)
    ensures StorageKey in storage && Parse(storage[StorageKey]).Some? ==> t == Parse(storage[StorageKey]).value
    ensures (StorageKey !in storage || Parse(storage[StorageKey]).None?) ==> t == DefaultTheme
  {
    if StorageKey in storage && Parse(storage[StorageKey]).Some? then Parse(storage[StorageKey]).value else DefaultTheme
  }

  /** The storage after `loadTheme`. */
  function AfterLoad(storage: map<string, string>): map<string, string> {
    storage[StorageKey := Name(Loaded(storage))]
  }

  /** Loading twice is loading once: the second load applies the same theme and
      leaves the storage as the first left it. */
  lemma LoadIdempotent(storage: map<string, string>)
    ensures Loaded(AfterLoad(storage)) == Loaded(storage)
    ensures AfterLoad(AfterLoad(storage)) == AfterLoad(storage)
  {
    ParseName(Loaded(storage));
  }

  /** The shared theme state: the current theme, the document's `data-theme`
      attribute (unset before the first `setTheme`) and `localStorage`. */
  class ThemeState {
    var current: Theme
    var attribute: Option<string>
    var storage: map<string, string>

    constructor(storage: map<string, string>)
      ensures current == DefaultTheme && attribute.None? && this.storage == storage
    {
      current := DefaultTheme;
      attribute := None;
      this.storage := storage;
    }

    /** `setTheme(theme)`: the theme, the attribute and the stored value all become it. */
    method SetTheme(theme: Theme)
      modifies this
      ensures current == theme && attribute == Some(Name(theme))
      ensures storage == old(storage)[StorageKey := Name(theme)]
    {
      current := theme;
      attribute := Some(Name(theme));
      storage := storage[StorageKey := Name(theme)];
    }

    /** `toggleTheme()`. */
    method ToggleTheme()
      modifies this
      ensures current == Next(old(current)) && attribute == Some(Name(current))
      ensures storage == old(storage)[StorageKey := Name(current)]
    {
      var currentIndex := IndexOf(current);
      var nextIndex := (currentIndex + 1) % |Themes|;
      SetTheme(Themes[nextIndex]);
    }

    /** `loadTheme()`. */
    method LoadTheme()
      modifies this
      ensures current == Loaded(old(storage)) && attribute == Some(Name(current))
      ensures storage == AfterLoad(old(storage))
    {
      var savedTheme := if StorageKey in storage then Some(storage[StorageKey]) else None;
      if savedTheme.Some? && savedTheme.value != "" && Parse(savedTheme.value).Some? {
        SetTheme(Parse(savedTheme.value).value);
      } else {
        SetTheme(DefaultTheme);
      }
    }
  }
}
