/**
 * The theme toggle (src/components/ThemeToggle.tsx). The browser state it
 * touches is modelled as fields: the document root's "dark" class and
 * local storage. The environment's answers (the color-scheme preference,
 * whether storage throws) are inputs.
 */
module Theme {
  import opened Wrappers

  /** The local-storage key holding the theme. */
  const StorageKey := "theme"

  /** The theme string for a dark flag. */
  function ThemeName(dark: bool): (t: string)
    ensures t == "dark" <==> dark
    ensures t == "dark" || t == "light"
  {
    if dark then "dark" else "light"
  }

  /** `stored ?? (prefersDark ? "dark" : "light")`: a stored string wins, whatever it is. */
  function InitialTheme(stored: Option<string>, prefersDark: bool): (t: string)
    ensures stored.Some? ==> t == stored.value
    ensures stored.None? ==> t == ThemeName(prefersDark)
  {
    match stored
    case Some(s) => s
    case None => if prefersDark then "dark" else "light"
  }

  /** `localStorage.getItem(key)`: `None` is the `null` of an absent key. */
  function GetItem(storage: map<string, string>, key: string): (r: Option<string>)
    ensures r.Some? <==> key in storage
    ensures r.Some? ==> r.value == storage[key]
  {
    if key in storage then Some(storage[key]) else None
  }

  /** The component's state and the browser state it mirrors into. */
  datatype ThemeState = ThemeState(mounted: bool, isDark: bool, rootDark: bool, storage: map<string, string>)

  /** The flag and the root class agree: what a successful mount and every toggle establish. */
  predicate Synced(s: ThemeState) {
    s.rootDark == s.isDark
  }

  /**
   * The mount effect. If reading storage or the media query throws, only
   * `mounted` changes; otherwise the flag and the root class follow the
   * initial theme, which counts as dark only when it is exactly "dark".
   */
  function AfterMount(s: ThemeState, prefersDark: bool, readFails: bool): (t: ThemeState)
    ensures t.mounted && t.storage == s.storage
    ensures readFails ==> t.isDark == s.isDark && t.rootDark == s.rootDark
    ensures !readFails ==> Synced(t)
    ensures !readFails ==> (t.isDark <==> InitialTheme(GetItem(s.storage, StorageKey), prefersDark) == "dark")
  {
    if readFails then s.(mounted := true)
    else
      var dark := InitialTheme(GetItem(s.storage, StorageKey), prefersDark) == "dark";
      s.(mounted := true, isDark := dark, rootDark := dark)
  }

  /**
   * `handleToggle`: the flag flips, the root class follows the new flag,
   * and the new theme is written under "theme" unless the write throws,
   * in which case the flip and the class change stay.
   */
  function AfterToggle(s: ThemeState, writeFails: bool): (t: ThemeState)
    ensures t.mounted == s.mounted
    ensures t.isDark == !s.isDark && Synced(t)
    ensures writeFails ==> t.storage == s.storage
    ensures !writeFails ==> t.storage == s.storage[StorageKey := ThemeName(t.isDark)]
  {
    var next := if s.isDark then "light" else "dark";
    s.(isDark := !s.isDark, rootDark := next == "dark",
       storage := if writeFails then s.storage else s.storage[StorageKey := next])
  }

  /**
   * Two toggles restore the flag and, from a synced state, the root class;
   * a successful second write leaves the original theme stored.
   */
  lemma ToggleTwice(s: ThemeState, firstFails: bool, secondFails: bool)
    ensures var t := AfterToggle(AfterToggle(s, firstFails), secondFails);
      t.isDark == s.isDark && t.mounted == s.mounted && (Synced(s) ==> t.rootDark == s.rootDark)
    ensures var t := AfterToggle(AfterToggle(s, firstFails), secondFails);
      !secondFails ==> GetItem(t.storage, StorageKey) == Some(ThemeName(s.isDark))
    ensures var t := AfterToggle(AfterToggle(s, firstFails), secondFails);
      firstFails && secondFails ==> t.storage == s.storage
  {
  }

  /** A stored theme other than exactly "dark" (say "Dark" or "") yields the light theme. */
  lemma StoredNonDarkIsLight(s: ThemeState, prefersDark: bool)
    requires StorageKey in s.storage && s.storage[StorageKey] != "dark"
    ensures !AfterMount(s, prefersDark, false).isDark && !AfterMount(s, prefersDark, false).rootDark
  {
  }

  /**
   * What a toggle persists is what the next visit reads back: mounting
   * afresh over the storage a successful toggle left yields the toggled
   * flag and root class, whatever the system preference and the root
   * class the new page starts with.
   */
  lemma ReloadRestoresToggle(s: ThemeState, prefersDark: bool, rootDark0: bool)
    ensures var t := AfterToggle(s, false);
      var reload := AfterMount(ThemeState(false, false, rootDark0, t.storage), prefersDark, false);
      reload.isDark == t.isDark && reload.rootDark == t.rootDark
  {
    var t := AfterToggle(s, false);
    assert GetItem(t.storage, StorageKey) == Some(ThemeName(t.isDark));
  }

  /** With nothing stored, the first mount follows the system preference. */
  lemma FirstVisitFollowsSystem(storage: map<string, string>, prefersDark: bool, rootDark0: bool)
    requires StorageKey !in storage
    ensures var m := AfterMount(ThemeState(false, false, rootDark0, storage), prefersDark, false);
      m.isDark == prefersDark && m.rootDark == prefersDark && m.storage == storage
  {
    assert GetItem(storage, StorageKey) == None;
  }

  /** The component with the document root's class and local storage as fields. */
  class ThemeToggle {
    var mounted: bool
    var isDark: bool
    /** Whether the document root carries the "dark" class. */
    var rootDark: bool
    /** The local-storage contents. */
    var storage: map<string, string>

    function State(): ThemeState
      reads this
    {
      ThemeState(mounted, isDark, rootDark, storage)
    }

    /** Before mounting the flag is false; the root class and storage are whatever the browser has. */
    constructor (rootDark0: bool, storage0: map<string, string>)
      ensures State() == ThemeState(false, false, rootDark0, storage0)
    {
      mounted := false;
      isDark := false;
      rootDark := rootDark0;
      storage := storage0;
    }

    /** The mount effect, with the media query's answer and whether a read throws as inputs. */
    method Mount(prefersDark: bool, readFails: bool)
      modifies this
      ensures State() == AfterMount(old(State()), prefersDark, readFails)
    {
      mounted := true;
      if !readFails {
        var stored := GetItem(storage, StorageKey);
        var initialTheme := InitialTheme(stored, prefersDark);
        if initialTheme == "dark" {
          rootDark := true;
          isDark := true;
        } else {
          rootDark := false;
          isDark := false;
        }
      }
    }

    /** `handleToggle`; the button exists only once mounted. */
    method HandleToggle(writeFails: bool)
      requires mounted
      modifies this
      ensures State() == AfterToggle(old(State()), writeFails)
      ensures Synced(State())
    {
      var nextTheme := if isDark then "light" else "dark";
      if nextTheme == "dark" {
        rootDark := true;
      } else {
        rootDark := false;
      }
      isDark := !isDark;
      if !writeFails {
        storage := storage[StorageKey := nextTheme];
      }
    }
  }

  /**
   * A first visit with a dark system preference and working storage: the
   * page mounts dark, and toggling twice leaves "dark" stored and the page dark.
   */
  method FirstVisitDark() returns (dark: bool, stored: Option<string>)
    ensures dark && stored == Some("dark")
  {
    var t := new ThemeToggle(false, map[]);
    t.Mount(true, false);
    t.HandleToggle(false);
    t.HandleToggle(false);
    ToggleTwice(AfterMount(ThemeState(false, false, false, map[]), true, false), false, false);
    dark, stored := t.isDark, GetItem(t.storage, StorageKey);
  }
}
