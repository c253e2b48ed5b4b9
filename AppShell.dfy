/**
 * The `App` shell (App.tsx): the dark-mode preference, loaded from and saved
 * to the `theme` storage slot, and the `ShowcasePage` route element, which
 * looks a project up by the route id and falls back to a redirect.
 */
module AppShell {
  import opened Types

  /** `isDark ? 'dark' : 'light'`, the value written to storage. */
  function ThemeString(isDark: bool): (s: string)
    ensures s == "dark" <==> isDark
    ensures s == "light" <==> !isDark
  {
    if isDark then "dark" else "light"
  }

  /**
   * The preference after the load effect: a missing or empty stored value
   * (falsy in `if (savedTheme)`) keeps `current`; any other value means dark
   * exactly when it is `"dark"`.
   */
  function LoadedTheme(saved: Option<string>, current: bool): (isDark: bool)
    ensures saved == None || saved == Some("") ==> isDark == current
    ensures saved.Some? && saved.value != "" ==> (isDark <==> saved.value == "dark")
  {
    match saved
    case None => current
    case Some(s) => if s != "" then s == "dark" else current
  }

  /** Loading what a save wrote gives back the saved preference, whatever the default. */
  lemma ThemeRoundTrip(isDark: bool, current: bool)
    ensures LoadedTheme(Some(ThemeString(isDark)), current) == isDark
  {
  }

  class App {
    /** `isDark` state. */
    var isDark: bool
    /** The `theme` slot of the browser storage; `None` when nothing is stored. */
    var storage: Option<string>

    /** A fresh render over whatever the storage already holds: dark by default. */
    constructor (stored: Option<string>)
      ensures isDark && storage == stored
    {
      isDark := true;
      storage := stored;
    }

    /** The load effect: adopt the stored preference when there is one. */
    method LoadTheme()
      modifies this
      ensures isDark == LoadedTheme(old(storage), old(isDark))
      ensures storage == old(storage)
    {
      var savedTheme := storage;
      if savedTheme.Some? && savedTheme.value != "" {
        isDark := savedTheme.value == "dark";
      }
    }

    /** The save effect: write the current preference. */
    method SaveTheme()
      modifies this
      ensures storage == Some(ThemeString(isDark))
      ensures isDark == old(isDark)
    {
      storage := Some(if isDark then "dark" else "light");
    }

    /**
     * The toggle button's `setIsDark`: the save effect on `[isDark]` runs only
     * when the value changed.
     */
    method SetIsDark(b: bool)
      modifies this
      ensures isDark == b
      ensures storage == if b != old(isDark) then Some(ThemeString(b)) else old(storage)
    {
      if b != isDark {
        isDark := b;
        SaveTheme();
      }
    }

    /**
     * Mounting: both effects run after the first render (the load, then a save
     * of the value the first render saw), and when the load changed `isDark` the save runs again.
     */
    method Mount()
      requires isDark
      modifies this
      ensures isDark == LoadedTheme(old(storage), true)
      ensures storage == Some(ThemeString(isDark))
    {
      var rendered := isDark;
      LoadTheme();
      storage := Some(ThemeString(rendered));
      if isDark != rendered {
        SaveTheme();
      }
    }
  }

  /** A session that saved `b` is restored to `b` by the next mount. */
  method Reload(b: bool) returns (isDark: bool)
    ensures isDark == b
  {
    var first := new App(None);
    first.Mount();
    first.SetIsDark(b);
    var second := new App(first.storage);
    second.Mount();
    ThemeRoundTrip(b, true);
    isDark := second.isDark;
  }

  /** `projects.find(p => p.id === id)`, as the position of the first match. */
  function FindProject(ps: seq<Project>, id: Option<string>): (r: Option<nat>)
    ensures r.Some? ==> r.value < |ps| && id.Some? && ps[r.value].id == id.value
    ensures r.Some? ==> forall k :: 0 <= k < r.value ==> ps[k].id != id.value
    ensures r.None? ==> id.None? || forall k :: 0 <= k < |ps| ==> ps[k].id != id.value
  {
    if id.None? || |ps| == 0 then None
    else if ps[0].id == id.value then Some(0)
    else match FindProject(ps[1..], id)
      case None => None
      case Some(k) => Some(k + 1)
  }

  /** What the `/work/:id` route renders. */
  datatype Screen =
    | RedirectTo(path: string)
    | OverlayFor(project: Project, closeTarget: string)

  /**
   * `ShowcasePage`: the overlay for the first project with the route id, whose
   * close handler navigates to `/work`; with no match, a redirect to `/work`.
   */
  function ShowcasePage(ps: seq<Project>, id: Option<string>): (s: Screen)
    ensures s.RedirectTo? <==> id.None? || forall k :: 0 <= k < |ps| ==> ps[k].id != id.value
    ensures s.RedirectTo? ==> s.path == "/work"
    ensures s.OverlayFor? ==> s.closeTarget == "/work" && s.project in ps && Some(s.project.id) == id
    ensures s.OverlayFor? ==> exists k :: 0 <= k < |ps| && ps[k] == s.project && forall m :: 0 <= m < k ==> ps[m].id != s.project.id
  {
    match FindProject(ps, id)
    case None => RedirectTo("/work")
    case Some(k) => OverlayFor(ps[k], "/work")
  }
}
