/**
 * The `Navigation` bar (components/Navigation.tsx): a constant table of four
 * pages, each rendered as a button that is marked active when the current
 * location is that page.
 */
module Navigation {
  import opened Types

  datatype NavEntry = NavEntry(path: string, text: string)

  /** The page table, in display order. */
  const Pages: seq<NavEntry> := [
    NavEntry("/", "Home"),
    NavEntry("/work", "Work"),
    NavEntry("/about", "About"),
    NavEntry("/contact", "Contact")
  ]

  /**
   * `location.pathname === page.path || (page.path === '/' && location.pathname === '/')`:
   * the second disjunct adds nothing, so activity is exact path equality.
   */
  function IsActive(pathname: string, page: NavEntry): (active: bool)
    ensures active <==> pathname == page.path
  {
    pathname == page.path || (page.path == "/" && pathname == "/")
  }

  /** The four paths are pairwise distinct. */
  lemma PathsDistinct()
    ensures forall a, b :: 0 <= a < b < |Pages| ==> Pages[a].path != Pages[b].path
  {
    assert Pages[0].path[..1] == "/" && |Pages[0].path| == 1;
    assert Pages[1].path[1] == 'w' && Pages[2].path[1] == 'a' && Pages[3].path[1] == 'c';
  }

  /** At most one entry is active for any location. */
  lemma AtMostOneActive(pathname: string, a: nat, b: nat)
    requires a < |Pages| && b < |Pages|
    requires IsActive(pathname, Pages[a]) && IsActive(pathname, Pages[b])
    ensures a == b
  {
    PathsDistinct();
  }

  /** Matching is exact: a project page `/work/<id>` activates no entry, not even Work. */
  lemma ProjectPathActivatesNothing(id: string, k: nat)
    requires k < |Pages|
    ensures !IsActive("/work/" + id, Pages[k])
  {
    var p := "/work/" + id;
    assert p[..6] == "/work/";
    if k == 0 || k == 1 {
      assert |p| > |Pages[k].path|;
    } else if k == 2 {
      assert p[1] == 'w' != Pages[k].path[1];
    } else {
      assert p[1] == 'w' != Pages[k].path[1];
    }
  }

  /** One rendered nav button. */
  datatype NavButton = NavButton(text: string, target: string, active: bool, ariaCurrent: Option<string>)

  /** The button for one entry: its label, where a click navigates, and its marking. */
  function ButtonFor(pathname: string, page: NavEntry): (b: NavButton)
    ensures b.text == page.text && b.target == page.path
    ensures b.active <==> pathname == page.path
    ensures b.ariaCurrent == (if pathname == page.path then Some("page") else None)
  {
    var isActive := IsActive(pathname, page);
    NavButton(page.text, page.path, isActive, if isActive then Some("page") else None)
  }

  /** `pages.map(...)`: one button per entry, in table order. */
  function Render(pathname: string): (bs: seq<NavButton>)
    ensures |bs| == |Pages|
    ensures forall k :: 0 <= k < |Pages| ==> bs[k] == ButtonFor(pathname, Pages[k])
  {
    seq(|Pages|, k requires 0 <= k < |Pages| => ButtonFor(pathname, Pages[k]))
  }

  /** On any location, at most one rendered button is marked current. */
  lemma RenderMarksAtMostOne(pathname: string)
    ensures forall a, b :: 0 <= a < b < |Pages| ==> !(Render(pathname)[a].active && Render(pathname)[b].active)
  {
    PathsDistinct();
  }
}
