/**
 * The `ShowcaseContainer` component
 * (components/InteractiveShowcase/ShowcaseContainer.tsx): the active tab, moved
 * by the arrow keys through a fixed list of four tabs, and the playground
 * theme, kept in step with the `isDark` prop.
 */
module Container {
  import opened Types

  datatype Tab = Components | Principles | Impact | System

  datatype Theme = Light | Dark

  /** The tab list the keyboard handler walks, in display order. */
  const Tabs: seq<Tab> := [Components, Principles, Impact, System]

  /** `tabs.indexOf(tab)`: every tab is found, at its one position. */
  function IndexOf(t: Tab): (k: nat)
    ensures k < |Tabs| && Tabs[k] == t
  {
    match t
    case Components => 0
    case Principles => 1
    case Impact => 2
    case System => 3
  }

  /** No tab occurs twice in the list, so `IndexOf` inverts indexing. */
  lemma IndexOfTabs(k: nat)
    requires k < |Tabs|
    ensures IndexOf(Tabs[k]) == k
  {
  }

  /** `isDark ? 'dark' : 'light'` */
  function ThemeOf(isDark: bool): (t: Theme)
    ensures t == Dark <==> isDark
  {
    if isDark then Dark else Light
  }

  /**
   * The tab after a key press: ArrowRight moves one tab on and ArrowLeft one
   * tab back, each stopping at the end of the list; other keys leave the tab.
   */
  function TabAfterKey(tab: Tab, key: string): (r: Tab)
    ensures key == "ArrowRight" ==> IndexOf(r) == if IndexOf(tab) < |Tabs| - 1 then IndexOf(tab) + 1 else IndexOf(tab)
    ensures key == "ArrowLeft" ==> IndexOf(r) == if IndexOf(tab) > 0 then IndexOf(tab) - 1 else IndexOf(tab)
    ensures key != "ArrowRight" && key != "ArrowLeft" ==> r == tab
  {
    var k := IndexOf(tab);
    if key == "ArrowRight" && k < |Tabs| - 1 then
      IndexOfTabs(k + 1);
      Tabs[k + 1]
    else if key == "ArrowLeft" && k > 0 then
      IndexOfTabs(k - 1);
      Tabs[k - 1]
    else
      tab
  }

  /** From any tab but the last, ArrowRight then ArrowLeft comes back. */
  lemma RightThenLeft(t: Tab)
    requires t != System
    ensures TabAfterKey(TabAfterKey(t, "ArrowRight"), "ArrowLeft") == t
  {
    var r := TabAfterKey(t, "ArrowRight");
    IndexOfTabs(IndexOf(TabAfterKey(r, "ArrowLeft")));
  }

  /** From any tab but the first, ArrowLeft then ArrowRight comes back. */
  lemma LeftThenRight(t: Tab)
    requires t != Components
    ensures TabAfterKey(TabAfterKey(t, "ArrowLeft"), "ArrowRight") == t
  {
    var l := TabAfterKey(t, "ArrowLeft");
    IndexOfTabs(IndexOf(TabAfterKey(l, "ArrowRight")));
  }

  /** The tab after `n` presses of ArrowRight. */
  function RightPresses(t: Tab, n: nat): Tab
  {
    if n == 0 then t else TabAfterKey(RightPresses(t, n - 1), "ArrowRight")
  }

  /** `n` presses of ArrowRight move `n` tabs on, stopping at the last tab. */
  lemma {:induction false} RightPressesStop(t: Tab, n: nat)
    ensures IndexOf(RightPresses(t, n)) == if IndexOf(t) + n < |Tabs| then IndexOf(t) + n else |Tabs| - 1
  {
    if n > 0 {
      RightPressesStop(t, n - 1);
    }
  }

  class ShowcaseContainer {
    /** `activeTab` state. */
    var activeTab: Tab
    /** The playground theme, `theme` state. */
    var theme: Theme
    /** The `isDark` prop as last rendered. */
    var isDark: bool

    /** The first render: the first tab, and the theme taken from `isDark`. */
    constructor (isDark: bool)
      ensures activeTab == Components
      ensures theme == ThemeOf(isDark) && this.isDark == isDark
    {
      activeTab := Components;
      theme := ThemeOf(isDark);
      this.isDark := isDark;
    }

    /**
     * The window `keydown` handler. Escape asks the router for `/work`; the
     * arrow keys move the tab through `Tabs` without wrapping.
     */
    method HandleKeyDown(key: string) returns (navigateTo: Option<string>)
      modifies this
      ensures activeTab == TabAfterKey(old(activeTab), key)
      ensures navigateTo == if key == "Escape" then Some("/work") else None
      ensures theme == old(theme) && isDark == old(isDark)
    {
      navigateTo := None;
      if key == "Escape" {
        navigateTo := Some("/work");
      }
      if key == "ArrowRight" || key == "ArrowLeft" {
        var currentIndex := IndexOf(activeTab);
        if key == "ArrowRight" && currentIndex < |Tabs| - 1 {
          activeTab := Tabs[currentIndex + 1];
        }
        if key == "ArrowLeft" && currentIndex > 0 {
          activeTab := Tabs[currentIndex - 1];
        }
      }
    }

    /** Clicking a tab button selects that tab. */
    method SelectTab(t: Tab)
      modifies this
      ensures activeTab == t
      ensures theme == old(theme) && isDark == old(isDark)
    {
      activeTab := t;
    }

    /**
     * A render with the `isDark` prop `newIsDark`: the effect on `[isDark]` runs
     * only when the prop changed, and then resets the theme to match it.
     */
    method SyncTheme(newIsDark: bool)
      modifies this
      ensures isDark == newIsDark
      ensures theme == if newIsDark != old(isDark) then ThemeOf(newIsDark) else old(theme)
      ensures activeTab == old(activeTab)
    {
      if newIsDark != isDark {
        theme := ThemeOf(newIsDark);
      }
      isDark := newIsDark;
    }

    /** The playground's theme control (`onThemeChange`), which sets the theme alone. */
    method SetTheme(t: Theme)
      modifies this
      ensures theme == t
      ensures activeTab == old(activeTab) && isDark == old(isDark)
    {
      theme := t;
    }
  }

  /**
   * A theme picked in the playground survives a re-render with the same
   * `isDark`, and gives way to the prop once `isDark` changes.
   */
  method PlaygroundThemeScenario() returns (kept: Theme, reset: Theme)
    ensures kept == Light && reset == Dark
  {
    var c := new ShowcaseContainer(true);
    c.SetTheme(Light);
    c.SyncTheme(true);
    kept := c.theme;
    c.SyncTheme(false);
    c.SetTheme(Light);
    c.SyncTheme(true);
    reset := c.theme;
  }
}
