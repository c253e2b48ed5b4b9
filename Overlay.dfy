/**
 * The `ShowcaseOverlay` component
 * (components/InteractiveShowcase/ShowcaseOverlay.tsx): four drawer and panel
 * flags flipped by keyboard shortcuts and by the toolbar, closed by the
 * drawers, and the path of the project's full-page showcase.
 */
module Overlay {
  import opened Types

  /** The four boolean state fields, as one value. */
  datatype Flags = Flags(principles: bool, impact: bool, system: bool, code: bool)

  /** All panels closed: the initial state. */
  const AllClosed := Flags(false, false, false, false)

  /**
   * What a key press does to the flags: `1`, `2`, `3` and `c` each flip one
   * flag and no other key touches any (matching is case-sensitive).
   */
  function KeyEffect(f: Flags, key: string): (g: Flags)
    ensures g.principles != f.principles <==> key == "1"
    ensures g.impact != f.impact <==> key == "2"
    ensures g.system != f.system <==> key == "3"
    ensures g.code != f.code <==> key == "c"
  {
    if key == "1" then f.(principles := !f.principles)
    else if key == "2" then f.(impact := !f.impact)
    else if key == "3" then f.(system := !f.system)
    else if key == "c" then f.(code := !f.code)
    else f
  }

  /** Pressing the same key twice restores the flags. */
  lemma KeyEffectInvolution(f: Flags, key: string)
    ensures KeyEffect(KeyEffect(f, key), key) == f
  {
  }

  /** Escape and upper-case `C` change no flag. */
  lemma EscapeAndUpperCNoop(f: Flags)
    ensures KeyEffect(f, "Escape") == f
    ensures KeyEffect(f, "C") == f
  {
    assert "C" != "c";
  }

  /** `/work/${project.id}/full` */
  function FullPagePath(id: string): (path: string)
    ensures |path| == |id| + 11
    ensures path[..6] == "/work/" && path[6..|path| - 5] == id && path[|path| - 5..] == "/full"
  {
    "/work/" + id + "/full"
  }

  /** The project id a full-page path names, if it has that shape. */
  function FullPageId(path: string): (id: Option<string>)
  {
    if |path| >= 11 && path[..6] == "/work/" && path[|path| - 5..] == "/full"
    then Some(path[6..|path| - 5])
    else None
  }

  /** The full-page path determines its project id, and only such paths name one. */
  lemma FullPageRoundTrip(id: string, path: string)
    ensures FullPageId(FullPagePath(id)) == Some(id)
    ensures FullPageId(path) == Some(id) ==> FullPagePath(id) == path
  {
    if FullPageId(path) == Some(id) {
      assert path == path[..6] + path[6..|path| - 5] + path[|path| - 5..];
    }
  }

  class ShowcaseOverlay {
    /** The `project.id` the overlay shows. */
    const projectId: string
    /** `showPrinciples` state. */
    var showPrinciples: bool
    /** `showImpact` state. */
    var showImpact: bool
    /** `showSystem` state. */
    var showSystem: bool
    /** `showCode` state. */
    var showCode: bool

    /** The four flags as a value. */
    function Current(): Flags
      reads this
    {
      Flags(showPrinciples, showImpact, showSystem, showCode)
    }

    /** The first render: every panel closed. */
    constructor (projectId: string)
      ensures this.projectId == projectId
      ensures Current() == AllClosed
    {
      this.projectId := projectId;
      showPrinciples := false;
      showImpact := false;
      showSystem := false;
      showCode := false;
    }

    /**
     * The window `keydown` handler. Escape asks the parent to close (`close`);
     * the shortcut keys flip their flag.
     */
    method HandleKeyDown(key: string) returns (close: bool)
      modifies this
      ensures close <==> key == "Escape"
      ensures Current() == KeyEffect(old(Current()), key)
    {
      close := false;
      if key == "Escape" {
        close := true;
      }
      if key == "1" {
        showPrinciples := !showPrinciples;
      }
      if key == "2" {
        showImpact := !showImpact;
      }
      if key == "3" {
        showSystem := !showSystem;
      }
      if key == "c" {
        showCode := !showCode;
      }
    }

    /** The principles drawer's `onClose`. */
    method ClosePrinciples()
      modifies this
      ensures Current() == old(Current()).(principles := false)
    {
      showPrinciples := false;
    }

    /** The system drawer's `onClose`. */
    method CloseSystem()
      modifies this
      ensures Current() == old(Current()).(system := false)
    {
      showSystem := false;
    }

    /** The impact drawer's `onClose`. */
    method CloseImpact()
      modifies this
      ensures Current() == old(Current()).(impact := false)
    {
      showImpact := false;
    }

    /** The toolbar's principles button: the same flip as key `1`. */
    method TogglePrinciples()
      modifies this
      ensures Current() == KeyEffect(old(Current()), "1")
    {
      showPrinciples := !showPrinciples;
    }

    /** The toolbar's impact button: the same flip as key `2`. */
    method ToggleImpact()
      modifies this
      ensures Current() == KeyEffect(old(Current()), "2")
    {
      showImpact := !showImpact;
    }

    /** The toolbar's system button: the same flip as key `3`. */
    method ToggleSystem()
      modifies this
      ensures Current() == KeyEffect(old(Current()), "3")
    {
      showSystem := !showSystem;
    }

    /** The toolbar's code button: the same flip as key `c`. */
    method ToggleCode()
      modifies this
      ensures Current() == KeyEffect(old(Current()), "c")
    {
      showCode := !showCode;
    }

    /** The toolbar's full-page button: the route it navigates to. */
    method OpenFullPage() returns (path: string)
      ensures path == FullPagePath(projectId)
      ensures FullPageId(path) == Some(projectId)
    {
      path := FullPagePath(projectId);
      FullPageRoundTrip(projectId, path);
    }
  }
}
