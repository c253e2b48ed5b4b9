/**
 * The single-file `Portfolio` component (portfolio-complete.tsx): page
 * selection with capitalised nav labels, the theme switch, the project modal,
 * and an inlined copy of the particle trail whose state lives in the component
 * (`particles` state, `particleIdRef`, `lastParticleTime`). The trail reuses the
 * buffer functions of `Particles` and the sweep of `PairSweep`.
 */
module Portfolio {
  import opened Types
  import opened Particles
  import opened PairSweep

  /** The page keys of the nav bar, in display order. */
  const PageKeys: seq<string> := ["home", "work", "about", "contact"]

  /** `toUpperCase` on one character; only ASCII letters have a case here. */
  function UpperChar(c: char): (u: char)
    ensures 'a' <= c <= 'z' ==> 'A' <= u <= 'Z' && u as int - c as int == 'A' as int - 'a' as int
    ensures !('a' <= c <= 'z') ==> u == c
  {
    if 'a' <= c <= 'z' then (c as int - 'a' as int + 'A' as int) as char else c
  }

  /** `s.charAt(0).toUpperCase() + s.slice(1)`; the empty string stays empty. */
  function Capitalize(s: string): (r: string)
    ensures |r| == |s|
    ensures |s| > 0 ==> r[0] == UpperChar(s[0])
    ensures forall k :: 1 <= k < |s| ==> r[k] == s[k]
  {
    if |s| == 0 then "" else [UpperChar(s[0])] + s[1..]
  }

  /** Capitalising twice is capitalising once. */
  lemma CapitalizeIdempotent(s: string)
    ensures Capitalize(Capitalize(s)) == Capitalize(s)
  {
    if |s| > 0 {
      var u := UpperChar(s[0]);
      assert UpperChar(u) == u;
      assert Capitalize(s)[1..] == s[1..];
    }
  }

  /** The four nav labels are "Home", "Work", "About" and "Contact". */
  lemma NavLabels()
    ensures Capitalize(PageKeys[0]) == "Home"
    ensures Capitalize(PageKeys[1]) == "Work"
    ensures Capitalize(PageKeys[2]) == "About"
    ensures Capitalize(PageKeys[3]) == "Contact"
  {
    assert UpperChar('h') == 'H' && UpperChar('w') == 'W';
    assert UpperChar('a') == 'A' && UpperChar('c') == 'C';
  }

  class PortfolioState {
    /** `currentPage` state. */
    var currentPage: string
    /** `isDark` state. */
    var isDark: bool
    /** `selectedProject` state; `null` is `None`. */
    var selectedProject: Option<Project>
    /** `particles` state. */
    var particles: seq<Particle>
    /** `particleIdRef.current` */
    var particleId: nat
    /** `lastParticleTime.current` */
    var lastParticleTime: int

    ghost predicate Valid()
      reads this
    {
      currentPage in PageKeys && TrailInvariant(particles, particleId)
    }

    /** The initial state: home page, dark theme, no modal, an empty trail. */
    constructor ()
      ensures Valid()
      ensures currentPage == "home" && isDark && selectedProject == None
      ensures particles == [] && particleId == 0 && lastParticleTime == 0
    {
      currentPage := "home";
      isDark := true;
      selectedProject := None;
      particles := [];
      particleId := 0;
      lastParticleTime := 0;
    }

    /** A nav button: `setCurrentPage(page)` for the `k`-th key of the bar. */
    method SelectPage(k: nat)
      requires Valid()
      requires k < |PageKeys|
      modifies this
      ensures Valid()
      ensures currentPage == PageKeys[k]
      ensures isDark == old(isDark) && selectedProject == old(selectedProject)
      ensures particles == old(particles) && particleId == old(particleId)
      ensures lastParticleTime == old(lastParticleTime)
    {
      currentPage := PageKeys[k];
    }

    /** The "Get in Touch" button: go to the contact page. */
    method GetInTouch()
      requires Valid()
      modifies this
      ensures Valid()
      ensures currentPage == "contact"
      ensures isDark == old(isDark) && selectedProject == old(selectedProject)
      ensures particles == old(particles) && particleId == old(particleId)
      ensures lastParticleTime == old(lastParticleTime)
    {
      currentPage := PageKeys[3];
    }

    /** The round theme button: `setIsDark(!isDark)`. */
    method ToggleTheme()
      requires Valid()
      modifies this
      ensures Valid()
      ensures isDark == !old(isDark)
      ensures currentPage == old(currentPage) && selectedProject == old(selectedProject)
      ensures particles == old(particles) && particleId == old(particleId)
      ensures lastParticleTime == old(lastParticleTime)
    {
      isDark := !isDark;
    }

    /** Clicking a project card opens the modal for that project. */
    method OpenProject(p: Project)
      requires Valid()
      modifies this
      ensures Valid()
      ensures selectedProject == Some(p)
      ensures currentPage == old(currentPage) && isDark == old(isDark)
      ensures particles == old(particles) && particleId == old(particleId)
      ensures lastParticleTime == old(lastParticleTime)
    {
      selectedProject := Some(p);
    }

    /** The modal backdrop and its close button both reset the selection. */
    method CloseProject()
      requires Valid()
      modifies this
      ensures Valid()
      ensures selectedProject == None
      ensures currentPage == old(currentPage) && isDark == old(isDark)
      ensures particles == old(particles) && particleId == old(particleId)
      ensures lastParticleTime == old(lastParticleTime)
    {
      selectedProject := None;
    }

    /**
     * The window `mousemove` handler: the 40 ms throttle, then a full-life
     * particle with the next id appended after the newest 25.
     */
    method HandleMouseMove(now: int, clientX: real, clientY: real, vx: real, vy: real, size: real)
      requires Valid()
      requires -0.5 <= vx < 0.5 && -0.5 <= vy < 0.5 && 2.0 <= size < 5.0
      modifies this
      ensures Valid()
      ensures Admits(old(lastParticleTime), now) ==>
        && lastParticleTime == now
        && particleId == old(particleId) + 1
        && particles == Spawned(old(particles), NewParticle(old(particleId), clientX, clientY, vx, vy, size))
      ensures !Admits(old(lastParticleTime), now) ==>
        && particles == old(particles)
        && particleId == old(particleId)
        && lastParticleTime == old(lastParticleTime)
      ensures currentPage == old(currentPage) && isDark == old(isDark)
      ensures selectedProject == old(selectedProject)
    {
      if now - lastParticleTime < ThrottleMs {
        return;
      }
      var p := NewParticle(particleId, clientX, clientY, vx, vy, size);
      var spawned := Spawned(particles, p);
      SpawnKeepsInvariant(particles, particleId, p);
      lastParticleTime, particleId, particles := now, particleId + 1, spawned;
    }

    /**
     * One `animate` frame: the `setParticles` updater drifts, fades and
     * filters the particles, sweeps the survivors for links and stores them.
     */
    method Animate() returns (links: seq<Pair>)
      requires Valid()
      modifies this
      ensures Valid()
      ensures particles == Advanced(old(particles))
      ensures LinksExactlyNear(particles, links)
      ensures particleId == old(particleId) && lastParticleTime == old(lastParticleTime)
      ensures currentPage == old(currentPage) && isDark == old(isDark)
      ensures selectedProject == old(selectedProject)
    {
      AdvanceKeepsInvariant(particles, particleId);
      var updated := Advanced(particles);
      ghost var visited;
      links, visited := SweepLinks(updated);
      particles := updated;
    }
  }
}
