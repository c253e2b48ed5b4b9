# Portfolio site: a Dafny model of its behaviour

This project models the behavioural core of a React portfolio site. Two parts
carry real logic.

**The cursor particle trail.** It lives in the `ParticleCanvas` component and
in an inlined copy inside the single-file `Portfolio` component.

- A throttled pointer handler spawns particles into a buffer capped at 26
  entries.
- Each animation frame drifts every particle, fades it, and filters out the
  dead ones.
- A nested pair loop links every two particles closer than 150 pixels.

**The small UI state machines around it.**

- The showcase tab bar and its arrow keys.
- The showcase overlay's keyboard and toolbar toggles.
- The dark-mode preference in storage.
- The project lookup behind `/work/:id`.
- The navigation bar's active-link test.
- The capitalised page labels.

One module per source component:

| module | file | models |
|---|---|---|
| `Types` | `Types.dfy` | `Option`, and the `Particle` and `Project` records of `data/types.ts` |
| `Particles` | `Particles.dfy` | the trail buffer as pure functions (`Spawned`, `Advanced`), its invariant, and the lifetime and link-distance lemmas |
| `PairSweep` | `PairSweep.dfy` | the nested `i < j` loop as methods proved against the pair enumeration `AllPairs` |
| `Canvas` | `Canvas.dfy` | `ParticleCanvas`: the three refs as fields of a class, the handler and the frame as its methods |
| `Portfolio` | `Portfolio.dfy` | the single-file component: pages, labels, theme, modal, and the trail twin |
| `Container` | `Container.dfy` | `ShowcaseContainer`: the tab state machine and the theme sync |
| `Overlay` | `Overlay.dfy` | `ShowcaseOverlay`: the four panel flags and the full-page path |
| `AppShell` | `AppShell.dfy` | `App`: theme load and save, and `ShowcasePage` |
| `Navigation` | `Navigation.dfy` | `Navigation`: the page table and `isActive` |

How the source's values are represented:

- JavaScript numbers for position, velocity and life are `real`.
- Timestamps are `int`.
- The random draws and `Date.now()` are parameters of the handlers. Their
  preconditions are the source's ranges: velocity in [-0.5, 0.5) and size in
  [2, 5).
- `null` and `undefined` are `None`.

Invariants and proofs:

- The two particle-trail classes, `Canvas.ParticleCanvas` and
  `Portfolio.PortfolioState`, keep a `Valid()` invariant that every method
  preserves. The other classes need none: the tab set is closed by the `Tab`
  datatype, and the overlay flags and the stored theme are plain values.
- `theme == ThemeOf(isDark)` is deliberately not an invariant of
  `Container.ShowcaseContainer`: the playground control `SetTheme` can move the
  theme away from `isDark` until the prop next changes.
- For the trail, `Valid()` says:
  - at most 26 particles;
  - ids strictly increasing along the buffer;
  - every id below the counter;
  - every life in (0, 1];
  - every velocity and size in the sampled range.
- The frame's pair sweep is proved to return exactly the near pairs, each once,
  in visiting order.

## Model

| member | source | states |
|---|---|---|
| `Particles.Admits` | components/ParticleCanvas.tsx:18 | an event is taken exactly when it comes at least 40 ms after the last taken one, and so strictly later |
| `Particles.AcceptedTimes` | components/ParticleCanvas.tsx:16-19 | of a stream of pointer events, only events of the stream are taken, at most one per event, and a first event at least 40 ms after the last taken time is taken |
| `Particles.ThrottleSpacing` | components/ParticleCanvas.tsx:18-19 | the `Admits` test spaces the taken events: the first at least 40 ms after the last taken time, each later one at least 40 ms after the one before |
| `Particles.SpacedEventsAllTaken` | components/ParticleCanvas.tsx:18-19 | when every event comes at least 40 ms after the one before, the throttle takes every event |
| `Particles.NewParticle` | components/ParticleCanvas.tsx:21-29 | an accepted event's particle has the next id, sits at the pointer with full life, and is well sampled exactly when the random draws are in range |
| `Particles.LastN` | components/ParticleCanvas.tsx:31 | `slice(-25)` keeps the newest min(n, 25) entries of the buffer, in order |
| `Particles.Spawned` | components/ParticleCanvas.tsx:31 | the new buffer is the newest min(n, 25) old entries, in order, followed by the new particle, which is last; the length is at most 26 |
| `Particles.SpawnEvictsOldest` | components/ParticleCanvas.tsx:22-31 | appending a particle with a larger id keeps ids increasing, and every evicted particle has a lower id than every kept one |
| `Particles.FullTrailEvictsOldest` | components/ParticleCanvas.tsx:31 | on a full trail of 26 a spawn drops the oldest particle whatever its remaining life |
| `Particles.SpawnKeepsInvariant` | components/ParticleCanvas.tsx:19-31 | a spawn with the counter's id, life 1 and sampled velocity and size keeps the buffer invariant with the counter one higher |
| `Particles.Drift` | components/ParticleCanvas.tsx:55-60 | a particle's frame step is undone by `Undrift`; it keeps id, velocity and size and lowers life by 0.012 |
| `Particles.Drifted` | components/ParticleCanvas.tsx:54-60 | the `.map` keeps the length and the order, drifting the particle at each position, and a particle is in the mapped buffer iff its one-frame-earlier self was in the old one |
| `Particles.DriftRoundTrip` | components/ParticleCanvas.tsx:55-60 | every particle is the drift of its one-frame-earlier self |
| `Particles.Alive` | components/ParticleCanvas.tsx:61 | the filter keeps exactly the particles with positive life, never lengthening the buffer |
| `Particles.AliveKeepsOrder` | components/ParticleCanvas.tsx:61 | the filter keeps the buffer oldest-first (ids increasing) |
| `Particles.Advanced` | components/ParticleCanvas.tsx:54-61 | a particle is in the next frame's buffer iff its life is positive and its one-frame-earlier self was in the old buffer; the length never grows |
| `Particles.AdvanceKeepsInvariant` | components/ParticleCanvas.tsx:54-63 | a frame keeps the buffer invariant, including every life in (0, 1] and ids increasing |
| `Particles.DriftNExact` | components/ParticleCanvas.tsx:57-59 | after k frames a particle has moved k velocities and lost exactly k * 0.012 life, with id, velocity and size unchanged |
| `Particles.SurvivesWhileAlive` | components/ParticleCanvas.tsx:54-61 | over frames without pointer events, a buffered particle is present, drifted, after k frames while its life after k decays is still positive |
| `Particles.LivesShrink` | components/ParticleCanvas.tsx:54-61 | without spawns every life after k frames is at most 1 - k * 0.012 |
| `Particles.AliveEmpty` | components/ParticleCanvas.tsx:61 | filtering a buffer with no positive life leaves it empty |
| `Particles.AllExpire` | components/ParticleCanvas.tsx:54-61 | without spawns a buffer with lives at most 1 is empty after 84 frames |
| `Particles.ExactLifetime` | components/ParticleCanvas.tsx:27-61 | over frames without pointer events, a particle spawned with life 1 survives exactly 83 frames, and the buffer is empty from the 84th |
| `Particles.OldLivesShrink` | components/ParticleCanvas.tsx:16-61 | in any interleaving of pointer events and frames, every particle no younger than a given one has life at most 1 - f * 0.012 after f frames: spawns refresh nothing |
| `Particles.GoneAfterLifetime` | components/ParticleCanvas.tsx:16-61 | in any interleaving of pointer events and frames, after more than 83 frames ending with a frame, no particle no younger than a given one is left |
| `Particles.WithinLinkDistance` | components/ParticleCanvas.tsx:83-87 | a displacement that passes the link test is below 150 on each axis |
| `Particles.Near` | components/ParticleCanvas.tsx:83-87 | the link test on two particles' displacement; a linked pair is less than 150 apart on each axis |
| `Particles.NearSymmetric` | components/ParticleCanvas.tsx:81-87 | the link test does not depend on the order of the two particles, so testing only i < j misses no link |
| `Particles.DistanceThreshold` | components/ParticleCanvas.tsx:85-87 | for the non-negative root d of dx²+dy², `d < 150` iff dx²+dy² < 150² |
| `Particles.Opacity` | components/ParticleCanvas.tsx:88 | a link's alpha is half the product of the lives at distance 0 and 0 at distance 150 |
| `Particles.OpacityFades` | components/ParticleCanvas.tsx:88 | between living particles a link's alpha never grows with the distance |
| `Particles.OpacityInRange` | components/ParticleCanvas.tsx:88 | a drawn link's alpha `(1 - d/150) * life_i * life_j * 0.5` lies in (0, 0.5] |
| `PairSweep.RowShape` | components/ParticleCanvas.tsx:82 | the inner loop for `i` visits exactly the pairs (i, j) with i < j < n, increasing in j |
| `PairSweep.PairsBeforeShape` | components/ParticleCanvas.tsx:81-82 | the first i outer rounds visit exactly the pairs a < b < n with a < i, in lexicographic order |
| `PairSweep.PairsBeforeCount` | components/ParticleCanvas.tsx:81-82 | the first i outer rounds make i(2n - i - 1)/2 visits |
| `PairSweep.AllPairsShape` | components/ParticleCanvas.tsx:81-82 | the loops visit every unordered pair exactly once, n(n-1)/2 visits, at most 325 for a full buffer |
| `PairSweep.IsNear` | components/ParticleCanvas.tsx:83-87 | the loop body's test on dx and dy is the link test on the two particles |
| `PairSweep.VisitNear` | components/ParticleCanvas.tsx:87 | drawing a near pair keeps the links the near part of the visited pairs |
| `PairSweep.VisitFar` | components/ParticleCanvas.tsx:87 | skipping a far pair keeps the links the near part of the visited pairs |
| `PairSweep.SweepRow` | components/ParticleCanvas.tsx:82-98 | the inner loop visits row i and adds a link for exactly its near pairs, keeping all links sorted |
| `PairSweep.LinkOpacityInRange` | components/ParticleCanvas.tsx:81-88 | every link a frame returns over a valid trail is drawn with an alpha in (0, 0.5] |
| `PairSweep.SweepLinks` | components/ParticleCanvas.tsx:81-99 | the nested loops visit `AllPairs(n)` and return a link for exactly the pairs i < j closer than 150, each once, in visiting order |
| `Canvas.ParticleCanvas.constructor` | components/ParticleCanvas.tsx:10-12 | the refs start as an empty buffer, id 0 and time 0, satisfying the invariant |
| `Canvas.ParticleCanvas.HandleMouseMove` | components/ParticleCanvas.tsx:16-32 | an event less than 40 ms after the last accepted one changes nothing; otherwise it records the time, takes the next id and stores `Spawned` of the old buffer with a full-life particle at the pointer; the invariant is kept |
| `Canvas.ParticleCanvas.Animate` | components/ParticleCanvas.tsx:51-99 | the buffer becomes `Advanced` of the old one, the counters stay, and the returned links are exactly the near pairs of the new buffer |
| `Canvas.ParticleCanvas.Feed` | components/ParticleCanvas.tsx:16-32 | running the handler over a stream of events hands out one id per time `AcceptedTimes` lists and records the last of them, keeping the invariant |
| `Canvas.ThrottleScenario` | components/ParticleCanvas.tsx:16-32 | events at 1000, 1020 and 1040 ms leave two particles, the last with id 1 |
| `Portfolio.UpperChar` | portfolio-complete.tsx:209 | lower-case ASCII letters map to their capitals and every other character is unchanged |
| `Portfolio.Capitalize` | portfolio-complete.tsx:209 | the label has the key's length, an upper-cased first character, and the rest unchanged |
| `Portfolio.CapitalizeIdempotent` | portfolio-complete.tsx:209 | capitalising a label again changes nothing |
| `Portfolio.NavLabels` | portfolio-complete.tsx:207-209 | the four keys are shown as Home, Work, About and Contact |
| `Portfolio.PortfolioState.constructor` | portfolio-complete.tsx:5-11 | the component starts on `home`, dark, with no selected project and an empty trail |
| `Portfolio.PortfolioState.SelectPage` | portfolio-complete.tsx:207-208 | a nav button sets the page to its key, which is always one of the four; nothing else changes |
| `Portfolio.PortfolioState.GetInTouch` | portfolio-complete.tsx:330 | "Get in Touch" sets the page to `contact` |
| `Portfolio.PortfolioState.ToggleTheme` | portfolio-complete.tsx:202 | the theme button negates `isDark` |
| `Portfolio.PortfolioState.OpenProject` | portfolio-complete.tsx:240 | clicking a card selects exactly that project |
| `Portfolio.PortfolioState.CloseProject` | portfolio-complete.tsx:393-399 | the backdrop and the close button reset the selection to none |
| `Portfolio.PortfolioState.HandleMouseMove` | portfolio-complete.tsx:18-33 | the same 40 ms throttle and `slice(-25)` spawn as the canvas component, with page, theme and selection unchanged |
| `Portfolio.PortfolioState.Animate` | portfolio-complete.tsx:51-98 | the particles become `Advanced` of the old ones and the links are exactly the near pairs |
| `Container.IndexOf` | components/InteractiveShowcase/ShowcaseContainer.tsx:48-49 | every tab is found in the fixed four-tab list, at its position |
| `Container.IndexOfTabs` | components/InteractiveShowcase/ShowcaseContainer.tsx:48 | the tab list has no repeats, so a position's tab is found at that position |
| `Container.ThemeOf` | components/InteractiveShowcase/ShowcaseContainer.tsx:23 | the theme is dark iff `isDark` |
| `Container.TabAfterKey` | components/InteractiveShowcase/ShowcaseContainer.tsx:47-55 | ArrowRight moves one tab on unless at the last, ArrowLeft one back unless at the first, and other keys keep the tab |
| `Container.RightThenLeft` | components/InteractiveShowcase/ShowcaseContainer.tsx:50-55 | from any tab but the last, ArrowRight then ArrowLeft returns to it |
| `Container.LeftThenRight` | components/InteractiveShowcase/ShowcaseContainer.tsx:50-55 | from any tab but the first, ArrowLeft then ArrowRight returns to it |
| `Container.RightPressesStop` | components/InteractiveShowcase/ShowcaseContainer.tsx:50-52 | n presses of ArrowRight advance n tabs but never past the last |
| `Container.ShowcaseContainer.constructor` | components/InteractiveShowcase/ShowcaseContainer.tsx:22-23 | the first tab is active and the theme follows `isDark` |
| `Container.ShowcaseContainer.HandleKeyDown` | components/InteractiveShowcase/ShowcaseContainer.tsx:43-56 | the tab becomes `TabAfterKey` of the old tab; Escape, and only Escape, requests `/work`; the theme is unchanged |
| `Container.ShowcaseContainer.SelectTab` | components/InteractiveShowcase/ShowcaseContainer.tsx:149 | clicking a tab makes it active |
| `Container.ShowcaseContainer.SyncTheme` | components/InteractiveShowcase/ShowcaseContainer.tsx:27-29 | a render whose `isDark` prop changed resets the theme to dark iff `isDark`; a render with the same prop keeps the theme |
| `Container.ShowcaseContainer.SetTheme` | components/InteractiveShowcase/ShowcaseContainer.tsx:135 | the playground control sets the theme alone, so theme and `isDark` can disagree until the next `isDark` change |
| `Container.PlaygroundThemeScenario` | components/InteractiveShowcase/ShowcaseContainer.tsx:23-29 | a light theme picked under a dark prop survives a re-render with the same prop, and a later prop change resets the theme |
| `Overlay.KeyEffect` | components/InteractiveShowcase/ShowcaseOverlay.tsx:37-40 | each flag flips iff its own key (`1`, `2`, `3`, `c`) is pressed; any other key changes none |
| `Overlay.KeyEffectInvolution` | components/InteractiveShowcase/ShowcaseOverlay.tsx:37-40 | pressing the same key twice restores the flags |
| `Overlay.EscapeAndUpperCNoop` | components/InteractiveShowcase/ShowcaseOverlay.tsx:34-40 | Escape and upper-case `C` leave every flag as it was |
| `Overlay.FullPagePath` | components/InteractiveShowcase/ShowcaseOverlay.tsx:128 | the path is `/work/`, then the id, then `/full` |
| `Overlay.FullPageRoundTrip` | components/InteractiveShowcase/ShowcaseOverlay.tsx:128 | the id read back from a full-page path is the id it was built from, and a path that names an id is that id's path |
| `Overlay.ShowcaseOverlay.constructor` | components/InteractiveShowcase/ShowcaseOverlay.tsx:26-29 | all four flags start false |
| `Overlay.ShowcaseOverlay.HandleKeyDown` | components/InteractiveShowcase/ShowcaseOverlay.tsx:33-41 | the flags become `KeyEffect` of the old flags, and the overlay asks to close iff the key is Escape |
| `Overlay.ShowcaseOverlay.ClosePrinciples` | components/InteractiveShowcase/ShowcaseOverlay.tsx:110 | the principles drawer's close clears its flag and no other |
| `Overlay.ShowcaseOverlay.CloseSystem` | components/InteractiveShowcase/ShowcaseOverlay.tsx:111 | the system drawer's close clears its flag and no other |
| `Overlay.ShowcaseOverlay.CloseImpact` | components/InteractiveShowcase/ShowcaseOverlay.tsx:112 | the impact drawer's close clears its flag and no other |
| `Overlay.ShowcaseOverlay.TogglePrinciples` | components/InteractiveShowcase/ShowcaseOverlay.tsx:120 | the toolbar button has the effect of key `1` |
| `Overlay.ShowcaseOverlay.ToggleImpact` | components/InteractiveShowcase/ShowcaseOverlay.tsx:121 | the toolbar button has the effect of key `2` |
| `Overlay.ShowcaseOverlay.ToggleSystem` | components/InteractiveShowcase/ShowcaseOverlay.tsx:122 | the toolbar button has the effect of key `3` |
| `Overlay.ShowcaseOverlay.ToggleCode` | components/InteractiveShowcase/ShowcaseOverlay.tsx:123 | the toolbar button has the effect of key `c` |
| `Overlay.ShowcaseOverlay.OpenFullPage` | components/InteractiveShowcase/ShowcaseOverlay.tsx:126-129 | the full-page button navigates to the path naming this overlay's project |
| `AppShell.ThemeString` | App.tsx:70 | the stored value is `"dark"` iff dark and `"light"` iff light |
| `AppShell.LoadedTheme` | App.tsx:61-66 | a missing or empty stored value keeps the current preference; any other value gives dark iff it is `"dark"` |
| `AppShell.ThemeRoundTrip` | App.tsx:62-70 | loading what a save wrote yields the saved preference |
| `AppShell.App.constructor` | App.tsx:58 | the preference starts dark |
| `AppShell.App.LoadTheme` | App.tsx:61-66 | the load effect sets the preference to `LoadedTheme` of the stored value and leaves storage alone |
| `AppShell.App.SaveTheme` | App.tsx:69-71 | the save effect stores the string of the current preference |
| `AppShell.App.SetIsDark` | App.tsx:69-71 | a toggle sets the preference; the save effect on `[isDark]` stores it only when the value changed, and otherwise storage is untouched |
| `AppShell.App.Mount` | App.tsx:57-71 | after mounting, the preference is what the stored value says (dark by default) and the storage holds its string |
| `AppShell.Reload` | App.tsx:58-71 | a preference toggled after one session's mount is the preference after the next mount |
| `AppShell.FindProject` | App.tsx:44 | the result is the first project whose id equals the route id; none iff the id is missing or matches nothing |
| `AppShell.ShowcasePage` | App.tsx:41-55 | the route redirects to `/work` iff no project has the id; otherwise it shows the overlay for the first listed project with that id, closing to `/work` |
| `Navigation.IsActive` | components/Navigation.tsx:18 | an entry is active iff the location is exactly its path; the second disjunct adds nothing |
| `Navigation.PathsDistinct` | components/Navigation.tsx:8-13 | the four page paths are pairwise distinct |
| `Navigation.AtMostOneActive` | components/Navigation.tsx:8-18 | no two entries are active on the same location |
| `Navigation.ProjectPathActivatesNothing` | components/Navigation.tsx:18 | on `/work/<id>` no entry is active, Work included |
| `Navigation.ButtonFor` | components/Navigation.tsx:18-26 | a button shows its entry's label, navigates to its path, and carries `aria-current="page"` exactly when active |
| `Navigation.Render` | components/Navigation.tsx:17-29 | the bar renders one button per table entry, in table order |
| `Navigation.RenderMarksAtMostOne` | components/Navigation.tsx:17-24 | at most one rendered button is marked active |

## Left out

- Canvas drawing is not modelled: `clearRect`, `arc`, `fill`, `stroke`, the rgba colour strings, `requestAnimationFrame` and canvas sizing. These are browser calls with no effect on the particle state.
- PairSweep.SweepLinks: returns the linked pairs without their opacities. The alpha of a link is the separate function `Particles.Opacity`, bounded by `Particles.OpacityInRange`.
- The link test is stated on squared distance, because `Math.sqrt` has no counterpart over the reals here. `Particles.DistanceThreshold` ties it to `dist < 150` for the non-negative root.
- `Math.random()` and `Date.now()` are parameters of the handlers; the sampled ranges are preconditions.
- Numbers are exact reals, not IEEE doubles. The 83-frame lifetime holds over the reals; rounding in repeated subtraction of 0.012 is not modelled.
- React scheduling is not modelled:
  - effects, listener registration and removal;
  - the double invocation of state updaters under StrictMode;
  - the `[activeTab, navigate]` and flag dependency lists that re-register the key handlers.
  - Each handler is a method acting on the current state.
- Browser storage is one optional string slot for the `theme` key. The `showcase-size` key of the showcase container, read with an unchecked cast, and its `size` state are left out.
- The `showCode` state of the showcase container and its setter in the playground controls only pass a boolean through and are left out.
- Portfolio.PortfolioState.SelectPage: takes the position of the page in the nav list instead of the key string, since the buttons are generated from that list.
- Portfolio.UpperChar: upper-cases ASCII letters only, not full Unicode case mapping; all the page keys are ASCII.
- Animation wrappers (framer-motion springs and transitions), timer-driven flags (toasts, the contact form's 3-second `submitted` flag), static data tables and pure markup have no state logic worth modelling.
- Which route a path such as `/work/<id>/full` matches is decided by the router library and is not modelled; the overlay only computes the path.
- Particles.ExactLifetime: the exact 83-frame survival holds only for frames without pointer events in between. With pointer events, a spawn on a full trail evicts the oldest particle while it is still alive (`Particles.FullTrailEvictsOldest`), so a particle can leave earlier; only the bound "gone after 84 frames" (`Particles.GoneAfterLifetime`) holds for every interleaving.
- Canvas.ParticleCanvas.Feed: gives every event of the stream one pointer position and one set of random draws, and states the counters only; what each accepted event stores is stated by `HandleMouseMove`.
