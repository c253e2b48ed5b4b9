/**
 * The particle trail's pure logic, shared by the two copies of the animator
 * (components/ParticleCanvas.tsx and the inlined one in portfolio-complete.tsx):
 * the spawn throttle, the bounded append, the per-frame drift and fade, and the
 * lifetime that follows from them.
 */
module Particles {
  import opened Types

  /** Minimum spacing, in milliseconds, between two accepted pointer events. */
  const ThrottleMs: int := 40
  /** `slice(-25)`: how many of the newest particles are kept before appending. */
  const TrailKeep: nat := 25
  /** Largest number of particles the trail can hold. */
  const MaxParticles: nat := 26
  /** Life lost by every particle on every animation frame. */
  const Decay: real := 0.012
  /** Two particles closer than this many pixels are linked. */
  const LinkDistance: real := 150.0
  /** Frames a freshly spawned particle survives (1 - 83 * 0.012 > 0 >= 1 - 84 * 0.012). */
  const LifetimeFrames: nat := 83

  /** The throttle: an event at `now` is taken iff 40 ms passed since the last taken one. */
  predicate Admits(lastTime: int, now: int): (ok: bool)
    ensures ok <==> lastTime + ThrottleMs <= now
    ensures ok ==> lastTime < now
  {
    now - lastTime >= ThrottleMs
  }

  /**
   * The times at which a stream of pointer events is taken, given the time of
   * the last taken one: each event is tested against the latest taken time.
   */
  function AcceptedTimes(lastTime: int, events: seq<int>): (r: seq<int>)
    ensures |r| <= |events|
    ensures forall t :: t in r ==> t in events
    ensures events != [] && Admits(lastTime, events[0]) ==> r != [] && r[0] == events[0]
    decreases |events|
  {
    if events == [] then []
    else if Admits(lastTime, events[0]) then [events[0]] + AcceptedTimes(events[0], events[1..])
    else AcceptedTimes(lastTime, events[1..])
  }

  /**
   * The throttle spaces the taken events: the first comes at least 40 ms after
   * the previous taken time, and each later one at least 40 ms after the one
   * before it.
   */
  lemma {:induction false} ThrottleSpacing(lastTime: int, events: seq<int>)
    ensures var r := AcceptedTimes(lastTime, events);
      (|r| > 0 ==> r[0] - lastTime >= ThrottleMs) &&
      forall k :: 0 < k < |r| ==> r[k] - r[k - 1] >= ThrottleMs
    decreases |events|
  {
    if events != [] {
      if Admits(lastTime, events[0]) {
        ThrottleSpacing(events[0], events[1..]);
      } else {
        ThrottleSpacing(lastTime, events[1..]);
      }
    }
  }

  /**
   * The throttle drops nothing it need not: when every event comes at least
   * 40 ms after the one before (the first after the last taken time), every
   * event is taken.
   */
  lemma {:induction false} SpacedEventsAllTaken(lastTime: int, events: seq<int>)
    requires events != [] ==> Admits(lastTime, events[0])
    requires forall k :: 0 < k < |events| ==> Admits(events[k - 1], events[k])
    ensures AcceptedTimes(lastTime, events) == events
    decreases |events|
  {
    if events != [] {
      var rest := events[1..];
      assert forall k :: 0 < k < |rest| ==> Admits(rest[k - 1], rest[k]) by {
        forall k | 0 < k < |rest|
          ensures Admits(rest[k - 1], rest[k])
        {
          assert rest[k - 1] == events[k] && rest[k] == events[k + 1];
        }
      }
      SpacedEventsAllTaken(events[0], rest);
      assert events == [events[0]] + rest;
    }
  }

  /**
   * Velocity and size drawn as the source draws them: `(Math.random() - 0.5) * 1`
   * on each axis and `Math.random() * 3 + 2` for the size.
   */
  predicate WellSampled(p: Particle)
  {
    -0.5 <= p.vx < 0.5 && -0.5 <= p.vy < 0.5 && 2.0 <= p.size < 5.0
  }

  /** The particle an accepted event creates: full life at the pointer. */
  function NewParticle(id: nat, x: real, y: real, vx: real, vy: real, size: real): (p: Particle)
    ensures p.id == id && p.x == x && p.y == y && p.life == 1.0
    ensures WellSampled(p) <==> -0.5 <= vx < 0.5 && -0.5 <= vy < 0.5 && 2.0 <= size < 5.0
  {
    Particle(id, x, y, vx, vy, 1.0, size)
  }

  /** Ids strictly increase along the buffer, so the buffer is oldest-first. */
  predicate IdsIncreasing(s: seq<Particle>)
  {
    forall i, j :: 0 <= i < j < |s| ==> s[i].id < s[j].id
  }

  /**
   * What both animators keep true of their particle buffer: at most 26 entries,
   * oldest first, every id already handed out, every life in (0, 1] and every
   * velocity and size in the sampled ranges.
   */
  ghost predicate TrailInvariant(s: seq<Particle>, nextId: nat)
  {
    && |s| <= MaxParticles
    && IdsIncreasing(s)
    && forall p :: p in s ==> p.id < nextId && 0.0 < p.life <= 1.0 && WellSampled(p)
  }

  /** `s.slice(-n)`: the newest `n` entries, or all of them when there are fewer. */
  function LastN(s: seq<Particle>, n: nat): (r: seq<Particle>)
    ensures |r| == if |s| <= n then |s| else n
    ensures forall k :: 0 <= k < |r| ==> r[k] == s[|s| - |r| + k]
    ensures forall q :: q in r ==> q in s
  {
    if |s| <= n then s else s[|s| - n..]
  }

  /** `[...prev.slice(-25), p]`: the buffer after an accepted pointer event. */
  function Spawned(s: seq<Particle>, p: Particle): (r: seq<Particle>)
    ensures |r| == (if |s| < TrailKeep then |s| else TrailKeep) + 1
    ensures |r| <= MaxParticles
    ensures r[|r| - 1] == p
    ensures forall k :: 0 <= k < |r| - 1 ==> r[k] == s[|s| - (|r| - 1) + k]
  {
    LastN(s, TrailKeep) + [p]
  }

  /** Eviction drops exactly the oldest entries: each dropped id is below every kept id. */
  lemma SpawnEvictsOldest(s: seq<Particle>, p: Particle)
    requires IdsIncreasing(s)
    requires forall q :: q in s ==> q.id < p.id
    ensures IdsIncreasing(Spawned(s, p))
    ensures forall i, q :: 0 <= i < |s| - TrailKeep && q in Spawned(s, p) ==> s[i].id < q.id
  {
    var r := Spawned(s, p);
    forall i, q | 0 <= i < |s| - TrailKeep && q in r
      ensures s[i].id < q.id
    {
      var k :| 0 <= k < |r| && r[k] == q;
      assert |r| - 1 == TrailKeep;
      if k < |r| - 1 {
        assert q == s[|s| - TrailKeep + k];
      }
    }
  }

  /**
   * Eviction does not wait for a particle to fade: on a full trail a spawn drops
   * the oldest particle whatever its life.
   */
  lemma FullTrailEvictsOldest(s: seq<Particle>, p: Particle)
    requires |s| == MaxParticles && IdsIncreasing(s)
    requires forall q :: q in s ==> q.id < p.id
    ensures s[0] !in Spawned(s, p)
  {
    SpawnEvictsOldest(s, p);
  }

  /** A spawn with the next id keeps the buffer invariant and advances the counter. */
  lemma SpawnKeepsInvariant(s: seq<Particle>, nextId: nat, p: Particle)
    requires TrailInvariant(s, nextId)
    requires p.id == nextId && p.life == 1.0 && WellSampled(p)
    ensures TrailInvariant(Spawned(s, p), nextId + 1)
  {
    SpawnEvictsOldest(s, p);
    forall q | q in Spawned(s, p)
      ensures q.id < nextId + 1 && 0.0 < q.life <= 1.0 && WellSampled(q)
    {
      if q != p {
        assert q in LastN(s, TrailKeep);
      }
    }
  }

  /** One frame of motion: drift by the velocity and fade by `Decay`. */
  function Drift(p: Particle): (q: Particle)
    ensures Undrift(q) == p
    ensures q.id == p.id && q.vx == p.vx && q.vy == p.vy && q.size == p.size
    ensures q.life == p.life - Decay
  {
    p.(x := p.x + p.vx, y := p.y + p.vy, life := p.life - Decay)
  }

  /** The inverse of `Drift`: where a particle was one frame earlier. */
  function Undrift(q: Particle): Particle
  {
    q.(x := q.x - q.vx, y := q.y - q.vy, life := q.life + Decay)
  }

  /** `Undrift` is also a right inverse: every particle is the drift of its earlier self. */
  lemma DriftRoundTrip(p: Particle)
    ensures Drift(Undrift(p)) == p
  {
  }

  /** `prev.map(p => ({...p, x: p.x + p.vx, y: p.y + p.vy, life: p.life - 0.012}))`. */
  function Drifted(s: seq<Particle>): (d: seq<Particle>)
    ensures |d| == |s|
    ensures forall i :: 0 <= i < |s| ==> d[i] == Drift(s[i])
    ensures forall q :: q in d <==> Undrift(q) in s
  {
    var d := seq(|s|, i requires 0 <= i < |s| => Drift(s[i]));
    forall q
      ensures q in d <==> Undrift(q) in s
    {
      if Undrift(q) in s {
        var i :| 0 <= i < |s| && s[i] == Undrift(q);
        DriftRoundTrip(q);
        assert d[i] == q;
      }
    }
    d
  }

  /** `.filter(p => p.life > 0)`: keeps exactly the living particles, in order. */
  function Alive(t: seq<Particle>): (r: seq<Particle>)
    ensures |r| <= |t|
    ensures forall q :: q in r <==> q in t && q.life > 0.0
    decreases |t|
  {
    if t == [] then []
    else
      var rest := Alive(t[1..]);
      assert forall q :: q in rest ==> q in t[1..];
      (if t[0].life > 0.0 then [t[0]] else []) + rest
  }

  /** In an oldest-first buffer the head is older than everything after it. */
  lemma HeadOldest(t: seq<Particle>)
    requires t != [] && IdsIncreasing(t)
    ensures forall q :: q in t[1..] ==> t[0].id < q.id
  {
    forall q | q in t[1..]
      ensures t[0].id < q.id
    {
      var j :| 0 <= j < |t[1..]| && t[1..][j] == q;
      assert t[j + 1] == q;
    }
  }

  /** Putting an older particle in front of an oldest-first buffer keeps it oldest-first. */
  lemma ConsIncreasing(p: Particle, rest: seq<Particle>)
    requires IdsIncreasing(rest)
    requires forall q :: q in rest ==> p.id < q.id
    ensures IdsIncreasing([p] + rest)
  {
    var r := [p] + rest;
    forall a, b | 0 <= a < b < |r|
      ensures r[a].id < r[b].id
    {
      if a == 0 {
        assert r[b] in rest;
      } else {
        assert r[a] == rest[a - 1];
      }
    }
  }

  /** The filter keeps the buffer's oldest-first order. */
  lemma {:induction false} AliveKeepsOrder(t: seq<Particle>)
    requires IdsIncreasing(t)
    ensures IdsIncreasing(Alive(t))
    decreases |t|
  {
    if t != [] {
      var rest := Alive(t[1..]);
      AliveKeepsOrder(t[1..]);
      if t[0].life > 0.0 {
        HeadOldest(t);
        ConsIncreasing(t[0], rest);
      } else {
        assert Alive(t) == rest;
      }
    }
  }

  /**
   * One animation frame's update of the buffer: drift every particle, then drop
   * the ones whose life is no longer positive.
   */
  function Advanced(s: seq<Particle>): (r: seq<Particle>)
    ensures |r| <= |s|
    ensures forall q :: q in r <==> q.life > 0.0 && Undrift(q) in s
  {
    Alive(Drifted(s))
  }

  /** An advance keeps the buffer invariant and never touches the id counter. */
  lemma AdvanceKeepsInvariant(s: seq<Particle>, nextId: nat)
    requires TrailInvariant(s, nextId)
    ensures TrailInvariant(Advanced(s), nextId)
  {
    var d := Drifted(s);
    assert IdsIncreasing(d) by {
      forall i, j | 0 <= i < j < |d|
        ensures d[i].id < d[j].id
      {
        DriftRoundTrip(s[i]);
        DriftRoundTrip(s[j]);
      }
    }
    AliveKeepsOrder(d);
    forall q | q in Advanced(s)
      ensures q.id < nextId && 0.0 < q.life <= 1.0 && WellSampled(q)
    {
      DriftRoundTrip(Undrift(q));
    }
  }

  /** A particle after `k` frames, ignoring removal. */
  function DriftN(p: Particle, k: nat): Particle
  {
    if k == 0 then p else Drift(DriftN(p, k - 1))
  }

  /** The buffer after `k` animation frames without pointer events. */
  function AdvanceN(s: seq<Particle>, k: nat): seq<Particle>
  {
    if k == 0 then s else Advanced(AdvanceN(s, k - 1))
  }

  /** After `k` frames a particle has moved `k` velocities and lost `k` decays. */
  lemma {:induction false} DriftNExact(p: Particle, k: nat)
    ensures DriftN(p, k).id == p.id && DriftN(p, k).size == p.size
    ensures DriftN(p, k).vx == p.vx && DriftN(p, k).vy == p.vy
    ensures DriftN(p, k).x == p.x + (k as real) * p.vx
    ensures DriftN(p, k).y == p.y + (k as real) * p.vy
    ensures DriftN(p, k).life == p.life - (k as real) * Decay
  {
    if k > 0 {
      DriftNExact(p, k - 1);
    }
  }

  /** A buffered particle stays (drifted) in the buffer while its life stays positive. */
  lemma {:induction false} SurvivesWhileAlive(s: seq<Particle>, p: Particle, k: nat)
    requires p in s
    requires p.life - (k as real) * Decay > 0.0
    ensures DriftN(p, k) in AdvanceN(s, k)
  {
    if k > 0 {
      SurvivesWhileAlive(s, p, k - 1);
      DriftNExact(p, k);
      DriftRoundTrip(DriftN(p, k - 1));
    }
  }

  /** Every particle of `t` has life at most `bound`. */
  predicate LivesAtMost(t: seq<Particle>, bound: real)
  {
    forall u :: u in t ==> u.life <= bound
  }

  /** One frame lowers every life bound by `Decay`. */
  lemma AdvanceLowersLives(t: seq<Particle>, bound: real)
    requires LivesAtMost(t, bound)
    ensures LivesAtMost(Advanced(t), bound - Decay)
  {
    forall q | q in Advanced(t)
      ensures q.life <= bound - Decay
    {
      assert Undrift(q) in t;
    }
  }

  /** Without spawns, every life after `k` frames is at most `1 - k * Decay`. */
  lemma {:induction false} LivesShrink(s: seq<Particle>, k: nat)
    requires LivesAtMost(s, 1.0)
    ensures LivesAtMost(AdvanceN(s, k), 1.0 - (k as real) * Decay)
  {
    if k > 0 {
      LivesShrink(s, k - 1);
      var bound := 1.0 - ((k - 1) as real) * Decay;
      assert bound - Decay == 1.0 - (k as real) * Decay;
      AdvanceLowersLives(AdvanceN(s, k - 1), bound);
    }
  }

  /** Filtering a buffer in which nothing is alive leaves nothing. */
  lemma {:induction false} AliveEmpty(t: seq<Particle>, bound: real)
    requires LivesAtMost(t, bound) && bound <= 0.0
    ensures Alive(t) == []
  {
    if t != [] {
      AliveEmpty(t[1..], bound);
    }
  }

  /** Drifting lowers every life bound by `Decay`. */
  lemma DriftLowersLives(t: seq<Particle>, bound: real)
    requires LivesAtMost(t, bound)
    ensures LivesAtMost(Drifted(t), bound - Decay)
  {
    forall q | q in Drifted(t)
      ensures q.life <= bound - Decay
    {
      var i :| 0 <= i < |t| && Drifted(t)[i] == q;
      assert t[i] in t;
    }
  }

  /** Without spawns, a buffer whose lives are at most 1 is empty after 84 frames. */
  lemma AllExpire(s: seq<Particle>, k: nat)
    requires LivesAtMost(s, 1.0)
    requires k > LifetimeFrames
    ensures AdvanceN(s, k) == []
  {
    var t := AdvanceN(s, k - 1);
    var bound := 1.0 - ((k - 1) as real) * Decay;
    LivesShrink(s, k - 1);
    assert ((k - 1) as real) * Decay >= (LifetimeFrames as real) * Decay;
    DriftLowersLives(t, bound);
    AliveEmpty(Drifted(t), bound - Decay);
  }

  /**
   * Exact survival time: a particle spawned with life 1 and never refreshed is
   * still present (drifted) after 83 frames, and after 84 frames the whole
   * buffer of particles with life at most 1 is empty.
   */
  lemma ExactLifetime(s: seq<Particle>, p: Particle, k: nat)
    requires p in s && p.life == 1.0
    requires LivesAtMost(s, 1.0)
    ensures k <= LifetimeFrames ==> DriftN(p, k) in AdvanceN(s, k) && DriftN(p, k).life > 0.0
    ensures k > LifetimeFrames ==> AdvanceN(s, k) == []
  {
    if k <= LifetimeFrames {
      DriftNExact(p, k);
      SurvivesWhileAlive(s, p, k);
    } else {
      AllExpire(s, k);
    }
  }

  /** One step of a session: an accepted pointer event or an animation frame. */
  datatype Step = Spawn(p: Particle) | Frame

  /** The buffer after one step. */
  function Apply(t: seq<Particle>, step: Step): seq<Particle>
  {
    match step
    case Spawn(p) => Spawned(t, p)
    case Frame => Advanced(t)
  }

  /** The buffer after a session of pointer events and frames, in any interleaving. */
  function Run(s: seq<Particle>, steps: seq<Step>): seq<Particle>
    decreases |steps|
  {
    if steps == [] then s else Apply(Run(s, steps[..|steps| - 1]), steps[|steps| - 1])
  }

  /** How many animation frames a session holds. */
  function Frames(steps: seq<Step>): nat
    decreases |steps|
  {
    if steps == [] then 0
    else Frames(steps[..|steps| - 1]) + (if steps[|steps| - 1].Frame? then 1 else 0)
  }

  /** Every particle of `t` with an id up to `id` has life at most `bound`. */
  predicate OldLivesAtMost(t: seq<Particle>, id: nat, bound: real)
  {
    forall u :: u in t && u.id <= id ==> u.life <= bound
  }

  /** Every particle the session spawns is younger (has a larger id) than `id`. */
  predicate SpawnsAfter(steps: seq<Step>, id: nat)
  {
    forall k :: 0 <= k < |steps| && steps[k].Spawn? ==> steps[k].p.id > id
  }

  /**
   * Pointer events in between do not refresh old particles: after a session with
   * `f` frames, every particle no younger than `id` has life at most `1 - f * Decay`.
   */
  lemma {:induction false} OldLivesShrink(s: seq<Particle>, steps: seq<Step>, id: nat)
    requires LivesAtMost(s, 1.0)
    requires SpawnsAfter(steps, id)
    ensures OldLivesAtMost(Run(s, steps), id, 1.0 - (Frames(steps) as real) * Decay)
    decreases |steps|
  {
    if steps != [] {
      var prefix := steps[..|steps| - 1];
      var last := steps[|steps| - 1];
      assert SpawnsAfter(prefix, id) by {
        forall k | 0 <= k < |prefix| && prefix[k].Spawn?
          ensures prefix[k].p.id > id
        {
          assert prefix[k] == steps[k];
        }
      }
      OldLivesShrink(s, prefix, id);
      var t := Run(s, prefix);
      var bound := 1.0 - (Frames(prefix) as real) * Decay;
      match last
      case Spawn(p) =>
        assert p.id > id;
        forall q | q in Spawned(t, p) && q.id <= id
          ensures q.life <= bound
        {
          assert q in LastN(t, TrailKeep);
        }
      case Frame =>
        assert bound - Decay == 1.0 - (Frames(steps) as real) * Decay;
        forall q | q in Advanced(t) && q.id <= id
          ensures q.life <= bound - Decay
        {
          assert Undrift(q) in t;
        }
    }
  }

  /**
   * Whatever pointer events come in between, once a session has had more than
   * 83 frames and has just drawn one, no particle no younger than `id` is left.
   */
  lemma GoneAfterLifetime(s: seq<Particle>, steps: seq<Step>, id: nat)
    requires LivesAtMost(s, 1.0)
    requires SpawnsAfter(steps, id)
    requires Frames(steps) > LifetimeFrames && steps[|steps| - 1] == Frame
    ensures forall q :: q in Run(s, steps) ==> q.id > id
  {
    OldLivesShrink(s, steps, id);
    assert (Frames(steps) as real) * Decay >= ((LifetimeFrames + 1) as real) * Decay;
    var t := Run(s, steps[..|steps| - 1]);
    assert Run(s, steps) == Advanced(t);
  }

  /**
   * The link test on a displacement: `Math.sqrt(dx * dx + dy * dy) < 150`,
   * stated on squares (see `DistanceThreshold`).
   */
  predicate WithinLinkDistance(dx: real, dy: real): (ok: bool)
    ensures ok ==> -LinkDistance < dx < LinkDistance && -LinkDistance < dy < LinkDistance
  {
    var ok := dx * dx + dy * dy < LinkDistance * LinkDistance;
    if ok then
      SquareBelow(dx, dy * dy);
      SquareBelow(dy, dx * dx);
      ok
    else ok
  }

  /** A coordinate whose square stays below 150² once `rest >= 0` is added lies within ±150. */
  lemma SquareBelow(a: real, rest: real)
    requires rest >= 0.0 && a * a + rest < LinkDistance * LinkDistance
    ensures -LinkDistance < a < LinkDistance
  {
    assert (a - LinkDistance) * (a + LinkDistance) < 0.0;
  }

  /** Two particles are linked iff they are closer than 150 pixels. */
  predicate Near(p: Particle, q: Particle): (ok: bool)
    ensures ok ==> -LinkDistance < p.x - q.x < LinkDistance && -LinkDistance < p.y - q.y < LinkDistance
  {
    WithinLinkDistance(p.x - q.x, p.y - q.y)
  }

  /** Being linked does not depend on which particle comes first in the buffer. */
  lemma NearSymmetric(p: Particle, q: Particle)
    ensures Near(p, q) <==> Near(q, p)
  {
    assert (p.x - q.x) * (p.x - q.x) == (q.x - p.x) * (q.x - p.x);
    assert (p.y - q.y) * (p.y - q.y) == (q.y - p.y) * (q.y - p.y);
  }

  /** For a non-negative `d` with `d * d == sq`, the test `d < 150` is `sq < 150 * 150`. */
  lemma DistanceThreshold(d: real, sq: real)
    requires d >= 0.0 && d * d == sq
    ensures d < LinkDistance <==> sq < LinkDistance * LinkDistance
  {
    if d < LinkDistance {
      assert d * d <= d * LinkDistance < LinkDistance * LinkDistance;
    } else {
      assert d * d >= LinkDistance * d >= LinkDistance * LinkDistance;
    }
  }

  /** `(1 - dist / 150) * life_i * life_j * 0.5`, the alpha of a link. */
  function Opacity(d: real, lifeI: real, lifeJ: real): (alpha: real)
    ensures d == 0.0 ==> alpha == lifeI * lifeJ * 0.5
    ensures d == LinkDistance ==> alpha == 0.0
  {
    (1.0 - d / LinkDistance) * lifeI * lifeJ * 0.5
  }

  /** For living particles a link fades as they move apart. */
  lemma OpacityFades(d1: real, d2: real, lifeI: real, lifeJ: real)
    requires d1 <= d2
    requires 0.0 < lifeI && 0.0 < lifeJ
    ensures Opacity(d2, lifeI, lifeJ) <= Opacity(d1, lifeI, lifeJ)
  {
    var c := lifeI * lifeJ * 0.5;
    assert c > 0.0;
    assert Opacity(d1, lifeI, lifeJ) == (1.0 - d1 / LinkDistance) * c;
    assert Opacity(d2, lifeI, lifeJ) == (1.0 - d2 / LinkDistance) * c;
    var gap := (d2 - d1) / LinkDistance;
    assert gap >= 0.0;
    assert Opacity(d1, lifeI, lifeJ) - Opacity(d2, lifeI, lifeJ) == gap * c;
  }

  /** A drawn link between two living particles has alpha in (0, 0.5]. */
  lemma OpacityInRange(d: real, lifeI: real, lifeJ: real)
    requires 0.0 <= d < LinkDistance
    requires 0.0 < lifeI <= 1.0 && 0.0 < lifeJ <= 1.0
    ensures 0.0 < Opacity(d, lifeI, lifeJ) <= 0.5
  {
    var a := 1.0 - d / LinkDistance;
    assert 0.0 < a <= 1.0;
    assert 0.0 < a * lifeI <= 1.0 by {
      assert a * lifeI <= a * 1.0;
    }
    assert 0.0 < a * lifeI * lifeJ <= 1.0 by {
      assert a * lifeI * lifeJ <= (a * lifeI) * 1.0;
    }
  }
}
