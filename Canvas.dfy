/**
 * The `ParticleCanvas` component (components/ParticleCanvas.tsx): its three refs
 * become the fields of a class, the pointer handler and the animation frame its
 * methods. Drawing to the canvas is not modelled; a frame returns the links it
 * would stroke.
 */
module Canvas {
  import opened Types
  import opened Particles
  import opened PairSweep

  class ParticleCanvas {
    /** `particlesRef.current` */
    var particles: seq<Particle>
    /** `particleIdRef.current`: the id the next particle gets. */
    var particleId: nat
    /** `lastParticleTime.current`: the time of the last accepted pointer event. */
    var lastParticleTime: int

    ghost predicate Valid()
      reads this
    {
      TrailInvariant(particles, particleId)
    }

    /** The refs' initial values. */
    constructor ()
      ensures Valid()
      ensures particles == [] && particleId == 0 && lastParticleTime == 0
    {
      particles := [];
      particleId := 0;
      lastParticleTime := 0;
    }

    /**
     * `handleMouseMove`: the clock reading `now`, the pointer position and the
     * three random draws are parameters. A rejected event changes nothing; an
     * accepted one records `now`, takes the next id and appends a full-life
     * particle after keeping the newest 25.
     */
    method HandleMouseMove(now: int, clientX: real, clientY: real, vx: real, vy: real, size: real)
      requires Valid()
      requires -0.5 <= vx < 0.5 && -0.5 <= vy < 0.5 && 2.0 <= size < 5.0
      modifies this
      ensures Valid()
      ensures Admits(old(lastParticleTime), now) ==>
        && lastParticleTime == now
        && particleId == old(particleId) + 1
        && particles == Spawned(old(particles), NewParticle(old(particleId), clientX, clientY, vx, vy, size))
      ensures !Admits(old(lastParticleTime), now) ==>
        && particles == old(particles)
        && particleId == old(particleId)
        && lastParticleTime == old(lastParticleTime)
    {
      if now - lastParticleTime < ThrottleMs {
        return;
      }
      var p := NewParticle(particleId, clientX, clientY, vx, vy, size);
      var spawned := Spawned(particles, p);
      SpawnKeepsInvariant(particles, particleId, p);
      lastParticleTime, particleId, particles := now, particleId + 1, spawned;
    }

    /**
     * One call of `animate`: drift and fade every particle, drop the dead ones,
     * store the result back, then sweep the survivors for links.
     */
    method Animate() returns (links: seq<Pair>)
      requires Valid()
      modifies this
      ensures Valid()
      ensures particles == Advanced(old(particles))
      ensures particleId == old(particleId) && lastParticleTime == old(lastParticleTime)
      ensures LinksExactlyNear(particles, links)
    {
      AdvanceKeepsInvariant(particles, particleId);
      var updated := Advanced(particles);
      particles := updated;
      ghost var visited;
      links, visited := SweepLinks(updated);
    }

    /**
     * A run of pointer events at the times `events`, all at one pointer position
     * and with the same draws: the handler takes exactly the events
     * `AcceptedTimes` lists, handing out one id per taken event and ending with
     * the last taken time recorded.
     */
    method Feed(events: seq<int>, clientX: real, clientY: real, vx: real, vy: real, size: real)
      requires Valid()
      requires -0.5 <= vx < 0.5 && -0.5 <= vy < 0.5 && 2.0 <= size < 5.0
      modifies this
      ensures Valid()
      ensures particleId == old(particleId) + |AcceptedTimes(old(lastParticleTime), events)|
      ensures lastParticleTime ==
        var r := AcceptedTimes(old(lastParticleTime), events);
        if r == [] then old(lastParticleTime) else r[|r| - 1]
      decreases |events|
    {
      if events != [] {
        HandleMouseMove(events[0], clientX, clientY, vx, vy, size);
        Feed(events[1..], clientX, clientY, vx, vy, size);
      }
    }
  }

  /**
   * Three pointer events at 1000, 1020 and 1040 ms: the second comes too soon
   * and is dropped, so the buffer ends with two particles, ids 0 and 1.
   */
  method ThrottleScenario() returns (count: nat, lastId: nat)
    ensures count == 2 && lastId == 1
  {
    var canvas := new ParticleCanvas();
    canvas.HandleMouseMove(1000, 0.0, 0.0, 0.1, 0.1, 3.0);
    canvas.HandleMouseMove(1020, 5.0, 5.0, 0.1, 0.1, 3.0);
    canvas.HandleMouseMove(1040, 100.0, 0.0, 0.1, 0.1, 3.0);
    count := |canvas.particles|;
    lastId := canvas.particles[count - 1].id;
  }
}
