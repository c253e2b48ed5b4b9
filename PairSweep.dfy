/**
 * The proximity sweep of the animation frame: two nested loops over `i < j`
 * that emit a link for every pair of particles closer than 150 pixels
 * (components/ParticleCanvas.tsx and portfolio-complete.tsx).
 */
module PairSweep {
  import opened Types
  import opened Particles

  /** An unordered pair of buffer positions, written with `i < j`. */
  datatype Pair = Pair(i: nat, j: nat)

  /** The order in which the nested loops visit pairs: by `i`, then by `j`. */
  predicate LexLess(a: Pair, b: Pair)
  {
    a.i < b.i || (a.i == b.i && a.j < b.j)
  }

  /** Strictly increasing in visiting order; in particular no pair occurs twice. */
  predicate StrictlySorted(v: seq<Pair>)
  {
    forall k, l :: 0 <= k < l < |v| ==> LexLess(v[k], v[l])
  }

  /** The pairs `(i, i+1), ..., (i, j-1)` that the inner loop has visited before reaching `j`. */
  function Row(i: nat, j: nat): seq<Pair>
    decreases j
  {
    if j <= i + 1 then [] else Row(i, j - 1) + [Pair(i, j - 1)]
  }

  /** The pairs visited by the outer loop's first `i` rounds over a buffer of length `n`. */
  function PairsBefore(i: nat, n: nat): seq<Pair>
  {
    if i == 0 then [] else PairsBefore(i - 1, n) + Row(i - 1, n)
  }

  /** Every pair the sweep visits over a buffer of length `n`, in visiting order. */
  function AllPairs(n: nat): seq<Pair>
  {
    PairsBefore(n, n)
  }

  /** The pair names two particles of `ps` that are closer than 150 pixels. */
  predicate NearAt(ps: seq<Particle>, pr: Pair)
  {
    pr.i < |ps| && pr.j < |ps| && Near(ps[pr.i], ps[pr.j])
  }

  lemma SortedAppend(a: seq<Pair>, b: seq<Pair>)
    requires StrictlySorted(a) && StrictlySorted(b)
    requires forall x, y :: x in a && y in b ==> LexLess(x, y)
    ensures StrictlySorted(a + b)
  {
    forall k, l | 0 <= k < l < |a + b|
      ensures LexLess((a + b)[k], (a + b)[l])
    {
      if l < |a| {
        assert (a + b)[k] == a[k] && (a + b)[l] == a[l];
      } else if k >= |a| {
        assert (a + b)[k] == b[k - |a|] && (a + b)[l] == b[l - |a|];
      } else {
        assert (a + b)[k] == a[k] && (a + b)[l] == b[l - |a|];
        assert a[k] in a && b[l - |a|] in b;
      }
    }
  }

  /** Row `i` up to `j` holds exactly the pairs `(i, b)` with `i < b < j`, in order. */
  lemma {:induction false} RowShape(i: nat, j: nat)
    ensures |Row(i, j)| == if j <= i + 1 then 0 else j - i - 1
    ensures StrictlySorted(Row(i, j))
    ensures forall pr :: pr in Row(i, j) <==> pr.i == i && i < pr.j < j
  {
    if j > i + 1 {
      RowShape(i, j - 1);
      SortedAppend(Row(i, j - 1), [Pair(i, j - 1)]);
    }
  }

  /** The first `i` rounds visit exactly the pairs `a < b < n` with `a < i`, in lexicographic order. */
  lemma {:induction false} PairsBeforeShape(i: nat, n: nat)
    requires i <= n
    ensures StrictlySorted(PairsBefore(i, n))
    ensures forall pr :: pr in PairsBefore(i, n) <==> pr.i < i && pr.i < pr.j < n
  {
    if i > 0 {
      PairsBeforeShape(i - 1, n);
      RowShape(i - 1, n);
      SortedAppend(PairsBefore(i - 1, n), Row(i - 1, n));
    }
  }

  /** The first `i` rounds make `i * (2n - i - 1) / 2` visits. */
  lemma {:induction false} PairsBeforeCount(i: nat, n: nat)
    requires i <= n
    ensures |PairsBefore(i, n)| * 2 == i * (2 * n - i - 1)
  {
    if i > 0 {
      PairsBeforeCount(i - 1, n);
      RowShape(i - 1, n);
      CountStep(i, n);
    }
  }

  /** The arithmetic step of `PairsBeforeCount`: adding row `i - 1` of length `n - i`. */
  lemma CountStep(i: nat, n: nat)
    requires 0 < i <= n
    ensures (i - 1) * (2 * n - (i - 1) - 1) + 2 * (n - i) == i * (2 * n - i - 1)
  {
    var m := 2 * n - i;
    assert (i - 1) * m == i * m - m;
    assert i * (m - 1) == i * m - i;
  }

  /** A full trail of 26 particles has at most 26 * 25 / 2 = 325 pairs. */
  lemma PairCountBound(n: nat)
    requires n <= MaxParticles
    ensures n * (n - 1) <= 650
  {
    if n > 0 {
      assert n * (n - 1) <= n * 25;
      assert n * 25 <= 650;
    }
  }

  /**
   * The sweep visits every unordered pair `a < b < n` exactly once, in
   * lexicographic order: `n (n - 1) / 2` visits, at most 325 for a full trail.
   */
  lemma AllPairsShape(n: nat)
    ensures forall pr :: pr in AllPairs(n) <==> pr.i < pr.j < n
    ensures StrictlySorted(AllPairs(n))
    ensures |AllPairs(n)| * 2 == n * (n - 1)
    ensures n <= MaxParticles ==> |AllPairs(n)| <= 325
  {
    PairsBeforeShape(n, n);
    PairsBeforeCount(n, n);
    if n <= MaxParticles {
      PairCountBound(n);
    }
  }

  /** `links` holds exactly the visited pairs that are near. */
  ghost predicate NearPart(ps: seq<Particle>, links: seq<Pair>, visited: seq<Pair>)
  {
    forall pr :: pr in links <==> pr in visited && NearAt(ps, pr)
  }

  /** The distance test of the inner loop body, on squared distances. */
  method IsNear(a: Particle, b: Particle) returns (near: bool)
    ensures near <==> Near(a, b)
  {
    var dx := a.x - b.x;
    var dy := a.y - b.y;
    near := WithinLinkDistance(dx, dy);
  }

  /** Visiting a near pair and drawing its link keeps `links` the near part of `visited`. */
  lemma VisitNear(ps: seq<Particle>, links: seq<Pair>, visited: seq<Pair>, p: Pair)
    requires NearPart(ps, links, visited)
    requires NearAt(ps, p)
    ensures NearPart(ps, links + [p], visited + [p])
  {
  }

  /** Visiting a far pair without drawing keeps `links` the near part of `visited`. */
  lemma VisitFar(ps: seq<Particle>, links: seq<Pair>, visited: seq<Pair>, p: Pair)
    requires NearPart(ps, links, visited)
    requires !NearAt(ps, p)
    ensures NearPart(ps, links, visited + [p])
  {
  }

  /**
   * One round of the outer loop: the inner `for` over `j > i`, appending a link
   * for every near pair `(i, j)` to the links drawn so far.
   */
  method SweepRow(ps: seq<Particle>, i: nat, drawn: seq<Pair>, ghost seen: seq<Pair>)
    returns (links: seq<Pair>, ghost visited: seq<Pair>)
    requires i < |ps|
    requires NearPart(ps, drawn, seen)
    requires forall pr :: pr in drawn ==> pr.i < i
    requires StrictlySorted(drawn)
    ensures visited == seen + Row(i, |ps|)
    ensures NearPart(ps, links, visited)
    ensures forall pr :: pr in links ==> pr.i <= i
    ensures StrictlySorted(links)
  {
    var n := |ps|;
    links, visited := drawn, seen;
    var j := i + 1;
    while j < n
      invariant i + 1 <= j <= n
      invariant visited == seen + Row(i, j)
      invariant NearPart(ps, links, visited)
      invariant forall pr :: pr in links ==> LexLess(pr, Pair(i, j))
      invariant StrictlySorted(links)
    {
      var near := IsNear(ps[i], ps[j]);
      if near {
        SortedAppend(links, [Pair(i, j)]);
        VisitNear(ps, links, visited, Pair(i, j));
        links := links + [Pair(i, j)];
      } else {
        VisitFar(ps, links, visited, Pair(i, j));
      }
      assert seen + Row(i, j + 1) == visited + [Pair(i, j)];
      visited := visited + [Pair(i, j)];
      j := j + 1;
    }
  }

  /**
   * The pair sweep of an animation frame: the nested `for` loops over `i` and
   * `j > i`. `visited` records every pair the inner body looks at; `links` is
   * what it draws.
   */
  method SweepLinks(ps: seq<Particle>) returns (links: seq<Pair>, ghost visited: seq<Pair>)
    ensures visited == AllPairs(|ps|)
    ensures LinksExactlyNear(ps, links)
    ensures forall pr :: pr in links ==> pr in visited
  {
    var n := |ps|;
    links, visited := [], [];
    var i := 0;
    while i < n
      invariant 0 <= i <= n
      invariant visited == PairsBefore(i, n)
      invariant NearPart(ps, links, visited)
      invariant forall pr :: pr in links ==> pr.i < i
      invariant StrictlySorted(links)
    {
      links, visited := SweepRow(ps, i, links, visited);
      i := i + 1;
    }
    AllPairsShape(n);
  }

  /** `links` holds a link for exactly the pairs `i < j` of particles closer than 150 pixels, each once, in visiting order. */
  ghost predicate LinksExactlyNear(ps: seq<Particle>, links: seq<Pair>)
  {
    && (forall pr :: pr in links <==> pr.i < pr.j < |ps| && Near(ps[pr.i], ps[pr.j]))
    && StrictlySorted(links)
  }

  /**
   * Every link a frame returns between buffered particles is drawn with an alpha
   * in (0, 0.5], where `d` is the `Math.sqrt` of the pair's squared distance.
   */
  lemma LinkOpacityInRange(ps: seq<Particle>, nextId: nat, links: seq<Pair>, pr: Pair, d: real)
    requires TrailInvariant(ps, nextId) && LinksExactlyNear(ps, links) && pr in links
    requires pr.i < |ps| && pr.j < |ps|
    requires d >= 0.0
    requires d * d == (ps[pr.i].x - ps[pr.j].x) * (ps[pr.i].x - ps[pr.j].x) + (ps[pr.i].y - ps[pr.j].y) * (ps[pr.i].y - ps[pr.j].y)
    ensures 0.0 < Opacity(d, ps[pr.i].life, ps[pr.j].life) <= 0.5
  {
    var a, b := ps[pr.i], ps[pr.j];
    assert Near(a, b);
    DistanceThreshold(d, (a.x - b.x) * (a.x - b.x) + (a.y - b.y) * (a.y - b.y));
    assert a in ps && b in ps;
    OpacityInRange(d, a.life, b.life);
  }
}
