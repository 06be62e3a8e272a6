/**
 What breadth-first search computes: distances are map distances, and labels name
 the unique nearest source.
 */
module Distances {
  import opened HexTorus
  import opened Finite
  import opened Bfs

  /** Sectors that are not in the queue are no farther than one step beyond their neighbours. */
  ghost predicate Smooth(g0: Search)
    requires g0.Sized()
  {
    forall s: Sector, d: Dir | s !in g0.pending :: g0.distance[Neighbor(s, d)] <= g0.distance[s] + 1
  }

  /** The search starts from sectors at distance k. */
  ghost predicate Sound(g0: Search, k: nat) {
    Start(g0, k) && Smooth(g0) && forall s: Sector :: g0.distance[s] >= 0
  }

  lemma StepBound(g0: Search, g: Search, s: Sector, d: Dir)
    requires g0.Sized() && Smooth(g0) && Converged(g0, g)
    ensures g.distance[Neighbor(s, d)] <= g.distance[s] + 1
  {
    hide LabelsOk, Neighbor;
    var e: Edge := (s, d);
    if Reached(g0, g.distance, s) {
      assert e in EdgesFrom(g0, g.distance);
      assert Tip(e) == Neighbor(s, d);
    }
  }

  /** No source is closer than the distance found. */
  lemma {:induction false} NoFarther(g0: Search, g: Search, k: nat, q: Sector, s: Sector)
    requires Sound(g0, k) && Converged(g0, g) && q in g0.pending
    ensures g.distance[s] <= k + Dist(q, s)
    decreases Dist(s, q)
  {
    hide Converged, Neighbor, Dist, Smooth;
    DistSymmetric(s, q);
    if s == q {
      SourceKeepsDistance(g0, g, k, q);
    } else {
      var d := DistDescent(s, q);
      var n := Neighbor(s, d);
      NoFarther(g0, g, k, q, n);
      DistSymmetric(n, q);
      BackAndForth(s, d);
      StepBound(g0, g, n, DirBack(d));
    }
  }

  lemma SourceKeepsDistance(g0: Search, g: Search, k: nat, q: Sector)
    requires Start(g0, k) && Converged(g0, g) && q in g0.pending
    ensures g.distance[q] == k
  {
    hide LabelsOk, EdgesOk;
  }

  /** q is a source at the distance found. */
  ghost predicate Supports(g0: Search, g: Search, k: nat, q: Sector, s: Sector)
    requires g.Sized()
  {
    q in g0.pending && g.distance[s] == k + Dist(q, s)
  }

  /** Every improved sector is reached along a tight edge. */
  lemma LastEdge(g0: Search, g: Search, s: Sector) returns (e: Edge)
    requires Converged(g0, g) && g.distance[s] < g0.distance[s]
    ensures Tip(e) == s && Tight(g.distance, e) && Reached(g0, g.distance, e.0)
  {
    hide LabelsOk, Tip;
    var edges := EdgesFrom(g0, g.distance);
    e :| e in edges && Tip(e) == s && Tight(g.distance, e);
  }

  /** A source of the origin of a tight edge is one of its tip. */
  lemma SupportsAcross(g0: Search, g: Search, k: nat, q: Sector, e: Edge)
    requires Sound(g0, k) && Converged(g0, g) && Tight(g.distance, e) && Supports(g0, g, k, q, e.0)
    ensures Supports(g0, g, k, q, Tip(e))
  {
    hide Converged, Neighbor, Dist, Sound;
    NoFarther(g0, g, k, q, Tip(e));
    DistStep(e.0, e.1, q);
    DistSymmetric(e.0, q);
    DistSymmetric(Tip(e), q);
    SizedSearches(g0, g);
  }

  lemma SizedSearches(g0: Search, g: Search)
    requires Converged(g0, g)
    ensures g0.Sized() && g.Sized()
  {
  }

  /** Some source supports the distance of every sector that is a source or has been improved. */
  lemma {:induction false} Supported(g0: Search, g: Search, k: nat, s: Sector) returns (q: Sector)
    requires Sound(g0, k) && Converged(g0, g) && Reached(g0, g.distance, s)
    requires g.distance[s] >= 0 && forall t: Sector :: g.distance[t] >= 0
    ensures Supports(g0, g, k, q, s)
    decreases g.distance[s]
  {
    hide Converged, Tip, Dist, Smooth;
    if s in g0.pending {
      q := s;
      SourceKeepsDistance(g0, g, k, q);
      DistZero(s, s);
    } else {
      var e := LastEdge(g0, g, s);
      q := Supported(g0, g, k, e.0);
      SupportsAcross(g0, g, k, q, e);
    }
  }

  /** Distances are the initial ones or those to the nearest source, whichever is smaller. */
  lemma {:induction false} DistanceIsMinimum(g0: Search, g: Search, k: nat, s: Sector)
    requires Sound(g0, k) && Converged(g0, g) && forall t: Sector :: g.distance[t] >= 0
    ensures g.distance[s] <= g0.distance[s]
    ensures forall q | q in g0.pending :: g.distance[s] <= k + Dist(q, s)
    ensures g.distance[s] == g0.distance[s] || exists q :: Supports(g0, g, k, q, s)
  {
    hide LabelsOk, EdgesOk, Dist, Smooth;
    forall q | q in g0.pending ensures g.distance[s] <= k + Dist(q, s) {
      NoFarther(g0, g, k, q, s);
    }
    if g.distance[s] < g0.distance[s] {
      var q := Supported(g0, g, k, s);
    }
  }

  // Labels

  /** All nearest sources of s carry label c. */
  ghost predicate AllNearest(g0: Search, g: Search, k: nat, s: Sector, c: int)
    requires g0.Sized() && g.Sized()
  {
    forall q: Sector | Supports(g0, g, k, q, s) :: g0.closest[q] == c
  }

  /** A nearest source of s is one of some neighbour from which s is reached. */
  lemma SupportsBefore(g0: Search, g: Search, k: nat, q: Sector, s: Sector) returns (e: Edge)
    requires Sound(g0, k) && Converged(g0, g) && Supports(g0, g, k, q, s) && s != q
    ensures Tip(e) == s && Tight(g.distance, e) && Supports(g0, g, k, q, e.0)
  {
    hide Converged, Neighbor, Dist, Smooth;
    var d := DistDescent(s, q);
    var n := Neighbor(s, d);
    e := (n, DirBack(d));
    BackAndForth(s, d);
    DistSymmetric(s, q);
    DistSymmetric(n, q);
    NoFarther(g0, g, k, q, n);
    StepBound(g0, g, n, DirBack(d));
    SizedSearches(g0, g);
  }

  /** A sector that is reached has label c exactly when all its nearest sources do; otherwise its label is TIE. */
  lemma {:induction false} LabelIsNearest(g0: Search, g: Search, k: nat, s: Sector, c: int)
    requires Sound(g0, k) && Converged(g0, g) && forall t: Sector :: g.distance[t] >= 0
    requires Reached(g0, g.distance, s) && c != TIE
    ensures g.closest[s] == c <==> AllNearest(g0, g, k, s, c)
    decreases g.distance[s]
  {
    hide Converged, Tip, Dist, Smooth;
    if s in g0.pending {
      SourceKeepsLabel(g0, g, k, s);
    } else {
      SizedSearches(g0, g);
      var edges := EdgesFrom(g0, g.distance);
      LabelOfImproved(g0, g, s, c);
      forall e: Edge | e in edges && Tip(e) == s && Tight(g.distance, e)
        ensures g.closest[e.0] == c <==> AllNearest(g0, g, k, e.0, c)
      {
        LabelIsNearest(g0, g, k, e.0, c);
      }
      NearestThroughEdges(g0, g, k, s, c);
    }
  }

  lemma LabelOfImproved(g0: Search, g: Search, s: Sector, c: int)
    requires Converged(g0, g) && g.distance[s] < g0.distance[s] && c != TIE
    ensures g.closest[s] == c <==> Unanimous(g.distance, g.closest, EdgesFrom(g0, g.distance), s, c)
  {
    hide EdgesOk, Unanimous, EdgesFrom;
  }

  /** What improves a sector has been improved itself, or is a source. */
  lemma ImprovedByReached(g0: Search, g: Search, k: nat, e: Edge)
    requires Sound(g0, k) && Converged(g0, g) && Tight(g.distance, e) && g.distance[Tip(e)] < g0.distance[Tip(e)]
    ensures Reached(g0, g.distance, e.0)
  {
    hide EdgesOk, LabelsOk, Neighbor;
    assert g.distance[e.0] <= g0.distance[e.0];
  }

  /** The nearest sources of s are those of the sectors it is reached from. */
  lemma NearestThroughEdges(g0: Search, g: Search, k: nat, s: Sector, c: int)
    requires Sound(g0, k) && Converged(g0, g) && g.distance[s] < g0.distance[s] && s !in g0.pending
    ensures AllNearest(g0, g, k, s, c) <==>
              forall e: Edge | e in EdgesFrom(g0, g.distance) && Tip(e) == s && Tight(g.distance, e) ::
                AllNearest(g0, g, k, e.0, c)
  {
    hide Converged, Tip, Dist, Sound, Supports;
    SizedSearches(g0, g);
    var edges := EdgesFrom(g0, g.distance);
    if AllNearest(g0, g, k, s, c) {
      forall e: Edge, q: Sector | e in edges && Tip(e) == s && Tight(g.distance, e) && Supports(g0, g, k, q, e.0)
        ensures g0.closest[q] == c
      {
        SupportsAcross(g0, g, k, q, e);
      }
    } else {
      var q: Sector :| Supports(g0, g, k, q, s) && g0.closest[q] != c;
      SourceSupports(g0, g, k, q, s);
      var e := SupportsBefore(g0, g, k, q, s);
      ImprovedByReached(g0, g, k, e);
      assert e == (e.0, e.1) && e in edges;
    }
  }

  lemma SourceSupports(g0: Search, g: Search, k: nat, q: Sector, s: Sector)
    requires Converged(g0, g) && Supports(g0, g, k, q, s)
    ensures q in g0.pending
  {
  }

  lemma SourceKeepsLabel(g0: Search, g: Search, k: nat, s: Sector)
    requires Sound(g0, k) && Converged(g0, g) && s in g0.pending
    requires forall t: Sector :: g.distance[t] >= 0
    ensures g.closest[s] == g0.closest[s]
    ensures forall q: Sector :: Supports(g0, g, k, q, s) <==> q == s
  {
    hide EdgesOk, Tip, Dist, Sound;
    SoundStart(g0, k);
    SourceKeepsDistance(g0, g, k, s);
    forall q: Sector
      ensures q in g0.pending ==> (Supports(g0, g, k, q, s) <==> q == s)
    {
      DistZero(q, s);
    }
    forall e: Edge | e in EdgesFrom(g0, g.distance)
      ensures g.distance[e.0] >= k
    {
      var q := Supported(g0, g, k, e.0);
    }
    assert Unanimous(g.distance, g.closest, EdgesFrom(g0, g.distance), s, g0.closest[s]);
  }

  lemma SoundStart(g0: Search, k: nat)
    requires Sound(g0, k)
    ensures Start(g0, k)
  {
  }
}
