/**
 Breadth-first search from many sectors at once (bfs_init, bfs_enqueue,
 bfs_run_queue), with a circular queue and labels that say which island a sector
 is closest to.

 Search is the value the global arrays hold, Relax what the inner loop does to
 one neighbour.  Invariant is what every such step keeps.
 */
module Bfs {
  import opened HexTorus
  import opened Finite

  type NatId = n: int | 0 <= n < 256

  /** (natid)-1: no single closest island. */
  const TIE: NatId := 255

  type UShort = n: int | 0 <= n < 65536

  const USHRT_MAX: UShort := 65535

  datatype Search = Search(distance: seq<int>, closest: seq<int>, pending: seq<Sector>) {
    ghost predicate Sized() {
      |distance| == |closest| == WorldSz()
    }
  }

  /** Visit the neighbour of t in direction d. */
  ghost function Relax(g: Search, t: Sector, d: Dir): Search
    requires g.Sized()
  {
    var n, dist := Neighbor(t, d), g.distance[t] + 1;
    if dist < g.distance[n] then
      Put(g, g.closest[t], n, dist)
    else if g.distance[n] == dist && g.closest[t] != g.closest[n] then
      g.(closest := g.closest[n := TIE])
    else
      g
  }

  /** bfs_init */
  ghost function Blank(): Search {
    Search(seq(WorldSz(), i => USHRT_MAX), seq(WorldSz(), i => TIE), [])
  }

  /** bfs_enqueue */
  ghost function Put(g: Search, c: int, s: Sector, dist: int): Search
    requires g.Sized()
  {
    Search(g.distance[s := dist], g.closest[s := c], g.pending + [s])
  }

  type Edge = (Sector, Dir)

  function Tip(e: Edge): Sector {
    Neighbor(e.0, e.1)
  }

  /** Visiting e lets us reach its tip in as few steps as any other way. */
  ghost predicate Tight(distance: seq<int>, e: Edge)
    requires |distance| == WorldSz()
  {
    distance[e.0] + 1 == distance[Tip(e)]
  }

  /** s was in the queue initially, or has been enqueued since. */
  ghost predicate Reached(g0: Search, distance: seq<int>, s: Sector)
    requires g0.Sized() && |distance| == WorldSz()
  {
    s in g0.pending || distance[s] < g0.distance[s]
  }

  ghost predicate Start(g0: Search, k: int) {
    && g0.Sized()
    && NoDups(g0.pending)
    && forall s | s in g0.pending :: g0.distance[s] == k
  }

  ghost predicate QueueOk(g0: Search, g: Search, level: int)
    requires g0.Sized() && g.Sized()
  {
    && NoDups(g.pending)
    && (forall s | s in g.pending :: Reached(g0, g.distance, s) && level <= g.distance[s] <= level + 1)
    && (forall i, j :: 0 <= i < j < |g.pending| ==> g.distance[g.pending[i]] <= g.distance[g.pending[j]])
    && (forall s: Sector | Reached(g0, g.distance, s) && s !in g.pending :: g.distance[s] <= level)
  }

  /** Distances only shrink, and not in the initial queue. */
  ghost predicate DistanceOk(g0: Search, distance: seq<int>)
    requires g0.Sized() && |distance| == WorldSz()
  {
    && (forall s: Sector :: distance[s] <= g0.distance[s])
    && (forall s | s in g0.pending :: distance[s] == g0.distance[s])
  }

  /** The origins of the edges visited so far have left the queue. */
  ghost predicate OriginsOk(g0: Search, g: Search, edges: set<Edge>, level: int)
    requires g0.Sized() && g.Sized()
  {
    forall e: Edge | e in edges ::
      Reached(g0, g.distance, e.0) && e.0 !in g.pending && g.distance[e.0] <= level
  }

  /** Visited edges cannot be relaxed anymore, and every improvement is due to one. */
  ghost predicate EdgesOk(g0: Search, distance: seq<int>, edges: set<Edge>)
    requires g0.Sized() && |distance| == WorldSz()
  {
    && (forall e: Edge | e in edges :: distance[Tip(e)] <= distance[e.0] + 1)
    && (forall s: Sector | distance[s] < g0.distance[s] ::
          exists e: Edge :: e in edges && Tip(e) == s && Tight(distance, e))
  }

  /** All ways found so far to reach s on a shortest path come from sectors closest to c. */
  ghost predicate Unanimous(distance: seq<int>, closest: seq<int>, edges: set<Edge>, s: Sector, c: int)
    requires |distance| == |closest| == WorldSz()
  {
    forall e: Edge | e in edges && Tip(e) == s && Tight(distance, e) :: closest[e.0] == c
  }

  ghost predicate LabelsOk(g0: Search, distance: seq<int>, closest: seq<int>, edges: set<Edge>)
    requires g0.Sized() && |distance| == |closest| == WorldSz()
  {
    && (forall s: Sector, c: int | distance[s] < g0.distance[s] && c != TIE ::
          closest[s] == c <==> Unanimous(distance, closest, edges, s, c))
    && (forall s: Sector | distance[s] == g0.distance[s] ::
          closest[s] == if Unanimous(distance, closest, edges, s, g0.closest[s]) then g0.closest[s] else TIE)
  }

  ghost predicate Invariant(g0: Search, g: Search, edges: set<Edge>, level: int)
  {
    && g0.Sized() && g.Sized()
    && QueueOk(g0, g, level)
    && DistanceOk(g0, g.distance)
    && OriginsOk(g0, g, edges, level)
    && EdgesOk(g0, g.distance, edges)
    && LabelsOk(g0, g.distance, g.closest, edges)
  }

  lemma StartsOk(g0: Search, k: int)
    requires Start(g0, k)
    ensures Invariant(g0, g0, {}, k)
  {
    hide Tip;
  }

  lemma DequeueKeeps(g0: Search, g: Search, edges: set<Edge>, level: int)
    requires Invariant(g0, g, edges, level) && g.pending != []
    ensures Invariant(g0, g.(pending := g.pending[1..]), edges, g.distance[g.pending[0]])
  {
    hide Tip, LabelsOk, EdgesOk, DistanceOk;
    var g' := g.(pending := g.pending[1..]);
    assert g.pending == [g.pending[0]] + g'.pending;
  }

  /** Enqueuing a sector for the first time. */
  lemma EnqueueKeeps(g0: Search, g: Search, edges: set<Edge>, e: Edge, level: int)
    requires Invariant(g0, g, edges, level)
    requires Reached(g0, g.distance, e.0) && e.0 !in g.pending && g.distance[e.0] == level
    requires g.distance[e.0] + 1 < g.distance[Tip(e)]
    ensures Tip(e) !in g.pending && !Reached(g0, g.distance, Tip(e))
    ensures Invariant(g0, Relax(g, e.0, e.1), edges + {e}, level)
  {
    hide Neighbor, LabelsOk, EdgesOk, QueueOk;
    EnqueueQueue(g0, g, edges, e, level);
    EnqueueEdges(g0, g.distance, edges, e);
    EnqueueLabels(g0, g, edges, e, level);
    assert g.distance[Tip(e)] == g0.distance[Tip(e)];
    assert OriginsOk(g0, Relax(g, e.0, e.1), edges + {e}, level);
  }

  lemma EnqueueQueue(g0: Search, g: Search, edges: set<Edge>, e: Edge, level: int)
    requires Invariant(g0, g, edges, level)
    requires Reached(g0, g.distance, e.0) && e.0 !in g.pending && g.distance[e.0] == level
    requires g.distance[e.0] + 1 < g.distance[Tip(e)]
    ensures Tip(e) !in g.pending && !Reached(g0, g.distance, Tip(e))
    ensures QueueOk(g0, Relax(g, e.0, e.1), level)
  {
    hide Neighbor, LabelsOk, EdgesOk;
    var n := Tip(e);
    var g' := Relax(g, e.0, e.1);
    assert n !in g.pending && !Reached(g0, g.distance, n);
    assert g'.pending == g.pending + [n];
    assert forall s | s in g.pending :: g'.distance[s] == g.distance[s];
  }

  lemma EnqueueEdges(g0: Search, distance: seq<int>, edges: set<Edge>, e: Edge)
    requires g0.Sized() && |distance| == WorldSz()
    requires EdgesOk(g0, distance, edges)
    requires forall f: Edge | f in edges :: f.0 != Tip(e)
    requires distance[e.0] + 1 < distance[Tip(e)]
    ensures EdgesOk(g0, distance[Tip(e) := distance[e.0] + 1], edges + {e})
  {
    hide Tip;
    var n := Tip(e);
    var distance' := distance[n := distance[e.0] + 1];
    forall s: Sector | distance'[s] < g0.distance[s]
      ensures exists f: Edge :: f in edges + {e} && Tip(f) == s && Tight(distance', f)
    {
      if s == n {
        assert Tight(distance', e);
      } else {
        var f: Edge :| f in edges && Tip(f) == s && Tight(distance, f);
        assert Tight(distance', f);
      }
    }
  }

  lemma EnqueueLabels(g0: Search, g: Search, edges: set<Edge>, e: Edge, level: int)
    requires Invariant(g0, g, edges, level)
    requires Reached(g0, g.distance, e.0) && e.0 !in g.pending && g.distance[e.0] == level
    requires g.distance[e.0] + 1 < g.distance[Tip(e)]
    ensures LabelsOk(g0, g.distance[Tip(e) := g.distance[e.0] + 1],
                     g.closest[Tip(e) := g.closest[e.0]], edges + {e})
  {
    hide Neighbor;
    var n := Tip(e);
    var distance := g.distance[n := g.distance[e.0] + 1];
    var closest := g.closest[n := g.closest[e.0]];
    forall s: Sector, c: int
      ensures s != n ==>
                Unanimous(distance, closest, edges + {e}, s, c) == Unanimous(g.distance, g.closest, edges, s, c)
      ensures s == n ==> (Unanimous(distance, closest, edges + {e}, s, c) <==> c == g.closest[e.0])
    {
      forall f: Edge | f in edges
        ensures f.0 != n && Tip(f) != n
      {
      }
      if s != n {
        forall f: Edge | f in edges && Tip(f) == s
          ensures Tight(distance, f) == Tight(g.distance, f)
        {}
      } else {
        assert Tight(distance, e);
      }
    }
  }

  /** Visiting a neighbour that has been reached already, on an equally short path or on a longer one. */
  lemma {:induction false} VisitKeeps(g0: Search, g: Search, edges: set<Edge>, e: Edge, level: int)
    requires Invariant(g0, g, edges, level)
    requires Reached(g0, g.distance, e.0) && e.0 !in g.pending && g.distance[e.0] == level
    requires g.distance[Tip(e)] <= g.distance[e.0] + 1
    ensures Invariant(g0, Relax(g, e.0, e.1), edges + {e}, level)
  {
    hide Neighbor, EdgesOk, LabelsOk;
    VisitEdges(g0, g.distance, edges, e);
    VisitLabels(g0, g, edges, e, level);
  }

  lemma VisitEdges(g0: Search, distance: seq<int>, edges: set<Edge>, e: Edge)
    requires g0.Sized() && |distance| == WorldSz()
    requires EdgesOk(g0, distance, edges)
    requires distance[Tip(e)] <= distance[e.0] + 1
    ensures EdgesOk(g0, distance, edges + {e})
  {
    hide Tip;
    forall s: Sector | distance[s] < g0.distance[s]
      ensures exists f: Edge :: f in edges + {e} && Tip(f) == s && Tight(distance, f)
    {
      var f: Edge :| f in edges && Tip(f) == s && Tight(distance, f);
    }
  }

  lemma VisitLabels(g0: Search, g: Search, edges: set<Edge>, e: Edge, level: int)
    requires Invariant(g0, g, edges, level)
    requires Reached(g0, g.distance, e.0) && e.0 !in g.pending && g.distance[e.0] == level
    requires g.distance[Tip(e)] <= g.distance[e.0] + 1
    ensures LabelsOk(g0, g.distance, Relax(g, e.0, e.1).closest, edges + {e})
  {
    hide Neighbor, QueueOk, DistanceOk;
    var n := Tip(e);
    var closest := Relax(g, e.0, e.1).closest;
    assert closest == if g.distance[n] == level + 1 && g.closest[e.0] != g.closest[n] then g.closest[n := TIE]
                      else g.closest;
    forall f: Edge | f in edges + {e}
      ensures closest[f.0] == g.closest[f.0]
    {
    }
    forall s: Sector, c: int
      ensures Unanimous(g.distance, closest, edges + {e}, s, c) <==>
                && Unanimous(g.distance, g.closest, edges, s, c)
                && (s == n && Tight(g.distance, e) ==> g.closest[e.0] == c)
    {
      assert e in edges + {e};
      assert forall f: Edge | f in edges :: f in edges + {e};
    }
  }

  /** The edges leaving reached sectors. */
  ghost function EdgesFrom(g0: Search, distance: seq<int>): set<Edge>
    requires g0.Sized() && |distance| == WorldSz()
  {
    set s: Sector, d: Dir | 0 <= s < WorldSz() && 1 <= d <= 6 && Reached(g0, distance, s) :: (s, d)
  }

  /** What a search that ran until its queue was empty has established. */
  ghost predicate Converged(g0: Search, g: Search) {
    && g0.Sized() && g.Sized() && g.pending == []
    && DistanceOk(g0, g.distance)
    && EdgesOk(g0, g.distance, EdgesFrom(g0, g.distance))
    && LabelsOk(g0, g.distance, g.closest, EdgesFrom(g0, g.distance))
  }

  /** Every edge that leaves a sector done with has been visited, except cur's from d on. */
  ghost predicate AllVisited(g0: Search, g: Search, edges: set<Edge>, cur: Sector, d: int)
    requires g0.Sized() && g.Sized()
  {
    forall e: Edge | Reached(g0, g.distance, e.0) && e.0 !in g.pending && (e.0 == cur ==> e.1 < d) :: e in edges
  }

  lemma Finish(g0: Search, g: Search, edges: set<Edge>, level: int, cur: Sector)
    requires Invariant(g0, g, edges, level) && g.pending == [] && AllVisited(g0, g, edges, cur, 7)
    ensures Converged(g0, g)
  {
    hide LabelsOk, EdgesOk, QueueOk, Tip;
    forall e: Edge ensures e in edges <==> e in EdgesFrom(g0, g.distance) {
      assert e == (e.0, e.1);
    }
    assert edges == EdgesFrom(g0, g.distance);
  }

  // Runs of the search

  /** Sectors in order have left the queue, the last of them is cur, and its edges before d have been visited. */
  ghost predicate Scanning(g0: Search, g: Search, edges: set<Edge>, order: seq<Sector>, cur: Sector, d: int)
  {
    && g0.Sized() && g.Sized()
    && Invariant(g0, g, edges, g.distance[cur])
    && Reached(g0, g.distance, cur) && cur !in g.pending
    && AllVisited(g0, g, edges, cur, d)
    && OrderOk(g0, g, order)
  }

  ghost predicate OrderOk(g0: Search, g: Search, order: seq<Sector>)
    requires g0.Sized() && g.Sized()
  {
    NoDups(order) && forall s: Sector :: s in order <==> Reached(g0, g.distance, s) && s !in g.pending
  }

  /** Between two rounds of the search. */
  ghost predicate Idle(g0: Search, g: Search, edges: set<Edge>, order: seq<Sector>, level: int)
  {
    && Invariant(g0, g, edges, level)
    && AllVisited(g0, g, edges, 0, 7)
    && OrderOk(g0, g, order)
  }

  lemma ScanStarts(g0: Search, g: Search, edges: set<Edge>, order: seq<Sector>, level: int)
    requires Idle(g0, g, edges, order, level) && g.pending != []
    ensures Scanning(g0, g.(pending := g.pending[1..]), edges, order + [g.pending[0]], g.pending[0], 1)
    ensures |order| < WorldSz()
  {
    hide EdgesOk, LabelsOk, WorldSz, Tip, DistanceOk, OriginsOk;
    DequeueKeeps(g0, g, edges, level);
    FirstTaken(g0, g, order);
    NoDupsBounded(order + [g.pending[0]], WorldSz());
    QueueReached(g0, g, level);
  }

  lemma QueueReached(g0: Search, g: Search, level: int)
    requires g0.Sized() && g.Sized() && QueueOk(g0, g, level)
    ensures forall s | s in g.pending :: Reached(g0, g.distance, s)
  {
    hide WorldSz;
  }

  /** The first of the queue becomes the last of the order. */
  lemma FirstTaken(g0: Search, g: Search, order: seq<Sector>)
    requires g0.Sized() && g.Sized() && g.pending != [] && NoDups(g.pending) && OrderOk(g0, g, order)
    requires forall s | s in g.pending :: Reached(g0, g.distance, s)
    ensures g.pending[0] !in g.pending[1..] && NoDups(order + [g.pending[0]])
    ensures OrderOk(g0, g.(pending := g.pending[1..]), order + [g.pending[0]])
    ensures forall s | s !in g.pending[1..] && s != g.pending[0] :: s !in g.pending
  {
    hide WorldSz;
    assert g.pending == [g.pending[0]] + g.pending[1..];
    assert g.pending[0] in g.pending && g.pending[0] !in order;
  }

  /** Visiting one neighbour keeps the search going; the queue has room for it. */
  lemma ScanContinues(g0: Search, g: Search, edges: set<Edge>, order: seq<Sector>, cur: Sector, d: Dir)
    requires Scanning(g0, g, edges, order, cur, d)
    ensures Scanning(g0, Relax(g, cur, d), edges + {(cur, d)}, order, cur, d + 1)
    ensures g.distance[cur] + 1 < g.distance[Neighbor(cur, d)] ==> |g.pending| + 1 < WorldSz()
    ensures Relax(g, cur, d).distance[cur] == g.distance[cur] && Relax(g, cur, d).closest[cur] == g.closest[cur]
  {
    RelaxIs(g, cur, d);
    hide Invariant, Neighbor, WorldSz, Relax, OrderOk, AllVisited, Put;
    ScanSized(g0, g, edges, order, cur, d);
    if g.distance[cur] + 1 < g.distance[Neighbor(cur, d)] {
      EnqueueKeeps(g0, g, edges, (cur, d), g.distance[cur]);
      ScanEnqueues(g0, g, edges, order, cur, d, g.closest[cur]);
    } else {
      VisitKeeps(g0, g, edges, (cur, d), g.distance[cur]);
      ScanVisits(g0, g, Relax(g, cur, d), edges, order, cur, d);
    }
  }

  lemma RelaxIs(g: Search, cur: Sector, d: Dir)
    requires g.Sized()
    ensures Relax(g, cur, d).Sized() && Neighbor(cur, d) == Tip((cur, d))
    ensures g.distance[cur] + 1 < g.distance[Neighbor(cur, d)] ==>
              Relax(g, cur, d) == Put(g, g.closest[cur], Neighbor(cur, d), g.distance[cur] + 1)
    ensures g.distance[cur] + 1 >= g.distance[Neighbor(cur, d)] ==>
              Relax(g, cur, d).distance == g.distance && Relax(g, cur, d).pending == g.pending
              && Relax(g, cur, d).closest[cur] == g.closest[cur]
  {
    hide Neighbor, WorldSz;
  }

  /** A sector newly reached is enqueued. */
  lemma ScanEnqueues(g0: Search, g: Search, edges: set<Edge>, order: seq<Sector>, cur: Sector, d: Dir, c: int)
    requires Scanning(g0, g, edges, order, cur, d)
    requires var n := Neighbor(cur, d);
             n !in g.pending && !Reached(g0, g.distance, n) && g.distance[cur] + 1 < g.distance[n] <= g0.distance[n]
    ensures |g.pending| + 1 < WorldSz()
    ensures var g' := Put(g, c, Neighbor(cur, d), g.distance[cur] + 1);
            && g'.Sized() && g'.distance[cur] == g.distance[cur] && g'.closest[cur] == g.closest[cur]
            && Reached(g0, g'.distance, cur) && cur !in g'.pending
            && AllVisited(g0, g', edges + {(cur, d)}, cur, d + 1) && OrderOk(g0, g', order)
  {
    ScanSized(g0, g, edges, order, cur, d);
    hide Invariant, WorldSz, Neighbor;
    NoDupsBounded(g.pending + [Neighbor(cur, d), cur], WorldSz());
  }

  lemma ScanSized(g0: Search, g: Search, edges: set<Edge>, order: seq<Sector>, cur: Sector, d: int)
    requires Scanning(g0, g, edges, order, cur, d)
    ensures NoDups(g.pending) && forall s: Sector :: g.distance[s] <= g0.distance[s]
  {
    hide EdgesOk, LabelsOk;
  }

  /** What does not shrink distances leaves the order as it is. */
  lemma ScanVisits(g0: Search, g: Search, g': Search, edges: set<Edge>, order: seq<Sector>, cur: Sector, d: Dir)
    requires Scanning(g0, g, edges, order, cur, d)
    requires g'.Sized() && g'.distance == g.distance && g'.pending == g.pending
    ensures Reached(g0, g'.distance, cur) && cur !in g'.pending
    ensures AllVisited(g0, g', edges + {(cur, d)}, cur, d + 1) && OrderOk(g0, g', order)
  {
    hide Invariant, WorldSz;
  }

  // The search over the global arrays

  function Slot(head: int, k: nat): int {
    if head + k < WorldSz() then head + k else head + k - WorldSz()
  }

  class BfsQueue {
    const closest: array<NatId>
    const distance: array<UShort>
    const queue: array<Sector>
    var head: int
    var tail: int
    ghost var pending: seq<Sector>

    /** The circular queue holds pending, and has room for one more element than it may hold. */
    ghost predicate Valid()
      reads this, queue
    {
      && closest.Length == distance.Length == queue.Length == WorldSz()
      && closest as object != distance && closest as object != queue && distance as object != queue
      && 0 <= head < WorldSz() && |pending| < WorldSz()
      && tail == Slot(head, |pending|)
      && forall k :: 0 <= k < |pending| ==> queue[Slot(head, k)] == pending[k]
    }

    ghost function Contents(): Search
      reads this, closest, distance
    {
      Search(distance[..], closest[..], pending)
    }

    constructor ()
      ensures Valid() && fresh(closest) && fresh(distance) && fresh(queue)
    {
      closest := new NatId[WorldSz()];
      distance := new UShort[WorldSz()];
      queue := new Sector[WorldSz()];
      head, tail, pending := 0, 0, [];
    }

    /** bfs_init */
    method Init()
      requires Valid()
      modifies this, closest, distance
      ensures Valid()
      ensures Contents() == Blank()
    {
      var i := 0;
      while i < WorldSz()
        invariant 0 <= i <= WorldSz()
        invariant forall k :: 0 <= k < i ==> closest[k] == TIE && distance[k] == USHRT_MAX
      {
        closest[i] := TIE;
        distance[i] := USHRT_MAX;
        i := i + 1;
      }
      head, tail := 0, 0;
      pending := [];
    }

    /** bfs_enqueue */
    method Enqueue(c: NatId, s: Sector, dist: nat)
      requires Valid() && dist < distance[s] && |pending| + 1 < WorldSz()
      modifies this`tail, this`pending, closest, distance, queue
      ensures Valid()
      ensures Contents() == Put(old(Contents()), c, s, dist)
    {
      closest[s] := c;
      distance[s] := dist;
      queue[tail] := s;
      pending := pending + [s];
      tail := tail + 1;
      if tail >= WorldSz() {
        tail := 0;
      }
      assert tail != head;
    }

    method Dequeue() returns (s: Sector)
      requires Valid() && pending != []
      modifies this`head, this`pending
      ensures Valid() && s == old(pending[0]) && pending == old(pending[1..])
    {
      s := queue[head];
      head := head + 1;
      if head >= WorldSz() {
        head := 0;
      }
      pending := pending[1..];
    }

    /** Lines 906-915: visit the neighbour of off in direction i. */
    method Visit(off: Sector, i: Dir, dist: nat)
      requires Valid() && dist == (distance[off] as int) + 1
      requires dist < distance[Neighbor(off, i)] ==> |pending| + 1 < WorldSz()
      modifies this`tail, this`pending, closest, distance, queue
      ensures Valid()
      ensures Contents() == Relax(old(Contents()), off, i)
    {
      hide Neighbor;
      var n := Neighbor(off, i);
      if dist < distance[n] {
        Enqueue(closest[off], n, dist);
      } else if distance[n] == dist {
        if closest[off] != closest[n] {
          closest[n] := TIE;
        }
      } else {
        assert distance[n] < dist;
      }
    }

    /** bfs_run_queue; order lists the sectors in the order they were taken from the queue. */
    method RunQueue(ghost k: nat) returns (ghost order: seq<Sector>)
      requires Valid() && Start(Contents(), k)
      modifies this, closest, distance, queue
      ensures Valid()
      ensures Converged(old(Contents()), Contents())
      ensures NoDups(order)
      ensures forall s: Sector :: s in order <==> Reached(old(Contents()), Contents().distance, s)
    {
      hide Neighbor, Invariant, Relax, Converged, AllVisited;
      ghost var g0 := Contents();
      ghost var edges: set<Edge>, level: int := {}, k;
      order := [];
      RunStarts(g0, k);
      while head != tail
        invariant Valid() && Idle(g0, Contents(), edges, order, level)
        decreases WorldSz() - |order|
      {
        ScanStarts(g0, Contents(), edges, order, level);
        var off := Dequeue();
        order := order + [off];
        var dist := (distance[off] as int) + 1;
        var i := 1;
        while i <= 6
          invariant 1 <= i <= 7
          invariant Valid() && Scanning(g0, Contents(), edges, order, off, i)
          invariant dist == (distance[off] as int) + 1
        {
          ScanContinues(g0, Contents(), edges, order, off, i);
          Visit(off, i, dist);
          edges := edges + {(off, i)};
          i := i + 1;
        }
        level := distance[off];
        ScanEnds(g0, Contents(), edges, order, off);
      }
      RunEnds(g0, Contents(), edges, order, level);
    }
  }

  lemma RunStarts(g0: Search, k: nat)
    requires Start(g0, k)
    ensures Idle(g0, g0, {}, [], k)
  {
    hide Tip;
    StartsOk(g0, k);
  }

  lemma ScanEnds(g0: Search, g: Search, edges: set<Edge>, order: seq<Sector>, cur: Sector)
    requires Scanning(g0, g, edges, order, cur, 7)
    ensures Idle(g0, g, edges, order, g.distance[cur])
  {
    hide Tip, Invariant;
  }

  lemma RunEnds(g0: Search, g: Search, edges: set<Edge>, order: seq<Sector>, level: int)
    requires Idle(g0, g, edges, order, level) && g.pending == []
    ensures Converged(g0, g) && NoDups(order)
    ensures forall s: Sector :: s in order <==> Reached(g0, g.distance, s)
  {
    hide Tip;
    Finish(g0, g, edges, level, 0);
  }
}
