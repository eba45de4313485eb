/** Whether the sort of the execution plan compiler depends on how nodes and edges are listed. */
module SortListing {
  import opened Wrappers
  import opened Sorting
  import opened Graphs
  import opened TopoSort

  /** The same nodes or edges, listed in another order. */
  ghost predicate IsListing<T>(other: seq<T>, s: seq<T>) {
    multiset(other) == multiset(s)
  }

  /** The steps without an incoming edge. */
  ghost function Roots(ids: seq<string>, edges: seq<Edge>): set<string> {
    set x | x in ids && IsReady(edges, Members(ids), x)
  }

  // ---------- What does not depend on the listing ----------

  lemma {:induction false} DegreeWithout(edges: seq<Edge>, k: nat, alive: set<string>, t: string)
    requires k < |edges|
    ensures InDegree(edges, alive, t)
         == InDegree(edges[..k] + edges[k + 1..], alive, t)
            + (if edges[k].source in alive && edges[k].target == t then 1 else 0)
    decreases |edges|
  {
    var n := |edges| - 1;
    var rest := edges[..k] + edges[k + 1..];
    if k == n {
      assert rest == edges[..n];
    } else {
      DegreeWithout(edges[..n], k, alive, t);
      assert rest[..n - 1] == edges[..n][..k] + edges[..n][k + 1..];
      assert rest[n - 1] == edges[n];
    }
  }

  lemma {:induction false} TargetCount(edges: seq<Edge>, s: string, t: string)
    ensures multiset(TargetsOf(edges, s))[t] == multiset(edges)[Edge(s, t)]
    decreases |edges|
  {
    if edges != [] {
      var n := |edges| - 1;
      assert edges == edges[..n] + [edges[n]];
      TargetCount(edges[..n], s, t);
    }
  }

  lemma MultisetWithout<T>(s: seq<T>, k: nat)
    requires k < |s|
    ensures multiset(s[..k] + s[k + 1..]) == multiset(s) - multiset{s[k]}
  {
    assert s == s[..k] + [s[k]] + s[k + 1..];
  }

  lemma PlaceOf<T>(other: seq<T>, s: seq<T>) returns (k: nat)
    requires s != [] && IsListing(other, s)
    ensures k < |other| && other[k] == s[|s| - 1]
    ensures IsListing(other[..k] + other[k + 1..], s[..|s| - 1])
  {
    var last := s[|s| - 1];
    assert last in other by {
      assert last in multiset(s);
    }
    k :| 0 <= k < |other| && other[k] == last;
    MultisetWithout(other, k);
    assert multiset(s[..|s| - 1]) == multiset(s) - multiset{last} by {
      assert s == s[..|s| - 1] + [last];
    }
  }

  lemma {:induction false} SameDegree(other: seq<Edge>, edges: seq<Edge>, alive: set<string>, t: string)
    requires IsListing(other, edges)
    ensures InDegree(other, alive, t) == InDegree(edges, alive, t)
    decreases |edges|
  {
    if edges == [] {
      SameMembers(other, edges);
    } else {
      var k := PlaceOf(other, edges);
      DegreeWithout(other, k, alive, t);
      SameDegree(other[..k] + other[k + 1..], edges[..|edges| - 1], alive, t);
    }
  }

  lemma SameTargets(other: seq<Edge>, edges: seq<Edge>, s: string)
    requires IsListing(other, edges)
    ensures multiset(TargetsOf(other, s)) == multiset(TargetsOf(edges, s))
  {
    forall t ensures multiset(TargetsOf(other, s))[t] == multiset(TargetsOf(edges, s))[t] {
      TargetCount(other, s, t);
      TargetCount(edges, s, t);
    }
  }

  /** Targets are visited by code units, which tells any two of them apart. */
  lemma SameVisits(le: Order<string>, other: seq<Edge>, edges: seq<Edge>, s: string)
    requires IsListing(other, edges)
    ensures Visiting(ById(le), TargetsOf(other, s)) == Visiting(ById(le), TargetsOf(edges, s))
  {
    SameTargets(other, edges, s);
    CodeUnitIsTotalOrder();
    SortSorts(CodeUnitLe, TargetsOf(other, s));
    SortSorts(CodeUnitLe, TargetsOf(edges, s));
    SortPermutes(CodeUnitLe, TargetsOf(other, s));
    SortPermutes(CodeUnitLe, TargetsOf(edges, s));
    SortedIsUnique(CodeUnitLe, Sort(CodeUnitLe, TargetsOf(other, s)), Sort(CodeUnitLe, TargetsOf(edges, s)));
  }

  lemma TakesOne(q: Queueing, edges: seq<Edge>, incoming: map<string, int>, queue: seq<string>, n: nat,
                 targets: seq<string>)
    requires n > 0 && queue != [] && targets == Visiting(q, TargetsOf(edges, queue[0]))
    ensures var (counts, waiting) := Released(q, targets, incoming, queue[1..]);
            Taken(q, edges, incoming, queue, n) == [queue[0]] + Taken(q, edges, counts, waiting, n - 1)
  {
    hide Released, Visiting, TargetsOf;
  }

  /** Once the first steps are queued, the edges' listing plays no part. */
  lemma {:induction false} SameTaken(le: Order<string>, other: seq<Edge>, edges: seq<Edge>, incoming: map<string, int>,
                                     queue: seq<string>, n: nat)
    requires IsListing(other, edges)
    ensures Taken(ById(le), other, incoming, queue, n) == Taken(ById(le), edges, incoming, queue, n)
    decreases n
  {
    hide Released, Visiting, TargetsOf, IsListing;
    if n > 0 && queue != [] {
      hide Taken;
      SameVisits(le, other, edges, queue[0]);
      var targets := Visiting(ById(le), TargetsOf(edges, queue[0]));
      TakesOne(ById(le), other, incoming, queue, n, targets);
      TakesOne(ById(le), edges, incoming, queue, n, targets);
      var next := Released(ById(le), targets, incoming, queue[1..]);
      SameTaken(le, other, edges, next.0, next.1, n - 1);
    }
  }

  lemma ListingIsWellFormed(ids: seq<string>, edges: seq<Edge>, ids': seq<string>, edges': seq<Edge>)
    requires WellFormed(ids, edges) && IsListing(ids', ids) && IsListing(edges', edges)
    ensures WellFormed(ids', edges') && Members(ids') == Members(ids) && |ids'| == |ids|
    ensures HasCycle(edges') <==> HasCycle(edges)
  {
    DistinctByCount(ids);
    DistinctByCount(ids');
    SameMembers(ids', ids);
    SameMembers(edges', edges);
    forall walk ensures IsCycle(walk, edges') <==> IsCycle(walk, edges) {
      forall a, b ensures IsEdge(edges', a, b) <==> IsEdge(edges, a, b) {}
    }
  }

  lemma SameDegrees(ids: seq<string>, edges: seq<Edge>, ids': seq<string>, edges': seq<Edge>)
    requires WellFormed(ids, edges) && IsListing(ids', ids) && IsListing(edges', edges)
    ensures Degrees(ids', edges') == Degrees(ids, edges)
  {
    SameMembers(ids', ids);
    assert Members(ids') == Members(ids);
    forall x | x in ids ensures Degrees(ids', edges')[x] == Degrees(ids, edges)[x] {
      SameDegree(edges', edges, Members(ids), x);
    }
  }

  lemma RootsAreFiltered(ids: seq<string>, edges: seq<Edge>, x: string)
    ensures x in Filter(ids, Degrees(ids, edges)) <==> x in Roots(ids, edges)
  {
    ZeroInDegreeIsReady(edges, Members(ids), x);
  }

  lemma SameMultiset(s: seq<string>, t: seq<string>)
    requires Distinct(s) && Distinct(t) && forall x :: x in s <==> x in t
    ensures multiset(s) == multiset(t)
  {
    DistinctByCount(s);
    DistinctByCount(t);
    forall x ensures multiset(s)[x] == multiset(t)[x] {
      assert x in s <==> x in multiset(s);
      assert x in t <==> x in multiset(t);
    }
  }

  /** Roots that the order tells apart are queued the same way however they are listed. */
  lemma SameRoots(le: Order<string>, ids: seq<string>, edges: seq<Edge>, ids': seq<string>)
    requires IsPreorder(le) && Distinct(ids) && Distinct(ids') && Members(ids') == Members(ids)
    requires Separates(le, Roots(ids, edges))
    ensures Arrange(ById(le), Filter(ids', Degrees(ids, edges))) == Arrange(ById(le), Filter(ids, Degrees(ids, edges)))
  {
    var roots, roots' := Filter(ids, Degrees(ids, edges)), Filter(ids', Degrees(ids, edges));
    forall x ensures x in roots <==> x in Roots(ids, edges) { RootsAreFiltered(ids, edges, x); }
    forall x ensures x in roots' <==> x in roots {
      assert x in ids' <==> x in Members(ids');
      assert x in ids <==> x in Members(ids);
    }
    SameMultiset(roots', roots);
    SortSorts(le, roots);
    SortSorts(le, roots');
    SortPermutes(le, roots);
    SortPermutes(le, roots');
    SameMembers(Sort(le, roots'), roots');
    SortedIsUnique(le, Sort(le, roots'), Sort(le, roots));
  }

  lemma SeparateRootsIgnoreListing(le: Order<string>, ids: seq<string>, edges: seq<Edge>, ids': seq<string>,
                                   edges': seq<Edge>)
    requires IsPreorder(le) && WellFormed(ids, edges) && IsListing(ids', ids) && IsListing(edges', edges)
    requires Separates(le, Roots(ids, edges))
    ensures Outcome(ById(le), ids', edges') == Outcome(ById(le), ids, edges)
  {
    ListingIsWellFormed(ids, edges, ids', edges');
    SameDegrees(ids, edges, ids', edges');
    SameRoots(le, ids, edges, ids');
    SameTaken(le, edges', edges, Degrees(ids, edges), Arrange(ById(le), Filter(ids, Degrees(ids, edges))), |ids|);
  }

  // ---------- What does ----------

  lemma {:induction false} FilterPrecedes(ids: seq<string>, incoming: map<string, int>, a: string, b: string)
    requires Precedes(ids, a, b) && a in incoming && b in incoming && incoming[a] == incoming[b] == 0
    ensures Precedes(Filter(ids, incoming), a, b)
    decreases |ids|
  {
    if ids[0] != a { FilterPrecedes(ids[1..], incoming, a, b); }
  }

  lemma {:induction false} ReleasedPrecedes(le: Order<string>, targets: seq<string>, incoming: map<string, int>,
                                            queue: seq<string>, a: string, b: string)
    requires Precedes(queue, a, b) && a != b && le(a, b)
    ensures Precedes(Released(ById(le), targets, incoming, queue).1, a, b)
    decreases |targets|
  {
    if targets != [] {
      var t := targets[0];
      var nextCount := (if t in incoming then incoming[t] else 0) - 1;
      PrecedesStays(queue, [t], a, b);
      SortPrecedes(le, queue + [t], a, b);
      ReleasedPrecedes(le, targets[1..], incoming[t := nextCount],
                       if nextCount == 0 then Arrange(ById(le), queue + [t]) else queue, a, b);
    }
  }

  /** Two steps in the queue are taken in the order they wait in, unless the second has to come first. */
  lemma {:induction false} TakenPrecedes(le: Order<string>, edges: seq<Edge>, incoming: map<string, int>,
                                         queue: seq<string>, n: nat, a: string, b: string)
    requires Precedes(queue, a, b) && a != b && le(a, b)
    requires b in Taken(ById(le), edges, incoming, queue, n)
    ensures Precedes(Taken(ById(le), edges, incoming, queue, n), a, b)
    decreases n
  {
    var targets := Visiting(ById(le), TargetsOf(edges, queue[0]));
    var next := Released(ById(le), targets, incoming, queue[1..]);
    var rest := Taken(ById(le), edges, next.0, next.1, n - 1);
    assert Taken(ById(le), edges, incoming, queue, n) == [queue[0]] + rest;
    assert b in rest;
    if queue[0] != a {
      ReleasedPrecedes(le, targets, incoming, queue[1..], a, b);
      TakenPrecedes(le, edges, next.0, next.1, n - 1, a, b);
    }
  }

  /** Of two roots the one listed first comes out first, unless the order puts the other one before it. */
  lemma RootsComeAsListed(le: Order<string>, ids: seq<string>, edges: seq<Edge>, a: string, b: string)
    requires IsPreorder(le) && WellFormed(ids, edges) && Outcome(ById(le), ids, edges).Ok?
    requires a in Roots(ids, edges) && b in Roots(ids, edges) && Precedes(ids, a, b) && le(a, b)
    ensures Precedes(Outcome(ById(le), ids, edges).value, a, b)
  {
    var incoming := Degrees(ids, edges);
    var roots := Filter(ids, incoming);
    RootsAreFiltered(ids, edges, a);
    RootsAreFiltered(ids, edges, b);
    FilterPrecedes(ids, incoming, a, b);
    PrecedesOneWay(ids, a, b);
    SortPrecedes(le, roots, a, b);
    OutcomeDecides(ById(le), ids, edges);
    assert b in Members(ids);
    TakenPrecedes(le, edges, incoming, Arrange(ById(le), roots), |ids|, a, b);
  }

  /** The listing with `a` moved to the front. */
  lemma MovedToFront(ids: seq<string>, a: string, b: string) returns (front: seq<string>)
    requires a in ids && b in ids && a != b
    ensures IsListing(front, ids) && Precedes(front, a, b)
  {
    var k :| 0 <= k < |ids| && ids[k] == a;
    assert ids == ids[..k] + [a] + ids[k + 1..];
    front := [a] + (ids[..k] + ids[k + 1..]);
    assert front[1..] == ids[..k] + ids[k + 1..];
    assert b in ids[..k] + [a] + ids[k + 1..];
  }

  ghost predicate IgnoresListing(le: Order<string>, ids: seq<string>, edges: seq<Edge>) {
    forall ids', edges' :: IsListing(ids', ids) && IsListing(edges', edges) ==>
      Outcome(ById(le), ids', edges') == Outcome(ById(le), ids, edges)
  }

  lemma RootsOfListing(ids: seq<string>, edges: seq<Edge>, ids': seq<string>)
    requires IsListing(ids', ids)
    ensures Roots(ids', edges) == Roots(ids, edges)
  {
    SameMembers(ids', ids);
    assert Members(ids') == Members(ids);
  }

  lemma FrontOfTieComesFirst(le: Order<string>, ids: seq<string>, edges: seq<Edge>, a: string, b: string)
    requires IsPreorder(le) && WellFormed(ids, edges) && !HasCycle(edges) && IgnoresListing(le, ids, edges)
    requires a in Roots(ids, edges) && b in Roots(ids, edges) && a != b && le(a, b)
    ensures Outcome(ById(le), ids, edges).Ok? && Precedes(Outcome(ById(le), ids, edges).value, a, b)
  {
    var front := MovedToFront(ids, a, b);
    ListingIsWellFormed(ids, edges, front, edges);
    RootsOfListing(ids, edges, front);
    OutcomeDecides(ById(le), front, edges);
    RootsComeAsListed(le, front, edges, a, b);
    assert IsListing(edges, edges);
  }

  /**
   * The sort gives the same result for every listing of nodes and edges exactly if the flow has a cycle or no two
   * steps without an incoming edge compare equal.
   */
  lemma ListingMattersIff(le: Order<string>, ids: seq<string>, edges: seq<Edge>)
    requires IsPreorder(le) && WellFormed(ids, edges)
    ensures IgnoresListing(le, ids, edges) <==> HasCycle(edges) || Separates(le, Roots(ids, edges))
  {
    if HasCycle(edges) {
      forall ids', edges' | IsListing(ids', ids) && IsListing(edges', edges)
        ensures Outcome(ById(le), ids', edges') == Outcome(ById(le), ids, edges)
      {
        ListingIsWellFormed(ids, edges, ids', edges');
        OutcomeDecides(ById(le), ids, edges);
        OutcomeDecides(ById(le), ids', edges');
      }
    } else if Separates(le, Roots(ids, edges)) {
      forall ids', edges' | IsListing(ids', ids) && IsListing(edges', edges)
        ensures Outcome(ById(le), ids', edges') == Outcome(ById(le), ids, edges)
      {
        SeparateRootsIgnoreListing(le, ids, edges, ids', edges');
      }
    } else if IgnoresListing(le, ids, edges) {
      var a, b :| a in Roots(ids, edges) && b in Roots(ids, edges) && le(a, b) && le(b, a) && a != b;
      FrontOfTieComesFirst(le, ids, edges, a, b);
      FrontOfTieComesFirst(le, ids, edges, b, a);
      PrecedesOneWay(Outcome(ById(le), ids, edges).value, a, b);
    }
  }

  lemma LateTieOrders(le: Order<string>, a: string, x: string, y: string)
    requires IsPreorder(le) && x != y && le(x, y) && le(y, x) && !le(x, a) && !le(y, a)
    ensures WellFormed([a, x, y], [Edge(a, y)]) && IsTopological([a, x, y], [a, x, y], [Edge(a, y)])
    ensures PicksLeast([a, x, y], [Edge(a, y)], le) && !PicksStrictly([a, x, y], [Edge(a, y)], le)
  {
    var ids, edges := [a, x, y], [Edge(a, y)];
    assert le(a, a) && le(x, x) && le(y, y) && le(a, x) && le(a, y);
    assert ids[0..] == ids && ids[1..] == [x, y] && ids[2..] == [y];
    assert y in ids[1..] && IsReady(edges, Members(ids[1..]), y);
  }

  lemma LateTieRoots(le: Order<string>, a: string, x: string, y: string)
    requires IsPreorder(le) && x != y && !le(x, a) && !le(y, a)
    ensures Separates(le, Roots([a, x, y], [Edge(a, y)]))
  {
    var ids, edges := [a, x, y], [Edge(a, y)];
    forall r | r in Roots(ids, edges) ensures r == a || r == x {
      assert Edge(a, y) in edges && a in Members(ids);
    }
  }

  /**
   * It is not enough for a dependence that the least order is one of several: where `y` waits for `a` and ties with
   * the root `x`, another order takes least ready steps as well, and still every listing gives the same result.
   */
  lemma LateTieDoesNotMatter(le: Order<string>, a: string, x: string, y: string)
    requires IsPreorder(le) && x != y && le(x, y) && le(y, x) && !le(x, a) && !le(y, a)
    ensures IsTopological([a, x, y], [a, x, y], [Edge(a, y)]) && PicksLeast([a, x, y], [Edge(a, y)], le)
    ensures !PicksStrictly([a, x, y], [Edge(a, y)], le) && IgnoresListing(le, [a, x, y], [Edge(a, y)])
  {
    hide IsTopological, PicksLeast, PicksStrictly, IgnoresListing, Separates, WellFormed, HasCycle, IsPreorder;
    LateTieOrders(le, a, x, y);
    LateTieRoots(le, a, x, y);
    ListingMattersIff(le, [a, x, y], [Edge(a, y)]);
  }

  lemma {:induction false} NothingReleased(q: Queueing, incoming: map<string, int>, queue: seq<string>, n: nat)
    requires |queue| <= n
    ensures Taken(q, [], incoming, queue, n) == queue
    decreases n
  {
    if queue != [] {
      NothingReleased(q, incoming, queue[1..], n - 1);
    }
  }

  lemma {:induction false} AllAreRoots(ids: seq<string>, incoming: map<string, int>)
    requires forall x :: x in ids ==> x in incoming && incoming[x] == 0
    ensures Filter(ids, incoming) == ids
    decreases |ids|
  {
    if ids != [] {
      AllAreRoots(ids[1..], incoming);
      assert ids[0] in ids && ids == [ids[0]] + ids[1..];
      assert Filter(ids, incoming) == [ids[0]] + Filter(ids[1..], incoming);
    }
  }

  /** Without edges the result is the stable sort of the steps as listed. */
  lemma OutcomeWithoutEdges(le: Order<string>, ids: seq<string>)
    ensures Outcome(ById(le), ids, []) == Ok(Sort(le, ids))
  {
    var incoming := Degrees(ids, []);
    AllAreRoots(ids, incoming);
    SortPermutes(le, ids);
    SameMembers(Sort(le, ids), ids);
    NothingReleased(ById(le), incoming, Sort(le, ids), |ids|);
  }
}
