/** Flows as graphs over step ids: topological orders, cycles, and the steps ready to run. */
module Graphs {
  import opened Sorting

  datatype Edge = Edge(source: string, target: string)

  predicate IsEdge(edges: seq<Edge>, a: string, b: string) {
    Edge(a, b) in edges
  }

  function Members(ids: seq<string>): set<string> {
    set x | x in ids
  }

  /** Ids are unique and edges connect existing steps, as the validation before the sort makes sure. */
  ghost predicate WellFormed(ids: seq<string>, edges: seq<Edge>) {
    && Distinct(ids)
    && forall e :: e in edges ==> e.source in ids && e.target in ids
  }

  /** A permutation of the ids in which every edge points forward. */
  ghost predicate IsTopological(order: seq<string>, ids: seq<string>, edges: seq<Edge>) {
    && Distinct(order) && Members(order) == Members(ids)
    && forall i, j :: 0 <= i < |order| && 0 <= j < |order| && IsEdge(edges, order[i], order[j]) ==> i < j
  }

  /** A walk along edges that ends where it started. */
  ghost predicate IsCycle(walk: seq<string>, edges: seq<Edge>) {
    && |walk| >= 2 && walk[0] == walk[|walk| - 1]
    && forall i :: 0 <= i < |walk| - 1 ==> IsEdge(edges, walk[i], walk[i + 1])
  }

  ghost predicate HasCycle(edges: seq<Edge>) {
    exists walk :: IsCycle(walk, edges)
  }

  /** No edge comes into `t` from `alive`. */
  predicate IsReady(edges: seq<Edge>, alive: set<string>, t: string) {
    forall e :: e in edges && e.target == t ==> e.source !in alive
  }

  /** Every step comes after all its predecessors, for the part of an order built so far. */
  ghost predicate Follows(order: seq<string>, edges: seq<Edge>) {
    forall j, e :: 0 <= j < |order| && e in edges && e.target == order[j] ==> e.source in order[..j]
  }

  // ---------- Orders and cycles exclude each other ----------

  lemma FollowsIsTopological(order: seq<string>, ids: seq<string>, edges: seq<Edge>)
    requires Distinct(order) && Members(order) == Members(ids) && Follows(order, edges)
    ensures IsTopological(order, ids, edges)
  {
    forall i, j | 0 <= i < |order| && 0 <= j < |order| && IsEdge(edges, order[i], order[j]) ensures i < j {
      var e := Edge(order[i], order[j]);
      assert e in edges && e.target == order[j];
      assert e.source in order[..j];
    }
  }

  lemma {:induction false} WalkGoesForward(order: seq<string>, ids: seq<string>, edges: seq<Edge>,
                                         walk: seq<string>, k: nat, at: nat)
    requires WellFormed(ids, edges) && IsTopological(order, ids, edges)
    requires k < |walk| && at < |order| && walk[0] == order[at]
    requires forall i :: 0 <= i < |walk| - 1 ==> IsEdge(edges, walk[i], walk[i + 1])
    ensures exists p: nat :: at + k <= p < |order| && order[p] == walk[k]
    decreases k
  {
    if k == 0 {
      assert order[at] == walk[0];
    } else {
      WalkGoesForward(order, ids, edges, walk, k - 1, at);
      var p: nat :| at + k - 1 <= p < |order| && order[p] == walk[k - 1];
      assert IsEdge(edges, walk[k - 1], walk[k - 1 + 1]);
      assert walk[k] in Members(ids);
      assert walk[k] in order;
      var q: nat :| q < |order| && order[q] == walk[k];
      assert p < q;
    }
  }

  lemma OrderExcludesCycle(order: seq<string>, ids: seq<string>, edges: seq<Edge>)
    requires WellFormed(ids, edges) && IsTopological(order, ids, edges)
    ensures !HasCycle(edges)
  {
    forall walk | IsCycle(walk, edges) ensures false {
      assert IsEdge(edges, walk[0], walk[1]);
      assert walk[0] in Members(ids);
      assert walk[0] in order;
      var at: nat :| at < |order| && order[at] == walk[0];
      WalkGoesForward(order, ids, edges, walk, |walk| - 1, at);
    }
  }

  /** `back` follows edges backwards inside `alive`. */
  ghost predicate IsBackwalk(back: seq<string>, alive: set<string>, edges: seq<Edge>) {
    && (forall i :: 0 <= i < |back| ==> back[i] in alive)
    && (forall i :: 0 <= i < |back| - 1 ==> IsEdge(edges, back[i + 1], back[i]))
  }

  lemma {:induction false} BackwalkOfLength(alive: set<string>, edges: seq<Edge>, n: nat) returns (back: seq<string>)
    requires alive != {} && forall t :: t in alive ==> !IsReady(edges, alive, t)
    ensures |back| == n + 1 && IsBackwalk(back, alive, edges)
    decreases n
  {
    if n == 0 {
      var t :| t in alive;
      back := [t];
    } else {
      var shorter := BackwalkOfLength(alive, edges, n - 1);
      back := BackwalkExtends(shorter, alive, edges);
    }
  }

  lemma BackwalkExtends(back: seq<string>, alive: set<string>, edges: seq<Edge>) returns (longer: seq<string>)
    requires back != [] && IsBackwalk(back, alive, edges) && !IsReady(edges, alive, back[|back| - 1])
    ensures |longer| == |back| + 1 && IsBackwalk(longer, alive, edges)
  {
    var last := back[|back| - 1];
    var e :| e in edges && e.target == last && e.source in alive;
    longer := back + [e.source];
    forall i | 0 <= i < |longer| - 1 ensures IsEdge(edges, longer[i + 1], longer[i]) {
      if i == |back| - 1 {
        assert e == Edge(longer[i + 1], longer[i]);
      } else {
        assert IsEdge(edges, back[i + 1], back[i]);
      }
    }
  }

  lemma {:induction false} Pigeonhole(s: seq<string>, room: set<string>)
    requires |s| > |room| && forall i :: 0 <= i < |s| ==> s[i] in room
    ensures !Distinct(s)
    decreases |s|
  {
    if Distinct(s) {
      var rest := s[1..];
      forall i | 0 <= i < |rest| ensures rest[i] in room - {s[0]} {
        assert rest[i] == s[i + 1];
      }
      Pigeonhole(rest, room - {s[0]});
    }
  }

  /** If every remaining step waits for another remaining one, walking back among them must repeat a step. */
  lemma StuckMeansCycle(alive: set<string>, edges: seq<Edge>)
    requires alive != {} && forall t :: t in alive ==> !IsReady(edges, alive, t)
    ensures HasCycle(edges)
  {
    var back := BackwalkOfLength(alive, edges, |alive|);
    Pigeonhole(back, alive);
    var i, j :| 0 <= i < j < |back| && back[i] == back[j];
    RepeatClosesCycle(back, i, j, alive, edges);
  }

  lemma RepeatClosesCycle(back: seq<string>, i: nat, j: nat, alive: set<string>, edges: seq<Edge>)
    requires IsBackwalk(back, alive, edges) && i < j < |back| && back[i] == back[j]
    ensures HasCycle(edges)
  {
    var walk := seq(j - i + 1, k requires 0 <= k <= j - i => back[j - k]);
    forall k | 0 <= k < |walk| - 1 ensures IsEdge(edges, walk[k], walk[k + 1]) {
      var m := j - k - 1;
      assert IsEdge(edges, back[m + 1], back[m]);
    }
    assert IsCycle(walk, edges);
  }

  // ---------- The least order ----------

  /** At every position the order takes the least of the steps that are ready there. */
  ghost predicate PicksLeast(order: seq<string>, edges: seq<Edge>, le: Order<string>) {
    forall k, x :: 0 <= k < |order| && x in order[k..] && IsReady(edges, Members(order[k..]), x) ==> le(order[k], x)
  }

  /** `a` is not after `b`: equal, or smaller at the first position where they differ. */
  ghost predicate LexLe(a: seq<string>, b: seq<string>, le: Order<string>) {
    a == b || exists k: nat :: k < |a| && k < |b| && IsFirstDifference(a, b, k) && le(a[k], b[k])
  }

  predicate IsFirstDifference(a: seq<string>, b: seq<string>, k: nat)
    requires k < |a| && k < |b|
  {
    a[..k] == b[..k] && a[k] != b[k]
  }

  lemma {:induction false} FirstDifference(a: seq<string>, b: seq<string>, from: nat) returns (k: nat)
    requires |a| == |b| && a != b && from <= |a| && a[..from] == b[..from]
    ensures k < |a| && IsFirstDifference(a, b, k)
    decreases |a| - from
  {
    assert a == a[..|a|] && b == b[..|b|];
    if a[from] != b[from] {
      k := from;
    } else {
      assert a[..from + 1] == a[..from] + [a[from]];
      assert b[..from + 1] == b[..from] + [b[from]];
      k := FirstDifference(a, b, from + 1);
    }
  }

  lemma SameSize(a: seq<string>, b: seq<string>)
    requires Distinct(a) && Distinct(b) && Members(a) == Members(b)
    ensures |a| == |b|
  {
    MembersSize(a);
    MembersSize(b);
  }

  lemma {:induction false} MembersSize(a: seq<string>)
    requires Distinct(a)
    ensures |Members(a)| == |a|
    decreases |a|
  {
    if a != [] {
      MembersSize(a[1..]);
      assert Members(a) == {a[0]} + Members(a[1..]);
      assert a[0] !in Members(a[1..]);
    }
  }

  /** What remains of two orders of the same steps after a common beginning. */
  lemma RemainderMembers(a: seq<string>, b: seq<string>, k: nat)
    requires Distinct(a) && Distinct(b) && Members(a) == Members(b)
    requires k <= |a| && k <= |b| && a[..k] == b[..k]
    ensures Members(a[k..]) == Members(b[k..])
  {
    forall x ensures x in Members(a[k..]) ==> x in Members(b[k..]) { Crosses(a, b, k, x); }
    forall x ensures x in Members(b[k..]) ==> x in Members(a[k..]) { Crosses(b, a, k, x); }
  }

  lemma Crosses(a: seq<string>, b: seq<string>, k: nat, x: string)
    requires Distinct(a) && Members(a) == Members(b)
    requires k <= |a| && k <= |b| && a[..k] == b[..k]
    ensures x in a[k..] ==> x in b[k..]
  {
    if x in a[k..] {
      var i :| 0 <= i < |a[k..]| && a[k..][i] == x;
      assert x == a[k + i];
      assert x in Members(a);
      assert x in b;
      forall j | 0 <= j < k ensures b[j] != x {
        assert b[j] == b[..k][j] == a[..k][j] == a[j];
      }
      var m :| 0 <= m < |b| && b[m] == x;
      assert b[k..][m - k] == x;
    }
  }

  /** Taking the least ready step each time gives the lexicographically least topological order. */
  lemma PicksLeastIsLeast(order: seq<string>, other: seq<string>, ids: seq<string>, edges: seq<Edge>, le: Order<string>)
    requires WellFormed(ids, edges) && IsTopological(order, ids, edges) && IsTopological(other, ids, edges)
    requires PicksLeast(order, edges, le)
    ensures LexLe(order, other, le)
  {
    if order != other {
      SameSize(order, other);
      var k := FirstDifference(order, other, 0);
      LeastAtDifference(order, other, ids, edges, le, k);
    }
  }

  /** Under an order that tells the ids apart there is only one such order, however nodes and edges are listed. */
  lemma LeastIsUnique(order: seq<string>, ids: seq<string>, edges: seq<Edge>,
                      order': seq<string>, ids': seq<string>, edges': seq<Edge>, le: Order<string>)
    requires WellFormed(ids, edges) && IsTopological(order, ids, edges) && PicksLeast(order, edges, le)
    requires WellFormed(ids', edges') && IsTopological(order', ids', edges') && PicksLeast(order', edges', le)
    requires Members(ids) == Members(ids') && (forall e :: e in edges <==> e in edges')
    requires Separates(le, Members(ids))
    ensures order == order'
  {
    forall i, j | 0 <= i < |order'| && 0 <= j < |order'| && IsEdge(edges, order'[i], order'[j]) ensures i < j {
      assert IsEdge(edges', order'[i], order'[j]);
    }
    if order != order' {
      SameSize(order, order');
      var k := FirstDifference(order, order', 0);
      assert order[k] in Members(order) && order'[k] in Members(order');
      LeastAtDifference(order, order', ids, edges, le, k);
      assert order'[..k] == order[..k];
      forall i, j | 0 <= i < |order| && 0 <= j < |order| && IsEdge(edges', order[i], order[j]) ensures i < j {
        assert IsEdge(edges, order[i], order[j]);
      }
      LeastAtDifference(order', order, ids', edges', le, k);
    }
  }

  lemma LeastAtDifference(order: seq<string>, other: seq<string>, ids: seq<string>, edges: seq<Edge>,
                          le: Order<string>, k: nat)
    requires WellFormed(ids, edges) && IsTopological(order, ids, edges) && IsTopological(other, ids, edges)
    requires PicksLeast(order, edges, le)
    requires |order| == |other| && k < |order| && IsFirstDifference(order, other, k)
    ensures le(order[k], other[k])
  {
    RemainderMembers(order, other, k);
    assert other[k] in Members(other[k..]) by { assert other[k..][0] == other[k]; }
    HeadIsReady(other, ids, edges, k);
  }

  lemma HeadIsReady(order: seq<string>, ids: seq<string>, edges: seq<Edge>, k: nat)
    requires IsTopological(order, ids, edges) && k < |order|
    ensures IsReady(edges, Members(order[k..]), order[k])
  {
    forall e | e in edges && e.target == order[k] ensures e.source !in Members(order[k..]) {
      assert IsEdge(edges, e.source, order[k]);
      forall i | 0 <= i < |order[k..]| ensures order[k..][i] != e.source {
        assert !IsEdge(edges, order[k + i], order[k]);
      }
    }
  }

  // ---------- When the least order is unique ----------

  /** Of all steps that are ready in `alive`, `x` is a least one. */
  ghost predicate IsLeastReady(x: string, alive: set<string>, edges: seq<Edge>, le: Order<string>) {
    && x in alive && IsReady(edges, alive, x)
    && forall y :: y in alive && IsReady(edges, alive, y) ==> le(x, y)
  }

  /** Every step is a least ready one among those from it on. */
  ghost predicate IsGreedy(order: seq<string>, edges: seq<Edge>, le: Order<string>) {
    forall k :: 0 <= k < |order| ==> IsLeastReady(order[k], Members(order[k..]), edges, le)
  }

  /** At every position the step taken is strictly below every other one that is ready there. */
  ghost predicate PicksStrictly(order: seq<string>, edges: seq<Edge>, le: Order<string>) {
    forall k, x :: 0 <= k < |order| && x in order[k..] && x != order[k] && IsReady(edges, Members(order[k..]), x) ==>
      !le(x, order[k])
  }

  lemma LeastIsGreedy(order: seq<string>, ids: seq<string>, edges: seq<Edge>, le: Order<string>)
    requires IsTopological(order, ids, edges) && PicksLeast(order, edges, le)
    ensures IsGreedy(order, edges, le)
  {
    forall k | 0 <= k < |order| ensures IsLeastReady(order[k], Members(order[k..]), edges, le) {
      HeadIsReady(order, ids, edges, k);
      assert order[k..][0] == order[k];
    }
  }

  lemma GreedyIsLeast(order: seq<string>, ids: seq<string>, edges: seq<Edge>, le: Order<string>)
    requires Distinct(order) && Members(order) == Members(ids) && IsGreedy(order, edges, le)
    ensures IsTopological(order, ids, edges) && PicksLeast(order, edges, le)
  {
    forall i, j | 0 <= i < |order| && 0 <= j < |order| && IsEdge(edges, order[i], order[j]) ensures i < j {
      assert IsLeastReady(order[j], Members(order[j..]), edges, le);
      assert order[i] !in Members(order[j..]);
      assert order == order[..j] + order[j..];
      assert order[i] !in order[j..];
    }
    forall k, x | 0 <= k < |order| && x in order[k..] && IsReady(edges, Members(order[k..]), x) ensures le(order[k], x) {
      assert IsLeastReady(order[k], Members(order[k..]), edges, le);
    }
  }

  lemma {:induction false} LeastOf(some: set<string>, le: Order<string>) returns (m: string)
    requires some != {} && IsPreorder(le)
    ensures m in some && forall y :: y in some ==> le(m, y)
    decreases |some|
  {
    var a :| a in some;
    m := a;
    assert le(a, a);
    if some - {a} != {} {
      var n := LeastOf(some - {a}, le);
      if !le(a, n) { m := n; }
      forall y | y in some ensures le(m, y) {
        if y != a { assert y in some - {a} && le(n, y); }
      }
    } else {
      forall y | y in some ensures y == a { assert y !in some - {a}; }
    }
  }

  lemma HasLeastReady(alive: set<string>, edges: seq<Edge>, le: Order<string>) returns (m: string)
    requires alive != {} && !HasCycle(edges) && IsPreorder(le)
    ensures IsLeastReady(m, alive, edges, le)
  {
    var ready := set t | t in alive && IsReady(edges, alive, t);
    if ready == {} {
      assert forall t :: t in alive ==> !IsReady(edges, alive, t) by {
        forall t | t in alive ensures !IsReady(edges, alive, t) { assert t !in ready; }
      }
      StuckMeansCycle(alive, edges);
    }
    m := LeastOf(ready, le);
  }

  lemma GreedyExtends(x: string, rest: seq<string>, edges: seq<Edge>, le: Order<string>)
    requires x !in rest && Distinct(rest) && IsGreedy(rest, edges, le) && IsLeastReady(x, Members(rest) + {x}, edges, le)
    ensures Distinct([x] + rest) && Members([x] + rest) == Members(rest) + {x} && IsGreedy([x] + rest, edges, le)
  {
    var longer := [x] + rest;
    assert Members(longer) == Members(rest) + {x};
    forall k | 0 <= k < |longer| ensures IsLeastReady(longer[k], Members(longer[k..]), edges, le) {
      if k == 0 {
        assert longer[0..] == longer;
      } else {
        assert longer[k..] == rest[k - 1..];
      }
    }
  }

  /** Without a cycle any steps can be put in greedy order. */
  lemma {:induction false} GreedyExists(alive: set<string>, edges: seq<Edge>, le: Order<string>) returns (order: seq<string>)
    requires !HasCycle(edges) && IsPreorder(le)
    ensures Distinct(order) && Members(order) == alive && IsGreedy(order, edges, le)
    decreases |alive|
  {
    if alive == {} {
      order := [];
    } else {
      var m := HasLeastReady(alive, edges, le);
      var rest := GreedyExists(alive - {m}, edges, le);
      assert Members(rest) + {m} == alive;
      assert m !in Members(rest);
      GreedyExtends(m, rest, edges, le);
      order := [m] + rest;
    }
  }

  lemma StepBefore(order: seq<string>, k: nat)
    requires 0 < k <= |order| && Distinct(order)
    ensures Members(order[k - 1..]) == Members(order[k..]) + {order[k - 1]} && order[k - 1] !in Members(order[k..])
  {
    assert order[k - 1..] == [order[k - 1]] + order[k..];
  }

  /** `tail` holds the steps from position `k` on, in greedy order. */
  ghost predicate IsGreedyTail(order: seq<string>, k: nat, tail: seq<string>, edges: seq<Edge>, le: Order<string>) {
    k <= |order| && Distinct(tail) && Members(tail) == Members(order[k..]) && IsGreedy(tail, edges, le)
  }

  lemma TailExtends(order: seq<string>, k: nat, tail: seq<string>, edges: seq<Edge>, le: Order<string>)
    requires 0 < k <= |order| && Distinct(order) && IsGreedyTail(order, k, tail, edges, le)
    requires IsLeastReady(order[k - 1], Members(order[k - 1..]), edges, le)
    ensures IsGreedyTail(order, k - 1, [order[k - 1]] + tail, edges, le)
    ensures order[..k - 1] + ([order[k - 1]] + tail) == order[..k] + tail
  {
    StepBefore(order, k);
    assert order[k - 1] !in tail;
    GreedyExtends(order[k - 1], tail, edges, le);
  }

  /** The steps before position `k`, followed by others in greedy order. */
  lemma {:induction false} PrefixExtends(order: seq<string>, k: nat, tail: seq<string>, edges: seq<Edge>, le: Order<string>)
    requires Distinct(order) && IsGreedy(order, edges, le) && IsGreedyTail(order, k, tail, edges, le)
    ensures IsGreedyTail(order, 0, order[..k] + tail, edges, le)
    decreases k
  {
    if k == 0 {
      assert order[..0] + tail == tail;
    } else {
      assert IsLeastReady(order[k - 1], Members(order[k - 1..]), edges, le);
      hide IsLeastReady, IsGreedy, IsGreedyTail;
      TailExtends(order, k, tail, edges, le);
      PrefixExtends(order, k - 1, [order[k - 1]] + tail, edges, le);
    }
  }

  /** A tie at the head: some greedy order of the same steps starts with `x`. */
  lemma GreedyFrom(x: string, alive: set<string>, edges: seq<Edge>, le: Order<string>) returns (order: seq<string>)
    requires !HasCycle(edges) && IsPreorder(le) && IsLeastReady(x, alive, edges, le)
    ensures Distinct(order) && Members(order) == alive && IsGreedy(order, edges, le) && order != [] && order[0] == x
  {
    var rest := GreedyExists(alive - {x}, edges, le);
    assert Members(rest) + {x} == alive && x !in Members(rest);
    GreedyExtends(x, rest, edges, le);
    order := [x] + rest;
  }

  lemma TiedIsLeast(x: string, y: string, alive: set<string>, edges: seq<Edge>, le: Order<string>)
    requires IsPreorder(le) && IsLeastReady(y, alive, edges, le)
    requires x in alive && IsReady(edges, alive, x) && le(x, y)
    ensures IsLeastReady(x, alive, edges, le)
  {
  }

  lemma TieHasAnotherGreedy(order: seq<string>, edges: seq<Edge>, le: Order<string>, k: nat, x: string)
    returns (other: seq<string>)
    requires !HasCycle(edges) && IsPreorder(le) && Distinct(order) && IsGreedy(order, edges, le)
    requires k < |order| && x != order[k] && IsLeastReady(x, Members(order[k..]), edges, le)
    ensures other != order && Distinct(other) && Members(other) == Members(order) && IsGreedy(other, edges, le)
  {
    var tail := GreedyFrom(x, Members(order[k..]), edges, le);
    other := order[..k] + tail;
    assert other[k] == x;
    PrefixExtends(order, k, tail, edges, le);
    assert order[0..] == order;
  }

  lemma TieHasAnotherOrder(order: seq<string>, ids: seq<string>, edges: seq<Edge>, le: Order<string>, k: nat, x: string)
    returns (other: seq<string>)
    requires WellFormed(ids, edges) && IsPreorder(le) && IsTopological(order, ids, edges) && PicksLeast(order, edges, le)
    requires k < |order| && x in order[k..] && x != order[k] && IsReady(edges, Members(order[k..]), x) && le(x, order[k])
    ensures other != order && IsTopological(other, ids, edges) && PicksLeast(other, edges, le)
  {
    LeastIsGreedy(order, ids, edges, le);
    OrderExcludesCycle(order, ids, edges);
    TiedIsLeast(x, order[k], Members(order[k..]), edges, le);
    other := TieHasAnotherGreedy(order, edges, le, k, x);
    GreedyIsLeast(other, ids, edges, le);
  }

  lemma StrictIsUnique(order: seq<string>, other: seq<string>, ids: seq<string>, edges: seq<Edge>, le: Order<string>)
    requires WellFormed(ids, edges) && IsTopological(order, ids, edges) && IsTopological(other, ids, edges)
    requires PicksStrictly(order, edges, le) && PicksLeast(other, edges, le)
    ensures other == order
  {
    if other != order {
      SameSize(order, other);
      var k := FirstDifference(order, other, 0);
      RemainderMembers(order, other, k);
      HeadIsReady(other, ids, edges, k);
      assert other[k..][0] == other[k];
      assert other[k] in Members(other[k..]);
      assert IsFirstDifference(other, order, k);
      LeastAtDifference(other, order, ids, edges, le, k);
    }
  }

  /** The least order is the only one exactly if no other ready step ever compares equal to the one taken. */
  lemma LeastIsUniqueIff(order: seq<string>, ids: seq<string>, edges: seq<Edge>, le: Order<string>)
    requires WellFormed(ids, edges) && IsPreorder(le) && IsTopological(order, ids, edges) && PicksLeast(order, edges, le)
    ensures (forall other :: IsTopological(other, ids, edges) && PicksLeast(other, edges, le) ==> other == order)
       <==> PicksStrictly(order, edges, le)
  {
    if PicksStrictly(order, edges, le) {
      forall other | IsTopological(other, ids, edges) && PicksLeast(other, edges, le) ensures other == order {
        StrictIsUnique(order, other, ids, edges, le);
      }
    } else {
      var k, x :| 0 <= k < |order| && x in order[k..] && x != order[k] && IsReady(edges, Members(order[k..]), x)
                  && le(x, order[k]);
      var other := TieHasAnotherOrder(order, ids, edges, le, k, x);
    }
  }
}
