/** Kahn's algorithm as the two flow compilers run it: with a queue re-sorted by id, and first in, first out. */
module TopoSort {
  import opened Wrappers
  import opened Sorting
  import opened Graphs

  datatype FlowError = MissingNode | Cycle

  /** How steps wait in the queue. */
  datatype Queueing = Fifo | ById(le: Order<string>)

  function Arrange(q: Queueing, s: seq<string>): (r: seq<string>)
    ensures multiset(r) == multiset(s)
  {
    if q.ById? then
      SortPermutes(q.le, s);
      Sort(q.le, s)
    else s
  }

  /** The order in which the targets of a step are visited. */
  function Visiting(q: Queueing, s: seq<string>): (r: seq<string>)
    ensures multiset(r) == multiset(s)
  {
    if q.ById? then
      SortPermutes(CodeUnitLe, s);
      Sort(CodeUnitLe, s)
    else s
  }

  ghost predicate Trusted(q: Queueing) {
    q.ById? ==> IsPreorder(q.le)
  }

  ghost predicate InQueueOrder(q: Queueing, s: seq<string>) {
    q.ById? ==> SortedBy(q.le, s)
  }

  /** Number of edges into `t` from steps in `alive`. */
  function InDegree(edges: seq<Edge>, alive: set<string>, t: string): nat {
    if edges == [] then 0
    else
      var e := edges[|edges| - 1];
      InDegree(edges[..|edges| - 1], alive, t) + if e.source in alive && e.target == t then 1 else 0
  }

  function TargetsOf(edges: seq<Edge>, s: string): seq<string> {
    if edges == [] then []
    else
      var e := edges[|edges| - 1];
      TargetsOf(edges[..|edges| - 1], s) + if e.source == s then [e.target] else []
  }

  lemma {:induction false} ZeroInDegreeIsReady(edges: seq<Edge>, alive: set<string>, t: string)
    ensures InDegree(edges, alive, t) == 0 <==> IsReady(edges, alive, t)
    decreases |edges|
  {
    if edges != [] {
      var front := edges[..|edges| - 1];
      var e := edges[|edges| - 1];
      assert edges == front + [e];
      ZeroInDegreeIsReady(front, alive, t);
      assert forall x :: x in edges <==> x in front || x == e;
    }
  }

  /** Removing a step lowers the in-degree by the edges it had into each target. */
  lemma {:induction false} RemovalLowersInDegree(edges: seq<Edge>, alive: set<string>, s: string, t: string)
    requires s in alive
    ensures InDegree(edges, alive, t) == InDegree(edges, alive - {s}, t) + multiset(TargetsOf(edges, s))[t]
    decreases |edges|
  {
    if edges != [] {
      RemovalLowersInDegree(edges[..|edges| - 1], alive, s, t);
    }
  }

  lemma ArrangeInOrder(q: Queueing, s: seq<string>)
    requires Trusted(q)
    ensures InQueueOrder(q, Arrange(q, s))
  {
    if q.ById? {
      SortSorts(q.le, s);
    }
  }

  lemma ArrangeKeepsMembers(q: Queueing, s: seq<string>)
    requires Distinct(s)
    ensures Distinct(Arrange(q, s)) && forall x :: x in Arrange(q, s) <==> x in s
  {
    DistinctByCount(s);
    DistinctByCount(Arrange(q, s));
    SameMembers(Arrange(q, s), s);
  }

  // ---------- State of the algorithm ----------

  /** Counts of remaining edges, `pending` of which still have to be taken off. */
  ghost predicate CountsInv(incoming: map<string, int>, ids: seq<string>, edges: seq<Edge>, alive: set<string>,
                            pending: seq<string>) {
    && incoming.Keys == Members(ids)
    && forall t :: t in incoming ==> incoming[t] == InDegree(edges, alive, t) + multiset(pending)[t]
  }

  /** The queue holds exactly the remaining steps whose count is zero. */
  ghost predicate QueueInv(queue: seq<string>, incoming: map<string, int>, alive: set<string>) {
    && Distinct(queue) && alive <= incoming.Keys
    && forall t :: t in queue <==> t in alive && incoming[t] == 0
  }

  method CountEdges(ids: seq<string>, edges: seq<Edge>)
    returns (incoming: map<string, int>, outgoing: map<string, seq<string>>)
    requires WellFormed(ids, edges)
    ensures CountsInv(incoming, ids, edges, Members(ids), [])
    ensures outgoing.Keys == Members(ids) && forall s :: s in outgoing ==> outgoing[s] == TargetsOf(edges, s)
  {
    incoming := map x | x in ids :: 0;
    outgoing := map x | x in ids :: [];
    for i := 0 to |edges|
      invariant CountsInv(incoming, ids, edges[..i], Members(ids), [])
      invariant outgoing.Keys == Members(ids)
      invariant forall s :: s in outgoing ==> outgoing[s] == TargetsOf(edges[..i], s)
    {
      var e := edges[i];
      assert e in edges;
      assert edges[..i + 1][..i] == edges[..i];
      incoming := incoming[e.target := incoming[e.target] + 1];
      outgoing := outgoing[e.source := outgoing[e.source] + [e.target]];
    }
    assert edges[..|edges|] == edges;
  }

  lemma EnqueueKeeps(q: Queueing, waiting: seq<string>, t: string)
    requires Trusted(q) && Distinct(waiting) && t !in waiting
    ensures var queue := Arrange(q, waiting + [t]);
            Distinct(queue) && InQueueOrder(q, queue) && forall x :: x in queue <==> x in waiting || x == t
  {
    ArrangeInOrder(q, waiting + [t]);
    ArrangeKeepsMembers(q, waiting + [t]);
  }

  lemma EdgeTaken(incoming: map<string, int>, ids: seq<string>, edges: seq<Edge>, alive: set<string>,
                  t: string, rest: seq<string>)
    requires CountsInv(incoming, ids, edges, alive, [t] + rest) && t in incoming
    ensures incoming[t] >= 1 && CountsInv(incoming[t := incoming[t] - 1], ids, edges, alive, rest)
  {
    assert multiset([t] + rest) == multiset{t} + multiset(rest);
  }

  /** Takes the edges to `targets` off the counts, queueing each target that has none left. */
  function Released(q: Queueing, targets: seq<string>, incoming: map<string, int>, queue: seq<string>)
    : (map<string, int>, seq<string>)
    decreases |targets|
  {
    if targets == [] then (incoming, queue)
    else
      var t := targets[0];
      var nextCount := (if t in incoming then incoming[t] else 0) - 1;
      Released(q, targets[1..], incoming[t := nextCount], if nextCount == 0 then Arrange(q, queue + [t]) else queue)
  }

  lemma OneReleased(q: Queueing, t: string, rest: seq<string>, incoming: map<string, int>, queue: seq<string>,
                    ids: seq<string>, edges: seq<Edge>, alive: set<string>)
    requires Trusted(q) && alive <= Members(ids) && t in alive
    requires CountsInv(incoming, ids, edges, alive, [t] + rest)
    requires QueueInv(queue, incoming, alive) && InQueueOrder(q, queue)
    ensures t in incoming
    ensures var counts := incoming[t := incoming[t] - 1];
            var waiting := if counts[t] == 0 then Arrange(q, queue + [t]) else queue;
            CountsInv(counts, ids, edges, alive, rest) && QueueInv(waiting, counts, alive) && InQueueOrder(q, waiting)
  {
    hide Arrange, InQueueOrder, InDegree, Trusted;
    EdgeTaken(incoming, ids, edges, alive, t, rest);
    if incoming[t] == 1 { EnqueueKeeps(q, queue, t); }
  }

  /** After the edges of a finished step are taken off, the queue again holds exactly the ready steps, in order. */
  lemma {:induction false} ReleasedKeeps(q: Queueing, targets: seq<string>, incoming: map<string, int>,
                                         queue: seq<string>, ids: seq<string>, edges: seq<Edge>, alive: set<string>)
    requires Trusted(q) && alive <= Members(ids)
    requires forall t :: t in targets ==> t in alive
    requires CountsInv(incoming, ids, edges, alive, targets)
    requires QueueInv(queue, incoming, alive) && InQueueOrder(q, queue)
    ensures var (counts, waiting) := Released(q, targets, incoming, queue);
            CountsInv(counts, ids, edges, alive, []) && QueueInv(waiting, counts, alive) && InQueueOrder(q, waiting)
    decreases |targets|
  {
    hide Arrange, InQueueOrder, CountsInv, QueueInv, Trusted;
    if targets == [] {
      assert Released(q, targets, incoming, queue) == (incoming, queue);
    } else {
      var t, rest := targets[0], targets[1..];
      assert targets == [t] + rest;
      assert t in targets;
      OneReleased(q, t, rest, incoming, queue, ids, edges, alive);
      var counts := incoming[t := incoming[t] - 1];
      var waiting := if counts[t] == 0 then Arrange(q, queue + [t]) else queue;
      assert Released(q, targets, incoming, queue) == Released(q, rest, counts, waiting);
      hide Released;
      ReleasedKeeps(q, rest, counts, waiting, ids, edges, alive);
    }
  }

  /** The loop over the targets of a finished step. */
  method Release(q: Queueing, targets: seq<string>, counts: map<string, int>, waiting: seq<string>,
                 ghost ids: seq<string>, ghost edges: seq<Edge>, ghost alive: set<string>)
    returns (incoming: map<string, int>, queue: seq<string>)
    requires Trusted(q)
    requires WellFormed(ids, edges) && alive <= Members(ids)
    requires forall t :: t in targets ==> t in alive
    requires CountsInv(counts, ids, edges, alive, targets)
    requires QueueInv(waiting, counts, alive) && InQueueOrder(q, waiting)
    ensures (incoming, queue) == Released(q, targets, counts, waiting)
    ensures CountsInv(incoming, ids, edges, alive, [])
    ensures QueueInv(queue, incoming, alive) && InQueueOrder(q, queue)
  {
    hide Arrange, CountsInv, QueueInv, InQueueOrder;
    incoming, queue := counts, waiting;
    for j := 0 to |targets|
      invariant Released(q, targets[j..], incoming, queue) == Released(q, targets, counts, waiting)
    {
      var t := targets[j];
      assert targets[j..][1..] == targets[j + 1..];
      var nextCount := (if t in incoming then incoming[t] else 0) - 1;
      incoming := incoming[t := nextCount];
      if nextCount == 0 {
        queue := Arrange(q, queue + [t]);
      }
    }
    ReleasedKeeps(q, targets, counts, waiting, ids, edges, alive);
  }

  ghost function AliveAfter(ids: seq<string>, ordered: seq<string>): set<string> {
    Members(ids) - Members(ordered)
  }

  /** `PicksLeast` for an order under construction. */
  ghost predicate PickedLeast(ordered: seq<string>, ids: seq<string>, edges: seq<Edge>, le: Order<string>) {
    forall k, x | 0 <= k < |ordered| && x in AliveAfter(ids, ordered[..k]) ::
      IsReady(edges, AliveAfter(ids, ordered[..k]), x) ==> le(ordered[k], x)
  }

  lemma PickedLeastExtends(ordered: seq<string>, node: string, ids: seq<string>, edges: seq<Edge>, le: Order<string>)
    requires PickedLeast(ordered, ids, edges, le)
    requires forall x :: x in AliveAfter(ids, ordered) && IsReady(edges, AliveAfter(ids, ordered), x) ==> le(node, x)
    ensures PickedLeast(ordered + [node], ids, edges, le)
  {
    var longer := ordered + [node];
    forall k, x | 0 <= k < |longer| && x in AliveAfter(ids, longer[..k]) && IsReady(edges, AliveAfter(ids, longer[..k]), x)
      ensures le(longer[k], x)
    {
      assert longer[..k] == ordered[..k];
      if k == |ordered| {
        assert ordered[..k] == ordered;
      }
    }
  }

  lemma PickedLeastIsPicksLeast(order: seq<string>, ids: seq<string>, edges: seq<Edge>, le: Order<string>)
    requires PickedLeast(order, ids, edges, le) && Distinct(order) && Members(order) == Members(ids)
    ensures PicksLeast(order, edges, le)
  {
    forall k, x | 0 <= k < |order| && x in order[k..] && IsReady(edges, Members(order[k..]), x)
      ensures le(order[k], x)
    {
      RestIsAlive(order, ids, k);
      assert x in AliveAfter(ids, order[..k]);
    }
  }

  lemma RestIsAlive(order: seq<string>, ids: seq<string>, k: nat)
    requires Distinct(order) && Members(order) == Members(ids) && k <= |order|
    ensures AliveAfter(ids, order[..k]) == Members(order[k..])
  {
    assert order == order[..k] + order[k..];
    forall x | x in Members(order[k..]) ensures x !in Members(order[..k]) {
      var j :| 0 <= j < |order[k..]| && order[k..][j] == x;
      assert order[k + j] == x;
    }
    forall x | x in AliveAfter(ids, order[..k]) ensures x in Members(order[k..]) {
      assert x in Members(order);
    }
  }

  /** The order so far, and nothing else, is what has left the graph. */
  ghost predicate OrderInv(ordered: seq<string>, ids: seq<string>, edges: seq<Edge>) {
    Distinct(ordered) && Members(ordered) <= Members(ids) && Follows(ordered, edges)
  }

  lemma OrderExtends(ordered: seq<string>, node: string, ids: seq<string>, edges: seq<Edge>)
    requires WellFormed(ids, edges) && OrderInv(ordered, ids, edges)
    requires node in AliveAfter(ids, ordered) && IsReady(edges, AliveAfter(ids, ordered), node)
    ensures OrderInv(ordered + [node], ids, edges)
    ensures AliveAfter(ids, ordered + [node]) == AliveAfter(ids, ordered) - {node}
  {
    var longer := ordered + [node];
    forall j, e | 0 <= j < |longer| && e in edges && e.target == longer[j] ensures e.source in longer[..j] {
      assert longer[..j] == ordered[..j];
      if j == |ordered| {
        assert e.source in Members(ids);
        assert e.source in Members(ordered);
        assert ordered[..j] == ordered;
      }
    }
  }

  /** The head of a sorted queue is the least ready step. */
  lemma HeadIsLeast(queue: seq<string>, incoming: map<string, int>, ids: seq<string>, edges: seq<Edge>,
                    alive: set<string>, le: Order<string>)
    requires queue != [] && IsPreorder(le) && SortedBy(le, queue)
    requires CountsInv(incoming, ids, edges, alive, []) && QueueInv(queue, incoming, alive)
    ensures forall x :: x in alive && IsReady(edges, alive, x) ==> le(queue[0], x)
  {
    forall x | x in alive && IsReady(edges, alive, x) ensures le(queue[0], x) {
      ZeroInDegreeIsReady(edges, alive, x);
      assert x in queue;
    }
  }

  /** Taking the head off the queue, before its edges are taken off the counts. */
  lemma AfterShift(queue: seq<string>, incoming: map<string, int>, ids: seq<string>, edges: seq<Edge>, alive: set<string>)
    requires WellFormed(ids, edges) && alive <= Members(ids) && queue != []
    requires CountsInv(incoming, ids, edges, alive, []) && QueueInv(queue, incoming, alive)
    requires forall e :: e in edges && e.source in alive ==> e.target in alive
    ensures var node := queue[0];
            && CountsInv(incoming, ids, edges, alive - {node}, TargetsOf(edges, node))
            && QueueInv(queue[1..], incoming, alive - {node})
            && forall t :: t in TargetsOf(edges, node) ==> t in alive - {node}
  {
    var node := queue[0];
    assert node in queue;
    forall t | t in incoming
      ensures incoming[t] == InDegree(edges, alive - {node}, t) + multiset(TargetsOf(edges, node))[t]
    {
      RemovalLowersInDegree(edges, alive, node, t);
    }
    forall t | t in TargetsOf(edges, node) ensures t in alive - {node} {
      TargetsAreEdges(edges, node, t);
      ZeroInDegreeIsReady(edges, alive, t);
      assert Edge(node, t) in edges;
      assert incoming[node] == 0;
    }
  }

  lemma {:induction false} TargetsAreEdges(edges: seq<Edge>, s: string, t: string)
    ensures t in TargetsOf(edges, s) <==> Edge(s, t) in edges
    decreases |edges|
  {
    if edges != [] {
      var front := edges[..|edges| - 1];
      assert edges == front + [edges[|edges| - 1]];
      TargetsAreEdges(front, s, t);
    }
  }

  lemma StuckIsCyclic(incoming: map<string, int>, ids: seq<string>, edges: seq<Edge>, alive: set<string>)
    requires alive <= Members(ids) && alive != {}
    requires CountsInv(incoming, ids, edges, alive, []) && QueueInv([], incoming, alive)
    ensures HasCycle(edges)
  {
    forall t | t in alive ensures !IsReady(edges, alive, t) {
      ZeroInDegreeIsReady(edges, alive, t);
      assert t !in [];
    }
    StuckMeansCycle(alive, edges);
  }

  /** The steps of the flow without incoming edges, in the flow's order. */
  function Filter(ids: seq<string>, incoming: map<string, int>): (roots: seq<string>)
    ensures Distinct(ids) ==> Distinct(roots)
    ensures forall x :: x in roots <==> x in ids && x in incoming && incoming[x] == 0
  {
    if ids == [] then []
    else
      var rest := Filter(ids[1..], incoming);
      assert ids == [ids[0]] + ids[1..];
      if ids[0] in incoming && incoming[ids[0]] == 0 then [ids[0]] + rest else rest
  }

  // ---------- The whole run ----------

  /** The next `n` steps taken, fewer if the queue runs empty. */
  function Taken(q: Queueing, edges: seq<Edge>, incoming: map<string, int>, queue: seq<string>, n: nat): seq<string>
    decreases n
  {
    if n == 0 || queue == [] then []
    else
      var (counts, waiting) := Released(q, Visiting(q, TargetsOf(edges, queue[0])), incoming, queue[1..]);
      [queue[0]] + Taken(q, edges, counts, waiting, n - 1)
  }

  function Degrees(ids: seq<string>, edges: seq<Edge>): map<string, int> {
    map x | x in ids :: InDegree(edges, Members(ids), x)
  }

  function TakenOrder(q: Queueing, ids: seq<string>, edges: seq<Edge>): seq<string> {
    var incoming := Degrees(ids, edges);
    Taken(q, edges, incoming, Arrange(q, Filter(ids, incoming)), |ids|)
  }

  function Outcome(q: Queueing, ids: seq<string>, edges: seq<Edge>): Result<seq<string>, FlowError> {
    var ordered := TakenOrder(q, ids, edges);
    if |ordered| != |ids| then Err(Cycle) else Ok(ordered)
  }

  /** What holds between two steps: `ordered` has been taken, `incoming` and `queue` are right for the rest. */
  ghost predicate StateInv(q: Queueing, ids: seq<string>, edges: seq<Edge>, ordered: seq<string>,
                           incoming: map<string, int>, queue: seq<string>) {
    && OrderInv(ordered, ids, edges)
    && CountsInv(incoming, ids, edges, AliveAfter(ids, ordered), [])
    && QueueInv(queue, incoming, AliveAfter(ids, ordered)) && InQueueOrder(q, queue)
    && (q.ById? ==> PickedLeast(ordered, ids, edges, q.le))
  }

  lemma StartKeeps(q: Queueing, ids: seq<string>, edges: seq<Edge>)
    requires Trusted(q) && WellFormed(ids, edges)
    ensures StateInv(q, ids, edges, [], Degrees(ids, edges), Arrange(q, Filter(ids, Degrees(ids, edges))))
  {
    hide Arrange, InDegree;
    var roots := Filter(ids, Degrees(ids, edges));
    ArrangeInOrder(q, roots);
    ArrangeKeepsMembers(q, roots);
    assert AliveAfter(ids, []) == Members(ids);
  }

  lemma TakeKeeps(q: Queueing, ids: seq<string>, edges: seq<Edge>, ordered: seq<string>,
                  incoming: map<string, int>, queue: seq<string>)
    requires Trusted(q) && WellFormed(ids, edges) && StateInv(q, ids, edges, ordered, incoming, queue) && queue != []
    ensures |ordered| < |ids|
    ensures var targets := Visiting(q, TargetsOf(edges, queue[0]));
            var alive := AliveAfter(ids, ordered + [queue[0]]);
            && (forall t :: t in targets ==> t in alive)
            && CountsInv(incoming, ids, edges, alive, targets)
            && QueueInv(queue[1..], incoming, alive) && InQueueOrder(q, queue[1..])
            && var (counts, waiting) := Released(q, targets, incoming, queue[1..]);
               StateInv(q, ids, edges, ordered + [queue[0]], counts, waiting)
  {
    hide Released, Arrange, Visiting, TargetsOf, InDegree, InQueueOrder;
    var targets := Visiting(q, TargetsOf(edges, queue[0]));
    var alive := AliveAfter(ids, ordered);
    PopKeeps(q, queue, incoming, ids, edges, ordered, alive);
    SameMembers(targets, TargetsOf(edges, queue[0]));
    ReleasedKeeps(q, targets, incoming, queue[1..], ids, edges, alive - {queue[0]});
    MembersSize(ids);
    MembersSize(ordered);
    TakenIsWithin(ids, ordered, queue[0]);
  }

  lemma TakenIsWithin(ids: seq<string>, ordered: seq<string>, node: string)
    requires Distinct(ids) && Distinct(ordered) && Members(ordered) <= Members(ids) && node in AliveAfter(ids, ordered)
    ensures |ordered| < |ids|
  {
    MembersSize(ids);
    MembersSize(ordered);
    assert Members(ordered) + {node} <= Members(ids);
    assert |Members(ordered) + {node}| == |ordered| + 1;
    SubsetIsNoLarger(Members(ordered) + {node}, Members(ids));
  }

  lemma SubsetIsNoLarger(a: set<string>, b: set<string>)
    requires a <= b
    ensures |a| <= |b|
  {
    assert b == a + (b - a);
  }

  /** From any such state on, the run ends in a topological order, or short of one because of a cycle. */
  lemma {:induction false} RunDecides(q: Queueing, ids: seq<string>, edges: seq<Edge>, ordered: seq<string>,
                                      incoming: map<string, int>, queue: seq<string>)
    requires Trusted(q) && WellFormed(ids, edges) && StateInv(q, ids, edges, ordered, incoming, queue)
    requires |ordered| <= |ids|
    ensures var all := ordered + Taken(q, edges, incoming, queue, |ids| - |ordered|);
            && (|all| != |ids| ==> HasCycle(edges))
            && (|all| == |ids| ==> IsTopological(all, ids, edges) && !HasCycle(edges))
            && (|all| == |ids| && q.ById? ==> PicksLeast(all, edges, q.le))
    decreases |ids| - |ordered|
  {
    if queue == [] {
      assert ordered + [] == ordered;
      EmptyQueueDecides(q, incoming, ids, edges, ordered, AliveAfter(ids, ordered));
    } else {
      hide StateInv, Trusted, WellFormed, Released, IsTopological, PicksLeast, HasCycle;
      TakeKeeps(q, ids, edges, ordered, incoming, queue);
      var next := Released(q, Visiting(q, TargetsOf(edges, queue[0])), incoming, queue[1..]);
      RunDecides(q, ids, edges, ordered + [queue[0]], next.0, next.1);
      var rest := Taken(q, edges, next.0, next.1, |ids| - |ordered| - 1);
      assert (ordered + [queue[0]]) + rest == ordered + ([queue[0]] + rest);
    }
  }

  /** An order comes out exactly if the flow has no cycle; by id it takes the least ready step each time. */
  lemma OutcomeDecides(q: Queueing, ids: seq<string>, edges: seq<Edge>)
    requires Trusted(q) && WellFormed(ids, edges)
    ensures var result := Outcome(q, ids, edges);
            && (result.Ok? <==> !HasCycle(edges))
            && (result.Ok? ==> IsTopological(result.value, ids, edges))
            && (result.Ok? && q.ById? ==> PicksLeast(result.value, edges, q.le))
  {
    hide StateInv, Trusted, WellFormed, IsTopological, PicksLeast, HasCycle, Arrange, Taken;
    StartKeeps(q, ids, edges);
    var incoming := Degrees(ids, edges);
    RunDecides(q, ids, edges, [], incoming, Arrange(q, Filter(ids, incoming)));
    assert [] + TakenOrder(q, ids, edges) == TakenOrder(q, ids, edges);
  }

  lemma CountsAreDegrees(incoming: map<string, int>, ids: seq<string>, edges: seq<Edge>)
    requires CountsInv(incoming, ids, edges, Members(ids), [])
    ensures incoming == Degrees(ids, edges)
  {
    forall x | x in incoming ensures incoming[x] == Degrees(ids, edges)[x] {
      assert incoming[x] == InDegree(edges, Members(ids), x) + multiset([])[x];
    }
  }

  /**
   * Both sorters: with `ById` the queue is sorted at the start and after every push, with `Fifo` it never is.
   * An order is returned exactly when the flow has no cycle; with `ById` it takes the least ready step each time.
   */
  method Kahn(q: Queueing, ids: seq<string>, edges: seq<Edge>) returns (result: Result<seq<string>, FlowError>)
    requires Trusted(q) && WellFormed(ids, edges)
    ensures result == Outcome(q, ids, edges)
    ensures result.Ok? <==> !HasCycle(edges)
    ensures result.Err? ==> result.error == Cycle
    ensures result.Ok? ==> IsTopological(result.value, ids, edges)
    ensures result.Ok? && q.ById? ==> PicksLeast(result.value, edges, q.le)
  {
    hide Trusted, Arrange, Visiting, TargetsOf, Released, StateInv, CountsInv, QueueInv, InQueueOrder;
    hide IsTopological, PicksLeast, HasCycle, WellFormed;
    var incoming, outgoing := CountEdges(ids, edges);
    CountsAreDegrees(incoming, ids, edges);
    StartKeeps(q, ids, edges);
    var queue := Arrange(q, Filter(ids, incoming));
    var ordered: seq<string> := [];
    assert [] + TakenOrder(q, ids, edges) == TakenOrder(q, ids, edges);
    while queue != []
      invariant StateInv(q, ids, edges, ordered, incoming, queue) && |ordered| <= |ids|
      invariant ordered + Taken(q, edges, incoming, queue, |ids| - |ordered|) == TakenOrder(q, ids, edges)
      decreases |ids| - |ordered|
    {
      var node := queue[0];
      TakeKeeps(q, ids, edges, ordered, incoming, queue);
      assert node in outgoing by { NodeHasTargets(q, ids, edges, ordered, incoming, queue); }
      var targets := Visiting(q, outgoing[node]);
      RestIsTaken(q, edges, ordered, incoming, queue, |ids| - |ordered|);
      ordered := ordered + [node];
      incoming, queue := Release(q, targets, incoming, queue[1..], ids, edges, AliveAfter(ids, ordered));
    }
    assert ordered + [] == ordered;
    OutcomeDecides(q, ids, edges);
    if |ordered| != |ids| {
      return Err(Cycle);
    }
    return Ok(ordered);
  }

  /** What holds after the head has moved from the queue to the order. */
  lemma PopKeeps(q: Queueing, queue: seq<string>, incoming: map<string, int>, ids: seq<string>, edges: seq<Edge>,
                 ordered: seq<string>, alive: set<string>)
    requires Trusted(q) && WellFormed(ids, edges) && queue != []
    requires alive == AliveAfter(ids, ordered) && OrderInv(ordered, ids, edges)
    requires CountsInv(incoming, ids, edges, alive, []) && QueueInv(queue, incoming, alive) && InQueueOrder(q, queue)
    requires q.ById? ==> PickedLeast(ordered, ids, edges, q.le)
    ensures var node := queue[0];
            && node in alive
            && AliveAfter(ids, ordered + [node]) == alive - {node} && OrderInv(ordered + [node], ids, edges)
            && CountsInv(incoming, ids, edges, alive - {node}, TargetsOf(edges, node))
            && QueueInv(queue[1..], incoming, alive - {node}) && InQueueOrder(q, queue[1..])
            && (forall t :: t in TargetsOf(edges, node) ==> t in alive - {node})
            && (q.ById? ==> PickedLeast(ordered + [node], ids, edges, q.le))
  {
    var node := queue[0];
    assert node in queue && node in alive;
    ZeroInDegreeIsReady(edges, alive, node);
    if q.ById? {
      HeadIsLeast(queue, incoming, ids, edges, alive, q.le);
      PickedLeastExtends(ordered, node, ids, edges, q.le);
    }
    SuccessorsAreAlive(ordered, ids, edges);
    AfterShift(queue, incoming, ids, edges, alive);
    OrderExtends(ordered, node, ids, edges);
  }

  /** With nothing left to take, either everything is in order or what remains goes round in circles. */
  lemma EmptyQueueDecides(q: Queueing, incoming: map<string, int>, ids: seq<string>, edges: seq<Edge>,
                          ordered: seq<string>, alive: set<string>)
    requires WellFormed(ids, edges)
    requires alive == AliveAfter(ids, ordered) && OrderInv(ordered, ids, edges)
    requires CountsInv(incoming, ids, edges, alive, []) && QueueInv([], incoming, alive)
    requires q.ById? ==> PickedLeast(ordered, ids, edges, q.le)
    ensures |ordered| != |ids| ==> HasCycle(edges)
    ensures |ordered| == |ids| ==> IsTopological(ordered, ids, edges) && !HasCycle(edges)
    ensures |ordered| == |ids| && q.ById? ==> PicksLeast(ordered, edges, q.le)
  {
    MembersSize(ids);
    MembersSize(ordered);
    if |ordered| != |ids| {
      assert Members(ids) == Members(ordered) + alive;
      assert alive == {} ==> Members(ids) == Members(ordered);
      StuckIsCyclic(incoming, ids, edges, alive);
    } else {
      AllOrdered(ordered, ids);
      FollowsIsTopological(ordered, ids, edges);
      OrderExcludesCycle(ordered, ids, edges);
      if q.ById? {
        PickedLeastIsPicksLeast(ordered, ids, edges, q.le);
      }
    }
  }

  lemma AllOrdered(ordered: seq<string>, ids: seq<string>)
    requires Distinct(ordered) && Distinct(ids) && Members(ordered) <= Members(ids) && |ordered| == |ids|
    ensures Members(ordered) == Members(ids)
  {
    MembersSize(ids);
    MembersSize(ordered);
    assert |Members(ids) - Members(ordered)| == 0;
  }

  lemma SuccessorsAreAlive(ordered: seq<string>, ids: seq<string>, edges: seq<Edge>)
    requires WellFormed(ids, edges) && OrderInv(ordered, ids, edges)
    ensures forall e :: e in edges && e.source in AliveAfter(ids, ordered) ==> e.target in AliveAfter(ids, ordered)
  {
    forall e | e in edges && e.source in AliveAfter(ids, ordered) ensures e.target in AliveAfter(ids, ordered) {
      forall j | 0 <= j < |ordered| ensures ordered[j] != e.target {
        assert e.source !in Members(ordered);
        assert e.source !in ordered[..j];
      }
    }
  }

  lemma NodeHasTargets(q: Queueing, ids: seq<string>, edges: seq<Edge>, ordered: seq<string>,
                       incoming: map<string, int>, queue: seq<string>)
    requires StateInv(q, ids, edges, ordered, incoming, queue) && queue != []
    ensures queue[0] in Members(ids)
  {
    assert queue[0] in queue;
  }

  lemma RestIsTaken(q: Queueing, edges: seq<Edge>, ordered: seq<string>, incoming: map<string, int>, queue: seq<string>,
                    n: nat)
    requires queue != [] && n > 0
    ensures var (counts, waiting) := Released(q, Visiting(q, TargetsOf(edges, queue[0])), incoming, queue[1..]);
            (ordered + [queue[0]]) + Taken(q, edges, counts, waiting, n - 1) == ordered + Taken(q, edges, incoming, queue, n)
  {
    hide Released;
  }

  /** `sortNodes` of the execution plan compiler. */
  method SortNodes(ids: seq<string>, edges: seq<Edge>, le: Order<string>) returns (result: Result<seq<string>, FlowError>)
    requires WellFormed(ids, edges) && IsPreorder(le)
    ensures result.Ok? <==> !HasCycle(edges)
    ensures result.Err? ==> result.error == Cycle
    ensures result.Ok? ==> IsTopological(result.value, ids, edges) && PicksLeast(result.value, edges, le)
    ensures result.Ok? ==>
              forall other :: IsTopological(other, ids, edges) ==> LexLe(result.value, other, le)
    ensures result == Outcome(ById(le), ids, edges)
  {
    result := Kahn(ById(le), ids, edges);
    if result.Ok? {
      forall other | IsTopological(other, ids, edges) ensures LexLe(result.value, other, le) {
        PicksLeastIsLeast(result.value, other, ids, edges, le);
      }
    }
  }

  /** `sortNodes` of the flow suite compiler, which also rejects edges to missing steps. */
  method SortNodesFifo(ids: seq<string>, edges: seq<Edge>) returns (result: Result<seq<string>, FlowError>)
    requires Distinct(ids)
    ensures result.Ok? <==> WellFormed(ids, edges) && !HasCycle(edges)
    ensures result.Err? ==> result.error == if WellFormed(ids, edges) then Cycle else MissingNode
    ensures result.Ok? ==> IsTopological(result.value, ids, edges)
  {
    for i := 0 to |edges|
      invariant forall e :: e in edges[..i] ==> e.source in ids && e.target in ids
    {
      assert edges[i] in edges;
      if edges[i].source !in ids || edges[i].target !in ids {
        return Err(MissingNode);
      }
    }
    assert edges[..|edges|] == edges;
    result := Kahn(Fifo, ids, edges);
  }
}
