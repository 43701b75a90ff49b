/**
 Kahn's algorithm over a graph given by its edge list, as the planner and the validator share it.
 The drain lists every node exactly when the edges have no cycle.
 */
module Topology {
  type Id = nat

  datatype Edge = Edge(src: Id, dst: Id)

  /** Where the edges out of `u` lead, in the order they were added; repeated edges repeat. */
  function Targets(es: seq<Edge>, u: Id): (r: seq<Id>) {
    if es == [] then []
    else
      var last := es[|es| - 1];
      Targets(es[..|es| - 1], u) + if last.src == u then [last.dst] else []
  }

  function Count(s: seq<Id>, v: Id): nat {
    if s == [] then 0 else Count(s[..|s| - 1], v) + if s[|s| - 1] == v then 1 else 0
  }

  /** Edges into `v` whose source is not done. */
  function Waiting(es: seq<Edge>, done: set<Id>, v: Id): nat {
    if es == [] then 0
    else
      var last := es[|es| - 1];
      Waiting(es[..|es| - 1], done, v) + if last.dst == v && last.src !in done then 1 else 0
  }

  predicate Distinct(s: seq<Id>) { forall i, j :: 0 <= i < j < |s| ==> s[i] != s[j] }

  function Members(s: seq<Id>): set<Id> { set x | x in s }

  // ----- counting -----

  lemma {:induction false} TargetsAreEdges(es: seq<Edge>, u: Id, v: Id)
    ensures v in Targets(es, u) <==> Edge(u, v) in es
  {
    if es != [] {
      TargetsAreEdges(es[..|es| - 1], u, v);
      assert es == es[..|es| - 1] + [es[|es| - 1]];
    }
  }

  lemma CountAppend(s: seq<Id>, x: Id, v: Id)
    ensures Count(s + [x], v) == Count(s, v) + if x == v then 1 else 0
  {
    assert (s + [x])[..|s|] == s;
  }

  /** Finishing `u` releases exactly its edges. */
  lemma {:induction false} WaitingStep(es: seq<Edge>, done: set<Id>, u: Id, v: Id)
    requires u !in done
    ensures Waiting(es, done, v) == Waiting(es, done + {u}, v) + Count(Targets(es, u), v)
  {
    if es != [] {
      var last := es[|es| - 1];
      WaitingStep(es[..|es| - 1], done, u, v);
      var front := Targets(es[..|es| - 1], u);
      assert front + [] == front;
      CountAppend(front, last.dst, v);
    }
  }

  lemma {:induction false} WaitingZero(es: seq<Edge>, done: set<Id>, v: Id)
    ensures Waiting(es, done, v) == 0 <==> forall e :: e in es && e.dst == v ==> e.src in done
  {
    if es != [] {
      WaitingZero(es[..|es| - 1], done, v);
      assert es == es[..|es| - 1] + [es[|es| - 1]];
    }
  }

  lemma CountTake(s: seq<Id>, j: nat, v: Id)
    requires j < |s|
    ensures Count(s[..j + 1], v) == Count(s[..j], v) + if s[j] == v then 1 else 0
  {
    assert s[..j + 1] == s[..j] + [s[j]];
    CountAppend(s[..j], s[j], v);
  }

  lemma {:induction false} CountPart(s: seq<Id>, j: nat, v: Id)
    requires j <= |s|
    ensures Count(s[..j], v) <= Count(s, v)
    decreases |s| - j
  {
    if j < |s| {
      CountTake(s, j, v);
      CountPart(s, j + 1, v);
    } else {
      assert s[..j] == s;
    }
  }

  lemma DistinctMembers(s: seq<Id>)
    requires Distinct(s)
    ensures |Members(s)| == |s|
  {
    if s != [] {
      var front := s[..|s| - 1];
      DistinctMembers(front);
      assert s == front + [s[|s| - 1]];
      assert Members(s) == Members(front) + {s[|s| - 1]};
      assert s[|s| - 1] !in front;
    }
  }

  lemma DistinctAt(s: seq<Id>, i: nat, j: nat)
    requires Distinct(s) && i < |s| && j < |s| && s[i] == s[j]
    ensures i == j
  {}

  lemma MembersTake(q: seq<Id>, i: nat)
    requires Distinct(q) && i < |q|
    ensures q[i] in Members(q) && q[i] !in Members(q[..i])
    ensures Members(q[..i + 1]) == Members(q[..i]) + {q[i]}
  {
    assert q[..i + 1] == q[..i] + [q[i]];
  }

  lemma MembersEnds(q: seq<Id>)
    ensures Members(q[..0]) == {} && Members(q[..|q|]) == Members(q)
  {
    assert q[..|q|] == q;
  }

  lemma SubsetSize(a: set<Id>, b: set<Id>)
    requires a <= b
    ensures |a| <= |b| && (|a| == |b| ==> a == b)
  {
    assert b == a + (b - a);
  }

  // ----- cycles -----

  predicate Path(es: seq<Edge>, p: seq<Id>) {
    |p| > 0 && forall i :: 0 <= i < |p| - 1 ==> Edge(p[i], p[i + 1]) in es
  }

  /** A closed walk along at least one edge. */
  predicate Cycle(es: seq<Edge>, p: seq<Id>) { |p| > 1 && Path(es, p) && p[0] == p[|p| - 1] }

  ghost predicate Acyclic(es: seq<Edge>) { forall p :: !Cycle(es, p) }

  /** Every edge goes forward in the sequence. */
  predicate Topological(es: seq<Edge>, order: seq<Id>) {
    forall e, j :: e in es && 0 <= j < |order| && order[j] == e.dst ==> e.src in order[..j]
  }

  lemma {:induction false} PathBefore(es: seq<Edge>, order: seq<Id>, p: seq<Id>, j: nat)
    requires Topological(es, order) && Distinct(order) && Path(es, p) && |p| > 1
    requires j < |order| && order[j] == p[|p| - 1]
    ensures exists i :: 0 <= i < j && order[i] == p[0]
    decreases |p|
  {
    var m := |p| - 2;
    var e := Edge(p[m], p[m + 1]);
    assert e in es && e.src in order[..j];
    var i :| 0 <= i < j && order[i] == p[m];
    if m > 0 { PathBefore(es, order, p[..m + 1], i); }
  }

  lemma TopologicalIsAcyclic(es: seq<Edge>, order: seq<Id>)
    requires Topological(es, order) && Distinct(order)
    requires forall e :: e in es ==> e.dst in order
    ensures Acyclic(es)
  {
    forall p ensures !Cycle(es, p) {
      if Cycle(es, p) {
        var last := |p| - 1;
        assert Edge(p[last - 1], p[last - 1 + 1]) in es;
        var j :| 0 <= j < |order| && order[j] == p[last];
        PathBefore(es, order, p, j);
      }
    }
  }

  ghost predicate HasSource(es: seq<Edge>, s: set<Id>, v: Id) { exists u :: u in s && Edge(u, v) in es }

  /** Every member has a predecessor among the members. */
  ghost predicate Stuck(es: seq<Edge>, s: set<Id>) { forall v {:trigger HasSource(es, s, v)} :: v in s ==> HasSource(es, s, v) }

  lemma PathExtends(es: seq<Edge>, p: seq<Id>, v: Id)
    requires Path(es, p) && Edge(p[|p| - 1], v) in es
    ensures Path(es, p + [v])
  {
    var q := p + [v];
    forall i | 0 <= i < |q| - 1 ensures Edge(q[i], q[i + 1]) in es {
      if i < |p| - 1 { assert Edge(p[i], p[i + 1]) in es; }
    }
  }

  lemma {:induction false} WalkBack(es: seq<Edge>, s: set<Id>, v: Id, n: nat) returns (p: seq<Id>)
    requires Stuck(es, s) && v in s
    ensures |p| == n + 1 && Path(es, p) && p[n] == v
    ensures forall i :: 0 <= i < |p| ==> p[i] in s
    decreases n
  {
    if n == 0 { return [v]; }
    assert HasSource(es, s, v);
    var u :| u in s && Edge(u, v) in es;
    var q := WalkBack(es, s, u, n - 1);
    PathExtends(es, q, v);
    p := q + [v];
  }

  lemma PathPart(es: seq<Edge>, p: seq<Id>, i: nat, j: nat)
    requires Path(es, p) && i < j <= |p|
    ensures Path(es, p[i..j])
  {
    var c := p[i..j];
    forall k | 0 <= k < |c| - 1 ensures Edge(c[k], c[k + 1]) in es {
      assert Edge(p[i + k], p[i + k + 1]) in es;
    }
  }

  /** A non-empty stuck set contains a cycle, by pigeonhole on a long enough walk. */
  lemma StuckHasCycle(es: seq<Edge>, s: set<Id>)
    requires Stuck(es, s) && s != {}
    ensures !Acyclic(es)
  {
    var v :| v in s;
    var p := WalkBack(es, s, v, |s|);
    assert !Distinct(p) by {
      if Distinct(p) {
        DistinctMembers(p);
        SubsetSize(Members(p), s);
      }
    }
    var i, j :| 0 <= i < j < |p| && p[i] == p[j];
    PathPart(es, p, i, j + 1);
    assert Cycle(es, p[i..j + 1]);
  }

  // ----- the drain -----

  /** The adjacency lists and indegrees that adding the edges one by one leaves. */
  ghost predicate Tables(ids: set<Id>, es: seq<Edge>, adj: map<Id, seq<Id>>, indegree: map<Id, int>) {
    && indegree.Keys == ids
    && (forall e :: e in es ==> e.src in ids && e.dst in ids)
    && (forall u :: u in ids ==> Listed(adj, u) == Targets(es, u))
    && (forall v :: v in ids ==> indegree[v] == Waiting(es, {}, v))
  }

  /** Reading a missing entry gives the empty list. */
  function Listed(adj: map<Id, seq<Id>>, u: Id): seq<Id> { if u in adj then adj[u] else [] }

  lemma TablesEmpty(ids: set<Id>, indegree: map<Id, int>)
    requires indegree.Keys == ids && forall v :: v in ids ==> indegree[v] == 0
    ensures Tables(ids, [], map[], indegree)
  {}

  /** Adding one edge to the tables. */
  lemma TablesAdd(ids: set<Id>, es: seq<Edge>, adj: map<Id, seq<Id>>, indegree: map<Id, int>, u: Id, v: Id)
    requires Tables(ids, es, adj, indegree) && u in ids && v in ids
    ensures Tables(ids, es + [Edge(u, v)], adj[u := Listed(adj, u) + [v]], indegree[v := indegree[v] + 1])
  {
    hide Targets, Waiting;
    var es' := es + [Edge(u, v)];
    forall w | w in ids
      ensures Listed(adj[u := Listed(adj, u) + [v]], w) == Targets(es', w)
      ensures indegree[v := indegree[v] + 1][w] == Waiting(es', {}, w)
    {
      EdgeAdds(es, u, v, w);
    }
  }

  lemma EdgeAdds(es: seq<Edge>, u: Id, v: Id, w: Id)
    ensures Targets(es + [Edge(u, v)], w) == if w == u then Targets(es, w) + [v] else Targets(es, w)
    ensures Waiting(es + [Edge(u, v)], {}, w) == Waiting(es, {}, w) + if w == v then 1 else 0
  {
    assert (es + [Edge(u, v)])[..|es|] == es;
    assert Targets(es, w) + [] == Targets(es, w);
  }

  /** The state between two turns of the outer loop. */
  ghost predicate Draining(ids: set<Id>, es: seq<Edge>, indegree: map<Id, int>, order: seq<Id>, queue: seq<Id>) {
    && indegree.Keys == ids && Distinct(order + queue) && Members(order + queue) <= ids
    && (forall v :: v in ids ==> indegree[v] == Waiting(es, Members(order), v))
    && (forall v :: v in ids ==> (v in order + queue <==> indegree[v] == 0))
    && Topological(es, order + queue)
  }

  /** Nodes without incoming edges, in whatever order the map is walked. */
  method Seed(ids: set<Id>, indegree: map<Id, int>) returns (queue: seq<Id>)
    requires indegree.Keys == ids
    ensures Distinct(queue) && Members(queue) <= ids
    ensures forall v :: v in ids ==> (v in queue <==> indegree[v] == 0)
  {
    queue := [];
    var left := ids;
    while left != {}
      invariant left <= ids && Distinct(queue) && Members(queue) <= ids - left
      invariant forall v :: v in ids - left ==> (v in queue <==> indegree[v] == 0)
      decreases |left|
    {
      var v :| v in left;
      left := left - {v};
      if indegree[v] == 0 { queue := queue + [v]; }
    }
  }

  /** The state inside the inner loop: `u` has been listed and `j` of its edges released. */
  ghost predicate Releasing(ids: set<Id>, es: seq<Edge>, indegree: map<Id, int>, order: seq<Id>, u: Id, queue: seq<Id>, j: nat) {
    && indegree.Keys == ids && j <= |Targets(es, u)| && u in ids && u !in order
    && Distinct(order + [u] + queue) && Members(order + [u] + queue) <= ids
    && (forall v :: v in ids ==> indegree[v] == Waiting(es, Members(order), v) - Count(Targets(es, u)[..j], v))
    && (forall v :: v in ids ==> (v in order + [u] + queue <==> indegree[v] == 0))
    && Topological(es, order + [u] + queue)
  }

  lemma ReleaseBegins(ids: set<Id>, es: seq<Edge>, indegree: map<Id, int>, order: seq<Id>, queue: seq<Id>)
    requires Draining(ids, es, indegree, order, queue) && queue != []
    ensures Releasing(ids, es, indegree, order, queue[0], queue[1..], 0)
  {
    var u := queue[0];
    assert order + queue == order + [u] + queue[1..];
    assert (order + queue)[|order|] == u;
    assert u in Members(order + queue);
    forall i | 0 <= i < |order| ensures order[i] != u { assert (order + queue)[i] == order[i]; }
  }

  /** When an edge is released and its target has no other waiting edge, the target may be queued. */
  lemma ReleaseOne(ids: set<Id>, es: seq<Edge>, indegree: map<Id, int>, order: seq<Id>, u: Id, queue: seq<Id>, j: nat)
    requires Releasing(ids, es, indegree, order, u, queue, j) && j < |Targets(es, u)|
    requires forall e :: e in es ==> e.src in ids && e.dst in ids
    ensures var v := Targets(es, u)[j];
      && v in ids
      && (indegree[v] - 1 != 0 ==> Releasing(ids, es, indegree[v := indegree[v] - 1], order, u, queue, j + 1))
      && (indegree[v] - 1 == 0 ==> Releasing(ids, es, indegree[v := indegree[v] - 1], order, u, queue + [v], j + 1))
  {
    var ts := Targets(es, u);
    var v := ts[j];
    TargetsAreEdges(es, u, v);
    assert Edge(u, v) in es;
    forall w | w in ids ensures Count(ts[..j + 1], w) == Count(ts[..j], w) + if v == w then 1 else 0 {
      CountTake(ts, j, w);
    }
    WaitingStep(es, Members(order), u, v);
    CountPart(ts, j + 1, v);
    var before := order + [u] + queue;
    if indegree[v] - 1 == 0 {
      assert v !in before;
      assert order + [u] + (queue + [v]) == before + [v];
      QueueOne(es, order, u, queue, v);
    }
  }

  /** A node whose last waiting edge has been released has all its sources listed. */
  lemma QueueOne(es: seq<Edge>, order: seq<Id>, u: Id, queue: seq<Id>, v: Id)
    requires Topological(es, order + [u] + queue) && u !in order
    requires v !in order + [u] + queue
    requires Waiting(es, Members(order), v) <= Count(Targets(es, u), v)
    ensures Topological(es, order + [u] + (queue + [v]))
  {
    var before, after := order + [u] + queue, order + [u] + (queue + [v]);
    assert after == before + [v];
    WaitingStep(es, Members(order), u, v);
    WaitingZero(es, Members(order) + {u}, v);
    forall e, j | e in es && 0 <= j < |after| && after[j] == e.dst ensures e.src in after[..j] {
      if j < |before| {
        assert before[j] == e.dst && after[..j] == before[..j];
      } else {
        assert e.src in Members(order) + {u};
        assert after[..j] == before;
      }
    }
  }

  lemma ReleaseEnds(ids: set<Id>, es: seq<Edge>, indegree: map<Id, int>, order: seq<Id>, u: Id, queue: seq<Id>)
    requires Releasing(ids, es, indegree, order, u, queue, |Targets(es, u)|)
    ensures Draining(ids, es, indegree, order + [u], queue)
  {
    assert Members(order + [u]) == Members(order) + {u};
    assert Targets(es, u)[..|Targets(es, u)|] == Targets(es, u);
    forall v | v in ids ensures indegree[v] == Waiting(es, Members(order + [u]), v) {
      WaitingStep(es, Members(order), u, v);
    }
  }

  /** The inner loop: every edge out of `u` is released, and targets left without waiting edges are queued. */
  method Release(ids: set<Id>, targets: seq<Id>, indegree0: map<Id, int>, ghost es: seq<Edge>, ghost order: seq<Id>, u: Id, queue0: seq<Id>)
    returns (indegree: map<Id, int>, queue: seq<Id>)
    requires targets == Targets(es, u) && forall e :: e in es ==> e.src in ids && e.dst in ids
    requires Releasing(ids, es, indegree0, order, u, queue0, 0)
    ensures Draining(ids, es, indegree, order + [u], queue)
  {
    indegree, queue := indegree0, queue0;
    for j := 0 to |targets|
      invariant Releasing(ids, es, indegree, order, u, queue, j)
    {
      ReleaseOne(ids, es, indegree, order, u, queue, j);
      var v := targets[j];
      indegree := indegree[v := indegree[v] - 1];
      if indegree[v] == 0 { queue := queue + [v]; }
    }
    ReleaseEnds(ids, es, indegree, order, u, queue);
  }

  /** Kahn's loop. The listing is topological, and complete exactly when there is no cycle. */
  method Drain(ids: set<Id>, adj: map<Id, seq<Id>>, indegree0: map<Id, int>, ghost es: seq<Edge>) returns (order: seq<Id>)
    requires Tables(ids, es, adj, indegree0)
    ensures Distinct(order) && Members(order) <= ids && Topological(es, order)
    ensures |order| == |ids| <==> Acyclic(es)
    ensures |order| <= |ids|
  {
    hide Topological, Waiting, Acyclic;
    var indegree := indegree0;
    order := [];
    var queue := Seed(ids, indegree);
    DrainBegins(ids, es, indegree, queue);
    while queue != []
      invariant Draining(ids, es, indegree, order, queue)
      decreases |ids| - |order|
    {
      var u := queue[0];
      ReleaseBegins(ids, es, indegree, order, queue);
      indegree, queue := Release(ids, Listed(adj, u), indegree, es, order, u, queue[1..]);
      order := order + [u];
      ListedFit(ids, order, queue);
    }
    DrainEnds(ids, es, indegree, order);
  }

  lemma DrainBegins(ids: set<Id>, es: seq<Edge>, indegree: map<Id, int>, queue: seq<Id>)
    requires indegree.Keys == ids && Distinct(queue) && Members(queue) <= ids
    requires forall v :: v in ids ==> indegree[v] == Waiting(es, {}, v)
    requires forall v :: v in ids ==> (v in queue <==> indegree[v] == 0)
    ensures Draining(ids, es, indegree, [], queue)
  {
    assert [] + queue == queue && Members([]) == {};
    forall j | 0 <= j < |queue| ensures forall e :: e in es ==> e.dst != queue[j] {
      assert queue[j] in Members(queue);
      WaitingZero(es, {}, queue[j]);
    }
  }

  lemma ListedFit(ids: set<Id>, order: seq<Id>, queue: seq<Id>)
    requires Distinct(order + queue) && Members(order + queue) <= ids
    ensures |order| <= |ids|
  {
    DistinctMembers(order + queue);
    SubsetSize(Members(order + queue), ids);
  }

  lemma DrainEnds(ids: set<Id>, es: seq<Edge>, indegree: map<Id, int>, order: seq<Id>)
    requires Draining(ids, es, indegree, order, [])
    requires forall e :: e in es ==> e.src in ids && e.dst in ids
    ensures Distinct(order) && Members(order) <= ids && Topological(es, order)
    ensures |order| <= |ids| && (|order| == |ids| <==> Acyclic(es))
  {
    assert order + [] == order;
    DistinctMembers(order);
    SubsetSize(Members(order), ids);
    if |order| == |ids| {
      assert Members(order) == ids;
      TopologicalIsAcyclic(es, order);
    } else {
      var rest := ids - Members(order);
      assert rest != {} by {
        if rest == {} {
          assert forall v :: v in ids && v !in Members(order) ==> v in rest;
          SubsetSize(ids, Members(order));
        }
      }
      forall v | v in rest ensures HasSource(es, rest, v) {
        WaitingZero(es, Members(order), v);
        var e :| e in es && e.dst == v && e.src !in Members(order);
        assert Edge(e.src, v) in es;
      }
      StuckHasCycle(es, rest);
    }
  }
}
