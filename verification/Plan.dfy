/**
 The execution planner: producers, unique dependencies, Kahn's algorithm, and the emitted
 operations. It accepts a graph exactly when node ids are distinct and the producer-to-consumer
 relation has no cycle.
 */
module Plan {
  import opened Layout
  import opened Ir
  import opened Topology

  datatype Op = Op(id: NodeId, name: string, opName: string, opVersion: string, dependencies: seq<NodeId>,
                   inputs: seq<TensorId>, outputs: seq<TensorId>)

  datatype ExecutionPlan = ExecutionPlan(version: Version, name: string, ops: seq<Op>, inputs: seq<TensorId>, outputs: seq<TensorId>)

  datatype PlanError = HasCycle

  // ----- what depends on what -----

  /** The node that writes `t`; when several do, the last one. */
  function LastProducer(nodes: seq<Node>, t: TensorId): Option<NodeId> {
    if nodes == [] then None
    else
      var last := nodes[|nodes| - 1];
      if t in last.outputs then Some(last.id) else LastProducer(nodes[..|nodes| - 1], t)
  }

  /** Node `n` reads a tensor that node `u` writes. Reading one's own output does not count. */
  predicate Reads(nodes: seq<Node>, n: Node, u: NodeId) { ReadsAmong(nodes, n.inputs, n.id, u) }

  predicate ReadsAmong(nodes: seq<Node>, inputs: seq<TensorId>, self: NodeId, u: NodeId) {
    u != self && exists t :: t in inputs && LastProducer(nodes, t) == Some(u)
  }

  lemma ReadsOneMore(nodes: seq<Node>, inputs: seq<TensorId>, t: TensorId, self: NodeId, u: NodeId)
    ensures ReadsAmong(nodes, inputs + [t], self, u)
        <==> ReadsAmong(nodes, inputs, self, u) || (u != self && LastProducer(nodes, t) == Some(u))
  {
    assert t in inputs + [t];
    assert forall x :: x in inputs ==> x in inputs + [t];
  }

  predicate Feeds(nodes: seq<Node>, u: NodeId, v: NodeId) { exists n :: n in nodes && n.id == v && Reads(nodes, n, u) }

  predicate FeedCycle(nodes: seq<Node>, p: seq<NodeId>) {
    |p| > 1 && p[0] == p[|p| - 1] && forall i :: 0 <= i < |p| - 1 ==> Feeds(nodes, p[i], p[i + 1])
  }

  ghost predicate NoFeedCycle(nodes: seq<Node>) { forall p :: !FeedCycle(nodes, p) }

  /** Node number `i` is the last one that writes the tensor. */
  predicate LastWriter(nodes: seq<Node>, t: TensorId, i: nat) {
    i < |nodes| && t in nodes[i].outputs && forall j :: i < j < |nodes| ==> t !in nodes[j].outputs
  }

  /** The producer of a tensor is the last node that writes it. */
  lemma {:induction false} LastWriterIs(nodes: seq<Node>, t: TensorId)
    ensures LastProducer(nodes, t).Some? <==> exists i: nat :: LastWriter(nodes, t, i)
    ensures forall i: nat :: LastWriter(nodes, t, i) ==> LastProducer(nodes, t) == Some(nodes[i].id)
  {
    if nodes != [] {
      var front, n := nodes[..|nodes| - 1], |nodes| - 1;
      LastWriterIs(front, t);
      if t in nodes[n].outputs {
        assert LastWriter(nodes, t, n);
      } else {
        forall i: nat | i < n ensures LastWriter(front, t, i) <==> LastWriter(nodes, t, i) { assert forall j :: 0 <= j < n ==> front[j] == nodes[j]; }
      }
    }
  }

  /** Node number `k`, called `v`, reads a tensor that node number `i`, called `u`, is the last to write. */
  predicate FeedsBy(nodes: seq<Node>, u: NodeId, v: NodeId, k: nat, t: TensorId, i: nat) {
    && k < |nodes| && nodes[k].id == v && t in nodes[k].inputs
    && i < |nodes| && nodes[i].id == u && t in nodes[i].outputs && forall j :: i < j < |nodes| ==> t !in nodes[j].outputs
  }

  /** One node feeds another exactly when the other reads a tensor that the one is the last to write; a node does not feed itself. */
  lemma FeedsMeans(nodes: seq<Node>, u: NodeId, v: NodeId)
    ensures Feeds(nodes, u, v) <==> u != v && exists k: nat, t, i: nat :: FeedsBy(nodes, u, v, k, t, i)
  {
    forall t ensures LastProducer(nodes, t) == Some(u) <==> exists i: nat :: LastWriter(nodes, t, i) && nodes[i].id == u { LastWriterIs(nodes, t); }
    hide LastProducer;
    if Feeds(nodes, u, v) {
      var n :| n in nodes && n.id == v && Reads(nodes, n, u);
      var k :| 0 <= k < |nodes| && nodes[k] == n;
      var t :| t in n.inputs && LastProducer(nodes, t) == Some(u);
      var i: nat :| LastWriter(nodes, t, i) && nodes[i].id == u;
      assert FeedsBy(nodes, u, v, k, t, i);
    }
    if k: nat, t, i: nat :| u != v && FeedsBy(nodes, u, v, k, t, i) {
      assert LastWriter(nodes, t, i);
      assert nodes[k] in nodes && Reads(nodes, nodes[k], u);
    }
  }

  function Ids(nodes: seq<Node>): (r: seq<NodeId>)
    ensures |r| == |nodes| && forall i :: 0 <= i < |r| ==> r[i] == nodes[i].id
  {
    seq(|nodes|, i requires 0 <= i < |nodes| => nodes[i].id)
  }

  function OpIds(ops: seq<Op>): (r: seq<NodeId>)
    ensures |r| == |ops| && forall i :: 0 <= i < |r| ==> r[i] == ops[i].id
  {
    seq(|ops|, i requires 0 <= i < |ops| => ops[i].id)
  }

  predicate IsOpOf(op: Op, n: Node) {
    op.id == n.id && op.name == n.name && op.opName == n.opName && op.opVersion == n.opVersion
    && op.inputs == n.inputs && op.outputs == n.outputs
  }

  predicate FromNode(nodes: seq<Node>, op: Op) { exists n :: n in nodes && IsOpOf(op, n) }

  /** Each operation lists exactly its dependencies, once each, and all of them come earlier. */
  ghost predicate InOrder(nodes: seq<Node>, ops: seq<Op>) {
    forall i :: 0 <= i < |ops| ==>
      && Distinct(ops[i].dependencies)
      && (forall u :: u in ops[i].dependencies <==> Feeds(nodes, u, ops[i].id))
      && (forall u :: u in ops[i].dependencies ==> u in OpIds(ops)[..i])
  }

  /** The operations are the nodes, each once. */
  ghost predicate Covers(nodes: seq<Node>, ops: seq<Op>) {
    && |ops| == |nodes| && Distinct(OpIds(ops)) && Members(OpIds(ops)) == Members(Ids(nodes))
    && forall i :: 0 <= i < |ops| ==> FromNode(nodes, ops[i])
  }

  // ----- the tables -----

  method Producers(nodes: seq<Node>) returns (producer: map<TensorId, NodeId>)
    ensures forall t :: LastProducer(nodes, t) == if t in producer then Some(producer[t]) else None
    ensures forall t :: t in producer ==> producer[t] in Ids(nodes)
    ensures forall t, i: nat :: LastWriter(nodes, t, i) ==> t in producer && producer[t] == nodes[i].id
  {
    producer := map[];
    for i := 0 to |nodes|
      invariant forall t :: LastProducer(nodes[..i], t) == if t in producer then Some(producer[t]) else None
      invariant forall t :: t in producer ==> producer[t] in Ids(nodes)
    {
      var n := nodes[i];
      assert nodes[..i + 1][..i] == nodes[..i];
      assert Ids(nodes)[i] == n.id;
      for j := 0 to |n.outputs|
        invariant forall t :: t in producer ==> producer[t] in Ids(nodes)
        invariant forall t :: (if t in n.outputs[..j] then Some(n.id) else LastProducer(nodes[..i], t))
                              == if t in producer then Some(producer[t]) else None
      {
        producer := producer[n.outputs[j] := n.id];
        assert n.outputs[..j + 1] == n.outputs[..j] + [n.outputs[j]];
      }
      assert n.outputs[..|n.outputs|] == n.outputs;
    }
    assert nodes[..|nodes|] == nodes;
    forall t, i: nat | LastWriter(nodes, t, i) ensures t in producer && producer[t] == nodes[i].id { LastWriterIs(nodes, t); }
  }

  method UniqueDeps(nodes: seq<Node>, n: Node, producer: map<TensorId, NodeId>) returns (deps: set<NodeId>)
    requires forall t :: LastProducer(nodes, t) == if t in producer then Some(producer[t]) else None
    ensures forall u :: u in deps <==> Reads(nodes, n, u)
  {
    deps := {};
    for j := 0 to |n.inputs|
      invariant forall u :: u in deps <==> ReadsAmong(nodes, n.inputs[..j], n.id, u)
    {
      var t := n.inputs[j];
      assert n.inputs[..j + 1] == n.inputs[..j] + [t];
      forall u { ReadsOneMore(nodes, n.inputs[..j], t, n.id, u); }
      if t in producer && producer[t] != n.id { deps := deps + {producer[t]}; }
    }
    assert n.inputs[..|n.inputs|] == n.inputs;
  }

  /** Edges out of the first `i` nodes' inputs. */
  ghost predicate EdgesOf(nodes: seq<Node>, i: nat, es: seq<Edge>)
    requires i <= |nodes|
  {
    forall u, v :: Edge(u, v) in es <==> exists k :: 0 <= k < i && nodes[k].id == v && Reads(nodes, nodes[k], u)
  }

  ghost predicate DepsOf(es: seq<Edge>, deps: map<NodeId, seq<NodeId>>) {
    forall u, v :: u in Listed(deps, v) <==> Edge(u, v) in es
  }

  /** While ids are distinct, no dependency is listed twice and unvisited nodes have none. */
  ghost predicate DepsOnce(nodes: seq<Node>, i: nat, deps: map<NodeId, seq<NodeId>>)
    requires i <= |nodes|
  {
    Distinct(Ids(nodes)) ==>
      (forall v :: Distinct(Listed(deps, v))) && (forall k :: i <= k < |nodes| ==> Listed(deps, nodes[k].id) == [])
  }

  /** The edges from `done` to `v` have been added to both tables. */
  ghost predicate Added(es0: seq<Edge>, deps0: map<NodeId, seq<NodeId>>, v: NodeId, done: set<NodeId>, es: seq<Edge>,
                        deps: map<NodeId, seq<NodeId>>)
  {
    && DepsOf(es, deps)
    && (forall e :: e in es <==> e in es0 || (e.dst == v && e.src in done))
    && (forall w :: w != v ==> Listed(deps, w) == Listed(deps0, w))
    && (Listed(deps0, v) == [] ==> Distinct(Listed(deps, v)) && forall u :: u in Listed(deps, v) ==> u in done)
  }

  lemma AddedStep(es0: seq<Edge>, deps0: map<NodeId, seq<NodeId>>, v: NodeId, done: set<NodeId>, es: seq<Edge>,
                  deps: map<NodeId, seq<NodeId>>, u: NodeId)
    requires Added(es0, deps0, v, done, es, deps) && u !in done
    ensures Added(es0, deps0, v, done + {u}, es + [Edge(u, v)], deps[v := Listed(deps, v) + [u]])
  {
    var es', deps' := es + [Edge(u, v)], deps[v := Listed(deps, v) + [u]];
    assert Listed(deps', v) == Listed(deps, v) + [u];
    forall w | w != v ensures Listed(deps', w) == Listed(deps, w) {}
    forall x, w ensures x in Listed(deps', w) <==> Edge(x, w) in es' {
      assert x in Listed(deps, w) <==> Edge(x, w) in es;
    }
  }

  /** The tables of the planner: adjacency, indegrees, dependencies. */
  datatype Links = Links(adj: map<NodeId, seq<NodeId>>, indegree: map<NodeId, int>, deps: map<NodeId, seq<NodeId>>)

  ghost predicate Linked(ids: set<NodeId>, es0: seq<Edge>, deps0: map<NodeId, seq<NodeId>>, v: NodeId, done: set<NodeId>, es: seq<Edge>, t: Links) {
    Tables(ids, es, t.adj, t.indegree) && Added(es0, deps0, v, done, es, t.deps)
  }

  method AddEdge(ids: set<NodeId>, u: NodeId, v: NodeId, t: Links, ghost es0: seq<Edge>, ghost deps0: map<NodeId, seq<NodeId>>,
                 ghost done: set<NodeId>, ghost es: seq<Edge>)
    returns (t': Links)
    requires Linked(ids, es0, deps0, v, done, es, t) && u in ids && v in ids && u !in done
    ensures Linked(ids, es0, deps0, v, done + {u}, es + [Edge(u, v)], t')
  {
    hide Added;
    TablesAdd(ids, es, t.adj, t.indegree, u, v);
    AddedStep(es0, deps0, v, done, es, t.deps, u);
    t' := Links(t.adj[u := Listed(t.adj, u) + [v]], t.indegree[v := t.indegree[v] + 1], t.deps[v := Listed(t.deps, v) + [u]]);
  }

  /** An unordered set walked in some order. */
  method Walk(s: set<NodeId>) returns (q: seq<NodeId>)
    ensures Distinct(q) && Members(q) == s
  {
    q := [];
    var left := s;
    while left != {}
      invariant left <= s && Distinct(q) && Members(q) == s - left
      decreases |left|
    {
      var u :| u in left;
      assert Members(q + [u]) == Members(q) + {u};
      left := left - {u};
      q := q + [u];
    }
  }

  /** Adds the edges from every member of `preds` to `v`, in whatever order the set is walked. */
  method AddEdges(ids: set<NodeId>, preds: set<NodeId>, v: NodeId, t0: Links, ghost es0: seq<Edge>) returns (t: Links, ghost es: seq<Edge>)
    requires Tables(ids, es0, t0.adj, t0.indegree) && DepsOf(es0, t0.deps) && v in ids && preds <= ids
    ensures Linked(ids, es0, t0.deps, v, preds, es, t)
  {
    t, es := t0, es0;
    var q := Walk(preds);
    LinkedNone(ids, es0, v, t0);
    MembersEnds(q);
    hide Linked, Tables, Members;
    for i := 0 to |q|
      invariant Linked(ids, es0, t0.deps, v, Members(q[..i]), es, t)
    {
      MembersTake(q, i);
      t := AddEdge(ids, q[i], v, t, es0, t0.deps, Members(q[..i]), es);
      es := es + [Edge(q[i], v)];
    }
  }

  lemma LinkedNone(ids: set<NodeId>, es: seq<Edge>, v: NodeId, t: Links)
    requires Tables(ids, es, t.adj, t.indegree) && DepsOf(es, t.deps)
    ensures Linked(ids, es, t.deps, v, {}, es, t)
  {}

  /** The dependency tables of the whole graph. */
  method Link(nodes: seq<Node>, producer: map<TensorId, NodeId>) returns (t: Links, ghost es: seq<Edge>)
    requires forall x :: LastProducer(nodes, x) == if x in producer then Some(producer[x]) else None
    requires forall x :: x in producer ==> producer[x] in Ids(nodes)
    ensures Tables(Members(Ids(nodes)), es, t.adj, t.indegree)
    ensures EdgesOf(nodes, |nodes|, es) && DepsOf(es, t.deps) && DepsOnce(nodes, |nodes|, t.deps)
  {
    hide Targets, Waiting;
    t, es := Links(map[], map v | v in Members(Ids(nodes)) :: 0, map[]), [];
    TablesEmpty(Members(Ids(nodes)), t.indegree);
    for i := 0 to |nodes|
      invariant Tables(Members(Ids(nodes)), es, t.adj, t.indegree)
      invariant EdgesOf(nodes, i, es) && DepsOf(es, t.deps) && DepsOnce(nodes, i, t.deps)
    {
      var preds := UniqueDeps(nodes, nodes[i], producer);
      assert Ids(nodes)[i] == nodes[i].id;
      ghost var es0, deps0 := es, t.deps;
      t, es := AddEdges(Members(Ids(nodes)), preds, nodes[i].id, t, es);
      LinkStep(nodes, i, preds, es0, es, deps0, t.deps);
    }
  }

  lemma LinkStep(nodes: seq<Node>, i: nat, preds: set<NodeId>, es0: seq<Edge>, es: seq<Edge>,
                 deps0: map<NodeId, seq<NodeId>>, deps: map<NodeId, seq<NodeId>>)
    requires i < |nodes| && EdgesOf(nodes, i, es0) && DepsOnce(nodes, i, deps0)
    requires forall u :: u in preds <==> Reads(nodes, nodes[i], u)
    requires Added(es0, deps0, nodes[i].id, preds, es, deps)
    ensures EdgesOf(nodes, i + 1, es) && DepsOnce(nodes, i + 1, deps)
  {
    if Distinct(Ids(nodes)) {
      forall k | i < k < |nodes| ensures Listed(deps, nodes[k].id) == [] {
        assert Ids(nodes)[i] != Ids(nodes)[k];
      }
    }
  }

  // ----- from edges to feeds -----

  lemma EdgesAreFeeds(nodes: seq<Node>, es: seq<Edge>)
    requires EdgesOf(nodes, |nodes|, es)
    ensures forall u, v :: Edge(u, v) in es <==> Feeds(nodes, u, v)
    ensures Acyclic(es) <==> NoFeedCycle(nodes)
  {
    forall p ensures Cycle(es, p) <==> FeedCycle(nodes, p) {}
  }

  // ----- the planner -----

  /** The node registered under an id: the last one that carries it. */
  method IndexNodes(nodes: seq<Node>) returns (byId: map<NodeId, Node>)
    ensures byId.Keys == Members(Ids(nodes))
    ensures forall v :: v in byId ==> byId[v] in nodes && byId[v].id == v
  {
    byId := map[];
    for i := 0 to |nodes|
      invariant forall v :: v in byId <==> v in Ids(nodes)[..i]
      invariant forall v :: v in byId ==> byId[v] in nodes && byId[v].id == v
    {
      byId := byId[nodes[i].id := nodes[i]];
      assert Ids(nodes)[..i + 1] == Ids(nodes)[..i] + [nodes[i].id];
    }
    assert Ids(nodes)[..|nodes|] == Ids(nodes);
  }

  method Emit(nodes: seq<Node>, byId: map<NodeId, Node>, order: seq<NodeId>, deps: map<NodeId, seq<NodeId>>) returns (ops: seq<Op>)
    requires byId.Keys == Members(Ids(nodes)) && Members(order) <= byId.Keys
    requires forall v :: v in byId ==> byId[v] in nodes && byId[v].id == v
    ensures |ops| == |order| && OpIds(ops) == order
    ensures forall i :: 0 <= i < |ops| ==> ops[i].dependencies == Listed(deps, order[i]) && FromNode(nodes, ops[i])
  {
    ops := [];
    for i := 0 to |order|
      invariant |ops| == i && forall k :: 0 <= k < i ==> ops[k].id == order[k]
      invariant forall k :: 0 <= k < i ==> ops[k].dependencies == Listed(deps, order[k]) && FromNode(nodes, ops[k])
    {
      assert order[i] in Members(order);
      var n := byId[order[i]];
      var op := Op(n.id, n.name, n.opName, n.opVersion, Listed(deps, order[i]), n.inputs, n.outputs);
      assert IsOpOf(op, n);
      ops := ops + [op];
    }
  }

  /** A repeated id leaves fewer distinct ids than nodes. */
  lemma RepeatedIdsFallShort(s: seq<NodeId>)
    ensures |Members(s)| <= |s|
    ensures |Members(s)| == |s| <==> Distinct(s)
  {
    if s != [] {
      var front, x := s[..|s| - 1], s[|s| - 1];
      RepeatedIdsFallShort(front);
      assert s == front + [x];
      assert Members(s) == Members(front) + {x};
      if Distinct(s) { assert x !in Members(front); }
      if x in Members(front) { assert Members(s) == Members(front); }
    } else {
      assert Members(s) == {};
    }
  }

  lemma OrderCovers(nodes: seq<Node>, es: seq<Edge>, order: seq<NodeId>, ops: seq<Op>, deps: map<NodeId, seq<NodeId>>)
    requires EdgesOf(nodes, |nodes|, es) && DepsOf(es, deps) && DepsOnce(nodes, |nodes|, deps) && Distinct(Ids(nodes))
    requires Distinct(order) && Members(order) <= Members(Ids(nodes)) && Topological(es, order) && |order| == |nodes|
    requires |ops| == |order| && OpIds(ops) == order
    requires forall i :: 0 <= i < |ops| ==> ops[i].dependencies == Listed(deps, order[i]) && FromNode(nodes, ops[i])
    ensures Covers(nodes, ops) && InOrder(nodes, ops)
  {
    DistinctMembers(order);
    RepeatedIdsFallShort(Ids(nodes));
    SubsetSize(Members(order), Members(Ids(nodes)));
    EdgesAreFeeds(nodes, es);
    forall i, u | 0 <= i < |ops| && u in ops[i].dependencies ensures u in OpIds(ops)[..i] {
      assert Edge(u, order[i]) in es;
    }
  }

  /**
   Planning succeeds exactly when ids are distinct and nothing feeds itself through others. The
   operations are then the nodes, each once and after everything it depends on, whatever order
   the queue was seeded in.
   */
  method BuildPlan(g: Graph) returns (r: Result<ExecutionPlan, PlanError>)
    ensures r.Success? <==> Distinct(Ids(g.nodes)) && NoFeedCycle(g.nodes)
    ensures r.Success? ==> Covers(g.nodes, r.value.ops) && InOrder(g.nodes, r.value.ops)
    ensures r.Success? ==> r.value.version == g.version && r.value.name == g.name && r.value.inputs == g.inputs && r.value.outputs == g.outputs
  {
    if g.nodes == [] {
      forall p ensures !FeedCycle(g.nodes, p) { if |p| > 1 { assert !Feeds(g.nodes, p[0], p[0 + 1]); } }
      return Success(ExecutionPlan(g.version, g.name, [], g.inputs, g.outputs));
    }
    var producer := Producers(g.nodes);
    var byId := IndexNodes(g.nodes);
    ghost var es;
    var t;
    t, es := Link(g.nodes, producer);
    var order := Drain(byId.Keys, t.adj, t.indegree, es);
    EdgesAreFeeds(g.nodes, es);
    RepeatedIdsFallShort(Ids(g.nodes));
    if |order| != |g.nodes| { return Failure(HasCycle); }
    var ops := Emit(g.nodes, byId, order, t.deps);
    OrderCovers(g.nodes, es, order, ops, t.deps);
    return Success(ExecutionPlan(g.version, g.name, ops, g.inputs, g.outputs));
  }
}
