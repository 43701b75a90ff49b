/**
 Graph validation: identifiers, names, references, operator schemas, producers and cycles. The
 result has no error exactly when the graph meets the declarative conditions below, and such a
 graph is always accepted by the planner.
 */
module Validator {
  import opened Layout
  import opened Ir
  import opened Topology
  import P = Plan

  datatype Code =
    | IrVersion | GraphName | GraphOutputs
    | TensorZeroId | TensorDuplicateId | TensorDuplicateName | TensorDtype | TensorShape | TensorMissing
    | NodeZeroId | NodeDuplicateId | NodeOp | OpUnknown | ArityInputs | ArityOutputs
    | MultiProducer | InputProduced | SelfCycle | GraphCycle

  datatype Issue = Issue(isError: bool, code: Code, node: NodeId, tensor: TensorId)

  datatype Options = Options(allowUnknownOps: bool, requireShapes: bool, requireDtypes: bool, checkCycles: bool)

  /** Operand counts; a negative bound is no bound. */
  datatype Schema = Schema(minInputs: int, maxInputs: int, minOutputs: int, maxOutputs: int)

  type Registry = (string, string) -> Option<Schema>

  predicate Ok(issues: seq<Issue>) { forall i :: 0 <= i < |issues| ==> !issues[i].isError }

  function Err(code: Code, node: NodeId, tensor: TensorId): Issue { Issue(true, code, node, tensor) }

  /** One error, when the condition holds. */
  function When(c: bool, e: Issue): (r: seq<Issue>)
    requires e.isError
    ensures Ok(r) <==> !c
  {
    if c then Only(e) else []
  }

  function Only(e: Issue): (r: seq<Issue>)
    ensures Ok(r) <==> !e.isError
  {
    assert [e][0] == e;
    [e]
  }

  lemma OkJoin(a: seq<Issue>, b: seq<Issue>)
    ensures Ok(a + b) <==> Ok(a) && Ok(b)
  {
    if Ok(a + b) {
      forall i | 0 <= i < |a| ensures !a[i].isError { assert (a + b)[i] == a[i]; }
      forall i | 0 <= i < |b| ensures !b[i].isError { assert (a + b)[|a| + i] == b[i]; }
    }
  }

  // ----- what validity means -----

  predicate HasTensor(ts: seq<Tensor>, id: TensorId) { id != 0 && exists t :: t in ts && t.id == id }

  /** Tensors have distinct non-zero ids, distinct non-empty names, and what the options ask for. */
  predicate TensorsGood(ts: seq<Tensor>, o: Options) {
    && (forall i :: 0 <= i < |ts| ==> TensorGood(ts[i], o))
    && (forall i, j :: 0 <= i < j < |ts| ==> ts[i].id != ts[j].id && (ts[i].name != "" ==> ts[i].name != ts[j].name))
  }

  predicate TensorGood(t: Tensor, o: Options) {
    t.id != 0 && (o.requireDtypes ==> t.dtype != UNKNOWN_DTYPE) && (o.requireShapes ==> t.dims != [])
  }

  /** A known operator has as many operands and results as its schema says; a negative maximum is none. */
  predicate SchemaGood(n: Node, registry: Registry, o: Options) {
    match registry(n.opName, n.opVersion)
    case None => o.allowUnknownOps
    case Some(s) =>
      && s.minInputs <= |n.inputs| && (s.maxInputs < 0 || |n.inputs| <= s.maxInputs)
      && s.minOutputs <= |n.outputs| && (s.maxOutputs < 0 || |n.outputs| <= s.maxOutputs)
  }

  predicate RefsGood(ids: seq<TensorId>, ts: seq<Tensor>) { forall i :: 0 <= i < |ids| ==> HasTensor(ts, ids[i]) }

  predicate NodeGood(n: Node, ts: seq<Tensor>, registry: Registry, o: Options) {
    n.id != 0 && n.opName != "" && SchemaGood(n, registry, o) && RefsGood(n.inputs, ts) && RefsGood(n.outputs, ts)
  }

  predicate Produced(nodes: seq<Node>, t: TensorId) { exists n :: n in nodes && t in n.outputs }

  /** No tensor is written twice, by one node or by two. */
  predicate OneProducer(nodes: seq<Node>) {
    && (forall i :: 0 <= i < |nodes| ==> Distinct(nodes[i].outputs))
    && (forall i, j :: 0 <= i < j < |nodes| ==> forall t :: t in nodes[i].outputs ==> t !in nodes[j].outputs)
  }

  predicate NodesGood(nodes: seq<Node>, ts: seq<Tensor>, registry: Registry, o: Options) {
    (forall i :: 0 <= i < |nodes| ==> NodeGood(nodes[i], ts, registry, o)) && Distinct(P.Ids(nodes)) && OneProducer(nodes)
  }

  predicate InputsUnproduced(inputs: seq<TensorId>, nodes: seq<Node>) { forall i :: 0 <= i < |inputs| ==> !Produced(nodes, inputs[i]) }

  predicate SelfFree(nodes: seq<Node>) { forall n, t :: n in nodes && t in n.inputs ==> t !in n.outputs }

  ghost predicate Validates(g: Graph, registry: Registry, o: Options) {
    && Compatible(g.version)
    && TensorsGood(g.tensors, o)
    && RefsGood(g.inputs, g.tensors) && RefsGood(g.outputs, g.tensors) && g.outputs != []
    && NodesGood(g.nodes, g.tensors, registry, o)
    && InputsUnproduced(g.inputs, g.nodes)
    && (o.checkCycles ==> SelfFree(g.nodes) && P.NoFeedCycle(g.nodes))
  }

  // ----- tensors and references -----

  method CheckTensor(t: Tensor, ids: set<TensorId>, names: set<string>, o: Options) returns (issues: seq<Issue>)
    requires t.id != 0
    ensures Ok(issues) <==> TensorGood(t, o) && t.id !in ids && (t.name != "" ==> t.name !in names)
  {
    var again := When(t.id in ids, Err(TensorDuplicateId, 0, t.id));
    var named := When(t.name != "" && t.name in names, Err(TensorDuplicateName, 0, t.id));
    var typed := When(o.requireDtypes && t.dtype == UNKNOWN_DTYPE, Err(TensorDtype, 0, t.id));
    var shaped := When(o.requireShapes && t.dims == [], Err(TensorShape, 0, t.id));
    OkJoin(again, named);
    OkJoin(again + named, typed);
    OkJoin(again + named + typed, shaped);
    issues := again + named + typed + shaped;
  }

  method CheckTensors(ts: seq<Tensor>, o: Options) returns (issues: seq<Issue>, ids: set<TensorId>)
    ensures Ok(issues) <==> TensorsGood(ts, o)
    ensures forall id :: id in ids <==> HasTensor(ts, id)
  {
    issues, ids := [], {};
    var names: set<string> := {};
    for i := 0 to |ts|
      invariant forall id :: id in ids <==> id != 0 && exists j :: 0 <= j < i && ts[j].id == id
      invariant Ok(issues) ==> forall name :: name in names <==> name != "" && exists j :: 0 <= j < i && ts[j].name == name
      invariant Ok(issues) <==> TensorsGood(ts[..i], o)
    {
      var t := ts[i];
      assert ts[..i + 1] == ts[..i] + [t];
      TensorsGoodStep(ts[..i], t, o);
      if t.id == 0 {
        OkJoin(issues, Only(Err(TensorZeroId, 0, t.id)));
        issues := issues + Only(Err(TensorZeroId, 0, t.id));
        continue;
      }
      var more := CheckTensor(t, ids, names, o);
      OkJoin(issues, more);
      issues := issues + more;
      ids := ids + {t.id};
      if t.name != "" { names := names + {t.name}; }
    }
    assert ts[..|ts|] == ts;
  }

  lemma TensorsGoodStep(ts: seq<Tensor>, t: Tensor, o: Options)
    ensures TensorsGood(ts + [t], o) <==>
      TensorsGood(ts, o) && TensorGood(t, o)
      && forall j :: 0 <= j < |ts| ==> ts[j].id != t.id && (t.name != "" ==> ts[j].name != t.name)
  {
    var all := ts + [t];
    assert forall j :: 0 <= j < |ts| ==> all[j] == ts[j];
    assert all[|ts|] == t;
    if TensorsGood(all, o) {
      assert forall i :: 0 <= i < |ts| ==> TensorGood(all[i], o);
      assert TensorGood(all[|ts|], o);
    }
  }

  method CheckRefs(refs: seq<TensorId>, ids: set<TensorId>, ghost ts: seq<Tensor>, node: NodeId) returns (issues: seq<Issue>)
    requires forall id :: id in ids <==> HasTensor(ts, id)
    ensures Ok(issues) <==> RefsGood(refs, ts)
  {
    issues := [];
    for i := 0 to |refs|
      invariant Ok(issues) <==> RefsGood(refs[..i], ts)
    {
      var more := When(refs[i] !in ids, Err(TensorMissing, node, refs[i]));
      OkJoin(issues, more);
      issues := issues + more;
      assert refs[..i + 1] == refs[..i] + [refs[i]];
    }
    assert refs[..|refs|] == refs;
  }

  // ----- nodes and producers -----

  /** The non-zero node that writes `t`; when several do, the first one. */
  function FirstProducer(nodes: seq<Node>, t: TensorId): Option<NodeId> {
    if nodes == [] then None
    else
      var front, last := nodes[..|nodes| - 1], nodes[|nodes| - 1];
      if FirstProducer(front, t).Some? then FirstProducer(front, t)
      else if last.id != 0 && t in last.outputs then Some(last.id)
      else None
  }

  /** A negative bound does not count. */
  predicate ArityGood(count: nat, min: int, max: int) { (min >= 0 ==> min <= count) && (max >= 0 ==> count <= max) }

  method CheckSchema(n: Node, registry: Registry, o: Options) returns (issues: seq<Issue>)
    ensures Ok(issues) <==> SchemaGood(n, registry, o)
  {
    match registry(n.opName, n.opVersion) {
      case None => issues := Only(Issue(!o.allowUnknownOps, OpUnknown, n.id, 0));
      case Some(s) =>
        var ins := When(!ArityGood(|n.inputs|, s.minInputs, s.maxInputs), Err(ArityInputs, n.id, 0));
        var outs := When(!ArityGood(|n.outputs|, s.minOutputs, s.maxOutputs), Err(ArityOutputs, n.id, 0));
        OkJoin(ins, outs);
        issues := ins + outs;
    }
  }

  /** The writes of one node: every tensor must exist and have no earlier writer. The first writer is kept. */
  method CheckWrites(n: Node, ids: set<TensorId>, ghost ts: seq<Tensor>, producer0: map<TensorId, NodeId>)
    returns (issues: seq<Issue>, producer: map<TensorId, NodeId>)
    requires forall id :: id in ids <==> HasTensor(ts, id)
    ensures Ok(issues) <==> RefsGood(n.outputs, ts) && Distinct(n.outputs) && forall t :: t in n.outputs ==> t !in producer0
    ensures producer.Keys == producer0.Keys + Members(n.outputs)
    ensures forall t :: t in producer ==> producer[t] == if t in producer0 then producer0[t] else n.id
  {
    issues, producer := [], producer0;
    hide HasTensor, RefsGood, Distinct, Ok;
    EmptyIsGood(ts);
    for j := 0 to |n.outputs|
      invariant Ok(issues) <==> RefsGood(n.outputs[..j], ts) && Distinct(n.outputs[..j]) && forall t :: t in n.outputs[..j] ==> t !in producer0
      invariant producer.Keys == producer0.Keys + Members(n.outputs[..j])
      invariant forall t :: t in producer ==> producer[t] == if t in producer0 then producer0[t] else n.id
    {
      var t := n.outputs[j];
      assert n.outputs[..j + 1] == n.outputs[..j] + [t];
      var missing := When(t !in ids, Err(TensorMissing, n.id, t));
      var again := When(t in producer, Err(MultiProducer, n.id, t));
      OkJoin(issues, missing);
      OkJoin(issues + missing, again);
      WritesStep(n.outputs[..j], t, ts, producer0.Keys);
      issues := issues + missing + again;
      if t !in producer { producer := producer[t := n.id]; }
      assert Members(n.outputs[..j + 1]) == Members(n.outputs[..j]) + {t};
    }
    assert n.outputs[..|n.outputs|] == n.outputs;
  }

  lemma EmptyIsGood(ts: seq<Tensor>)
    ensures Ok([]) && RefsGood([], ts) && Distinct([])
  {}

  lemma WritesStep(outs: seq<TensorId>, t: TensorId, ts: seq<Tensor>, taken: set<TensorId>)
    ensures RefsGood(outs + [t], ts) <==> RefsGood(outs, ts) && HasTensor(ts, t)
    ensures Distinct(outs + [t]) <==> Distinct(outs) && t !in outs
    ensures (forall x :: x in outs + [t] ==> x !in taken) <==> (forall x :: x in outs ==> x !in taken) && t !in taken
  {
    var all := outs + [t];
    assert forall j :: 0 <= j < |outs| ==> all[j] == outs[j];
    assert all[|outs|] == t;
    assert forall x :: x in outs ==> x in all;
  }

  method CheckNode(n: Node, seen: set<NodeId>, ids: set<TensorId>, ghost ts: seq<Tensor>, registry: Registry, o: Options,
                   producer0: map<TensorId, NodeId>)
    returns (issues: seq<Issue>, producer: map<TensorId, NodeId>)
    requires n.id != 0 && forall id :: id in ids <==> HasTensor(ts, id)
    ensures Ok(issues) <==>
      NodeGood(n, ts, registry, o) && n.id !in seen && Distinct(n.outputs) && forall t :: t in n.outputs ==> t !in producer0
    ensures producer.Keys == producer0.Keys + Members(n.outputs)
    ensures forall t :: t in producer ==> producer[t] == if t in producer0 then producer0[t] else n.id
  {
    var again := When(n.id in seen, Err(NodeDuplicateId, n.id, 0));
    var named := When(n.opName == "", Err(NodeOp, n.id, 0));
    var schema := CheckSchema(n, registry, o);
    var inRefs := CheckRefs(n.inputs, ids, ts, n.id);
    var writes;
    writes, producer := CheckWrites(n, ids, ts, producer0);
    OkJoin(again, named);
    OkJoin(again + named, schema);
    OkJoin(again + named + schema, inRefs);
    OkJoin(again + named + schema + inRefs, writes);
    issues := again + named + schema + inRefs + writes;
  }

  lemma NodesGoodStep(nodes: seq<Node>, n: Node, ts: seq<Tensor>, registry: Registry, o: Options)
    ensures NodesGood(nodes + [n], ts, registry, o) <==>
      NodesGood(nodes, ts, registry, o) && NodeGood(n, ts, registry, o) && n.id !in P.Ids(nodes)
      && Distinct(n.outputs) && forall t :: t in n.outputs ==> !Produced(nodes, t)
  {
    var all := nodes + [n];
    assert all[|nodes|] == n && forall i :: 0 <= i < |nodes| ==> all[i] == nodes[i];
    assert P.Ids(all) == P.Ids(nodes) + [n.id];
    WritesStep(P.Ids(nodes), n.id, ts, {});
    OneProducerStep(nodes, n);
  }

  lemma OneWriter(nodes: seq<Node>, i: nat, j: nat, t: TensorId)
    requires OneProducer(nodes) && i < |nodes| && j < |nodes| && i != j && t in nodes[j].outputs
    ensures t !in nodes[i].outputs
  {}

  lemma OneProducerStep(nodes: seq<Node>, n: Node)
    ensures OneProducer(nodes + [n]) <==> OneProducer(nodes) && Distinct(n.outputs) && forall t :: t in n.outputs ==> !Produced(nodes, t)
  {
    var all := nodes + [n];
    assert all[|nodes|] == n && forall i :: 0 <= i < |nodes| ==> all[i] == nodes[i];
    if OneProducer(all) {
      forall t | t in n.outputs ensures !Produced(nodes, t) {
        forall i | 0 <= i < |nodes| ensures t !in nodes[i].outputs { OneWriter(all, i, |nodes|, t); }
      }
      assert forall i :: 0 <= i < |nodes| ==> Distinct(all[i].outputs);
      assert Distinct(all[|nodes|].outputs);
    }
  }

  lemma {:induction false} ProducedIsFirst(nodes: seq<Node>, t: TensorId)
    requires forall n :: n in nodes ==> n.id != 0
    ensures Produced(nodes, t) <==> FirstProducer(nodes, t).Some?
  {
    if nodes != [] {
      var front, last := nodes[..|nodes| - 1], nodes[|nodes| - 1];
      assert nodes == front + [last];
      ProducedIsFirst(front, t);
    }
  }

  lemma NoNodesGood(ts: seq<Tensor>, registry: Registry, o: Options)
    ensures Ok([]) && NodesGood([], ts, registry, o) && forall t :: FirstProducer([], t) == None
  {}

  lemma FirstProducerStep(nodes: seq<Node>, n: Node)
    ensures forall t :: FirstProducer(nodes + [n], t) ==
                        (if FirstProducer(nodes, t).Some? then FirstProducer(nodes, t)
                         else if n.id != 0 && t in n.outputs then Some(n.id) else None)
  {
    assert (nodes + [n])[..|nodes|] == nodes;
  }

  method CheckNodes(nodes: seq<Node>, ids: set<TensorId>, ghost ts: seq<Tensor>, registry: Registry, o: Options)
    returns (issues: seq<Issue>, producer: map<TensorId, NodeId>)
    requires forall id :: id in ids <==> HasTensor(ts, id)
    ensures Ok(issues) <==> NodesGood(nodes, ts, registry, o)
    ensures forall t :: FirstProducer(nodes, t) == if t in producer then Some(producer[t]) else None
  {
    issues, producer := [], map[];
    var seen: set<NodeId> := {};
    hide FirstProducer, OneProducer, Ok;
    NoNodesGood(ts, registry, o);
    for i := 0 to |nodes|
      invariant Ok(issues) <==> NodesGood(nodes[..i], ts, registry, o)
      invariant forall t :: FirstProducer(nodes[..i], t) == if t in producer then Some(producer[t]) else None
      invariant forall id :: id in seen <==> id != 0 && id in P.Ids(nodes[..i])
    {
      var n := nodes[i];
      assert nodes[..i + 1] == nodes[..i] + [n];
      NodesGoodStep(nodes[..i], n, ts, registry, o);
      FirstProducerStep(nodes[..i], n);
      assert P.Ids(nodes[..i + 1]) == P.Ids(nodes[..i]) + [n.id];
      if n.id == 0 {
        OkJoin(issues, Only(Err(NodeZeroId, n.id, 0)));
        issues := issues + Only(Err(NodeZeroId, n.id, 0));
        continue;
      }
      var more;
      if Ok(issues) { ProducersAreFirst(nodes[..i], ts, registry, o, producer); }
      more, producer := CheckNode(n, seen, ids, ts, registry, o, producer);
      OkJoin(issues, more);
      issues := issues + more;
      seen := seen + {n.id};
    }
    assert nodes[..|nodes|] == nodes;
  }

  lemma ProducersAreFirst(nodes: seq<Node>, ts: seq<Tensor>, registry: Registry, o: Options, producer: map<TensorId, NodeId>)
    requires NodesGood(nodes, ts, registry, o)
    requires forall t :: FirstProducer(nodes, t) == if t in producer then Some(producer[t]) else None
    ensures forall t :: t in producer <==> Produced(nodes, t)
  {
    forall n | n in nodes ensures n.id != 0 { var i :| 0 <= i < |nodes| && nodes[i] == n; assert NodeGood(nodes[i], ts, registry, o); }
    forall t ensures t in producer <==> Produced(nodes, t) { ProducedIsFirst(nodes, t); }
  }

  // ----- graph inputs -----

  method CheckInputs(inputs: seq<TensorId>, producer: map<TensorId, NodeId>) returns (issues: seq<Issue>)
    ensures Ok(issues) <==> forall i :: 0 <= i < |inputs| ==> inputs[i] !in producer
  {
    issues := [];
    for i := 0 to |inputs|
      invariant Ok(issues) <==> forall j :: 0 <= j < i ==> inputs[j] !in producer
    {
      var more := When(inputs[i] in producer, Err(InputProduced, 0, inputs[i]));
      OkJoin(issues, more);
      issues := issues + more;
    }
  }

  // ----- cycles -----

  /** One edge per read of a produced tensor, repeated reads included. */
  ghost predicate ReadEdges(nodes: seq<Node>, i: nat, es: seq<Edge>)
    requires i <= |nodes|
  {
    forall u, v :: Edge(u, v) in es <==> exists k :: 0 <= k < i && nodes[k].id == v && FirstReads(nodes, nodes[k].inputs, v, u)
  }

  predicate FirstReads(nodes: seq<Node>, inputs: seq<TensorId>, self: NodeId, u: NodeId) {
    u != self && exists t :: t in inputs && FirstProducer(nodes, t) == Some(u)
  }

  predicate NoSelfRead(nodes: seq<Node>, n: Node) { NoSelfAmong(nodes, n.inputs, n.id) }

  /** None of the first `i` nodes reads what it produces. */
  predicate NoSelfReads(nodes: seq<Node>, i: nat)
    requires i <= |nodes|
  {
    forall k :: 0 <= k < i ==> NoSelfRead(nodes, nodes[k])
  }

  predicate NoSelfAmong(nodes: seq<Node>, inputs: seq<TensorId>, self: NodeId) {
    forall t :: t in inputs ==> FirstProducer(nodes, t) != Some(self)
  }

  /** The edges for the reads `inputs` of node `self` have been added. */
  ghost predicate ReadsAdded(nodes: seq<Node>, self: NodeId, inputs: seq<TensorId>, es0: seq<Edge>, es: seq<Edge>) {
    forall u, v :: Edge(u, v) in es <==> Edge(u, v) in es0 || (v == self && FirstReads(nodes, inputs, self, u))
  }

  lemma NothingRead(nodes: seq<Node>, self: NodeId, es: seq<Edge>)
    ensures Ok([]) && NoSelfAmong(nodes, [], self) && ReadsAdded(nodes, self, [], es, es)
  {}

  /** One more read: nothing for an unproduced tensor, an error for a self-read, an edge otherwise. */
  lemma ReadsAddedStep(nodes: seq<Node>, self: NodeId, inputs: seq<TensorId>, t: TensorId, es0: seq<Edge>, es: seq<Edge>)
    requires ReadsAdded(nodes, self, inputs, es0, es)
    ensures var p := FirstProducer(nodes, t);
      && (p == None || p == Some(self) ==> ReadsAdded(nodes, self, inputs + [t], es0, es))
      && (p.Some? && p.value != self ==> ReadsAdded(nodes, self, inputs + [t], es0, es + [Edge(p.value, self)]))
      && (NoSelfAmong(nodes, inputs + [t], self) <==> NoSelfAmong(nodes, inputs, self) && p != Some(self))
  {
    assert t in inputs + [t];
    assert forall x :: x in inputs ==> x in inputs + [t];
    forall u ensures FirstReads(nodes, inputs + [t], self, u)
                <==> (FirstReads(nodes, inputs, self, u) || (u != self && FirstProducer(nodes, t) == Some(u))) {}
  }

  lemma ReadEdgesStep(nodes: seq<Node>, i: nat, es0: seq<Edge>, es: seq<Edge>)
    requires i < |nodes| && ReadEdges(nodes, i, es0) && ReadsAdded(nodes, nodes[i].id, nodes[i].inputs, es0, es)
    ensures ReadEdges(nodes, i + 1, es)
    ensures NoSelfReads(nodes, i + 1) <==> NoSelfReads(nodes, i) && NoSelfRead(nodes, nodes[i])
  {}

  /** The edges into one node, one per read. */
  method AddReads(ids: set<NodeId>, nodes: seq<Node>, n: Node, producer: map<TensorId, NodeId>, adj0: map<NodeId, seq<NodeId>>,
                  indegree0: map<NodeId, int>, ghost es0: seq<Edge>)
    returns (issues: seq<Issue>, adj: map<NodeId, seq<NodeId>>, indegree: map<NodeId, int>, ghost es: seq<Edge>)
    requires Tables(ids, es0, adj0, indegree0) && n.id in ids
    requires forall t :: FirstProducer(nodes, t) == if t in producer then Some(producer[t]) else None
    requires forall t :: t in producer ==> producer[t] in ids
    ensures Tables(ids, es, adj, indegree) && ReadsAdded(nodes, n.id, n.inputs, es0, es)
    ensures Ok(issues) <==> NoSelfRead(nodes, n)
  {
    issues, adj, indegree, es := [], adj0, indegree0, es0;
    hide Targets, Waiting, Ok, NoSelfAmong, ReadsAdded, FirstProducer;
    NothingRead(nodes, n.id, es0);
    for j := 0 to |n.inputs|
      invariant Tables(ids, es, adj, indegree) && ReadsAdded(nodes, n.id, n.inputs[..j], es0, es)
      invariant Ok(issues) <==> NoSelfAmong(nodes, n.inputs[..j], n.id)
    {
      var t := n.inputs[j];
      assert n.inputs[..j + 1] == n.inputs[..j] + [t];
      ReadsAddedStep(nodes, n.id, n.inputs[..j], t, es0, es);
      if t !in producer { continue; }
      var pred := producer[t];
      if pred == n.id {
        OkJoin(issues, Only(Err(SelfCycle, n.id, 0)));
        issues := issues + Only(Err(SelfCycle, n.id, 0));
        continue;
      }
      TablesAdd(ids, es, adj, indegree, pred, n.id);
      adj, indegree := adj[pred := Listed(adj, pred) + [n.id]], indegree[n.id := indegree[n.id] + 1];
      es := es + [Edge(pred, n.id)];
    }
    assert n.inputs[..|n.inputs|] == n.inputs;
  }

  lemma {:induction false} FirstProducerIsNode(nodes: seq<Node>, t: TensorId)
    requires FirstProducer(nodes, t).Some?
    ensures FirstProducer(nodes, t).value in P.Ids(nodes)
  {
    var front, last := nodes[..|nodes| - 1], nodes[|nodes| - 1];
    assert nodes == front + [last];
    assert P.Ids(nodes) == P.Ids(front) + [last.id];
    if FirstProducer(front, t).Some? { FirstProducerIsNode(front, t); }
  }

  method ReadTables(ids: set<NodeId>, nodes: seq<Node>, producer: map<TensorId, NodeId>)
    returns (issues: seq<Issue>, adj: map<NodeId, seq<NodeId>>, indegree: map<NodeId, int>, ghost es: seq<Edge>)
    requires ids == Members(P.Ids(nodes))
    requires forall t :: FirstProducer(nodes, t) == if t in producer then Some(producer[t]) else None
    requires forall t :: t in producer ==> producer[t] in ids
    ensures Tables(ids, es, adj, indegree) && ReadEdges(nodes, |nodes|, es)
    ensures Ok(issues) <==> NoSelfReads(nodes, |nodes|)
  {
    issues, adj, indegree, es := [], map[], map v | v in ids :: 0, [];
    TablesEmpty(ids, indegree);
    assert ReadEdges(nodes, 0, es) && Ok(issues) && NoSelfReads(nodes, 0);
    assert forall k :: 0 <= k < |nodes| ==> P.Ids(nodes)[k] in ids;
    hide ReadEdges, ReadsAdded, NoSelfRead, NoSelfReads, Tables, FirstProducer, Ok, Members;
    for i := 0 to |nodes|
      invariant Tables(ids, es, adj, indegree) && ReadEdges(nodes, i, es)
      invariant Ok(issues) <==> NoSelfReads(nodes, i)
    {
      assert P.Ids(nodes)[i] == nodes[i].id;
      var more;
      ghost var es0 := es;
      more, adj, indegree, es := AddReads(ids, nodes, nodes[i], producer, adj, indegree, es);
      ReadEdgesStep(nodes, i, es0, es);
      OkJoin(issues, more);
      issues := issues + more;
    }
  }

  method CheckCycles(nodes: seq<Node>, producer: map<TensorId, NodeId>) returns (issues: seq<Issue>, ghost es: seq<Edge>)
    requires forall t :: FirstProducer(nodes, t) == if t in producer then Some(producer[t]) else None
    ensures ReadEdges(nodes, |nodes|, es)
    ensures Distinct(P.Ids(nodes)) ==> (Ok(issues) <==> NoSelfReads(nodes, |nodes|) && Acyclic(es))
  {
    hide Acyclic, Tables, ReadEdges, NoSelfReads, Topological, Ok;
    var ids := Members(P.Ids(nodes));
    forall t | t in producer ensures producer[t] in ids { FirstProducerIsNode(nodes, t); }
    var adj, indegree;
    issues, adj, indegree, es := ReadTables(ids, nodes, producer);
    var order := Drain(ids, adj, indegree, es);
    P.RepeatedIdsFallShort(P.Ids(nodes));
    var cycle := When(|order| != |nodes|, Err(GraphCycle, 0, 0));
    OkJoin(issues, cycle);
    issues := issues + cycle;
  }

  // ----- first and last producers -----

  lemma {:induction false} FirstIsLast(nodes: seq<Node>, t: TensorId)
    requires OneProducer(nodes) && forall n :: n in nodes ==> n.id != 0
    ensures FirstProducer(nodes, t) == P.LastProducer(nodes, t)
  {
    if nodes != [] {
      var front, last := nodes[..|nodes| - 1], nodes[|nodes| - 1];
      assert nodes == front + [last];
      OneProducerStep(front, last);
      FirstIsLast(front, t);
      if t in last.outputs { ProducedIsFirst(front, t); }
    }
  }

  lemma {:induction false} ProducerWrites(nodes: seq<Node>, t: TensorId)
    requires P.LastProducer(nodes, t).Some?
    ensures exists n :: n in nodes && n.id == P.LastProducer(nodes, t).value && t in n.outputs
  {
    var front, last := nodes[..|nodes| - 1], nodes[|nodes| - 1];
    assert nodes == front + [last];
    if t !in last.outputs { ProducerWrites(front, t); }
  }

  /** Two nodes with one id, or with one output in common, are the same node. */
  lemma SameNode(nodes: seq<Node>, m: Node, n: Node, t: TensorId)
    requires OneProducer(nodes) && Distinct(P.Ids(nodes)) && m in nodes && n in nodes
    ensures m.id == n.id ==> m == n
    ensures t in m.outputs && t in n.outputs ==> m == n
  {
    var i :| 0 <= i < |nodes| && nodes[i] == m;
    var j :| 0 <= j < |nodes| && nodes[j] == n;
    assert P.Ids(nodes)[i] == m.id && P.Ids(nodes)[j] == n.id;
  }

  lemma SameIds(nodes: seq<Node>, m: Node, n: Node)
    requires Distinct(P.Ids(nodes)) && m in nodes && n in nodes && m.id == n.id
    ensures m == n
  {
    var i :| 0 <= i < |nodes| && nodes[i] == m;
    var j :| 0 <= j < |nodes| && nodes[j] == n;
    assert P.Ids(nodes)[i] == m.id && P.Ids(nodes)[j] == n.id;
  }

  /** The only node that writes a tensor is its last producer. */
  lemma {:induction false} LastProducerIs(nodes: seq<Node>, m: Node, t: TensorId)
    requires OneProducer(nodes) && m in nodes && t in m.outputs
    ensures P.LastProducer(nodes, t) == Some(m.id)
  {
    var front, last := nodes[..|nodes| - 1], nodes[|nodes| - 1];
    assert nodes == front + [last];
    OneProducerStep(front, last);
    if t in last.outputs {
      assert !Produced(front, t);
    } else {
      LastProducerIs(front, m, t);
    }
  }

  /** With distinct ids and single producers, a self-read is a read of one's own output. */
  lemma SelfReads(nodes: seq<Node>, n: Node, t: TensorId)
    requires OneProducer(nodes) && Distinct(P.Ids(nodes)) && (forall m :: m in nodes ==> m.id != 0) && n in nodes
    ensures FirstProducer(nodes, t) == Some(n.id) <==> t in n.outputs
  {
    FirstIsLast(nodes, t);
    ProducedIsFirst(nodes, t);
    if P.LastProducer(nodes, t).Some? {
      ProducerWrites(nodes, t);
      var m :| m in nodes && m.id == P.LastProducer(nodes, t).value && t in m.outputs;
      SameNode(nodes, m, n, t);
    }
  }

  lemma GoodNodesGiveFeeds(nodes: seq<Node>, es: seq<Edge>)
    requires OneProducer(nodes) && Distinct(P.Ids(nodes)) && (forall n :: n in nodes ==> n.id != 0)
    requires ReadEdges(nodes, |nodes|, es)
    ensures NoSelfReads(nodes, |nodes|) <==> SelfFree(nodes)
    ensures Acyclic(es) <==> P.NoFeedCycle(nodes)
  {
    forall n, t | n in nodes && t in n.inputs ensures FirstProducer(nodes, t) == Some(n.id) <==> t in n.outputs {
      SelfReads(nodes, n, t);
    }
    forall n, u | n in nodes ensures FirstReads(nodes, n.inputs, n.id, u) <==> P.Reads(nodes, n, u) {
      forall t ensures FirstProducer(nodes, t) == P.LastProducer(nodes, t) { FirstIsLast(nodes, t); }
    }
    assert P.EdgesOf(nodes, |nodes|, es);
    P.EdgesAreFeeds(nodes, es);
  }

  // ----- the validator -----

  method Validate(g: Graph, registry: Registry, o: Options) returns (issues: seq<Issue>)
    ensures Ok(issues) <==> Validates(g, registry, o)
  {
    var version := When(!Compatible(g.version), Err(IrVersion, 0, 0));
    var name := if g.name == "" then [Issue(false, GraphName, 0, 0)] else [];
    var tensors, ids := CheckTensors(g.tensors, o);
    var ins := CheckRefs(g.inputs, ids, g.tensors, 0);
    var outs := CheckRefs(g.outputs, ids, g.tensors, 0);
    var none := When(g.outputs == [], Err(GraphOutputs, 0, 0));
    var nodes, producer := CheckNodes(g.nodes, ids, g.tensors, registry, o);
    var produced := CheckInputs(g.inputs, producer);
    var cycles := [];
    ghost var es := [];
    if o.checkCycles && g.nodes != [] { cycles, es := CheckCycles(g.nodes, producer); }
    var a := version + name + tensors + ins + outs + none;
    OkJoin(version, name);
    OkJoin(version + name, tensors);
    OkJoin(version + name + tensors, ins);
    OkJoin(version + name + tensors + ins, outs);
    OkJoin(version + name + tensors + ins + outs, none);
    OkJoin(a, nodes);
    OkJoin(a + nodes, produced);
    OkJoin(a + nodes + produced, cycles);
    issues := a + nodes + produced + cycles;
    if Ok(nodes) { GoodNodes(g, registry, o, producer, es); }
  }

  lemma GoodNodes(g: Graph, registry: Registry, o: Options, producer: map<TensorId, NodeId>, es: seq<Edge>)
    requires NodesGood(g.nodes, g.tensors, registry, o)
    requires forall t :: FirstProducer(g.nodes, t) == if t in producer then Some(producer[t]) else None
    ensures (forall i :: 0 <= i < |g.inputs| ==> g.inputs[i] !in producer) <==> InputsUnproduced(g.inputs, g.nodes)
    ensures g.nodes == [] ==> SelfFree(g.nodes) && P.NoFeedCycle(g.nodes)
    ensures ReadEdges(g.nodes, |g.nodes|, es) ==>
      ((NoSelfReads(g.nodes, |g.nodes|) <==> SelfFree(g.nodes)) && (Acyclic(es) <==> P.NoFeedCycle(g.nodes)))
  {
    ProducersAreFirst(g.nodes, g.tensors, registry, o, producer);
    forall n | n in g.nodes ensures n.id != 0 {
      var i :| 0 <= i < |g.nodes| && g.nodes[i] == n;
      assert NodeGood(g.nodes[i], g.tensors, registry, o);
    }
    if g.nodes == [] {
      forall p ensures !P.FeedCycle(g.nodes, p) { if |p| > 1 { assert !P.Feeds(g.nodes, p[0], p[0 + 1]); } }
    }
    if ReadEdges(g.nodes, |g.nodes|, es) { GoodNodesGiveFeeds(g.nodes, es); }
  }

  /** A graph that validates with cycle checking on is one that the planner accepts. */
  lemma ValidatedIsPlannable(g: Graph, registry: Registry, o: Options)
    requires Validates(g, registry, o) && o.checkCycles
    ensures Distinct(P.Ids(g.nodes)) && P.NoFeedCycle(g.nodes)
  {}

  method ValidateThenPlan(g: Graph, registry: Registry, o: Options) returns (issues: seq<Issue>, plan: Result<P.ExecutionPlan, P.PlanError>)
    ensures Ok(issues) && o.checkCycles ==> plan.Success? && P.Covers(g.nodes, plan.value.ops) && P.InOrder(g.nodes, plan.value.ops)
  {
    issues := Validate(g, registry, o);
    plan := P.BuildPlan(g);
  }
}
