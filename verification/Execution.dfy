/**
 Running a plan: each operation reads its input tensors and writes its output tensors in one
 shared store. For a validated graph the final store satisfies every node's equation, and every
 topological order leaves the same store.
 */
module Execution {
  import opened Layout
  import opened Ir
  import opened Topology
  import P = Plan
  import W = Validator

  /** What a pure operator computes from its node and input values, one value per output. */
  type Operator<!V(!new)> = (Node, seq<V>) -> seq<V>

  ghost predicate Total<V(!new)>(apply: Operator<V>) { forall n, xs :: |apply(n, xs)| == |n.outputs| }

  type Store<V> = map<TensorId, V>

  function Gather<V>(s: Store<V>, ids: seq<TensorId>): (r: seq<V>)
    requires forall t :: t in ids ==> t in s
    ensures |r| == |ids| && forall i :: 0 <= i < |ids| ==> r[i] == s[ids[i]]
  {
    seq(|ids|, i requires 0 <= i < |ids| => assert ids[i] in ids; s[ids[i]])
  }

  /** The writes of one operation, in order. */
  function Scatter<V>(s: Store<V>, ids: seq<TensorId>, vals: seq<V>): (r: Store<V>)
    requires |vals| == |ids|
    ensures r.Keys == s.Keys + Members(ids)
    ensures forall t :: t in s && t !in ids ==> r[t] == s[t]
  {
    if ids == [] then s
    else
      var k := |ids| - 1;
      assert ids == ids[..k] + [ids[k]];
      Scatter(s, ids[..k], vals[..k])[ids[k] := vals[k]]
  }

  lemma {:induction false} ScatterAt<V>(s: Store<V>, ids: seq<TensorId>, vals: seq<V>, i: nat)
    requires |vals| == |ids| && Distinct(ids) && i < |ids|
    ensures ids[i] in Scatter(s, ids, vals) && Scatter(s, ids, vals)[ids[i]] == vals[i]
  {
    var k := |ids| - 1;
    if i < k {
      ScatterAt(s, ids[..k], vals[..k], i);
      assert ids[i] != ids[k];
    }
  }

  function Step<V(!new)>(apply: Operator<V>, s: Store<V>, n: Node): (r: Store<V>)
    requires Total(apply) && forall t :: t in n.inputs ==> t in s
    ensures r.Keys == s.Keys + Members(n.outputs)
  {
    Scatter(s, n.outputs, apply(n, Gather(s, n.inputs)))
  }

  /** Every tensor of the order's nodes has a buffer. */
  ghost predicate Backed<V>(s: Store<V>, order: seq<Node>) {
    forall n, t :: n in order && (t in n.inputs || t in n.outputs) ==> t in s
  }

  /** The store after the first `i` nodes of the order. */
  ghost function Exec<V(!new)>(apply: Operator<V>, s: Store<V>, order: seq<Node>, i: nat): (r: Store<V>)
    requires Total(apply) && Backed(s, order) && i <= |order|
    ensures r.Keys == s.Keys
  {
    if i == 0 then s
    else
      var n := order[i - 1];
      assert n in order;
      assert Members(n.outputs) <= s.Keys;
      Step(apply, Exec(apply, s, order, i - 1), n)
  }

  // ----- the equations -----

  /** Node `n`'s outputs are its operator applied to its inputs, both read from `s`. */
  ghost predicate Equation<V(!new)>(apply: Operator<V>, s: Store<V>, n: Node)
    requires Total(apply)
  {
    && (forall t :: t in n.inputs || t in n.outputs ==> t in s)
    && Gather(s, n.outputs) == apply(n, Gather(s, n.inputs))
  }

  /** `s` extends the initial store: unproduced tensors keep their values and every node's equation holds. */
  ghost predicate Solves<V(!new)>(apply: Operator<V>, s0: Store<V>, nodes: seq<Node>, s: Store<V>)
    requires Total(apply)
  {
    && s.Keys == s0.Keys
    && (forall t :: t in s0 && !W.Produced(nodes, t) ==> s[t] == s0[t])
    && (forall n :: n in nodes ==> Equation(apply, s, n))
  }

  /** An execution order: each node once, reading nothing it or a later node writes. */
  ghost predicate Ordered(order: seq<Node>) {
    && W.OneProducer(order)
    && forall i, j, t :: 0 <= i <= j < |order| && t in order[i].inputs ==> t !in order[j].outputs
  }

  lemma StepWrites<V(!new)>(apply: Operator<V>, s: Store<V>, n: Node)
    requires Total(apply) && (forall t :: t in n.inputs ==> t in s) && Distinct(n.outputs)
    ensures Step(apply, s, n).Keys == s.Keys + Members(n.outputs)
    ensures Gather(Step(apply, s, n), n.outputs) == apply(n, Gather(s, n.inputs))
    ensures forall t :: t in s && t !in n.outputs ==> Step(apply, s, n)[t] == s[t]
  {
    var vals := apply(n, Gather(s, n.inputs));
    forall i | 0 <= i < |n.outputs| ensures Gather(Step(apply, s, n), n.outputs)[i] == vals[i] {
      ScatterAt(s, n.outputs, vals, i);
    }
  }

  lemma SameReads<V>(a: Store<V>, b: Store<V>, ids: seq<TensorId>)
    requires forall t :: t in ids ==> t in a && t in b && a[t] == b[t]
    ensures Gather(a, ids) == Gather(b, ids)
  {
    forall i | 0 <= i < |ids| ensures Gather(a, ids)[i] == Gather(b, ids)[i] { assert ids[i] in ids; }
  }

  /** Tensors that the first `i` nodes do not write are untouched. */
  lemma {:induction false} ExecUntouched<V(!new)>(apply: Operator<V>, s0: Store<V>, order: seq<Node>, i: nat, t: TensorId)
    requires Total(apply) && Backed(s0, order) && i <= |order|
    requires t in s0 && forall k :: 0 <= k < i ==> t !in order[k].outputs
    ensures Exec(apply, s0, order, i)[t] == s0[t]
  {
    hide Scatter, Gather;
    if i > 0 {
      ExecUntouched(apply, s0, order, i - 1, t);
      assert order[i - 1] in order;
    }
  }

  ghost predicate SolvedTo<V(!new)>(apply: Operator<V>, s: Store<V>, order: seq<Node>, i: nat)
    requires Total(apply) && i <= |order|
  {
    forall k :: 0 <= k < i ==> Equation(apply, s, order[k])
  }

  /** After `i` nodes the equations of those nodes hold. */
  lemma {:induction false} ExecSolvesPrefix<V(!new)>(apply: Operator<V>, s0: Store<V>, order: seq<Node>, i: nat)
    requires Total(apply) && Backed(s0, order) && Ordered(order) && i <= |order|
    ensures SolvedTo(apply, Exec(apply, s0, order, i), order, i)
  {
    hide Equation, Ordered, Step;
    if i > 0 {
      ExecSolvesPrefix(apply, s0, order, i - 1);
      assert order[i - 1] in order;
      NextSolves(apply, s0, order, i, Exec(apply, s0, order, i - 1));
    }
  }

  lemma NextSolves<V(!new)>(apply: Operator<V>, s0: Store<V>, order: seq<Node>, i: nat, s: Store<V>)
    requires Total(apply) && Backed(s0, order) && Ordered(order) && 0 < i <= |order| && s.Keys == s0.Keys
    requires SolvedTo(apply, s, order, i - 1)
    ensures order[i - 1] in order && SolvedTo(apply, Step(apply, s, order[i - 1]), order, i)
  {
    hide Ordered, Equation, Step;
    forall k | 0 <= k < i ensures order[i - 1] in order && Equation(apply, Step(apply, s, order[i - 1]), order[k]) {
      StepKeeps(apply, s, order, i - 1, k);
    }
  }

  /** A step keeps the equations of the nodes before it and establishes its own. */
  lemma StepKeeps<V(!new)>(apply: Operator<V>, s: Store<V>, order: seq<Node>, i: nat, k: nat)
    requires Total(apply) && Backed(s, order) && Ordered(order) && k <= i < |order|
    requires k < i ==> Equation(apply, s, order[k])
    ensures Backed(s, order) && order[i] in order && Equation(apply, Step(apply, s, order[i]), order[k])
  {
    var n := order[i];
    assert order[k] in order;
    var s' := Step(apply, s, n);
    StepWrites(apply, s, n);
    assert forall t :: t in order[k].inputs ==> t !in n.outputs;
    SameReads(s, s', order[k].inputs);
    if k < i {
      forall t | t in order[k].outputs ensures t !in n.outputs { W.OneWriter(order, i, k, t); }
      SameReads(s, s', order[k].outputs);
    }
  }

  /** Running all nodes in such an order solves the graph's equations. */
  lemma ExecSolves<V(!new)>(apply: Operator<V>, s0: Store<V>, order: seq<Node>)
    requires Total(apply) && Backed(s0, order) && Ordered(order)
    ensures Solves(apply, s0, order, Exec(apply, s0, order, |order|))
  {
    ExecSolvesPrefix(apply, s0, order, |order|);
    var s := Exec(apply, s0, order, |order|);
    forall t | t in s0 && !W.Produced(order, t) ensures s[t] == s0[t] {
      forall k | 0 <= k < |order| ensures t !in order[k].outputs { assert order[k] in order; }
      ExecUntouched(apply, s0, order, |order|, t);
    }
  }

  /** The equations have one solution: two solutions agree on whatever the first `i` nodes write. */
  lemma {:induction false} SolutionsAgree<V(!new)>(apply: Operator<V>, s0: Store<V>, order: seq<Node>, a: Store<V>, b: Store<V>, i: nat, t: TensorId)
    requires Total(apply) && Backed(s0, order) && Ordered(order) && i <= |order|
    requires Solves(apply, s0, order, a) && Solves(apply, s0, order, b)
    requires t in s0 && forall k :: i <= k < |order| ==> t !in order[k].outputs
    ensures a[t] == b[t]
    decreases i
  {
    if exists k :: 0 <= k < i && t in order[k].outputs {
      var k :| 0 <= k < i && t in order[k].outputs;
      var n := order[k];
      assert n in order && Equation(apply, a, n) && Equation(apply, b, n);
      forall x | x in n.inputs ensures x in a && x in b && a[x] == b[x] {
        SolutionsAgree(apply, s0, order, a, b, k, x);
      }
      SameReads(a, b, n.inputs);
      var j :| 0 <= j < |n.outputs| && n.outputs[j] == t;
      assert Gather(a, n.outputs)[j] == Gather(b, n.outputs)[j];
    } else {
      assert !W.Produced(order, t) by {
        forall n | n in order ensures t !in n.outputs { var k :| 0 <= k < |order| && order[k] == n; }
      }
    }
  }

  lemma SolutionIsUnique<V(!new)>(apply: Operator<V>, s0: Store<V>, order: seq<Node>, a: Store<V>, b: Store<V>)
    requires Total(apply) && Backed(s0, order) && Ordered(order)
    requires Solves(apply, s0, order, a) && Solves(apply, s0, order, b)
    ensures a == b
  {
    forall t | t in s0 ensures a[t] == b[t] { SolutionsAgree(apply, s0, order, a, b, |order|, t); }
  }

  // ----- from plans to orders -----

  /** The first node with an id. */
  function FindNode(nodes: seq<Node>, id: NodeId): (r: Option<Node>)
    ensures r.Some? ==> r.value in nodes && r.value.id == id
    ensures r.None? ==> forall n :: n in nodes ==> n.id != id
  {
    if nodes == [] then None else if nodes[0].id == id then Some(nodes[0]) else FindNode(nodes[1..], id)
  }

  /** The nodes in the order in which the plan lists them. */
  function NodesOf(nodes: seq<Node>, ops: seq<P.Op>): (r: seq<Node>)
    requires forall i :: 0 <= i < |ops| ==> FindNode(nodes, ops[i].id).Some?
    ensures |r| == |ops| && forall i :: 0 <= i < |ops| ==> FindNode(nodes, ops[i].id) == Some(r[i])
  {
    seq(|ops|, i requires 0 <= i < |ops| => FindNode(nodes, ops[i].id).value)
  }

  ghost predicate SoundGraph(nodes: seq<Node>) {
    W.OneProducer(nodes) && Distinct(P.Ids(nodes)) && W.SelfFree(nodes)
  }

  /** A plan's order runs the graph's nodes, each once, and nothing reads a later node's output. */
  lemma PlanIsOrdered(nodes: seq<Node>, ops: seq<P.Op>)
    requires SoundGraph(nodes) && P.Covers(nodes, ops) && P.InOrder(nodes, ops)
    ensures forall i :: 0 <= i < |ops| ==> FindNode(nodes, ops[i].id).Some?
    ensures Ordered(NodesOf(nodes, ops))
    ensures forall n :: n in NodesOf(nodes, ops) <==> n in nodes
  {
    forall i | 0 <= i < |ops| ensures FindNode(nodes, ops[i].id).Some? { PlannedIsFound(nodes, ops, i); }
    var order := NodesOf(nodes, ops);
    OrderIsNodes(nodes, ops, order);
    OrderOneProducer(nodes, ops, order);
    forall i, j, t | 0 <= i <= j < |order| && t in order[i].inputs ensures t !in order[j].outputs {
      if t in order[j].outputs { ReadsEarlier(nodes, ops, order, i, j, t); }
    }
  }

  lemma PlannedIsFound(nodes: seq<Node>, ops: seq<P.Op>, i: nat)
    requires P.Covers(nodes, ops) && i < |ops|
    ensures FindNode(nodes, ops[i].id).Some?
  {
    assert P.FromNode(nodes, ops[i]);
  }

  lemma OrderOneProducer(nodes: seq<Node>, ops: seq<P.Op>, order: seq<Node>)
    requires SoundGraph(nodes) && P.Covers(nodes, ops)
    requires |order| == |ops| && forall i :: 0 <= i < |ops| ==> FindNode(nodes, ops[i].id) == Some(order[i])
    ensures W.OneProducer(order)
  {
    forall i, j, t | 0 <= i < j < |order| && t in order[i].outputs ensures t !in order[j].outputs {
      assert P.OpIds(ops)[i] != P.OpIds(ops)[j];
      if t in order[j].outputs { W.SameNode(nodes, order[i], order[j], t); }
    }
    forall i | 0 <= i < |order| ensures Distinct(order[i].outputs) {
      var k :| 0 <= k < |nodes| && nodes[k] == order[i];
    }
  }

  lemma OrderIsNodes(nodes: seq<Node>, ops: seq<P.Op>, order: seq<Node>)
    requires SoundGraph(nodes) && P.Covers(nodes, ops)
    requires |order| == |ops| && forall i :: 0 <= i < |ops| ==> FindNode(nodes, ops[i].id) == Some(order[i])
    ensures forall n :: n in order <==> n in nodes
  {
    forall n | n in nodes ensures n in order {
      var k :| 0 <= k < |nodes| && nodes[k] == n;
      assert P.Ids(nodes)[k] in Members(P.Ids(nodes));
      assert n.id in Members(P.OpIds(ops));
      var i :| 0 <= i < |ops| && P.OpIds(ops)[i] == n.id;
      W.SameIds(nodes, order[i], n);
      assert order[i] in order;
    }
  }

  /** What node `i` reads is written, if at all, by a strictly earlier node. */
  lemma ReadsEarlier(nodes: seq<Node>, ops: seq<P.Op>, order: seq<Node>, i: nat, j: nat, t: TensorId)
    requires SoundGraph(nodes) && P.Covers(nodes, ops) && P.InOrder(nodes, ops)
    requires |order| == |ops| && forall i :: 0 <= i < |ops| ==> FindNode(nodes, ops[i].id) == Some(order[i])
    requires i < |ops| && j < |ops| && t in order[i].inputs && t in order[j].outputs
    ensures j < i
  {
    var n, m := order[i], order[j];
    assert n in nodes && m in nodes;
    W.LastProducerIs(nodes, m, t);
    if m.id == n.id {
      W.SameIds(nodes, m, n);
      assert false;
    }
    assert P.ReadsAmong(nodes, n.inputs, n.id, m.id);
    assert P.Feeds(nodes, m.id, n.id);
    var k :| 0 <= k < i && P.OpIds(ops)[k] == m.id;
    DistinctAt(P.OpIds(ops), k, j);
  }

  // ----- running a plan -----

  datatype RunError = MissingNode(id: NodeId) | MissingInput(t: TensorId) | MissingOutput(t: TensorId)

  /** The first listed tensor without a buffer. */
  function FirstMissing<V>(s: Store<V>, ids: seq<TensorId>): (r: Option<TensorId>)
    ensures r.None? <==> forall t :: t in ids ==> t in s
    ensures r.Some? ==> r.value in ids && r.value !in s
  {
    if ids == [] then None else if ids[0] !in s then Some(ids[0]) else FirstMissing(s, ids[1..])
  }

  /** Why a planned operation cannot run on these buffers; nothing if it can. */
  function Fault<V>(nodes: seq<Node>, s: Store<V>, op: P.Op): Option<RunError> {
    match FindNode(nodes, op.id)
    case None => Some(MissingNode(op.id))
    case Some(n) =>
      match FirstMissing(s, n.inputs)
      case Some(t) => Some(MissingInput(t))
      case None => match FirstMissing(s, n.outputs) case Some(t) => Some(MissingOutput(t)) case None => None
  }

  /** The first `i` planned operations are found, have their buffers, and have run. */
  ghost predicate Ran<V(!new)>(apply: Operator<V>, nodes: seq<Node>, ops: seq<P.Op>, s0: Store<V>, i: nat, s: Store<V>)
    requires Total(apply) && i <= |ops|
  {
    && (forall k :: 0 <= k < i ==> Fault(nodes, s0, ops[k]).None?)
    && (forall k :: 0 <= k < i ==> FindNode(nodes, ops[k].id).Some?)
    && Backed(s0, NodesOf(nodes, ops[..i]))
    && s == Exec(apply, s0, NodesOf(nodes, ops[..i]), i)
  }

  lemma RanStep<V(!new)>(apply: Operator<V>, nodes: seq<Node>, ops: seq<P.Op>, s0: Store<V>, i: nat, s: Store<V>)
    requires Total(apply) && i < |ops| && Ran(apply, nodes, ops, s0, i, s) && Fault(nodes, s0, ops[i]).None?
    ensures s.Keys == s0.Keys && FindNode(nodes, ops[i].id).Some?
    ensures forall t :: t in FindNode(nodes, ops[i].id).value.inputs ==> t in s
    ensures Ran(apply, nodes, ops, s0, i + 1, Step(apply, s, FindNode(nodes, ops[i].id).value))
  {
    hide Step, FirstMissing, Backed, NodesOf, FindNode, Scatter, Gather;
    BackedStep(nodes, ops, s0, i);
    NodesOfTake(nodes, ops, i);
    ExecPrefix(apply, s0, NodesOf(nodes, ops[..i + 1]), i);
  }

  lemma BackedStep<V>(nodes: seq<Node>, ops: seq<P.Op>, s0: Store<V>, i: nat)
    requires i < |ops| && (forall k :: 0 <= k < i ==> FindNode(nodes, ops[k].id).Some?) && Backed(s0, NodesOf(nodes, ops[..i]))
    requires Fault(nodes, s0, ops[i]).None?
    ensures FindNode(nodes, ops[i].id).Some? && Backed(s0, NodesOf(nodes, ops[..i + 1]))
    ensures forall t :: t in FindNode(nodes, ops[i].id).value.inputs ==> t in s0
  {
    hide FirstMissing, FindNode;
    var order := NodesOf(nodes, ops[..i + 1]);
    NodesOfTake(nodes, ops, i);
    forall n, t | n in order && (t in n.inputs || t in n.outputs) ensures t in s0 {
      var k :| 0 <= k < |order| && order[k] == n;
      if k < i { assert NodesOf(nodes, ops[..i])[k] == n; }
    }
  }

  lemma SameFault<V>(nodes: seq<Node>, s: Store<V>, s': Store<V>, op: P.Op)
    requires s.Keys == s'.Keys
    ensures Fault(nodes, s, op) == Fault(nodes, s', op)
  {
    forall ids: seq<TensorId> ensures FirstMissing(s, ids) == FirstMissing(s', ids) { SameMissing(s, s', ids); }
  }

  lemma {:induction false} SameMissing<V>(s: Store<V>, s': Store<V>, ids: seq<TensorId>)
    requires s.Keys == s'.Keys
    ensures FirstMissing(s, ids) == FirstMissing(s', ids)
  {
    if ids != [] {
      assert ids[0] in s <==> ids[0] in s.Keys;
      SameMissing(s, s', ids[1..]);
    }
  }

  lemma RanKeys<V(!new)>(apply: Operator<V>, nodes: seq<Node>, ops: seq<P.Op>, s0: Store<V>, i: nat, s: Store<V>)
    requires Total(apply) && i <= |ops| && Ran(apply, nodes, ops, s0, i, s)
    ensures s.Keys == s0.Keys
  {}

  /**
   The session's loop: look up each planned node, find its input and output buffers, compute. It fails with the fault
   of the first operation that has one, and otherwise leaves the execution of the whole order.
   */
  method Run<V(!new)>(apply: Operator<V>, nodes: seq<Node>, ops: seq<P.Op>, s0: Store<V>) returns (r: Result<Store<V>, RunError>)
    requires Total(apply)
    ensures r.Success? <==> forall i :: 0 <= i < |ops| ==> Fault(nodes, s0, ops[i]).None?
    ensures r.Success? ==>
              (forall i :: 0 <= i < |ops| ==> FindNode(nodes, ops[i].id).Some?)
              && Backed(s0, NodesOf(nodes, ops)) && r.value == Exec(apply, s0, NodesOf(nodes, ops), |ops|)
    ensures r.Failure? ==>
              exists i :: 0 <= i < |ops| && Fault(nodes, s0, ops[i]) == Some(r.error) && forall k :: 0 <= k < i ==> Fault(nodes, s0, ops[k]).None?
  {
    var s := s0;
    for i := 0 to |ops|
      invariant Ran(apply, nodes, ops, s0, i, s)
    {
      hide Ran, Step, NodesOf, Exec, Backed, FindNode;
      RanKeys(apply, nodes, ops, s0, i, s);
      SameFault(nodes, s0, s, ops[i]);
      var n := FindNode(nodes, ops[i].id);
      if n.None? { return Failure(MissingNode(ops[i].id)); }
      var input := FirstMissing(s, n.value.inputs);
      if input.Some? { return Failure(MissingInput(input.value)); }
      var output := FirstMissing(s, n.value.outputs);
      if output.Some? { return Failure(MissingOutput(output.value)); }
      RanStep(apply, nodes, ops, s0, i, s);
      s := Step(apply, s, n.value);
    }
    assert ops[..|ops|] == ops;
    r := Success(s);
  }

  lemma NodesOfTake(nodes: seq<Node>, ops: seq<P.Op>, i: nat)
    requires i < |ops| && forall k :: 0 <= k <= i ==> FindNode(nodes, ops[k].id).Some?
    ensures NodesOf(nodes, ops[..i + 1])[..i] == NodesOf(nodes, ops[..i])
    ensures NodesOf(nodes, ops[..i + 1])[i] == FindNode(nodes, ops[i].id).value
    ensures forall n :: n in NodesOf(nodes, ops[..i + 1]) ==> n in nodes
  {}

  lemma {:induction false} ExecPrefix<V(!new)>(apply: Operator<V>, s: Store<V>, order: seq<Node>, i: nat)
    requires Total(apply) && Backed(s, order) && i <= |order|
    ensures Backed(s, order[..i]) && Exec(apply, s, order[..i], i) == Exec(apply, s, order, i)
  {
    ExecAgree(apply, s, order[..i], order, i);
  }

  lemma {:induction false} ExecAgree<V(!new)>(apply: Operator<V>, s: Store<V>, a: seq<Node>, b: seq<Node>, i: nat)
    requires Total(apply) && Backed(s, a) && Backed(s, b) && i <= |a| && i <= |b|
    requires forall k :: 0 <= k < i ==> a[k] == b[k]
    ensures Exec(apply, s, a, i) == Exec(apply, s, b, i)
  {
    hide Step;
    if i > 0 { ExecAgree(apply, s, a, b, i - 1); }
  }

  /** All tensors of a node have buffers. */
  ghost predicate NodeBacked<V>(s: Store<V>, n: Node) { forall t :: t in n.inputs || t in n.outputs ==> t in s }

  lemma FaultFree<V>(nodes: seq<Node>, op: P.Op, s: Store<V>, n: Node)
    requires FindNode(nodes, op.id) == Some(n)
    ensures Fault(nodes, s, op).None? <==> NodeBacked(s, n)
  {}

  /** A plan of a graph runs to its end exactly when every tensor that the graph reads or writes has a buffer. */
  lemma {:induction false} RunsIffBacked<V>(nodes: seq<Node>, ops: seq<P.Op>, s0: Store<V>)
    requires SoundGraph(nodes) && P.Covers(nodes, ops) && P.InOrder(nodes, ops)
    ensures (forall i :: 0 <= i < |ops| ==> Fault(nodes, s0, ops[i]).None?) <==> Backed(s0, nodes)
  {
    PlanIsOrdered(nodes, ops);
    hide *;
    AllBacked(nodes, ops, s0, NodesOf(nodes, ops));
  }

  lemma {:induction false} AllBacked<V>(nodes: seq<Node>, ops: seq<P.Op>, s0: Store<V>, order: seq<Node>)
    requires |order| == |ops| && forall i :: 0 <= i < |ops| ==> FindNode(nodes, ops[i].id) == Some(order[i])
    requires forall n :: n in order <==> n in nodes
    ensures (forall i :: 0 <= i < |ops| ==> Fault(nodes, s0, ops[i]).None?) <==> Backed(s0, nodes)
  {
    forall i | 0 <= i < |ops| ensures Fault(nodes, s0, ops[i]).None? <==> NodeBacked(s0, order[i]) { FaultFree(nodes, ops[i], s0, order[i]); }
    hide Fault, FindNode;
    assert Backed(s0, nodes) <==> forall n :: n in nodes ==> NodeBacked(s0, n);
    hide NodeBacked, Backed;
    forall i | 0 <= i < |order| ensures order[i] in nodes {}
  }

  /**
   A validated graph, planned by the planner and run, ends in the one store that solves its
   equations. Two plans of it, whatever orders they chose, end in the same store.
   */
  lemma {:induction false} PlanMeaning<V(!new)>(apply: Operator<V>, s0: Store<V>, nodes: seq<Node>, ops: seq<P.Op>, ops': seq<P.Op>)
    requires Total(apply) && Backed(s0, nodes) && SoundGraph(nodes)
    requires P.Covers(nodes, ops) && P.InOrder(nodes, ops) && P.Covers(nodes, ops') && P.InOrder(nodes, ops')
    ensures (forall i :: 0 <= i < |ops| ==> FindNode(nodes, ops[i].id).Some?) && (forall i :: 0 <= i < |ops'| ==> FindNode(nodes, ops'[i].id).Some?)
    ensures Backed(s0, NodesOf(nodes, ops)) && Backed(s0, NodesOf(nodes, ops'))
    ensures Solves(apply, s0, nodes, Exec(apply, s0, NodesOf(nodes, ops), |ops|))
    ensures forall s :: Solves(apply, s0, nodes, s) ==> s == Exec(apply, s0, NodesOf(nodes, ops), |ops|)
    ensures Exec(apply, s0, NodesOf(nodes, ops), |ops|) == Exec(apply, s0, NodesOf(nodes, ops'), |ops'|)
  {
    PlanIsOrdered(nodes, ops);
    PlanIsOrdered(nodes, ops');
    var order, order' := NodesOf(nodes, ops), NodesOf(nodes, ops');
    ExecSolves(apply, s0, order);
    ExecSolves(apply, s0, order');
    SameSolutions(apply, s0, order, nodes);
    SameSolutions(apply, s0, order', nodes);
    forall s | Solves(apply, s0, nodes, s) ensures s == Exec(apply, s0, order, |order|) {
      SolutionIsUnique(apply, s0, order, s, Exec(apply, s0, order, |order|));
    }
  }

  lemma SameSolutions<V(!new)>(apply: Operator<V>, s0: Store<V>, a: seq<Node>, b: seq<Node>)
    requires Total(apply) && forall n :: n in a <==> n in b
    ensures forall s :: Solves(apply, s0, a, s) <==> Solves(apply, s0, b, s)
  {
    forall t ensures W.Produced(a, t) <==> W.Produced(b, t) {}
  }

  /** Everything a validated graph with cycle checking promises the executor. */
  lemma ValidatedIsSound(g: Graph, registry: W.Registry, o: W.Options)
    requires W.Validates(g, registry, o) && o.checkCycles
    ensures SoundGraph(g.nodes)
    ensures forall n, t :: n in g.nodes && (t in n.inputs || t in n.outputs) ==> W.HasTensor(g.tensors, t)
  {
    forall n, t | n in g.nodes && (t in n.inputs || t in n.outputs) ensures W.HasTensor(g.tensors, t) {
      var i :| 0 <= i < |g.nodes| && g.nodes[i] == n;
      assert W.NodeGood(g.nodes[i], g.tensors, registry, o);
    }
  }
}
