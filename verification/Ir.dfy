/**
 The graph IR: tensors, nodes with typed attributes, and graphs. Enumerations are kept as their
 numeric codes, 64-bit floats as their bit patterns, and strings as sequences of characters.
 */
module Ir {
  type TensorId = nat
  type NodeId = nat

  datatype Version = Version(major: nat, minor: nat)

  const CURRENT := Version(1, 0)

  /** A file is readable when its major version matches and its minor version is not newer. */
  predicate Compatible(v: Version) { v.major == CURRENT.major && v.minor <= CURRENT.minor }

  const UNKNOWN_DTYPE: nat := 0

  datatype Tensor = Tensor(id: TensorId, name: string, dtype: nat, dims: seq<int>, hint: nat, isWeight: bool, weightRef: string, quant: nat)

  datatype AttrKind = StringKind | IntKind | FloatKind | BoolKind | IntsKind | FloatsKind

  datatype AttrValue =
    | StringValue(s: string)
    | IntValue(i: int)
    | FloatValue(bits: nat)
    | BoolValue(b: bool)
    | IntsValue(ints: seq<int>)
    | FloatsValue(floats: seq<nat>)

  /** The tag and the held alternative are separate fields and need not agree. */
  datatype Attribute = Attribute(key: string, kind: AttrKind, value: AttrValue) {
    predicate Agrees() {
      match kind
      case StringKind => value.StringValue?
      case IntKind => value.IntValue?
      case FloatKind => value.FloatValue?
      case BoolKind => value.BoolValue?
      case IntsKind => value.IntsValue?
      case FloatsKind => value.FloatsValue?
    }
  }

  datatype Node = Node(id: NodeId, name: string, opName: string, opVersion: string, inputs: seq<TensorId>, outputs: seq<TensorId>,
                       attributes: seq<Attribute>)

  datatype Graph = Graph(version: Version, name: string, producer: string, domain: string, tensors: seq<Tensor>, nodes: seq<Node>,
                         inputs: seq<TensorId>, outputs: seq<TensorId>, metadata: map<string, string>)
}
