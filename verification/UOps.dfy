/** The tensor graph: operations, nodes and the append-only store they live in. A node is named by its
    index, so sharing and node identity are explicit. */
module UOps {
  import opened Wrappers

  datatype Op =
    | OpBuffer | OpConst | OpLoad | OpStore | OpCopy
    | OpReshape | OpPermute | OpExpand | OpPad | OpShrink | OpFlip
    | OpExp2 | OpLog2 | OpSin | OpSqrt | OpReciprocal | OpNeg | OpCast
    | OpAdd | OpSub | OpMul | OpDiv | OpMod | OpMax | OpCmpLt | OpCmpEq
    | OpWhere
    | OpReduceSum | OpReduceMax
    | OpSink
  {
    predicate IsUnary() {
      this in {OpExp2, OpLog2, OpSin, OpSqrt, OpReciprocal, OpNeg, OpCast}
    }

    predicate IsBinary() {
      this in {OpAdd, OpSub, OpMul, OpDiv, OpMod, OpMax, OpCmpLt, OpCmpEq}
    }
  }

  datatype Arg = NoArg | BroadcastArg(shape: seq<nat>) | ConstArg(value: real) | OtherArg(tag: int)

  datatype Node = Node(op: Op, dtype: int, src: seq<nat>, arg: Arg, buf: Option<nat>)

  type Store = seq<Node>

  /** Nodes are built from existing nodes, so the graph is acyclic. */
  predicate Acyclic(s: Store) {
    forall id, k :: 0 <= id < |s| && 0 <= k < |s[id].src| ==> s[id].src[k] < id
  }

  /** Later stores only add nodes. */
  predicate Extends(s: Store, t: Store) {
    s <= t
  }
}
