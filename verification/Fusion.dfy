/** Fusing an elementwise expression graph into one list of operations per output element. */
module Fusion {
  import opened Wrappers
  import opened UOps

  /** Scalar arithmetic as the fused kernel performs it; `greater` decides a maximum. */
  datatype Alu<!S(!new)> = Alu(zero: S, unary: (Op, S) -> S, binary: (Op, S, S) -> S, greater: (S, S) -> bool)

  ghost predicate Fusible(op: Op) {
    op.IsUnary() || op.IsBinary()
  }

  /** A realized node, a non-elementwise one or a broadcast is a leaf of the fused expression. */
  ghost predicate IsLeaf(n: Node) {
    n.buf.Some? || !Fusible(n.op) || n.arg.BroadcastArg?
  }

  /** The ten operations the kernel has code for. */
  ghost predicate Implemented(op: Op) {
    op in {OpNeg, OpSqrt, OpReciprocal, OpExp2, OpLog2, OpAdd, OpSub, OpMul, OpDiv, OpMax}
  }

  /** Elementwise nodes have the sources their operation reads. */
  ghost predicate Shaped(s: Store) {
    && Acyclic(s)
    && forall id :: 0 <= id < |s| ==>
                      (s[id].op.IsUnary() ==> |s[id].src| >= 1)
                      && (s[id].op.IsBinary() ==> |s[id].src| >= 2)
  }

  ghost function Compute<S(!new)>(alu: Alu<S>, op: Op, a: S, b: S): S {
    if op.IsUnary() then alu.unary(op, a)
    else if op == OpMax then (if alu.greater(b, a) then b else a)
    else alu.binary(op, a, b)
  }

  /** Element `i` of the expression rooted at `id`, by recursion over the graph. With `gaps`, operations
      the kernel has no code for count as zero. */
  ghost function Eval<S(!new)>(alu: Alu<S>, s: Store, leaf: (nat, nat) -> S, gaps: bool, id: nat, i: nat): S
    requires Shaped(s) && id < |s|
    decreases id
  {
    var n := s[id];
    if IsLeaf(n) then leaf(id, i)
    else if gaps && !Implemented(n.op) then alu.zero
    else
      var a := Eval(alu, s, leaf, gaps, n.src[0], i);
      Compute(alu, n.op, a, if n.op.IsBinary() then Eval(alu, s, leaf, gaps, n.src[1], i) else a)
  }

  /** Real arithmetic; how the kernel compares is left open. */
  ghost predicate Arithmetic(alu: Alu<real>) {
    && (forall a, b :: alu.binary(OpAdd, a, b) == a + b && alu.binary(OpSub, a, b) == a - b)
    && (forall a, b :: alu.binary(OpMul, a, b) == a * b && (b != 0.0 ==> alu.binary(OpDiv, a, b) == a / b))
    && (forall a :: alu.unary(OpNeg, a) == -a && (a != 0.0 ==> alu.unary(OpReciprocal, a) == 1.0 / a))
  }

  /** The operations with code, as relations between the operands, in order, and the result; a maximum keeps
      the first unless the second is greater. */
  ghost predicate Relates(alu: Alu<real>, op: Op, a: real, b: real, r: real) {
    match op
    case OpAdd => r == a + b
    case OpSub => r + b == a
    case OpMul => r == a * b
    case OpDiv => b != 0.0 ==> r * b == a
    case OpMax => if alu.greater(b, a) then r == b else r == a
    case OpNeg => a + r == 0.0
    case OpReciprocal => a != 0.0 ==> a * r == 1.0
    case _ => r == alu.unary(op, a)
  }

  lemma ComputeRelates(alu: Alu<real>, op: Op, a: real, b: real)
    requires Arithmetic(alu) && Implemented(op)
    ensures Relates(alu, op, a, b, Compute(alu, op, a, b))
  {
    if op == OpDiv && b != 0.0 {
      assert Compute(alu, op, a, b) == a / b;
    }
  }

  /** In real arithmetic an element is the sum, difference, product or quotient of its first source's element
      and its second's, in this order, or the negative, reciprocal or function value of its one source's. */
  lemma ArithmeticElements(alu: Alu<real>, s: Store, leaf: (nat, nat) -> real, gaps: bool, id: nat, i: nat)
    requires Arithmetic(alu) && Shaped(s) && id < |s| && s[id].buf.None? && !s[id].arg.BroadcastArg?
    requires Implemented(s[id].op)
    ensures var a := Eval(alu, s, leaf, gaps, s[id].src[0], i);
            var b := if s[id].op.IsBinary() then Eval(alu, s, leaf, gaps, s[id].src[1], i) else a;
            Relates(alu, s[id].op, a, b, Eval(alu, s, leaf, gaps, id, i))
  {
    hide Arithmetic, Relates, Compute;
    var a := Eval(alu, s, leaf, gaps, s[id].src[0], i);
    ComputeRelates(alu, s[id].op, a, if s[id].op.IsBinary() then Eval(alu, s, leaf, gaps, s[id].src[1], i) else a);
  }

  // ---------------------------------------------------------------------------------------------
  // Linearisation

  datatype FusedOp = LeafOp(bufIdx: nat) | AluOp(op: Op, src0: int, src1: int)

  /** `buf` gives node `id` its first `n` elements. */
  ghost predicate LeafBuffer<S(!new)>(n: nat, leaf: (nat, nat) -> S, id: nat, buf: seq<S>) {
    |buf| >= n && forall i :: 0 <= i < n ==> buf[i] == leaf(id, i)
  }

  ghost predicate LeavesOk<S(!new)>(s: Store, n: nat, realize: nat -> seq<S>, leaf: (nat, nat) -> S) {
    forall id :: 0 <= id < |s| ==> LeafBuffer(n, leaf, id, realize(id))
  }

  /** The fused list under construction; `owner` names the node each operation stands for. */
  class FusedKernel<!S(!new)> {
    const s: Store
    ghost const leaf: (nat, nat) -> S
    const realize: nat -> seq<S>
    const n: nat
    var ops: seq<FusedOp>
    var bufs: seq<seq<S>>
    var visited: map<nat, nat>
    ghost var owner: seq<nat>

    /** `realize` gives a leaf's buffer; leaves hold at least `n` elements. */
    constructor (s: Store, n: nat, realize: nat -> seq<S>, ghost leaf: (nat, nat) -> S)
      requires Shaped(s) && LeavesOk(s, n, realize, leaf)
      ensures Valid() && this.s == s && this.n == n && this.leaf == leaf && ops == [] && visited == map[]
    {
      this.s, this.n, this.realize, this.leaf := s, n, realize, leaf;
      ops, bufs, visited, owner := [], [], map[], [];
    }

    /** Operation `j` computes node `owner[j]` from operations before it. */
    ghost predicate OpOk(j: nat)
      requires Shaped(s) && j < |ops| == |owner|
      reads this
    {
      && owner[j] < |s| && owner[j] in visited && visited[owner[j]] == j
      && (ops[j].LeafOp? <==> IsLeaf(s[owner[j]]))
      && (if ops[j].LeafOp? then ops[j].bufIdx < |bufs| && LeafBuffer(n, leaf, owner[j], bufs[ops[j].bufIdx])
          else ops[j].op == s[owner[j]].op && SourceOk(j, 0, ops[j].src0) && SourceOk(j, 1, ops[j].src1))
    }

    /** Source `k` of an operation is the earlier operation that stands for the node's source. */
    ghost predicate SourceOk(j: nat, k: nat, idx: int)
      requires Shaped(s) && j < |ops| == |owner| && owner[j] < |s|
      reads this
    {
      var src := s[owner[j]].src;
      if k < |src| then src[k] in visited && 0 <= idx < j && idx == visited[src[k]] else idx == -1
    }

    ghost predicate Valid()
      reads this
    {
      && Shaped(s) && LeavesOk(s, n, realize, leaf)
      && |owner| == |ops| && (forall j :: 0 <= j < |owner| ==> owner[j] < |s|)
      && (forall j :: 0 <= j < |ops| ==> OpOk(j))
      && forall id :: id in visited ==> visited[id] < |ops| && owner[visited[id]] == id
    }

    /** A shared node appears once, and every operation reads only operations before it. */
    lemma OrderedOnce(j: nat, k: nat)
      requires Valid() && j < |ops| && k < |ops|
      ensures owner[j] == owner[k] <==> j == k
      ensures ops[j].AluOp? ==> ops[j].src0 < j && ops[j].src1 < j
    {
      assert OpOk(j) && OpOk(k);
    }

    /** Appends the operations of `id`'s expression in dependency order; a node met again is shared. */
    method Walk(id: nat) returns (idx: nat)
      requires Valid() && id < |s|
      modifies this
      ensures Valid() && idx < |ops| && id in visited && visited[id] == idx
      ensures old(ops) <= ops && old(bufs) <= bufs && old(owner) <= owner
      ensures forall x :: x in old(visited) ==> x in visited && visited[x] == old(visited)[x]
      ensures id !in old(visited) ==> idx == |ops| - 1
      ensures forall x :: x in visited ==> x in old(visited) || x <= id
      decreases id, 1
    {
      hide OpOk, LeafBuffer, LeavesOk;
      if id in visited {
        return visited[id];
      }
      var node := s[id];
      if node.buf.Some? || !(node.op.IsUnary() || node.op.IsBinary()) || node.arg.BroadcastArg? {
        idx := AppendLeaf(id);
        return;
      }
      var src0, src1 := WalkSources(id);
      idx := AppendAlu(id, src0, src1);
    }

    /** The sources an operation reads, in order; -1 for one that is not there. */
    method WalkSources(id: nat) returns (src0: int, src1: int)
      requires Valid() && id < |s|
      modifies this
      ensures Valid() && old(ops) <= ops && old(bufs) <= bufs && old(owner) <= owner
      ensures forall x :: x in old(visited) ==> x in visited && visited[x] == old(visited)[x]
      ensures forall x :: x in visited ==> x in old(visited) || x < id
      ensures if |s[id].src| > 0 then s[id].src[0] in visited && src0 == visited[s[id].src[0]] else src0 == -1
      ensures if |s[id].src| > 1 then s[id].src[1] in visited && src1 == visited[s[id].src[1]] else src1 == -1
      decreases id, 0
    {
      hide OpOk, LeafBuffer, LeavesOk;
      var src := s[id].src;
      src0, src1 := -1, -1;
      if 0 < |src| {
        src0 := Walk(src[0]);
      }
      if 1 < |src| {
        src1 := Walk(src[1]);
      }
    }

    method AppendLeaf(id: nat) returns (idx: nat)
      requires Valid() && id < |s| && IsLeaf(s[id]) && id !in visited
      modifies this
      ensures Valid() && visited == old(visited)[id := idx] && idx == |old(ops)|
      ensures |ops| == |old(ops)| + 1 && old(ops) <= ops && old(bufs) <= bufs && owner == old(owner) + [id]
    {
      idx := |ops|;
      assert LeafBuffer(n, leaf, id, realize(id));
      hide LeafBuffer, LeavesOk;
      bufs := bufs + [realize(id)];
      ops := ops + [LeafOp(|bufs| - 1)];
      visited := visited[id := idx];
      owner := owner + [id];
      forall j | 0 <= j < |ops|
        ensures OpOk(j)
      {
        assert j < idx ==> old(OpOk(j));
      }
    }

    method AppendAlu(id: nat, src0: int, src1: int) returns (idx: nat)
      requires Valid() && id < |s| && !IsLeaf(s[id]) && id !in visited
      requires if |s[id].src| > 0 then s[id].src[0] in visited && src0 == visited[s[id].src[0]] else src0 == -1
      requires if |s[id].src| > 1 then s[id].src[1] in visited && src1 == visited[s[id].src[1]] else src1 == -1
      modifies this`ops, this`visited, this`owner
      ensures Valid() && visited == old(visited)[id := idx] && idx == |old(ops)|
      ensures ops == old(ops) + [AluOp(s[id].op, src0, src1)] && owner == old(owner) + [id]
    {
      hide LeafBuffer, LeavesOk;
      idx := |ops|;
      ops := ops + [AluOp(s[id].op, src0, src1)];
      visited := visited[id := idx];
      owner := owner + [id];
      forall j | 0 <= j < |ops|
        ensures OpOk(j)
      {
        assert j < idx ==> old(OpOk(j));
      }
    }

    // -------------------------------------------------------------------------------------------
    // Execution

    /** The value operation `j` leaves in its slot for element `i`. */
    ghost predicate Holds(alu: Alu<S>, vals: seq<S>, j: nat, i: nat)
      requires Valid() && j < |ops| == |vals|
      reads this
    {
      vals[j] == Eval(alu, s, leaf, true, owner[j], i)
    }

    /** One element: each slot is computed from earlier slots. Slots of operations without code are never
        written and keep the zero they start with. */
    method ExecuteElement(alu: Alu<S>, vals: array<S>, i: nat)
      requires Valid() && i < n && vals.Length == |ops|
      requires forall j :: 0 <= j < |ops| && ops[j].AluOp? && !Implemented(ops[j].op) ==> vals[j] == alu.zero
      modifies vals
      ensures forall j :: 0 <= j < |ops| ==> Holds(alu, vals[..], j, i)
      ensures forall j :: 0 <= j < |ops| && ops[j].AluOp? && !Implemented(ops[j].op) ==> vals[j] == alu.zero
    {
      for j := 0 to |ops|
        invariant forall k :: 0 <= k < j ==> Holds(alu, vals[..], k, i)
        invariant forall k :: 0 <= k < |ops| && ops[k].AluOp? && !Implemented(ops[k].op) ==> vals[k] == alu.zero
      {
        ghost var before := vals[..];
        ExecuteOp(alu, vals, j, i);
        forall k | 0 <= k <= j
          ensures Holds(alu, vals[..], k, i)
        {
          assert k < j ==> Holds(alu, before, k, i);
        }
      }
    }

    /** One slot. */
    method ExecuteOp(alu: Alu<S>, vals: array<S>, j: nat, i: nat)
      requires Valid() && i < n && vals.Length == |ops| && j < |ops|
      requires forall k :: 0 <= k < j ==> Holds(alu, vals[..], k, i)
      requires ops[j].AluOp? && !Implemented(ops[j].op) ==> vals[j] == alu.zero
      modifies vals
      ensures vals[j] == Eval(alu, s, leaf, true, owner[j], i)
      ensures forall k :: 0 <= k < |ops| && k != j ==> vals[k] == old(vals[k])
      ensures ops[j].AluOp? && !Implemented(ops[j].op) ==> vals[j] == alu.zero
    {
      ValueOf(alu, j, i);
      match ops[j]
      case LeafOp(bufIdx) =>
        vals[j] := bufs[bufIdx][i];
      case AluOp(op, src0, src1) =>
        SourceValues(alu, vals[..], j, i);
        var a := vals[src0];
        match op
        case OpNeg | OpSqrt | OpReciprocal | OpExp2 | OpLog2 =>
          vals[j] := alu.unary(op, a);
        case OpAdd | OpSub | OpMul | OpDiv =>
          vals[j] := alu.binary(op, a, vals[src1]);
        case OpMax =>
          var b := vals[src1];
          vals[j] := if alu.greater(b, a) then b else a;
        case _ =>
    }

    /** Unfolds the meaning of one operation. */
    lemma ValueOf(alu: Alu<S>, j: nat, i: nat)
      requires Valid() && j < |ops| && i < n
      ensures OpOk(j)
      ensures ops[j].LeafOp? ==> Eval(alu, s, leaf, true, owner[j], i) == bufs[ops[j].bufIdx][i]
      ensures ops[j].AluOp? && !Implemented(ops[j].op) ==> Eval(alu, s, leaf, true, owner[j], i) == alu.zero
      ensures ops[j].AluOp? && Implemented(ops[j].op) ==>
                var a := Eval(alu, s, leaf, true, s[owner[j]].src[0], i);
                Eval(alu, s, leaf, true, owner[j], i) ==
                Compute(alu, ops[j].op, a, if ops[j].op.IsBinary() then Eval(alu, s, leaf, true, s[owner[j]].src[1], i)
                        else a)
    {
      assert OpOk(j);
    }

    lemma SourceValues(alu: Alu<S>, vals: seq<S>, j: nat, i: nat)
      requires Valid() && j < |ops| == |vals| && ops[j].AluOp? && forall k :: 0 <= k < j ==> Holds(alu, vals, k, i)
      ensures OpOk(j) && Fusible(ops[j].op)
      ensures 0 <= ops[j].src0 < j && vals[ops[j].src0] == Eval(alu, s, leaf, true, s[owner[j]].src[0], i)
      ensures ops[j].op.IsBinary() ==>
                0 <= ops[j].src1 < j && vals[ops[j].src1] == Eval(alu, s, leaf, true, s[owner[j]].src[1], i)
    {
      assert OpOk(j);
      var src := s[owner[j]].src;
      assert Holds(alu, vals, ops[j].src0, i);
      assert OpOk(ops[j].src0);
      if ops[j].op.IsBinary() {
        assert Holds(alu, vals, ops[j].src1, i);
        assert OpOk(ops[j].src1);
      }
    }

    /** Runs the list for every element; the last operation is the root. */
    method Execute(alu: Alu<S>) returns (out: seq<S>)
      requires Valid() && ops != []
      ensures |out| == n
      ensures forall i :: 0 <= i < n ==> out[i] == Eval(alu, s, leaf, true, owner[|ops| - 1], i)
    {
      var vals := new S[|ops|](_ => alu.zero);
      out := [];
      for i := 0 to n
        invariant |out| == i && vals.Length == |ops| && fresh(vals)
        invariant forall k :: 0 <= k < i ==> out[k] == Eval(alu, s, leaf, true, owner[|ops| - 1], k)
        invariant forall j :: 0 <= j < |ops| && ops[j].AluOp? && !Implemented(ops[j].op) ==> vals[j] == alu.zero
      {
        ExecuteElement(alu, vals, i);
        assert Holds(alu, vals[..], |ops| - 1, i);
        out := out + [vals[|ops| - 1]];
      }
    }
  }

  // ---------------------------------------------------------------------------------------------
  // The fused result against the graph

  /** Fuses the expression at `root` and runs it. Expressions whose root is not elementwise, or is a
      broadcast, are not fused. */
  method FuseAndExecute<S(!new)>(alu: Alu<S>, s: Store, root: nat, n: nat, realize: nat -> seq<S>, ghost leaf: (nat,
                                   nat) -> S) returns (out: Option<seq<S>>)
    requires Shaped(s) && root < |s| && LeavesOk(s, n, realize, leaf)
    ensures out.Some? <==>
            !s[root].arg.BroadcastArg?
            && s[root].op in {OpExp2, OpLog2, OpSin, OpSqrt, OpReciprocal, OpNeg, OpCast,
                              OpAdd, OpSub, OpMul, OpDiv, OpMod, OpMax, OpCmpLt, OpCmpEq}
    ensures out.Some? ==> |out.value| == n && forall i :: 0 <= i < n ==>
                                                            out.value[i] == Eval(alu, s, leaf, true, root, i)
  {
    if !(s[root].op.IsUnary() || s[root].op.IsBinary()) || s[root].arg.BroadcastArg? {
      return None;
    }
    var k := new FusedKernel(s, n, realize, leaf);
    var idx := k.Walk(root);
    assert k.owner[idx] == root;
    var values := k.Execute(alu);
    return Some(values);
  }

  /** Every operation that is fused below `id` has code. */
  ghost predicate AllImplemented(s: Store, id: nat)
    requires Shaped(s) && id < |s|
    decreases id
  {
    IsLeaf(s[id]) ||
    (Implemented(s[id].op) && AllImplemented(s, s[id].src[0])
     && (s[id].op.IsBinary() ==> AllImplemented(s, s[id].src[1])))
  }

  /** Then the fused elements are the expression's elements, in any arithmetic. */
  lemma {:induction false} NoGaps<S(!new)>(alu: Alu<S>, s: Store, leaf: (nat, nat) -> S, id: nat, i: nat)
    requires Shaped(s) && id < |s| && AllImplemented(s, id)
    ensures Eval(alu, s, leaf, true, id, i) == Eval(alu, s, leaf, false, id, i)
    decreases id
  {
    if !IsLeaf(s[id]) {
      NoGaps(alu, s, leaf, s[id].src[0], i);
      if s[id].op.IsBinary() {
        NoGaps(alu, s, leaf, s[id].src[1], i);
      }
    }
  }

  /** Arithmetic of marks: every operation passes a mark on, and one without code makes a mark. */
  ghost function MarkAlu(): Alu<bool> {
    Alu(false, (op, a) => a || !Implemented(op), (op, a, b) => a || b || !Implemented(op), (a, b) => a && !b)
  }

  lemma {:induction false} Marks(s: Store, id: nat, i: nat)
    requires Shaped(s) && id < |s|
    ensures Eval(MarkAlu(), s, (l, j) => false, true, id, i) == false
    ensures Eval(MarkAlu(), s, (l, j) => false, false, id, i) == !AllImplemented(s, id)
    decreases id
  {
    if !IsLeaf(s[id]) {
      Marks(s, s[id].src[0], i);
      if s[id].op.IsBinary() {
        Marks(s, s[id].src[1], i);
      }
    }
  }

  ghost predicate FusesRight<S(!new)>(alu: Alu<S>, s: Store, leaf: (nat, nat) -> S, root: nat) {
    Shaped(s) && root < |s| && forall i: nat :: Eval(alu, s, leaf, true, root, i) == Eval(alu, s, leaf, false, root, i)
  }

  /** Fusion computes the expression whatever the arithmetic and the leaves exactly when it meets none of
      the operations it admits but has no code for (sine, cast, modulo and the two comparisons). */
  lemma FusionExact(s: Store, root: nat)
    requires Shaped(s) && root < |s|
    ensures AllImplemented(s, root) <==>
            forall alu: Alu<bool>, leaf: (nat, nat) -> bool :: FusesRight(alu, s, leaf, root)
  {
    if AllImplemented(s, root) {
      forall alu: Alu<bool>, leaf: (nat, nat) -> bool
        ensures FusesRight(alu, s, leaf, root)
      {
        forall i: nat
          ensures Eval(alu, s, leaf, true, root, i) == Eval(alu, s, leaf, false, root, i)
        {
          NoGaps(alu, s, leaf, root, i);
        }
      }
    } else {
      Marks(s, root, 0);
      assert !FusesRight(MarkAlu(), s, (l, j) => false, root);
    }
  }
}
