/** The default simplification rules, and the conditions under which rewriting with them is sound. The
    arithmetic is a parameter: constants fold as they evaluate, zero and one are units, a product with
    zero is zero, negating twice changes nothing, and a reshape of a reshape is the outer one. Each rule is
    settled capture by capture: on a node it matches it either gives a lighter node of the same meaning
    or stays away, and adding nodes to the graph does not change which. */
module StandardRules {
  import opened Wrappers
  import opened UOps
  import opened Patterns
  import opened RuleMatchers
  import opened GraphRewrites

  // ---------------------------------------------------------------------------------------------
  // The rules

  /** Constant arithmetic as the rules fold it. */
  datatype Folding = Folding(
    add: (real, real) -> real, sub: (real, real) -> real, mul: (real, real) -> real, div: (real, real) -> real,
    neg: real -> real, sqrt: real -> real, exp2: real -> real, log2: real -> real)

  function OpPat(op: Op, src: seq<UPat>): UPat {
    Pat(Some([op]), "", true, src, None)
  }

  function Var(name: string): UPat {
    Pat(None, name, false, [], None)
  }

  function ConstPat(name: string): UPat {
    Pat(Some([OpConst]), name, false, [], None)
  }

  function ConstIs(v: real): UPat {
    Pat(Some([OpConst]), "", false, [], Some(a => a == ConstArg(v)))
  }

  function ConstNode(dtype: int, v: real): Node {
    Node(OpConst, dtype, [], ConstArg(v), None)
  }

  function WithConst(s: Store, id: nat, v: real): Option<(Store, nat)>
    requires id < |s|
  {
    Some((s + [ConstNode(s[id].dtype, v)], |s|))
  }

  /** The value of a captured constant. */
  function Captured(b: Bindings, s: Store, name: string): Option<real> {
    if name in b && b[name] < |s| && s[b[name]].arg.ConstArg? then Some(s[b[name]].arg.value) else None
  }

  function FoldTwo(f: (real, real) -> real, b: Bindings, s: Store, id: nat): Option<(Store, nat)> {
    var x, y := Captured(b, s, "a"), Captured(b, s, "b");
    if x.Some? && y.Some? && id < |s| then WithConst(s, id, f(x.value, y.value)) else None
  }

  function FoldOne(f: real -> real, b: Bindings, s: Store, id: nat): Option<(Store, nat)> {
    var x := Captured(b, s, "a");
    if x.Some? && id < |s| then WithConst(s, id, f(x.value)) else None
  }

  function Fold2(op: Op, f: (real, real) -> real): Rule {
    Rule(OpPat(op, [ConstPat("a"), ConstPat("b")]), Some((b: Bindings, s: Store, id: nat) => FoldTwo(f, b, s, id)))
  }

  function Fold1(op: Op, f: real -> real): Rule {
    Rule(OpPat(op, [ConstPat("a")]), Some((b: Bindings, s: Store, id: nat) => FoldOne(f, b, s, id)))
  }

  /** The capture "x" stands for the whole node. */
  function KeepCapture(b: Bindings, s: Store): Option<(Store, nat)> {
    if "x" in b then Some((s, b["x"])) else None
  }

  function Keep(src: seq<UPat>, op: Op): Rule {
    Rule(OpPat(op, src), Some((b: Bindings, s: Store, id: nat) => KeepCapture(b, s)))
  }

  function KeepLeft(op: Op, v: real): Rule {
    Keep([Var("x"), ConstIs(v)], op)
  }

  function KeepRight(op: Op, v: real): Rule {
    Keep([ConstIs(v), Var("x")], op)
  }

  function ToZero(s: Store, id: nat): Option<(Store, nat)> {
    if id < |s| then WithConst(s, id, 0.0) else None
  }

  /** A product with zero. */
  function Annihilate(src: seq<UPat>): Rule {
    Rule(OpPat(OpMul, src), Some((b: Bindings, s: Store, id: nat) => ToZero(s, id)))
  }

  function DoubleNegation(): Rule {
    Keep([OpPat(OpNeg, [Var("x")])], OpNeg)
  }

  function ReshapeCapture(b: Bindings, s: Store, id: nat): Option<(Store, nat)> {
    if "x" in b && id < |s| then Some((s + [Node(OpReshape, s[id].dtype, [b["x"]], s[id].arg, None)], |s|)) else None
  }

  function DoubleReshape(): Rule {
    Rule(OpPat(OpReshape, [OpPat(OpReshape, [Var("x")])]),
         Some((b: Bindings, s: Store, id: nat) => ReshapeCapture(b, s, id)))
  }

  function Rules(f: Folding): seq<Rule> {
    [Fold2(OpAdd, f.add), Fold2(OpSub, f.sub), Fold2(OpMul, f.mul), Fold2(OpDiv, f.div),
     Fold1(OpNeg, f.neg), Fold1(OpSqrt, f.sqrt), Fold1(OpExp2, f.exp2), Fold1(OpLog2, f.log2),
     KeepLeft(OpAdd, 0.0), KeepRight(OpAdd, 0.0), KeepLeft(OpMul, 1.0), KeepRight(OpMul, 1.0),
     Annihilate([Var("_"), ConstIs(0.0)]), Annihilate([ConstIs(0.0), Var("_")]),
     KeepLeft(OpSub, 0.0), KeepLeft(OpDiv, 1.0), DoubleNegation(), DoubleReshape()]
  }

  // ---------------------------------------------------------------------------------------------
  // The algebra

  function Sum(ws: seq<nat>): nat {
    if ws == [] then 0 else Sum(ws[..|ws| - 1]) + ws[|ws| - 1]
  }

  /** Weight by node count of the unfolded expression. */
  function Counting<V(!new)>(eval: (Op, int, Arg, Option<nat>, seq<V>) -> V): Algebra<V> {
    Algebra(eval, (op, t, a, b, ws) => 1 + Sum(ws))
  }

  lemma {:induction false} SumMono(ws: seq<nat>, vs: seq<nat>)
    requires Pointwise(ws, vs)
    ensures Sum(ws) <= Sum(vs)
    decreases |ws|
  {
    if ws != [] {
      var n := |ws| - 1;
      SumMono(ws[..n], vs[..n]);
    }
  }

  lemma {:induction false} SumBounds(ws: seq<nat>, k: nat)
    requires k < |ws|
    ensures ws[k] <= Sum(ws)
    decreases |ws|
  {
    var n := |ws| - 1;
    if k < n {
      SumBounds(ws[..n], k);
    }
  }

  lemma CountingMonotone<V(!new)>(eval: (Op, int, Arg, Option<nat>, seq<V>) -> V)
    ensures Monotone(Counting(eval))
  {
    var alg := Counting(eval);
    forall op: Op, t: int, a: Arg, b: Option<nat>, ws: seq<nat>, k | 0 <= k < |ws|
      ensures ws[k] < alg.weigh(op, t, a, b, ws)
    {
      SumBounds(ws, k);
    }
    forall op: Op, t: int, a: Arg, b: Option<nat>, ws: seq<nat>, vs: seq<nat> | Pointwise(ws, vs)
      ensures alg.weigh(op, t, a, b, ws) <= alg.weigh(op, t, a, b, vs)
    {
      SumMono(ws, vs);
    }
  }

  type Eval<!V> = (Op, int, Arg, Option<nat>, seq<V>) -> V

  ghost predicate Folds2<V(!new)>(eval: Eval<V>, k: real -> V, op: Op, f: (real, real) -> real) {
    forall t, a, b, x, y :: eval(op, t, a, b, [k(x), k(y)]) == k(f(x, y))
  }

  ghost predicate Folds1<V(!new)>(eval: Eval<V>, k: real -> V, op: Op, f: real -> real) {
    forall t, a, b, x :: eval(op, t, a, b, [k(x)]) == k(f(x))
  }

  ghost predicate LeftUnit<V(!new)>(eval: Eval<V>, op: Op, u: V) {
    forall t, a, b, x :: eval(op, t, a, b, [u, x]) == x
  }

  ghost predicate RightUnit<V(!new)>(eval: Eval<V>, op: Op, u: V) {
    forall t, a, b, x :: eval(op, t, a, b, [x, u]) == x
  }

  ghost predicate Zero<V(!new)>(eval: Eval<V>, z: V) {
    (forall t, a, b, x :: eval(OpMul, t, a, b, [x, z]) == z) && (forall t, a, b, x :: eval(OpMul, t, a, b, [z, x]) == z)
  }

  /** The identities the rules rely on; `k` is the meaning of a constant. */
  ghost predicate Laws<V(!new)>(eval: Eval<V>, k: real -> V, f: Folding) {
    && (forall t, v, b, xs :: eval(OpConst, t, ConstArg(v), b, xs) == k(v))
    && Folds2(eval, k, OpAdd, f.add) && Folds2(eval, k, OpSub, f.sub) && Folds2(eval, k, OpMul, f.mul)
    && Folds2(eval, k, OpDiv, f.div)
    && Folds1(eval, k, OpNeg, f.neg) && Folds1(eval, k, OpSqrt, f.sqrt) && Folds1(eval, k, OpExp2, f.exp2)
    && Folds1(eval, k, OpLog2, f.log2)
    && RightUnit(eval, OpAdd, k(0.0)) && LeftUnit(eval, OpAdd, k(0.0)) && RightUnit(eval, OpMul, k(1.0))
    && LeftUnit(eval, OpMul, k(1.0))
    && Zero(eval, k(0.0)) && RightUnit(eval, OpSub, k(0.0)) && RightUnit(eval, OpDiv, k(1.0))
    && (forall t, a, b, t', a', b', x :: eval(OpNeg, t, a, b, [eval(OpNeg, t', a', b', [x])]) == x)
    && (forall t, a, b, t', a', b', x ::
          eval(OpReshape, t, a, b, [eval(OpReshape, t', a', b', [x])]) == eval(OpReshape, t, a, None, [x]))
  }

  // ---------------------------------------------------------------------------------------------
  // Matches do not depend on later nodes

  lemma {:induction false} ExplainsStable(p: UPat, s: Store, t: Store, id: nat, b: Bindings)
    requires Acyclic(s) && Acyclic(t) && Extends(s, t) && id < |s|
    ensures Explains(p, s, id, b) == Explains(p, t, id, b)
    decreases p
  {
    assert s[id] == t[id];
    if HeadOk(p, s, id) && p.checkSrc {
      forall k | 0 <= k < |p.src|
        ensures Explains(p.src[k], s, s[id].src[k], b) == Explains(p.src[k], t, t[id].src[k], b)
      {
        ExplainsStable(p.src[k], s, t, s[id].src[k], b);
      }
    }
  }

  lemma CapturesStable(p: UPat, s: Store, t: Store, id: nat)
    requires Acyclic(s) && Acyclic(t) && Extends(s, t) && id < |s|
    ensures CapturesOf(p, s, id) == CapturesOf(p, t, id)
  {
    forall b: Bindings
      ensures IsCapture(p, s, id, b) == IsCapture(p, t, id, b)
    {
      ExplainsStable(p, s, t, id, b);
    }
    if b1: Bindings :| IsCapture(p, s, id, b1) {
      var b2, b3 := CapturesOf(p, s, id).value, CapturesOf(p, t, id).value;
      assert IsCapture(p, s, id, b2) && IsCapture(p, t, id, b3) && IsCapture(p, t, id, b2);
      CapturesUnique(p, t, id, b2, b3);
    }
  }

  /** On this capture the rule improves the node if it applies, and whether it applies stays settled when
      nodes are added. */
  ghost predicate SettledOn<V(!new)>(alg: Algebra<V>, r: Rule, s: Store, id: nat, b: Bindings)
    requires Acyclic(s) && id < |s|
  {
    && Usable(r)
    && (r.rewrite.value(b, s, id).Some? ==> Improves(alg, s, id, r.rewrite.value(b, s, id).value))
    && forall t: Store :: Acyclic(t) && Extends(s, t) ==>
                            r.rewrite.value(b, s, id).None? == r.rewrite.value(b, t, id).None?
  }

  lemma SoundFrom<V(!new)>(alg: Algebra<V>, r: Rule)
    requires forall s: Store, id: nat, b: Bindings ::
               Acyclic(s) && id < |s| && IsCapture(r.pat, s, id, b) ==> SettledOn(alg, r, s, id, b)
    ensures Sound(alg, r)
  {
    forall s: Store, id: nat | Acyclic(s) && id < |s| && Applied(r, s, id).Some?
      ensures Improves(alg, s, id, Applied(r, s, id).value)
    {
      assert IsCapture(r.pat, s, id, CapturesOf(r.pat, s, id).value);
    }
    forall s: Store, t: Store, id: nat | Acyclic(s) && Acyclic(t) && Extends(s, t) && id < |s|
      ensures Applied(r, s, id).None? == Applied(r, t, id).None?
    {
      CapturesStable(r.pat, s, t, id);
      if CapturesOf(r.pat, s, id).Some? {
        assert IsCapture(r.pat, s, id, CapturesOf(r.pat, s, id).value);
      }
    }
  }

  // ---------------------------------------------------------------------------------------------
  // Rule by rule

  lemma NoSource<V(!new)>(eval: Eval<V>, s: Store, id: nat)
    requires Acyclic(s) && id < |s| && s[id].src == []
    ensures var n, alg := s[id], Counting(eval);
            Meaning(alg, s, id) == eval(n.op, n.dtype, n.arg, n.buf, []) && Weight(alg, s, id) == 1
  {
    assert Meanings(Counting(eval), s, id) == [];
    assert Weights(Counting(eval), s, id) == [];
  }

  /** Meaning and weight of a node with one or two sources. */
  lemma OneSource<V(!new)>(eval: Eval<V>, s: Store, id: nat)
    requires Acyclic(s) && id < |s| && |s[id].src| == 1
    ensures var n, alg := s[id], Counting(eval);
            && Meaning(alg, s, id) == eval(n.op, n.dtype, n.arg, n.buf, [Meaning(alg, s, n.src[0])])
            && Weight(alg, s, id) == 1 + Weight(alg, s, n.src[0])
  {
    var n, alg := s[id], Counting(eval);
    var w := Weight(alg, s, n.src[0]);
    SumTwo(w, 0);
    assert Meanings(alg, s, id) == [Meaning(alg, s, n.src[0])];
    assert Weights(alg, s, id) == [w];
  }

  lemma TwoSources<V(!new)>(eval: Eval<V>, s: Store, id: nat)
    requires Acyclic(s) && id < |s| && |s[id].src| == 2
    ensures var n, alg := s[id], Counting(eval);
            && Meaning(alg, s, id) ==
               eval(n.op, n.dtype, n.arg, n.buf, [Meaning(alg, s, n.src[0]), Meaning(alg, s, n.src[1])])
            && Weight(alg, s, id) == 1 + Weight(alg, s, n.src[0]) + Weight(alg, s, n.src[1])
  {
    var n, alg := s[id], Counting(eval);
    TwoMeanings(alg, s, id);
    SumTwo(Weight(alg, s, n.src[0]), Weight(alg, s, n.src[1]));
    hide Meanings, Weights, Sum;
  }

  lemma TwoMeanings<V(!new)>(alg: Algebra<V>, s: Store, id: nat)
    requires Acyclic(s) && id < |s| && |s[id].src| == 2
    ensures Meanings(alg, s, id) == [Meaning(alg, s, s[id].src[0]), Meaning(alg, s, s[id].src[1])]
    ensures Weights(alg, s, id) == [Weight(alg, s, s[id].src[0]), Weight(alg, s, s[id].src[1])]
  {
    hide Meaning, Weight;
  }

  lemma SumTwo(a: nat, b: nat)
    ensures Sum([a]) == a && Sum([a, b]) == a + b
  {
    assert [a][..0] == [];
    assert Sum([a]) == Sum([]) + a;
    assert [a, b][..1] == [a];
  }

  /** What a match of an operation pattern with one or two child patterns says. */
  lemma Matched1(op: Op, p: UPat, s: Store, id: nat, b: Bindings)
    requires Acyclic(s) && id < |s| && IsCapture(OpPat(op, [p]), s, id, b)
    ensures s[id].op == op && |s[id].src| == 1 && Explains(p, s, s[id].src[0], b)
  {
    var q := OpPat(op, [p]);
    assert q.src[0] == p;
  }

  lemma Matched2(op: Op, p: UPat, q: UPat, s: Store, id: nat, b: Bindings)
    requires Acyclic(s) && id < |s| && IsCapture(OpPat(op, [p, q]), s, id, b)
    ensures s[id].op == op && |s[id].src| == 2 && Explains(p, s, s[id].src[0], b) && Explains(q, s, s[id].src[1], b)
  {
    var r := OpPat(op, [p, q]);
    assert r.src[0] == p && r.src[1] == q;
  }

  lemma MatchedConst(v: real, s: Store, id: nat, b: Bindings)
    requires Acyclic(s) && id < |s| && Explains(ConstIs(v), s, id, b)
    ensures s[id].op == OpConst && s[id].arg == ConstArg(v)
  {
  }

  lemma MatchedName(p: UPat, s: Store, id: nat, b: Bindings)
    requires Acyclic(s) && id < |s| && Explains(p, s, id, b) && p.name != ""
    ensures p.name in b && b[p.name] == id && (p.ops == Some([OpConst]) ==> s[id].op == OpConst)
  {
  }

  lemma FoldedTwo<V(!new)>(eval: Eval<V>, k: real -> V, f: Folding, op: Op, g: (real, real) -> real, s: Store, id: nat)
    requires Laws(eval, k, f) && Folds2(eval, k, op, g) && Acyclic(s) && id < |s| && s[id].op == op && |s[id].src| == 2
    requires var x, y := s[s[id].src[0]], s[s[id].src[1]];
             x.op == OpConst && y.op == OpConst && x.arg.ConstArg? && y.arg.ConstArg?
    ensures var v := WithConst(s, id, g(s[s[id].src[0]].arg.value, s[s[id].src[1]].arg.value));
            v.Some? && Improves(Counting(eval), s, id, v.value)
  {
    TwoSources(eval, s, id);
  }

  lemma FoldedOne<V(!new)>(eval: Eval<V>, k: real -> V, f: Folding, op: Op, g: real -> real, s: Store, id: nat)
    requires Laws(eval, k, f) && Folds1(eval, k, op, g) && Acyclic(s) && id < |s| && s[id].op == op && |s[id].src| == 1
    requires var x := s[s[id].src[0]]; x.op == OpConst && x.arg.ConstArg?
    ensures var v := WithConst(s, id, g(s[s[id].src[0]].arg.value)); v.Some? && Improves(Counting(eval), s, id, v.value)
  {
    OneSource(eval, s, id);
  }

  lemma Fold2Settles<V(!new)>(eval: Eval<V>, k: real -> V, f: Folding, op: Op, g: (real, real) -> real, s: Store,
                              id: nat, b: Bindings)
    requires Laws(eval, k, f) && Folds2(eval, k, op, g) && Acyclic(s) && id < |s|
             && IsCapture(Fold2(op, g).pat, s, id, b)
    ensures SettledOn(Counting(eval), Fold2(op, g), s, id, b)
  {
    hide Laws, Improves, IsCapture, Explains, Folds2;
    Matched2(op, ConstPat("a"), ConstPat("b"), s, id, b);
    MatchedName(ConstPat("a"), s, s[id].src[0], b);
    MatchedName(ConstPat("b"), s, s[id].src[1], b);
    if FoldTwo(g, b, s, id).Some? {
      FoldedTwo(eval, k, f, op, g, s, id);
    }
  }

  lemma Fold1Settles<V(!new)>(eval: Eval<V>, k: real -> V, f: Folding, op: Op, g: real -> real, s: Store, id: nat,
                              b: Bindings)
    requires Laws(eval, k, f) && Folds1(eval, k, op, g) && Acyclic(s) && id < |s|
             && IsCapture(Fold1(op, g).pat, s, id, b)
    ensures SettledOn(Counting(eval), Fold1(op, g), s, id, b)
  {
    hide Laws, Improves, IsCapture, Explains, Folds1;
    Matched1(op, ConstPat("a"), s, id, b);
    MatchedName(ConstPat("a"), s, s[id].src[0], b);
    if FoldOne(g, b, s, id).Some? {
      FoldedOne(eval, k, f, op, g, s, id);
    }
  }

  lemma KeepLeftSettles<V(!new)>(eval: Eval<V>, k: real -> V, f: Folding, op: Op, v: real, s: Store, id: nat,
                                 b: Bindings)
    requires Laws(eval, k, f) && RightUnit(eval, op, k(v)) && Acyclic(s) && id < |s|
             && IsCapture(KeepLeft(op, v).pat, s, id, b)
    ensures SettledOn(Counting(eval), KeepLeft(op, v), s, id, b)
  {
    Matched2(op, Var("x"), ConstIs(v), s, id, b);
    TwoSources(eval, s, id);
  }

  lemma KeepRightSettles<V(!new)>(eval: Eval<V>, k: real -> V, f: Folding, op: Op, v: real, s: Store, id: nat,
                                  b: Bindings)
    requires Laws(eval, k, f) && LeftUnit(eval, op, k(v)) && Acyclic(s) && id < |s|
             && IsCapture(KeepRight(op, v).pat, s, id, b)
    ensures SettledOn(Counting(eval), KeepRight(op, v), s, id, b)
  {
    Matched2(op, ConstIs(v), Var("x"), s, id, b);
    TwoSources(eval, s, id);
  }

  lemma AnnihilateSettles<V(!new)>(eval: Eval<V>, k: real -> V, f: Folding, p: UPat, q: UPat, s: Store, id: nat,
                                   b: Bindings)
    requires Laws(eval, k, f) && (p == ConstIs(0.0) || q == ConstIs(0.0)) && Acyclic(s) && id < |s|
             && IsCapture(Annihilate([p, q]).pat, s, id, b)
    ensures SettledOn(Counting(eval), Annihilate([p, q]), s, id, b)
  {
    hide Laws, Improves, IsCapture, Explains;
    assert Annihilate([p, q]).rewrite.value(b, s, id) == ToZero(s, id);
    Matched2(OpMul, p, q, s, id, b);
    var side := if p == ConstIs(0.0) then 0 else 1;
    MatchedConst(0.0, s, s[id].src[side], b);
    ZeroProduct(eval, k, f, s, id, side);
  }

  lemma ZeroProduct<V(!new)>(eval: Eval<V>, k: real -> V, f: Folding, s: Store, id: nat, side: nat)
    requires Laws(eval, k, f) && Acyclic(s) && id < |s| && s[id].op == OpMul && |s[id].src| == 2 && side < 2
    requires s[s[id].src[side]].op == OpConst && s[s[id].src[side]].arg == ConstArg(0.0)
    ensures ToZero(s, id).Some? && Improves(Counting(eval), s, id, ToZero(s, id).value)
  {
    TwoSources(eval, s, id);
    assert Zero(eval, k(0.0));
  }

  lemma DoubleNegationSettles<V(!new)>(eval: Eval<V>, k: real -> V, f: Folding, s: Store, id: nat, b: Bindings)
    requires Laws(eval, k, f) && Acyclic(s) && id < |s| && IsCapture(DoubleNegation().pat, s, id, b)
    ensures SettledOn(Counting(eval), DoubleNegation(), s, id, b)
  {
    Nested(OpNeg, s, id, b);
    OneSource(eval, s, id);
    OneSource(eval, s, s[id].src[0]);
  }

  /** Two operations in a row over a captured node. */
  lemma Nested(op: Op, s: Store, id: nat, b: Bindings)
    requires Acyclic(s) && id < |s| && IsCapture(OpPat(op, [OpPat(op, [Var("x")])]), s, id, b)
    ensures s[id].op == op && |s[id].src| == 1
    ensures var inner := s[id].src[0]; s[inner].op == op && |s[inner].src| == 1 && "x" in b && b["x"] == s[inner].src[0]
  {
    var p := OpPat(op, [Var("x")]);
    Matched1(op, p, s, id, b);
    assert p.src[0] == Var("x");
    assert Explains(Var("x"), s, s[s[id].src[0]].src[0], b);
  }

  lemma DoubleReshapeSettles<V(!new)>(eval: Eval<V>, k: real -> V, f: Folding, s: Store, id: nat, b: Bindings)
    requires Laws(eval, k, f) && Acyclic(s) && id < |s| && IsCapture(DoubleReshape().pat, s, id, b)
    ensures SettledOn(Counting(eval), DoubleReshape(), s, id, b)
  {
    hide Laws, Improves, IsCapture, Explains;
    assert DoubleReshape().rewrite.value(b, s, id) == ReshapeCapture(b, s, id);
    Nested(OpReshape, s, id, b);
    ReshapeImproves(eval, k, f, s, id, b["x"]);
  }

  lemma ReshapeImproves<V(!new)>(eval: Eval<V>, k: real -> V, f: Folding, s: Store, id: nat, x: nat)
    requires Laws(eval, k, f) && Acyclic(s) && id < |s| && s[id].op == OpReshape && |s[id].src| == 1
    requires var inner := s[id].src[0]; s[inner].op == OpReshape && |s[inner].src| == 1 && x == s[inner].src[0]
    ensures Improves(Counting(eval), s, id, (s + [Node(OpReshape, s[id].dtype, [x], s[id].arg, None)], |s|))
  {
    var n := Node(OpReshape, s[id].dtype, [x], s[id].arg, None);
    var t, inner := s + [n], s[s[id].src[0]];
    OneSource(eval, s, id);
    OneSource(eval, s, s[id].src[0]);
    OneSource(eval, t, |s|);
    MeaningStable(Counting(eval), s, t, x);
    var v := Meaning(Counting(eval), s, x);
    assert eval(OpReshape, s[id].dtype, s[id].arg, s[id].buf, [eval(OpReshape, inner.dtype, inner.arg, inner.buf, [v])])
        == eval(OpReshape, s[id].dtype, s[id].arg, None, [v]);
  }

  /** Every standard rule, on every capture. */
  lemma RuleSettles<V(!new)>(eval: Eval<V>, k: real -> V, f: Folding, i: nat, s: Store, id: nat, b: Bindings)
    requires Laws(eval, k, f) && i < |Rules(f)| && Acyclic(s) && id < |s| && IsCapture(Rules(f)[i].pat, s, id, b)
    ensures SettledOn(Counting(eval), Rules(f)[i], s, id, b)
  {
    hide Folds2, Folds1, LeftUnit, RightUnit, Zero, SettledOn, IsCapture, Fold2, Fold1, KeepLeft, KeepRight,
      Annihilate, DoubleNegation, DoubleReshape;
    match i
    case 0 => Fold2Settles(eval, k, f, OpAdd, f.add, s, id, b);
    case 1 => Fold2Settles(eval, k, f, OpSub, f.sub, s, id, b);
    case 2 => Fold2Settles(eval, k, f, OpMul, f.mul, s, id, b);
    case 3 => Fold2Settles(eval, k, f, OpDiv, f.div, s, id, b);
    case 4 => Fold1Settles(eval, k, f, OpNeg, f.neg, s, id, b);
    case 5 => Fold1Settles(eval, k, f, OpSqrt, f.sqrt, s, id, b);
    case 6 => Fold1Settles(eval, k, f, OpExp2, f.exp2, s, id, b);
    case 7 => Fold1Settles(eval, k, f, OpLog2, f.log2, s, id, b);
    case 8 => KeepLeftSettles(eval, k, f, OpAdd, 0.0, s, id, b);
    case 9 => KeepRightSettles(eval, k, f, OpAdd, 0.0, s, id, b);
    case 10 => KeepLeftSettles(eval, k, f, OpMul, 1.0, s, id, b);
    case 11 => KeepRightSettles(eval, k, f, OpMul, 1.0, s, id, b);
    case 12 => AnnihilateSettles(eval, k, f, Var("_"), ConstIs(0.0), s, id, b);
    case 13 => AnnihilateSettles(eval, k, f, ConstIs(0.0), Var("_"), s, id, b);
    case 14 => KeepLeftSettles(eval, k, f, OpSub, 0.0, s, id, b);
    case 15 => KeepLeftSettles(eval, k, f, OpDiv, 1.0, s, id, b);
    case 16 => DoubleNegationSettles(eval, k, f, s, id, b);
    case _ => DoubleReshapeSettles(eval, k, f, s, id, b);
  }

  /** In any arithmetic with these identities, every standard rule keeps meanings, shrinks the expression
      and keeps applying as the graph grows: rewriting with them terminates in a graph that means the
      same and that none of them can change. */
  lemma StandardRulesSound<V(!new)>(eval: Eval<V>, k: real -> V, f: Folding)
    requires Laws(eval, k, f)
    ensures AllSound(Counting(eval), Rules(f))
  {
    hide Laws, Sound, SettledOn, Monotone, IsCapture, Rules;
    CountingMonotone(eval);
    forall i | 0 <= i < |Rules(f)|
      ensures Sound(Counting(eval), Rules(f)[i])
    {
      forall s: Store, id: nat, b: Bindings | Acyclic(s) && id < |s| && IsCapture(Rules(f)[i].pat, s, id, b)
        ensures SettledOn(Counting(eval), Rules(f)[i], s, id, b)
      {
        RuleSettles(eval, k, f, i, s, id, b);
      }
      SoundFrom(Counting(eval), Rules(f)[i]);
    }
  }

  // ---------------------------------------------------------------------------------------------
  // What the rules leave

  predicate Literal(s: Store, e: nat) {
    e < |s| && s[e].op == OpConst && s[e].arg.ConstArg?
  }

  predicate IsValue(s: Store, e: nat, v: real) {
    Literal(s, e) && s[e].arg.value == v
  }

  /** An operation of `op` over itself. */
  predicate Doubled(s: Store, id: nat, op: Op)
    requires Acyclic(s) && id < |s|
  {
    s[id].op == op && |s[id].src| == 1 && s[s[id].src[0]].op == op && |s[s[id].src[0]].src| == 1
  }

  /** `op` over `n` constants. */
  predicate Folds(s: Store, id: nat, op: Op, n: nat)
    requires id < |s|
  {
    s[id].op == op && |s[id].src| == n && forall k :: 0 <= k < n ==> Literal(s, s[id].src[k])
  }

  /** `op` with the constant `v` on one side. */
  predicate Absorbs(s: Store, id: nat, op: Op, side: nat, v: real)
    requires id < |s| && side < 2
  {
    s[id].op == op && |s[id].src| == 2 && IsValue(s, s[id].src[side], v)
  }

  /** A node the standard rules have something to say about: an operation over constants, a unit or a zero on
      a side where it can go, a double negation, or a reshape of a reshape. */
  predicate Reducible(s: Store, id: nat)
    requires Acyclic(s) && id < |s|
  {
    || Folds(s, id, OpAdd, 2) || Folds(s, id, OpSub, 2) || Folds(s, id, OpMul, 2) || Folds(s, id, OpDiv, 2)
    || Folds(s, id, OpNeg, 1) || Folds(s, id, OpSqrt, 1) || Folds(s, id, OpExp2, 1) || Folds(s, id, OpLog2, 1)
    || Absorbs(s, id, OpAdd, 0, 0.0) || Absorbs(s, id, OpAdd, 1, 0.0) || Absorbs(s, id, OpSub, 1, 0.0)
    || Absorbs(s, id, OpMul, 0, 1.0) || Absorbs(s, id, OpMul, 1, 1.0) || Absorbs(s, id, OpDiv, 1, 1.0)
    || Absorbs(s, id, OpMul, 0, 0.0) || Absorbs(s, id, OpMul, 1, 0.0)
    || Doubled(s, id, OpNeg) || Doubled(s, id, OpReshape)
  }

  lemma Explained1(op: Op, p: UPat, s: Store, id: nat, b: Bindings)
    requires Acyclic(s) && id < |s| && s[id].op == op && |s[id].src| == 1
    requires Explains(p, s, s[id].src[0], b) && b.Keys == Names(p)
    ensures IsCapture(OpPat(op, [p]), s, id, b)
  {
    var q := OpPat(op, [p]);
    assert NamesUpTo(q, 0) == {} && NamesUpTo(q, 1) == Names(p);
  }

  lemma Explained2(op: Op, p: UPat, q: UPat, s: Store, id: nat, b: Bindings)
    requires Acyclic(s) && id < |s| && s[id].op == op && |s[id].src| == 2
    requires Explains(p, s, s[id].src[0], b) && Explains(q, s, s[id].src[1], b) && b.Keys == Names(p) + Names(q)
    ensures IsCapture(OpPat(op, [p, q]), s, id, b)
  {
    var r := OpPat(op, [p, q]);
    assert NamesUpTo(r, 0) == {} && NamesUpTo(r, 1) == Names(p) && NamesUpTo(r, 2) == Names(p) + Names(q);
  }

  /** A rule applies exactly when its rewrite does to a capture, if there is one. */
  lemma AppliedOn(r: Rule, s: Store, id: nat, b: Bindings)
    requires Acyclic(s) && id < |s| && Usable(r) && IsCapture(r.pat, s, id, b)
    ensures Applied(r, s, id) == r.rewrite.value(b, s, id)
  {
    CapturesUnique(r.pat, s, id, CapturesOf(r.pat, s, id).value, b);
  }

  lemma NotApplied(r: Rule, s: Store, id: nat) returns (b: Bindings)
    requires Acyclic(s) && id < |s| && Applied(r, s, id).Some?
    ensures Usable(r) && IsCapture(r.pat, s, id, b) && Applied(r, s, id) == r.rewrite.value(b, s, id)
  {
    b := CapturesOf(r.pat, s, id).value;
  }

  lemma ConstExplained(name: string, s: Store, e: nat, b: Bindings)
    requires Acyclic(s) && Literal(s, e) && name != "" && name in b && b[name] == e
    ensures Explains(ConstPat(name), s, e, b) && Names(ConstPat(name)) == {name}
  {
  }

  lemma VarExplained(name: string, s: Store, e: nat, b: Bindings)
    requires Acyclic(s) && e < |s| && name != "" && name in b && b[name] == e
    ensures Explains(Var(name), s, e, b) && Names(Var(name)) == {name}
  {
  }

  lemma ValueExplained(v: real, s: Store, e: nat, b: Bindings)
    requires Acyclic(s) && IsValue(s, e, v)
    ensures Explains(ConstIs(v), s, e, b) && Names(ConstIs(v)) == {}
  {
  }

  lemma Fold2Fires(op: Op, g: (real, real) -> real, s: Store, id: nat)
    requires Acyclic(s) && id < |s| && Folds(s, id, op, 2)
    ensures var v := g(s[s[id].src[0]].arg.value, s[s[id].src[1]].arg.value);
            Applied(Fold2(op, g), s, id) == Some((s + [Node(OpConst, s[id].dtype, [], ConstArg(v), None)], |s|))
  {
    hide Explains, Names, IsCapture, Applied;
    var b := map["a" := s[id].src[0], "b" := s[id].src[1]];
    ConstExplained("a", s, s[id].src[0], b);
    ConstExplained("b", s, s[id].src[1], b);
    Explained2(op, ConstPat("a"), ConstPat("b"), s, id, b);
    AppliedOn(Fold2(op, g), s, id, b);
  }

  /** Two constants are folded to one of the node's own type, and nothing else is. */
  lemma Fold2Applies(op: Op, g: (real, real) -> real, s: Store, id: nat)
    requires Acyclic(s) && id < |s|
    ensures var src := s[id].src;
            if Folds(s, id, op, 2) then
              var v := g(s[src[0]].arg.value, s[src[1]].arg.value);
              Applied(Fold2(op, g), s, id) == Some((s + [Node(OpConst, s[id].dtype, [], ConstArg(v), None)], |s|))
            else Applied(Fold2(op, g), s, id).None?
  {
    hide IsCapture, Explains, Applied;
    var src, p, q := s[id].src, ConstPat("a"), ConstPat("b");
    if Folds(s, id, op, 2) {
      Fold2Fires(op, g, s, id);
    } else if Applied(Fold2(op, g), s, id).Some? {
      var b := NotApplied(Fold2(op, g), s, id);
      Matched2(op, p, q, s, id, b);
      MatchedName(p, s, src[0], b);
      MatchedName(q, s, src[1], b);
    }
  }

  lemma Fold1Applies(op: Op, g: real -> real, s: Store, id: nat)
    requires Acyclic(s) && id < |s|
    ensures var src := s[id].src;
            if Folds(s, id, op, 1) then
              var v := g(s[src[0]].arg.value);
              Applied(Fold1(op, g), s, id) == Some((s + [Node(OpConst, s[id].dtype, [], ConstArg(v), None)], |s|))
            else Applied(Fold1(op, g), s, id).None?
  {
    hide IsCapture, Explains, Names, Applied;
    var src, p := s[id].src, ConstPat("a");
    if Folds(s, id, op, 1) {
      var b := map["a" := src[0]];
      ConstExplained("a", s, src[0], b);
      Explained1(op, p, s, id, b);
      AppliedOn(Fold1(op, g), s, id, b);
    } else if Applied(Fold1(op, g), s, id).Some? {
      var b := NotApplied(Fold1(op, g), s, id);
      Matched1(op, p, s, id, b);
      MatchedName(p, s, src[0], b);
    }
  }

  lemma KeepLeftFires(op: Op, v: real, s: Store, id: nat)
    requires Acyclic(s) && id < |s| && Absorbs(s, id, op, 1, v)
    ensures Applied(KeepLeft(op, v), s, id) == Some((s, s[id].src[0]))
  {
    hide IsCapture, Explains, Names, Applied;
    var b := map["x" := s[id].src[0]];
    VarExplained("x", s, s[id].src[0], b);
    ValueExplained(v, s, s[id].src[1], b);
    Explained2(op, Var("x"), ConstIs(v), s, id, b);
    AppliedOn(KeepLeft(op, v), s, id, b);
  }

  lemma KeepLeftApplies(op: Op, v: real, s: Store, id: nat)
    requires Acyclic(s) && id < |s|
    ensures Applied(KeepLeft(op, v), s, id) == if Absorbs(s, id, op, 1, v) then Some((s, s[id].src[0])) else None
  {
    hide IsCapture, Explains, Names, Applied;
    if Absorbs(s, id, op, 1, v) {
      KeepLeftFires(op, v, s, id);
    } else if Applied(KeepLeft(op, v), s, id).Some? {
      var b := NotApplied(KeepLeft(op, v), s, id);
      Matched2(op, Var("x"), ConstIs(v), s, id, b);
      MatchedConst(v, s, s[id].src[1], b);
    }
  }

  lemma KeepRightFires(op: Op, v: real, s: Store, id: nat)
    requires Acyclic(s) && id < |s| && Absorbs(s, id, op, 0, v)
    ensures Applied(KeepRight(op, v), s, id) == Some((s, s[id].src[1]))
  {
    hide IsCapture, Explains, Names, Applied;
    var b := map["x" := s[id].src[1]];
    VarExplained("x", s, s[id].src[1], b);
    ValueExplained(v, s, s[id].src[0], b);
    Explained2(op, ConstIs(v), Var("x"), s, id, b);
    AppliedOn(KeepRight(op, v), s, id, b);
  }

  lemma KeepRightApplies(op: Op, v: real, s: Store, id: nat)
    requires Acyclic(s) && id < |s|
    ensures Applied(KeepRight(op, v), s, id) == if Absorbs(s, id, op, 0, v) then Some((s, s[id].src[1])) else None
  {
    hide IsCapture, Explains, Names, Applied;
    if Absorbs(s, id, op, 0, v) {
      KeepRightFires(op, v, s, id);
    } else if Applied(KeepRight(op, v), s, id).Some? {
      var b := NotApplied(KeepRight(op, v), s, id);
      Matched2(op, ConstIs(v), Var("x"), s, id, b);
      MatchedConst(v, s, s[id].src[0], b);
    }
  }

  /** A product with zero on side `side`. */
  lemma AnnihilateApplies(side: nat, s: Store, id: nat)
    requires Acyclic(s) && id < |s| && side < 2
    ensures var r := Annihilate(if side == 0 then [ConstIs(0.0), Var("_")] else [Var("_"), ConstIs(0.0)]);
            if Absorbs(s, id, OpMul, side, 0.0) then
              Applied(r, s, id) == Some((s + [Node(OpConst, s[id].dtype, [], ConstArg(0.0), None)], |s|))
            else Applied(r, s, id).None?
  {
    var p, q := if side == 0 then ConstIs(0.0) else Var("_"), if side == 0 then Var("_") else ConstIs(0.0);
    hide IsCapture, Explains, Names, Applied;
    var r := Annihilate([p, q]);
    if Absorbs(s, id, OpMul, side, 0.0) {
      var b := map["_" := s[id].src[1 - side]];
      VarExplained("_", s, s[id].src[1 - side], b);
      ValueExplained(0.0, s, s[id].src[side], b);
      Explained2(OpMul, p, q, s, id, b);
      AppliedOn(r, s, id, b);
    } else if Applied(r, s, id).Some? {
      var b := NotApplied(r, s, id);
      Matched2(OpMul, p, q, s, id, b);
      MatchedConst(0.0, s, s[id].src[side], b);
    }
  }

  lemma DoubledCapture(op: Op, s: Store, id: nat)
    requires Acyclic(s) && id < |s| && Doubled(s, id, op)
    ensures IsCapture(OpPat(op, [OpPat(op, [Var("x")])]), s, id, map["x" := s[s[id].src[0]].src[0]])
  {
    var b := map["x" := s[s[id].src[0]].src[0]];
    Explained1(op, Var("x"), s, s[id].src[0], b);
    Explained1(op, OpPat(op, [Var("x")]), s, id, b);
  }

  lemma DoubledApplies(s: Store, id: nat)
    requires Acyclic(s) && id < |s|
    ensures Applied(DoubleNegation(), s, id) ==
            if Doubled(s, id, OpNeg) then Some((s, s[s[id].src[0]].src[0])) else None
    ensures if Doubled(s, id, OpReshape) then
              var n := Node(OpReshape, s[id].dtype, [s[s[id].src[0]].src[0]], s[id].arg, None);
              Applied(DoubleReshape(), s, id) == Some((s + [n], |s|))
            else Applied(DoubleReshape(), s, id).None?
  {
    if Doubled(s, id, OpNeg) {
      DoubledCapture(OpNeg, s, id);
      AppliedOn(DoubleNegation(), s, id, map["x" := s[s[id].src[0]].src[0]]);
    } else if Applied(DoubleNegation(), s, id).Some? {
      var b := NotApplied(DoubleNegation(), s, id);
      Nested(OpNeg, s, id, b);
    }
    if Doubled(s, id, OpReshape) {
      DoubledCapture(OpReshape, s, id);
      AppliedOn(DoubleReshape(), s, id, map["x" := s[s[id].src[0]].src[0]]);
    } else if Applied(DoubleReshape(), s, id).Some? {
      var b := NotApplied(DoubleReshape(), s, id);
      Nested(OpReshape, s, id, b);
    }
  }

  /** The graph shape rule `i` looks for. */
  predicate ShapeOf(i: nat, s: Store, id: nat)
    requires Acyclic(s) && id < |s|
  {
    match i
    case 0 => Folds(s, id, OpAdd, 2)
    case 1 => Folds(s, id, OpSub, 2)
    case 2 => Folds(s, id, OpMul, 2)
    case 3 => Folds(s, id, OpDiv, 2)
    case 4 => Folds(s, id, OpNeg, 1)
    case 5 => Folds(s, id, OpSqrt, 1)
    case 6 => Folds(s, id, OpExp2, 1)
    case 7 => Folds(s, id, OpLog2, 1)
    case 8 => Absorbs(s, id, OpAdd, 1, 0.0)
    case 9 => Absorbs(s, id, OpAdd, 0, 0.0)
    case 10 => Absorbs(s, id, OpMul, 1, 1.0)
    case 11 => Absorbs(s, id, OpMul, 0, 1.0)
    case 12 => Absorbs(s, id, OpMul, 1, 0.0)
    case 13 => Absorbs(s, id, OpMul, 0, 0.0)
    case 14 => Absorbs(s, id, OpSub, 1, 0.0)
    case 15 => Absorbs(s, id, OpDiv, 1, 1.0)
    case 16 => Doubled(s, id, OpNeg)
    case _ => Doubled(s, id, OpReshape)
  }

  lemma RuleApplies(f: Folding, i: nat, s: Store, id: nat)
    requires Acyclic(s) && id < |s| && i < |Rules(f)|
    ensures Applied(Rules(f)[i], s, id).Some? <==> ShapeOf(i, s, id)
  {
    hide Applied, Fold2, Fold1, KeepLeft, KeepRight, Annihilate, DoubleNegation, DoubleReshape, Folds, Absorbs, Doubled;
    match i
    case 0 => Fold2Applies(OpAdd, f.add, s, id);
    case 1 => Fold2Applies(OpSub, f.sub, s, id);
    case 2 => Fold2Applies(OpMul, f.mul, s, id);
    case 3 => Fold2Applies(OpDiv, f.div, s, id);
    case 4 => Fold1Applies(OpNeg, f.neg, s, id);
    case 5 => Fold1Applies(OpSqrt, f.sqrt, s, id);
    case 6 => Fold1Applies(OpExp2, f.exp2, s, id);
    case 7 => Fold1Applies(OpLog2, f.log2, s, id);
    case 8 => KeepLeftApplies(OpAdd, 0.0, s, id);
    case 9 => KeepRightApplies(OpAdd, 0.0, s, id);
    case 10 => KeepLeftApplies(OpMul, 1.0, s, id);
    case 11 => KeepRightApplies(OpMul, 1.0, s, id);
    case 12 => AnnihilateApplies(1, s, id);
    case 13 => AnnihilateApplies(0, s, id);
    case 14 => KeepLeftApplies(OpSub, 0.0, s, id);
    case 15 => KeepLeftApplies(OpDiv, 1.0, s, id);
    case 16 => DoubledApplies(s, id);
    case _ => DoubledApplies(s, id);
  }

  lemma ShapesCover(s: Store, id: nat)
    requires Acyclic(s) && id < |s|
    ensures Reducible(s, id) <==> exists i :: 0 <= i < 18 && ShapeOf(i, s, id)
  {
    hide Folds, Absorbs, Doubled;
    if Reducible(s, id) {
      assert || ShapeOf(0, s, id) || ShapeOf(1, s, id) || ShapeOf(2, s, id) || ShapeOf(3, s, id) || ShapeOf(4, s, id)
             || ShapeOf(5, s, id) || ShapeOf(6, s, id) || ShapeOf(7, s, id) || ShapeOf(8, s, id) || ShapeOf(9, s, id)
             || ShapeOf(10, s, id) || ShapeOf(11, s, id) || ShapeOf(12, s, id) || ShapeOf(13, s, id)
             || ShapeOf(14, s, id) || ShapeOf(15, s, id) || ShapeOf(16, s, id) || ShapeOf(17, s, id);
    }
  }

  lemma AllApply(f: Folding, s: Store, id: nat)
    requires Acyclic(s) && id < |s|
    ensures (exists i :: 0 <= i < |Rules(f)| && Applied(Rules(f)[i], s, id).Some?) <==> Reducible(s, id)
  {
    hide Applied, Reducible, ShapeOf;
    assert |Rules(f)| == 18;
    hide Rules;
    forall i | 0 <= i < |Rules(f)|
      ensures Applied(Rules(f)[i], s, id).Some? <==> ShapeOf(i, s, id)
    {
      RuleApplies(f, i, s, id);
    }
    ShapesCover(s, id);
    if i :| 0 <= i < 18 && ShapeOf(i, s, id) {
      assert Applied(Rules(f)[i], s, id).Some?;
    }
  }

  /** Nothing that can be reached is reducible. */
  ghost predicate Irreducible(s: Store, id: nat)
    requires Acyclic(s) && id < |s|
  {
    forall path :: Path(s, id, path) ==> !Reducible(s, PathEnd(s, id, path))
  }

  /** What can be reached from a node is the node itself and what can be reached from its sources. */
  lemma IrreducibleParts(s: Store, id: nat)
    requires Acyclic(s) && id < |s|
    ensures Irreducible(s, id) <==>
            !Reducible(s, id) && forall k :: 0 <= k < |s[id].src| ==> Irreducible(s, s[id].src[k])
  {
    hide Reducible;
    if Irreducible(s, id) {
      assert Path(s, id, []) && PathEnd(s, id, []) == id;
      forall k: nat, rest | k < |s[id].src| && Path(s, s[id].src[k], rest)
        ensures !Reducible(s, PathEnd(s, s[id].src[k], rest))
      {
        var path := [k] + rest;
        assert path[1..] == rest && Path(s, id, path);
      }
      forall k | 0 <= k < |s[id].src|
        ensures Irreducible(s, s[id].src[k])
      {
        var n: nat := k;
        assert forall rest :: Path(s, s[id].src[n], rest) ==> !Reducible(s, PathEnd(s, s[id].src[n], rest));
      }
    } else {
      var path :| Path(s, id, path) && Reducible(s, PathEnd(s, id, path));
      if path != [] {
        assert Path(s, s[id].src[path[0]], path[1..]) && !Irreducible(s, s[id].src[path[0]]);
      }
    }
  }

  /** Normal form under the standard rules, read off the graph: nothing reachable is reducible. */
  lemma {:induction false} NormalMeans(f: Folding, s: Store, id: nat)
    requires Acyclic(s) && id < |s|
    ensures Normal(Rules(f), s, id) <==> Irreducible(s, id)
    decreases id
  {
    hide Applied, Rules, Reducible, RewriteOf, Irreducible;
    DispatchComplete(Rules(f), s, id);
    AllApply(f, s, id);
    IrreducibleParts(s, id);
    forall k | 0 <= k < |s[id].src|
      ensures Normal(Rules(f), s, s[id].src[k]) <==> Irreducible(s, s[id].src[k])
    {
      NormalMeans(f, s, s[id].src[k]);
    }
  }

  /** Simplification with the standard rules. */
  method Simplify<V(!new)>(s: Store, root: nat, f: Folding, ghost eval: Eval<V>, ghost k: real -> V)
    returns (t: Store, r: nat)
    requires Acyclic(s) && root < |s| && Laws(eval, k, f)
    ensures Acyclic(t) && Extends(s, t) && r < |t|
    ensures Meaning(Counting(eval), t, r) == Meaning(Counting(eval), s, root)
    ensures Normal(Rules(f), t, r)
    ensures forall path :: Path(t, r, path) ==> !Reducible(t, PathEnd(t, r, path))
    ensures Irreducible(s, root) ==> r == root
  {
    StandardRulesSound(eval, k, f);
    NormalMeans(f, s, root);
    hide Laws, Rules, AllSound, Meaning, Normal, Counting, Reducible;
    var pm := new PatternMatcher(Rules(f));
    t, r := GraphRewrite(s, root, pm, Counting(eval));
    NormalMeans(f, t, r);
  }
}
