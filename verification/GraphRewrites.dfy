/** Bottom-up rewriting of a shared graph to a fixed point, with a memo of replaced nodes. */
module GraphRewrites {
  import opened Wrappers
  import opened UOps
  import opened RuleMatchers

  /** A meaning for nodes, compositional in the meanings of their sources, and a weight. */
  datatype Algebra<!V(!new)> = Algebra(
    eval: (Op, int, Arg, Option<nat>, seq<V>) -> V,
    weigh: (Op, int, Arg, Option<nat>, seq<nat>) -> nat)

  ghost function Meaning<V(!new)>(alg: Algebra<V>, s: Store, id: nat): V
    requires Acyclic(s) && id < |s|
    decreases id, 1
  {
    alg.eval(s[id].op, s[id].dtype, s[id].arg, s[id].buf, Meanings(alg, s, id))
  }

  /** Meanings of a node's sources. */
  ghost function Meanings<V(!new)>(alg: Algebra<V>, s: Store, id: nat): (vs: seq<V>)
    requires Acyclic(s) && id < |s|
    decreases id, 0
  {
    seq(|s[id].src|, k requires 0 <= k < |s[id].src| => Meaning(alg, s, s[id].src[k]))
  }

  ghost function Weight<V(!new)>(alg: Algebra<V>, s: Store, id: nat): nat
    requires Acyclic(s) && id < |s|
    decreases id, 1
  {
    alg.weigh(s[id].op, s[id].dtype, s[id].arg, s[id].buf, Weights(alg, s, id))
  }

  /** Weights of a node's sources. */
  ghost function Weights<V(!new)>(alg: Algebra<V>, s: Store, id: nat): (ws: seq<nat>)
    requires Acyclic(s) && id < |s|
    decreases id, 0
  {
    seq(|s[id].src|, k requires 0 <= k < |s[id].src| => Weight(alg, s, s[id].src[k]))
  }

  /** A node weighs more than each source, and lighter sources never make it heavier. */
  ghost predicate Monotone<V(!new)>(alg: Algebra<V>) {
    && (forall op, t, a, b, ws: seq<nat>, k :: 0 <= k < |ws| ==> ws[k] < alg.weigh(op, t, a, b, ws))
    && (forall op, t, a, b, ws: seq<nat>, vs: seq<nat> :: Pointwise(ws, vs) ==>
                                                            alg.weigh(op, t, a, b, ws) <= alg.weigh(op, t, a, b, vs))
  }

  ghost predicate Pointwise(ws: seq<nat>, vs: seq<nat>) {
    |ws| == |vs| && forall k :: 0 <= k < |ws| ==> ws[k] <= vs[k]
  }

  /** One rule application keeps the graph acyclic, only adds nodes, keeps the meaning and loses weight;
      and whether a rule applies to a node does not depend on nodes added later. */
  ghost predicate Sound<V(!new)>(alg: Algebra<V>, r: Rule) {
    && (forall s: Store, id: nat :: Acyclic(s) && id < |s| && Applied(r, s, id).Some? ==>
                                      Improves(alg, s, id, Applied(r, s, id).value))
    && (forall s: Store, t: Store, id: nat :: Acyclic(s) && Acyclic(t) && Extends(s, t) && id < |s| ==>
                                                Applied(r, s, id).None? == Applied(r, t, id).None?)
  }

  ghost predicate Improves<V(!new)>(alg: Algebra<V>, s: Store, id: nat, r: (Store, nat))
    requires Acyclic(s) && id < |s|
  {
    && Extends(s, r.0) && Acyclic(r.0) && r.1 < |r.0|
    && Meaning(alg, r.0, r.1) == Meaning(alg, s, id) && Weight(alg, r.0, r.1) < Weight(alg, s, id)
  }

  ghost predicate AllSound<V(!new)>(alg: Algebra<V>, rules: seq<Rule>) {
    Monotone(alg) && forall i :: 0 <= i < |rules| ==> Sound(alg, rules[i])
  }

  /** No rule applies to any node reachable from `id`. */
  ghost predicate Normal(rules: seq<Rule>, s: Store, id: nat)
    requires Acyclic(s) && id < |s|
    decreases id
  {
    RewriteOf(rules, s, id).None? && forall k :: 0 <= k < |s[id].src| ==> Normal(rules, s, s[id].src[k])
  }

  // ---------------------------------------------------------------------------------------------
  // Adding nodes changes nothing about old ones

  lemma {:induction false} MeaningStable<V(!new)>(alg: Algebra<V>, s: Store, t: Store, id: nat)
    requires Acyclic(s) && Acyclic(t) && Extends(s, t) && id < |s|
    ensures Meaning(alg, t, id) == Meaning(alg, s, id) && Weight(alg, t, id) == Weight(alg, s, id)
    decreases id
  {
    var n := s[id];
    forall k | 0 <= k < |n.src|
      ensures Meaning(alg, t, n.src[k]) == Meaning(alg, s, n.src[k])
              && Weight(alg, t, n.src[k]) == Weight(alg, s, n.src[k])
    {
      MeaningStable(alg, s, t, n.src[k]);
    }
    assert Meanings(alg, t, id) == Meanings(alg, s, id);
    assert Weights(alg, t, id) == Weights(alg, s, id);
  }

  lemma RewriteStable<V(!new)>(alg: Algebra<V>, rules: seq<Rule>, s: Store, t: Store, id: nat)
    requires AllSound(alg, rules) && Acyclic(s) && Acyclic(t) && Extends(s, t) && id < |s|
    ensures RewriteOf(rules, s, id).None? == RewriteOf(rules, t, id).None?
  {
    hide Applied, RewriteOf, Monotone;
    DispatchComplete(rules, s, id);
    DispatchComplete(rules, t, id);
    forall i | 0 <= i < |rules|
      ensures Applied(rules[i], s, id).None? == Applied(rules[i], t, id).None?
    {
      assert Sound(alg, rules[i]);
    }
  }

  lemma {:induction false} NormalStable<V(!new)>(alg: Algebra<V>, rules: seq<Rule>, s: Store, t: Store, id: nat)
    requires AllSound(alg, rules) && Acyclic(s) && Acyclic(t) && Extends(s, t) && id < |s|
    ensures Normal(rules, t, id) == Normal(rules, s, id)
    decreases id
  {
    hide RewriteOf, AllSound;
    RewriteStable(alg, rules, s, t, id);
    assert s[id] == t[id];
    forall k | 0 <= k < |s[id].src|
      ensures Normal(rules, t, s[id].src[k]) == Normal(rules, s, s[id].src[k])
    {
      NormalStable(alg, rules, s, t, s[id].src[k]);
    }
  }

  lemma RewriteImproves<V(!new)>(alg: Algebra<V>, rules: seq<Rule>, s: Store, id: nat)
    requires AllSound(alg, rules) && Acyclic(s) && id < |s| && RewriteOf(rules, s, id).Some?
    ensures Improves(alg, s, id, RewriteOf(rules, s, id).value)
  {
    hide Applied, RewriteOf, Monotone, Improves;
    DispatchComplete(rules, s, id);
    var i :| 0 <= i < |rules| && RewriteOf(rules, s, id) == Applied(rules[i], s, id);
    assert Sound(alg, rules[i]);
  }

  lemma SourcesLighter<V(!new)>(alg: Algebra<V>, s: Store, id: nat, k: nat)
    requires Monotone(alg) && Acyclic(s) && id < |s| && k < |s[id].src|
    ensures Weight(alg, s, s[id].src[k]) < Weight(alg, s, id)
  {
    var n, ws := s[id], Weights(alg, s, id);
    assert ws[k] < alg.weigh(n.op, n.dtype, n.arg, n.buf, ws);
  }

  // ---------------------------------------------------------------------------------------------
  // Results

  /** `r` is a normal form of `u` that means the same and weighs no more; a node already normal stands. */
  ghost predicate Replaces<V(!new)>(alg: Algebra<V>, rules: seq<Rule>, s: Store, u: nat, r: nat)
    requires Acyclic(s)
  {
    && u < |s| && r < |s| && Normal(rules, s, r) && Meaning(alg, s, r) == Meaning(alg, s, u)
    && Weight(alg, s, r) <= Weight(alg, s, u)
    && (Normal(rules, s, u) ==> r == u)
  }

  lemma ReplacesStable<V(!new)>(alg: Algebra<V>, rules: seq<Rule>, s: Store, t: Store, u: nat, r: nat)
    requires AllSound(alg, rules) && Acyclic(s) && Acyclic(t) && Extends(s, t) && Replaces(alg, rules, s, u, r)
    ensures Replaces(alg, rules, t, u, r)
  {
    MeaningStable(alg, s, t, u);
    MeaningStable(alg, s, t, r);
    NormalStable(alg, rules, s, t, u);
    NormalStable(alg, rules, s, t, r);
  }

  /** A node whose sources have been replaced: same meaning, no heavier. */
  lemma Rebuilt<V(!new)>(alg: Algebra<V>, s: Store, u: nat, v: nat)
    requires Monotone(alg) && Acyclic(s) && u < |s| && v < |s|
    requires s[v] == s[u].(src := s[v].src) && |s[v].src| == |s[u].src|
    requires forall k :: 0 <= k < |s[u].src| ==> Meaning(alg, s, s[v].src[k]) == Meaning(alg, s, s[u].src[k])
    requires forall k :: 0 <= k < |s[u].src| ==> Weight(alg, s, s[v].src[k]) <= Weight(alg, s, s[u].src[k])
    ensures Meaning(alg, s, v) == Meaning(alg, s, u) && Weight(alg, s, v) <= Weight(alg, s, u)
  {
    assert Meanings(alg, s, v) == Meanings(alg, s, u);
    assert Pointwise(Weights(alg, s, v), Weights(alg, s, u));
  }

  // ---------------------------------------------------------------------------------------------
  // The rewriter

  /** One rewrite pass: the store it extends and the memo of replaced nodes. */
  class GraphRewriter<!V(!new)> {
    const pm: PatternMatcher
    ghost const alg: Algebra<V>
    var store: Store
    var replaced: map<nat, nat>

    constructor (store: Store, pm: PatternMatcher, ghost alg: Algebra<V>)
      requires Acyclic(store) && pm.Valid() && AllSound(alg, pm.rules)
      ensures Valid() && this.store == store && this.pm == pm && this.alg == alg && replaced == map[]
    {
      this.store, this.pm, this.alg, replaced := store, pm, alg, map[];
    }

    ghost predicate Valid()
      reads this
    {
      && Acyclic(store) && pm.Valid() && AllSound(alg, pm.rules)
      && forall u :: u in replaced ==> Replaces(alg, pm.rules, store, u, replaced[u])
    }

    /** Replaces the memo's view of the store by a later one. */
    lemma MemoStable(before: Store, after: Store)
      requires AllSound(alg, pm.rules) && Acyclic(before) && Acyclic(after) && Extends(before, after)
      requires forall u :: u in replaced ==> Replaces(alg, pm.rules, before, u, replaced[u])
      ensures forall u :: u in replaced ==> Replaces(alg, pm.rules, after, u, replaced[u])
    {
      hide AllSound, Replaces;
      forall u | u in replaced
        ensures Replaces(alg, pm.rules, after, u, replaced[u])
      {
        ReplacesStable(alg, pm.rules, before, after, u, replaced[u]);
      }
    }

    /** Rewrites everything below and at node `u`. */
    method RewriteNode(u: nat) returns (r: nat)
      requires Valid() && u < |store|
      modifies this
      ensures Valid() && Extends(old(store), store) && Replaces(alg, pm.rules, store, u, r) && r < |store|
      ensures u in replaced && replaced[u] == r
      ensures u in old(replaced) ==> r == old(replaced)[u] && store == old(store) && replaced == old(replaced)
      decreases Weight(alg, store, u), 2
    {
      assert forall v :: v in replaced ==> replaced[v] < |store|;
      hide AllSound, Replaces, Meaning, Weight, Meanings, Weights, Normal;
      if u in replaced {
        return replaced[u];
      }
      ghost var first := store;
      var newSrc := RewriteSources(u);
      ghost var second := store;
      var node := u;
      if newSrc != store[u].src {
        node := Rebuild(u, newSrc);
      }
      ghost var third := store;
      RebuiltFacts(u, node, newSrc, second);
      MeaningStable(alg, first, third, u);
      r := ToFixedPoint(node);
      assert r < |store|;
      Finish(u, node, r, third);
      replaced := replaced[u := r];
    }

    /** Combines the rebuilt node's facts with its fixed point. */
    lemma Finish(u: nat, node: nat, r: nat, before: Store)
      requires Acyclic(before) && Acyclic(store) && Extends(before, store) && AllSound(alg, pm.rules) && u < |before|
               && node < |before|
      requires Meaning(alg, before, node) == Meaning(alg, before, u)
               && Weight(alg, before, node) <= Weight(alg, before, u)
      requires Normal(pm.rules, before, u) ==> node == u
      requires Replaces(alg, pm.rules, store, node, r)
      ensures Replaces(alg, pm.rules, store, u, r)
    {
      hide AllSound;
      MeaningStable(alg, before, store, u);
      MeaningStable(alg, before, store, node);
      NormalStable(alg, pm.rules, before, store, u);
    }

    /** The sources in order; each result is a normal form of its source. */
    method RewriteSources(u: nat) returns (newSrc: seq<nat>)
      requires Valid() && u < |store|
      modifies this
      ensures Valid() && Extends(old(store), store) && |newSrc| == |store[u].src|
      ensures forall k :: 0 <= k < |newSrc| ==> Replaces(alg, pm.rules, store, store[u].src[k], newSrc[k])
      ensures forall k :: 0 <= k < |newSrc| ==> newSrc[k] < |store|
      decreases Weight(alg, store, u), 1
    {
      hide AllSound, Replaces, Meaning, Weight, Meanings, Weights, Normal;
      ghost var first := store;
      var src := store[u].src;
      newSrc := [];
      for i := 0 to |src|
        invariant Valid() && Extends(first, store) && |newSrc| == i
        invariant forall k :: 0 <= k < i ==> Replaces(alg, pm.rules, store, src[k], newSrc[k])
        invariant forall k :: 0 <= k < i ==> newSrc[k] < |store|
      {
        ghost var before := store;
        SourceBound(first, u, i);
        MeaningStable(alg, first, store, src[i]);
        var ns := RewriteNode(src[i]);
        forall k | 0 <= k < i
          ensures Replaces(alg, pm.rules, store, src[k], newSrc[k])
        {
          ReplacesStable(alg, pm.rules, before, store, src[k], newSrc[k]);
        }
        newSrc := newSrc + [ns];
      }
    }

    lemma SourceBound(s: Store, u: nat, k: nat)
      requires AllSound(alg, pm.rules) && Acyclic(s) && u < |s| && k < |s[u].src|
      ensures s[u].src[k] < |s| && Weight(alg, s, s[u].src[k]) < Weight(alg, s, u)
    {
      SourcesLighter(alg, s, u, k);
    }

    /** A copy of `u` over new sources. */
    method Rebuild(u: nat, newSrc: seq<nat>) returns (node: nat)
      requires Valid() && u < |store| && forall k :: 0 <= k < |newSrc| ==> newSrc[k] < |store|
      modifies this`store
      ensures Valid() && store == old(store) + [old(store)[u].(src := newSrc)] && node == |old(store)|
    {
      hide AllSound, Replaces, Meaning, Weight, Meanings, Weights, Normal;
      node := |store|;
      ghost var before := store;
      store := store + [store[u].(src := newSrc)];
      assert Acyclic(store);
      MemoStable(before, store);
    }

    /** The rebuilt node (or `u` itself when nothing changed) means the same as `u`, weighs no more, has
        normal sources, and is `u` when `u` is already normal. */
    lemma RebuiltFacts(u: nat, node: nat, newSrc: seq<nat>, before: Store)
      requires Acyclic(before) && Acyclic(store) && Extends(before, store) && AllSound(alg, pm.rules) && u < |before|
               && |newSrc| == |before[u].src|
      requires forall k :: 0 <= k < |newSrc| ==> Replaces(alg, pm.rules, before, before[u].src[k], newSrc[k])
      requires node < |store| && store[node] == before[u].(src := newSrc) && (newSrc == before[u].src ==> node == u)
      ensures Meaning(alg, store, node) == Meaning(alg, store, u) && Weight(alg, store, node) <= Weight(alg, store, u)
      ensures forall k :: 0 <= k < |store[node].src| ==> Normal(pm.rules, store, store[node].src[k])
      ensures Normal(pm.rules, store, u) ==> node == u
    {
      assert Monotone(alg);
      hide AllSound, Meaning, Weight, Meanings, Weights, Monotone;
      assert store[u] == before[u];
      forall k | 0 <= k < |newSrc|
        ensures Replaces(alg, pm.rules, store, store[u].src[k], newSrc[k])
      {
        ReplacesStable(alg, pm.rules, before, store, before[u].src[k], newSrc[k]);
      }
      Rebuilt(alg, store, u, node);
      if Normal(pm.rules, store, u) {
        assert forall k :: 0 <= k < |newSrc| ==> newSrc[k] == store[u].src[k];
        assert newSrc == before[u].src;
      }
    }

    /** Applies rules to a node with normal sources until none applies. */
    method ToFixedPoint(start: nat) returns (node: nat)
      requires Valid() && start < |store| && forall k :: 0 <= k < |store[start].src| ==>
                                                           Normal(pm.rules, store, store[start].src[k])
      modifies this
      ensures Valid() && Extends(old(store), store) && Replaces(alg, pm.rules, store, start, node) && node < |store|
      decreases Weight(alg, store, start), 1
    {
      hide AllSound, Meaning, Weight, Meanings, Weights, RewriteOf;
      node := start;
      ghost var first := store;
      while true
        invariant Valid() && Extends(first, store) && node < |store|
        invariant Meaning(alg, store, node) == Meaning(alg, store, start)
                  && Weight(alg, store, node) <= Weight(alg, store, start)
        invariant Weight(alg, store, start) == Weight(alg, first, start)
        invariant forall k :: 0 <= k < |store[node].src| ==> Normal(pm.rules, store, store[node].src[k])
        invariant Normal(pm.rules, store, start) ==> node == start
        decreases Weight(alg, store, node)
      {
        var rewritten := pm.Rewrite(store, node);
        if rewritten.None? {
          return;
        }
        RewriteImproves(alg, pm.rules, store, node);
        ghost var before, was := store, node;
        Adopt(rewritten.value.0);
        node := RewriteNode(rewritten.value.1);
        Stepped(before, rewritten.value.0, start, was, rewritten.value.1, node);
      }
    }

    /** Takes over the store a rule has added nodes to. */
    method Adopt(grown: Store)
      requires Valid() && Acyclic(grown) && Extends(store, grown)
      modifies this`store
      ensures Valid() && store == grown
    {
      hide AllSound, Replaces, Meaning, Weight, Meanings, Weights, Normal;
      MemoStable(store, grown);
      store := grown;
    }

    /** One turn of the fixed-point loop. */
    lemma Stepped(before: Store, grown: Store, start: nat, was: nat, rewritten: nat, node: nat)
      requires Acyclic(before) && Acyclic(grown) && Acyclic(store) && Extends(before, grown) && Extends(grown, store)
               && AllSound(alg, pm.rules)
      requires start < |before| && was < |before| && Improves(alg, before, was, (grown, rewritten))
               && RewriteOf(pm.rules, before, was).Some?
      requires Meaning(alg, before, was) == Meaning(alg, before, start)
               && Weight(alg, before, was) <= Weight(alg, before, start)
      requires Normal(pm.rules, before, start) ==> was == start
      requires Replaces(alg, pm.rules, store, rewritten, node)
      ensures Meaning(alg, store, node) == Meaning(alg, store, start)
              && Weight(alg, store, node) < Weight(alg, before, was)
      ensures Weight(alg, store, start) == Weight(alg, before, start)
              && Weight(alg, store, node) <= Weight(alg, store, start)
      ensures forall k :: 0 <= k < |store[node].src| ==> Normal(pm.rules, store, store[node].src[k])
      ensures !Normal(pm.rules, store, start)
    {
      hide AllSound, Meaning, Weight, Meanings, Weights, RewriteOf;
      assert Extends(before, store);
      MeaningStable(alg, before, store, start);
      MeaningStable(alg, grown, store, rewritten);
      NormalStable(alg, pm.rules, before, store, start);
    }
  }

  /** Graph rewriting terminates, keeps the meaning of the root, and returns a root below which no rule
      applies; rewriting a normal graph returns the same root. */
  method GraphRewrite<V(!new)>(s: Store, root: nat, pm: PatternMatcher, ghost alg: Algebra<V>)
    returns (t: Store, r: nat)
    requires Acyclic(s) && root < |s| && pm.Valid() && AllSound(alg, pm.rules)
    ensures Acyclic(t) && Extends(s, t) && r < |t|
    ensures Meaning(alg, t, r) == Meaning(alg, s, root)
    ensures Normal(pm.rules, t, r)
    ensures Normal(pm.rules, s, root) ==> r == root
  {
    hide AllSound, Meaning, Weight, Meanings, Weights, Normal;
    var rewriter := new GraphRewriter(s, pm, alg);
    r := rewriter.RewriteNode(root);
    t := rewriter.store;
    MeaningStable(alg, s, t, root);
    NormalStable(alg, pm.rules, s, t, root);
  }

  /** Normal form, spelled out: no rule rewrites any node that can be reached. */
  lemma {:induction false} NormalEverywhere(rules: seq<Rule>, s: Store, id: nat, path: seq<nat>)
    requires Acyclic(s) && id < |s| && Normal(rules, s, id) && Path(s, id, path)
    ensures forall i :: 0 <= i < |rules| ==> Applied(rules[i], s, PathEnd(s, id, path)).None?
    decreases |path|
  {
    if path == [] {
      DispatchComplete(rules, s, id);
    } else {
      NormalEverywhere(rules, s, s[id].src[path[0]], path[1..]);
    }
  }

  /** `path` follows source indices from `id`. */
  predicate Path(s: Store, id: nat, path: seq<nat>)
    requires Acyclic(s) && id < |s|
    decreases |path|
  {
    path == [] || (path[0] < |s[id].src| && Path(s, s[id].src[path[0]], path[1..]))
  }

  function PathEnd(s: Store, id: nat, path: seq<nat>): (e: nat)
    requires Acyclic(s) && id < |s| && Path(s, id, path)
    ensures e < |s|
    decreases |path|
  {
    if path == [] then id else PathEnd(s, s[id].src[path[0]], path[1..])
  }
}
