/** Patterns over graph nodes, with captures that must agree when a name repeats, and the rule matcher
    built on them. */
module Patterns {
  import opened Wrappers
  import opened UOps

  /** A nil pattern never matches. Missing `ops` or `argMatch` check nothing, and children are checked
      only with `checkSrc`. */
  datatype UPat = Nil | Pat(ops: Option<seq<Op>>, name: string, checkSrc: bool, src: seq<UPat>,
                            argMatch: Option<Arg -> bool>)

  type Bindings = map<string, nat>

  /** Operation and argument checks of one pattern node. */
  predicate HeadOk(p: UPat, s: Store, id: nat)
    requires id < |s|
  {
    && p.Pat?
    && (p.ops.Some? ==> s[id].op in p.ops.value)
    && (p.argMatch.Some? ==> p.argMatch.value(s[id].arg))
    && (p.checkSrc ==> |p.src| == |s[id].src|)
  }

  // ---------------------------------------------------------------------------------------------
  // Meaning

  /** `env` explains why `p` matches node `id`: every check holds, and every named part of the pattern
      stands on the node `env` gives its name. */
  ghost predicate Explains(p: UPat, s: Store, id: nat, env: Bindings)
    requires Acyclic(s) && id < |s|
    decreases p
  {
    && HeadOk(p, s, id)
    && (p.checkSrc ==> forall k :: 0 <= k < |p.src| ==> Explains(p.src[k], s, s[id].src[k], env))
    && (p.name != "" ==> p.name in env && env[p.name] == id)
  }

  /** Names captured by a pattern. */
  ghost function Names(p: UPat): set<string>
    decreases p, 1
  {
    if p.Nil? then {} else (if p.name == "" then {} else {p.name}) + (if p.checkSrc then NamesUpTo(p, |p.src|) else {})
  }

  /** Names captured by the first `k` child patterns. */
  ghost function NamesUpTo(p: UPat, k: nat): set<string>
    requires p.Pat? && k <= |p.src|
    decreases p, 0, k
  {
    if k == 0 then {} else NamesUpTo(p, k - 1) + Names(p.src[k - 1])
  }

  lemma {:induction false} NameOwner(p: UPat, k: nat, n: string) returns (j: nat)
    requires p.Pat? && k <= |p.src| && n in NamesUpTo(p, k)
    ensures j < k && n in Names(p.src[j])
    decreases k
  {
    if n in Names(p.src[k - 1]) {
      j := k - 1;
    } else {
      j := NameOwner(p, k - 1, n);
    }
  }

  // ---------------------------------------------------------------------------------------------
  // Matching

  /** A pattern met at a node under `b`: `b'` keeps `b`, explains the match, and captures nothing more. */
  ghost predicate Captured(p: UPat, s: Store, id: nat, b: Bindings, b': Bindings)
    requires Acyclic(s) && id < |s|
  {
    && b.Keys <= b'.Keys && (forall n :: n in b ==> b'[n] == b[n])
    && b'.Keys == b.Keys + Names(p) && Explains(p, s, id, b')
  }

  /** `env` keeps everything in `b`. */
  ghost predicate Keeps(b: Bindings, env: Bindings) {
    forall n :: n in b ==> n in env && env[n] == b[n]
  }

  /** Explanations survive adding bindings. */
  lemma {:induction false} ExplainsMore(p: UPat, s: Store, id: nat, env: Bindings, more: Bindings)
    requires Acyclic(s) && id < |s| && Explains(p, s, id, env) && Keeps(env, more)
    ensures Explains(p, s, id, more)
    decreases p
  {
    if p.checkSrc {
      forall k | 0 <= k < |p.src|
        ensures Explains(p.src[k], s, s[id].src[k], more)
      {
        ExplainsMore(p.src[k], s, s[id].src[k], env, more);
      }
    }
  }

  /** Every child check of `p` holds under `env`. */
  ghost predicate ChildrenExplained(p: UPat, s: Store, id: nat, env: Bindings)
    requires Acyclic(s) && id < |s| && HeadOk(p, s, id)
  {
    p.checkSrc ==> forall k :: 0 <= k < |p.src| ==> Explains(p.src[k], s, s[id].src[k], env)
  }

  /** Capturing the node under the pattern's own name completes the explanation. */
  lemma BindExplains(p: UPat, s: Store, id: nat, b: Bindings, b1: Bindings)
    requires Acyclic(s) && id < |s| && HeadOk(p, s, id) && ChildrenExplained(p, s, id, b1) && Keeps(b, b1)
    requires b1.Keys == b.Keys + if p.checkSrc then NamesUpTo(p, |p.src|) else {}
    requires p.name in b1 ==> b1[p.name] == id || p.name == ""
    ensures Captured(p, s, id, b, if p.name == "" then b1 else b1[p.name := id])
  {
    var b' := if p.name == "" then b1 else b1[p.name := id];
    assert Keeps(b1, b');
    if p.checkSrc {
      forall k | 0 <= k < |p.src|
        ensures Explains(p.src[k], s, s[id].src[k], b')
      {
        ExplainsMore(p.src[k], s, s[id].src[k], b1, b');
      }
    }
  }

  /** Depth-first matching that writes captures as it goes. It succeeds exactly when some assignment of
      nodes to names that keeps `b` explains the match, and then it finds the least one. */
  method MatchInto(p: UPat, s: Store, id: nat, b: Bindings) returns (ok: bool, b': Bindings)
    requires Acyclic(s) && id < |s|
    ensures ok ==> Captured(p, s, id, b, b')
    ensures forall env: Bindings :: Keeps(b, env) && Explains(p, s, id, env) ==> ok && Keeps(b', env)
    decreases p, 1
  {
    b' := b;
    if p.Nil? {
      return false, b';
    }
    if p.ops.Some? && s[id].op !in p.ops.value {
      return false, b';
    }
    if p.argMatch.Some? && !p.argMatch.value(s[id].arg) {
      return false, b';
    }
    if p.checkSrc {
      if |p.src| != |s[id].src| {
        return false, b';
      }
      ok, b' := MatchChildren(p, s, id, b);
      if !ok {
        return false, b';
      }
    }
    assert HeadOk(p, s, id) && ChildrenExplained(p, s, id, b');
    hide Explains, HeadOk, ChildrenExplained, Names, NamesUpTo, Captured, Keeps;
    ok := p.name == "" || p.name !in b' || b'[p.name] == id;
    ghost var b1 := b';
    forall env: Bindings | Keeps(b, env) && Explains(p, s, id, env)
      ensures ok && Keeps(if p.name == "" then b1 else b1[p.name := id], env)
    {
      assert Keeps(b1, env);
    }
    if ok {
      BindExplains(p, s, id, b, b1);
      if p.name != "" {
        b' := b'[p.name := id];
      }
    }
  }

  /** The child patterns in order. */
  method MatchChildren(p: UPat, s: Store, id: nat, b: Bindings) returns (ok: bool, b': Bindings)
    requires Acyclic(s) && id < |s| && HeadOk(p, s, id) && p.checkSrc
    ensures ok ==> Keeps(b, b') && b'.Keys == b.Keys + NamesUpTo(p, |p.src|)
    ensures ok ==> forall k :: 0 <= k < |p.src| ==> Explains(p.src[k], s, s[id].src[k], b')
    ensures forall env: Bindings :: Keeps(b, env) && Explains(p, s, id, env) ==> ok && Keeps(b', env)
    decreases p, 0
  {
    b' := b;
    for k := 0 to |p.src|
      invariant Keeps(b, b') && b'.Keys == b.Keys + NamesUpTo(p, k)
      invariant forall j :: 0 <= j < k ==> Explains(p.src[j], s, s[id].src[j], b')
      invariant forall env: Bindings :: Keeps(b, env) && Explains(p, s, id, env) ==> Keeps(b', env)
    {
      var child, node := p.src[k], s[id].src[k];
      ghost var before := b';
      var matched;
      matched, b' := MatchInto(child, s, node, b');
      forall env: Bindings | Keeps(b, env) && Explains(p, s, id, env)
        ensures matched && Keeps(b', env)
      {
        assert Explains(child, s, node, env);
      }
      if !matched {
        return false, b';
      }
      forall j | 0 <= j < k
        ensures Explains(p.src[j], s, s[id].src[j], b')
      {
        ExplainsMore(p.src[j], s, s[id].src[j], before, b');
      }
    }
    ok := true;
  }

  /** A match from no captures: it succeeds exactly when the pattern can be explained at all, captures
      exactly the pattern's names, and agrees with every explanation. */
  method Match(p: UPat, s: Store, id: nat) returns (r: Option<Bindings>)
    requires Acyclic(s) && id < |s|
    ensures r.Some? <==> exists env: Bindings :: Explains(p, s, id, env)
    ensures r.Some? ==> Explains(p, s, id, r.value) && r.value.Keys == Names(p)
    ensures r.Some? ==> forall env: Bindings :: Explains(p, s, id, env) ==> Keeps(r.value, env)
  {
    var b: Bindings := map[];
    var ok, found := MatchInto(p, s, id, b);
    forall env: Bindings | Explains(p, s, id, env)
      ensures ok && Keeps(found, env)
    {
      assert Keeps(b, env);
    }
    if !ok {
      return None;
    }
    assert Explains(p, s, id, found);
    return Some(found);
  }

  /** The captures of a successful match are determined by the pattern and the node. */
  lemma CapturesUnique(p: UPat, s: Store, id: nat, b1: Bindings, b2: Bindings)
    requires Acyclic(s) && id < |s| && Explains(p, s, id, b1) && Explains(p, s, id, b2)
    requires b1.Keys == Names(p) == b2.Keys
    ensures b1 == b2
  {
    forall n | n in Names(p)
      ensures b1[n] == b2[n]
    {
      NameDetermined(p, s, id, b1, b2, n);
    }
  }

  lemma {:induction false} NameDetermined(p: UPat, s: Store, id: nat, b1: Bindings, b2: Bindings, n: string)
    requires Acyclic(s) && id < |s| && Explains(p, s, id, b1) && Explains(p, s, id, b2) && n in Names(p)
    ensures n in b1 && n in b2 && b1[n] == b2[n]
    decreases p
  {
    if !(p.name != "" && n == p.name) {
      var k := NameOwner(p, |p.src|, n);
      NameDetermined(p.src[k], s, s[id].src[k], b1, b2, n);
    }
  }
}
