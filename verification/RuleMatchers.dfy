/** Rewrite rules and their dispatch by operation. */
module RuleMatchers {
  import opened Wrappers
  import opened UOps
  import opened Patterns

  /** A rewrite may add nodes to the store; it returns the grown store and the replacement node. */
  type Rewrite = (Bindings, Store, nat) -> Option<(Store, nat)>

  datatype Rule = Rule(pat: UPat, rewrite: Option<Rewrite>)

  predicate Usable(r: Rule) {
    r.pat.Pat? && r.rewrite.Some?
  }

  /** The captures of a match: an explanation that names exactly the pattern's names. */
  ghost predicate IsCapture(p: UPat, s: Store, id: nat, b: Bindings)
    requires Acyclic(s) && id < |s|
  {
    Explains(p, s, id, b) && b.Keys == Names(p)
  }

  ghost function CapturesOf(p: UPat, s: Store, id: nat): Option<Bindings>
    requires Acyclic(s) && id < |s|
  {
    if exists b: Bindings :: IsCapture(p, s, id, b) then
      var b: Bindings :| IsCapture(p, s, id, b);
      Some(b)
    else None
  }

  /** What one rule does to one node. */
  ghost function Applied(r: Rule, s: Store, id: nat): Option<(Store, nat)>
    requires Acyclic(s) && id < |s|
  {
    if Usable(r) && CapturesOf(r.pat, s, id).Some? then r.rewrite.value(CapturesOf(r.pat, s, id).value, s, id) else None
  }

  /** Rules that list an operation come before rules for any operation. */
  predicate Listed(r: Rule, op: Op) {
    Usable(r) && r.pat.ops.Some? && op in r.pat.ops.value
  }

  predicate ForAny(r: Rule) {
    Usable(r) && r.pat.ops.None?
  }

  /** The first result among the listed (or the any-operation) rules from index `n` on. */
  ghost function FirstOf(rules: seq<Rule>, s: Store, id: nat, listed: bool, n: nat): Option<(Store, nat)>
    requires Acyclic(s) && id < |s| && n <= |rules|
    decreases |rules| - n
  {
    if n == |rules| then None
    else
      var r := if (if listed then Listed(rules[n], s[id].op) else ForAny(rules[n])) then Applied(rules[n], s, id)
               else None;
      if r.Some? then r else FirstOf(rules, s, id, listed, n + 1)
  }

  /** What the matcher does to a node. */
  ghost function RewriteOf(rules: seq<Rule>, s: Store, id: nat): Option<(Store, nat)>
    requires Acyclic(s) && id < |s|
  {
    var r := FirstOf(rules, s, id, true, 0);
    if r.Some? then r else FirstOf(rules, s, id, false, 0)
  }

  lemma {:induction false} FirstOfNone(rules: seq<Rule>, s: Store, id: nat, listed: bool, n: nat)
    requires Acyclic(s) && id < |s| && n <= |rules|
    ensures FirstOf(rules, s, id, listed, n).None? <==>
            forall i :: n <= i < |rules| && (if listed then Listed(rules[i], s[id].op) else ForAny(rules[i])) ==>
                          Applied(rules[i], s, id).None?
    ensures FirstOf(rules, s, id, listed, n).Some? ==>
              exists i :: n <= i < |rules| && FirstOf(rules, s, id, listed, n) == Applied(rules[i], s, id)
    decreases |rules| - n
  {
    hide Applied;
    if n < |rules| {
      FirstOfNone(rules, s, id, listed, n + 1);
    }
  }

  lemma {:induction false} FirstOfAt(rules: seq<Rule>, s: Store, id: nat, listed: bool, n: nat, i: nat)
    requires Acyclic(s) && id < |s| && n <= i < |rules|
    requires if listed then Listed(rules[i], s[id].op) else ForAny(rules[i])
    requires Applied(rules[i], s, id).Some?
    requires forall j :: n <= j < i && (if listed then Listed(rules[j], s[id].op) else ForAny(rules[j])) ==>
                           Applied(rules[j], s, id).None?
    ensures FirstOf(rules, s, id, listed, n) == Applied(rules[i], s, id)
    decreases i - n
  {
    hide Applied;
    if n < i {
      FirstOfAt(rules, s, id, listed, n + 1, i);
    }
  }

  /** The index never hides an applicable rule: the matcher gives up exactly when no rule at all would
      rewrite the node, and whatever it does is what one of the rules does. */
  lemma DispatchComplete(rules: seq<Rule>, s: Store, id: nat)
    requires Acyclic(s) && id < |s|
    ensures RewriteOf(rules, s, id).None? <==> forall i :: 0 <= i < |rules| ==> Applied(rules[i], s, id).None?
    ensures RewriteOf(rules, s, id).Some? ==>
              exists i :: 0 <= i < |rules| && RewriteOf(rules, s, id) == Applied(rules[i], s, id)
  {
    FirstOfNone(rules, s, id, true, 0);
    FirstOfNone(rules, s, id, false, 0);
  }

  // ---------------------------------------------------------------------------------------------
  // The index

  /** Ascending indices of exactly the rules that list `op`. */
  ghost predicate IndexOf(rules: seq<Rule>, op: Op, indices: seq<nat>, n: nat) {
    && (forall j, k :: 0 <= j < k < |indices| ==> indices[j] <= indices[k])
    && (forall j :: 0 <= j < |indices| ==> indices[j] < n)
    && forall i :: 0 <= i < n <= |rules| ==> (i in indices <==> Listed(rules[i], op))
  }

  ghost predicate IndexOfAny(rules: seq<Rule>, indices: seq<nat>, n: nat) {
    && (forall j, k :: 0 <= j < k < |indices| ==> indices[j] <= indices[k])
    && (forall j :: 0 <= j < |indices| ==> indices[j] < n)
    && forall i :: 0 <= i < n <= |rules| ==> (i in indices <==> ForAny(rules[i]))
  }

  function Lookup(byOp: map<Op, seq<nat>>, op: Op): seq<nat> {
    if op in byOp then byOp[op] else []
  }

  /** Adds rule `i` to the entry of every operation its pattern lists. */
  method IndexRule(rules: seq<Rule>, byOp: map<Op, seq<nat>>, i: nat) returns (after: map<Op, seq<nat>>)
    requires i < |rules| && Usable(rules[i]) && rules[i].pat.ops.Some?
    requires forall op :: IndexOf(rules, op, Lookup(byOp, op), i)
    ensures forall op :: IndexOf(rules, op, Lookup(after, op), i + 1)
  {
    hide IndexOf, Added;
    after := byOp;
    var ops := rules[i].pat.ops.value;
    NothingAdded(byOp, i);
    for k := 0 to |ops|
      invariant forall op :: Added(Lookup(byOp, op), Lookup(after, op), i, op in ops[..k])
    {
      ghost var before := after;
      after := after[ops[k] := Lookup(after, ops[k]) + [i]];
      assert ops[..k + 1] == ops[..k] + [ops[k]];
      forall op
        ensures Added(Lookup(byOp, op), Lookup(after, op), i, op in ops[..k + 1])
      {
        assert Added(Lookup(byOp, op), Lookup(before, op), i, op in ops[..k]);
        AddedAgain(Lookup(byOp, op), Lookup(before, op), i, op in ops[..k]);
      }
    }
    assert ops[..|ops|] == ops;
    forall op
      ensures IndexOf(rules, op, Lookup(after, op), i + 1)
    {
      assert Added(Lookup(byOp, op), Lookup(after, op), i, op in ops);
      assert IndexOf(rules, op, Lookup(byOp, op), i);
      AddedIndex(rules, op, Lookup(byOp, op), Lookup(after, op), i);
    }
  }

  lemma NothingAdded(byOp: map<Op, seq<nat>>, i: nat)
    ensures forall op :: Added(Lookup(byOp, op), Lookup(byOp, op), i, false)
  {
  }

  lemma AddedAgain(before: seq<nat>, now: seq<nat>, i: nat, some: bool)
    requires Added(before, now, i, some)
    ensures Added(before, now + [i], i, true)
  {
  }

  /** Copies of `i` appended, at least one exactly when `some`. */
  ghost predicate Added(before: seq<nat>, after: seq<nat>, i: nat, some: bool) {
    && before <= after && (forall j :: |before| <= j < |after| ==> after[j] == i) && (some <==> |before| < |after|)
  }

  lemma AddedIndex(rules: seq<Rule>, op: Op, before: seq<nat>, after: seq<nat>, i: nat)
    requires i < |rules| && IndexOf(rules, op, before, i) && Added(before, after, i, Listed(rules[i], op))
    ensures IndexOf(rules, op, after, i + 1)
  {
    forall r | 0 <= r < i + 1
      ensures r in after <==> Listed(rules[r], op)
    {
      if r in after {
        var j :| 0 <= j < |after| && after[j] == r;
        assert j < |before| ==> r in before;
      }
      if r < i && r in before {
        var j :| 0 <= j < |before| && before[j] == r;
        assert after[j] == r;
      }
      if r == i && Listed(rules[i], op) {
        assert after[|before|] == i;
      }
    }
  }

  method BuildIndex(rules: seq<Rule>) returns (byOp: map<Op, seq<nat>>, anyRules: seq<nat>)
    ensures forall op :: IndexOf(rules, op, Lookup(byOp, op), |rules|)
    ensures IndexOfAny(rules, anyRules, |rules|)
  {
    hide IndexOf, IndexOfAny;
    byOp, anyRules := map[], [];
    NothingIndexed(rules, byOp);
    for i := 0 to |rules|
      invariant forall op :: IndexOf(rules, op, Lookup(byOp, op), i)
      invariant IndexOfAny(rules, anyRules, i)
    {
      var r := rules[i];
      AnyIndex(rules, anyRules, i);
      if !Usable(r) {
        UnlistedRule(rules, byOp, i);
      } else if r.pat.ops.None? {
        UnlistedRule(rules, byOp, i);
        anyRules := anyRules + [i];
      } else {
        byOp := IndexRule(rules, byOp, i);
      }
    }
  }

  lemma NothingIndexed(rules: seq<Rule>, byOp: map<Op, seq<nat>>)
    requires byOp == map[]
    ensures (forall op :: IndexOf(rules, op, Lookup(byOp, op), 0)) && IndexOfAny(rules, [], 0)
  {
  }

  /** A rule no operation lists leaves every entry as it is. */
  lemma UnlistedRule(rules: seq<Rule>, byOp: map<Op, seq<nat>>, i: nat)
    requires i < |rules| && (!Usable(rules[i]) || rules[i].pat.ops.None?)
    requires forall op :: IndexOf(rules, op, Lookup(byOp, op), i)
    ensures forall op :: IndexOf(rules, op, Lookup(byOp, op), i + 1)
  {
    hide IndexOf;
    forall op
      ensures IndexOf(rules, op, Lookup(byOp, op), i + 1)
    {
      assert IndexOf(rules, op, Lookup(byOp, op), i);
      AddedIndex(rules, op, Lookup(byOp, op), Lookup(byOp, op), i);
    }
  }

  lemma AnyIndex(rules: seq<Rule>, indices: seq<nat>, i: nat)
    requires i < |rules| && IndexOfAny(rules, indices, i)
    ensures IndexOfAny(rules, if ForAny(rules[i]) then indices + [i] else indices, i + 1)
  {
  }

  // ---------------------------------------------------------------------------------------------
  // The matcher

  class PatternMatcher {
    const rules: seq<Rule>
    const byOp: map<Op, seq<nat>>
    const anyRules: seq<nat>

    constructor (rules: seq<Rule>)
      ensures Valid() && this.rules == rules
    {
      var listed, any := BuildIndex(rules);
      this.rules, byOp, anyRules := rules, listed, any;
    }

    ghost predicate Valid() {
      (forall op :: IndexOf(rules, op, Lookup(byOp, op), |rules|)) && IndexOfAny(rules, anyRules, |rules|)
    }

    /** Matches one rule and applies its rewrite. */
    method TryRule(i: nat, s: Store, id: nat) returns (r: Option<(Store, nat)>)
      requires i < |rules| && Acyclic(s) && id < |s|
      ensures r == Applied(rules[i], s, id)
    {
      var rule := rules[i];
      if rule.pat.Nil? || rule.rewrite.None? {
        return None;
      }
      var found := Match(rule.pat, s, id);
      if found.None? {
        forall b: Bindings ensures !IsCapture(rule.pat, s, id, b) {
          assert !Explains(rule.pat, s, id, b);
        }
        return None;
      }
      assert IsCapture(rule.pat, s, id, found.value);
      forall b: Bindings | IsCapture(rule.pat, s, id, b) ensures b == found.value {
        CapturesUnique(rule.pat, s, id, b, found.value);
      }
      return rule.rewrite.value(found.value, s, id);
    }

    /** The rules of one index in order. */
    method TryIndex(indices: seq<nat>, s: Store, id: nat, ghost listed: bool) returns (r: Option<(Store, nat)>)
      requires Acyclic(s) && id < |s|
      requires if listed then IndexOf(rules, s[id].op, indices, |rules|) else IndexOfAny(rules, indices, |rules|)
      ensures r == FirstOf(rules, s, id, listed, 0)
    {
      hide Applied;
      for k := 0 to |indices|
        invariant forall j :: 0 <= j < k ==> Applied(rules[indices[j]], s, id).None?
      {
        r := TryRule(indices[k], s, id);
        if r.Some? {
          assert indices[k] in indices;
          forall j | 0 <= j < indices[k] && (if listed then Listed(rules[j], s[id].op) else ForAny(rules[j]))
            ensures Applied(rules[j], s, id).None?
          {
            assert j in indices;
            var p :| 0 <= p < |indices| && indices[p] == j;
            assert p < k;
          }
          FirstOfAt(rules, s, id, listed, 0, indices[k]);
          return;
        }
      }
      forall j | 0 <= j < |rules| && (if listed then Listed(rules[j], s[id].op) else ForAny(rules[j]))
        ensures Applied(rules[j], s, id).None?
      {
        assert j in indices;
      }
      FirstOfNone(rules, s, id, listed, 0);
      r := None;
    }

    method Rewrite(s: Store, id: nat) returns (r: Option<(Store, nat)>)
      requires Valid() && Acyclic(s) && id < |s|
      ensures r == RewriteOf(rules, s, id)
    {
      hide FirstOf, Applied;
      assert IndexOf(rules, s[id].op, Lookup(byOp, s[id].op), |rules|);
      r := TryIndex(Lookup(byOp, s[id].op), s, id, true);
      if r.None? {
        r := TryIndex(anyRules, s, id, false);
      }
    }
  }
}
