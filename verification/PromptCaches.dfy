/** Prompt-prefix snapshots and the bounded least-recently-used cache that keeps them. */
module PromptCaches {
  import opened Transformer
  import opened Decoding
  import opened Wrappers

  /** K/V of a prompt prefix, with the logits after it when the prefix was a whole prompt. */
  datatype Snapshot = Snapshot(endPos: nat, kv: seq<seq<KV>>, logits: seq<real>, token: int)

  datatype Entry = Entry(identity: int, blockSize: nat, tokens: seq<int>, snapshot: Snapshot, bytes: nat)

  /** The snapshot is what decoding `tokens` from the start would have produced. */
  ghost predicate Truthful(m: Model, tokens: seq<int>, s: Snapshot) {
    && s.endPos == |tokens| > 0 && TokensOk(m, tokens)
    && s.kv == TrueCaches(m, tokens)
    && (s.logits != [] ==> s.logits == LogitsAfter(m, tokens) && s.token == Next(m, tokens))
  }

  ghost predicate AllTruthful(m: Model, identity: int, entries: seq<Entry>) {
    forall i :: 0 <= i < |entries| && entries[i].identity == identity ==>
                  Truthful(m, entries[i].tokens, entries[i].snapshot)
  }

  /** Removing and reordering entries keeps the cache truthful. */
  lemma SubsetTruthful(m: Model, identity: int, before: seq<Entry>, after: seq<Entry>)
    requires AllTruthful(m, identity, before) && forall e :: e in after ==> e in before
    ensures AllTruthful(m, identity, after)
  {
    forall i | 0 <= i < |after| && after[i].identity == identity
      ensures Truthful(m, after[i].tokens, after[i].snapshot)
    {
      assert after[i] in before;
    }
  }

  function Used(entries: seq<Entry>): nat {
    if entries == [] then 0 else entries[0].bytes + Used(entries[1..])
  }

  lemma {:induction false} UsedConcat(a: seq<Entry>, b: seq<Entry>)
    ensures Used(a + b) == Used(a) + Used(b)
  {
    if a == [] {
      assert a + b == b;
    } else {
      UsedConcat(a[1..], b);
      assert (a + b)[1..] == a[1..] + b;
    }
  }

  predicate Matches(e: Entry, identity: int, blockSize: nat, tokens: seq<int>) {
    e.identity == identity && e.blockSize == blockSize && e.tokens == tokens
  }

  function RemoveAt(entries: seq<Entry>, i: nat): (r: seq<Entry>)
    requires i < |entries|
    ensures forall e :: e in r ==> e in entries
    ensures Used(r) == Used(entries) - entries[i].bytes
  {
    UsedConcat(entries[..i], entries[i..]);
    UsedConcat(entries[..i], entries[i + 1..]);
    assert entries == entries[..i] + entries[i..];
    entries[..i] + entries[i + 1..]
  }

  /** The entries stored under other keys, in order. */
  function Others(entries: seq<Entry>, identity: int, blockSize: nat, tokens: seq<int>): (r: seq<Entry>) {
    if entries == [] then []
    else
      var rest := Others(entries[1..], identity, blockSize, tokens);
      if Matches(entries[0], identity, blockSize, tokens) then rest else [entries[0]] + rest
  }

  lemma {:induction false} OthersRemove(entries: seq<Entry>, i: nat, identity: int, blockSize: nat, tokens: seq<int>)
    requires i < |entries| && Matches(entries[i], identity, blockSize, tokens)
    ensures Others(RemoveAt(entries, i), identity, blockSize, tokens) == Others(entries, identity, blockSize, tokens)
  {
    hide Matches, Used;
    var fewer := RemoveAt(entries, i);
    if i == 0 {
      assert fewer == entries[1..];
    } else {
      OthersRemove(entries[1..], i - 1, identity, blockSize, tokens);
      assert fewer[1..] == RemoveAt(entries[1..], i - 1);
    }
  }

  /** Moving an entry to the front keeps the sum of the charges. */
  lemma Promoted(entries: seq<Entry>, i: nat)
    requires i < |entries|
    ensures Used([entries[i]] + entries[..i] + entries[i + 1..]) == Used(entries)
  {
    assert [entries[i]] + entries[..i] + entries[i + 1..] == [entries[i]] + RemoveAt(entries, i);
    UsedConcat([entries[i]], RemoveAt(entries, i));
  }

  lemma {:induction false} OthersOf(entries: seq<Entry>, identity: int, blockSize: nat, tokens: seq<int>)
    ensures forall e :: e in Others(entries, identity, blockSize, tokens) <==>
                        e in entries && !Matches(e, identity, blockSize, tokens)
    ensures (forall e :: e in entries ==> !Matches(e, identity, blockSize, tokens)) ==>
              Others(entries, identity, blockSize, tokens) == entries
  {
    if entries != [] {
      OthersOf(entries[1..], identity, blockSize, tokens);
      assert entries == [entries[0]] + entries[1..];
    }
  }

  /** What eviction from the least recently used end leaves within `budget` bytes. */
  function Fitting(entries: seq<Entry>, budget: int): seq<Entry> {
    if entries == [] || Used(entries) <= budget then entries else Fitting(entries[..|entries| - 1], budget)
  }

  /** Eviction keeps the most recently used entries, and drops one only when it no longer fits. */
  lemma {:induction false} FittingIsLongest(entries: seq<Entry>, budget: nat)
    ensures var kept := Fitting(entries, budget);
            && kept <= entries && Used(kept) <= budget
            && (kept != entries ==> Used(entries[..|kept| + 1]) > budget)
  {
    if entries != [] && Used(entries) > budget {
      var n := |entries| - 1;
      FittingIsLongest(entries[..n], budget);
      var kept := Fitting(entries[..n], budget);
      if kept == entries[..n] {
        assert entries[..n + 1] == entries;
      } else {
        assert entries[..n][..|kept| + 1] == entries[..|kept| + 1];
      }
    }
  }

  /** Most recently used entry first. */
  class PromptCache {
    const maxBytes: int
    const sizeOf: (int, seq<int>, Snapshot) -> nat   // charge for a snapshot under an identity and tokens
    var entries: seq<Entry>

    constructor (maxBytes: int, sizeOf: (int, seq<int>, Snapshot) -> nat)
      ensures entries == [] && this.maxBytes == (if maxBytes < 0 then 0 else maxBytes) && this.sizeOf == sizeOf
              && WithinBudget()
    {
      this.maxBytes, this.sizeOf := if maxBytes < 0 then 0 else maxBytes, sizeOf;
      entries := [];
    }

    /** Every entry is charged what its snapshot takes. */
    ghost predicate Charged(entries: seq<Entry>) {
      forall i :: 0 <= i < |entries| ==>
                    entries[i].bytes == sizeOf(entries[i].identity, entries[i].tokens, entries[i].snapshot)
    }

    ghost predicate WithinBudget()
      reads this
    {
      Used(entries) <= maxBytes && Charged(entries)
    }

    /** Stores a snapshot under its tokens, evicting from the least recently used end. A refused
        store leaves the cache as it was. */
    method Put(identity: int, blockSize: nat, tokens: seq<int>, snapshot: Snapshot) returns (stored: bool)
      requires blockSize > 0 && WithinBudget()
      modifies this`entries
      ensures WithinBudget()
      ensures stored <==>
              tokens != [] && |tokens| % blockSize == 0 && snapshot.endPos == |tokens|
              && sizeOf(identity, tokens, snapshot) <= maxBytes && maxBytes > 0
      ensures stored ==>
                entries != []
                && entries[0] == Entry(identity, blockSize, tokens, snapshot, sizeOf(identity, tokens, snapshot))
      ensures stored ==>
                entries[1..] == Fitting(Others(old(entries), identity, blockSize, tokens),
                                        maxBytes - sizeOf(identity, tokens, snapshot))
      ensures stored ==> forall e :: e in entries[1..] ==>
                                       e in old(entries)
                                       && !(e.identity == identity && e.blockSize == blockSize && e.tokens == tokens)
      ensures !stored ==> entries == old(entries)
    {
      var bytes := sizeOf(identity, tokens, snapshot);
      if tokens == [] || |tokens| % blockSize != 0 || snapshot.endPos != |tokens| || bytes > maxBytes || maxBytes <= 0 {
        return false;
      }
      RemoveMatching(identity, blockSize, tokens);
      ghost var others := entries;
      while Used(entries) > maxBytes - bytes
        invariant forall e :: e in entries ==> e in old(entries) && !Matches(e, identity, blockSize, tokens)
        invariant Charged(entries)
        invariant Fitting(entries, maxBytes - bytes) == Fitting(others, maxBytes - bytes)
        decreases |entries|
      {
        entries := entries[..|entries| - 1];
      }
      entries := [Entry(identity, blockSize, tokens, snapshot, bytes)] + entries;
      return true;
    }

    /** An equal key is replaced, never duplicated. */
    method RemoveMatching(identity: int, blockSize: nat, tokens: seq<int>)
      modifies this`entries
      ensures entries == Others(old(entries), identity, blockSize, tokens)
      ensures old(Charged(entries)) ==> Charged(entries)
      ensures forall e :: e in entries ==> e in old(entries) && !Matches(e, identity, blockSize, tokens)
    {
      hide Others, Used;
      var i := 0;
      while i < |entries|
        invariant 0 <= i <= |entries|
        invariant Others(entries, identity, blockSize, tokens) == Others(old(entries), identity, blockSize, tokens)
        invariant forall j :: 0 <= j < i ==> !Matches(entries[j], identity, blockSize, tokens)
        decreases |entries| - i
      {
        var e := entries[i];
        if e.identity == identity && e.blockSize == blockSize && e.tokens == tokens {
          OthersRemove(entries, i, identity, blockSize, tokens);
          entries := entries[..i] + entries[i + 1..];
        } else {
          i := i + 1;
        }
      }
      OthersOf(entries, identity, blockSize, tokens);
      OthersOf(old(entries), identity, blockSize, tokens);
    }

    /** The most recently used entry under a key, or the number of entries. */
    method EntryFor(identity: int, blockSize: nat, prefix: seq<int>) returns (i: nat)
      ensures i <= |entries|
      ensures FirstMatch(entries, identity, blockSize, prefix, 0) ==
              if i == |entries| then None else Some(entries[i].snapshot)
    {
      for j := 0 to |entries|
        invariant FirstMatch(entries, identity, blockSize, prefix, 0) ==
                  FirstMatch(entries, identity, blockSize, prefix, j)
      {
        var e := entries[j];
        if e.identity == identity && e.blockSize == blockSize && e.tokens == prefix {
          return j;
        }
      }
      return |entries|;
    }

    /** The snapshot of the longest block-aligned prefix of `tokens` in the cache; a hit becomes the
        most recently used entry. */
    method FindLongest(identity: int, blockSize: nat, tokens: seq<int>) returns (hit: Option<Snapshot>)
      requires blockSize > 0 && WithinBudget()
      modifies this`entries
      ensures WithinBudget() && forall e :: e in entries ==> e in old(entries)
      ensures hit == HitBelow(old(entries), identity, blockSize, tokens, |tokens| / blockSize)
      ensures hit.None? ==> entries == old(entries)
      ensures hit.Some? ==> exists i :: 0 <= i < |old(entries)| && old(entries)[i].snapshot == hit.value
                                        && entries == [old(entries)[i]] + old(entries)[..i] + old(entries)[i + 1..]
    {
      var blocks: nat := |tokens| / blockSize;
      while blocks > 0
        invariant entries == old(entries) && blocks <= |tokens| / blockSize
        invariant HitBelow(entries, identity, blockSize, tokens, |tokens| / blockSize) ==
                  HitBelow(entries, identity, blockSize, tokens, blocks)
      {
        BlocksFit(|tokens|, blockSize, blocks);
        var prefix := tokens[..blocks * blockSize];
        var i := EntryFor(identity, blockSize, prefix);
        if i < |entries| {
          var e := entries[i];
          Promoted(entries, i);
          entries := [e] + entries[..i] + entries[i + 1..];
          if sizeOf(e.identity, e.tokens, e.snapshot) > e.bytes {
            assert false;
          }
          return Some(e.snapshot);
        }
        blocks := blocks - 1;
      }
      return None;
    }
  }

  /** The first `blocks` whole blocks of `tokens`. */
  function Blocks(tokens: seq<int>, blockSize: nat, blocks: nat): (prefix: seq<int>)
    ensures prefix <= tokens && (blocks * blockSize <= |tokens| ==> |prefix| == blocks * blockSize)
  {
    if blocks * blockSize <= |tokens| then tokens[..blocks * blockSize] else tokens
  }

  function FirstMatch(entries: seq<Entry>, identity: int, blockSize: nat, tokens: seq<int>,
                      from: nat): (hit: Option<Snapshot>)
    requires from <= |entries|
    decreases |entries| - from
  {
    if from == |entries| then None
    else if Matches(entries[from], identity, blockSize, tokens) then Some(entries[from].snapshot)
    else FirstMatch(entries, identity, blockSize, tokens, from + 1)
  }

  /** The hit among the prefixes of at most `blocks` blocks, longest first. */
  function HitBelow(entries: seq<Entry>, identity: int, blockSize: nat, tokens: seq<int>,
                    blocks: nat): (hit: Option<Snapshot>) {
    if blocks == 0 then None
    else
      var hit := FirstMatch(entries, identity, blockSize, Blocks(tokens, blockSize, blocks), 0);
      if hit.Some? then hit else HitBelow(entries, identity, blockSize, tokens, blocks - 1)
  }

  /** A cached prefix of `tokens` made of whole blocks. */
  ghost predicate CachedPrefix(entries: seq<Entry>, identity: int, blockSize: nat, tokens: seq<int>, blocks: nat,
                               e: Entry) {
    && e in entries && e.identity == identity && e.blockSize == blockSize
    && blocks * blockSize <= |tokens| && e.tokens == tokens[..blocks * blockSize]
  }

  lemma BlocksFit(n: nat, blockSize: nat, blocks: nat)
    requires blockSize > 0 && blocks <= n / blockSize
    ensures blocks * blockSize <= n
  {
    BlocksOrder(blocks, n / blockSize, blockSize);
  }

  lemma BlocksOrder(a: nat, b: nat, blockSize: nat)
    requires a <= b
    ensures a * blockSize <= b * blockSize
  {
  }

  lemma CachedIs(entries: seq<Entry>, identity: int, blockSize: nat, tokens: seq<int>, blocks: nat, e: Entry)
    requires blocks * blockSize <= |tokens|
    ensures CachedPrefix(entries, identity, blockSize, tokens, blocks, e) <==>
            e in entries && Matches(e, identity, blockSize, Blocks(tokens, blockSize, blocks))
  {
    assert Blocks(tokens, blockSize, blocks) == tokens[..blocks * blockSize];
  }

  lemma {:induction false} FirstMatchFinds(entries: seq<Entry>, identity: int, blockSize: nat, tokens: seq<int>,
                                           from: nat)
    requires from <= |entries|
    ensures var hit := FirstMatch(entries, identity, blockSize, tokens, from);
            if hit.Some? then
              exists e :: e in entries && Matches(e, identity, blockSize, tokens) && e.snapshot == hit.value
            else forall j :: from <= j < |entries| ==> !Matches(entries[j], identity, blockSize, tokens)
    decreases |entries| - from
  {
    if from < |entries| && !Matches(entries[from], identity, blockSize, tokens) {
      FirstMatchFinds(entries, identity, blockSize, tokens, from + 1);
    }
  }

  /** A hit is some cached prefix of whole blocks, no shorter than any other; a miss means no block prefix is
      cached. */
  lemma {:induction false} HitIsLongest(entries: seq<Entry>, identity: int, blockSize: nat, tokens: seq<int>,
                                        blocks: nat)
    requires blocks * blockSize <= |tokens|
    ensures var hit := HitBelow(entries, identity, blockSize, tokens, blocks);
            if hit.Some? then
              exists k, e ::
                && 0 < k <= blocks && CachedPrefix(entries, identity, blockSize, tokens, k, e)
                && e.snapshot == hit.value
                && forall j, f :: k < j <= blocks ==> !CachedPrefix(entries, identity, blockSize, tokens, j, f)
            else forall j, f :: 0 < j <= blocks ==> !CachedPrefix(entries, identity, blockSize, tokens, j, f)
  {
    if blocks > 0 {
      hide CachedPrefix, Matches;
      var prefix := Blocks(tokens, blockSize, blocks);
      FirstMatchFinds(entries, identity, blockSize, prefix, 0);
      forall f
        ensures CachedPrefix(entries, identity, blockSize, tokens, blocks, f) <==>
                f in entries && Matches(f, identity, blockSize, prefix)
      {
        CachedIs(entries, identity, blockSize, tokens, blocks, f);
      }
      if FirstMatch(entries, identity, blockSize, prefix, 0).None? {
        BlocksOrder(blocks - 1, blocks, blockSize);
        HitIsLongest(entries, identity, blockSize, tokens, blocks - 1);
      } else {
        var e :| e in entries && Matches(e, identity, blockSize, prefix)
                 && e.snapshot == HitBelow(entries, identity, blockSize, tokens, blocks).value;
        assert CachedPrefix(entries, identity, blockSize, tokens, blocks, e);
      }
    }
  }

  /** What a truthful cache returns is truthful for a prefix of the tokens looked up. */
  lemma HitTruthful(m: Model, entries: seq<Entry>, identity: int, blockSize: nat, tokens: seq<int>, blocks: nat)
    requires AllTruthful(m, identity, entries) && blocks * blockSize <= |tokens|
    ensures var hit := HitBelow(entries, identity, blockSize, tokens, blocks);
            hit.Some? ==> hit.value.endPos <= |tokens| && Truthful(m, tokens[..hit.value.endPos], hit.value)
  {
    hide Truthful, HitBelow;
    var hit := HitBelow(entries, identity, blockSize, tokens, blocks);
    if hit.Some? {
      HitIsLongest(entries, identity, blockSize, tokens, blocks);
      var k, e :| CachedPrefix(entries, identity, blockSize, tokens, k, e) && e.snapshot == hit.value;
      assert CachedPrefix(entries, identity, blockSize, tokens, k, e);
      var i :| 0 <= i < |entries| && entries[i] == e;
      TruthfulEnd(m, e.tokens, e.snapshot);
      assert e.tokens == tokens[..|e.tokens|];
    }
  }

  lemma TruthfulEnd(m: Model, tokens: seq<int>, s: Snapshot)
    requires Truthful(m, tokens, s)
    ensures s.endPos == |tokens|
  {
  }

  /** Storing a truthful snapshot in front of entries kept from a truthful cache. */
  lemma PutTruthful(m: Model, identity: int, before: seq<Entry>, after: seq<Entry>)
    requires AllTruthful(m, identity, before) && after != []
    requires forall e :: e in after[1..] ==> e in before
    requires after[0].identity == identity ==> Truthful(m, after[0].tokens, after[0].snapshot)
    ensures AllTruthful(m, identity, after)
  {
    hide Truthful;
    SubsetTruthful(m, identity, before, after[1..]);
    forall i | 0 <= i < |after| && after[i].identity == identity
      ensures Truthful(m, after[i].tokens, after[i].snapshot)
    {
      if i > 0 {
        assert after[i] == after[1..][i - 1];
      }
    }
  }
}
