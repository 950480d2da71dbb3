/** Greedy acceptance of a draft against verifier tokens. */
module Acceptance {
  import opened Wrappers

  /** The most tokens one draft may hold. */
  const MAX_DRAFT_COUNT := 64

  datatype MTPAcceptance = MTPAcceptance(
    draftedCount: int,
    verifiedCount: int,
    acceptedPrefixLen: int,
    acceptedTokens: seq<int>,
    bonusToken: int,
    outputTokens: seq<int>,
    allDraftsAccepted: bool,
    firstRejectedIndex: int)
  {
    function KVKeepTokens(): int {
      if acceptedPrefixLen < 0 || acceptedPrefixLen >= MAX_INT then 0 else acceptedPrefixLen + 1
    }

    /** The consistency check run before any staged K/V is committed. */
    predicate Valid() {
      && draftedCount >= 0 && verifiedCount >= 0 && 0 <= acceptedPrefixLen <= draftedCount
      && verifiedCount == acceptedPrefixLen == |acceptedTokens|
      && KVKeepTokens() > 0 && |outputTokens| == KVKeepTokens()
      && (forall i :: 0 <= i < |acceptedTokens| ==> acceptedTokens[i] >= 0 && outputTokens[i] == acceptedTokens[i])
      && bonusToken >= 0 && outputTokens[acceptedPrefixLen] == bonusToken
      && (if allDraftsAccepted then acceptedPrefixLen == draftedCount && firstRejectedIndex == -1
          else acceptedPrefixLen < draftedCount && firstRejectedIndex == acceptedPrefixLen)
    }
  }

  /** The acceptance of `n` out of `drafts` drafts that emits `output`: all but the last are accepted drafts,
      the last is the bonus. */
  ghost predicate IsVerdict(a: MTPAcceptance, drafts: int, output: seq<int>) {
    var n := |output| - 1;
    && 0 <= n <= drafts && n < MAX_INT && (forall t :: t in output ==> t >= 0)
    && a == MTPAcceptance(drafts, n, n, output[..n], output[n], output, n == drafts, if n == drafts then -1 else n)
  }

  /** A valid acceptance is determined by the number of drafts and the tokens it emits. */
  lemma ValidMeans(a: MTPAcceptance)
    ensures a.Valid() <==> IsVerdict(a, a.draftedCount, a.outputTokens)
  {
    if a.Valid() {
      var n := a.acceptedPrefixLen;
      assert a.acceptedTokens == a.outputTokens[..n];
      forall t | t in a.outputTokens
        ensures t >= 0
      {
        var i :| 0 <= i < |a.outputTokens| && a.outputTokens[i] == t;
        assert i < n ==> t == a.acceptedTokens[i];
      }
    }
    if IsVerdict(a, a.draftedCount, a.outputTokens) {
      assert a.outputTokens[a.acceptedPrefixLen] in a.outputTokens;
      forall i | 0 <= i < |a.acceptedTokens|
        ensures a.acceptedTokens[i] >= 0
      {
        assert a.acceptedTokens[i] == a.outputTokens[i] && a.outputTokens[i] in a.outputTokens;
      }
    }
  }

  /** `n` is the length of the longest common prefix of a draft and the verifier's tokens. */
  predicate LongestMatch(drafted: seq<int>, verifier: seq<int>, n: nat) {
    && n <= |drafted| && n <= |verifier|
    && drafted[..n] == verifier[..n]
    && (n < |drafted| && n < |verifier| ==> drafted[n] != verifier[n])
  }

  /** That length. */
  function MatchLength(drafted: seq<int>, verifier: seq<int>): (n: nat)
    ensures LongestMatch(drafted, verifier, n)
  {
    if drafted == [] || verifier == [] || drafted[0] != verifier[0] then 0
    else
      var n := MatchLength(drafted[1..], verifier[1..]);
      assert drafted[..n + 1] == [drafted[0]] + drafted[1..][..n]
             && verifier[..n + 1] == [verifier[0]] + verifier[1..][..n];
      n + 1
  }

  predicate NonNegative(tokens: seq<int>) {
    forall i :: 0 <= i < |tokens| ==> tokens[i] >= 0
  }

  method CheckNonNegative(tokens: seq<int>) returns (ok: bool)
    ensures ok <==> NonNegative(tokens)
  {
    for i := 0 to |tokens|
      invariant NonNegative(tokens[..i])
    {
      if tokens[i] < 0 {
        return false;
      }
    }
    return true;
  }

  /** Accepts the longest drafted prefix the verifier reproduces, plus the verifier's own next token.
      What is emitted is always a prefix of the verifier's tokens. */
  method AcceptDraft(drafted: seq<int>, verifier: seq<int>) returns (r: Result<MTPAcceptance>)
    requires |drafted| < MAX_INT
    ensures r.Ok? <==> NonNegative(drafted) && NonNegative(verifier) && |verifier| == |drafted| + 1
    ensures r.Ok? ==> r.value.Valid() && r.value.draftedCount == |drafted|
    ensures r.Ok? ==> LongestMatch(drafted, verifier, r.value.acceptedPrefixLen)
    ensures r.Ok? ==> r.value.acceptedTokens == drafted[..r.value.acceptedPrefixLen]
    ensures r.Ok? ==> r.value.outputTokens == verifier[..r.value.acceptedPrefixLen + 1]
  {
    var okDraft := CheckNonNegative(drafted);
    var okVerifier := CheckNonNegative(verifier);
    var g := |drafted|;
    if !okDraft || !okVerifier || |verifier| != g + 1 {
      return Err;
    }
    var accepted := 0;
    while accepted < g && drafted[accepted] == verifier[accepted]
      invariant 0 <= accepted <= g && drafted[..accepted] == verifier[..accepted]
    {
      accepted := accepted + 1;
    }
    var bonus := verifier[accepted];
    var acceptedTokens := drafted[..accepted];
    var output := acceptedTokens + [bonus];
    var allAccepted := accepted == g;
    return Ok(MTPAcceptance(g, accepted, accepted, acceptedTokens, bonus, output, allAccepted,
                            if allAccepted then -1 else accepted));
  }

  /** The longest match is unique, so acceptance is determined by the two token lists. */
  lemma LongestMatchUnique(drafted: seq<int>, verifier: seq<int>, a: nat, b: nat)
    requires LongestMatch(drafted, verifier, a) && LongestMatch(drafted, verifier, b)
    ensures a == b
  {
  }
}
