/** Cutting a page snapshot to a token limit. */
module SnapshotLimit {
  import opened Text

  /** What the limit yields: how many nodes are kept, the reported token count, and whether nodes were cut off. */
  datatype Limited = Limited(kept: nat, tokenCount: int, truncated: bool)

  function Sum(costs: seq<nat>): nat {
    if costs == [] then 0 else Sum(costs[..|costs| - 1]) + costs[|costs| - 1]
  }

  lemma {:induction false} SumGrows(costs: seq<nat>, k: nat)
    requires k <= |costs|
    ensures Sum(costs[..k]) <= Sum(costs)
  {
    if k < |costs| {
      var front := costs[..|costs| - 1];
      SumGrows(front, k);
      assert front[..k] == costs[..k];
    } else {
      assert costs[..k] == costs;
    }
  }

  /** `r` keeps the longest prefix of nodes within the limit and counts its cost, plus the marker if any is cut off. */
  ghost predicate Cuts(costs: seq<nat>, marker: nat, most: int, r: Limited) {
    && r.kept <= |costs| && Sum(costs[..r.kept]) <= most
    && (forall n | r.kept < n <= |costs| :: Sum(costs[..n]) > most)
    && (r.truncated <==> r.kept < |costs|)
    && r.tokenCount == Sum(costs[..r.kept]) + (if r.truncated then marker else 0)
  }

  /**
   `applyTokenLimit`, given what each node and the truncation marker cost, and what all nodes cost together.
   Without a positive limit nothing is cut.
   */
  method ApplyTokenLimit(costs: seq<nat>, marker: nat, together: nat, maxTokens: Option<int>) returns (r: Limited)
    ensures if maxTokens.None? || maxTokens.value <= 0 then r == Limited(|costs|, together, false)
            else Cuts(costs, marker, maxTokens.value, r)
  {
    if maxTokens.None? || maxTokens.value <= 0 {
      return Limited(|costs|, together, false);
    }
    var accepted, tokenCount, truncated := 0, 0, false;
    for i := 0 to |costs|
      invariant !truncated && accepted == i && tokenCount == Sum(costs[..i]) <= maxTokens.value
    {
      var nextCount := tokenCount + costs[i];
      assert costs[..i + 1][..i] == costs[..i];
      if nextCount > maxTokens.value {
        truncated := true;
        break;
      }
      accepted := accepted + 1;
      tokenCount := nextCount;
    }
    forall n | accepted < n <= |costs| ensures Sum(costs[..n]) > maxTokens.value {
      SumGrows(costs[..n], accepted + 1);
      assert costs[..n][..accepted + 1] == costs[..accepted + 1];
    }
    if truncated {
      tokenCount := tokenCount + marker;
    }
    r := Limited(accepted, tokenCount, truncated);
  }

  /**
   The reported count exceeds the limit if and only if the nodes together do and some first ones of them cost between
   the limit less the marker and the limit.
   */
  lemma CountExceedsIff(costs: seq<nat>, marker: nat, most: int, r: Limited)
    requires Cuts(costs, marker, most, r)
    ensures r.tokenCount > most <==>
            Sum(costs) > most && exists k :: 0 <= k <= |costs| && most - marker < Sum(costs[..k]) <= most
  {
    SumGrows(costs, r.kept);
    assert costs[..|costs|] == costs;
    if k :| 0 <= k <= |costs| && most - marker < Sum(costs[..k]) <= most {
      SumGrows(costs[..r.kept], k);
      assert costs[..r.kept][..k] == costs[..k];
    }
  }

  /** It can happen: the marker is added after the comparison. */
  lemma CountAboveLimit()
    ensures Cuts([4, 4], 3, 5, Limited(1, 7, true))
  {
    assert [4, 4][..1] == [4] && [4][..0] == [];
    assert [4, 4][..2] == [4, 4];
    assert Sum([4]) == 4 && Sum([4, 4]) == 8;
  }
}
