/**
 Cutting the text of one message down to a token budget, by shortening it character by character from a first guess
 that the budget could pay for at most.
 */
module MessageCut {
  import opened Text
  import opened Tokenizer

  function Shrink(cost: string -> nat, candidate: string, budget: int): string {
    if candidate == [] || cost(candidate) <= budget then candidate
    else Shrink(cost, candidate[..|candidate| - 1], budget)
  }

  /** As many characters as the budget could pay for at most. */
  function Start(text: string, budget: int): string
    requires budget >= 0
  {
    text[..if |text| < budget * 4 then |text| else budget * 4]
  }

  function CutBy(cost: string -> nat, text: string, budget: int): string {
    if budget <= 1 then [] else Shrink(cost, Start(text, budget), budget)
  }

  function Cut(text: string, budget: int): string {
    CutBy(EstimateTokens, text, budget)
  }

  /** `truncateTextToBudget` */
  method TruncateTextToBudget(text: string, budget: int) returns (candidate: string)
    ensures candidate == Cut(text, budget)
  {
    if budget <= 1 {
      return [];
    }
    var estimate: string -> nat := EstimateTokens;
    candidate := text[..if |text| < budget * 4 then |text| else budget * 4];
    while |candidate| > 0 && estimate(candidate) > budget
      invariant Shrink(estimate, Start(text, budget), budget) == Shrink(estimate, candidate, budget)
    {
      candidate := candidate[..|candidate| - 1];
    }
  }

  lemma {:induction false} ShrinkIsLongest(cost: string -> nat, candidate: string, budget: int)
    requires cost([]) <= budget
    ensures var r := Shrink(cost, candidate, budget);
            r <= candidate && cost(r) <= budget && forall k | |r| < k <= |candidate| :: cost(candidate[..k]) > budget
  {
    if candidate != [] && cost(candidate) > budget {
      var shorter := candidate[..|candidate| - 1];
      ShrinkIsLongest(cost, shorter, budget);
      assert candidate[..|candidate|] == candidate;
      assert forall k | 0 <= k < |candidate| :: shorter[..k] == candidate[..k];
    } else {
      assert candidate == [] ==> candidate == "";
    }
  }

  lemma CutByFits(cost: string -> nat, text: string, budget: int)
    requires budget >= 1 && cost([]) <= 1
    ensures CutBy(cost, text, budget) <= text && cost(CutBy(cost, text, budget)) <= budget
    ensures forall k | budget > 1 && |CutBy(cost, text, budget)| < k <= |text| && k <= budget * 4 ::
              cost(text[..k]) > budget
  {
    if budget > 1 {
      var start := Start(text, budget);
      ShrinkIsLongest(cost, start, budget);
      assert forall k | 0 <= k <= |start| :: start[..k] == text[..k];
    }
  }

  /** The cut text is a prefix within the budget: the longest one that fits among the first `4 * budget` characters. */
  lemma CutFits(text: string, budget: int)
    requires budget >= 1
    ensures Cut(text, budget) <= text && EstimateTokens(Cut(text, budget)) <= budget
    ensures forall k | budget > 1 && |Cut(text, budget)| < k <= |text| && k <= budget * 4 ::
              EstimateTokens(text[..k]) > budget
    ensures budget == 1 ==> Cut(text, budget) == ""
  {
    assert Trim([]) == [];
    CutByFits(EstimateTokens, text, budget);
  }

  /** `truncateMessageContent` */
  function CutMessage(m: Message, most: int): Message {
    if MessageTokens(m) <= most then m
    else match m.content
      case Blocks(_) => m
      case Plain(text) => m.(content := Plain(Cut(text, Max(1, most - FixedTokens(m)))))
  }

  /** What a message other than its text costs. */
  function FixedTokens(m: Message): nat {
    FRAMING + ROLE_COST + ToolTokens(m)
  }

  lemma TextCost(m: Message, text: string)
    ensures MessageTokens(m.(content := Plain(text))) == FixedTokens(m) + EstimateTokens(text)
  {
  }

  lemma BudgetFits(cost: nat, fixed: nat, most: int)
    requires 1 <= cost <= Max(1, most - fixed)
    ensures fixed + cost <= most <==> fixed + 1 <= most
  {
  }

  /** A message that is too large fits after cutting if and only if it is text with room for its other fields. */
  lemma CutMessageFits(m: Message, most: int)
    requires MessageTokens(m) > most
    ensures MessageTokens(CutMessage(m, most)) <= most <==> m.content.Plain? && FixedTokens(m) + 1 <= most
  {
    if m.content.Plain? {
      var text := Cut(m.content.text, Max(1, most - FixedTokens(m)));
      CutFits(m.content.text, Max(1, most - FixedTokens(m)));
      TextCost(m, text);
      BudgetFits(EstimateTokens(text), FixedTokens(m), most);
      assert CutMessage(m, most) == m.(content := Plain(text));
    }
  }

  lemma AtLeastFixed(m: Message)
    ensures MessageTokens(m) > FixedTokens(m) >= FRAMING + ROLE_COST
  {
  }
}
