/**
 Token estimates for texts, messages and conversations. They are heuristic: the larger of a count of words and a quarter
 of the number of characters, with fixed costs for framing.
 */
module Tokenizer {
  import opened Text

  datatype Role = System | User | Assistant | Tool

  /** Message content: plain text, or content blocks given by their JSON serialization. */
  datatype Content = Plain(text: string) | Blocks(json: string)

  /** `toolCalls` is the JSON of a non-empty call list. */
  datatype Message = Message(
    id: string, role: Role, content: Content, isSummary: bool,
    toolCalls: Option<string>, toolResultId: Option<string>)

  const FRAMING := 4
  const ROLE_COST := 1
  const CONVERSATION := 3

  /** The characters that separate words. */
  predicate IsSeparator(c: char) {
    IsSpace(c) || c in ".,!?;:()[]{}\"'`~@#$%^&*+=<>\\/|_-"
  }

  /** The number of maximal runs of characters between separators. */
  function Words(t: string, separator: char -> bool): nat {
    if t == [] then 0
    else (if !separator(t[0]) && (|t| == 1 || separator(t[1])) then 1 else 0) + Words(t[1..], separator)
  }

  function Max(a: int, b: int): int {
    if a < b then b else a
  }

  /** `estimateTokens` */
  function EstimateTokens(text: string): (n: nat)
    ensures n >= 1
  {
    var normalized := Trim(text);
    if normalized == [] then 1 else Max(1, Max(Words(normalized, IsSeparator), (|normalized| + 3) / 4))
  }

  function ContentText(c: Content): string {
    match c case Plain(t) => t case Blocks(j) => j
  }

  /** The part of a message's estimate that its tool fields make up. */
  function ToolTokens(m: Message): nat {
    (if m.toolCalls.Some? then EstimateTokens(m.toolCalls.value) else 0)
    + (if m.toolResultId.Some? && m.toolResultId.value != "" then EstimateTokens(m.toolResultId.value) else 0)
  }

  /** `estimateMessageTokens` */
  function MessageTokens(m: Message): nat {
    FRAMING + ROLE_COST + EstimateTokens(ContentText(m.content)) + ToolTokens(m)
  }

  // ---- What the estimate is ----

  lemma {:induction false} WordsOfWord(w: string, rest: string, separator: char -> bool)
    requires w != [] && (forall c | c in w :: !separator(c)) && (rest != [] ==> separator(rest[0]))
    ensures Words(w + rest, separator) == 1 + Words(rest, separator)
  {
    assert (w + rest)[0] == w[0] && w[0] in w && (w + rest)[1..] == w[1..] + rest;
    if |w| > 1 {
      assert w[1] in w && (w + rest)[1] == w[1];
      WordsOfWord(w[1..], rest, separator);
    } else {
      assert (w + rest)[1..] == rest;
    }
  }

  /** The words of a text are counted one by one, whatever separators stand between them. */
  lemma WordsMean(w: string, c: char, rest: string, separator: char -> bool)
    requires w != [] && (forall d | d in w :: !separator(d)) && separator(c)
    ensures Words([], separator) == 0
    ensures Words([c] + rest, separator) == Words(rest, separator)
    ensures Words(w, separator) == 1
    ensures Words(w + ([c] + rest), separator) == 1 + Words(rest, separator)
  {
    assert ([c] + rest)[1..] == rest;
    assert w + [] == w;
    WordsOfWord(w, [], separator);
    WordsOfWord(w, [c] + rest, separator);
  }

  /**
   The estimate of a text is the least number that is at least one, at least the number of its words, and at least a
   quarter of its length without padding.
   */
  lemma EstimateMeans(text: string, k: int)
    ensures var t := Trim(text);
            EstimateTokens(text) <= k <==> 1 <= k && Words(t, IsSeparator) <= k && |t| <= 4 * k
  {
  }

  /** A message costs five tokens more than its parts. */
  lemma MessageTokensMean(m: Message, calls: string, id: string)
    requires m.toolCalls == None && m.toolResultId == None && id != ""
    ensures MessageTokens(m) == 5 + EstimateTokens(ContentText(m.content))
    ensures MessageTokens(m.(toolResultId := Some(""))) == MessageTokens(m)
    ensures MessageTokens(m.(toolCalls := Some(calls))) == MessageTokens(m) + EstimateTokens(calls)
    ensures MessageTokens(m.(toolResultId := Some(id))) == MessageTokens(m) + EstimateTokens(id)
    ensures MessageTokens(m.(toolCalls := Some(calls), toolResultId := Some(id))) ==
            MessageTokens(m) + EstimateTokens(calls) + EstimateTokens(id)
  {
  }
}
