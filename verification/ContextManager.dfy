/** Preparing a conversation for a model: the system prompt, the token limit, and the strategy that cuts. */
module ContextManager {
  import opened Text
  import opened Tokenizer
  import opened MessageCut
  import opened Truncation

  const ESTIMATE := Estimator(MessageTokens, CutMessage)

  datatype Strategy = OldestFirst | SlidingWindow | KeepRecent

  datatype Config = Config(strategy: Strategy, defaultMaxTokens: Option<int>, modelTokenLimits: map<string, int>)

  /** `contextWindow` is that of the model, when a model is given. */
  datatype Options = Options(
    maxTokens: Option<int>, reservedForOutput: Option<int>, systemPrompt: Option<string>,
    contextWindow: Option<int>, modelId: Option<string>)

  datatype Outcome = Prepared(messages: seq<Message>) | NoLimit | LimitTooSmall

  /** `ensureSystemPrompt` */
  function EnsureSystemPrompt(ms: seq<Message>, prompt: Option<string>): seq<Message> {
    var text := if prompt.Some? then Trim(prompt.value) else [];
    if text == [] || HasSystem(ms) then ms
    else [Message("system_prompt", System, Plain(text), false, None, None)] + ms
  }

  predicate HasSystem(ms: seq<Message>) {
    exists m | m in ms :: m.role.System?
  }

  /**
   At most one message is added, in front; with a prompt there is a system message afterwards, and doing it again
   changes nothing.
   */
  lemma SystemPromptOnce(ms: seq<Message>, prompt: Option<string>, r: seq<Message>)
    requires r == EnsureSystemPrompt(ms, prompt)
    ensures |ms| <= |r| <= |ms| + 1 && r[|r| - |ms|..] == ms
    ensures HasSystem(r) <==> HasSystem(ms) || (prompt.Some? && Trim(prompt.value) != "")
    ensures EnsureSystemPrompt(r, prompt) == r
  {
    if r != ms {
      assert r[0] in r && r[0].role.System?;
      assert r[|r| - |ms|..] == ms;
    }
  }

  /** `resolveMaxTokens`; a zero context window or model limit counts as absent. */
  function ResolveMaxTokens(c: Config, o: Options): Option<int> {
    if o.maxTokens.Some? then o.maxTokens
    else if o.contextWindow.Some? && o.contextWindow.value != 0 then o.contextWindow
    else if o.modelId.Some? && o.modelId.value in c.modelTokenLimits && c.modelTokenLimits[o.modelId.value] != 0
      then Some(c.modelTokenLimits[o.modelId.value])
    else c.defaultMaxTokens
  }

  function Reserved(o: Options): int {
    if o.reservedForOutput.Some? then Max(0, o.reservedForOutput.value) else 0
  }

  /** `toEffectiveLimit`: the strategies prefer the model's window. */
  function StrategyLimit(o: Options, maxTokens: int): int {
    Max(1, (if o.contextWindow.Some? then o.contextWindow.value else maxTokens) - Reserved(o))
  }

  function Cut(s: Strategy, ms: seq<Message>, limit: int): seq<Message> {
    match s
    case OldestFirst => DropOldest(ESTIMATE, ms, limit)
    case SlidingWindow => Truncated(ESTIMATE, ms, Singles(Regular(ms)), limit)
    case KeepRecent => Truncated(ESTIMATE, ms, IdChunks(Pairs(Regular(ms))), limit)
  }

  /** What `prepare` returns. */
  function Prepare(c: Config, ms: seq<Message>, o: Options): Outcome {
    PreparedTo(c.strategy, EnsureSystemPrompt(ms, o.systemPrompt), ResolveMaxTokens(c, o), o)
  }

  function PreparedTo(s: Strategy, prepared: seq<Message>, max: Option<int>, o: Options): Outcome {
    if max.None? then NoLimit
    else if max.value - Reserved(o) < 1 then LimitTooSmall
    else Prepared(Limited(s, prepared, max.value - Reserved(o), StrategyLimit(o, max.value)))
  }

  /** Only a conversation over the limit is handed to the strategy. */
  function Limited(s: Strategy, prepared: seq<Message>, limit: int, strategyLimit: int): seq<Message> {
    if Tokens(ESTIMATE, prepared) <= limit then prepared else Cut(s, prepared, strategyLimit)
  }

  /** Runs the configured strategy. */
  method RunStrategy(s: Strategy, ms: seq<Message>, limit: int) returns (r: seq<Message>)
    ensures r == Cut(s, ms, limit)
  {
    match s {
      case OldestFirst => r := DropOldestTruncate(ESTIMATE, ms, limit);
      case SlidingWindow => r := SlidingWindowTruncate(ESTIMATE, ms, limit);
      case KeepRecent => r := KeepRecentTruncate(ESTIMATE, ms, limit);
    }
  }

  /** `prepare` */
  method PrepareMessages(c: Config, ms: seq<Message>, o: Options) returns (r: Outcome)
    ensures r == Prepare(c, ms, o)
  {
    var prepared := EnsureSystemPrompt(ms, o.systemPrompt);
    var max := ResolveMaxTokens(c, o);
    if max.None? {
      return NoLimit;
    }
    var limit := max.value - Reserved(o);
    if limit < 1 {
      return LimitTooSmall;
    }
    if Tokens(ESTIMATE, prepared) <= limit {
      return Prepared(prepared);
    }
    var cut := RunStrategy(c.strategy, prepared, StrategyLimit(o, max.value));
    r := Prepared(cut);
  }

  function Chunks(s: Strategy, ms: seq<Message>): seq<set<string>> {
    if s.KeepRecent? then IdChunks(Pairs(Regular(ms))) else Singles(Regular(ms))
  }

  lemma SingleTokens(m: Message)
    ensures Tokens(ESTIMATE, [m]) == CONVERSATION + MessageTokens(m)
  {
    assert [m][1..] == [] && ESTIMATE.cost(m) == MessageTokens(m);
    assert Sum(ESTIMATE, [m]) == ESTIMATE.cost(m) + Sum(ESTIMATE, []);
  }

  /** The newest message alone can be made to fit: it does already, or it is text with room for its fields. */
  predicate LoneMessageFits(m: Message, limit: int) {
    CONVERSATION + MessageTokens(m) <= limit || (m.content.Plain? && CONVERSATION + FixedTokens(m) + 1 <= limit)
  }

  lemma LoneCut(m: Message, limit: int, strategyLimit: int)
    requires 1 <= strategyLimit <= limit
    ensures CONVERSATION + MessageTokens(CutMessage(m, Max(1, strategyLimit - CONVERSATION))) <= limit <==>
            LoneMessageFits(m, limit)
  {
    var most := Max(1, strategyLimit - CONVERSATION);
    AtLeastFixed(m);
    if MessageTokens(m) > most {
      match m.content {
        case Blocks(_) =>
        case Plain(text) =>
          var budget := Max(1, most - FixedTokens(m));
          TextCost(m, MessageCut.Cut(text, budget));
          MessageCut.CutFits(text, budget);
      }
    }
  }

  /** A window strategy's result fits if and only if something was selected or the newest message can be cut to fit. */
  lemma WindowFits(ms: seq<Message>, chunks: seq<set<string>>, limit: int, strategyLimit: int)
    requires UniqueIds(ms) && Tokens(ESTIMATE, AlwaysKeep(ms)) <= strategyLimit <= limit < Tokens(ESTIMATE, ms)
    requires Truncation.Disjoint(chunks, Ids(AlwaysKeep(ms)))
    ensures Tokens(ESTIMATE, Truncated(ESTIMATE, ms, chunks, strategyLimit)) <= limit <==>
            Selected(ESTIMATE, ms, chunks, strategyLimit) != [] || LoneMessageFits(ms[|ms| - 1], limit)
  {
    var s := WindowGuarantee(ESTIMATE, ms, chunks, strategyLimit);
    if Keep(ms, s) == [] {
      var latest := ms[|ms| - 1];
      SingleTokens(ESTIMATE.cut(latest, Max(1, strategyLimit - CONVERSATION)));
      LoneCut(latest, limit, strategyLimit);
    }
  }

  /** The conversation does not have to be cut, or its cut form is as small as the limit. */
  predicate CanFit(s: Strategy, ms: seq<Message>, limit: int, strategyLimit: int) {
    || s.OldestFirst?
    || Tokens(ESTIMATE, ms) <= limit
    || Selected(ESTIMATE, ms, Chunks(s, ms), strategyLimit) != []
    || (ms != [] && LoneMessageFits(ms[|ms| - 1], limit))
  }

  /** What the strategy needs: the protected messages fit, and ids are unique where it selects by id. */
  predicate Manageable(s: Strategy, ms: seq<Message>, strategyLimit: int) {
    (s.OldestFirst? || UniqueIds(ms)) && Tokens(ESTIMATE, AlwaysKeep(ms)) <= strategyLimit
  }

  lemma CutFits(s: Strategy, ms: seq<Message>, limit: int, strategyLimit: int)
    requires 1 <= strategyLimit <= limit && Manageable(s, ms, strategyLimit)
    ensures Tokens(ESTIMATE, Limited(s, ms, limit, strategyLimit)) <= limit <==> CanFit(s, ms, limit, strategyLimit)
  {
    assert ms == [] ==> AlwaysKeep(ms) == [];
    if s.OldestFirst? {
      var n := DropOldestFits(ESTIMATE, ms, strategyLimit);
    } else if Tokens(ESTIMATE, ms) > limit {
      SinglesDisjoint(ms);
      PairsDisjoint(ms);
      WindowFits(ms, Chunks(s, ms), limit, strategyLimit);
    }
  }

  // ---- The window and the maximum ----

  /** The maximum in force leaves room beside the reserved tokens. */
  predicate HasLimit(c: Config, o: Options, limit: int) {
    ResolveMaxTokens(c, o).Some? && limit == ResolveMaxTokens(c, o).value - Reserved(o) >= 1
  }

  /** The model's window, when there is a model, does not exceed the maximum in force. */
  predicate WindowWithin(c: Config, o: Options)
    requires ResolveMaxTokens(c, o).Some?
  {
    o.contextWindow.None? || o.contextWindow.value <= ResolveMaxTokens(c, o).value
  }

  lemma WindowWithinMeans(c: Config, o: Options, limit: int)
    requires HasLimit(c, o, limit)
    ensures WindowWithin(c, o) <==> StrategyLimit(o, ResolveMaxTokens(c, o).value) <= limit
  {
  }

  /**
   When the window does not exceed the maximum and the strategy can keep the protected messages, what `prepare` returns
   is at most the maximum minus the reserved tokens if and only if the strategy can fit it: always for the oldest-first
   strategy, and for the window strategies unless nothing could be selected and the newest message is neither small
   enough nor text with room for its other fields.
   */
  lemma PrepareFits(c: Config, ms: seq<Message>, o: Options, limit: int, prepared: seq<Message>)
    requires HasLimit(c, o, limit) && WindowWithin(c, o) && prepared == EnsureSystemPrompt(ms, o.systemPrompt)
    requires Manageable(c.strategy, prepared, StrategyLimit(o, ResolveMaxTokens(c, o).value))
    ensures Prepare(c, ms, o).Prepared?
    ensures Tokens(ESTIMATE, Prepare(c, ms, o).messages) <= limit <==>
            CanFit(c.strategy, prepared, limit, StrategyLimit(o, ResolveMaxTokens(c, o).value))
  {
    CutFits(c.strategy, prepared, limit, StrategyLimit(o, ResolveMaxTokens(c, o).value));
  }

  /** The strategy, at its own limit, has nothing to complain about. */
  predicate Admissible(s: Strategy, ms: seq<Message>, strategyLimit: int) {
    Manageable(s, ms, strategyLimit) && CanFit(s, ms, strategyLimit, strategyLimit)
  }

  /** What a strategy's limit allows is left alone. */
  lemma UncutWithin(s: Strategy, ms: seq<Message>, strategyLimit: int)
    requires Tokens(ESTIMATE, ms) <= strategyLimit
    ensures Cut(s, ms, strategyLimit) == ms
  {
    DropNone(ms);
    assert Fewest(FitsWithout(ESTIMATE, ms, strategyLimit), |Regular(ms)|, 0) == 0;
  }

  lemma ResultWithinStrategyLimit(s: Strategy, ms: seq<Message>, limit: int, strategyLimit: int)
    requires 1 <= limit < strategyLimit && Admissible(s, ms, strategyLimit)
    ensures Tokens(ESTIMATE, Limited(s, ms, limit, strategyLimit)) <= strategyLimit
  {
    if Tokens(ESTIMATE, ms) <= strategyLimit {
      UncutWithin(s, ms, strategyLimit);
    } else {
      CutFits(s, ms, strategyLimit, strategyLimit);
    }
  }

  /** A conversation costs 3 tokens when it is empty, and 9 at least when it is not. */
  lemma SmallestCost(ms: seq<Message>)
    ensures if ms == [] then Tokens(ESTIMATE, ms) == 3 else Tokens(ESTIMATE, ms) >= 9
  {
    if ms != [] {
      AtLeastFixed(ms[0]);
      assert ESTIMATE.cost(ms[0]) == MessageTokens(ms[0]);
    }
  }

  function Filler(n: nat): string {
    if n == 0 then [] else "a" + Filler(n - 1)
  }

  lemma {:induction false} FillerWords(n: nat, separator: char -> bool)
    requires !separator('a')
    ensures |Filler(n)| == n && Words(Filler(n), separator) == (if n == 0 then 0 else 1)
    ensures forall c | c in Filler(n) :: c == 'a'
  {
    if n > 0 {
      FillerWords(n - 1, separator);
    }
  }

  lemma FillerCosts(n: nat)
    requires n >= 1
    ensures EstimateTokens(Filler(4 * n)) == n
  {
    var text := Filler(4 * n);
    NotSeparator();
    FillerWords(4 * n, IsSeparator);
    assert text[0] in text && text[|text| - 1] in text;
    TrimFixes(text);
  }

  lemma NotSeparator()
    ensures !IsSeparator('a')
  {
  }

  /** One user message, so long that the conversation costs `n + 8` tokens. */
  function Long(n: nat): Message {
    Message("m", User, Plain(Filler(4 * n)), false, None, None)
  }

  lemma LongCosts(n: nat)
    requires n >= 1
    ensures Tokens(ESTIMATE, [Long(n)]) == n + 8 && AlwaysKeep([Long(n)]) == [] && UniqueIds([Long(n)])
  {
    FillerCosts(n);
    SingleTokens(Long(n));
    assert [Long(n)][1..] == [];
  }

  /** The strategy's limit leaves no room for a conversation that exceeds the other one. */
  predicate NoneBetween(limit: int, strategyLimit: int) {
    strategyLimit < 3 || (limit >= 3 && strategyLimit < 9)
  }

  /** A conversation that `prepare` returns although it exceeds the limit. */
  function Offender(limit: int, strategyLimit: int): seq<Message> {
    if limit < 3 || strategyLimit < 9 then [] else [Long(strategyLimit - 8)]
  }

  lemma OffenderOverflows(s: Strategy, limit: int, strategyLimit: int)
    requires 1 <= limit < strategyLimit && !NoneBetween(limit, strategyLimit)
    ensures Admissible(s, Offender(limit, strategyLimit), strategyLimit)
    ensures Tokens(ESTIMATE, Limited(s, Offender(limit, strategyLimit), limit, strategyLimit)) > limit
  {
    var ms := Offender(limit, strategyLimit);
    if ms != [] { LongCosts(strategyLimit - 8); }
    SmallestCost([]);
    UncutWithin(s, ms, strategyLimit);
  }

  /**
   The bound holds for every conversation and prompt that the strategy can manage at its own limit if and only if the
   model's window does not exceed the maximum (or both are so small that no conversation lies between the two limits).
   */
  lemma BoundHoldsIff(c: Config, o: Options, limit: int, strategyLimit: int)
    requires HasLimit(c, o, limit) && strategyLimit == StrategyLimit(o, ResolveMaxTokens(c, o).value)
    ensures (forall ms, prompt | Admissible(c.strategy, EnsureSystemPrompt(ms, prompt), strategyLimit) ::
               Tokens(ESTIMATE, Prepare(c, ms, o.(systemPrompt := prompt)).messages) <= limit)
            <==> WindowWithin(c, o) || NoneBetween(limit, strategyLimit)
  {
    WindowWithinMeans(c, o, limit);
    forall ms, prompt
      ensures Prepare(c, ms, o.(systemPrompt := prompt)) ==
              Prepared(Limited(c.strategy, EnsureSystemPrompt(ms, prompt), limit, strategyLimit))
    {
      PreparedIs(c, ms, o, prompt, limit, strategyLimit);
    }
    if WindowWithin(c, o) || NoneBetween(limit, strategyLimit) {
      forall ms, prompt | Admissible(c.strategy, EnsureSystemPrompt(ms, prompt), strategyLimit)
        ensures Tokens(ESTIMATE, Prepare(c, ms, o.(systemPrompt := prompt)).messages) <= limit
      {
        AdmissibleBound(c.strategy, EnsureSystemPrompt(ms, prompt), limit, strategyLimit);
      }
    } else {
      OffenderOverflows(c.strategy, limit, strategyLimit);
      assert EnsureSystemPrompt(Offender(limit, strategyLimit), None) == Offender(limit, strategyLimit);
    }
  }

  lemma PreparedIs(c: Config, ms: seq<Message>, o: Options, prompt: Option<string>, limit: int, strategyLimit: int)
    requires HasLimit(c, o, limit) && strategyLimit == StrategyLimit(o, ResolveMaxTokens(c, o).value)
    ensures Prepare(c, ms, o.(systemPrompt := prompt)) ==
            Prepared(Limited(c.strategy, EnsureSystemPrompt(ms, prompt), limit, strategyLimit))
  {
    var o' := o.(systemPrompt := prompt);
    assert ResolveMaxTokens(c, o') == ResolveMaxTokens(c, o);
    assert Reserved(o') == Reserved(o) && StrategyLimit(o', ResolveMaxTokens(c, o).value) == strategyLimit;
    LimitedAt(c.strategy, EnsureSystemPrompt(ms, prompt), ResolveMaxTokens(c, o), o', limit, strategyLimit);
  }

  lemma LimitedAt(s: Strategy, prepared: seq<Message>, max: Option<int>, o: Options, limit: int, strategyLimit: int)
    requires max.Some? && limit == max.value - Reserved(o) >= 1 && strategyLimit == StrategyLimit(o, max.value)
    ensures PreparedTo(s, prepared, max, o) == Prepared(Limited(s, prepared, limit, strategyLimit))
  {
  }

  lemma AdmissibleBound(s: Strategy, ms: seq<Message>, limit: int, strategyLimit: int)
    requires 1 <= limit && 1 <= strategyLimit && Admissible(s, ms, strategyLimit)
    requires strategyLimit <= limit || NoneBetween(limit, strategyLimit)
    ensures Tokens(ESTIMATE, Limited(s, ms, limit, strategyLimit)) <= limit
  {
    if strategyLimit <= limit {
      CutFits(s, ms, limit, strategyLimit);
    } else {
      ResultWithinStrategyLimit(s, ms, limit, strategyLimit);
      SmallestCost(Limited(s, ms, limit, strategyLimit));
    }
  }

  /** One such conversation: a window of 10 tokens lets 10 tokens through where 9 are allowed. */
  lemma WideWindowOverflows(s: Strategy, o: Options)
    requires o == Options(Some(9), None, None, Some(10), None)
    ensures var r := Prepare(Config(s, None, map[]), [Long(2)], o); r.Prepared? && Tokens(ESTIMATE, r.messages) == 10
  {
    LongCosts(2);
    UncutWithin(s, [Long(2)], 10);
    PreparedIs(Config(s, None, map[]), [Long(2)], o, None, 9, 10);
  }
}
