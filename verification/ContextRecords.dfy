/** What preparing and cutting keep. */
module ContextRecords {
  import opened Text
  import opened Tokenizer
  import opened MessageCut
  import opened Truncation
  import opened ContextManager

  // ---- Protected messages ----

  predicate IsProtected(m: Message) {
    m.role == System || m.isSummary
  }

  predicate IsRegular(m: Message) {
    m.role != System && !m.isSummary
  }

  /** The system messages and the summaries are set apart from all others; both keep their order. */
  lemma {:induction false} PartsMean(ms: seq<Message>)
    ensures AlwaysKeep(ms) == Where(IsProtected, ms) && Regular(ms) == Where(IsRegular, ms)
  {
    if ms != [] {
      PartsMean(ms[1..]);
      WhereFirst(IsProtected, ms);
      WhereFirst(IsRegular, ms);
    }
  }

  lemma {:induction false} KeepMeans(ms: seq<Message>, ids: set<string>)
    ensures Keep(ms, ids) == Where((m: Message) => m.id in ids, ms)
  {
    if ms != [] {
      KeepMeans(ms[1..], ids);
      WhereFirst((m: Message) => m.id in ids, ms);
    }
  }

  /** Dropping the oldest `k` leaves the protected ones up to some place, and everything from there on. */
  lemma {:induction false} DropFirstMeans(ms: seq<Message>, k: nat) returns (cut: nat)
    requires k <= |Regular(ms)|
    ensures cut <= |ms| && |Regular(ms[..cut])| == k
    ensures DropFirst(ms, k) == AlwaysKeep(ms[..cut]) + ms[cut..]
  {
    if k == 0 {
      cut := 0;
      DropNone(ms);
      assert [] + ms[0..] == ms;
    } else {
      var rest := DropFirstMeans(ms[1..], if Protected(ms[0]) then k else k - 1);
      cut := rest + 1;
      assert ms[..cut][1..] == ms[1..][..rest] && ms[cut..] == ms[1..][rest..];
      if Protected(ms[0]) {
        Assoc([ms[0]], AlwaysKeep(ms[1..][..rest]), ms[cut..]);
      } else {
        assert [] + AlwaysKeep(ms[1..][..rest]) == AlwaysKeep(ms[1..][..rest]);
      }
    }
  }

  // ---- When even the protected messages are too many ----

  lemma {:induction false} DropCosts(e: Estimator, ms: seq<Message>, k: nat)
    ensures Sum(e, DropFirst(ms, k)) >= Sum(e, AlwaysKeep(ms))
  {
    if ms != [] {
      if k > 0 && !Protected(ms[0]) {
        DropCosts(e, ms[1..], k - 1);
        assert [] + AlwaysKeep(ms[1..]) == AlwaysKeep(ms[1..]);
      } else {
        DropCosts(e, ms[1..], k);
        assert DropFirst(ms, k)[1..] == DropFirst(ms[1..], k);
        if Protected(ms[0]) {
          assert AlwaysKeep(ms)[1..] == AlwaysKeep(ms[1..]);
        } else {
          assert [] + AlwaysKeep(ms[1..]) == AlwaysKeep(ms[1..]);
        }
      }
    }
  }

  /** Each message is cut, to the limit without the overhead of a conversation, but to one token at least. */
  ghost predicate EachCut(e: Estimator, ms: seq<Message>, limit: int, r: seq<Message>) {
    |r| == |ms| && forall i | 0 <= i < |ms| :: r[i] == e.cut(ms[i], if limit < 4 then 1 else limit - 3)
  }

  /** When the protected messages exceed the limit, dropping the oldest leaves only them, each cut. */
  lemma DropOldestOverflows(e: Estimator, ms: seq<Message>, limit: int)
    requires Tokens(e, AlwaysKeep(ms)) > limit
    ensures EachCut(e, AlwaysKeep(ms), limit, DropOldest(e, ms, limit))
  {
    var p := FitsWithout(e, ms, limit);
    forall k: nat ensures !p(k) {
      DropCosts(e, ms, k);
    }
    FewestIsLeast(p, |Regular(ms)|, 0);
    DropEverything(ms, |Regular(ms)|);
  }

  /** And a window strategy leaves them whole, with the newest other message cut to what is left, or each cut. */
  lemma WindowOverflows(e: Estimator, ms: seq<Message>, chunks: seq<set<string>>, limit: int)
    requires UniqueIds(ms) && Tokens(e, AlwaysKeep(ms)) > limit && Tokens(e, ms) > limit
    requires Truncation.Disjoint(chunks, Ids(AlwaysKeep(ms)))
    ensures var (r, regular) := (Truncated(e, ms, chunks, limit), Regular(ms));
            if regular == [] then EachCut(e, AlwaysKeep(ms), limit, r)
            else r == AlwaysKeep(ms) + [e.cut(regular[|regular| - 1], 1)]
  {
    SelectedOverflows(e, ms, chunks, limit);
    FallbackMeans(e, ms, limit);
  }

  lemma SelectedOverflows(e: Estimator, ms: seq<Message>, chunks: seq<set<string>>, limit: int)
    requires UniqueIds(ms) && Tokens(e, AlwaysKeep(ms)) > limit
    requires Truncation.Disjoint(chunks, Ids(AlwaysKeep(ms)))
    ensures Tokens(e, Selected(e, ms, chunks, limit)) > limit
  {
    var protectedIds := Ids(AlwaysKeep(ms));
    var s := Select(e, ms, chunks, protectedIds, limit);
    SelectGrows(e, ms, chunks, protectedIds, limit);
    KeepMonotone(e, ms, protectedIds, s);
    ProtectedIds(ms);
  }

  lemma FallbackMeans(e: Estimator, ms: seq<Message>, limit: int)
    requires Tokens(e, AlwaysKeep(ms)) > limit
    ensures var (r, regular) := (Fallback(e, ms, limit), Regular(ms));
            if regular == [] then EachCut(e, AlwaysKeep(ms), limit, r)
            else r == AlwaysKeep(ms) + [e.cut(regular[|regular| - 1], 1)]
  {
  }

  // ---- Which chunks are selected ----

  /** A chunk is a message alone, or a user message with the answer to it. */
  lemma {:induction false} PairsShape(ms: seq<Message>, k: nat)
    requires k < |Pairs(ms)|
    ensures var chunk := Pairs(ms)[k];
            |chunk| == 1 || (|chunk| == 2 && chunk[0].role == User && chunk[1].role == Assistant)
    decreases |ms|
  {
    if k > 0 {
      var skip := |Pairs(ms)[0]|;
      PairsShape(ms[skip..], k - 1);
      assert Pairs(ms)[1..] == Pairs(ms[skip..]);
    }
  }

  /**
   The newest chunks come first: a chunk is selected if and only if it fits together with the protected messages and
   the selected ones among the chunks behind it.
   */
  lemma {:induction false} NewestFirst(e: Estimator, ms: seq<Message>, chunks: seq<set<string>>, chosen: set<string>,
                                       limit: int, k: nat)
    requires Truncation.Disjoint(chunks, chosen) && k < |chunks| && chunks[k] != {}
    ensures var s := Select(e, ms, chunks, chosen, limit);
            chunks[k] <= s <==> Tokens(e, Keep(ms, s - Union(chunks[..k + 1]) + chunks[k])) <= limit
  {
    var front, chunk := chunks[..|chunks| - 1], chunks[|chunks| - 1];
    var next := Tried(e, ms, chunk, chosen, limit);
    TriedIs(e, ms, chunk, chosen, limit);
    if k < |front| {
      NewestFirst(e, ms, front, next, limit, k);
      assert front[..k + 1] == chunks[..k + 1];
    } else {
      var s := Select(e, ms, front, next, limit);
      SelectGrows(e, ms, front, next, limit);
      UnionDisjoint(front, chunk);
      UnionDisjoint(chunks, chosen);
      assert chunks[..k + 1] == chunks;
      assert s - Union(chunks) == chosen;
      var x :| x in chunk;
      assert x !in Union(front);
    }
  }

  // ---- Preparing ----

  /** The prompt without its padding is put in front as a system message, unless it is blank or there is one already. */
  lemma SystemPromptMeans(ms: seq<Message>, prompt: Option<string>)
    ensures var r := EnsureSystemPrompt(ms, prompt);
            if prompt == None || Blank(prompt.value) || exists m :: m in ms && m.role == System then r == ms
            else r == [Message("system_prompt", System, Plain(Trim(prompt.value)), false, None, None)] + ms
  {
    if prompt.Some? {
      TrimBlank(prompt.value);
    }
  }

  /** An option that counts: it is given, and not zero. */
  predicate Counts(given: Option<int>, value: int) {
    given == Some(value) && value != 0
  }

  /** The limit known for the model. */
  function ModelLimit(c: Config, o: Options): Option<int> {
    if o.modelId.Some? && o.modelId.value in c.modelTokenLimits then Some(c.modelTokenLimits[o.modelId.value]) else None
  }

  /** The maximum: the one asked for, else the model's window, else the limit known for the model, else the default. */
  ghost predicate MaximumIs(c: Config, o: Options, max: int) {
    || o.maxTokens == Some(max)
    || (o.maxTokens == None && Counts(o.contextWindow, max))
    || (o.maxTokens == None && (forall v :: !Counts(o.contextWindow, v)) && Counts(ModelLimit(c, o), max))
    || (o.maxTokens == None && (forall v :: !Counts(o.contextWindow, v)) && (forall v :: !Counts(ModelLimit(c, o), v))
        && c.defaultMaxTokens == Some(max))
  }

  lemma MaximumMeans(c: Config, o: Options, max: int)
    ensures ResolveMaxTokens(c, o) == Some(max) <==> MaximumIs(c, o, max)
  {
    if o.contextWindow.Some? && o.contextWindow.value != 0 {
      assert Counts(o.contextWindow, o.contextWindow.value);
    }
    var known := ModelLimit(c, o);
    if known.Some? && known.value != 0 {
      assert Counts(known, known.value);
    }
  }

  /** `r` is what the strategy makes of the conversation at this limit. */
  ghost predicate CutBy(s: Strategy, ms: seq<Message>, limit: int, r: seq<Message>) {
    match s
    case OldestFirst => r == DropOldest(ESTIMATE, ms, limit)
    case SlidingWindow => r == Truncated(ESTIMATE, ms, Singles(Regular(ms)), limit)
    case KeepRecent => r == Truncated(ESTIMATE, ms, IdChunks(Pairs(Regular(ms))), limit)
  }

  /** The outcome of `prepare` when this maximum is in force. */
  ghost predicate PreparedBy(s: Strategy, prepared: seq<Message>, limit: int, strategyLimit: int, r: Outcome) {
    if limit < 1 then r == LimitTooSmall
    else
      && r.Prepared?
      && if Tokens(ESTIMATE, prepared) <= limit then r.messages == prepared
         else CutBy(s, prepared, if strategyLimit < 1 then 1 else strategyLimit, r.messages)
  }

  /**
   `prepare` with the maximum in force: what is reserved for the output is taken off, as much as is positive. If less
   than one token is left, it fails; a conversation within the rest is returned as it is; any other is handed to the
   strategy, with the model's window instead of the maximum where a window is given.
   */
  lemma PrepareMeans(c: Config, ms: seq<Message>, o: Options, max: int, reserved: int, window: int)
    requires MaximumIs(c, o, max)
    requires var r := o.reservedForOutput; reserved == if r.Some? && r.value > 0 then r.value else 0
    requires window == if o.contextWindow.Some? then o.contextWindow.value else max
    ensures PreparedBy(c.strategy, EnsureSystemPrompt(ms, o.systemPrompt), max - reserved, window - reserved,
                       Prepare(c, ms, o))
  {
    MaximumMeans(c, o, max);
    LimitsMean(o, max, reserved, window);
    PreparedToMeans(c.strategy, EnsureSystemPrompt(ms, o.systemPrompt), max, o, reserved, window);
  }

  lemma LimitsMean(o: Options, max: int, reserved: int, window: int)
    requires var r := o.reservedForOutput; reserved == if r.Some? && r.value > 0 then r.value else 0
    requires window == if o.contextWindow.Some? then o.contextWindow.value else max
    ensures Reserved(o) == reserved && StrategyLimit(o, max) == if window - reserved < 1 then 1 else window - reserved
  {
  }

  lemma PreparedToMeans(s: Strategy, prepared: seq<Message>, max: int, o: Options, reserved: int, window: int)
    requires Reserved(o) == reserved && StrategyLimit(o, max) == if window - reserved < 1 then 1 else window - reserved
    ensures PreparedBy(s, prepared, max - reserved, window - reserved, PreparedTo(s, prepared, Some(max), o))
  {
    LimitedMeans(s, prepared, max - reserved, StrategyLimit(o, max));
  }

  lemma LimitedMeans(s: Strategy, ms: seq<Message>, limit: int, strategyLimit: int)
    ensures var r := Limited(s, ms, limit, strategyLimit);
            if Tokens(ESTIMATE, ms) <= limit then r == ms else CutBy(s, ms, strategyLimit, r)
  {
  }

  /** Without any maximum, `prepare` fails. */
  lemma NoMaximum(c: Config, ms: seq<Message>, o: Options)
    ensures Prepare(c, ms, o) == NoLimit <==> forall max :: !MaximumIs(c, o, max)
  {
    forall max: int ensures ResolveMaxTokens(c, o) == Some(max) <==> MaximumIs(c, o, max) {
      MaximumMeans(c, o, max);
    }
    if ResolveMaxTokens(c, o).Some? {
      var max := ResolveMaxTokens(c, o).value;
      assert MaximumIs(c, o, max);
    }
  }

  // ---- Costs ----

  /** A conversation costs three tokens, and what its messages cost. */
  lemma TokensMean(ms: seq<Message>, m: Message)
    ensures Tokens(ESTIMATE, []) == 3 && Tokens(ESTIMATE, ms + [m]) == Tokens(ESTIMATE, ms) + MessageTokens(m)
  {
    SumConcat(ESTIMATE, ms, [m]);
    SingleTokens(m);
  }

  /** Only the text of a message is ever cut, and only if the message costs more than it may. */
  lemma CutMessageMeans(m: Message, most: int)
    ensures var r := CutMessage(m, most);
            if MessageTokens(m) <= most || m.content.Blocks? then r == m
            else
              var fixed := MessageTokens(m) - EstimateTokens(m.content.text);
              && r.content == Plain(MessageCut.Cut(m.content.text, if most - fixed < 1 then 1 else most - fixed))
              && r == m.(content := r.content)
  {
    if m.content.Plain? {
      TextCost(m, m.content.text);
    }
  }
}
