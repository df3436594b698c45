/** The strategies that cut a conversation down to a token limit. */
module Truncation {
  import opened Text
  import opened Tokenizer

  /** What the strategies ask of the tokenizer: the cost of a message, and the message cut to a cost. */
  datatype Estimator = Estimator(cost: Message -> nat, cut: (Message, int) -> Message)

  function Sum(e: Estimator, ms: seq<Message>): nat {
    if ms == [] then 0 else e.cost(ms[0]) + Sum(e, ms[1..])
  }

  /** `estimateConversationTokens` */
  function Tokens(e: Estimator, ms: seq<Message>): nat {
    CONVERSATION + Sum(e, ms)
  }

  lemma {:induction false} SumConcat(e: Estimator, a: seq<Message>, b: seq<Message>)
    ensures Sum(e, a + b) == Sum(e, a) + Sum(e, b)
  {
    if a == [] {
      assert a + b == b;
    } else {
      assert (a + b)[1..] == a[1..] + b;
      SumConcat(e, a[1..], b);
    }
  }

  // ---- Protected messages ----

  /** System messages and summaries are never dropped. */
  predicate Protected(m: Message) {
    m.role.System? || m.isSummary
  }

  function AlwaysKeep(ms: seq<Message>): seq<Message> {
    if ms == [] then [] else (if Protected(ms[0]) then [ms[0]] else []) + AlwaysKeep(ms[1..])
  }

  function Regular(ms: seq<Message>): seq<Message> {
    if ms == [] then [] else (if Protected(ms[0]) then [] else [ms[0]]) + Regular(ms[1..])
  }

  // ---- Dropping the oldest ----

  /** The messages without the first `k` unprotected ones. */
  function DropFirst(ms: seq<Message>, k: nat): seq<Message> {
    if ms == [] then []
    else if k > 0 && !Protected(ms[0]) then DropFirst(ms[1..], k - 1)
    else [ms[0]] + DropFirst(ms[1..], k)
  }

  /** Whether the rest fits after dropping a number of oldest messages. */
  function FitsWithout(e: Estimator, ms: seq<Message>, limit: int): nat -> bool {
    (k: nat) => Tokens(e, DropFirst(ms, k)) <= limit
  }

  /** The least number from `k` on that satisfies `p`, or `total` when there is none before it. */
  function Fewest(p: nat -> bool, total: nat, k: nat): nat
    decreases total - k
  {
    if k >= total || p(k) then k else Fewest(p, total, k + 1)
  }

  function CutAll(e: Estimator, ms: seq<Message>, most: int): seq<Message> {
    seq(|ms|, i requires 0 <= i < |ms| => e.cut(ms[i], most))
  }

  function DropOldest(e: Estimator, ms: seq<Message>, limit: int): seq<Message> {
    var rest := DropFirst(ms, Fewest(FitsWithout(e, ms, limit), |Regular(ms)|, 0));
    if Tokens(e, rest) <= limit then rest else CutAll(e, rest, Max(1, limit - CONVERSATION))
  }

  lemma {:induction false} DropNone(ms: seq<Message>)
    ensures DropFirst(ms, 0) == ms
  {
    if ms != [] {
      DropNone(ms[1..]);
    }
  }

  lemma WithoutOne<T>(x: T, tail: seq<T>, index: nat)
    requires index < |tail|
    ensures var all := [x] + tail; all[..index + 1] + all[index + 2..] == [x] + (tail[..index] + tail[index + 1..])
  {
  }

  lemma DropHead(ms: seq<Message>, k: nat)
    requires var rest := DropFirst(ms, k); ms != [] && rest != [] && rest[0] == ms[0] && !Protected(rest[0]) && k == 0
    ensures var rest := DropFirst(ms, k); DropFirst(ms, 1) == rest[..0] + rest[1..] && k < |Regular(ms)|
  {
    DropNone(ms[1..]);
    DropNone(ms);
    assert ms[..0] + ms[1..] == ms[1..];
  }

  /** Dropping the first unprotected message of what is left drops one more. */
  lemma {:induction false} DropOneMore(ms: seq<Message>, k: nat, index: nat)
    requires var rest := DropFirst(ms, k);
             index < |rest| && !Protected(rest[index]) && forall i | 0 <= i < index :: Protected(rest[i])
    ensures var rest := DropFirst(ms, k);
            DropFirst(ms, k + 1) == rest[..index] + rest[index + 1..] && k < |Regular(ms)|
  {
    var rest := DropFirst(ms, k);
    if k > 0 && !Protected(ms[0]) {
      DropOneMore(ms[1..], k - 1, index);
    } else {
      assert rest[1..] == DropFirst(ms[1..], k);
      if index == 0 {
        DropHead(ms, k);
      } else {
        var tail := rest[1..];
        assert rest[0] == ms[0] && Protected(ms[0]);
        forall i | 0 <= i < index - 1 ensures Protected(tail[i]) {
          assert tail[i] == rest[i + 1];
        }
        DropOneMore(ms[1..], k, index - 1);
        assert rest == [ms[0]] + tail;
        WithoutOne(ms[0], tail, index - 1);
      }
    }
  }

  /** When nothing unprotected is left, all unprotected messages have been dropped. */
  lemma {:induction false} AllDropped(ms: seq<Message>, k: nat)
    requires forall m | m in DropFirst(ms, k) :: Protected(m)
    ensures k >= |Regular(ms)| && DropFirst(ms, k) == AlwaysKeep(ms)
  {
    if ms != [] {
      if k > 0 && !Protected(ms[0]) {
        AllDropped(ms[1..], k - 1);
      } else {
        var rest := DropFirst(ms, k);
        assert rest[0] in rest && forall m | m in rest[1..] :: m in rest;
        assert rest[1..] == DropFirst(ms[1..], k);
        AllDropped(ms[1..], k);
      }
    }
  }

  lemma {:induction false} DropEverything(ms: seq<Message>, k: nat)
    requires k >= |Regular(ms)|
    ensures DropFirst(ms, k) == AlwaysKeep(ms)
  {
    if ms != [] {
      DropEverything(ms[1..], if Protected(ms[0]) then k else k - 1);
    }
  }

  /** `findIndex` of the first unprotected message, or the length when there is none. */
  method FindUnprotected(ms: seq<Message>) returns (index: nat)
    ensures index <= |ms| && forall i | 0 <= i < index :: Protected(ms[i])
    ensures index < |ms| ==> !Protected(ms[index])
  {
    index := 0;
    while index < |ms| && Protected(ms[index])
      invariant index <= |ms| && forall i | 0 <= i < index :: Protected(ms[i])
    {
      index := index + 1;
    }
  }

  /** `DropOldestStrategy.truncate` */
  method DropOldestTruncate(e: Estimator, messages: seq<Message>, limit: int) returns (result: seq<Message>)
    ensures result == DropOldest(e, messages, limit)
  {
    var next := messages;
    ghost var fits, k: nat := FitsWithout(e, messages, limit), 0;
    DropNone(messages);
    while Tokens(e, next) > limit
      invariant next == DropFirst(messages, k) && k <= |Regular(messages)|
      invariant Fewest(fits, |Regular(messages)|, k) == Fewest(fits, |Regular(messages)|, 0)
      decreases |next|
    {
      var dropIndex := FindUnprotected(next);
      if dropIndex == |next| {
        AllDropped(messages, k);
        break;
      }
      DropOneMore(messages, k, dropIndex);
      next := next[..dropIndex] + next[dropIndex + 1..];
      k := k + 1;
    }
    if Tokens(e, next) <= limit {
      return next;
    }
    result := CutAll(e, next, Max(1, limit - CONVERSATION));
  }

  lemma {:induction false} FewestIsLeast(p: nat -> bool, total: nat, k: nat)
    requires k <= total
    ensures var n := Fewest(p, total, k);
            k <= n <= total && (n < total ==> p(n)) && forall j | k <= j < n :: !p(j)
    decreases total - k
  {
    if k < total && !p(k) {
      FewestIsLeast(p, total, k + 1);
    }
  }

  /**
   When the protected messages fit, dropping the oldest yields a conversation that fits, by leaving out the
   fewest oldest unprotected messages and nothing else.
   */
  lemma DropOldestFits(e: Estimator, ms: seq<Message>, limit: int) returns (n: nat)
    requires Tokens(e, AlwaysKeep(ms)) <= limit
    ensures DropOldest(e, ms, limit) == DropFirst(ms, n) && Tokens(e, DropFirst(ms, n)) <= limit
    ensures forall j | 0 <= j < n :: Tokens(e, DropFirst(ms, j)) > limit
  {
    var p := FitsWithout(e, ms, limit);
    n := Fewest(p, |Regular(ms)|, 0);
    FewestIsLeast(p, |Regular(ms)|, 0);
    if n == |Regular(ms)| {
      DropEverything(ms, n);
    } else {
      assert p(n);
    }
    forall j | 0 <= j < n ensures Tokens(e, DropFirst(ms, j)) > limit {
      assert !p(j);
    }
  }

  // ---- Greedy selection from the newest ----

  /** `preserveMessageOrder` */
  function Keep(ms: seq<Message>, ids: set<string>): seq<Message> {
    if ms == [] then [] else (if ms[0].id in ids then [ms[0]] else []) + Keep(ms[1..], ids)
  }

  function Ids(ms: seq<Message>): set<string> {
    set m | m in ms :: m.id
  }

  /** Tries the chunks from the last to the first, keeping each one that still fits. */
  function Select(e: Estimator, ms: seq<Message>, chunks: seq<set<string>>, chosen: set<string>, limit: int)
    : set<string>
  {
    if chunks == [] then chosen
    else
      var chunk := chunks[|chunks| - 1];
      Select(e, ms, chunks[..|chunks| - 1], Tried(e, ms, chunk, chosen, limit), limit)
  }

  /** The ids chosen after trying one chunk. */
  function Tried(e: Estimator, ms: seq<Message>, chunk: set<string>, chosen: set<string>, limit: int): set<string> {
    if Tokens(e, Keep(ms, chosen + chunk)) > limit then chosen + chunk - chunk else chosen + chunk
  }

  lemma SelectStep(e: Estimator, ms: seq<Message>, chunks: seq<set<string>>, index: nat, chosen: set<string>,
                   limit: int)
    requires index < |chunks|
    ensures Select(e, ms, chunks[..index + 1], chosen, limit) ==
            Select(e, ms, chunks[..index], Tried(e, ms, chunks[index], chosen, limit), limit)
  {
    assert chunks[..index + 1][..index] == chunks[..index];
  }

  /** What is returned when nothing selected can be: the protected messages and the cut newest one. */
  function Fallback(e: Estimator, ms: seq<Message>, limit: int): seq<Message> {
    var regular := Regular(ms);
    if regular == [] then CutAll(e, AlwaysKeep(ms), Max(1, limit - CONVERSATION))
    else AlwaysKeep(ms) + [e.cut(regular[|regular| - 1], Max(1, limit - Tokens(e, AlwaysKeep(ms))))]
  }

  function Selected(e: Estimator, ms: seq<Message>, chunks: seq<set<string>>, limit: int): seq<Message> {
    Keep(ms, Select(e, ms, chunks, Ids(AlwaysKeep(ms)), limit))
  }

  function Finish(e: Estimator, ms: seq<Message>, selected: seq<Message>, limit: int): seq<Message> {
    if selected != [] && Tokens(e, selected) <= limit then selected else Fallback(e, ms, limit)
  }

  function Truncated(e: Estimator, ms: seq<Message>, chunks: seq<set<string>>, limit: int): seq<Message> {
    if Tokens(e, ms) <= limit then ms else Finish(e, ms, Selected(e, ms, chunks, limit), limit)
  }

  lemma {:induction false} KeepMonotone(e: Estimator, ms: seq<Message>, a: set<string>, b: set<string>)
    requires a <= b
    ensures Sum(e, Keep(ms, a)) <= Sum(e, Keep(ms, b))
  {
    if ms != [] {
      KeepMonotone(e, ms[1..], a, b);
      SumConcat(e, if ms[0].id in a then [ms[0]] else [], Keep(ms[1..], a));
      SumConcat(e, if ms[0].id in b then [ms[0]] else [], Keep(ms[1..], b));
      assert [ms[0]][1..] == [];
    }
  }

  ghost predicate Disjoint(chunks: seq<set<string>>, chosen: set<string>) {
    && (forall i | 0 <= i < |chunks| :: chunks[i] !! chosen)
    && (forall i, j | 0 <= i < j < |chunks| :: chunks[i] !! chunks[j])
  }

  /** The chunk is taken as a whole, or left out because adding it back would overflow. */
  ghost predicate Settled(e: Estimator, ms: seq<Message>, chunk: set<string>, s: set<string>, limit: int) {
    chunk <= s || (chunk !! s && Tokens(e, Keep(ms, s + chunk)) > limit)
  }

  function Union(chunks: seq<set<string>>): set<string> {
    if chunks == [] then {} else Union(chunks[..|chunks| - 1]) + chunks[|chunks| - 1]
  }

  lemma {:induction false} UnionDisjoint(chunks: seq<set<string>>, chunk: set<string>)
    requires forall i | 0 <= i < |chunks| :: chunks[i] !! chunk
    ensures Union(chunks) !! chunk
  {
    if chunks != [] {
      UnionDisjoint(chunks[..|chunks| - 1], chunk);
    }
  }

  lemma TriedIs(e: Estimator, ms: seq<Message>, chunk: set<string>, chosen: set<string>, limit: int)
    requires chunk !! chosen
    ensures Tried(e, ms, chunk, chosen, limit) ==
            if Tokens(e, Keep(ms, chosen + chunk)) > limit then chosen else chosen + chunk
  {
  }

  lemma {:induction false} SelectGrows(e: Estimator, ms: seq<Message>, chunks: seq<set<string>>, chosen: set<string>,
                                       limit: int)
    requires Disjoint(chunks, chosen)
    ensures var s := Select(e, ms, chunks, chosen, limit);
            && chosen <= s <= chosen + Union(chunks)
            && (Tokens(e, Keep(ms, chosen)) <= limit ==> Tokens(e, Keep(ms, s)) <= limit)
  {
    if chunks != [] {
      var front, chunk := chunks[..|chunks| - 1], chunks[|chunks| - 1];
      TriedIs(e, ms, chunk, chosen, limit);
      SelectGrows(e, ms, front, Tried(e, ms, chunk, chosen, limit), limit);
    }
  }

  lemma {:induction false} SelectSettles(e: Estimator, ms: seq<Message>, chunks: seq<set<string>>, chosen: set<string>,
                                         limit: int, k: nat)
    requires Disjoint(chunks, chosen) && k < |chunks|
    ensures Settled(e, ms, chunks[k], Select(e, ms, chunks, chosen, limit), limit)
  {
    var front, chunk := chunks[..|chunks| - 1], chunks[|chunks| - 1];
    var next := Tried(e, ms, chunk, chosen, limit);
    TriedIs(e, ms, chunk, chosen, limit);
    if k < |front| {
      SelectSettles(e, ms, front, next, limit, k);
    } else {
      var s := Select(e, ms, front, next, limit);
      SelectGrows(e, ms, front, next, limit);
      if next == chosen {
        UnionDisjoint(front, chunk);
        KeepMonotone(e, ms, chosen + chunk, s + chunk);
      }
    }
  }

  // ---- The chunks of the two window strategies ----

  function Singles(ms: seq<Message>): seq<set<string>> {
    seq(|ms|, i requires 0 <= i < |ms| => {ms[i].id})
  }

  /** A user message directly followed by an assistant one forms a pair; every other message stands alone. */
  function Pairs(ms: seq<Message>): seq<seq<Message>> {
    if ms == [] then []
    else if |ms| >= 2 && ms[0].role.User? && ms[1].role.Assistant? then [[ms[0], ms[1]]] + Pairs(ms[2..])
    else [[ms[0]]] + Pairs(ms[1..])
  }

  function IdChunks(chunks: seq<seq<Message>>): seq<set<string>> {
    seq(|chunks|, i requires 0 <= i < |chunks| => Ids(chunks[i]))
  }

  predicate UniqueIds(ms: seq<Message>) {
    forall i, j | 0 <= i < j < |ms| :: ms[i].id != ms[j].id
  }

  /** The end of both window strategies. */
  method FinishTruncate(e: Estimator, messages: seq<Message>, selected: seq<Message>, limit: int)
    returns (result: seq<Message>)
    ensures result == Finish(e, messages, selected, limit)
  {
    if |selected| > 0 && Tokens(e, selected) <= limit {
      return selected;
    }
    var alwaysKeepMessages := AlwaysKeep(messages);
    var nonSystemMessages := Regular(messages);
    if nonSystemMessages == [] {
      return CutAll(e, alwaysKeepMessages, Max(1, limit - CONVERSATION));
    }
    var latest := nonSystemMessages[|nonSystemMessages| - 1];
    var trimmedLatest := e.cut(latest, Max(1, limit - Tokens(e, alwaysKeepMessages)));
    result := alwaysKeepMessages + [trimmedLatest];
  }

  /** `SlidingWindowStrategy.truncate` */
  method SlidingWindowTruncate(e: Estimator, messages: seq<Message>, limit: int) returns (result: seq<Message>)
    ensures result == Truncated(e, messages, Singles(Regular(messages)), limit)
  {
    if Tokens(e, messages) <= limit {
      return messages;
    }
    var alwaysKeepMessages := AlwaysKeep(messages);
    var nonSystemMessages := Regular(messages);
    var selectedIds := Ids(alwaysKeepMessages);
    ghost var chunks := Singles(nonSystemMessages);
    ghost var goal := Select(e, messages, chunks, selectedIds, limit);
    assert chunks[..|chunks|] == chunks;
    var index := |nonSystemMessages|;
    while index > 0
      invariant 0 <= index <= |nonSystemMessages|
      invariant Select(e, messages, chunks[..index], selectedIds, limit) == goal
    {
      index := index - 1;
      var candidate := nonSystemMessages[index];
      SelectStep(e, messages, chunks, index, selectedIds, limit);
      selectedIds := selectedIds + {candidate.id};
      var next := Keep(messages, selectedIds);
      if Tokens(e, next) > limit {
        selectedIds := selectedIds - {candidate.id};
      }
    }
    result := FinishTruncate(e, messages, Keep(messages, selectedIds), limit);
  }

  /** The pairs from one place on begin with the pair or the message there. */
  lemma PairsStep(ms: seq<Message>, index: nat, chunks: seq<seq<Message>>)
    requires index < |ms|
    ensures var paired := ms[index].role.User? && index + 1 < |ms| && ms[index + 1].role.Assistant?;
            chunks + Pairs(ms[index..]) ==
            if paired then chunks + [[ms[index], ms[index + 1]]] + Pairs(ms[index + 2..])
            else chunks + [[ms[index]]] + Pairs(ms[index + 1..])
  {
    var rest := ms[index..];
    var first := Pairs(rest)[0];
    assert rest[1..] == ms[index + 1..] && (|rest| >= 2 ==> rest[2..] == ms[index + 2..]);
    Assoc(chunks, [first], Pairs(rest[|first|..]));
  }

  /** The chunking loop of `KeepSystemAndRecentStrategy`. */
  method BuildChunks(ms: seq<Message>) returns (chunks: seq<seq<Message>>)
    ensures chunks == Pairs(ms)
  {
    chunks := [];
    var index := 0;
    while index < |ms|
      invariant 0 <= index <= |ms|
      invariant chunks + Pairs(ms[index..]) == Pairs(ms)
    {
      var current := ms[index];
      PairsStep(ms, index, chunks);
      if current.role.User? && index + 1 < |ms| && ms[index + 1].role.Assistant? {
        chunks := chunks + [[current, ms[index + 1]]];
        index := index + 2;
        continue;
      }
      chunks := chunks + [[current]];
      index := index + 1;
    }
  }

  /** `KeepSystemAndRecentStrategy.truncate` */
  method KeepRecentTruncate(e: Estimator, messages: seq<Message>, limit: int) returns (result: seq<Message>)
    ensures result == Truncated(e, messages, IdChunks(Pairs(Regular(messages))), limit)
  {
    if Tokens(e, messages) <= limit {
      return messages;
    }
    var alwaysKeepMessages := AlwaysKeep(messages);
    var nonSystemMessages := Regular(messages);
    var chunks := BuildChunks(nonSystemMessages);
    var selectedIds := Ids(alwaysKeepMessages);
    ghost var ids := IdChunks(chunks);
    ghost var goal := Select(e, messages, ids, selectedIds, limit);
    assert ids[..|ids|] == ids;
    var index := |chunks|;
    while index > 0
      invariant 0 <= index <= |chunks|
      invariant Select(e, messages, ids[..index], selectedIds, limit) == goal
    {
      index := index - 1;
      var chunk := Ids(chunks[index]);
      SelectStep(e, messages, ids, index, selectedIds, limit);
      selectedIds := selectedIds + chunk;
      var next := Keep(messages, selectedIds);
      if Tokens(e, next) > limit {
        selectedIds := selectedIds - chunk;
      }
    }
    result := FinishTruncate(e, messages, Keep(messages, selectedIds), limit);
  }

  // ---- What the window strategies guarantee ----

  lemma {:induction false} RegularMembers(ms: seq<Message>)
    ensures forall m :: m in Regular(ms) <==> m in ms && !Protected(m)
    ensures forall m :: m in AlwaysKeep(ms) <==> m in ms && Protected(m)
  {
    if ms != [] {
      RegularMembers(ms[1..]);
      assert ms == [ms[0]] + ms[1..];
    }
  }

  lemma {:induction false} RegularUnique(ms: seq<Message>)
    requires UniqueIds(ms)
    ensures UniqueIds(Regular(ms))
  {
    if ms != [] {
      RegularUnique(ms[1..]);
      RegularMembers(ms[1..]);
      if !Protected(ms[0]) {
        forall j | 0 <= j < |Regular(ms[1..])| ensures Regular(ms[1..])[j].id != ms[0].id {
          assert Regular(ms[1..])[j] in ms[1..];
        }
      }
    }
  }

  lemma ProtectedApart(ms: seq<Message>)
    requires UniqueIds(ms)
    ensures Ids(Regular(ms)) !! Ids(AlwaysKeep(ms))
  {
    RegularMembers(ms);
    forall a, b | a in Regular(ms) && b in AlwaysKeep(ms) ensures a.id != b.id {
      assert a in ms && b in ms && a != b;
    }
  }

  /** With unique ids, keeping the protected ids keeps exactly the protected messages. */
  lemma {:induction false} KeepProtected(ms: seq<Message>, ids: set<string>)
    requires forall m | m in ms :: m.id in ids <==> Protected(m)
    ensures Keep(ms, ids) == AlwaysKeep(ms)
  {
    if ms != [] {
      KeepProtected(ms[1..], ids);
    }
  }

  lemma {:induction false} KeepMembers(ms: seq<Message>, ids: set<string>)
    ensures forall m :: m in Keep(ms, ids) <==> m in ms && m.id in ids
  {
    if ms != [] {
      KeepMembers(ms[1..], ids);
      assert ms == [ms[0]] + ms[1..];
    }
  }

  lemma ProtectedIds(ms: seq<Message>)
    requires UniqueIds(ms)
    ensures Keep(ms, Ids(AlwaysKeep(ms))) == AlwaysKeep(ms)
  {
    RegularMembers(ms);
    ProtectedApart(ms);
    forall m | m in ms ensures m.id in Ids(AlwaysKeep(ms)) <==> Protected(m) {
      assert !Protected(m) ==> m in Regular(ms) && m.id in Ids(Regular(ms));
    }
    KeepProtected(ms, Ids(AlwaysKeep(ms)));
  }

  /**
   When ids are unique and the protected messages fit, a window strategy that has to cut selects the messages
   with ids in `s`, in their order: all protected ones, within the limit, every chunk whole or left out, and no
   chunk left out that could be added back. That selection is the result unless it is empty, in which case
   there is no protected message and the result is the newest message, cut to the limit.
   */
  lemma WindowGuarantee(e: Estimator, ms: seq<Message>, chunks: seq<set<string>>, limit: int) returns (s: set<string>)
    requires UniqueIds(ms) && Tokens(e, AlwaysKeep(ms)) <= limit < Tokens(e, ms)
    requires Disjoint(chunks, Ids(AlwaysKeep(ms)))
    ensures s == Select(e, ms, chunks, Ids(AlwaysKeep(ms)), limit)
    ensures forall m | m in ms && Protected(m) :: m in Keep(ms, s)
    ensures Tokens(e, Keep(ms, s)) <= limit
    ensures forall c | c in chunks :: Settled(e, ms, c, s, limit)
    ensures Keep(ms, s) != [] ==> Truncated(e, ms, chunks, limit) == Keep(ms, s)
    ensures Keep(ms, s) == [] ==>
              && AlwaysKeep(ms) == [] && Regular(ms) == ms != []
              && Truncated(e, ms, chunks, limit) == [e.cut(ms[|ms| - 1], Max(1, limit - CONVERSATION))]
  {
    var protectedIds := Ids(AlwaysKeep(ms));
    s := Select(e, ms, chunks, protectedIds, limit);
    SelectGrows(e, ms, chunks, protectedIds, limit);
    forall c | c in chunks ensures Settled(e, ms, c, s, limit) {
      var k :| 0 <= k < |chunks| && chunks[k] == c;
      SelectSettles(e, ms, chunks, protectedIds, limit, k);
    }
    ProtectedIds(ms);
    KeepMembers(ms, s);
    RegularMembers(ms);
    forall m | m in ms && Protected(m) ensures m in Keep(ms, s) {
      assert m in AlwaysKeep(ms) && m.id in protectedIds;
    }
    if Keep(ms, s) == [] {
      NothingProtected(ms);
      FallbackIs(e, ms, limit);
    }
  }

  lemma FallbackIs(e: Estimator, ms: seq<Message>, limit: int)
    requires Regular(ms) == ms != [] && AlwaysKeep(ms) == []
    ensures Fallback(e, ms, limit) == [e.cut(ms[|ms| - 1], Max(1, limit - CONVERSATION))]
  {
    var cut := e.cut(ms[|ms| - 1], Max(1, limit - CONVERSATION));
    assert Tokens(e, []) == CONVERSATION;
    assert Fallback(e, ms, limit) == [] + [cut] == [cut];
  }

  lemma {:induction false} NothingProtected(ms: seq<Message>)
    requires forall m | m in ms :: !Protected(m)
    ensures Regular(ms) == ms && AlwaysKeep(ms) == []
  {
    if ms != [] {
      assert ms[0] in ms && forall m | m in ms[1..] :: m in ms;
      NothingProtected(ms[1..]);
    }
  }

  lemma SinglesDisjoint(ms: seq<Message>)
    requires UniqueIds(ms)
    ensures Disjoint(Singles(Regular(ms)), Ids(AlwaysKeep(ms)))
  {
    RegularUnique(ms);
    ProtectedApart(ms);
    forall i | 0 <= i < |Regular(ms)| ensures Singles(Regular(ms))[i] !! Ids(AlwaysKeep(ms)) {
      assert Regular(ms)[i] in Regular(ms) && Regular(ms)[i].id in Ids(Regular(ms));
    }
  }

  /** The chunks contain the messages in order, each exactly once. */
  lemma {:induction false} PairsCover(ms: seq<Message>)
    ensures Flatten(Pairs(ms)) == ms
    decreases |ms|
  {
    if ms != [] {
      var first := Pairs(ms)[0];
      PairsCover(ms[|first|..]);
      assert Pairs(ms)[1..] == Pairs(ms[|first|..]);
      assert first + ms[|first|..] == ms;
    }
  }

  function Flatten(chunks: seq<seq<Message>>): seq<Message> {
    if chunks == [] then [] else chunks[0] + Flatten(chunks[1..])
  }

  /** A user message and the assistant message right after it always form one chunk. */
  lemma {:induction false} PairTogether(ms: seq<Message>, i: nat)
    requires i + 1 < |ms| && ms[i].role.User? && ms[i + 1].role.Assistant?
    ensures [ms[i], ms[i + 1]] in Pairs(ms)
    decreases |ms|
  {
    if i > 0 {
      var skip := |Pairs(ms)[0]|;
      assert skip <= i;
      PairTogether(ms[skip..], i - skip);
      assert Pairs(ms)[1..] == Pairs(ms[skip..]);
      assert forall c | c in Pairs(ms)[1..] :: c in Pairs(ms);
    } else {
      assert Pairs(ms)[0] == [ms[0], ms[1]];
    }
  }

  lemma {:induction false} FlattenIds(chunks: seq<seq<Message>>, k: nat, m: Message)
    requires k < |chunks| && m in chunks[k]
    ensures m in Flatten(chunks)
  {
    if k > 0 {
      FlattenIds(chunks[1..], k - 1, m);
    }
  }

  lemma {:induction false} ChunksDisjoint(chunks: seq<seq<Message>>, i: nat, j: nat)
    requires UniqueIds(Flatten(chunks)) && i < j < |chunks|
    ensures Ids(chunks[i]) !! Ids(chunks[j])
  {
    var first, rest := chunks[0], Flatten(chunks[1..]);
    assert Flatten(chunks) == first + rest;
    if i == 0 {
      forall a, b | a in chunks[0] && b in chunks[j] ensures a.id != b.id {
        FlattenIds(chunks[1..], j - 1, b);
        var x :| 0 <= x < |first| && first[x] == a;
        var y :| 0 <= y < |rest| && rest[y] == b;
        assert (first + rest)[x] == a && (first + rest)[|first| + y] == b;
      }
    } else {
      forall x, y | 0 <= x < y < |rest| ensures rest[x].id != rest[y].id {
        assert (first + rest)[|first| + x] == rest[x] && (first + rest)[|first| + y] == rest[y];
      }
      ChunksDisjoint(chunks[1..], i - 1, j - 1);
    }
  }

  lemma PairsDisjoint(ms: seq<Message>)
    requires UniqueIds(ms)
    ensures Disjoint(IdChunks(Pairs(Regular(ms))), Ids(AlwaysKeep(ms)))
  {
    var chunks := Pairs(Regular(ms));
    RegularUnique(ms);
    ProtectedApart(ms);
    PairsCover(Regular(ms));
    forall i | 0 <= i < |chunks| ensures Ids(chunks[i]) !! Ids(AlwaysKeep(ms)) {
      forall m: Message | m in chunks[i] ensures m.id in Ids(Regular(ms)) {
        FlattenIds(chunks, i, m);
      }
    }
    forall i, j | 0 <= i < j < |chunks| ensures IdChunks(chunks)[i] !! IdChunks(chunks)[j] {
      ChunksDisjoint(chunks, i, j);
    }
  }

  /** The chunked strategy keeps both or neither of a user message and the assistant message right after it. */
  lemma PairNeverSplit(e: Estimator, ms: seq<Message>, limit: int, i: nat)
    requires UniqueIds(ms) && Tokens(e, AlwaysKeep(ms)) <= limit < Tokens(e, ms)
    requires i + 1 < |Regular(ms)| && Regular(ms)[i].role.User? && Regular(ms)[i + 1].role.Assistant?
    ensures var kept := Selected(e, ms, IdChunks(Pairs(Regular(ms))), limit);
            Regular(ms)[i] in kept <==> Regular(ms)[i + 1] in kept
  {
    var regular := Regular(ms);
    var pair := [regular[i], regular[i + 1]];
    PairsDisjoint(ms);
    PairTogether(regular, i);
    var k :| 0 <= k < |Pairs(regular)| && Pairs(regular)[k] == pair;
    assert IdChunks(Pairs(regular))[k] == Ids(pair);
    var s := WindowGuarantee(e, ms, IdChunks(Pairs(regular)), limit);
    assert Settled(e, ms, Ids(pair), s, limit);
    assert pair[0] in pair && pair[1] in pair;
    RegularMembers(ms);
    KeepMembers(ms, s);
    assert regular[i] in regular && regular[i + 1] in regular;
  }
}
