/** When the sliding window keeps the newest messages without a gap. */
module WindowGaps {
  import opened Tokenizer
  import opened Truncation

  /** How many of the oldest unprotected messages have to go for the rest to fit. */
  function CutPoint(e: Estimator, ms: seq<Message>, limit: int): nat {
    Fewest(FitsWithout(e, ms, limit), |Regular(ms)|, 0)
  }

  lemma {:induction false} DropCheaper(e: Estimator, ms: seq<Message>, j: nat, k: nat)
    requires j <= k
    ensures Sum(e, DropFirst(ms, k)) <= Sum(e, DropFirst(ms, j))
  {
    if ms != [] {
      if j > 0 && !Protected(ms[0]) {
        DropCheaper(e, ms[1..], j - 1, k - 1);
      } else if k > 0 && !Protected(ms[0]) {
        DropCheaper(e, ms[1..], j, k - 1);
      } else {
        DropCheaper(e, ms[1..], j, k);
      }
    }
  }

  /** From the cut on, everything that is left fits. */
  lemma RestFits(e: Estimator, ms: seq<Message>, limit: int, j: nat)
    requires Tokens(e, AlwaysKeep(ms)) <= limit && j >= CutPoint(e, ms, limit)
    ensures CutPoint(e, ms, limit) <= |Regular(ms)| && Tokens(e, DropFirst(ms, j)) <= limit
  {
    var k := CutPoint(e, ms, limit);
    FewestIsLeast(FitsWithout(e, ms, limit), |Regular(ms)|, 0);
    DropCheaper(e, ms, k, j);
    if k == |Regular(ms)| {
      DropEverything(ms, k);
    }
  }

  /** The ids are those of the protected messages and of the unprotected ones from `j` on. */
  ghost predicate From(ms: seq<Message>, j: nat, ids: set<string>) {
    forall m | m in ms :: m.id in ids <==> Protected(m) || (j <= |Regular(ms)| && m in Regular(ms)[j..])
  }

  lemma FromRest(ms: seq<Message>, j: nat, ids: set<string>)
    requires ms != [] && UniqueIds(ms) && From(ms, j, ids)
    ensures From(ms[1..], if j > 0 && !Protected(ms[0]) then j - 1 else j, ids)
    ensures ms[0].id in ids <==> Protected(ms[0]) || j == 0
  {
    var rest := ms[1..];
    var next := if j > 0 && !Protected(ms[0]) then j - 1 else j;
    RegularMembers(rest);
    assert ms[0] in ms && ms[0] !in rest;
    if !Protected(ms[0]) {
      assert Regular(ms) == [ms[0]] + Regular(rest);
      assert j > 0 && j <= |Regular(ms)| ==> Regular(ms)[j..] == Regular(rest)[next..];
      assert forall m | m in Regular(rest) :: m in rest;
    } else {
      assert Regular(ms) == Regular(rest);
    }
    assert forall m | m in rest :: m in ms;
  }

  lemma {:induction false} KeepFrom(ms: seq<Message>, j: nat, ids: set<string>)
    requires UniqueIds(ms) && From(ms, j, ids)
    ensures Keep(ms, ids) == DropFirst(ms, j)
  {
    if ms != [] {
      FromRest(ms, j, ids);
      KeepFrom(ms[1..], if j > 0 && !Protected(ms[0]) then j - 1 else j, ids);
    }
  }

  function IdsFrom(ms: seq<Message>, j: nat): set<string>
    requires j <= |Regular(ms)|
  {
    Ids(AlwaysKeep(ms)) + Ids(Regular(ms)[j..])
  }

  lemma SameId(ms: seq<Message>, a: Message, b: Message)
    requires UniqueIds(ms) && a in ms && b in ms && a.id == b.id
    ensures a == b
  {
  }

  lemma KeepIdsFrom(ms: seq<Message>, j: nat)
    requires UniqueIds(ms) && j <= |Regular(ms)|
    ensures Keep(ms, IdsFrom(ms, j)) == DropFirst(ms, j)
  {
    RegularMembers(ms);
    var later := Regular(ms)[j..];
    assert forall m | m in later :: m in Regular(ms);
    forall m | m in ms ensures m.id in IdsFrom(ms, j) <==> Protected(m) || m in later {
      if m.id in IdsFrom(ms, j) {
        var other :| other in AlwaysKeep(ms) + later && other.id == m.id;
        SameId(ms, m, other);
      }
    }
    KeepFrom(ms, j, IdsFrom(ms, j));
  }

  lemma NextIdFrom(ms: seq<Message>, j: nat)
    requires j < |Regular(ms)|
    ensures IdsFrom(ms, j + 1) + {Regular(ms)[j].id} == IdsFrom(ms, j)
  {
    var regular := Regular(ms);
    assert regular[j..] == [regular[j]] + regular[j + 1..];
  }

  lemma TriedFromCut(e: Estimator, ms: seq<Message>, limit: int, j: nat)
    requires UniqueIds(ms) && Tokens(e, AlwaysKeep(ms)) <= limit
    requires CutPoint(e, ms, limit) <= j < |Regular(ms)|
    ensures Tried(e, ms, {Regular(ms)[j].id}, IdsFrom(ms, j + 1), limit) == IdsFrom(ms, j)
  {
    NextIdFrom(ms, j);
    KeepIdsFrom(ms, j);
    RestFits(e, ms, limit, j);
  }

  /** The greedy pass first takes all messages from the cut on. */
  lemma {:induction false} SelectFromCut(e: Estimator, ms: seq<Message>, limit: int, j: nat)
    requires UniqueIds(ms) && Tokens(e, AlwaysKeep(ms)) <= limit
    requires CutPoint(e, ms, limit) <= j <= |Regular(ms)|
    ensures var chunks := Singles(Regular(ms));
            Select(e, ms, chunks, Ids(AlwaysKeep(ms)), limit) == Select(e, ms, chunks[..j], IdsFrom(ms, j), limit)
    decreases |Regular(ms)| - j
  {
    var regular := Regular(ms);
    var chunks := Singles(regular);
    if j == |regular| {
      assert chunks[..j] == chunks && regular[j..] == [];
      assert IdsFrom(ms, j) == Ids(AlwaysKeep(ms));
    } else {
      SelectFromCut(e, ms, limit, j + 1);
      SelectStep(e, ms, chunks, j, IdsFrom(ms, j + 1), limit);
      TriedFromCut(e, ms, limit, j);
    }
  }

  lemma {:induction false} KeepOneMore(e: Estimator, ms: seq<Message>, ids: set<string>, m: Message)
    requires UniqueIds(ms) && m in ms && m.id !in ids
    ensures Sum(e, Keep(ms, ids + {m.id})) == Sum(e, Keep(ms, ids)) + e.cost(m)
  {
    var rest := ms[1..];
    if ms[0] == m {
      assert forall x | x in rest :: x.id != m.id;
      KeepSame(rest, ids, ids + {m.id});
      assert Keep(ms, ids + {m.id}) == [m] + Keep(rest, ids) && Keep(ms, ids) == Keep(rest, ids);
    } else {
      SameIdApart(ms, m);
      KeepOneMore(e, rest, ids, m);
      var first := if ms[0].id in ids then [ms[0]] else [];
      SumConcat(e, first, Keep(rest, ids));
      SumConcat(e, first, Keep(rest, ids + {m.id}));
    }
  }

  lemma SameIdApart(ms: seq<Message>, m: Message)
    requires UniqueIds(ms) && m in ms && ms[0] != m
    ensures ms[0].id != m.id && m in ms[1..]
  {
    assert ms == [ms[0]] + ms[1..];
  }

  lemma {:induction false} KeepSame(ms: seq<Message>, a: set<string>, b: set<string>)
    requires forall m | m in ms :: m.id in a <==> m.id in b
    ensures Keep(ms, a) == Keep(ms, b)
  {
    if ms != [] {
      assert ms[0] in ms && forall m | m in ms[1..] :: m in ms;
      KeepSame(ms[1..], a, b);
    }
  }

  /** The room that a set of messages leaves. */
  function Room(e: Estimator, ms: seq<Message>, ids: set<string>, limit: int): int {
    limit - Tokens(e, Keep(ms, ids))
  }

  /** A single message that costs more than the room left. */
  ghost predicate TooLarge(e: Estimator, ms: seq<Message>, chunk: set<string>, ids: set<string>, limit: int) {
    exists m :: m in ms && chunk == {m.id} && m.id !in ids && e.cost(m) > Room(e, ms, ids, limit)
  }

  /** Messages that are too large for the room left change nothing. */
  lemma {:induction false} SelectNone(e: Estimator, ms: seq<Message>, chunks: seq<set<string>>, ids: set<string>,
                                      limit: int)
    requires UniqueIds(ms)
    requires forall i | 0 <= i < |chunks| :: TooLarge(e, ms, chunks[i], ids, limit)
    ensures Select(e, ms, chunks, ids, limit) == ids
  {
    if chunks != [] {
      var last := chunks[|chunks| - 1];
      var m :| m in ms && last == {m.id} && m.id !in ids && e.cost(m) > Room(e, ms, ids, limit);
      KeepOneMore(e, ms, ids, m);
      assert ids + last - last == ids;
      SelectNone(e, ms, chunks[..|chunks| - 1], ids, limit);
    }
  }

  /** The unprotected messages before `j` are not among those from `j` on. */
  lemma BeforeApart(ms: seq<Message>, j: nat, i: nat)
    requires UniqueIds(ms) && i < j <= |Regular(ms)|
    ensures var m := Regular(ms)[i]; m in ms && m.id !in IdsFrom(ms, j) && m !in DropFirst(ms, j)
  {
    var regular := Regular(ms);
    var m := regular[i];
    RegularMembers(ms);
    RegularUnique(ms);
    assert m in regular;
    if m.id in IdsFrom(ms, j) {
      var other :| other in AlwaysKeep(ms) + regular[j..] && other.id == m.id;
      assert other !in regular[j..];
      SameId(ms, m, other);
    }
    KeepIdsFrom(ms, j);
    KeepMembers(ms, IdsFrom(ms, j));
  }

  /** Every unprotected message before the cut costs more than the room left. */
  ghost predicate NothingElseFits(e: Estimator, ms: seq<Message>, limit: int) {
    var k := CutPoint(e, ms, limit);
    forall i | 0 <= i < k && i < |Regular(ms)| :: e.cost(Regular(ms)[i]) > limit - Tokens(e, DropFirst(ms, k))
  }

  lemma GaplessWhenFull(e: Estimator, ms: seq<Message>, limit: int)
    requires UniqueIds(ms) && Tokens(e, AlwaysKeep(ms)) <= limit && NothingElseFits(e, ms, limit)
    ensures Selected(e, ms, Singles(Regular(ms)), limit) == DropFirst(ms, CutPoint(e, ms, limit))
  {
    var k, regular := CutPoint(e, ms, limit), Regular(ms);
    RestFits(e, ms, limit, k);
    SelectFromCut(e, ms, limit, k);
    KeepIdsFrom(ms, k);
    var (older, ids) := (Singles(regular)[..k], IdsFrom(ms, k));
    forall i | 0 <= i < |older| ensures TooLarge(e, ms, older[i], ids, limit) {
      BeforeApart(ms, k, i);
      assert older[i] == {regular[i].id};
    }
    SelectNone(e, ms, older, ids, limit);
  }

  lemma FullWhenGapless(e: Estimator, ms: seq<Message>, limit: int, i: nat)
    requires UniqueIds(ms) && Tokens(e, AlwaysKeep(ms)) <= limit
    requires Selected(e, ms, Singles(Regular(ms)), limit) == DropFirst(ms, CutPoint(e, ms, limit))
    requires i < CutPoint(e, ms, limit) && i < |Regular(ms)|
    ensures e.cost(Regular(ms)[i]) > limit - Tokens(e, DropFirst(ms, CutPoint(e, ms, limit)))
  {
    var m := Regular(ms)[i];
    RestFits(e, ms, limit, CutPoint(e, ms, limit));
    BeforeApart(ms, CutPoint(e, ms, limit), i);
    var chunks := Singles(Regular(ms));
    var s := Select(e, ms, chunks, Ids(AlwaysKeep(ms)), limit);
    SinglesDisjoint(ms);
    SelectSettles(e, ms, chunks, Ids(AlwaysKeep(ms)), limit, i);
    assert chunks[i] == {m.id};
    KeepMembers(ms, s);
    KeepOneMore(e, ms, s, m);
  }

  /**
   The sliding window selects the protected messages and the newest others, without a gap, as dropping the oldest does,
   if and only if each message before them costs more than the room that is left.
   */
  lemma WindowGaplessIff(e: Estimator, ms: seq<Message>, limit: int)
    requires UniqueIds(ms) && Tokens(e, AlwaysKeep(ms)) <= limit
    ensures DropOldest(e, ms, limit) == DropFirst(ms, CutPoint(e, ms, limit))
    ensures Selected(e, ms, Singles(Regular(ms)), limit) == DropFirst(ms, CutPoint(e, ms, limit)) <==>
            NothingElseFits(e, ms, limit)
  {
    RestFits(e, ms, limit, CutPoint(e, ms, limit));
    if NothingElseFits(e, ms, limit) {
      GaplessWhenFull(e, ms, limit);
    }
    if Selected(e, ms, Singles(Regular(ms)), limit) == DropFirst(ms, CutPoint(e, ms, limit)) {
      var k := CutPoint(e, ms, limit);
      forall i | 0 <= i < k && i < |Regular(ms)|
        ensures e.cost(Regular(ms)[i]) > limit - Tokens(e, DropFirst(ms, k))
      {
        FullWhenGapless(e, ms, limit, i);
      }
    }
  }

  lemma KeepThree(e: Estimator, a: Message, b: Message, c: Message, ids: set<string>)
    ensures var kept := (if a.id in ids then [a] else []) + ((if b.id in ids then [b] else [])
                                                            + (if c.id in ids then [c] else []));
            && Keep([a, b, c], ids) == kept
            && Sum(e, kept) == (if a.id in ids then e.cost(a) else 0) + (if b.id in ids then e.cost(b) else 0)
                               + (if c.id in ids then e.cost(c) else 0)
  {
    assert [a, b, c][1..] == [b, c] && [b, c][1..] == [c] && [c][1..] == [];
    assert Keep([c], ids) == (if c.id in ids then [c] else []) + [];
    assert Keep([b, c], ids) == (if b.id in ids then [b] else []) + Keep([c], ids);
    var (first, second, third) :=
      (if a.id in ids then [a] else [], if b.id in ids then [b] else [], if c.id in ids then [c] else []);
    SumConcat(e, first, second + third);
    SumConcat(e, second, third);
    assert [a][1..] == [] && [b][1..] == [];
  }

  lemma SelectThree(e: Estimator, a: Message, b: Message, c: Message)
    requires a.id != b.id && b.id != c.id && a.id != c.id
    requires e.cost(a) == 6 && e.cost(b) == 100 && e.cost(c) == 6
    ensures Select(e, [a, b, c], [{a.id}, {b.id}, {c.id}], {}, 20) == {a.id, c.id}
  {
    var ms, chunks := [a, b, c], [{a.id}, {b.id}, {c.id}];
    KeepThree(e, a, b, c, {} + {c.id});
    KeepThree(e, a, b, c, {c.id} + {b.id});
    KeepThree(e, a, b, c, {c.id} + {a.id});
    assert Tried(e, ms, {c.id}, {}, 20) == {c.id};
    assert Tried(e, ms, {b.id}, {c.id}, 20) == {c.id};
    assert Tried(e, ms, {a.id}, {c.id}, 20) == {a.id, c.id};
    assert chunks[..3] == chunks && chunks[..0] == [];
    SelectStep(e, ms, chunks, 2, {}, 20);
    SelectStep(e, ms, chunks, 1, {c.id}, 20);
    SelectStep(e, ms, chunks, 0, {c.id}, 20);
  }

  lemma SumThree(e: Estimator, a: Message, b: Message, c: Message)
    ensures Sum(e, [a, b, c]) == e.cost(a) + e.cost(b) + e.cost(c) && Sum(e, [a, c]) == e.cost(a) + e.cost(c)
  {
    assert [a, b, c][1..] == [b, c] && [b, c][1..] == [c] && [c][1..] == [] && [a, c][1..] == [c];
    assert Sum(e, [c]) == e.cost(c) && Sum(e, [b, c]) == e.cost(b) + e.cost(c);
  }

  lemma SelectedThree(e: Estimator, a: Message, b: Message, c: Message)
    requires Regular([a, b, c]) == [a, b, c] && AlwaysKeep([a, b, c]) == []
    requires a.id != b.id && b.id != c.id && a.id != c.id
    requires e.cost(a) == 6 && e.cost(b) == 100 && e.cost(c) == 6
    ensures Selected(e, [a, b, c], Singles(Regular([a, b, c])), 20) == [a, c]
  {
    assert Ids([]) == {};
    assert Singles([a, b, c]) == [{a.id}, {b.id}, {c.id}];
    SelectThree(e, a, b, c);
    KeepThree(e, a, b, c, {a.id, c.id});
    assert [a] + ([] + [c]) == [a, c];
  }

  /** Three messages, of which the one in the middle is too large: the window holds the first and the third. */
  lemma WindowWithGap(e: Estimator, a: Message, b: Message, c: Message)
    requires a.role.User? && b.role.User? && c.role.User? && !a.isSummary && !b.isSummary && !c.isSummary
    requires a.id != b.id && b.id != c.id && a.id != c.id
    requires e.cost(a) == 6 && e.cost(b) == 100 && e.cost(c) == 6
    ensures Truncated(e, [a, b, c], Singles(Regular([a, b, c])), 20) == [a, c]
  {
    NothingProtected([a, b, c]);
    SelectedThree(e, a, b, c);
    SumThree(e, a, b, c);
  }
}
