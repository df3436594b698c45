/**
 What a compaction extracts from the messages it removes: the first memorable contents, and a summary of as many lines
 as fit its token limit.
 */
module Summary {
  import opened Text
  import opened Tokenizer

  /** The two word patterns that make a message worth remembering. */
  datatype Wording = Wording(prefers: string -> bool, decides: string -> bool)

  /** `textOf` gives the text of a message's content. */
  datatype Reading = Reading(textOf: Content -> string, wording: Wording)

  datatype Kind = Preference | Fact

  datatype Memory = Memory(content: string, kind: Kind, tags: seq<string>, conversationId: string)

  const MAX_MEMORIES := 10

  /** What `f` makes of the messages, skipping those it makes nothing of. */
  function Collected<T>(f: Message -> Option<T>, ms: seq<Message>): seq<T> {
    if ms == [] then []
    else (if f(ms[0]).Some? then [f(ms[0]).value] else []) + Collected(f, ms[1..])
  }

  lemma CollectedNext<T>(f: Message -> Option<T>, ms: seq<Message>, i: nat)
    requires i < |ms|
    ensures Collected(f, ms[i..]) ==
            (if f(ms[i]).Some? then [f(ms[i]).value] else []) + Collected(f, ms[i + 1..])
  {
    assert ms[i..][1..] == ms[i + 1..];
  }

  // ---- Memories ----

  function RoleName(r: Role): string {
    match r case System => "system" case User => "user" case Assistant => "assistant" case Tool => "tool"
  }

  /** What a message gives to remember. */
  function Memorable(reading: Reading, conversationId: string): Message -> Option<Memory> {
    (m: Message) =>
      var content := Trim(reading.textOf(m.content));
      if !(m.role.User? || m.role.Assistant?) || content == "" then None
      else if reading.wording.prefers(content) then
        Some(Memory(content, Preference, ["compaction", "flush", RoleName(m.role)], conversationId))
      else if reading.wording.decides(content) then
        Some(Memory(content, Fact, ["compaction", "flush", RoleName(m.role)], conversationId))
      else None
  }

  function AtMost<T>(xs: seq<T>, n: nat): seq<T> {
    if |xs| <= n then xs else xs[..n]
  }

  /** The first memorable contents. */
  function Extracted(reading: Reading, ms: seq<Message>, conversationId: string): seq<Memory> {
    AtMost(Collected(Memorable(reading, conversationId), ms), MAX_MEMORIES)
  }

  /** `extractMemories` */
  method ExtractMemories(reading: Reading, ms: seq<Message>, conversationId: string)
    returns (memories: seq<Memory>)
    ensures memories == Extracted(reading, ms, conversationId)
  {
    var memorable := Memorable(reading, conversationId);
    memories := [];
    for i := 0 to |ms|
      invariant |memories| < MAX_MEMORIES
      invariant Collected(memorable, ms) == memories + Collected(memorable, ms[i..])
    {
      CollectedNext(memorable, ms, i);
      ghost var rest := Collected(memorable, ms[i + 1..]);
      var memory := memorable(ms[i]);
      if memory.None? {
        continue;
      }
      Assoc(memories, [memory.value], rest);
      memories := memories + [memory.value];
      if |memories| >= MAX_MEMORIES {
        Append(memories, rest, 0);
        break;
      }
    }
  }

  // ---- The summary ----

  function UpperName(r: Role): string {
    match r case System => "SYSTEM" case User => "USER" case Assistant => "ASSISTANT" case Tool => "TOOL"
  }

  /** Every run of white space replaced by one space. */
  function Collapse(s: string): string {
    if s == [] then []
    else if !IsSpace(s[0]) then [s[0]] + Collapse(s[1..])
    else if |s| > 1 && IsSpace(s[1]) then Collapse(s[1..])
    else [' '] + Collapse(s[1..])
  }

  /** Collapsing keeps every other character in order, and leaves single spaces as the only white space. */
  lemma {:induction false} CollapseMeans(s: string)
    ensures var r := Collapse(s);
            && Ink(r) == Ink(s)
            && (forall i | 0 <= i < |r| && IsSpace(r[i]) :: r[i] == ' ' && (i + 1 < |r| ==> !IsSpace(r[i + 1])))
            && (r != [] <==> s != []) && (r != [] ==> (IsSpace(r[0]) <==> IsSpace(s[0])))
  {
    if s != [] {
      CollapseMeans(s[1..]);
    }
  }

  function Line(textOf: Content -> string): Message -> Option<string> {
    (m: Message) =>
      var normalized := Trim(Collapse(textOf(m.content)));
      if normalized == "" then None else Some("- " + (UpperName(m.role) + ": " + normalized))
  }

  /** What lines cost together. */
  const COST: seq<string> -> nat := (lines: seq<string>) => EstimateTokens(Join(lines, "\n"))

  /** Whether lines together stay within a token limit. */
  function Within(cost: seq<string> -> nat, most: int): seq<string> -> bool {
    (lines: seq<string>) => cost(lines) <= most
  }

  /** How many lines are taken, one after the other, before one overflows. */
  function Taking(fits: seq<string> -> bool, lines: seq<string>, n: nat): (k: nat)
    requires n <= |lines|
    ensures n <= k <= |lines|
    decreases |lines| - n
  {
    if n < |lines| && fits(lines[..n + 1]) then Taking(fits, lines, n + 1) else n
  }

  function SummaryOf(textOf: Content -> string, most: int, ms: seq<Message>): string {
    var lines := Collected(Line(textOf), ms);
    var k := Taking(Within(COST, most), lines, 0);
    if ms == [] then "No messages were compacted."
    else if k == 0 then "No compactable message content available."
    else Join(lines[..k], "\n")
  }

  method TakeLines(line: Message -> Option<string>, fits: seq<string> -> bool, ms: seq<Message>)
    returns (lines: seq<string>)
    ensures var all := Collected(line, ms); lines == all[..Taking(fits, all, 0)]
  {
    ghost var all := Collected(line, ms);
    lines := [];
    for i := 0 to |ms|
      invariant all == lines + Collected(line, ms[i..])
      invariant Taking(fits, all, 0) == Taking(fits, all, |lines|)
    {
      CollectedNext(line, ms, i);
      ghost var rest := Collected(line, ms[i + 1..]);
      var next := line(ms[i]);
      if next.None? {
        assert Collected(line, ms[i..]) == rest;
        continue;
      }
      Assoc(lines, [next.value], rest);
      var candidate := lines + [next.value];
      Append(candidate, rest, 0);
      assert all == candidate + rest && all[..|lines| + 1] == candidate;
      assert Taking(fits, all, |lines|) == if fits(candidate) then Taking(fits, all, |candidate|) else |lines|;
      if !fits(candidate) {
        break;
      }
      lines := candidate;
    }
    assert all[..|lines|] == lines;
  }

  /** `generateSummary` */
  method GenerateSummary(textOf: Content -> string, most: int, ms: seq<Message>) returns (summary: string)
    ensures summary == SummaryOf(textOf, most, ms)
  {
    if ms == [] {
      return "No messages were compacted.";
    }
    var lines := TakeLines(Line(textOf), Within(COST, most), ms);
    summary := if lines == [] then "No compactable message content available." else Join(lines, "\n");
  }

  lemma {:induction false} JoinMore(lines: seq<string>, line: string)
    requires lines != []
    ensures Join(lines + [line], "\n") == Join(lines, "\n") + ("\n" + line)
  {
    if |lines| == 1 {
      assert lines + [line] == [lines[0], line];
      assert [lines[0], line][1..] == [line];
    } else {
      JoinMore(lines[1..], line);
      assert (lines + [line])[1..] == lines[1..] + [line];
      Assoc(lines[0] + "\n", Join(lines[1..], "\n"), "\n" + line);
    }
  }

  lemma {:induction false} WordsGrow(a: string, x: string, separator: char -> bool)
    ensures Words(a, separator) <= Words(a + x, separator)
    ensures a != [] && !separator(a[0]) ==> Words(a + x, separator) >= 1
    decreases |a| + |x|
  {
    if |a| > 1 {
      WordsGrow(a[1..], x, separator);
      assert (a + x)[1..] == a[1..] + x;
    } else if a != [] && x != [] {
      assert (a + x)[1..] == x;
      WordsGrow(x, [], separator);
      assert x + [] == x;
    }
  }

  /** What starts with a dash and ends with a printed character. */
  predicate Listing(t: string) {
    t != [] && t[0] == '-' && !IsSpace(t[|t| - 1])
  }

  lemma EstimateGrows(a: string, x: string)
    requires Listing(a) && Listing(a + x)
    ensures EstimateTokens(a) <= EstimateTokens(a + x)
  {
    TrimFixes(a);
    TrimFixes(a + x);
    WordsGrow(a, x, IsSeparator);
  }

  lemma LineListing(textOf: Content -> string, m: Message)
    requires Line(textOf)(m).Some?
    ensures Listing(Line(textOf)(m).value)
  {
    var normalized := Trim(Collapse(textOf(m.content)));
    var line := "- " + (UpperName(m.role) + ": " + normalized);
    assert line[|line| - 1] == normalized[|normalized| - 1];
  }

  predicate AllListing(lines: seq<string>) {
    forall k | 0 <= k < |lines| :: Listing(lines[k])
  }

  lemma {:induction false} LinesListing(textOf: Content -> string, ms: seq<Message>)
    ensures AllListing(Collected(Line(textOf), ms))
  {
    if ms != [] {
      LinesListing(textOf, ms[1..]);
      if Line(textOf)(ms[0]).Some? { LineListing(textOf, ms[0]); }
    }
  }

  lemma {:induction false} JoinListing(lines: seq<string>)
    requires lines != [] && AllListing(lines)
    ensures Listing(Join(lines, "\n"))
  {
    if |lines| > 1 {
      JoinListing(lines[1..]);
      var rest := Join(lines[1..], "\n");
      assert Join(lines, "\n") == lines[0] + "\n" + rest;
    }
  }

  /** One more line costs no less. */
  lemma JoinGrows(less: seq<string>, line: string, more: seq<string>)
    requires less != [] && more == less + [line] && AllListing(more)
    ensures COST(less) <= COST(more)
  {
    forall k | 0 <= k < |less| ensures Listing(less[k]) {
      assert less[k] == more[k];
    }
    JoinListing(less);
    JoinListing(more);
    JoinMore(less, line);
    EstimateGrows(Join(less, "\n"), "\n" + line);
  }

  lemma PrefixesGrow(lines: seq<string>, n: nat)
    requires 1 <= n < |lines| && AllListing(lines)
    ensures COST(lines[..n]) <= COST(lines[..n + 1])
  {
    assert lines[..n] + [lines[n]] == lines[..n + 1];
    JoinGrows(lines[..n], lines[n], lines[..n + 1]);
  }

  lemma {:induction false} TakingFits(fits: seq<string> -> bool, lines: seq<string>, from: nat)
    requires from <= |lines|
    ensures var k := Taking(fits, lines, from);
            && (forall n | from < n <= k :: fits(lines[..n])) && (k < |lines| ==> !fits(lines[..k + 1]))
    decreases |lines| - from
  {
    if from < |lines| && fits(lines[..from + 1]) {
      TakingFits(fits, lines, from + 1);
    }
  }

  /** When prefixes cost ever more, the taken ones are all that fit. */
  lemma {:induction false} TakingIsLongest(cost: seq<string> -> nat, most: int, lines: seq<string>, n: nat)
    requires forall j | 1 <= j < |lines| :: cost(lines[..j]) <= cost(lines[..j + 1])
    requires 1 <= n <= |lines|
    ensures cost(lines[..n]) <= most <==> n <= Taking(Within(cost, most), lines, 0)
  {
    var k := Taking(Within(cost, most), lines, 0);
    TakingFits(Within(cost, most), lines, 0);
    if n > k + 1 {
      TakingIsLongest(cost, most, lines, n - 1);
      assert (n - 1) + 1 == n;
    }
  }

  /** The summary is as long as can be: of the prefixes of the lines exactly those it extends fit the limit. */
  lemma SummaryIsLongest(textOf: Content -> string, most: int, ms: seq<Message>, n: nat)
    requires 1 <= n <= |Collected(Line(textOf), ms)|
    ensures var lines := Collected(Line(textOf), ms);
            COST(lines[..n]) <= most <==> n <= Taking(Within(COST, most), lines, 0)
  {
    var lines := Collected(Line(textOf), ms);
    LinesListing(textOf, ms);
    forall j | 1 <= j < |lines| ensures COST(lines[..j]) <= COST(lines[..j + 1]) {
      PrefixesGrow(lines, j);
    }
    TakingIsLongest(COST, most, lines, n);
  }
}
