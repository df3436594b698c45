/** The append-only transcript file: one JSON line per entry, and its repair after a torn write. */
module Transcript {
  import opened Text

  type Byte = n: nat | n < 256

  const NEWLINE: Byte := 10

  type Line = seq<Byte>

  /**
   The line format. `stringify` is `JSON.stringify` of an entry; `parse` is `JSON.parse` followed by the check
   that the value is a transcript entry, `None` standing for a failure of either.
   */
  datatype Codec<!E> = Codec(stringify: E -> Line, parse: Line -> Option<E>)

  /** Printed entries are read back, contain no newline, and no proper prefix of one is an entry. */
  ghost predicate Lawful<E(!new)>(c: Codec<E>) {
    forall e :: GoodLine(c, c.stringify(e), e)
  }

  ghost predicate GoodLine<E>(c: Codec<E>, line: Line, e: E) {
    && line != [] && NEWLINE !in line && c.parse(line) == Some(e)
    && forall k | 0 <= k < |line| :: c.parse(line[..k]).None?
  }

  /** A line, whole or cut off, that is continued with another one is not an entry: both begin with a brace. */
  ghost predicate NeverBlends<E(!new)>(c: Codec<E>) {
    forall e, f, k | 0 < k <= |c.stringify(e)| :: c.parse(Blend(c, e, k, f)).None?
  }

  function Blend<E>(c: Codec<E>, e: E, k: nat, f: E): Line
    requires k <= |c.stringify(e)|
  {
    c.stringify(e)[..k] + c.stringify(f)
  }

  /** `n` in unary, in braces. */
  function Unary(n: nat): Line {
    [123] + seq(n, i => 49) + [125]
  }

  function FromUnary(line: Line): Option<nat> {
    if |line| >= 2 && line == Unary(|line| - 2) then Some(|line| - 2) else None
  }

  /** The laws can be met. */
  lemma UnaryIsLawful()
    ensures Lawful(Codec(Unary, FromUnary)) && NeverBlends(Codec(Unary, FromUnary))
  {
    var c := Codec(Unary, FromUnary);
    forall n: nat ensures GoodLine(c, c.stringify(n), n) {
      forall k | 0 <= k < |Unary(n)| ensures FromUnary(Unary(n)[..k]).None? {
        if k > 1 { assert Unary(n)[..k][k - 1] == 49 && Unary(k - 2)[k - 1] == 125; }
      }
    }
    forall m: nat, n: nat, k | 0 < k <= |Unary(m)| ensures FromUnary(Blend(c, m, k, n)).None? {
      var line := Blend(c, m, k, n);
      assert line[k] == 123 != Unary(|line| - 2)[k];
    }
  }

  function Unlines(lines: seq<Line>): seq<Byte> {
    if lines == [] then [] else lines[0] + [NEWLINE] + Unlines(lines[1..])
  }

  function Printed<E>(c: Codec<E>, es: seq<E>): seq<Line> {
    seq(|es|, i requires 0 <= i < |es| => c.stringify(es[i]))
  }

  /** The file that holds exactly the given entries. */
  function Serialize<E>(c: Codec<E>, es: seq<E>): seq<Byte> {
    Unlines(Printed(c, es))
  }

  // ---- Reading ----

  datatype Result<+T> = Ok(value: T) | InvalidLine(number: nat) | InvalidSession

  function NonEmpty(lines: seq<Line>): seq<Line> {
    if lines == [] then []
    else if lines[0] == [] then NonEmpty(lines[1..])
    else [lines[0]] + NonEmpty(lines[1..])
  }

  /** Parses every line; the error carries the number of the first bad one, counted from `number`. */
  function ParseAll<E>(c: Codec<E>, lines: seq<Line>, number: nat): Result<seq<E>> {
    if lines == [] then Ok([])
    else match c.parse(lines[0])
      case None => InvalidLine(number)
      case Some(e) =>
        match ParseAll(c, lines[1..], number + 1)
        case Ok(es) => Ok([e] + es)
        case error => error
  }

  function ReadContent<E>(c: Codec<E>, content: seq<Byte>): Result<seq<E>> {
    ParseAll(c, NonEmpty(Split(content, NEWLINE)), 1)
  }

  // ---- Repair ----

  function CompleteLines(content: seq<Byte>): seq<Line> {
    var segments := Split(content, NEWLINE);
    segments[..|segments| - 1]
  }

  function Trailing(content: seq<Byte>): Line {
    var segments := Split(content, NEWLINE);
    segments[|segments| - 1]
  }

  /** The lines that may survive: the complete ones, and an unterminated last one if it is an entry. */
  function Candidates<E>(c: Codec<E>, content: seq<Byte>): seq<Line> {
    var trailing := Trailing(content);
    CompleteLines(content) + (if c.parse(trailing).Some? && trailing != [] then [trailing] else [])
  }

  predicate AllValid<E>(c: Codec<E>, lines: seq<Line>) {
    forall l | l in lines :: l == [] || c.parse(l).Some?
  }

  /** The non-empty lines before the first bad one. */
  function Kept<E>(c: Codec<E>, lines: seq<Line>): seq<Line> {
    if lines == [] then []
    else if lines[0] == [] then Kept(c, lines[1..])
    else if c.parse(lines[0]).None? then []
    else [lines[0]] + Kept(c, lines[1..])
  }

  predicate NeedsRepair<E>(c: Codec<E>, content: seq<Byte>) {
    Trailing(content) != [] || !AllValid(c, Candidates(c, content))
  }

  /** The file content after repair. */
  function Repaired<E>(c: Codec<E>, content: seq<Byte>): seq<Byte> {
    if NeedsRepair(c, content) then Unlines(Kept(c, Candidates(c, content))) else content
  }

  function EntriesOf<E>(c: Codec<E>, lines: seq<Line>): seq<E>
    requires forall l | l in lines :: c.parse(l).Some?
  {
    seq(|lines|, i requires 0 <= i < |lines| => c.parse(lines[i]).value)
  }

  lemma {:induction false} KeptParse<E>(c: Codec<E>, lines: seq<Line>)
    requires forall l | l in lines :: NEWLINE !in l
    ensures forall l | l in Kept(c, lines) :: l != [] && c.parse(l).Some? && NEWLINE !in l
  {
    if lines != [] {
      KeptParse(c, lines[1..]);
    }
  }

  lemma CandidatesPlain<E>(c: Codec<E>, content: seq<Byte>)
    ensures forall l | l in Candidates(c, content) :: NEWLINE !in l
  {
    SplitPieces(content, NEWLINE);
    assert forall l | l in Candidates(c, content) :: l in Split(content, NEWLINE);
  }

  /** The entries that repair keeps. */
  function Recovered<E>(c: Codec<E>, content: seq<Byte>): seq<E> {
    CandidatesPlain(c, content);
    KeptParse(c, Candidates(c, content));
    EntriesOf(c, Kept(c, Candidates(c, content)))
  }

  lemma {:induction false} ParseAllValid<E>(c: Codec<E>, lines: seq<Line>, number: nat)
    requires forall l | l in lines :: c.parse(l).Some?
    ensures ParseAll(c, lines, number) == Ok(EntriesOf(c, lines))
  {
    if lines != [] {
      assert lines[0] in lines && forall l | l in lines[1..] :: l in lines;
      ParseAllValid(c, lines[1..], number + 1);
      assert ParseAll(c, lines, number) == Ok([c.parse(lines[0]).value] + EntriesOf(c, lines[1..]));
      assert EntriesOf(c, lines) == [c.parse(lines[0]).value] + EntriesOf(c, lines[1..]);
    }
  }

  lemma {:induction false} SplitUnlines(lines: seq<Line>, rest: seq<Byte>)
    requires forall l | l in lines :: NEWLINE !in l
    ensures Split(Unlines(lines) + rest, NEWLINE) == lines + Split(rest, NEWLINE)
  {
    if lines == [] {
      assert Unlines(lines) + rest == rest;
    } else {
      var tail := Unlines(lines[1..]) + rest;
      SplitUnlines(lines[1..], rest);
      SplitAt(lines[0], NEWLINE, tail);
      Assoc(lines[0] + [NEWLINE], Unlines(lines[1..]), rest);
      Assoc([lines[0]], lines[1..], Split(rest, NEWLINE));
      assert [lines[0]] + lines[1..] == lines;
    }
  }

  lemma {:induction false} NonEmptyConcat(a: seq<Line>, b: seq<Line>)
    ensures NonEmpty(a + b) == NonEmpty(a) + NonEmpty(b)
  {
    if a == [] {
      assert a + b == b;
    } else {
      NonEmptyConcat(a[1..], b);
      assert (a + b)[0] == a[0] && (a + b)[1..] == a[1..] + b;
      Assoc([a[0]], NonEmpty(a[1..]), NonEmpty(b));
    }
  }

  lemma {:induction false} NonEmptyAll(lines: seq<Line>)
    requires forall l | l in lines :: l != []
    ensures NonEmpty(lines) == lines
  {
    if lines != [] {
      assert lines[0] in lines && forall l | l in lines[1..] :: l in lines;
      NonEmptyAll(lines[1..]);
    }
  }

  /** When every line is an entry or empty, nothing but the empty lines is dropped. */
  lemma {:induction false} KeptValid<E>(c: Codec<E>, lines: seq<Line>)
    requires AllValid(c, lines)
    ensures Kept(c, lines) == NonEmpty(lines)
  {
    if lines != [] {
      assert lines[0] in lines;
      KeptValid(c, lines[1..]);
    }
  }

  lemma EntriesConcat<E>(c: Codec<E>, a: seq<Line>, b: seq<Line>)
    requires forall l | l in a + b :: c.parse(l).Some?
    ensures EntriesOf(c, a + b) == EntriesOf(c, a) + EntriesOf(c, b)
  {
  }

  /** The non-empty lines of a repaired file are those that were kept, followed by no unfinished line. */
  lemma RepairedLines<E>(c: Codec<E>, content: seq<Byte>, rest: seq<Byte>)
    ensures NonEmpty(Split(Repaired(c, content) + rest, NEWLINE)) ==
            Kept(c, Candidates(c, content)) + NonEmpty(Split(rest, NEWLINE))
    ensures Trailing(Repaired(c, content)) == []
    ensures AllValid(c, CompleteLines(Repaired(c, content)))
  {
    var kept := Kept(c, Candidates(c, content));
    CandidatesPlain(c, content);
    KeptParse(c, Candidates(c, content));
    if NeedsRepair(c, content) {
      SplitUnlines(kept, rest);
      SplitUnlines(kept, []);
      assert Unlines(kept) + [] == Unlines(kept);
      assert Split(Unlines(kept), NEWLINE) == kept + [[]];
      NonEmptyConcat(kept, Split(rest, NEWLINE));
      NonEmptyAll(kept);
    } else {
      var lines := CompleteLines(content);
      assert Candidates(c, content) == lines;
      KeptValid(c, lines);
      SplitTerminated(content, rest);
      NonEmptyConcat(lines, Split(rest, NEWLINE));
    }
  }

  /** Appending to a content without an unfinished line appends lines. */
  lemma {:induction false} SplitTerminated(content: seq<Byte>, rest: seq<Byte>)
    requires Trailing(content) == []
    ensures Split(content + rest, NEWLINE) == CompleteLines(content) + Split(rest, NEWLINE)
  {
    if content == [] {
      assert content + rest == rest;
    } else {
      var front := content[..|content| - 1];
      LastIsNewline(content);
      assert content == front + [NEWLINE] + [];
      SplitConcat(front, NEWLINE, []);
      SplitConcat(front, NEWLINE, rest);
      assert content + rest == front + [NEWLINE] + rest;
      assert Split(content, NEWLINE) == Split(front, NEWLINE) + [[]];
    }
  }

  lemma {:induction false} LastIsNewline(content: seq<Byte>)
    requires content != [] && Trailing(content) == []
    ensures content[|content| - 1] == NEWLINE
  {
    var rest := Split(content[1..], NEWLINE);
    if |content| == 1 {
      assert content[1..] == [] && rest == [[]];
    } else {
      assert Trailing(content[1..]) == [];
      LastIsNewline(content[1..]);
    }
  }

  /**
   For every file content whatsoever: the repaired file reads without error as the recovered entries; a second
   repair changes nothing; and entries appended after the repair read back behind the recovered ones.
   */
  lemma RepairedFileReads<E(!new)>(c: Codec<E>, content: seq<Byte>, later: seq<E>)
    requires Lawful(c)
    ensures ReadContent(c, Repaired(c, content)) == Ok(Recovered(c, content))
    ensures !NeedsRepair(c, Repaired(c, content))
    ensures ReadContent(c, Repaired(c, content) + Serialize(c, later)) == Ok(Recovered(c, content) + later)
  {
    var kept, lines := Kept(c, Candidates(c, content)), Printed(c, later);
    CandidatesPlain(c, content);
    KeptParse(c, Candidates(c, content));
    RepairedLines(c, content, []);
    assert Repaired(c, content) + [] == Repaired(c, content);
    assert kept + NonEmpty(Split<Byte>([], NEWLINE)) == kept;
    ParseAllValid(c, kept, 1);

    RepairedLines(c, content, Serialize(c, later));
    PrintedLines(c, later);
    assert forall l | l in kept + lines :: c.parse(l).Some?;
    ParseAllValid(c, kept + lines, 1);
    EntriesConcat(c, kept, lines);
  }

  lemma PrintedLines<E(!new)>(c: Codec<E>, es: seq<E>)
    requires Lawful(c)
    ensures forall l | l in Printed(c, es) :: l != [] && NEWLINE !in l && c.parse(l).Some?
    ensures NonEmpty(Split(Serialize(c, es), NEWLINE)) == Printed(c, es)
    ensures EntriesOf(c, Printed(c, es)) == es
  {
    forall i | 0 <= i < |es| ensures GoodLine(c, Printed(c, es)[i], es[i]) {
    }
    SplitUnlines(Printed(c, es), []);
    assert Serialize(c, es) + [] == Serialize(c, es);
    NonEmptyConcat(Printed(c, es), [[]]);
    NonEmptyAll(Printed(c, es));
  }

  // ---- Crash recovery ----

  /** The entries whose text lies wholly within the first `k` bytes of the file that holds `es`. */
  function Whole<E>(c: Codec<E>, es: seq<E>, k: int): seq<E> {
    if es == [] || k < |c.stringify(es[0])| then []
    else [es[0]] + Whole(c, es[1..], k - |c.stringify(es[0])| - 1)
  }

  lemma SerializeCons<E>(c: Codec<E>, es: seq<E>)
    requires es != []
    ensures Serialize(c, es) == c.stringify(es[0]) + [NEWLINE] + Serialize(c, es[1..])
  {
    assert Printed(c, es)[1..] == Printed(c, es[1..]);
  }

  /** A good first line neither hinders nor helps the repair of what follows it. */
  lemma CandidatesCons<E>(c: Codec<E>, line: Line, rest: seq<Byte>)
    requires NEWLINE !in line
    ensures Trailing(line + [NEWLINE] + rest) == Trailing(rest)
    ensures Candidates(c, line + [NEWLINE] + rest) == [line] + Candidates(c, rest)
  {
    SplitAt(line, NEWLINE, rest);
    assert CompleteLines(line + [NEWLINE] + rest) == [line] + CompleteLines(rest);
  }

  lemma KeptCons<E>(c: Codec<E>, line: Line, lines: seq<Line>)
    requires line != [] && c.parse(line).Some?
    ensures Kept(c, [line] + lines) == [line] + Kept(c, lines)
    ensures AllValid(c, [line] + lines) <==> AllValid(c, lines)
    ensures Unlines([line] + lines) == line + [NEWLINE] + Unlines(lines)
  {
    assert ([line] + lines)[1..] == lines;
  }

  lemma EntriesCons<E>(c: Codec<E>, line: Line, e: E, lines: seq<Line>)
    requires c.parse(line) == Some(e) && forall l | l in lines :: c.parse(l).Some?
    ensures forall l | l in [line] + lines :: c.parse(l).Some?
    ensures EntriesOf(c, [line] + lines) == [e] + EntriesOf(c, lines)
  {
  }

  lemma RepairCons<E>(c: Codec<E>, line: Line, e: E, rest: seq<Byte>)
    requires GoodLine(c, line, e)
    ensures Repaired(c, line + [NEWLINE] + rest) == line + [NEWLINE] + Repaired(c, rest)
    ensures Recovered(c, line + [NEWLINE] + rest) == [e] + Recovered(c, rest)
  {
    var lines := Candidates(c, rest);
    CandidatesCons(c, line, rest);
    KeptCons(c, line, lines);
    CandidatesPlain(c, rest);
    KeptParse(c, lines);
    EntriesCons(c, line, e, Kept(c, lines));
    KeptCons(c, line, Kept(c, lines));
  }

  /** A torn first line is dropped; one that lacks only its newline is kept. */
  lemma RepairTorn<E>(c: Codec<E>, line: Line, e: E, k: nat)
    requires GoodLine(c, line, e) && k <= |line|
    ensures Repaired(c, line[..k]) == if k < |line| then [] else line + [NEWLINE]
    ensures Recovered(c, line[..k]) == if k < |line| then [] else [e]
  {
    var content := line[..k];
    SplitNone(content, NEWLINE);
    assert CompleteLines(content) == [] && Trailing(content) == content;
    if k == |line| {
      assert content == line;
      assert Candidates(c, content) == [line];
      assert Kept(c, [line]) == [line] by { assert [line][1..] == []; }
      assert Unlines([line]) == line + [NEWLINE] by { assert [line][1..] == []; }
    } else {
      assert Candidates(c, content) == [];
    }
  }

  /**
   Crash recovery: whatever prefix of a transcript's bytes survives, repair restores the file that holds
   exactly the entries wholly present in that prefix.
   */
  lemma {:induction false} CrashRecovery<E(!new)>(c: Codec<E>, es: seq<E>, k: nat)
    requires Lawful(c) && k <= |Serialize(c, es)|
    ensures Repaired(c, Serialize(c, es)[..k]) == Serialize(c, Whole(c, es, k))
    ensures Recovered(c, Serialize(c, es)[..k]) == Whole(c, es, k)
    decreases |es|
  {
    if es == [] {
      assert Printed(c, es) == [];
      assert Split<Byte>([], NEWLINE) == [[]];
      assert Candidates(c, []) == [];
    } else {
      var line, content, tail := c.stringify(es[0]), Serialize(c, es)[..k], Serialize(c, es[1..]);
      assert GoodLine(c, line, es[0]);
      SerializeCons(c, es);
      if k <= |line| {
        assert content == line[..k];
        RepairTorn(c, line, es[0], k);
        if k == |line| {
          assert Whole(c, es, k) == [es[0]];
          SerializeCons(c, [es[0]]);
        }
      } else {
        var rest := k - |line| - 1;
        assert content == line + [NEWLINE] + tail[..rest];
        CrashRecovery(c, es[1..], rest);
        RepairCons(c, line, es[0], tail[..rest]);
        SerializeCons(c, Whole(c, es, k));
      }
    }
  }

  /** What "wholly present" means: the longest run of entries whose lines fit, a last newline aside. */
  lemma {:induction false} WholeIsLongest<E>(c: Codec<E>, es: seq<E>, k: nat) returns (n: nat)
    ensures n <= |es| && Whole(c, es, k) == es[..n]
    ensures n > 0 ==> |Serialize(c, es[..n])| - 1 <= k
    ensures n < |es| ==> k < |Serialize(c, es[..n + 1])| - 1
    decreases |es|
  {
    if es == [] {
      n := 0;
    } else if k < |c.stringify(es[0])| {
      n := 0;
      SerializeCons(c, es[..1]);
    } else if k == |c.stringify(es[0])| {
      n := 1;
      SerializeCons(c, es[..1]);
      assert Whole(c, es[1..], -1) == [];
      if |es| > 1 {
        SerializeCons(c, es[..2]);
        SerializeCons(c, es[..2][1..]);
      }
    } else {
      var m := WholeIsLongest(c, es[1..], k - |c.stringify(es[0])| - 1);
      n := m + 1;
      assert es[..n][1..] == es[1..][..m];
      SerializeCons(c, es[..n]);
      if m < |es| - 1 {
        assert es[..n + 1][1..] == es[1..][..m + 1];
        SerializeCons(c, es[..n + 1]);
      }
      assert es[..n] == [es[0]] + es[1..][..m];
    }
  }

  lemma {:induction false} SerializeConcat<E>(c: Codec<E>, a: seq<E>, b: seq<E>)
    ensures Serialize(c, a + b) == Serialize(c, a) + Serialize(c, b)
    decreases |a|
  {
    if a == [] {
      assert a + b == b;
      assert Printed(c, a) == [];
    } else {
      SerializeCons(c, a);
      SerializeCons(c, a + b);
      assert (a + b)[1..] == a[1..] + b;
      SerializeConcat(c, a[1..], b);
    }
  }

  lemma {:induction false} WholeConcat<E>(c: Codec<E>, a: seq<E>, b: seq<E>, k: nat)
    requires |Serialize(c, a)| <= k
    ensures Whole(c, a + b, k) == a + Whole(c, b, k - |Serialize(c, a)|)
    decreases |a|
  {
    if a == [] {
      assert a + b == b;
      assert Printed(c, a) == [];
    } else {
      SerializeCons(c, a);
      WholeConcat(c, a[1..], b, k - |c.stringify(a[0])| - 1);
      assert (a + b)[1..] == a[1..] + b;
    }
  }

  /** A crash while a batch is appended loses none of the entries that were there before. */
  lemma TornAppendKeepsOldEntries<E(!new)>(c: Codec<E>, before: seq<E>, batch: seq<E>, k: nat)
    requires Lawful(c) && k <= |Serialize(c, batch)|
    ensures Recovered(c, Serialize(c, before) + Serialize(c, batch)[..k]) == before + Whole(c, batch, k)
  {
    var a, b := Serialize(c, before), Serialize(c, batch);
    SerializeConcat(c, before, batch);
    CrashRecovery(c, before + batch, |a| + k);
    assert (a + b)[..|a| + k] == a + b[..k];
    WholeConcat(c, before, batch, |a| + k);
  }

  // ---- Appending without a repair ----

  lemma {:induction false} ParseAllFails<E>(c: Codec<E>, good: seq<Line>, bad: Line, more: seq<Line>, number: nat)
    requires (forall l | l in good :: c.parse(l).Some?) && c.parse(bad).None?
    ensures ParseAll(c, good + [bad] + more, number) == InvalidLine(number + |good|)
  {
    var all := good + [bad] + more;
    if good != [] {
      assert all[0] == good[0] && all[0] in good && all[1..] == good[1..] + [bad] + more;
      ParseAllFails(c, good[1..], bad, more, number + 1);
    }
  }

  lemma {:induction false} KeptStops<E>(c: Codec<E>, good: seq<Line>, bad: Line, more: seq<Line>)
    requires (forall l | l in good :: l != [] && c.parse(l).Some?) && bad != [] && c.parse(bad).None?
    ensures Kept(c, good + [bad] + more) == good
  {
    var all := good + [bad] + more;
    if good != [] {
      assert all[0] == good[0] && all[0] in good && all[1..] == good[1..] + [bad] + more;
      assert forall l | l in good[1..] :: l in good;
      KeptStops(c, good[1..], bad, more);
    }
  }

  /** The file with an unfinished line to which entries were appended. */
  function AppendedTorn<E>(c: Codec<E>, before: seq<E>, e: E, k: nat, later: seq<E>): seq<Byte>
    requires k <= |c.stringify(e)|
  {
    Serialize(c, before) + c.stringify(e)[..k] + Serialize(c, later)
  }

  lemma AppendedTornIs<E>(c: Codec<E>, before: seq<E>, e: E, k: nat, later: seq<E>)
    requires k <= |c.stringify(e)| && later != []
    ensures AppendedTorn(c, before, e, k, later) ==
            Unlines(Printed(c, before)) + (Blend(c, e, k, later[0]) + [NEWLINE] + Unlines(Printed(c, later[1..])))
  {
    SerializeCons(c, later);
  }

  lemma SplitLines(lines: seq<Line>)
    requires forall l | l in lines :: NEWLINE !in l
    ensures Split(Unlines(lines), NEWLINE) == lines + [[]]
  {
    SplitUnlines(lines, []);
    assert Unlines(lines) + [] == Unlines(lines);
  }

  lemma SplitAround(lines: seq<Line>, line: Line, more: seq<Line>)
    requires NEWLINE !in line && (forall l | l in lines :: NEWLINE !in l) && forall l | l in more :: NEWLINE !in l
    ensures Split(Unlines(lines) + (line + [NEWLINE] + Unlines(more)), NEWLINE) == lines + [line] + more + [[]]
  {
    SplitUnlines(lines, line + [NEWLINE] + Unlines(more));
    SplitAt(line, NEWLINE, Unlines(more));
    SplitLines(more);
    Assoc([line], more, [[]]);
    Assoc(lines, [line] + more, [[]]);
    Assoc(lines, [line], more);
  }

  /** The first entry appended shares its line with what was left of the unfinished one. */
  lemma BlendedLines<E(!new)>(c: Codec<E>, before: seq<E>, e: E, k: nat, later: seq<E>)
    requires Lawful(c) && k <= |c.stringify(e)| && later != []
    ensures Split(AppendedTorn(c, before, e, k, later), NEWLINE) ==
            Printed(c, before) + [Blend(c, e, k, later[0])] + Printed(c, later[1..]) + [[]]
  {
    var blend := Blend(c, e, k, later[0]);
    PrintedLines(c, before);
    PrintedLines(c, later[1..]);
    assert GoodLine(c, c.stringify(e), e) && GoodLine(c, c.stringify(later[0]), later[0]);
    AppendedTornIs(c, before, e, k, later);
    SplitAround(Printed(c, before), blend, Printed(c, later[1..]));
  }

  /**
   Entries appended to a file whose last line is unfinished, or lacks its newline, are lost: the file cannot be read any
   more, and a repair brings back the entries before that line only.
   */
  lemma TornAppendLoses<E(!new)>(c: Codec<E>, before: seq<E>, e: E, k: nat, later: seq<E>)
    requires Lawful(c) && NeverBlends(c) && 0 < k <= |c.stringify(e)| && later != []
    ensures ReadContent(c, AppendedTorn(c, before, e, k, later)) == InvalidLine(|before| + 1)
    ensures Recovered(c, AppendedTorn(c, before, e, k, later)) == before
  {
    var content, blend := AppendedTorn(c, before, e, k, later), Blend(c, e, k, later[0]);
    var (good, more) := (Printed(c, before), Printed(c, later[1..]));
    PrintedLines(c, before);
    PrintedLines(c, later[1..]);
    BlendedLines(c, before, e, k, later);
    LinesOfTorn(c, content, good, blend, more);
    ParseAllFails(c, good, blend, more, 1);
    KeptStops(c, good, blend, more);
  }

  lemma LinesOfTorn<E>(c: Codec<E>, content: seq<Byte>, good: seq<Line>, blend: Line, more: seq<Line>)
    requires Split(content, NEWLINE) == good + [blend] + more + [[]]
    requires blend != [] && forall l | l in good + more :: l != []
    ensures NonEmpty(Split(content, NEWLINE)) == good + [blend] + more == Candidates(c, content)
  {
    var lines := good + [blend] + more;
    forall l | l in lines ensures l != [] {
      assert l == blend || l in good + more;
    }
    NonEmptyConcat(lines, [[]]);
    NonEmptyAll(lines);
    var last: seq<Line> := [[]];
    assert last[1..] == [] && NonEmpty(last) == [];
    assert lines + [] == lines;
    assert CompleteLines(content) == lines && Trailing(content) == [];
  }

  /** So an append keeps everything if and only if no part of a line is left unfinished; a repair makes sure of that. */
  lemma AppendKeepsAllIff<E(!new)>(c: Codec<E>, before: seq<E>, e: E, k: nat, later: seq<E>)
    requires Lawful(c) && NeverBlends(c) && k <= |c.stringify(e)| && later != []
    ensures Recovered(c, AppendedTorn(c, before, e, k, later)) == before + later <==> k == 0
    ensures ReadContent(c, AppendedTorn(c, before, e, k, later)) == Ok(before + later) <==> k == 0
  {
    if k == 0 {
      SerializeConcat(c, before, later);
      assert AppendedTorn(c, before, e, k, later) == Serialize(c, before + later);
      WholeFile(c, before + later);
    } else {
      TornAppendLoses(c, before, e, k, later);
    }
  }

  lemma WholeFile<E(!new)>(c: Codec<E>, es: seq<E>)
    requires Lawful(c)
    ensures ReadContent(c, Serialize(c, es)) == Ok(es) && Recovered(c, Serialize(c, es)) == es
  {
    var content := Serialize(c, es);
    PrintedLines(c, es);
    ParseAllValid(c, Printed(c, es), 1);
    CrashRecovery(c, es, |content|);
    assert content[..|content|] == content;
    WholeConcat(c, es, [], |content|);
    assert es + [] == es;
  }

  // ---- The store ----

  /** `isValidSessionId` */
  predicate ValidSessionId(id: string) {
    && Trim(id) != [] && '/' !in id && '\\' !in id
    && forall i | 0 <= i < |id| - 1 :: !(id[i] == '.' && id[i + 1] == '.')
  }

  /** A session id is accepted when it is not blank and contains no slash, no backslash and no two dots in a row. */
  lemma SessionIdIff(id: string)
    ensures ValidSessionId(id) <==>
            && !Blank(id)
            && !(exists a, b :: id == a + "/" + b) && !(exists a, b :: id == a + "\\" + b)
            && !(exists a, b :: id == a + ".." + b)
  {
    TrimBlank(id);
    ContainsIff(id, '/');
    ContainsIff(id, '\\');
    if i :| 0 <= i < |id| - 1 && id[i] == '.' && id[i + 1] == '.' {
      assert id == id[..i] + ".." + id[i + 2..];
    }
    if a, b :| id == a + ".." + b {
      assert id[|a|] == '.' && id[|a| + 1] == '.';
    }
  }

  lemma ContainsIff(s: string, c: char)
    ensures c in s <==> exists a, b :: s == a + [c] + b
  {
    if c in s {
      var i :| 0 <= i < |s| && s[i] == c;
      assert s == s[..i] + [c] + s[i + 1..];
    }
    if a, b :| s == a + [c] + b {
      assert s[|a|] == c;
    }
  }

  /** Reading fails with the number of the first line, of those that are not empty, that is not an entry. */
  lemma {:induction false} ParseFails<E>(c: Codec<E>, lines: seq<Line>, number: nat, n: nat)
    ensures ParseAll(c, lines, number) == InvalidLine(n) <==>
            && number <= n < number + |lines| && c.parse(lines[n - number]).None?
            && forall i | 0 <= i < n - number :: c.parse(lines[i]).Some?
  {
    if lines != [] && c.parse(lines[0]).Some? {
      ParseFails(c, lines[1..], number + 1, n);
      var r := ParseAll(c, lines[1..], number + 1);
      if n > number {
        assert n < number + |lines| ==> lines[1..][n - number - 1] == lines[n - number];
        assert forall i | 0 <= i < |lines| - 1 :: lines[1..][i] == lines[i + 1];
        if forall i | 0 <= i < n - number - 1 && i < |lines| - 1 :: c.parse(lines[1..][i]).Some? {
          forall i | 0 <= i < n - number && i < |lines| ensures c.parse(lines[i]).Some? {
            assert i > 0 ==> lines[1..][i - 1] == lines[i];
          }
        }
      }
    }
  }

  lemma {:induction false} KeptUpTo<E>(c: Codec<E>, lines: seq<Line>, n: nat)
    requires n <= |lines| && AllValid(c, lines[..n])
    requires n < |lines| ==> lines[n] != [] && c.parse(lines[n]).None?
    ensures Kept(c, lines) == NonEmpty(lines[..n])
    ensures AllValid(c, lines) <==> n == |lines|
  {
    if n == 0 {
      if lines != [] { assert lines[0] in lines; }
    } else {
      assert lines[..n][0] == lines[0] && lines[..n][1..] == lines[1..][..n - 1];
      assert lines[0] in lines[..n];
      assert forall l | l in lines[1..][..n - 1] :: l in lines[..n];
      KeptUpTo(c, lines[1..], n - 1);
      assert forall l :: l in lines <==> l == lines[0] || l in lines[1..];
    }
  }

  lemma {:induction false} JoinUnlines(lines: seq<Line>)
    requires lines != []
    ensures Join(lines, [NEWLINE]) + [NEWLINE] == Unlines(lines)
  {
    if |lines| == 1 {
      assert lines[1..] == [];
    } else {
      JoinUnlines(lines[1..]);
      Assoc(lines[0] + [NEWLINE], Join(lines[1..], [NEWLINE]), [NEWLINE]);
    }
  }

  /** `createRepairPlan` */
  method CreateRepairPlan<E>(c: Codec<E>, content: seq<Byte>) returns (repaired: seq<Byte>, changed: bool)
    ensures changed == NeedsRepair(c, content) && repaired == Repaired(c, content)
  {
    var segments := Split(content, NEWLINE);
    var candidateLines := segments[..|segments| - 1];
    var trailingSegment := segments[|segments| - 1];
    changed := false;
    if trailingSegment != [] {
      changed := true;
      if c.parse(trailingSegment).Some? {
        candidateLines := candidateLines + [trailingSegment];
      }
    }
    assert candidateLines == Candidates(c, content);
    var lastValidIndex := |candidateLines|;
    for index := 0 to |candidateLines|
      invariant lastValidIndex == |candidateLines|
      invariant AllValid(c, candidateLines[..index])
    {
      var line := candidateLines[index];
      assert candidateLines[..index + 1] == candidateLines[..index] + [line];
      if line == [] {
        continue;
      }
      if c.parse(line).None? {
        lastValidIndex := index;
        break;
      }
    }
    assert candidateLines[..|candidateLines|] == candidateLines;
    KeptUpTo(c, candidateLines, lastValidIndex);
    changed := changed || lastValidIndex < |candidateLines|;
    if !changed {
      return content, false;
    }
    var repairedLines := NonEmpty(candidateLines[..lastValidIndex]);
    if repairedLines != [] {
      JoinUnlines(repairedLines);
      repaired := Join(repairedLines, [NEWLINE]) + [NEWLINE];
    } else {
      repaired := [];
    }
  }

  /** An empty file reads as no entries and needs no repair. */
  lemma EmptyFile<E>(c: Codec<E>)
    ensures ReadContent(c, []) == Ok([]) && !NeedsRepair(c, [])
  {
    var lines := Split<Byte>([], NEWLINE);
    assert lines == [[]] && lines[1..] == [];
    assert NonEmpty(lines) == [];
    assert CompleteLines([]) == [] && Trailing([]) == [];
    assert Candidates(c, []) == [];
  }

  function Prepend<E>(es: seq<E>, r: Result<seq<E>>): Result<seq<E>> {
    if r.Ok? then Ok(es + r.value) else r
  }

  /** `parseLines` */
  method ParseLines<E>(c: Codec<E>, content: seq<Byte>) returns (r: Result<seq<E>>)
    ensures r == ReadContent(c, content)
  {
    var lines := NonEmpty(Split(content, NEWLINE));
    var entries: seq<E> := [];
    ghost var all := ParseAll(c, lines, 1);
    assert lines[0..] == lines && (all.Ok? ==> [] + all.value == all.value);
    for index := 0 to |lines|
      invariant all == Prepend(entries, ParseAll(c, lines[index..], index + 1))
    {
      var parsed := c.parse(lines[index]);
      if parsed.None? {
        return InvalidLine(index + 1);
      }
      assert lines[index..][1..] == lines[index + 1..];
      ghost var rest := ParseAll(c, lines[index + 1..], index + 2);
      if rest.Ok? { Assoc(entries, [parsed.value], rest.value); }
      entries := entries + [parsed.value];
    }
    assert entries + [] == entries;
    r := Ok(entries);
  }

  class TranscriptStore<!E(!new)> {
    const codec: Codec<E>
    /** The transcript files by session id. */
    var files: map<string, seq<Byte>>

    ghost function Content(id: string): seq<Byte>
      reads this
    {
      if id in files then files[id] else []
    }

    constructor (codec: Codec<E>)
      ensures this.codec == codec && files == map[]
    {
      this.codec, files := codec, map[];
    }

    method AppendBatch(id: string, entries: seq<E>) returns (ok: bool)
      modifies this
      ensures ok == (entries == [] || ValidSessionId(id))
      ensures files == if entries == [] || !ok then old(files)
                       else old(files)[id := old(Content(id)) + Serialize(codec, entries)]
    {
      if |entries| == 0 {
        return true;
      }
      if !ValidSessionId(id) {
        return false;
      }
      var payload := Serialize(codec, entries);
      files := files[id := (if id in files then files[id] else []) + payload];
      ok := true;
    }

    method Read(id: string) returns (r: Result<seq<E>>)
      ensures r == if ValidSessionId(id) then ReadContent(codec, Content(id)) else InvalidSession
    {
      if !ValidSessionId(id) {
        return InvalidSession;
      }
      if id !in files {
        EmptyFile(codec);
        return Ok([]);
      }
      r := ParseLines(codec, files[id]);
    }

    method ReadTail(id: string, count: int) returns (r: Result<seq<E>>)
      ensures count <= 0 ==> r == Ok([])
      ensures count > 0 && !ValidSessionId(id) ==> r == InvalidSession
      ensures count > 0 && ValidSessionId(id) ==>
                match ReadContent(codec, Content(id))
                case Ok(all) => r.Ok? && r.value == all[if |all| <= count then 0 else |all| - count..]
                case error => r == error
    {
      if count <= 0 {
        return Ok([]);
      }
      r := Read(id);
      if r.Ok? && |r.value| > count {
        r := Ok(r.value[|r.value| - count..]);
      }
    }

    /** `repair`; the result says whether the file was rewritten. */
    method Repair(id: string) returns (r: Result<bool>)
      modifies this
      ensures !ValidSessionId(id) ==> r == InvalidSession && files == old(files)
      ensures ValidSessionId(id) ==>
                && r == Ok(NeedsRepair(codec, old(Content(id))))
                && Content(id) == Repaired(codec, old(Content(id)))
                && files == if id in old(files) then old(files)[id := Content(id)] else old(files)
    {
      if !ValidSessionId(id) {
        return InvalidSession;
      }
      if id !in files || |files[id]| == 0 {
        EmptyFile(codec);
        return Ok(false);
      }
      var content, changed := CreateRepairPlan(codec, files[id]);
      if changed {
        files := files[id := content];
      }
      r := Ok(changed);
    }
  }
}