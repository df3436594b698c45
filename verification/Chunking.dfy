/**
 Cutting a chat message into chunks a platform accepts: at line breaks where there are some, at spaces otherwise.
 */
module Chunking {
  import opened Text

  /** `s.lastIndexOf(c, from)` */
  function LastIndexOf(s: string, c: char, from: int): (i: int)
    requires from < |s|
    ensures -1 <= i <= from || from < 0
    ensures i >= 0 ==> i < |s| && s[i] == c
    decreases from + 1
  {
    if from < 0 then -1 else if s[from] == c then from else LastIndexOf(s, c, from - 1)
  }

  lemma {:induction false} LastIndexIsLast(s: string, c: char, from: int, k: nat)
    requires from < |s| && k <= from && s[k] == c
    ensures k <= LastIndexOf(s, c, from)
    decreases from + 1
  {
    if s[from] != c {
      LastIndexIsLast(s, c, from - 1, k);
    }
  }

  /** Whether a cut at `i` is past the start and leaves at least half a chunk. */
  predicate GoodCut(i: int, maxLength: nat) {
    i > 0 && 2 * i >= maxLength
  }

  /** Where a text longer than a chunk is cut. */
  function SplitIndex(text: string, maxLength: nat): (n: nat)
    requires 1 <= maxLength < |text|
    ensures 1 <= n <= maxLength && 2 * n >= maxLength
  {
    var line := LastIndexOf(text, '\n', maxLength);
    var word := LastIndexOf(text, ' ', maxLength);
    if GoodCut(line, maxLength) then line else if GoodCut(word, maxLength) then word else maxLength
  }

  /** `replace(/^\n/, "")` */
  function DropNewline(text: string): string {
    if StartsWithNewline(text) then text[1..] else text
  }

  predicate StartsWithNewline(text: string) {
    text != [] && text[0] == '\n'
  }

  function Pieces(text: string, maxLength: nat): seq<string>
    requires maxLength >= 1
    decreases |text|
  {
    if text == [] then []
    else if |text| <= maxLength then [text]
    else
      var n := SplitIndex(text, maxLength);
      [text[..n]] + Pieces(DropNewline(text[n..]), maxLength)
  }

  function Chunks(text: string, maxLength: nat): seq<string>
    requires maxLength >= 1
  {
    if |text| <= maxLength then [text] else Pieces(text, maxLength)
  }

  /** `chunkTelegramMessage` and `chunkDiscordMessage`, which differ only in the default of `maxLength`. */
  method ChunkMessage(text: string, maxLength: nat) returns (chunks: seq<string>)
    requires maxLength >= 1
    ensures chunks == Chunks(text, maxLength)
  {
    if |text| <= maxLength {
      return [text];
    }
    chunks := [];
    var remaining := text;
    while |remaining| > 0
      invariant chunks + Pieces(remaining, maxLength) == Pieces(text, maxLength)
      decreases |remaining|
    {
      if |remaining| <= maxLength {
        chunks := chunks + [remaining];
        break;
      }
      var splitIndex := LastIndexOf(remaining, '\n', maxLength);
      if splitIndex <= 0 || 2 * splitIndex < maxLength {
        splitIndex := LastIndexOf(remaining, ' ', maxLength);
      }
      if splitIndex <= 0 || 2 * splitIndex < maxLength {
        splitIndex := maxLength;
      }
      assert splitIndex == SplitIndex(remaining, maxLength);
      Assoc(chunks, [remaining[..splitIndex]], Pieces(DropNewline(remaining[splitIndex..]), maxLength));
      chunks := chunks + [remaining[..splitIndex]];
      remaining := DropNewline(remaining[splitIndex..]);
    }
  }

  /** A cut is made at the last line break of the second half of the chunk, else at the last space, else at the end. */
  lemma CutsAtBestPlace(text: string, maxLength: nat, i: nat)
    requires 1 <= maxLength < |text| && i <= maxLength && GoodCut(i, maxLength)
    ensures var n := SplitIndex(text, maxLength);
            && (text[i] == '\n' ==> text[n] == '\n' && i <= n)
            && (text[i] == ' ' ==> text[n] == '\n' || (text[n] == ' ' && i <= n))
            && (n == maxLength || text[n] == '\n' || text[n] == ' ')
  {
    if text[i] == '\n' || text[i] == ' ' {
      LastIndexIsLast(text, text[i], maxLength, i);
    }
  }

  /** The chunks put together again, with a newline restored after the chunks that `lost` names. */
  function Rejoin(chunks: seq<string>, lost: seq<bool>): string
    requires |chunks| == |lost|
  {
    if chunks == [] then [] else chunks[0] + (if lost[0] then "\n" else "") + Rejoin(chunks[1..], lost[1..])
  }

  lemma {:induction false} PiecesRejoin(text: string, maxLength: nat) returns (lost: seq<bool>)
    requires maxLength >= 1
    ensures |lost| == |Pieces(text, maxLength)| && text == Rejoin(Pieces(text, maxLength), lost)
    decreases |text|
  {
    if text == [] {
      lost := [];
    } else if |text| <= maxLength {
      lost := [false];
      OneChunk(text);
    } else {
      var n := SplitIndex(text, maxLength);
      var tail := PiecesRejoin(DropNewline(text[n..]), maxLength);
      lost := [StartsWithNewline(text[n..])] + tail;
      CutRestored(text, n, Pieces(DropNewline(text[n..]), maxLength), tail);
    }
  }

  lemma OneChunk(text: string)
    ensures Rejoin([text], [false]) == text
  {
    assert [text][1..] == [] && [false][1..] == [];
  }

  lemma CutRestored(text: string, n: nat, rest: seq<string>, tail: seq<bool>)
    requires n <= |text| && |tail| == |rest| && DropNewline(text[n..]) == Rejoin(rest, tail)
    ensures Rejoin([text[..n]] + rest, [StartsWithNewline(text[n..])] + tail) == text
  {
    var chunks, lost := [text[..n]] + rest, [StartsWithNewline(text[n..])] + tail;
    assert chunks[1..] == rest && lost[1..] == tail;
    var newline := if StartsWithNewline(text[n..]) then "\n" else "";
    assert newline + DropNewline(text[n..]) == text[n..];
    Assoc(text[..n], newline, DropNewline(text[n..]));
    assert text[..n] + text[n..] == text;
  }

  lemma {:induction false} PieceSizes(text: string, maxLength: nat, i: nat)
    requires maxLength >= 1 && i < |Pieces(text, maxLength)|
    ensures var pieces := Pieces(text, maxLength);
            1 <= |pieces[i]| <= maxLength && (i < |pieces| - 1 ==> 2 * |pieces[i]| >= maxLength)
    decreases |text|
  {
    if |text| > maxLength {
      var n := SplitIndex(text, maxLength);
      var rest := Pieces(DropNewline(text[n..]), maxLength);
      var pieces := Pieces(text, maxLength);
      assert pieces == [text[..n]] + rest && pieces[0] == text[..n];
      if i > 0 {
        PieceSizes(DropNewline(text[n..]), maxLength, i - 1);
        assert pieces[i] == rest[i - 1];
      }
    }
  }

  lemma {:induction false} PieceCount(text: string, maxLength: nat)
    requires maxLength >= 1
    ensures (|Pieces(text, maxLength)| - 1) * maxLength <= 2 * |text|
    decreases |text|
  {
    if |text| > maxLength {
      var n := SplitIndex(text, maxLength);
      var rest := DropNewline(text[n..]);
      PieceCount(rest, maxLength);
      OneMore(|Pieces(rest, maxLength)|, maxLength, |rest|, |text|, n);
    }
  }

  lemma OneMore(count: nat, maxLength: nat, rest: nat, all: nat, n: nat)
    requires (count - 1) * maxLength <= 2 * rest && rest + n <= all && 2 * n >= maxLength
    ensures count * maxLength <= 2 * all
  {
    assert count * maxLength == (count - 1) * maxLength + maxLength;
  }

  /**
   For every text and every positive limit: no chunk is longer than the limit; every chunk but the last is at
   least half as long, so there are at most `2 * |text| / maxLength + 1` of them; and the text is the chunks
   put together, with at most one newline restored after each.
   */
  lemma ChunksSound(text: string, maxLength: nat) returns (lost: seq<bool>)
    requires maxLength >= 1
    ensures var chunks := Chunks(text, maxLength);
            && (forall c | c in chunks :: |c| <= maxLength)
            && (forall i | 0 <= i < |chunks| - 1 :: 2 * |chunks[i]| >= maxLength)
            && (|chunks| - 1) * maxLength <= 2 * |text|
            && |lost| == |chunks| && text == Rejoin(chunks, lost)
  {
    if |text| <= maxLength {
      lost := [false];
      OneChunk(text);
    } else {
      lost := PiecesRejoin(text, maxLength);
      PieceCount(text, maxLength);
      forall i | 0 <= i < |Pieces(text, maxLength)|
        ensures |Pieces(text, maxLength)[i]| <= maxLength
        ensures i < |Pieces(text, maxLength)| - 1 ==> 2 * |Pieces(text, maxLength)[i]| >= maxLength
      {
        PieceSizes(text, maxLength, i);
      }
    }
  }

  /** A good place for a cut at this character. */
  predicate GoodPlace(text: string, maxLength: nat, c: char, i: nat) {
    0 < i < |text| && i <= maxLength && 2 * i >= maxLength && text[i] == c
  }

  /** The last good place for a cut at this character. */
  predicate LastPlace(text: string, maxLength: nat, c: char, n: nat) {
    GoodPlace(text, maxLength, c, n) && forall i | n < i < |text| :: !GoodPlace(text, maxLength, c, i)
  }

  /** The place to cut: the last good line break, else the last good space, else the limit. */
  predicate BestPlace(text: string, maxLength: nat, n: nat) {
    || LastPlace(text, maxLength, '\n', n)
    || ((forall i | 0 <= i < |text| :: !GoodPlace(text, maxLength, '\n', i)) && LastPlace(text, maxLength, ' ', n))
    || ((forall i | 0 <= i < |text| :: !GoodPlace(text, maxLength, '\n', i) && !GoodPlace(text, maxLength, ' ', i))
        && n == maxLength)
  }

  lemma LastIndexPlace(text: string, maxLength: nat, c: char)
    requires 1 <= maxLength < |text|
    ensures var i := LastIndexOf(text, c, maxLength);
            if GoodCut(i, maxLength) then LastPlace(text, maxLength, c, i)
            else forall k | 0 <= k < |text| :: !GoodPlace(text, maxLength, c, k)
  {
    forall k | 0 <= k < |text| && GoodPlace(text, maxLength, c, k) ensures k <= LastIndexOf(text, c, maxLength) {
      LastIndexIsLast(text, c, maxLength, k);
    }
  }

  /**
   A text that is too long is cut at the best place; of the rest one line break in front is dropped, and it is cut in
   the same way. Nothing is sent for an empty rest.
   */
  lemma ChunksStep(text: string, maxLength: nat) returns (n: nat)
    requires 1 <= maxLength < |text|
    ensures 0 < n < |text| && BestPlace(text, maxLength, n)
    ensures var rest := if text[n] == '\n' then text[n + 1..] else text[n..];
            Chunks(text, maxLength) == [text[..n]] + if rest == "" then [] else Chunks(rest, maxLength)
  {
    LastIndexPlace(text, maxLength, '\n');
    LastIndexPlace(text, maxLength, ' ');
    n := SplitIndex(text, maxLength);
    var rest := if text[n] == '\n' then text[n + 1..] else text[n..];
    assert DropNewline(text[n..]) == rest;
    assert Pieces(text, maxLength) == [text[..n]] + Pieces(rest, maxLength);
    assert Pieces(rest, maxLength) == if rest == "" then [] else Chunks(rest, maxLength);
  }
}
