/** What the pieces of a JSON5 text are, said of the characters themselves. */
module JsonPieces {
  import opened Text
  import opened Json5

  // ---- Where pieces end ----

  /** A line comment goes on to the next line break. */
  lemma {:induction false} LineEndMeans(t: string)
    ensures '\n' !in t[..LineEnd(t)] && (LineEnd(t) < |t| ==> t[LineEnd(t)] == '\n')
  {
    if t != [] && t[0] != '\n' {
      LineEndMeans(t[1..]);
      assert t[..LineEnd(t)] == [t[0]] + t[1..][..LineEnd(t[1..])];
    }
  }

  /** The two characters that close a block comment stand at this place. */
  predicate ClosesAt(t: string, k: int) {
    0 <= k < |t| - 1 && t[k] == '*' && t[k + 1] == '/'
  }

  /** A block comment goes on to the first place at which it is closed, or to the end of the text. */
  lemma {:induction false} BlockEndMeans(t: string)
    ensures BlockClosed(t) <==> exists k :: ClosesAt(t, k)
    ensures BlockClosed(t) ==> ClosesAt(t, BlockEnd(t) - 2) && forall k | k < BlockEnd(t) - 2 :: !ClosesAt(t, k)
    ensures !BlockClosed(t) ==> BlockEnd(t) == |t|
  {
    if |t| >= 2 && !(t[0] == '*' && t[1] == '/') {
      BlockEndMeans(t[1..]);
      forall k ensures ClosesAt(t, k) <==> ClosesAt(t[1..], k - 1) {
      }
      if BlockClosed(t[1..]) {
        assert ClosesAt(t, BlockEnd(t[1..]) - 2 + 1);
      }
    } else if |t| >= 2 {
      assert ClosesAt(t, 0);
    }
  }

  /** A string's characters before its closing quote: backslashes come with the character that they escape. */
  predicate Inside(s: string, quote: char) {
    s == [] || (s[0] == '\\' && |s| >= 2 && Inside(s[2..], quote)) ||
    (s[0] != '\\' && s[0] != quote && Inside(s[1..], quote))
  }

  /** The first quote that is not escaped. */
  predicate ClosingQuote(t: string, quote: char, k: int) {
    0 <= k < |t| && t[k] == quote && Inside(t[..k], quote)
  }

  lemma ClosingQuoteSkips(t: string, quote: char, k: int)
    requires t != [] && quote != '\\'
    ensures t[0] == '\\' ==> (ClosingQuote(t, quote, k) <==> |t| > 1 && ClosingQuote(t[2..], quote, k - 2))
    ensures t[0] == quote ==> (ClosingQuote(t, quote, k) <==> k == 0)
    ensures t[0] != '\\' && t[0] != quote ==> (ClosingQuote(t, quote, k) <==> ClosingQuote(t[1..], quote, k - 1))
  {
    if 0 < k < |t| {
      assert t[..k][0] == t[0] && t[..k][1..] == t[1..][..k - 1];
      if k > 1 {
        assert t[..k][2..] == t[2..][..k - 2];
      }
    }
  }

  /** A string goes on to the first quote like its own that is not escaped, or to the end of the text. */
  lemma {:induction false} StringEndMeans(t: string, quote: char)
    requires quote != '\\'
    ensures StringClosed(t, quote) <==> exists k :: ClosingQuote(t, quote, k)
    ensures StringClosed(t, quote) ==> ClosingQuote(t, quote, StringEnd(t, quote) - 1)
    ensures !StringClosed(t, quote) ==> StringEnd(t, quote) == |t|
    decreases |t|
  {
    if t != [] {
      forall k ensures t[0] == quote ==> (ClosingQuote(t, quote, k) <==> k == 0)
               ensures t[0] == '\\' ==> (ClosingQuote(t, quote, k) <==> |t| > 1 && ClosingQuote(t[2..], quote, k - 2))
               ensures t[0] != '\\' && t[0] != quote ==>
                         (ClosingQuote(t, quote, k) <==> ClosingQuote(t[1..], quote, k - 1))
      {
        ClosingQuoteSkips(t, quote, k);
      }
      if t[0] == '\\' {
        if |t| > 1 {
          StringEndMeans(t[2..], quote);
          Shifted(t[2..], t, quote, 2);
        }
      } else if t[0] == quote {
        assert ClosingQuote(t, quote, 0);
      } else {
        StringEndMeans(t[1..], quote);
        Shifted(t[1..], t, quote, 1);
      }
    }
  }

  lemma Shifted(rest: string, t: string, quote: char, n: nat)
    requires forall k :: ClosingQuote(t, quote, k) <==> ClosingQuote(rest, quote, k - n)
    ensures (exists k :: ClosingQuote(t, quote, k)) <==> exists k :: ClosingQuote(rest, quote, k)
  {
    if k :| ClosingQuote(rest, quote, k) {
      assert ClosingQuote(rest, quote, (k + n) - n);
      assert ClosingQuote(t, quote, k + n);
    }
  }

  // ---- What pieces there are ----

  /** A text begins with a string, a comment, where they are looked for, or a character that stands alone. */
  lemma FirstPieceMeans(t: string, comments: bool)
    requires t != []
    ensures var p := FirstPiece(t, comments);
            && (p.Quoted? <==> t[0] == '"' || t[0] == '\'')
            && (p.LineComment? <==> comments && "//" <= t)
            && (p.BlockComment? <==> comments && "/*" <= t)
            && (p.Plain? ==> p.c == t[0])
  {
    assert "//" <= t <==> |t| >= 2 && t[0] == '/' && t[1] == '/';
    assert "/*" <= t <==> |t| >= 2 && t[0] == '/' && t[1] == '*';
  }

  predicate Kept(p: Piece) {
    !p.LineComment? && !p.BlockComment?
  }

  /** The code is everything but the comments. */
  lemma {:induction false} CodeMeans(ps: seq<Piece>)
    ensures Code(ps) == Where(Kept, ps)
  {
    if ps != [] {
      CodeMeans(ps[1..]);
      WhereFirst(Kept, ps);
    }
  }

  /** White space, if any, and then a closing brace or bracket. */
  ghost predicate BeforeClosing(next: string) {
    exists gap, rest :: Blank(gap) && (next == gap + "}" + rest || next == gap + "]" + rest)
  }

  lemma GapStarts(gap: string, bracket: string, rest: string)
    requires Blank(gap)
    ensures gap == [] || IsSpace((gap + bracket + rest)[0])
  {
    if gap != [] {
      assert gap[0] in gap;
    }
  }

  lemma {:induction false} VisibleMeans(next: string)
    ensures Closes(FirstVisible(next)) <==> BeforeClosing(next)
  {
    if next == [] {
      return;
    }
    if IsSpace(next[0]) {
      VisibleMeans(next[1..]);
      if gap, rest :| Blank(gap) && (next[1..] == gap + "}" + rest || next[1..] == gap + "]" + rest) {
        assert next == [next[0]] + next[1..];
        assert Blank([next[0]] + gap);
        assert next == [next[0]] + gap + "}" + rest || next == [next[0]] + gap + "]" + rest;
      }
      if gap, rest :| Blank(gap) && (next == gap + "}" + rest || next == gap + "]" + rest) {
        assert gap != [] && gap[0] == next[0];
        assert next[1..] == gap[1..] + "}" + rest || next[1..] == gap[1..] + "]" + rest;
        assert Blank(gap[1..]);
      }
    } else {
      if next[0] == '}' || next[0] == ']' {
        assert Blank("");
        assert next == "" + "}" + next[1..] || next == "" + "]" + next[1..];
      }
      if gap, rest :| Blank(gap) && (next == gap + "}" + rest || next == gap + "]" + rest) {
        GapStarts(gap, "}", rest);
        GapStarts(gap, "]", rest);
      }
    }
  }

  /** A comma is dropped exactly when nothing but white space separates it from a closing brace or bracket. */
  lemma CommaMeans(p: Piece, rest: seq<Piece>)
    ensures DropCommas([p] + rest) ==
            (if p == Plain(',') && BeforeClosing(Render(rest)) then [] else [p]) + DropCommas(rest)
  {
    VisibleMeans(Render(rest));
    assert ([p] + rest)[1..] == rest;
  }
}
