/** Removing JSON5 comments and trailing commas, character by character, against a piecewise reading. */
module Json5 {
  import opened Text

  /** A text is a sequence of pieces; comments and strings are kept with their delimiters. */
  datatype Piece = Plain(c: char) | Quoted(text: string) | LineComment(text: string) | BlockComment(text: string)

  predicate IsQuote(c: char) {
    c == '"' || c == '\''
  }

  // ---- Where comments and strings end ----

  /** The number of characters before the first newline. */
  function LineEnd(t: string): (n: nat)
    ensures n <= |t|
  {
    if t == [] || t[0] == '\n' then 0 else 1 + LineEnd(t[1..])
  }

  /** The number of characters up to and including the first closing delimiter, or all of them. */
  function BlockEnd(t: string): (n: nat)
    ensures n <= |t|
  {
    if |t| < 2 then |t| else if t[0] == '*' && t[1] == '/' then 2 else 1 + BlockEnd(t[1..])
  }

  predicate BlockClosed(t: string) {
    |t| >= 2 && ((t[0] == '*' && t[1] == '/') || BlockClosed(t[1..]))
  }

  /** The number of characters up to and including the first unescaped quote, or all of them. */
  function StringEnd(t: string, quote: char): (n: nat)
    ensures n <= |t|
  {
    if t == [] then 0
    else if t[0] == '\\' then (if |t| == 1 then 1 else 2 + StringEnd(t[2..], quote))
    else if t[0] == quote then 1
    else 1 + StringEnd(t[1..], quote)
  }

  predicate StringClosed(t: string, quote: char) {
    if t == [] then false
    else if t[0] == '\\' then |t| > 1 && StringClosed(t[2..], quote)
    else t[0] == quote || StringClosed(t[1..], quote)
  }

  lemma {:induction false} BlockEndLocal(t: string, more: string)
    ensures BlockClosed(t) ==> BlockEnd(t + more) == BlockEnd(t)
    ensures BlockClosed(t[..BlockEnd(t)]) || BlockEnd(t) == |t|
    ensures BlockEnd(t[..BlockEnd(t)]) == BlockEnd(t)
  {
    if |t| >= 2 && !(t[0] == '*' && t[1] == '/') {
      BlockEndLocal(t[1..], more);
      assert (t + more)[1..] == t[1..] + more;
      assert t[..BlockEnd(t)][1..] == t[1..][..BlockEnd(t[1..])];
    }
  }

  lemma {:induction false} StringEndLocal(t: string, quote: char, more: string)
    ensures StringClosed(t, quote) ==> StringEnd(t + more, quote) == StringEnd(t, quote)
    ensures StringClosed(t[..StringEnd(t, quote)], quote) || StringEnd(t, quote) == |t|
    ensures StringEnd(t[..StringEnd(t, quote)], quote) == StringEnd(t, quote)
  {
    if t != [] {
      var skip := if t[0] == '\\' then 2 else 1;
      if (t[0] == '\\' || t[0] != quote) && |t| >= skip {
        var rest := t[skip..];
        var n := StringEnd(rest, quote);
        StringEndLocal(rest, quote, more);
        assert StringEnd(t, quote) == skip + n;
        assert (t + more)[skip..] == rest + more && (t + more)[0] == t[0];
        assert t[..skip + n][skip..] == rest[..n] && t[..skip + n][0] == t[0];
      }
    }
  }

  lemma {:induction false} LineEndLocal(t: string, more: string)
    ensures '\n' !in t && (more == [] || more[0] == '\n') ==> LineEnd(t + more) == |t|
    ensures '\n' !in t[..LineEnd(t)] && (LineEnd(t) == |t| || t[LineEnd(t)] == '\n')
  {
    if t == [] {
      assert t + more == more;
    } else {
      LineEndLocal(t[1..], more);
      assert (t + more)[1..] == t[1..] + more;
      if t[0] != '\n' {
        assert t[..LineEnd(t)] == [t[0]] + t[1..][..LineEnd(t[1..])];
      }
    }
  }

  // ---- Texts as pieces ----

  /** The length of the first piece of a non-empty text; comments are recognised only if asked for. */
  function FirstPiece(t: string, comments: bool): (p: Piece)
    requires t != []
    ensures 1 <= |RenderOne(p)| <= |t| && RenderOne(p) == t[..|RenderOne(p)|]
  {
    if IsQuote(t[0]) then Quoted(t[..1 + StringEnd(t[1..], t[0])])
    else if comments && |t| >= 2 && t[0] == '/' && t[1] == '/' then LineComment(t[..2 + LineEnd(t[2..])])
    else if comments && |t| >= 2 && t[0] == '/' && t[1] == '*' then BlockComment(t[..2 + BlockEnd(t[2..])])
    else Plain(t[0])
  }

  function RenderOne(p: Piece): string {
    match p case Plain(c) => [c] case Quoted(t) => t case LineComment(t) => t case BlockComment(t) => t
  }

  function Lex(t: string, comments: bool): seq<Piece>
    decreases |t|
  {
    if t == [] then []
    else var p := FirstPiece(t, comments); [p] + Lex(t[|RenderOne(p)|..], comments)
  }

  function Render(ps: seq<Piece>): string {
    if ps == [] then [] else RenderOne(ps[0]) + Render(ps[1..])
  }

  /** The piece is complete and what follows it cannot be mistaken for a part of it. */
  predicate PieceOk(p: Piece, next: string, comments: bool) {
    match p
    case Plain(c) => !IsQuote(c) && (comments && c == '/' ==> next == [] || (next[0] != '/' && next[0] != '*'))
    case Quoted(t) =>
      && t != [] && IsQuote(t[0]) && 1 + StringEnd(t[1..], t[0]) == |t|
      && (StringClosed(t[1..], t[0]) || next == [])
    case LineComment(t) =>
      comments && |t| >= 2 && t[0] == t[1] == '/' && '\n' !in t && (next == [] || next[0] == '\n')
    case BlockComment(t) =>
      && comments && |t| >= 2 && t[0] == '/' && t[1] == '*' && 2 + BlockEnd(t[2..]) == |t|
      && (BlockClosed(t[2..]) || next == [])
  }

  predicate WellFormed(ps: seq<Piece>, comments: bool) {
    ps == [] || (PieceOk(ps[0], Render(ps[1..]), comments) && WellFormed(ps[1..], comments))
  }

  lemma FirstPieceOk(t: string, comments: bool)
    requires t != []
    ensures PieceOk(FirstPiece(t, comments), t[|RenderOne(FirstPiece(t, comments))|..], comments)
  {
    var p := FirstPiece(t, comments);
    match p {
      case Quoted(s) =>
        StringEndLocal(t[1..], t[0], []);
        assert s[1..] == t[1..][..StringEnd(t[1..], t[0])];
      case LineComment(s) =>
        LineEndLocal(t[2..], []);
        assert s == ['/', '/'] + t[2..][..LineEnd(t[2..])];
      case BlockComment(s) =>
        BlockEndLocal(t[2..], []);
        assert s[2..] == t[2..][..BlockEnd(t[2..])];
      case Plain(c) =>
    }
  }

  lemma PieceRead(p: Piece, next: string, comments: bool)
    requires PieceOk(p, next, comments)
    ensures FirstPiece(RenderOne(p) + next, comments) == p
  {
    var s, t := RenderOne(p), RenderOne(p) + next;
    var k := if p.Plain? || p.Quoted? then 1 else 2;
    Append(s, next, k);
    assert next == [] ==> s[k..] + next == s[k..];
    match p {
      case Quoted(_) => StringEndLocal(s[1..], s[0], next);
      case LineComment(_) => LineEndLocal(s[2..], next);
      case BlockComment(_) => BlockEndLocal(s[2..], next);
      case Plain(_) =>
    }
  }

  /** Every text is the rendering of the well-formed pieces it is read as. */
  lemma {:induction false} RenderLex(t: string, comments: bool)
    ensures Render(Lex(t, comments)) == t
    ensures WellFormed(Lex(t, comments), comments)
    decreases |t|
  {
    if t != [] {
      var p := FirstPiece(t, comments);
      var rest := t[|RenderOne(p)|..];
      RenderLex(rest, comments);
      FirstPieceOk(t, comments);
      assert Lex(t, comments)[1..] == Lex(rest, comments);
      assert RenderOne(p) + rest == t;
    }
  }

  lemma LexFirst(p: Piece, next: string, comments: bool)
    requires PieceOk(p, next, comments)
    ensures Lex(RenderOne(p) + next, comments) == [p] + Lex(next, comments)
  {
    PieceRead(p, next, comments);
    Append(RenderOne(p), next, 0);
    assert RenderOne(p) != [];
  }

  /** Well-formed pieces are read back from their rendering. */
  lemma {:induction false} LexRender(ps: seq<Piece>, comments: bool)
    requires WellFormed(ps, comments)
    ensures Lex(Render(ps), comments) == ps
  {
    if ps != [] {
      LexRender(ps[1..], comments);
      LexFirst(ps[0], Render(ps[1..]), comments);
      assert [ps[0]] + ps[1..] == ps;
    }
  }

  // ---- Comments ----

  predicate IsComment(p: Piece) {
    p.LineComment? || p.BlockComment?
  }

  /** The pieces that are not comments. */
  function Code(ps: seq<Piece>): seq<Piece> {
    if ps == [] then []
    else if IsComment(ps[0]) then Code(ps[1..])
    else [ps[0]] + Code(ps[1..])
  }

  /** What is left of a text when its comments are removed. */
  function Stripped(t: string): string {
    Render(Code(Lex(t, true)))
  }

  lemma {:induction false} CodeWellFormed(ps: seq<Piece>)
    requires WellFormed(ps, true)
    ensures WellFormed(Code(ps), true) && WellFormed(Code(ps), false) && Code(Code(ps)) == Code(ps)
    ensures Render(ps) == [] ==> Code(ps) == []
    ensures Render(ps) != [] && Render(ps)[0] != '/' ==> Render(Code(ps)) != [] && Render(Code(ps))[0] == Render(ps)[0]
    ensures Render(ps) != [] && Render(ps)[0] == '/' && !IsComment(ps[0]) ==>
              Render(Code(ps)) != [] && Render(Code(ps))[0] == '/'
  {
    if ps != [] {
      CodeWellFormed(ps[1..]);
      if !IsComment(ps[0]) {
        assert Code(ps)[1..] == Code(ps[1..]);
        assert RenderOne(ps[0]) != [];
      }
    }
  }

  /** Removing comments twice removes nothing more than removing them once. */
  lemma StripIdempotent(t: string)
    ensures Stripped(Stripped(t)) == Stripped(t)
  {
    var ps := Lex(t, true);
    RenderLex(t, true);
    CodeWellFormed(ps);
    LexRender(Code(ps), true);
  }

  /**
   For every way to write tokens with white space, strings and comments between them, stripping yields the same
   text with only the comments gone.
   */
  lemma StripOfRendering(ps: seq<Piece>)
    requires WellFormed(ps, true)
    ensures Stripped(Render(ps)) == Render(Code(ps))
  {
    LexRender(ps, true);
  }

  /** What the rest of a text contributes when its first `skip` characters belong to a comment. */
  function AfterComment(t: string, skip: nat): string
    requires skip <= |t|
  {
    Stripped(t[skip..])
  }

  /** What the rest of a text contributes when its first `n` characters belong to a string. */
  function AfterString(t: string, n: nat): string
    requires n <= |t|
  {
    t[..n] + Stripped(t[n..])
  }

  /** The remaining length of a string, just after an escaping backslash or not. */
  function Remaining(t: string, quote: char, escaped: bool): (n: nat)
    ensures n <= |t|
  {
    if escaped && t != [] then 1 + StringEnd(t[1..], quote) else StringEnd(t, quote)
  }

  lemma StrippedFirst(t: string)
    requires t != []
    ensures var p := FirstPiece(t, true);
            Stripped(t) == (if IsComment(p) then [] else RenderOne(p)) + Stripped(t[|RenderOne(p)|..])
  {
    var p := FirstPiece(t, true);
    var rest := Lex(t[|RenderOne(p)|..], true);
    assert Lex(t, true)[1..] == rest;
    if !IsComment(p) {
      assert ([p] + Code(rest))[1..] == Code(rest);
    }
  }

  lemma StrippedString(t: string)
    requires t != [] && IsQuote(t[0])
    ensures Stripped(t) == [t[0]] + AfterString(t[1..], StringEnd(t[1..], t[0]))
  {
    var n := StringEnd(t[1..], t[0]);
    StrippedFirst(t);
    assert t[1..][n..] == t[1 + n..] && RenderOne(FirstPiece(t, true)) == [t[0]] + t[1..][..n];
    Assoc([t[0]], t[1..][..n], Stripped(t[1 + n..]));
  }

  lemma StrippedStep(t: string)
    requires t != []
    ensures IsQuote(t[0]) ==> Stripped(t) == [t[0]] + AfterString(t[1..], StringEnd(t[1..], t[0]))
    ensures |t| >= 2 && t[0] == '/' && t[1] == '/' ==> Stripped(t) == AfterComment(t[2..], LineEnd(t[2..]))
    ensures |t| >= 2 && t[0] == '/' && t[1] == '*' ==> Stripped(t) == AfterComment(t[2..], BlockEnd(t[2..]))
    ensures !IsQuote(t[0]) && !(|t| >= 2 && t[0] == '/' && (t[1] == '/' || t[1] == '*')) ==>
              Stripped(t) == [t[0]] + Stripped(t[1..])
  {
    if IsQuote(t[0]) {
      StrippedString(t);
    } else {
      StrippedFirst(t);
      match FirstPiece(t, true) {
        case LineComment(s) => assert t[2..][LineEnd(t[2..])..] == t[|s|..];
        case BlockComment(s) => assert t[2..][BlockEnd(t[2..])..] == t[|s|..];
        case _ =>
      }
    }
  }

  /** One character of a string: it ends the string, or the rest of the string starts after it. */
  lemma StringStep(t: string, quote: char, escaped: bool)
    requires t != [] && IsQuote(quote)
    ensures var n := Remaining(t, quote, escaped);
            AfterString(t, n) ==
              [t[0]] + if !escaped && t[0] == quote then Stripped(t[1..])
                       else AfterString(t[1..], Remaining(t[1..], quote, !escaped && t[0] == '\\'))
  {
    var n := Remaining(t, quote, escaped);
    if !escaped && t[0] == quote {
      assert n == 1 && t[..1] == [t[0]];
    } else {
      var m := Remaining(t[1..], quote, !escaped && t[0] == '\\');
      assert n == 1 + m by {
        if !escaped && t[0] == '\\' && |t| > 1 { assert t[1..][1..] == t[2..]; }
      }
      assert t[..n] == [t[0]] + t[1..][..m] && t[n..] == t[1..][m..];
      Assoc([t[0]], t[1..][..m], Stripped(t[n..]));
    }
  }

  /** One character of a line comment. */
  lemma LineStep(t: string)
    requires t != []
    ensures AfterComment(t, LineEnd(t)) ==
            if t[0] == '\n' then [t[0]] + Stripped(t[1..]) else AfterComment(t[1..], LineEnd(t[1..]))
  {
    if t[0] == '\n' {
      assert t[0..] == t;
      StrippedStep(t);
    } else {
      assert t[1..][LineEnd(t[1..])..] == t[LineEnd(t)..];
    }
  }

  /** One character of a block comment, or its closing delimiter. */
  lemma BlockStep(t: string)
    requires t != []
    ensures AfterComment(t, BlockEnd(t)) ==
            if |t| >= 2 && t[0] == '*' && t[1] == '/' then Stripped(t[2..])
            else AfterComment(t[1..], BlockEnd(t[1..]))
  {
    if |t| >= 2 && !(t[0] == '*' && t[1] == '/') {
      assert t[1..][BlockEnd(t[1..])..] == t[BlockEnd(t)..];
    }
  }

  /** The variables of the stripping loop. */
  datatype Mode = Normal | InString(quote: char, escaped: bool) | InLineComment | InBlockComment

  /** What the unread rest of the text still contributes in a given state of the loop. */
  function Pending(t: string, mode: Mode): string {
    match mode
    case Normal => Stripped(t)
    case InString(quote, escaped) => AfterString(t, Remaining(t, quote, escaped))
    case InLineComment => AfterComment(t, LineEnd(t))
    case InBlockComment => AfterComment(t, BlockEnd(t))
  }

  /** What the loop does with the next character: what it emits, how far it moves, and its new state. */
  function Advance(t: string, mode: Mode): (string, nat, Mode)
    requires t != []
  {
    match mode
    case InLineComment => if t[0] == '\n' then ([t[0]], 1, Normal) else ([], 1, InLineComment)
    case InBlockComment =>
      if |t| >= 2 && t[0] == '*' && t[1] == '/' then ([], 2, Normal) else ([], 1, InBlockComment)
    case InString(quote, escaped) =>
      ([t[0]], 1, if !escaped && t[0] == '\\' then InString(quote, true)
                  else if !escaped && t[0] == quote then Normal
                  else InString(quote, false))
    case Normal =>
      if IsQuote(t[0]) then ([t[0]], 1, InString(t[0], false))
      else if |t| >= 2 && t[0] == '/' && t[1] == '/' then ([], 2, InLineComment)
      else if |t| >= 2 && t[0] == '/' && t[1] == '*' then ([], 2, InBlockComment)
      else ([t[0]], 1, Normal)
  }

  lemma AdvanceCorrect(t: string, mode: Mode)
    requires t != [] && (mode.InString? ==> IsQuote(mode.quote))
    ensures var (emitted, n, next) := Advance(t, mode);
            n <= |t| && Pending(t, mode) == emitted + Pending(t[n..], next)
  {
    match mode {
      case Normal => StrippedStep(t);
      case InString(quote, escaped) => StringStep(t, quote, escaped);
      case InLineComment => LineStep(t);
      case InBlockComment => BlockStep(t);
    }
  }

  /** The text the loop emits from a given state on. */
  function Emitted(t: string, mode: Mode): string
    decreases |t|
  {
    if t == [] then []
    else
      var (emitted, n, next) := Advance(t, mode);
      emitted + Emitted(if n <= |t| then t[n..] else [], next)
  }

  /** The loop's output is what the pieces of the unread text contribute. */
  lemma {:induction false} EmittedIsPending(t: string, mode: Mode)
    requires mode.InString? ==> IsQuote(mode.quote)
    ensures Emitted(t, mode) == Pending(t, mode)
    decreases |t|
  {
    if t != [] {
      var (emitted, n, next) := Advance(t, mode);
      AdvanceCorrect(t, mode);
      EmittedIsPending(t[n..], next);
    }
  }

  function ModeOf(inString: bool, quote: char, escaped: bool, inLine: bool, inBlock: bool): Mode {
    if inLine then InLineComment
    else if inBlock then InBlockComment
    else if inString then InString(quote, escaped)
    else Normal
  }

  lemma EmittedStep(value: string, at: nat, mode: Mode, want: string)
    requires at < |value|
    ensures var (emitted, n, next) := Advance(value[at..], mode);
            && at + n <= |value|
            && want + Emitted(value[at..], mode) == want + emitted + Emitted(value[at + n..], next)
  {
    var t := value[at..];
    var (emitted, n, next) := Advance(t, mode);
    assert t[n..] == value[at + n..];
    Assoc(want, emitted, Emitted(value[at + n..], next));
  }

  /** `stripJson5Comments` */
  method StripJson5Comments(value: string) returns (result: string)
    ensures result == Stripped(value)
  {
    result := "";
    var inString, stringQuote, escaped := false, '"', false;
    var inLineComment, inBlockComment := false, false;
    var index := 0;
    // What the loop should have emitted, where it should stand, and in which state.
    ghost var want, at, mode := result, index, Normal;
    ghost var all := Emitted(value, Normal);
    assert value[0..] == value;
    while index < |value|
      invariant result == want && index == at <= |value|
      invariant mode == ModeOf(inString, stringQuote, escaped, inLineComment, inBlockComment)
      invariant !(inString && (inLineComment || inBlockComment)) && !(inLineComment && inBlockComment)
      invariant escaped ==> inString
      invariant all == want + Emitted(value[at..], mode)
    {
      var ch := value[index];
      var hasNext := index + 1 < |value|;
      var next := if hasNext then value[index + 1] else ' ';
      ghost var t := value[index..];
      ghost var (emitted, n, mode') := Advance(t, mode);
      EmittedStep(value, at, mode, want);
      want, at, mode := want + emitted, at + n, mode';
      if inLineComment {
        if ch == '\n' {
          inLineComment := false;
          result := result + [ch];
        }
        index := index + 1;
        continue;
      }
      if inBlockComment {
        if ch == '*' && hasNext && next == '/' {
          inBlockComment := false;
          index := index + 1;
        }
        index := index + 1;
        continue;
      }
      if inString {
        result := result + [ch];
        index := index + 1;
        if escaped {
          escaped := false;
          continue;
        }
        if ch == '\\' {
          escaped := true;
          continue;
        }
        if ch == stringQuote {
          inString := false;
        }
        continue;
      }
      if ch == '"' || ch == '\'' {
        inString := true;
        stringQuote := ch;
        result := result + [ch];
        index := index + 1;
        continue;
      }
      if ch == '/' && hasNext && next == '/' {
        inLineComment := true;
        index := index + 2;
        continue;
      }
      if ch == '/' && hasNext && next == '*' {
        inBlockComment := true;
        index := index + 2;
        continue;
      }
      result := result + [ch];
      index := index + 1;
    }
    assert value[index..] == [] && result + [] == result;
    EmittedIsPending(value, Normal);
  }

  // ---- Trailing commas ----

  /** `nextNonWhitespace` from the start of the text. */
  function FirstVisible(t: string): Option<char> {
    if t == [] then None else if IsSpace(t[0]) then FirstVisible(t[1..]) else Some(t[0])
  }

  predicate Closes(next: Option<char>) {
    next == Some('}') || next == Some(']')
  }

  /** The piece is a comma and a closing bracket is the next thing to see after it. */
  predicate TrailingComma(p: Piece, next: string) {
    p == Plain(',') && Closes(FirstVisible(next))
  }

  function DropCommas(ps: seq<Piece>): seq<Piece> {
    if ps == [] then []
    else if TrailingComma(ps[0], Render(ps[1..])) then DropCommas(ps[1..])
    else [ps[0]] + DropCommas(ps[1..])
  }

  /** What is left of a text when its trailing commas are removed. */
  function Untrailed(t: string): string {
    Render(DropCommas(Lex(t, false)))
  }

  lemma UntrailedFirst(t: string)
    requires t != []
    ensures var p := FirstPiece(t, false);
            var next := t[|RenderOne(p)|..];
            Untrailed(t) == (if TrailingComma(p, next) then [] else RenderOne(p)) + Untrailed(next)
  {
    var p := FirstPiece(t, false);
    var next := t[|RenderOne(p)|..];
    var rest := Lex(next, false);
    RenderLex(next, false);
    assert Lex(t, false)[1..] == rest;
    assert ([p] + DropCommas(rest))[1..] == DropCommas(rest);
  }

  function CommaPending(t: string, mode: Mode): string {
    match mode
    case InString(quote, escaped) => var n := Remaining(t, quote, escaped); t[..n] + Untrailed(t[n..])
    case _ => Untrailed(t)
  }

  /** The next character in the comma loop: what it emits and the new state. */
  function CommaAdvance(t: string, mode: Mode): (string, Mode)
    requires t != []
  {
    match mode
    case InString(quote, escaped) =>
      ([t[0]], if !escaped && t[0] == '\\' then InString(quote, true)
               else if !escaped && t[0] == quote then Normal
               else InString(quote, false))
    case _ =>
      if IsQuote(t[0]) then ([t[0]], InString(t[0], false))
      else (if t[0] == ',' && Closes(FirstVisible(t[1..])) then [] else [t[0]], Normal)
  }

  function CommaEmitted(t: string, mode: Mode): string
    decreases |t|
  {
    if t == [] then []
    else var (emitted, next) := CommaAdvance(t, mode); emitted + CommaEmitted(t[1..], next)
  }

  lemma {:induction false} CommaEmittedIsPending(t: string, mode: Mode)
    requires mode.InString? ==> IsQuote(mode.quote)
    ensures CommaEmitted(t, mode) == CommaPending(t, mode)
    decreases |t|
  {
    if t != [] {
      var (emitted, next) := CommaAdvance(t, mode);
      CommaAdvanceCorrect(t, mode);
      CommaEmittedIsPending(t[1..], next);
    }
  }

  lemma CommaAdvanceCorrect(t: string, mode: Mode)
    requires t != [] && (mode.InString? ==> IsQuote(mode.quote))
    ensures var (emitted, next) := CommaAdvance(t, mode); CommaPending(t, mode) == emitted + CommaPending(t[1..], next)
  {
    if mode.InString? {
      CommaStringStep(t, mode.quote, mode.escaped);
    } else if IsQuote(t[0]) {
      UntrailedFirst(t);
      OpeningQuote(t);
    } else {
      UntrailedPlain(t);
    }
  }

  lemma UntrailedPlain(t: string)
    requires t != [] && !IsQuote(t[0])
    ensures Untrailed(t) == (if t[0] == ',' && Closes(FirstVisible(t[1..])) then [] else [t[0]]) + Untrailed(t[1..])
  {
    UntrailedFirst(t);
    assert RenderOne(FirstPiece(t, false)) == [t[0]];
  }

  lemma OpeningQuote(t: string)
    requires t != [] && IsQuote(t[0])
    ensures var n := StringEnd(t[1..], t[0]);
            t[..1 + n] + Untrailed(t[1 + n..]) == [t[0]] + CommaPending(t[1..], InString(t[0], false))
  {
    var n := StringEnd(t[1..], t[0]);
    assert t[1..][n..] == t[1 + n..];
    FirstApart(t, n, Untrailed(t[1 + n..]));
  }

  lemma FirstApart(t: string, n: nat, rest: string)
    requires 1 + n <= |t|
    ensures t[..1 + n] + rest == [t[0]] + (t[1..][..n] + rest)
  {
  }

  lemma CommaStringStep(t: string, quote: char, escaped: bool)
    requires t != [] && IsQuote(quote)
    ensures CommaPending(t, InString(quote, escaped)) ==
            [t[0]] + if !escaped && t[0] == quote then Untrailed(t[1..])
                     else CommaPending(t[1..], InString(quote, !escaped && t[0] == '\\'))
  {
    var n := Remaining(t, quote, escaped);
    if !escaped && t[0] == quote {
      assert n == 1 && t[..1] == [t[0]];
    } else {
      var m := Remaining(t[1..], quote, !escaped && t[0] == '\\');
      assert n == 1 + m by {
        if !escaped && t[0] == '\\' && |t| > 1 { assert t[1..][1..] == t[2..]; }
      }
      assert t[..n] == [t[0]] + t[1..][..m] && t[n..] == t[1..][m..];
      Assoc([t[0]], t[1..][..m], Untrailed(t[n..]));
    }
  }

  /** `nextNonWhitespace` */
  method NextNonWhitespace(value: string, start: nat) returns (r: Option<char>)
    requires start <= |value|
    ensures r == FirstVisible(value[start..])
  {
    for index := start to |value|
      invariant FirstVisible(value[start..]) == FirstVisible(value[index..])
    {
      assert value[index..][1..] == value[index + 1..];
      if !IsSpace(value[index]) {
        return Some(value[index]);
      }
    }
    r := None;
  }

  lemma CommaStep(value: string, at: nat, mode: Mode, want: string)
    requires at < |value|
    ensures var (emitted, next) := CommaAdvance(value[at..], mode);
            want + CommaEmitted(value[at..], mode) == want + emitted + CommaEmitted(value[at + 1..], next)
  {
    var (emitted, next) := CommaAdvance(value[at..], mode);
    assert value[at..][1..] == value[at + 1..];
    Assoc(want, emitted, CommaEmitted(value[at + 1..], next));
  }

  /** `stripTrailingCommas` */
  method StripTrailingCommas(value: string) returns (result: string)
    ensures result == Untrailed(value)
  {
    result := "";
    var inString, stringQuote, escaped := false, '"', false;
    ghost var want, mode, all := result, Normal, CommaEmitted(value, Normal);
    assert value[0..] == value;
    for index := 0 to |value|
      invariant result == want
      invariant mode == ModeOf(inString, stringQuote, escaped, false, false) && (escaped ==> inString)
      invariant all == want + CommaEmitted(value[index..], mode)
    {
      var ch := value[index];
      ghost var (emitted, mode') := CommaAdvance(value[index..], mode);
      CommaStep(value, index, mode, want);
      assert value[index..][1..] == value[index + 1..];
      want, mode := want + emitted, mode';
      if inString {
        result := result + [ch];
        if escaped {
          escaped := false;
          continue;
        }
        if ch == '\\' {
          escaped := true;
          continue;
        }
        if ch == stringQuote {
          inString := false;
        }
        continue;
      }
      if ch == '"' || ch == '\'' {
        inString := true;
        stringQuote := ch;
        result := result + [ch];
        continue;
      }
      if ch == ',' {
        var next := NextNonWhitespace(value, index + 1);
        if next == Some('}') || next == Some(']') {
          continue;
        }
      }
      result := result + [ch];
    }
    assert value[|value|..] == [] && result + [] == result;
    CommaEmittedIsPending(value, Normal);
  }

  // ---- Both together ----

  lemma {:induction false} DropWellFormed(ps: seq<Piece>)
    requires WellFormed(ps, false)
    ensures WellFormed(DropCommas(ps), false)
    ensures Render(ps) == [] ==> DropCommas(ps) == []
  {
    if ps != [] {
      DropWellFormed(ps[1..]);
      if !TrailingComma(ps[0], Render(ps[1..])) {
        assert DropCommas(ps)[1..] == DropCommas(ps[1..]);
      }
    }
  }

  /** Stripping comments and then trailing commas drops exactly the comments and those commas. */
  lemma CommentsThenCommas(t: string)
    ensures Untrailed(Stripped(t)) == Render(DropCommas(Code(Lex(t, true))))
  {
    RenderLex(t, true);
    CodeWellFormed(Lex(t, true));
    LexRender(Code(Lex(t, true)), false);
  }

  /** The text written by the given pieces, comments and trailing commas allowed, loses nothing else. */
  lemma CleanOfRendering(ps: seq<Piece>)
    requires WellFormed(ps, true)
    ensures Untrailed(Stripped(Render(ps))) == Render(DropCommas(Code(ps)))
  {
    LexRender(ps, true);
    CommentsThenCommas(Render(ps));
  }

  /** The first visible piece is a comma that will be dropped. */
  predicate TrailsFirst(ps: seq<Piece>) {
    ps != [] &&
    match ps[0]
    case Plain(c) => if IsSpace(c) then TrailsFirst(ps[1..]) else TrailingComma(ps[0], Render(ps[1..]))
    case _ => false
  }

  /** Some comma has a trailing comma as the next thing to see: `,,]`. */
  predicate DoubledComma(ps: seq<Piece>) {
    ps != [] && ((ps[0] == Plain(',') && TrailsFirst(ps[1..])) || DoubledComma(ps[1..]))
  }

  predicate HasTrailing(ps: seq<Piece>) {
    ps != [] && (TrailingComma(ps[0], Render(ps[1..])) || HasTrailing(ps[1..]))
  }

  lemma {:induction false} VisibleAfterDrop(ps: seq<Piece>)
    requires WellFormed(ps, false)
    ensures TrailsFirst(ps) ==> FirstVisible(Render(ps)) == Some(',') && Closes(FirstVisible(Render(DropCommas(ps))))
    ensures !TrailsFirst(ps) ==> FirstVisible(Render(DropCommas(ps))) == FirstVisible(Render(ps))
  {
    if ps != [] {
      VisibleAfterDrop(ps[1..]);
      var p, next := ps[0], Render(ps[1..]);
      assert RenderOne(p) != [] && Render(ps)[0] == RenderOne(p)[0];
      if p.Plain? {
        assert Render(ps)[1..] == next;
      }
      if !TrailingComma(p, next) {
        var kept := DropCommas(ps);
        assert kept[0] == p && kept[1..] == DropCommas(ps[1..]);
        assert p.Plain? ==> Render(kept)[1..] == Render(kept[1..]);
      }
    }
  }

  lemma {:induction false} TrailingAfterDrop(ps: seq<Piece>)
    requires WellFormed(ps, false)
    ensures HasTrailing(DropCommas(ps)) <==> DoubledComma(ps)
  {
    if ps != [] {
      TrailingAfterDrop(ps[1..]);
      VisibleAfterDrop(ps[1..]);
      if !TrailingComma(ps[0], Render(ps[1..])) {
        assert DropCommas(ps)[1..] == DropCommas(ps[1..]);
      }
    }
  }

  lemma {:induction false} DropShorter(ps: seq<Piece>)
    ensures |DropCommas(ps)| <= |ps|
    ensures DropCommas(ps) == ps <==> !HasTrailing(ps)
  {
    if ps != [] {
      DropShorter(ps[1..]);
      if !TrailingComma(ps[0], Render(ps[1..])) {
        assert DropCommas(ps)[1..] == DropCommas(ps[1..]);
        assert [ps[0]] + ps[1..] == ps;
      }
    }
  }

  /**
   Removing trailing commas a second time changes nothing if and only if no comma of the text is directly
   followed by a trailing one.
   */
  lemma CommasIdempotentIffNotDoubled(t: string)
    ensures Untrailed(Untrailed(t)) == Untrailed(t) <==> !DoubledComma(Lex(t, false))
  {
    var ps := Lex(t, false);
    RenderLex(t, false);
    DropWellFormed(ps);
    LexRender(DropCommas(ps), false);
    TrailingAfterDrop(ps);
    DropShorter(DropCommas(ps));
    DropWellFormed(DropCommas(ps));
    LexRender(DropCommas(DropCommas(ps)), false);
  }

  lemma LexDoubled()
    ensures Lex(",,]", false) == [Plain(','), Plain(','), Plain(']')]
  {
    assert ",,]"[1..] == ",]" && ",]"[1..] == "]" && "]"[1..] == "";
    assert Lex("]", false) == [Plain(']')];
    assert Lex(",]", false) == [Plain(','), Plain(']')];
  }

  lemma TrailsBeforeBracket()
    ensures TrailsFirst([Plain(','), Plain(']')])
  {
    var ps := [Plain(','), Plain(']')];
    assert ps[1..] == [Plain(']')] && [Plain(']')][1..] == [];
    assert Render(ps[1..]) == "]";
  }

  /** The doubled comma of `,,]`. */
  lemma CommasNotIdempotent()
    ensures Untrailed(Untrailed(",,]")) != Untrailed(",,]")
  {
    var t := ",,]";
    LexDoubled();
    TrailsBeforeBracket();
    assert Lex(t, false)[1..] == [Plain(','), Plain(']')];
    CommasIdempotentIffNotDoubled(t);
  }

  /** `parseConfig`: strict JSON first, the cleaned text otherwise; `parse` is `parseAsObject`. */
  method ParseConfig<V>(raw: string, parse: string -> Option<V>) returns (r: Option<V>)
    ensures r == if parse(raw).Some? then parse(raw) else parse(Render(DropCommas(Code(Lex(raw, true)))))
  {
    r := parse(raw);
    if r.None? {
      var withoutComments := StripJson5Comments(raw);
      var withoutTrailingCommas := StripTrailingCommas(withoutComments);
      CommentsThenCommas(raw);
      r := parse(withoutTrailingCommas);
    }
  }
}
