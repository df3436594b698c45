/**
 String operations of the JavaScript runtime that the modelled code relies on: trimming, splitting, joining, and decimal
 numbers, together with the facts about them that the other modules use. Strings are sequences of characters.
 */
module Text {

  datatype Option<+T> = None | Some(value: T)

  lemma Assoc<T>(a: seq<T>, b: seq<T>, c: seq<T>)
    ensures a + (b + c) == (a + b) + c
  {
  }

  lemma Append<T>(s: seq<T>, more: seq<T>, k: nat)
    requires k <= |s|
    ensures (s + more)[k..] == s[k..] + more && (s + more)[..|s|] == s && (s + more)[|s|..] == more
  {
  }

  /** The characters matched by `\s` and removed by `trim`. */
  predicate IsSpace(c: char) {
    var n := c as int;
    || n == 0x20 || 0x09 <= n <= 0x0D || n == 0xA0 || n == 0x1680 || 0x2000 <= n <= 0x200A
    || 0x2028 <= n <= 0x2029 || n == 0x202F || n == 0x205F || n == 0x3000 || n == 0xFEFF
  }

  predicate NoSpace(s: string) {
    forall c | c in s :: !IsSpace(c)
  }

  /** `text.trimStart()` */
  function TrimStart(s: string): (r: string)
    ensures |r| <= |s|
    ensures r != [] ==> !IsSpace(r[0])
  {
    if s != [] && IsSpace(s[0]) then TrimStart(s[1..]) else s
  }

  /** `text.trimEnd()` */
  function TrimEnd(s: string): (r: string)
    ensures |r| <= |s|
    ensures r != [] ==> !IsSpace(r[|r| - 1])
    ensures r == s[..|r|]
  {
    if s != [] && IsSpace(s[|s| - 1]) then TrimEnd(s[..|s| - 1]) else s
  }

  /** `text.trim()` */
  function Trim(s: string): (r: string)
    ensures |r| <= |s|
    ensures r != [] ==> !IsSpace(r[0]) && !IsSpace(r[|r| - 1])
  {
    TrimEnd(TrimStart(s))
  }

  predicate Blank(text: string) {
    forall c | c in text :: IsSpace(c)
  }

  /** Trimming takes away white space before and behind, and nothing else. */
  lemma TrimMeans(s: string) returns (before: string, after: string)
    ensures s == before + Trim(s) + after && Blank(before) && Blank(after)
    ensures Trim(s) == [] <==> Blank(s)
  {
    before := TrimStartCuts(s);
    after := TrimEndCuts(TrimStart(s));
    assert TrimStart(s) == Trim(s) + after;
    Assoc(before, Trim(s), after);
    assert Trim(s) != [] ==> Trim(s)[0] in s;
  }

  lemma {:induction false} TrimStartCuts(s: string) returns (before: string)
    ensures s == before + TrimStart(s) && Blank(before)
  {
    before := [];
    if s != [] && IsSpace(s[0]) {
      var rest := TrimStartCuts(s[1..]);
      before := [s[0]] + rest;
      assert s == [s[0]] + s[1..];
    }
  }

  lemma {:induction false} TrimEndCuts(s: string) returns (after: string)
    ensures s == TrimEnd(s) + after && Blank(after)
  {
    after := [];
    if s != [] && IsSpace(s[|s| - 1]) {
      var rest := TrimEndCuts(s[..|s| - 1]);
      after := rest + [s[|s| - 1]];
      assert s == s[..|s| - 1] + [s[|s| - 1]];
    }
  }

  lemma {:induction false} TrimStartPadded(before: string, s: string)
    requires Blank(before) && (s == [] || !IsSpace(s[0]))
    ensures TrimStart(before + s) == s
  {
    if before == [] {
      assert before + s == s;
    } else {
      assert before[0] in before && (before + s)[1..] == before[1..] + s;
      TrimStartPadded(before[1..], s);
    }
  }

  lemma {:induction false} TrimEndPadded(s: string, after: string)
    requires Blank(after) && (s == [] || !IsSpace(s[|s| - 1]))
    ensures TrimEnd(s + after) == s
  {
    if after == [] {
      assert s + after == s;
    } else {
      assert after[|after| - 1] in after && (s + after)[..|s + after| - 1] == s + after[..|after| - 1];
      TrimEndPadded(s, after[..|after| - 1]);
    }
  }

  /** Trimming takes the padding off. */
  lemma TrimPadded(before: string, s: string, after: string)
    requires Blank(before) && Blank(after) && s != [] && !IsSpace(s[0]) && !IsSpace(s[|s| - 1])
    ensures Trim(before + s + after) == s
  {
    Assoc(before, s, after);
    TrimStartPadded(before, s + after);
    TrimEndPadded(s, after);
  }

  lemma TrimBlank(text: string)
    ensures Trim(text) == [] <==> Blank(text)
  {
    var before, after := TrimMeans(text);
  }

  lemma TrimFixes(s: string)
    requires s == [] || (!IsSpace(s[0]) && !IsSpace(s[|s| - 1]))
    ensures Trim(s) == s
  {
  }

  /** The characters other than white space. */
  function Ink(s: string): string {
    if s == [] then [] else (if IsSpace(s[0]) then [] else [s[0]]) + Ink(s[1..])
  }

  lemma {:induction false} InkConcat(a: string, b: string)
    ensures Ink(a + b) == Ink(a) + Ink(b)
  {
    if a == [] {
      assert a + b == b;
    } else {
      assert (a + b)[1..] == a[1..] + b;
      InkConcat(a[1..], b);
    }
  }

  lemma {:induction false} InkTrimStart(s: string)
    ensures Ink(TrimStart(s)) == Ink(s)
  {
    if s != [] && IsSpace(s[0]) {
      InkTrimStart(s[1..]);
    }
  }

  lemma {:induction false} InkTrimEnd(s: string)
    ensures Ink(TrimEnd(s)) == Ink(s)
  {
    if s != [] && IsSpace(s[|s| - 1]) {
      var front, last := s[..|s| - 1], s[|s| - 1..];
      assert s == front + last && last[1..] == [];
      InkConcat(front, last);
      InkTrimEnd(front);
    }
  }

  /** Trimming keeps the ink, and a text without ink is trimmed to nothing. */
  lemma InkTrim(s: string)
    ensures Ink(Trim(s)) == Ink(s) && (Ink(s) == [] <==> Trim(s) == [])
  {
    InkTrimStart(s);
    InkTrimEnd(TrimStart(s));
    var t := Trim(s);
    assert t != [] ==> Ink(t) == [t[0]] + Ink(t[1..]);
  }

  /** All texts one after the other. */
  function Concat(texts: seq<string>): string {
    if texts == [] then [] else Concat(texts[..|texts| - 1]) + texts[|texts| - 1]
  }

  lemma ConcatPush(texts: seq<string>, text: string)
    ensures Concat(texts + [text]) == Concat(texts) + text
  {
    assert (texts + [text])[..|texts|] == texts;
  }

  /** `s.split(sep)` for a one-element separator. */
  function Split<T(==)>(s: seq<T>, sep: T): (parts: seq<seq<T>>)
    ensures |parts| >= 1
  {
    if s == [] then [[]]
    else if s[0] == sep then [[]] + Split(s[1..], sep)
    else var rest := Split(s[1..], sep); [[s[0]] + rest[0]] + rest[1..]
  }

  lemma {:induction false} SplitPieces<T>(s: seq<T>, sep: T)
    ensures forall p | p in Split(s, sep) :: sep !in p
  {
    if s != [] {
      SplitPieces(s[1..], sep);
      var rest := Split(s[1..], sep);
      assert rest[0] in rest;
      assert forall p | p in rest[1..] :: p in rest;
    }
  }

  lemma {:induction false} SplitNone<T>(s: seq<T>, sep: T)
    requires sep !in s
    ensures Split(s, sep) == [s]
  {
    if s != [] {
      SplitNone(s[1..], sep);
      assert [s[0]] + s[1..] == s;
    }
  }

  lemma {:induction false} SplitAt<T>(a: seq<T>, sep: T, b: seq<T>)
    requires sep !in a
    ensures Split(a + [sep] + b, sep) == [a] + Split(b, sep)
  {
    var s := a + [sep] + b;
    if a == [] {
      assert s[1..] == b;
    } else {
      SplitAt(a[1..], sep, b);
      assert s[1..] == a[1..] + [sep] + b;
      assert [a[0]] + a[1..] == a;
    }
  }

  lemma {:induction false} SplitConcat<T>(a: seq<T>, sep: T, b: seq<T>)
    ensures Split(a + [sep] + b, sep) == Split(a, sep) + Split(b, sep)
  {
    var s := a + [sep] + b;
    if a == [] {
      assert s == [sep] + b && s[1..] == b;
    } else {
      SplitConcat(a[1..], sep, b);
      assert s[0] == a[0] && s[1..] == a[1..] + [sep] + b;
      GrowFirst(Split(a[1..], sep), Split(b, sep), a[0]);
    }
  }

  /** Prepending to the first piece commutes with appending pieces. */
  lemma GrowFirst<T>(pieces: seq<seq<T>>, more: seq<seq<T>>, x: T)
    requires pieces != []
    ensures var all := pieces + more;
            [[x] + all[0]] + all[1..] == ([[x] + pieces[0]] + pieces[1..]) + more
    ensures [[]] + (pieces + more) == ([[]] + pieces) + more
  {
  }

  /** Decimal digits of a natural number, as `String(n)` and template literals print it. */
  function Decimal(n: nat): (s: string)
    ensures |s| >= 1
    ensures forall c | c in s :: IsDigit(c)
  {
    if n < 10 then [Digit(n)] else Decimal(n / 10) + [Digit(n % 10)]
  }

  function Digit(d: nat): (c: char)
    requires d < 10
    ensures IsDigit(c) && DigitValue(c) == d
  {
    ('0' as int + d) as char
  }

  predicate IsDigit(c: char) {
    '0' <= c <= '9'
  }

  function DigitValue(c: char): nat
    requires IsDigit(c)
  {
    c as int - '0' as int
  }

  /** The number a digit string denotes. */
  function Value(s: string): nat
    requires forall c | c in s :: IsDigit(c)
  {
    if s == [] then 0 else 10 * Value(s[..|s| - 1]) + DigitValue(s[|s| - 1])
  }

  lemma {:induction false} ValueOfDecimal(n: nat)
    ensures Value(Decimal(n)) == n
  {
    var s := Decimal(n);
    if n < 10 {
      assert s[..0] == [];
    } else {
      ValueOfDecimal(n / 10);
      assert s[..|s| - 1] == Decimal(n / 10);
    }
  }

  /** Decimal text of an integer. */
  function IntText(n: int): string {
    if n < 0 then "-" + Decimal(-n) else Decimal(n)
  }

  lemma IntTextInjective(a: int, b: int)
    requires IntText(a) == IntText(b)
    ensures a == b
  {
    ValueOfDecimal(if a < 0 then -a else a);
    ValueOfDecimal(if b < 0 then -b else b);
    if a < 0 { assert IntText(a)[0] == '-' && IntText(a)[1..] == Decimal(-a); }
    if b < 0 { assert IntText(b)[0] == '-' && IntText(b)[1..] == Decimal(-b); }
    assert a < 0 <==> b < 0 by {
      if a >= 0 { assert IntText(a)[0] in Decimal(a); }
      if b >= 0 { assert IntText(b)[0] in Decimal(b); }
    }
  }

  /** The text before the first separator and the text after it can be told apart. */
  lemma CutFirst<T>(a: seq<T>, x: seq<T>, b: seq<T>, y: seq<T>, sep: T)
    requires sep !in a && sep !in b && a + [sep] + x == b + [sep] + y
    ensures a == b && x == y
  {
    var s := a + [sep] + x;
    assert s[|a|] == sep && s[|b|] == (b + [sep] + y)[|b|] == sep;
    assert forall i | 0 <= i < |a| :: s[i] == a[i];
    assert forall i | 0 <= i < |b| :: s[i] == (b + [sep] + y)[i] == b[i];
    assert |a| == |b|;
    assert a == s[..|a|] && b == s[..|b|];
    assert x == s[|a| + 1..] && y == s[|b| + 1..];
  }

  /** So can the text before the last separator and the text after it. */
  lemma CutLast<T>(x: seq<T>, a: seq<T>, y: seq<T>, b: seq<T>, sep: T)
    requires sep !in a && sep !in b && x + [sep] + a == y + [sep] + b
    ensures a == b && x == y
  {
    var s := x + [sep] + a;
    assert s[|x|] == sep && s[|y|] == (y + [sep] + b)[|y|] == sep;
    assert forall i | |x| < i < |s| :: s[i] == a[i - |x| - 1];
    assert forall i | |y| < i < |s| :: s[i] == (y + [sep] + b)[i] == b[i - |y| - 1];
    assert |x| == |y|;
    assert x == s[..|x|] && y == s[..|y|];
    assert a == s[|x| + 1..] && b == s[|y| + 1..];
  }

  /** Concatenation of a list of strings with a separator between them: `parts.join(sep)`. */
  function Join<T>(parts: seq<seq<T>>, sep: seq<T>): seq<T> {
    if |parts| == 0 then []
    else if |parts| == 1 then parts[0]
    else parts[0] + sep + Join(parts[1..], sep)
  }

  /** `xs.flatMap(f)` */
  function ConcatMap<A, B>(f: A -> seq<B>, xs: seq<A>): seq<B> {
    if xs == [] then [] else ConcatMap(f, xs[..|xs| - 1]) + f(xs[|xs| - 1])
  }

  lemma {:induction false} ConcatMapAppend<A, B>(f: A -> seq<B>, xs: seq<A>, ys: seq<A>)
    ensures ConcatMap(f, xs + ys) == ConcatMap(f, xs) + ConcatMap(f, ys)
  {
    if ys == [] {
      assert xs + ys == xs;
    } else {
      var front := ys[..|ys| - 1];
      assert (xs + ys)[..|xs + ys| - 1] == xs + front;
      ConcatMapAppend(f, xs, front);
      Assoc(ConcatMap(f, xs), ConcatMap(f, front), f(ys[|ys| - 1]));
    }
  }

  /** One more element. */
  lemma ConcatMapNext<A, B>(f: A -> seq<B>, xs: seq<A>, k: nat)
    requires k < |xs|
    ensures ConcatMap(f, xs[..k + 1]) == ConcatMap(f, xs[..k]) + f(xs[k])
  {
    assert xs[..k + 1][..k] == xs[..k];
  }

  /** `xs.filter(p)` */
  function Where<A>(p: A -> bool, xs: seq<A>): seq<A> {
    if xs == [] then []
    else Where(p, xs[..|xs| - 1]) + (if p(xs[|xs| - 1]) then [xs[|xs| - 1]] else [])
  }

  lemma {:induction false} WhereFirst<A>(p: A -> bool, xs: seq<A>)
    requires xs != []
    ensures Where(p, xs) == (if p(xs[0]) then [xs[0]] else []) + Where(p, xs[1..])
  {
    if |xs| > 1 {
      var front := xs[..|xs| - 1];
      WhereFirst(p, front);
      assert front[1..] == xs[1..][..|xs[1..]| - 1];
      Assoc(if p(xs[0]) then [xs[0]] else [], Where(p, front[1..]), if p(xs[|xs| - 1]) then [xs[|xs| - 1]] else []);
    }
  }

  /** Where `f` gives one element for those that satisfy `p`, and none for the others. */
  lemma {:induction false} ConcatMapIsWhere<A(!new), B>(f: A -> seq<B>, p: A -> bool, xs: seq<A>)
    requires forall x :: |f(x)| == if p(x) then 1 else 0
    ensures |ConcatMap(f, xs)| == |Where(p, xs)|
    ensures forall k | 0 <= k < |Where(p, xs)| :: p(Where(p, xs)[k]) && f(Where(p, xs)[k]) == [ConcatMap(f, xs)[k]]
  {
    if xs != [] {
      ConcatMapIsWhere(f, p, xs[..|xs| - 1]);
      assert p(xs[|xs| - 1]) ==> f(xs[|xs| - 1]) == [f(xs[|xs| - 1])[0]];
    }
  }

  lemma ConcatMapOne<A, B>(f: A -> seq<B>, x: A)
    ensures ConcatMap(f, [x]) == f(x)
  {
    assert [x][..0] == [];
  }
}
