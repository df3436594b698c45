/**
 Cron expressions: the five fields, their segments, and which minutes they match, with what the JavaScript runtime
 contributes to reading them as a parameter.
 */
module CronExpression {
  import opened Text

  datatype TimeParts = TimeParts(minute: int, hour: int, dayOfMonth: int, month: int, dayOfWeek: int)

  /**
   What the JavaScript runtime supplies. `number(text)` is `Some(n)` exactly when `Number(text)` is the
   integer `n`; `zoneValid` says whether `Intl` accepts a time zone; `timeParts(t, zone)` breaks the
   instant `t` (milliseconds) down, or is `None` when that fails.
   */
  datatype Host = Host(
    number: string -> Option<int>,
    zoneValid: string -> bool,
    timeParts: (int, string) -> Option<TimeParts>)

  const MAX_SAFE_INTEGER := 9007199254740991

  /** The natural numbers that a JavaScript number holds exactly. */
  type Safe = n: nat | n <= MAX_SAFE_INTEGER

  /** `Number` reads back what a template literal printed for a natural number it holds exactly. */
  ghost predicate ReadsDecimals(h: Host) {
    forall n: Safe :: h.number(Decimal(n)) == Some(n)
  }

  datatype Part = Part(start: int, end: int, step: int, wildcard: bool)

  /** `expression.split(/\s+/)`: pieces between maximal runs of white space. */
  function SplitSpaces(s: string): (words: seq<string>)
    ensures |words| >= 1
    decreases |s|
  {
    if s == [] then [[]]
    else if IsSpace(s[0]) then [[]] + SplitSpaces(TrimStart(s))
    else var rest := SplitSpaces(s[1..]); [[s[0]] + rest[0]] + rest[1..]
  }

  function Fields(expression: string): seq<string> {
    SplitSpaces(Trim(expression))
  }

  function StepOf(h: Host, part: string): (r: Option<(string, int)>)
    ensures r.Some? ==> r.value.1 > 0
  {
    if '/' !in part then Some((part, 1)) else
    var pieces := Split(part, '/');
    if |pieces| < 2 || pieces[0] == [] || pieces[1] == [] then None else
    match h.number(pieces[1])
    case None => None
    case Some(n) => if n <= 0 then None else Some((pieces[0], n))
  }

  function RangeOf(h: Host, range: string, step: int): Option<Part> {
    if range == "*" then Some(Part(0, MAX_SAFE_INTEGER, step, true))
    else if '-' in range then
      var ends := Split(range, '-');
      if |ends| < 2 || ends[0] == [] || ends[1] == [] then None else
      match (h.number(ends[0]), h.number(ends[1]))
      case (Some(a), Some(b)) => Some(Part(a, b, step, false))
      case _ => None
    else
      match h.number(range)
      case Some(v) => Some(Part(v, v, step, false))
      case None => None
  }

  /** `parseCronFieldPart`; `None` stands for every error it returns. */
  function ParsePart(h: Host, part: string): (r: Option<Part>)
    ensures r.Some? ==> r.value.step > 0
  {
    if part == [] then None else
    match StepOf(h, part)
    case None => None
    case Some((range, step)) => RangeOf(h, range, step)
  }

  function Segments(field: string): seq<string> {
    var pieces := Split(field, ',');
    seq(|pieces|, i requires 0 <= i < |pieces| => Trim(pieces[i]))
  }

  predicate PartInRange(part: Part, min: int, max: int) {
    part.wildcard || (min <= part.start <= part.end <= max)
  }

  /** `parseCronField`: every segment parses and, unless a wildcard, stays within the field's range. */
  predicate FieldValid(h: Host, field: string, min: int, max: int) {
    forall s | s in Segments(field) :: ParsePart(h, s).Some? && PartInRange(ParsePart(h, s).value, min, max)
  }

  /** `validateCronExpression` */
  predicate ExpressionValid(h: Host, expression: string) {
    var f := Fields(expression);
    && |f| == 5
    && FieldValid(h, f[0], 0, 59)
    && FieldValid(h, f[1], 0, 23)
    && FieldValid(h, f[2], 1, 31)
    && FieldValid(h, f[3], 1, 12)
    && FieldValid(h, f[4], 0, 7)
  }

  predicate InStepRange(value: int, part: Part)
    requires part.step > 0
  {
    part.start <= value <= part.end && (value - part.start) % part.step == 0
  }

  /** The loop of `matchesField`: an unreadable segment ends it with "no match". */
  predicate AnySegmentMatches(h: Host, segments: seq<string>, value: int, alias: int) {
    segments != [] &&
    match ParsePart(h, segments[0])
    case None => false
    case Some(part) =>
      || InStepRange(value, part)
      || (alias != 0 && InStepRange(alias, part))
      || AnySegmentMatches(h, segments[1..], value, alias)
  }

  predicate MatchesField(h: Host, field: string, value: int, alias: int) {
    AnySegmentMatches(h, Segments(field), value, alias)
  }

  /** `isJobDue` for an active job. */
  predicate IsDue(h: Host, schedule: string, zone: string, now: int) {
    var f := Fields(schedule);
    |f| == 5 &&
    match h.timeParts(now, zone)
    case None => false
    case Some(p) =>
      && MatchesField(h, f[0], p.minute, 0)
      && MatchesField(h, f[1], p.hour, 0)
      && MatchesField(h, f[2], p.dayOfMonth, 0)
      && MatchesField(h, f[3], p.month, 0)
      && MatchesField(h, f[4], p.dayOfWeek, 7)
  }

  // ---- The weekday alias ----

  lemma {:induction false} SegmentsWithAlias(h: Host, segments: seq<string>, value: int)
    requires forall s | s in segments :: ParsePart(h, s).Some?
    ensures AnySegmentMatches(h, segments, value, 7) <==>
            AnySegmentMatches(h, segments, value, 0) || AnySegmentMatches(h, segments, 7, 0)
  {
    if segments != [] {
      SegmentsWithAlias(h, segments[1..], value);
    }
  }

  /**
   The alias 7 is tried on every weekday, not on Sunday only. On a valid field the code agrees with
   "7 means Sunday" on all seven days if and only if the field does not cover 7 or it covers every day
   from Monday to Saturday by itself.
   */
  lemma WeekdaySevenIsSunday(h: Host, field: string)
    requires FieldValid(h, field, 0, 7)
    ensures (forall day | 0 <= day <= 6 ::
               MatchesField(h, field, day, 7) <==>
               MatchesField(h, field, day, 0) || (day == 0 && MatchesField(h, field, 7, 0)))
            <==>
            (!MatchesField(h, field, 7, 0) || forall day | 1 <= day <= 6 :: MatchesField(h, field, day, 0))
  {
    forall day | 0 <= day <= 6
      ensures MatchesField(h, field, day, 7) <==> MatchesField(h, field, day, 0) || MatchesField(h, field, 7, 0)
    {
      SegmentsWithAlias(h, Segments(field), day);
    }
  }

  /** The field `7` is valid, and it matches Monday. */
  lemma SevenMatchesMonday(h: Host)
    requires ReadsDecimals(h)
    ensures FieldValid(h, "7", 0, 7) && MatchesField(h, "7", 1, 7) && !MatchesField(h, "7", 1, 0)
  {
    assert Decimal(7) == "7";
    var seven: Safe := 7;
    assert h.number(Decimal(seven)) == Some(7);
    assert Split("7", ',') == ["7"] by { SplitNone("7", ','); }
    TrimFixes("7");
    assert Segments("7") == ["7"] && ["7"][1..] == [];
    assert ParsePart(h, "7") == Some(Part(7, 7, 1, false));
    assert !AnySegmentMatches(h, [], 1, 0);
  }

  /** Surrounding white space never changes what an expression means. */
  lemma DueIgnoresPadding(h: Host, schedule: string, zone: string, now: int)
    ensures IsDue(h, Trim(schedule), zone, now) == IsDue(h, schedule, zone, now)
    ensures Fields(Trim(schedule)) == Fields(schedule)
  {
    TrimFixes(Trim(schedule));
  }

  // ---- Reading back the expressions a program prints ----

  lemma {:induction false} SplitSpacesWord(word: string)
    requires NoSpace(word)
    ensures SplitSpaces(word) == [word]
  {
    if word != [] {
      SplitSpacesWord(word[1..]);
      assert [word[0]] + word[1..] == word;
    }
  }

  lemma {:induction false} SplitSpacesAt(word: string, tail: string)
    requires NoSpace(word) && tail != [] && IsSpace(tail[0])
    ensures SplitSpaces(word + tail) == [word] + SplitSpaces(TrimStart(tail))
  {
    if word == [] {
      assert word + tail == tail;
    } else {
      SplitSpacesAt(word[1..], tail);
      assert (word + tail)[1..] == word[1..] + tail;
      assert [word[0]] + word[1..] == word;
    }
  }

  lemma SplitSpacesGap(word: string, gap: string, rest: string)
    requires NoSpace(word) && gap != "" && Blank(gap) && rest != [] && !IsSpace(rest[0])
    ensures SplitSpaces(word + gap + rest) == [word] + SplitSpaces(rest)
  {
    assert gap[0] in gap;
    Assoc(word, gap, rest);
    SplitSpacesAt(word, gap + rest);
    TrimStartPadded(gap, rest);
  }

  lemma SplitSpacesCons(word: string, rest: string)
    requires NoSpace(word) && rest != [] && !IsSpace(rest[0])
    ensures SplitSpaces(word + " " + rest) == [word] + SplitSpaces(rest)
  {
    SplitSpacesGap(word, " ", rest);
  }

  predicate IsWord(word: string) {
    word != "" && NoSpace(word)
  }

  /** White space, one character at least. */
  predicate IsGap(gap: string) {
    gap != "" && Blank(gap)
  }

  /** The words with the gaps between them. */
  function Spread(words: seq<string>, gaps: seq<string>): string
    requires |words| == |gaps| + 1
  {
    if gaps == [] then words[0] else words[0] + gaps[0] + Spread(words[1..], gaps[1..])
  }

  lemma {:induction false} SpreadEnds(words: seq<string>, gaps: seq<string>)
    requires |words| == |gaps| + 1 && forall w | w in words :: IsWord(w)
    ensures var s := Spread(words, gaps); s != "" && !IsSpace(s[0]) && !IsSpace(s[|s| - 1])
  {
    assert words[0] in words && IsWord(words[0]);
    assert words[0][0] in words[0] && words[0][|words[0]| - 1] in words[0];
    if gaps != [] {
      SpreadEnds(words[1..], gaps[1..]);
      var rest := Spread(words[1..], gaps[1..]);
      assert Spread(words, gaps)[|Spread(words, gaps)| - 1] == rest[|rest| - 1];
    }
  }

  lemma {:induction false} SplitSpacesSpread(words: seq<string>, gaps: seq<string>)
    requires |words| == |gaps| + 1
    requires (forall w | w in words :: IsWord(w)) && (forall g | g in gaps :: IsGap(g))
    ensures SplitSpaces(Spread(words, gaps)) == words
  {
    assert words[0] in words && IsWord(words[0]);
    if gaps == [] {
      SplitSpacesWord(words[0]);
    } else {
      assert gaps[0] in gaps && IsGap(gaps[0]);
      SpreadEnds(words[1..], gaps[1..]);
      SplitSpacesSpread(words[1..], gaps[1..]);
      SplitSpacesGap(words[0], gaps[0], Spread(words[1..], gaps[1..]));
    }
  }

  /** The fields of an expression are its words, whatever white space stands between, before and behind them. */
  lemma FieldsAreWords(words: seq<string>, gaps: seq<string>, before: string, after: string, text: string)
    requires |words| == |gaps| + 1 && Blank(before) && Blank(after)
    requires (forall w | w in words :: IsWord(w)) && (forall g | g in gaps :: IsGap(g))
    requires text == before + Spread(words, gaps) + after
    ensures Fields(text) == words
  {
    SpreadEnds(words, gaps);
    SplitSpacesSpread(words, gaps);
    FieldsPadded(before, Spread(words, gaps), after, text, words);
  }

  lemma FieldsPadded(before: string, s: string, after: string, text: string, words: seq<string>)
    requires Blank(before) && Blank(after) && s != [] && !IsSpace(s[0]) && !IsSpace(s[|s| - 1])
    requires text == before + s + after && words == SplitSpaces(s)
    ensures Fields(text) == words
  {
    TrimPadded(before, s, after);
  }
}
