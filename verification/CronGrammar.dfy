/** The grammar of cron expressions, printed and read back: what every well-formed expression means. */
module CronGrammar {
  import opened Text
  import opened CronExpression

  datatype Base = All | One(n: Safe) | Span(low: Safe, high: Safe)

  /** One comma-separated item of a field, such as `*`, `5`, `1-5` or any of them followed by a step. */
  datatype Item = Item(base: Base, step: Option<Safe>)

  function BaseText(b: Base): string {
    match b
    case All => "*"
    case One(n) => Decimal(n)
    case Span(low, high) => Decimal(low) + ['-'] + Decimal(high)
  }

  function ItemText(i: Item): string {
    BaseText(i.base) + (if i.step.Some? then ['/'] + Decimal(i.step.value) else [])
  }

  function Texts(items: seq<Item>): seq<string> {
    if items == [] then [] else [ItemText(items[0])] + Texts(items[1..])
  }

  function FieldText(items: seq<Item>): string {
    Join(Texts(items), [','])
  }

  // ---- What an item stands for ----

  function Low(b: Base): int {
    match b case All => 0 case One(n) => n case Span(low, _) => low
  }

  function High(b: Base): int {
    match b case All => MAX_SAFE_INTEGER case One(n) => n case Span(_, high) => high
  }

  predicate Covers(i: Item, value: int) {
    && Low(i.base) <= value <= High(i.base)
    && (i.step.Some? && i.step.value > 0 ==> (value - Low(i.base)) % i.step.value == 0)
  }

  /** The step is not zero and a number or span stays within the field's range. */
  predicate Acceptable(i: Item, min: int, max: int) {
    i.step != Some(0) && (i.base.All? || min <= Low(i.base) <= High(i.base) <= max)
  }

  function Meaning(i: Item): Option<Part> {
    if i.step == Some(0) then None
    else Some(Part(Low(i.base), High(i.base), if i.step.Some? then i.step.value else 1, i.base.All?))
  }

  // ---- Reading an item ----

  lemma BaseTextPlain(b: Base)
    ensures BaseText(b) != [] && NoSpace(BaseText(b)) && ',' !in BaseText(b) && '/' !in BaseText(b)
    ensures b.All? <==> BaseText(b) == "*"
    ensures b.Span? <==> '-' in BaseText(b)
  {
    match b
    case All =>
    case One(n) => assert BaseText(b)[0] in Decimal(n);
    case Span(low, high) => assert BaseText(b)[0] in Decimal(low);
  }

  lemma BaseRead(h: Host, b: Base, step: int)
    requires ReadsDecimals(h)
    ensures RangeOf(h, BaseText(b), step) == Some(Part(Low(b), High(b), step, b.All?))
  {
    BaseTextPlain(b);
    if b.Span? {
      SplitAt(Decimal(b.low), '-', Decimal(b.high));
      SplitNone(Decimal(b.high), '-');
      assert Split(BaseText(b), '-') == [Decimal(b.low), Decimal(b.high)];
    }
  }

  lemma ItemTextPlain(i: Item)
    ensures ItemText(i) != [] && NoSpace(ItemText(i)) && ',' !in ItemText(i)
  {
    BaseTextPlain(i.base);
  }

  lemma StepRead(h: Host, i: Item)
    requires ReadsDecimals(h)
    ensures ItemText(i) != []
    ensures StepOf(h, ItemText(i)) ==
            if i.step == Some(0) then None
            else Some((BaseText(i.base), if i.step.Some? then i.step.value else 1))
  {
    var text := BaseText(i.base);
    BaseTextPlain(i.base);
    if i.step.Some? {
      var digits := Decimal(i.step.value);
      SplitAt(text, '/', digits);
      SplitNone(digits, '/');
      assert ItemText(i) == text + ['/'] + digits;
      assert Split(ItemText(i), '/') == [text, digits];
      assert ItemText(i)[|text|] == '/';
    } else {
      assert ItemText(i) == text;
    }
  }

  lemma ItemRead(h: Host, i: Item)
    requires ReadsDecimals(h)
    ensures ParsePart(h, ItemText(i)) == Meaning(i)
  {
    StepRead(h, i);
    BaseRead(h, i.base, if i.step.Some? then i.step.value else 1);
  }

  // ---- Reading a field ----

  lemma {:induction false} FieldPieces(items: seq<Item>)
    requires items != []
    ensures Split(FieldText(items), ',') == Texts(items)
  {
    ItemTextPlain(items[0]);
    if |items| == 1 {
      SplitNone(ItemText(items[0]), ',');
      assert Texts(items[1..]) == [];
    } else {
      FieldPieces(items[1..]);
      SplitAt(ItemText(items[0]), ',', FieldText(items[1..]));
      assert Texts(items)[1..] == Texts(items[1..]);
    }
  }

  lemma {:induction false} TextsAre(items: seq<Item>)
    ensures |Texts(items)| == |items| && forall k | 0 <= k < |items| :: Texts(items)[k] == ItemText(items[k])
  {
    if items != [] {
      TextsAre(items[1..]);
    }
  }

  lemma FieldSegments(items: seq<Item>)
    requires items != []
    ensures Segments(FieldText(items)) == Texts(items)
  {
    FieldPieces(items);
    TextsAre(items);
    forall k | 0 <= k < |items| ensures Trim(Texts(items)[k]) == Texts(items)[k] {
      ItemTextPlain(items[k]);
      TrimFixes(Texts(items)[k]);
    }
  }

  lemma {:induction false} FieldTextPlain(items: seq<Item>)
    requires items != []
    ensures FieldText(items) != [] && NoSpace(FieldText(items))
  {
    ItemTextPlain(items[0]);
    if |items| > 1 {
      FieldTextPlain(items[1..]);
      assert Texts(items)[1..] == Texts(items[1..]);
    } else {
      assert Texts(items[1..]) == [];
    }
  }

  lemma CoversIs(i: Item, value: int)
    requires Meaning(i).Some?
    ensures Covers(i, value) <==> InStepRange(value, Meaning(i).value)
  {
    if i.step.None? {
      assert (value - Low(i.base)) % 1 == 0;
    }
  }

  predicate Hits(i: Item, value: int, alias: int) {
    Covers(i, value) || (alias != 0 && Covers(i, alias))
  }

  predicate SomeHit(items: seq<Item>, value: int, alias: int) {
    exists i | i in items :: Hits(i, value, alias)
  }

  lemma SomeHitFirst(items: seq<Item>, value: int, alias: int)
    requires items != []
    ensures SomeHit(items, value, alias) <==> Hits(items[0], value, alias) || SomeHit(items[1..], value, alias)
  {
    assert forall i :: i in items <==> i == items[0] || i in items[1..];
  }

  predicate NoZeroStep(items: seq<Item>) {
    forall i | i in items :: i.step != Some(0)
  }

  lemma {:induction false} SomeItemMatches(h: Host, items: seq<Item>, value: int, alias: int)
    requires ReadsDecimals(h) && NoZeroStep(items)
    ensures AnySegmentMatches(h, Texts(items), value, alias) <==> SomeHit(items, value, alias)
  {
    if items != [] {
      ItemRead(h, items[0]);
      CoversIs(items[0], value);
      CoversIs(items[0], alias);
      SomeItemMatches(h, items[1..], value, alias);
      SomeHitFirst(items, value, alias);
      assert Texts(items)[1..] == Texts(items[1..]);
    }
  }

  predicate AllAcceptable(items: seq<Item>, min: int, max: int) {
    forall i | i in items :: Acceptable(i, min, max)
  }

  predicate TextAccepted(h: Host, text: string, min: int, max: int) {
    ParsePart(h, text).Some? && PartInRange(ParsePart(h, text).value, min, max)
  }

  lemma {:induction false} TextsAccepted(h: Host, items: seq<Item>, min: int, max: int)
    requires ReadsDecimals(h)
    ensures (forall t | t in Texts(items) :: TextAccepted(h, t, min, max)) <==> AllAcceptable(items, min, max)
  {
    if items != [] {
      ItemRead(h, items[0]);
      TextsAccepted(h, items[1..], min, max);
      assert TextAccepted(h, ItemText(items[0]), min, max) <==> Acceptable(items[0], min, max);
      assert forall i :: i in items <==> i == items[0] || i in items[1..];
      assert forall t :: t in Texts(items) <==> t == ItemText(items[0]) || t in Texts(items[1..]);
    }
  }

  /** A printed field is accepted if and only if all its items are. */
  lemma FieldAccepted(h: Host, items: seq<Item>, min: int, max: int)
    requires ReadsDecimals(h) && items != []
    ensures FieldValid(h, FieldText(items), min, max) <==> AllAcceptable(items, min, max)
  {
    FieldSegments(items);
    TextsAccepted(h, items, min, max);
    assert FieldValid(h, FieldText(items), min, max) <==>
           forall t | t in Texts(items) :: TextAccepted(h, t, min, max);
  }

  /** A printed field without zero steps matches what one of its items covers. */
  lemma FieldMatches(h: Host, items: seq<Item>, value: int, alias: int)
    requires ReadsDecimals(h) && items != [] && NoZeroStep(items)
    ensures MatchesField(h, FieldText(items), value, alias) <==> SomeHit(items, value, alias)
  {
    FieldSegments(items);
    SomeItemMatches(h, items, value, alias);
  }

  // ---- Reading an expression ----

  type Schedule = fields: seq<seq<Item>> | |fields| == 5 && forall f | f in fields :: f != []
    witness [[Item(All, None)], [Item(All, None)], [Item(All, None)], [Item(All, None)], [Item(All, None)]]

  function ScheduleText(s: Schedule): string {
    FieldText(s[0]) + " "
    + (FieldText(s[1]) + " " + (FieldText(s[2]) + " " + (FieldText(s[3]) + " " + FieldText(s[4]))))
  }

  lemma ScheduleFields(s: Schedule)
    ensures Fields(ScheduleText(s)) == FieldTexts(s)
  {
    FieldTextPlain(s[0]);
    FieldTextPlain(s[1]);
    FieldTextPlain(s[2]);
    FieldTextPlain(s[3]);
    FieldTextPlain(s[4]);
    FiveWords(FieldText(s[0]), FieldText(s[1]), FieldText(s[2]), FieldText(s[3]), FieldText(s[4]));
  }

  predicate Word(w: string) {
    w != [] && NoSpace(w)
  }

  lemma ThreeWords(c: string, d: string, e: string)
    requires Word(c) && Word(d) && Word(e)
    ensures SplitSpaces(c + " " + (d + " " + e)) == [c, d, e]
  {
    SplitSpacesWord(e);
    SplitSpacesCons(d, e);
    SplitSpacesCons(c, d + " " + e);
  }

  lemma FiveWords(a: string, b: string, c: string, d: string, e: string)
    requires Word(a) && Word(b) && Word(c) && Word(d) && Word(e)
    ensures Fields(a + " " + (b + " " + (c + " " + (d + " " + e)))) == [a, b, c, d, e]
  {
    var cde := c + " " + (d + " " + e);
    var bcde := b + " " + cde;
    var all := a + " " + bcde;
    ThreeWords(c, d, e);
    SplitSpacesCons(b, cde);
    SplitSpacesCons(a, bcde);
    assert all[0] == a[0] && all[|all| - 1] == e[|e| - 1];
    TrimFixes(all);
  }

  /** The five parts match the five fields of a time; weekday 7 is tried on every day. */
  predicate Five<T>(matches: (T, int, int) -> bool, parts: seq<T>, p: TimeParts)
    requires |parts| == 5
  {
    && matches(parts[0], p.minute, 0)
    && matches(parts[1], p.hour, 0)
    && matches(parts[2], p.dayOfMonth, 0)
    && matches(parts[3], p.month, 0)
    && matches(parts[4], p.dayOfWeek, 7)
  }

  function Matcher(h: Host): (string, int, int) -> bool {
    (text, value, alias) => MatchesField(h, text, value, alias)
  }

  function Hitter(): (seq<Item>, int, int) -> bool {
    (items, value, alias) => SomeHit(items, value, alias)
  }

  /** Some item of each field covers the time. */
  predicate CoversTime(s: Schedule, p: TimeParts) {
    Five(Hitter(), s, p)
  }

  predicate InRange(s: Schedule) {
    && AllAcceptable(s[0], 0, 59) && AllAcceptable(s[1], 0, 23) && AllAcceptable(s[2], 1, 31)
    && AllAcceptable(s[3], 1, 12) && AllAcceptable(s[4], 0, 7)
  }

  /** An expression of the grammar is accepted if and only if every item is within its field's range, no step zero. */
  lemma ScheduleAccepted(h: Host, s: Schedule)
    requires ReadsDecimals(h)
    ensures ExpressionValid(h, ScheduleText(s)) <==> InRange(s)
  {
    ScheduleFields(s);
    FieldAccepted(h, s[0], 0, 59);
    FieldAccepted(h, s[1], 0, 23);
    FieldAccepted(h, s[2], 1, 31);
    FieldAccepted(h, s[3], 1, 12);
    FieldAccepted(h, s[4], 0, 7);
  }

  lemma DueMeans(h: Host, schedule: string, f: seq<string>, zone: string, now: int)
    requires Fields(schedule) == f && |f| == 5
    ensures IsDue(h, schedule, zone, now) <==>
            h.timeParts(now, zone).Some? && Five(Matcher(h), f, h.timeParts(now, zone).value)
  {
  }

  lemma FiveSame<T, U>(m: (T, int, int) -> bool, n: (U, int, int) -> bool, a: seq<T>, b: seq<U>, p: TimeParts)
    requires |a| == |b| == 5
    requires forall k, value, alias | 0 <= k < 5 :: m(a[k], value, alias) == n(b[k], value, alias)
    ensures Five(m, a, p) == Five(n, b, p)
  {
  }

  function FieldTexts(s: Schedule): (f: seq<string>)
    ensures |f| == 5
  {
    [FieldText(s[0]), FieldText(s[1]), FieldText(s[2]), FieldText(s[3]), FieldText(s[4])]
  }

  lemma SameAt(h: Host, items: seq<Item>, field: string, value: int, alias: int)
    requires ReadsDecimals(h) && items != [] && NoZeroStep(items) && field == FieldText(items)
    ensures Matcher(h)(field, value, alias) == Hitter()(items, value, alias)
  {
    FieldMatches(h, items, value, alias);
  }

  lemma FieldsSame(h: Host, s: Schedule, f: seq<string>)
    requires ReadsDecimals(h) && (forall k | 0 <= k < 5 :: NoZeroStep(s[k])) && f == FieldTexts(s)
    ensures forall k, value, alias | 0 <= k < 5 :: Matcher(h)(f[k], value, alias) == Hitter()(s[k], value, alias)
  {
    forall k, value, alias | 0 <= k < 5 ensures Matcher(h)(f[k], value, alias) == Hitter()(s[k], value, alias) {
      SameAt(h, s[k], f[k], value, alias);
    }
  }

  lemma DueByFields(h: Host, s: Schedule, f: seq<string>, schedule: string, zone: string, now: int)
    requires ReadsDecimals(h) && forall k | 0 <= k < 5 :: NoZeroStep(s[k])
    requires f == FieldTexts(s) && Fields(schedule) == f
    ensures IsDue(h, schedule, zone, now) <==>
            h.timeParts(now, zone).Some? && CoversTime(s, h.timeParts(now, zone).value)
  {
    DueMeans(h, schedule, f, zone, now);
    if h.timeParts(now, zone).Some? {
      FieldsSame(h, s, f);
      FiveSame(Matcher(h), Hitter(), f, s, h.timeParts(now, zone).value);
    }
  }

  /** Every expression of the grammar without zero steps is due exactly at the times that all five fields cover. */
  lemma ScheduleDue(h: Host, s: Schedule, zone: string, now: int)
    requires ReadsDecimals(h) && forall k | 0 <= k < 5 :: NoZeroStep(s[k])
    ensures IsDue(h, ScheduleText(s), zone, now) <==>
            h.timeParts(now, zone).Some? && CoversTime(s, h.timeParts(now, zone).value)
  {
    ScheduleFields(s);
    DueByFields(h, s, FieldTexts(s), ScheduleText(s), zone, now);
  }
}
