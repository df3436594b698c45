/** From a watcher's interval to a cron expression, and how often that expression really fires. */
module WatcherCadence {
  import opened Text
  import opened CronExpression
  import opened CronGrammar
  import opened NextRun

  /** An interval whose minutes a JavaScript number holds exactly: up to some 17 billion years. */
  type Interval = v: real | v <= 60.0 * MAX_SAFE_INTEGER as real

  /** A JavaScript number of seconds; `NotFinite` stands for NaN and the infinities. */
  datatype Seconds = Finite(value: Interval) | NotFinite

  /** `Math.ceil(seconds / 60)` */
  function CeilMinutes(value: Interval): (minutes: int)
    ensures minutes <= MAX_SAFE_INTEGER
  {
    var exact: real := value;
    -((-exact / 60.0).Floor)
  }

  /** `intervalToCron` */
  function IntervalToCron(seconds: Seconds): string {
    if seconds.NotFinite? || seconds.value < 60.0 then "* * * * *"
    else
      var minutes := CeilMinutes(seconds.value);
      if minutes <= 1 then "* * * * *"
      else if minutes < 60 then "*/" + Decimal(minutes) + " * * * *"
      else if minutes % 60 == 0 then
        var hours := minutes / 60;
        if hours == 1 then "0 * * * *" else "0 */" + Decimal(hours) + " * * *"
      else "*/" + Decimal(if minutes < 59 then minutes else 59) + " * * * *"
  }

  /** The longest wait, in minutes, that the interval asks for. */
  function AskedMinutes(seconds: Seconds): int {
    if seconds.NotFinite? || CeilMinutes(seconds.value) < 1 then 1 else CeilMinutes(seconds.value)
  }

  /** The first hour of a day is shown as 0 or as 24, depending on the runtime. */
  type Midnight = hour: int | hour == 0 || hour == 24

  function ShownHour(hour: int, midnight: Midnight): int {
    if hour == 0 then midnight else hour
  }

  /** At the start of minute `m` the zone's clock shows `m + offset`. */
  ghost predicate ShowsOffset(h: Host, zone: string, offset: int, midnight: Midnight, m: int) {
    h.timeParts(m * MINUTE, zone).Some? &&
    var p := h.timeParts(m * MINUTE, zone).value;
    && p.minute == (m + offset) % 60
    && p.hour == ShownHour((m + offset) / 60 % 24, midnight)
    && 1 <= p.dayOfMonth <= 31 && 1 <= p.month <= 12 && 0 <= p.dayOfWeek <= 6
  }

  /** The zone has one offset from UTC after minute `after` up to minute `until`. */
  ghost predicate ConstantOffset(h: Host, zone: string, offset: int, midnight: Midnight, after: int, until: int) {
    forall m | after < m <= until :: ShowsOffset(h, zone, offset, midnight, m)
  }

  /** The longest wait for a firing: what the interval asks for, but at most a day. */
  function LongestWait(seconds: Seconds): int {
    if AskedMinutes(seconds) < DAY then AskedMinutes(seconds) else DAY
  }

  const DAY := 1440

  /** The minute and hour fields that `intervalToCron` prints. */
  datatype Every = Star | Zero | Step(n: Safe)

  function ItemOf(e: Every): Item {
    match e case Star => Item(All, None) case Zero => Item(One(0), None) case Step(n) => Item(All, Some(n))
  }

  predicate Fires(e: Every, value: int) {
    match e case Star => true case Zero => value == 0 case Step(n) => n > 0 && value % n == 0
  }

  function Rhythm(seconds: Seconds): (Every, Every) {
    if seconds.NotFinite? || seconds.value < 60.0 || CeilMinutes(seconds.value) <= 1 then (Star, Star)
    else
      var minutes := CeilMinutes(seconds.value);
      if minutes < 60 then (Step(minutes), Star)
      else if minutes == 60 then (Zero, Star)
      else if minutes % 60 == 0 then (Zero, Step(minutes / 60))
      else (Step(59), Star)
  }

  function EveryDay(minute: Every, hour: Every): Schedule {
    [[ItemOf(minute)], [ItemOf(hour)], [ItemOf(Star)], [ItemOf(Star)], [ItemOf(Star)]]
  }

  function PrintedItem(e: Every): string {
    match e case Star => "*" case Zero => "0" case Step(n) => "*/" + Decimal(n)
  }

  lemma OneItem(e: Every)
    ensures FieldText([ItemOf(e)]) == PrintedItem(e)
  {
    assert Texts([ItemOf(e)]) == [ItemText(ItemOf(e))];
    assert Decimal(0) == "0";
    if e.Step? { assert "*/" + Decimal(e.n) == "*" + (['/'] + Decimal(e.n)); }
  }

  lemma EveryDayText(minute: Every, hour: Every, schedule: string)
    requires schedule == PrintedItem(minute) + " " + (PrintedItem(hour) + " * * *")
    ensures ScheduleText(EveryDay(minute, hour)) == schedule
  {
    OneItem(minute);
    OneItem(hour);
    OneItem(Star);
    assert "*" + " " + ("*" + " " + "*") == "* * *";
    assert PrintedItem(hour) + " " + "* * *" == PrintedItem(hour) + " * * *";
  }

  lemma HourStar(minute: string)
    ensures minute + " * * * *" == minute + " " + ("*" + " * * *")
  {
  }

  lemma HourStep(digits: string)
    ensures "0 */" + digits + " * * *" == "0" + " " + ("*/" + digits + " * * *")
  {
  }

  lemma PrintedText(seconds: Seconds)
    ensures IntervalToCron(seconds) ==
            PrintedItem(Rhythm(seconds).0) + " " + (PrintedItem(Rhythm(seconds).1) + " * * *")
  {
    match Rhythm(seconds) {
      case (Zero, Step(n)) => HourStep(Decimal(n));
      case (minute, _) => HourStar(PrintedItem(minute));
    }
  }

  /** The schedule that an interval is printed as. */
  function Printed(seconds: Seconds): (s: Schedule)
    ensures ScheduleText(s) == IntervalToCron(seconds)
  {
    PrintedText(seconds);
    EveryDayText(Rhythm(seconds).0, Rhythm(seconds).1, IntervalToCron(seconds));
    EveryDay(Rhythm(seconds).0, Rhythm(seconds).1)
  }

  lemma EveryDayInRange(minute: Every, hour: Every)
    requires (minute.Step? ==> minute.n > 0) && (hour.Step? ==> hour.n > 0)
    ensures InRange(EveryDay(minute, hour)) && forall k | 0 <= k < 5 :: NoZeroStep(EveryDay(minute, hour)[k])
  {
  }

  lemma EveryDayFires(minute: Every, hour: Every, p: TimeParts)
    requires (minute.Step? ==> minute.n > 0) && (hour.Step? ==> hour.n > 0)
    requires 0 <= p.minute <= 59 && 0 <= p.hour <= 24
    requires 1 <= p.dayOfMonth <= 31 && 1 <= p.month <= 12 && 0 <= p.dayOfWeek <= 6
    ensures CoversTime(EveryDay(minute, hour), p) <==> Fires(minute, p.minute) && Fires(hour, p.hour)
  {
    ItemCovers(minute, p.minute);
    ItemCovers(hour, p.hour);
    ItemCovers(Star, p.dayOfMonth);
    ItemCovers(Star, p.month);
    ItemCovers(Star, p.dayOfWeek);
  }

  lemma ItemCovers(e: Every, value: int)
    requires (e.Step? ==> e.n > 0) && 0 <= value <= 59
    ensures Hitter()([ItemOf(e)], value, 0) <==> Fires(e, value)
    ensures e.Star? ==> Hitter()([ItemOf(e)], value, 7)
  {
    assert ItemOf(e) in [ItemOf(e)];
  }

  lemma PrintedFields(seconds: Seconds)
    ensures |Fields(IntervalToCron(seconds))| == 5
  {
    ScheduleFields(Printed(seconds));
  }

  lemma PrintedExpressionValid(h: Host, seconds: Seconds)
    requires ReadsDecimals(h)
    ensures |Fields(IntervalToCron(seconds))| == 5 && ExpressionValid(h, IntervalToCron(seconds))
  {
    PrintedFields(seconds);
    ScheduleAccepted(h, Printed(seconds));
    EveryDayInRange(Rhythm(seconds).0, Rhythm(seconds).1);
  }

  /** A printed expression is due exactly at the minutes its rhythm names. */
  lemma PrintedExpressionDue(h: Host, seconds: Seconds, zone: string, offset: int, midnight: Midnight, m: int)
    requires ReadsDecimals(h) && ShowsOffset(h, zone, offset, midnight, m)
    ensures Due(h, IntervalToCron(seconds), zone)(m) <==> FiresAt(seconds, m + offset, midnight)
  {
    var (minute, hour) := Rhythm(seconds);
    EveryDayInRange(minute, hour);
    ScheduleDue(h, Printed(seconds), zone, m * MINUTE);
    EveryDayFires(minute, hour, h.timeParts(m * MINUTE, zone).value);
  }

  lemma DivModUnique(n: int, q: int, r: int, base: int)
    requires 0 <= r < base && n == q * base + r
    ensures n / base == q && n % base == r
  {
    SameQuotient(q, r, n / base, n % base, base);
  }

  lemma AtLeastBase(k: int, base: int)
    requires k >= 1 && base > 0
    ensures k * base >= base
  {
  }

  lemma SameQuotient(q: int, r: int, q': int, r': int, base: int)
    requires 0 <= r < base && 0 <= r' < base && q * base + r == q' * base + r'
    ensures q == q' && r == r'
  {
    if q > q' {
      AtLeastBase(q - q', base);
    } else if q < q' {
      AtLeastBase(q' - q, base);
    }
  }

  /** The least multiple of `step` that is at least `r`. */
  lemma RoundUp(r: nat, step: int) returns (up: nat)
    requires step > 0
    ensures r <= up < r + step && up % step == 0
  {
    var k := (r + step - 1) / step;
    up := k * step;
    DivModUnique(up, k, 0, step);
  }

  /** Among any `step` consecutive numbers one has its residue modulo `base` divisible by `step`. */
  lemma SomeMultiple(x: int, base: int, step: int) returns (y: int)
    requires base > 0 && step > 0
    ensures x <= y < x + step && y % base % step == 0
  {
    var q, r := x / base, x % base;
    var up := RoundUp(r, step);
    if up < base {
      y := x + (up - r);
      DivModUnique(y, q, up, base);
    } else {
      y := x + (base - r);
      assert y == (q + 1) * base + 0;
      DivModUnique(y, q + 1, 0, base);
    }
  }

  /** The rhythm of the printed expression names minute `x` of local time. */
  predicate FiresAt(seconds: Seconds, x: int, midnight: Midnight) {
    FireAt(Rhythm(seconds).0, Rhythm(seconds).1, x, midnight)
  }

  predicate FireAt(minute: Every, hour: Every, x: int, midnight: Midnight) {
    Fires(minute, x % 60) && Fires(hour, ShownHour(x / 60 % 24, midnight))
  }

  lemma OnTheHour(hour: int)
    ensures 60 * hour % 60 == 0 && 60 * hour / 60 == hour
  {
  }

  /** Midnight is shown as 0, or the rhythm has no hour step, or one that divides 24. */
  predicate EvenHours(seconds: Seconds, midnight: Midnight) {
    var hour := Rhythm(seconds).1;
    midnight == 0 || !hour.Step? || (hour.n > 0 && 24 % hour.n == 0)
  }

  /** Among any `n` hours, and among any 24, one is shown as a multiple of `n`. */
  lemma SomeHour(n: Safe, from: int, midnight: Midnight) returns (hour: int)
    requires n > 0 && (midnight == 0 || 24 % n == 0)
    ensures from <= hour < from + n && hour < from + 24 && ShownHour(hour % 24, midnight) % n == 0
  {
    assert midnight == 24 ==> n <= 24;
    hour := SomeMultiple(from, 24, if n < 24 then n else 24);
  }

  /** From every minute on there is a firing one within the asked time, and within one day however long that is. */
  lemma SomeFiringMinute(seconds: Seconds, x: int, midnight: Midnight) returns (y: int)
    requires EvenHours(seconds, midnight)
    ensures x <= y < x + LongestWait(seconds) && FiresAt(seconds, y, midnight)
  {
    match Rhythm(seconds) {
      case (Star, _) => y := x;
      case (Step(n), _) => y := SomeMultiple(x, 60, n);
      case (Zero, Star) => y := SomeMultiple(x, 60, 60);
      case (Zero, Step(n)) =>
        var hour := SomeHour(n, (x + 59) / 60, midnight);
        OnTheHour(hour);
        y := 60 * hour;
    }
  }

  lemma DueWithinAsked(h: Host, seconds: Seconds, zone: string, offset: int, midnight: Midnight, after: int)
    returns (m: int)
    requires ReadsDecimals(h) && EvenHours(seconds, midnight)
    requires ConstantOffset(h, zone, offset, midnight, after, after + LongestWait(seconds))
    ensures after < m <= after + LongestWait(seconds)
    ensures Due(h, IntervalToCron(seconds), zone)(m)
  {
    var y := SomeFiringMinute(seconds, after + 1 + offset, midnight);
    m := y - offset;
    assert ShowsOffset(h, zone, offset, midnight, m);
    PrintedExpressionDue(h, seconds, zone, offset, midnight, m);
  }

  /**
   A watcher is never checked less often than asked. For every interval the printed expression is accepted,
   and from every instant the search finds a next firing minute at most `max(1, ceil(seconds / 60))` minutes and at most
   a day on, provided that the zone does not change its offset in that time. Taking `from` to be a firing minute bounds
   the gap between consecutive firings.
   */
  lemma NeverCheckedLessOftenThanAsked(h: Host, seconds: Seconds, zone: string, offset: int, midnight: Midnight,
                                       from: int)
    returns (m: int)
    requires ReadsDecimals(h) && h.zoneValid(zone) && EvenHours(seconds, midnight)
    requires ConstantOffset(h, zone, offset, midnight, from / MINUTE, from / MINUTE + LongestWait(seconds))
    ensures ExpressionValid(h, IntervalToCron(seconds))
    ensures NextRunAt(h, IntervalToCron(seconds), zone, from) == Found(m * MINUTE)
    ensures LeastDue(h, IntervalToCron(seconds), zone, from, m)
    ensures m <= from / MINUTE + LongestWait(seconds)
  {
    PrintedExpressionValid(h, seconds);
    var due := DueWithinAsked(h, seconds, zone, offset, midnight, from / MINUTE);
    m := SearchBounded(Due(h, IntervalToCron(seconds), zone), from, due);
  }

  // ---- Hour steps that do not divide the day ----

  /** The last hour before midnight that a step of `n` hours reaches. */
  function LastHour(n: Safe): int
    requires n > 0
  {
    23 / n * n
  }

  lemma NoMultiple(hour: int, q: int, n: int)
    requires n > 0 && q * n < hour < q * n + n
    ensures hour % n != 0
  {
    DivModUnique(hour, q, hour - q * n, n);
  }

  lemma LastHourBounds(n: Safe)
    requires n > 0
    ensures LastHour(n) <= 23 < LastHour(n) + n && (n > 23 ==> LastHour(n) == 0)
  {
    var q := 23 / n;
    assert 23 == q * n + 23 % n;
    if n > 23 { assert q == 0; }
  }

  /** With midnight shown as 24, no hour up to `n` hours after the last one is a multiple of `n`. */
  lemma NoHour(n: Safe, hour: int)
    requires n > 0 && 24 % n != 0 && LastHour(n) < hour <= LastHour(n) + n
    ensures ShownHour(hour % 24, 24) % n != 0
  {
    LastHourBounds(n);
    if hour < 24 {
      NoMultiple(hour, 23 / n, n);
    } else if hour % 24 == 0 {
      assert ShownHour(hour % 24, 24) == 24;
    } else {
      assert hour - 24 < n && hour % 24 <= hour - 24;
      NoMultiple(hour % 24, 0, n);
    }
  }

  /** The minute of a day after which nothing fires for more than the asked time. */
  function GapStart(seconds: Seconds): int
    requires Rhythm(seconds).1.Step? && Rhythm(seconds).1.n > 0
  {
    60 * LastHour(Rhythm(seconds).1.n)
  }

  /** Every day shows the same hours and minutes. */
  lemma SameEveryDay(y: int, days: int)
    ensures (y + DAY * days) % 60 == y % 60 && (y + DAY * days) / 60 % 24 == y / 60 % 24
  {
    assert y + DAY * days == 60 * (24 * days + y / 60) + y % 60;
    assert (y + DAY * days) / 60 == 24 * days + y / 60;
  }

  lemma GapIsSilent(seconds: Seconds, x: int, days: int)
    requires !EvenHours(seconds, 24) && Rhythm(seconds).1.n > 0
    requires GapStart(seconds) < x - DAY * days <= GapStart(seconds) + AskedMinutes(seconds)
    ensures !FiresAt(seconds, x, 24)
  {
    var n, y := Rhythm(seconds).1.n, x - DAY * days;
    assert AskedMinutes(seconds) == 60 * n;
    SameEveryDay(y, days);
    if y % 60 == 0 {
      assert LastHour(n) < y / 60 <= LastHour(n) + n;
      NoHour(n, y / 60);
    }
  }

  lemma DueMinuteFires(h: Host, seconds: Seconds, zone: string, offset: int, midnight: Midnight, m: int)
    requires ReadsDecimals(h) && ShowsOffset(h, zone, offset, midnight, m)
    ensures Due(h, IntervalToCron(seconds), zone)(m) ==> FiresAt(seconds, m + offset, midnight)
  {
    PrintedExpressionDue(h, seconds, zone, offset, midnight, m);
  }

  lemma FiringMinuteDue(h: Host, seconds: Seconds, zone: string, offset: int, midnight: Midnight, m: int)
    requires ReadsDecimals(h) && ShowsOffset(h, zone, offset, midnight, m) && FiresAt(seconds, m + offset, midnight)
    ensures Due(h, IntervalToCron(seconds), zone)(m)
  {
    PrintedExpressionDue(h, seconds, zone, offset, midnight, m);
  }

  lemma SilentNotDue(h: Host, seconds: Seconds, zone: string, offset: int, midnight: Midnight, m: int)
    requires ReadsDecimals(h) && ShowsOffset(h, zone, offset, midnight, m) && !FiresAt(seconds, m + offset, midnight)
    ensures !Due(h, IntervalToCron(seconds), zone)(m)
  {
    DueMinuteFires(h, seconds, zone, offset, midnight, m);
  }

  /** From the given instant the search finds a run within so many minutes. */
  ghost predicate NextWithin(h: Host, schedule: string, zone: string, asked: int, from: int) {
    exists m :: NextRunAt(h, schedule, zone, from) == Found(m * MINUTE) && m <= from / MINUTE + asked
  }

  lemma LateAfterGap(h: Host, schedule: string, zone: string, asked: int, start: int, due: int -> bool)
    requires |Fields(schedule)| == 5 && h.zoneValid(zone) && due == Due(h, schedule, zone)
    requires forall m | start < m <= start + asked :: !due(m)
    ensures !NextWithin(h, schedule, zone, asked, start * MINUTE)
  {
    var from := start * MINUTE;
    assert from / MINUTE == start && NextRunAt(h, schedule, zone, from) == Search(due, from);
    if m :| NextRunAt(h, schedule, zone, from) == Found(m * MINUTE) && m <= start + asked {
      SearchIsLeast(due, from, m);
    }
  }

  lemma NothingInGap(h: Host, seconds: Seconds, zone: string, offset: int, days: int, start: int, asked: int)
    requires ReadsDecimals(h) && !EvenHours(seconds, 24) && Rhythm(seconds).1.n > 0
    requires start == GapStart(seconds) + DAY * days - offset && asked == AskedMinutes(seconds)
    requires ConstantOffset(h, zone, offset, 24, start, start + asked)
    ensures forall m | start < m <= start + asked :: !Due(h, IntervalToCron(seconds), zone)(m)
  {
    forall m | start < m <= start + asked ensures !Due(h, IntervalToCron(seconds), zone)(m) {
      GapIsSilent(seconds, m + offset, days);
      SilentNotDue(h, seconds, zone, offset, 24, m);
    }
  }

  /** Some day's gap starts within a day of a given minute. */
  lemma SomeGap(seconds: Seconds, offset: int, after: int) returns (days: int)
    requires Rhythm(seconds).1.Step? && Rhythm(seconds).1.n > 0
    ensures after <= GapStart(seconds) + DAY * days - offset < after + DAY
  {
    var missing := after + offset - GapStart(seconds);
    days := (missing + DAY - 1) / DAY;
  }

  /** The bound holds from every instant of a stretch of time. */
  ghost predicate BoundKept(h: Host, schedule: string, zone: string, asked: int, after: int, until: int) {
    forall from | after <= from / MINUTE && from / MINUTE + asked <= until :: NextWithin(h, schedule, zone, asked, from)
  }

  /**
   In every stretch of constant offset that is a day longer than the interval, the bound holds from every instant if and
   only if the runtime shows midnight as 0 or the printed hour step divides 24.
   */
  lemma BoundKeptIff(h: Host, seconds: Seconds, zone: string, offset: int, midnight: Midnight, schedule: string,
                     asked: int, after: int, until: int)
    requires ReadsDecimals(h) && h.zoneValid(zone)
    requires schedule == IntervalToCron(seconds) && asked == AskedMinutes(seconds)
    requires ConstantOffset(h, zone, offset, midnight, after, until) && after + DAY + asked <= until
    ensures BoundKept(h, schedule, zone, asked, after, until) <==> EvenHours(seconds, midnight)
  {
    if EvenHours(seconds, midnight) {
      forall from | after <= from / MINUTE && from / MINUTE + asked <= until
        ensures NextWithin(h, schedule, zone, asked, from)
      {
        var m := NeverCheckedLessOftenThanAsked(h, seconds, zone, offset, midnight, from);
      }
    } else {
      var days := SomeGap(seconds, offset, after);
      var start := GapStart(seconds) + DAY * days - offset;
      NothingInGap(h, seconds, zone, offset, days, start, asked);
      PrintedExpressionValid(h, seconds);
      LateAfterGap(h, schedule, zone, asked, start, Due(h, schedule, zone));
      assert start * MINUTE / MINUTE == start;
    }
  }

  lemma FiveHoursText()
    ensures Rhythm(Finite(18000.0)) == (Zero, Step(5)) && IntervalToCron(Finite(18000.0)) == "0 */5 * * *"
    ensures AskedMinutes(Finite(18000.0)) == 300
    ensures !EvenHours(Finite(18000.0), 24) && EvenHours(Finite(18000.0), 0)
  {
    assert CeilMinutes(18000.0) == 300;
    assert Decimal(5) == "5";
  }

  lemma FiveHoursFire(x: int, i: int)
    requires x % DAY == 1200 && 0 < i <= 540
    ensures FireAt(Zero, Step(5), x + i, 24) <==> i == 540
  {
    var days := x / DAY;
    SameEveryDay(1200 + i, days);
    assert x + i == 1200 + i + DAY * days;
  }

  lemma FoundAt(h: Host, schedule: string, zone: string, due: int -> bool, start: int, at: int)
    requires |Fields(schedule)| == 5 && h.zoneValid(zone) && due == Due(h, schedule, zone)
    requires start < at <= start + DAY && forall m | start < m <= at :: due(m) <==> m == at
    ensures NextRunAt(h, schedule, zone, start * MINUTE) == Found(at * MINUTE)
  {
    assert start * MINUTE / MINUTE == start;
    SearchIsLeast(due, start * MINUTE, at);
  }

  lemma FiveHoursDue(h: Host, seconds: Seconds, zone: string, offset: int, start: int, m: int)
    requires ReadsDecimals(h) && (start + offset) % DAY == 1200 && Rhythm(seconds) == (Zero, Step(5))
    requires start < m <= start + 540 && ShowsOffset(h, zone, offset, 24, m)
    ensures Due(h, IntervalToCron(seconds), zone)(m) <==> m == start + 540
  {
    FiveHoursFire(start + offset, m - start);
    if m == start + 540 {
      FiringMinuteDue(h, seconds, zone, offset, 24, m);
    } else {
      SilentNotDue(h, seconds, zone, offset, 24, m);
    }
  }

  lemma NextInFiveHours(h: Host, seconds: Seconds, zone: string, offset: int, start: int, schedule: string)
    requires ReadsDecimals(h) && h.zoneValid(zone) && (start + offset) % DAY == 1200
    requires schedule == IntervalToCron(seconds) && Rhythm(seconds) == (Zero, Step(5))
    requires ConstantOffset(h, zone, offset, 24, start, start + 540)
    ensures NextRunAt(h, schedule, zone, start * MINUTE) == Found((start + 540) * MINUTE)
  {
    var due := Due(h, schedule, zone);
    PrintedExpressionValid(h, seconds);
    forall m | start < m <= start + 540 ensures due(m) <==> m == start + 540 {
      FiveHoursDue(h, seconds, zone, offset, start, m);
    }
    FoundAt(h, schedule, zone, due, start, start + 540);
  }

  /** An interval of five hours with midnight shown as 24: after the firing at 20:00 the next one is at 5:00. */
  lemma FiveHoursLate(h: Host, zone: string, offset: int, start: int)
    requires ReadsDecimals(h) && h.zoneValid(zone) && (start + offset) % DAY == 1200
    requires ConstantOffset(h, zone, offset, 24, start, start + 540)
    ensures IntervalToCron(Finite(18000.0)) == "0 */5 * * *" && AskedMinutes(Finite(18000.0)) == 300
    ensures NextRunAt(h, "0 */5 * * *", zone, start * MINUTE) == Found((start + 540) * MINUTE)
  {
    FiveHoursText();
    NextInFiveHours(h, Finite(18000.0), zone, offset, start, "0 */5 * * *");
  }

  /** The assumption on `Number` can be met: reading plain digit strings is enough. */
  lemma SomeHostReadsDecimals(zoneValid: string -> bool, timeParts: (int, string) -> Option<TimeParts>)
    ensures var h := Host(
                       (s: string) => if s != [] && (forall c | c in s :: IsDigit(c)) then Some(Value(s)) else None,
                       zoneValid, timeParts);
            ReadsDecimals(h)
  {
    forall n: Safe ensures Value(Decimal(n)) == n {
      ValueOfDecimal(n);
    }
  }
}
