/** How close watcher checks are. */
module WatcherSpacing {
  import opened Text
  import opened CronExpression
  import opened CronGrammar
  import opened NextRun
  import opened WatcherCadence

  /** The whole minutes that the interval asks for: the least number that covers it, and one at least. */
  lemma AskedMeans(seconds: Seconds, m: int)
    ensures AskedMinutes(seconds) <= m <==> m >= 1 && (seconds.Finite? ==> seconds.value <= 60.0 * m as real)
  {
    if seconds.Finite? {
      var exact: real := seconds.value;
      assert CeilMinutes(seconds.value) <= m <==> exact <= 60.0 * m as real;
    }
  }

  /**
   The local minutes at which a watcher is checked that asks for `m` minutes: each one; those at multiples of `m` in an
   hour; the full hours, or those of them shown as multiples of `m / 60`; and, when `m` above an hour is no number of
   hours, the last and the first minute of every hour.
   */
  predicate Checked(m: int, x: int, midnight: Midnight) {
    var hour := if x / 60 % 24 == 0 then midnight else x / 60 % 24;
    if m <= 1 then true
    else if m < 60 then x % 60 % m == 0
    else if m % 60 == 0 then x % 60 == 0 && hour % (m / 60) == 0
    else x % 60 == 0 || x % 60 == 59
  }

  lemma FiresIff(seconds: Seconds, x: int, midnight: Midnight)
    ensures FiresAt(seconds, x, midnight) <==> Checked(AskedMinutes(seconds), x, midnight)
  {
    var m := AskedMinutes(seconds);
    if seconds.Finite? && seconds.value < 60.0 {
      assert CeilMinutes(seconds.value) <= 1;
    }
    if m > 60 && m % 60 != 0 {
      assert x % 60 % 59 == 0 <==> x % 60 == 0 || x % 60 == 59;
    }
    if m == 60 {
      assert ShownHour(x / 60 % 24, midnight) % 1 == 0;
    }
  }

  /** The asked minutes divide the hour, or are hours that divide the day, or of which none is counted as midnight. */
  predicate Spaced(m: int, midnight: Midnight) {
    || m <= 1
    || (m < 60 && 60 % m == 0)
    || (m >= 60 && m % 60 == 0 && (midnight == 24 || 24 % (m / 60) == 0))
  }

  // ---- Spaced ----

  /** Two different multiples are far enough apart. */
  lemma MultiplesApart(a: int, b: int, n: int)
    requires n > 0 && a * n < b * n
    ensures b * n - a * n >= n
  {
    if a < b {
      AtLeastBase(b - a, n);
      assert (b - a) * n == b * n - a * n;
    } else {
      MultiplesOrdered(b, a, n);
    }
  }

  lemma MultiplesOrdered(b: int, a: int, n: int)
    requires n > 0 && b <= a
    ensures b * n <= a * n
  {
  }

  /** A number whose residue modulo a multiple of `n` is a multiple of `n`. */
  lemma MultipleOf(x: int, base: int, n: int) returns (k: int)
    requires n > 0 && base > 0 && base % n == 0 && x % base % n == 0
    ensures x == k * n
  {
    var q, r := base / n, x % base / n;
    k := x / base * q + r;
    assert base == q * n && x % base == r * n;
    assert x == x / base * base + x % base;
    assert x / base * (q * n) == x / base * q * n;
    assert (x / base * q + r) * n == x / base * q * n + r * n;
  }

  lemma ApartByMultiples(x: int, y: int, base: int, n: int)
    requires n > 0 && base > 0 && base % n == 0 && x % base % n == 0 && y % base % n == 0 && x < y
    ensures y - x >= n
  {
    var a := MultipleOf(x, base, n);
    var b := MultipleOf(y, base, n);
    MultiplesApart(a, b, n);
  }

  lemma ShownParts(x: int) returns (a: int, s: int)
    ensures x == 24 * a + s && s == ShownHour(x % 24, 24) && 1 <= s <= 24
  {
    a, s := (x - 1) / 24, (x - 1) % 24 + 1;
  }

  /** With midnight shown as 24, the hours shown as multiples of `n` are `n` hours apart. */
  lemma LateHoursApart(x: int, y: int, n: int)
    requires n > 0 && x < y
    requires ShownHour(x % 24, 24) % n == 0 && ShownHour(y % 24, 24) % n == 0
    ensures y - x >= n
  {
    var a, s := ShownParts(x);
    var b, t := ShownParts(y);
    LateApart(a, s, b, t, n);
  }

  lemma LateApart(a: int, s: int, b: int, t: int, n: int)
    requires n > 0 && 24 * a + s < 24 * b + t && 1 <= s <= 24 && 1 <= t <= 24 && s % n == 0 && t % n == 0
    ensures (24 * b + t) - (24 * a + s) >= n
  {
    if a == b {
      HoursApart(s, t, n);
    } else {
      AtLeastStep(t, n);
    }
  }

  lemma AtLeastStep(t: int, n: int)
    requires n > 0 && t >= 1 && t % n == 0
    ensures t >= n
  {
    if t < n {
      DivModUnique(t, 0, t, n);
    }
  }

  lemma HoursApart(s: int, t: int, n: int)
    requires n > 0 && s < t && s % n == 0 && t % n == 0
    ensures t - s >= n
  {
    var (i, j) := (s / n, t / n);
    assert s == i * n && t == j * n;
    MultiplesApart(i, j, n);
  }

  lemma CheckedApart(m: int, x: int, y: int, midnight: Midnight)
    requires Spaced(m, midnight) && Checked(m, x, midnight) && Checked(m, y, midnight) && x < y
    ensures y - x >= m
  {
    if 1 < m < 60 {
      ApartByMultiples(x, y, 60, m);
    } else if m >= 60 {
      var n := m / 60;
      if midnight == 24 {
        LateHoursApart(x / 60, y / 60, n);
      } else {
        ApartByMultiples(x / 60, y / 60, 24, n);
      }
    }
  }

  // ---- Crowded ----

  /** The last multiple of `m` below `base`. */
  lemma LastBelow(m: int, base: int) returns (last: int)
    requires 0 < m && 0 < base && base % m != 0
    ensures 0 <= last < base && last % m == 0 && base - last < m
  {
    last := base / m * m;
    assert base == last + base % m;
    DivModUnique(last, base / m, 0, m);
  }

  lemma HourChecked(n: int, day: int, hour: int)
    requires n > 1 && 0 <= hour < 24 && hour % n == 0
    ensures Checked(60 * n, 1440 * day + 60 * hour, 0)
  {
    var x := 1440 * day + 60 * hour;
    assert x / 60 == 24 * day + hour && x % 60 == 0;
    assert x / 60 % 24 == hour;
    SixtyTimes(n);
  }

  lemma SixtyTimes(n: int)
    ensures 60 * n % 60 == 0 && 60 * n / 60 == n
  {
  }

  lemma CrowdedHours(n: int, day: int) returns (x: int, y: int)
    requires n > 1 && 24 % n != 0
    ensures 1440 * day <= x < y <= 1440 * (day + 1) && y - x < 60 * n
    ensures Checked(60 * n, x, 0) && Checked(60 * n, y, 0)
  {
    var last := LastBelow(n, 24);
    HourChecked(n, day, last);
    HourChecked(n, day + 1, 0);
    x, y := 1440 * day + 60 * last, 1440 * (day + 1) + 60 * 0;
  }

  lemma CrowdedMinutes(m: int, midnight: Midnight, day: int) returns (x: int, y: int)
    requires 1 < m < 60 && 60 % m != 0
    ensures 1440 * day <= x < y <= 1440 * (day + 1) && y - x < m
    ensures Checked(m, x, midnight) && Checked(m, y, midnight)
  {
    var last := LastBelow(m, 60);
    x, y := 1440 * day + last, 1440 * day + 60;
    DivModUnique(x, 24 * day, last, 60);
    DivModUnique(y, 24 * day + 1, 0, 60);
    MinuteChecked(m, x, midnight);
    MinuteChecked(m, y, midnight);
  }

  lemma MinuteChecked(m: int, x: int, midnight: Midnight)
    requires 1 < m < 60
    ensures Checked(m, x, midnight) <==> x % 60 % m == 0
  {
  }

  lemma CrowdedEdges(m: int, midnight: Midnight, day: int) returns (x: int, y: int)
    requires m > 60 && m % 60 != 0
    ensures 1440 * day <= x < y <= 1440 * (day + 1) && y - x < m
    ensures Checked(m, x, midnight) && Checked(m, y, midnight)
  {
    x, y := 1440 * day + 59, 1440 * day + 60;
    assert x % 60 == 59 && y % 60 == 0;
  }

  /** Otherwise there are on every day two checks that are closer together. */
  lemma CrowdedDay(m: int, midnight: Midnight, day: int) returns (x: int, y: int)
    requires !Spaced(m, midnight)
    ensures 1440 * day <= x < y <= 1440 * (day + 1) && y - x < m
    ensures CheckedBy(m, midnight)(x) && CheckedBy(m, midnight)(y)
  {
    if m < 60 {
      x, y := CrowdedMinutes(m, midnight, day);
    } else if m % 60 == 0 {
      WholeHours(m);
      x, y := CrowdedHours(m / 60, day);
    } else {
      x, y := CrowdedEdges(m, midnight, day);
    }
  }

  lemma WholeHours(m: int)
    requires m >= 60 && m % 60 == 0 && 24 % (m / 60) != 0
    ensures m == 60 * (m / 60) && m / 60 > 1
  {
  }

  function CheckedBy(m: int, midnight: Midnight): int -> bool {
    (x: int) => Checked(m, x, midnight)
  }

  /** Any two minutes of a stretch that satisfy `due` are at least `m` minutes apart. */
  ghost predicate Apart(due: int -> bool, m: int, after: int, until: int) {
    forall x, y | after < x < y <= until && due(x) && due(y) :: y - x >= m
  }

  // ---- The printed expression ----

  lemma DueChecked(h: Host, seconds: Seconds, zone: string, offset: int, midnight: Midnight, x: int, schedule: string)
    requires ReadsDecimals(h) && ShowsOffset(h, zone, offset, midnight, x) && schedule == IntervalToCron(seconds)
    ensures Due(h, schedule, zone)(x) <==> CheckedBy(AskedMinutes(seconds), midnight)(x + offset)
  {
    FiresIff(seconds, x + offset, midnight);
    if Checked(AskedMinutes(seconds), x + offset, midnight) {
      FiringMinuteDue(h, seconds, zone, offset, midnight, x);
    } else {
      SilentNotDue(h, seconds, zone, offset, midnight, x);
    }
  }

  lemma DueCheckedAt(h: Host, seconds: Seconds, zone: string, offset: int, midnight: Midnight, after: int, until: int,
                     x: int, schedule: string, due: int -> bool, checked: int -> bool)
    requires ReadsDecimals(h) && ConstantOffset(h, zone, offset, midnight, after, until) && after < x <= until
    requires schedule == IntervalToCron(seconds) && due == Due(h, schedule, zone)
    requires checked == CheckedBy(AskedMinutes(seconds), midnight)
    ensures due(x) <==> checked(x + offset)
  {
    assert ShowsOffset(h, zone, offset, midnight, x);
    DueChecked(h, seconds, zone, offset, midnight, x, schedule);
  }

  /** The one holds at the minutes of a stretch at which the other holds so many minutes later. */
  ghost predicate Follows(due: int -> bool, checked: int -> bool, offset: int, after: int, until: int) {
    forall x | after < x <= until :: due(x) <==> checked(x + offset)
  }

  lemma {:induction false} StretchChecked(h: Host, seconds: Seconds, zone: string, offset: int, midnight: Midnight,
                                          after: int, until: int, schedule: string, due: int -> bool,
                                          checked: int -> bool)
    requires ReadsDecimals(h) && ConstantOffset(h, zone, offset, midnight, after, until)
    requires schedule == IntervalToCron(seconds) && due == Due(h, schedule, zone)
    requires checked == CheckedBy(AskedMinutes(seconds), midnight)
    ensures Follows(due, checked, offset, after, until)
    decreases until - after
  {
    if after < until {
      StretchChecked(h, seconds, zone, offset, midnight, after, until - 1, schedule, due, checked);
      DueCheckedAt(h, seconds, zone, offset, midnight, after, until, until, schedule, due, checked);
      FollowsOneMore(due, checked, offset, after, until);
    }
  }

  lemma FollowsOneMore(due: int -> bool, checked: int -> bool, offset: int, after: int, until: int)
    requires Follows(due, checked, offset, after, until - 1) && (due(until) <==> checked(until + offset))
    ensures Follows(due, checked, offset, after, until)
  {
  }

  lemma FollowsIff(due: int -> bool, checked: int -> bool, offset: int, m: int, midnight: Midnight, after: int,
                   until: int)
    requires Follows(due, checked, offset, after, until) && after + 2 * DAY <= until
    requires checked == CheckedBy(m, midnight)
    ensures Apart(due, m, after, until) <==> Spaced(m, midnight)
  {
    if Spaced(m, midnight) {
      forall x, y | after < x < y <= until && due(x) && due(y) ensures y - x >= m {
        CheckedApart(m, x + offset, y + offset, midnight);
      }
    } else {
      var x, y := CrowdedDay(m, midnight, (after + offset) / DAY + 1);
      assert due(x - offset) && due(y - offset);
    }
  }

  /**
   In every stretch of constant offset of two days or more: a watcher is never checked more often than asked if and only
   if the minutes asked for divide the hour, or are whole hours that divide the day, or are whole hours and midnight is
   shown as 24.
   */
  lemma NotMoreOftenIff(h: Host, seconds: Seconds, zone: string, offset: int, midnight: Midnight, after: int,
                        until: int, schedule: string, due: int -> bool, m: int)
    requires ReadsDecimals(h) && ConstantOffset(h, zone, offset, midnight, after, until) && after + 2 * DAY <= until
    requires schedule == IntervalToCron(seconds) && due == Due(h, schedule, zone) && m == AskedMinutes(seconds)
    ensures Apart(due, m, after, until) <==> Spaced(m, midnight)
  {
    StretchChecked(h, seconds, zone, offset, midnight, after, until, schedule, due, CheckedBy(m, midnight));
    FollowsIff(due, CheckedBy(m, midnight), offset, m, midnight, after, until);
  }
}
