/** The sliding-window rate limiter. */
module RateLimit {

  // The pruned arrays of the limiter refine a reference that never forgets a grant and counts over all of them.

  datatype Config = Config(maxPerMinute: int, maxPerHour: int)

  const MINUTE_WIDTH := 60_000
  const HOUR_WIDTH := 3_600_000

  /** The two pruned arrays of grant times. */
  datatype Windows = Windows(minute: seq<int>, hour: seq<int>)

  datatype Op = TryAcquire(now: int) | GetUsage(now: int)

  datatype Answer = Granted | MinuteLimited | HourLimited | Usage(minuteCount: nat, hourCount: nat)

  /** The entries later than `cutoff`, in order. */
  function After(times: seq<int>, cutoff: int): (r: seq<int>)
    ensures |r| <= |times|
  {
    if times == [] then []
    else After(times[..|times| - 1], cutoff) + (if times[|times| - 1] > cutoff then [times[|times| - 1]] else [])
  }

  /** The decision for a request, given how many grants count against each limit. */
  function Decide(c: Config, minuteCount: nat, hourCount: nat): Answer {
    if minuteCount >= c.maxPerMinute then MinuteLimited
    else if hourCount >= c.maxPerHour then HourLimited
    else Granted
  }

  function Pruned(w: Windows, now: int): Windows {
    Windows(After(w.minute, now - MINUTE_WIDTH), After(w.hour, now - HOUR_WIDTH))
  }

  /** What the limiter does: prune, then answer from the lengths of the arrays. */
  function Step(c: Config, w: Windows, op: Op): (Windows, Answer) {
    var p := Pruned(w, op.now);
    if op.GetUsage? then (p, Usage(|p.minute|, |p.hour|)) else
    var answer := Decide(c, |p.minute|, |p.hour|);
    (if answer.Granted? then Windows(p.minute + [op.now], p.hour + [op.now]) else p, answer)
  }

  /** The reference: nothing is ever forgotten, and every answer counts over all grants. */
  function HistoryStep(c: Config, grants: seq<int>, op: Op): (seq<int>, Answer) {
    var m, h := |After(grants, op.now - MINUTE_WIDTH)|, |After(grants, op.now - HOUR_WIDTH)|;
    if op.GetUsage? then (grants, Usage(m, h)) else
    var answer := Decide(c, m, h);
    (if answer.Granted? then grants + [op.now] else grants, answer)
  }

  function Answers(c: Config, w: Windows, ops: seq<Op>): seq<Answer>
    decreases |ops|
  {
    if ops == [] then []
    else var (next, answer) := Step(c, w, ops[0]); [answer] + Answers(c, next, ops[1..])
  }

  function HistoryAnswers(c: Config, grants: seq<int>, ops: seq<Op>): seq<Answer>
    decreases |ops|
  {
    if ops == [] then []
    else var (next, answer) := HistoryStep(c, grants, ops[0]); [answer] + HistoryAnswers(c, next, ops[1..])
  }

  predicate Nondecreasing(ops: seq<Op>, from: int) {
    ops == [] || (from <= ops[0].now && Nondecreasing(ops[1..], ops[0].now))
  }

  /** The arrays hold what the history would keep if pruned at some time not after `last`. */
  ghost predicate Represents(w: Windows, grants: seq<int>, last: int) {
    w.minute == After(grants, last - MINUTE_WIDTH) && w.hour == After(grants, last - HOUR_WIDTH)
  }

  lemma {:induction false} AfterAfter(times: seq<int>, low: int, high: int)
    requires low <= high
    ensures After(After(times, low), high) == After(times, high)
  {
    if times != [] {
      var front, t := times[..|times| - 1], times[|times| - 1];
      AfterAfter(front, low, high);
      if t > low {
        var kept := After(front, low) + [t];
        assert kept[..|kept| - 1] == After(front, low);
      } else {
        assert After(front, low) + [] == After(front, low);
      }
    }
  }

  lemma AfterPush(times: seq<int>, cutoff: int, t: int)
    requires t > cutoff
    ensures After(times + [t], cutoff) == After(times, cutoff) + [t]
  {
    assert (times + [t])[..|times|] == times;
  }

  lemma StepRefines(c: Config, w: Windows, grants: seq<int>, last: int, op: Op)
    requires Represents(w, grants, last) && last <= op.now
    ensures Step(c, w, op).1 == HistoryStep(c, grants, op).1
    ensures Represents(Step(c, w, op).0, HistoryStep(c, grants, op).0, op.now)
  {
    AfterAfter(grants, last - MINUTE_WIDTH, op.now - MINUTE_WIDTH);
    AfterAfter(grants, last - HOUR_WIDTH, op.now - HOUR_WIDTH);
    AfterPush(grants, op.now - MINUTE_WIDTH, op.now);
    AfterPush(grants, op.now - HOUR_WIDTH, op.now);
  }

  /**
   For every nondecreasing sequence of requests and usage queries the pruned arrays answer exactly as
   counting over the full history does.
   */
  lemma {:induction false} PruningChangesNoAnswer(c: Config, w: Windows, grants: seq<int>, last: int, ops: seq<Op>)
    requires Represents(w, grants, last) && Nondecreasing(ops, last)
    ensures Answers(c, w, ops) == HistoryAnswers(c, grants, ops)
    decreases |ops|
  {
    if ops != [] {
      StepRefines(c, w, grants, last, ops[0]);
      PruningChangesNoAnswer(c, Step(c, w, ops[0]).0, HistoryStep(c, grants, ops[0]).0, ops[0].now, ops[1..]);
    }
  }

  // ---- No window holds too many grants ----

  /** Every grant was made while fewer than `limit` earlier ones were younger than `width`. */
  ghost predicate Paced(grants: seq<int>, limit: int, width: int) {
    grants == [] ||
    var front, t := grants[..|grants| - 1], grants[|grants| - 1];
    Paced(front, limit, width) && |After(front, t - width)| < limit
  }

  /** The number of grants in the half-open window from `low` (exclusive) to `high` (inclusive). */
  function CountIn(grants: seq<int>, low: int, high: int): nat {
    if grants == [] then 0
    else CountIn(grants[..|grants| - 1], low, high) + (if low < grants[|grants| - 1] <= high then 1 else 0)
  }

  lemma {:induction false} CountAtMostAfter(grants: seq<int>, low: int, high: int, cutoff: int)
    requires cutoff <= low
    ensures CountIn(grants, low, high) <= |After(grants, cutoff)|
  {
    if grants != [] {
      CountAtMostAfter(grants[..|grants| - 1], low, high, cutoff);
    }
  }

  lemma {:induction false} WindowBound(grants: seq<int>, limit: int, width: int, low: int)
    requires Paced(grants, limit, width)
    ensures CountIn(grants, low, low + width) <= (if limit < 0 then 0 else limit)
  {
    if grants != [] {
      var front, t := grants[..|grants| - 1], grants[|grants| - 1];
      WindowBound(front, limit, width, low);
      if low < t <= low + width {
        CountAtMostAfter(front, low, low + width, t - width);
      }
    }
  }

  // ---- What the answers count ----

  lemma {:induction false} CountInMeans(grants: seq<int>, low: int, high: int)
    ensures CountIn(grants, low, high) == |set i | 0 <= i < |grants| && low < grants[i] <= high|
  {
    if grants != [] {
      CountInMeans(grants[..|grants| - 1], low, high);
      InsideGrows(grants[..|grants| - 1], grants[|grants| - 1], low, high);
      assert grants[..|grants| - 1] + [grants[|grants| - 1]] == grants;
    }
  }

  lemma InsideGrows(front: seq<int>, t: int, low: int, high: int)
    ensures |set i | 0 <= i < |front + [t]| && low < (front + [t])[i] <= high|
         == |set i | 0 <= i < |front| && low < front[i] <= high| + if low < t <= high then 1 else 0
  {
    var grants := front + [t];
    var before := set i | 0 <= i < |front| && low < front[i] <= high;
    assert (set i | 0 <= i < |grants| && low < grants[i] <= high)
        == before + if low < t <= high then {|front|} else {};
  }

  predicate NoneAfter(grants: seq<int>, now: int) {
    forall i | 0 <= i < |grants| :: grants[i] <= now
  }

  lemma {:induction false} AfterCounts(grants: seq<int>, cutoff: int, now: int)
    requires NoneAfter(grants, now)
    ensures |After(grants, cutoff)| == CountIn(grants, cutoff, now)
  {
    if grants != [] {
      AfterCounts(grants[..|grants| - 1], cutoff, now);
    }
  }

  /** Every entry later than the cutoff is kept as often as it was there, and no other entry. */
  ghost predicate Keeps(kept: seq<int>, times: seq<int>, cutoff: int) {
    forall t | t in times || t in kept :: multiset(kept)[t] == if t > cutoff then multiset(times)[t] else 0
  }

  lemma Counts(a: seq<int>, b: seq<int>, t: int)
    ensures multiset(a + b)[t] == multiset(a)[t] + multiset(b)[t]
  {
  }

  lemma PruningKeeps(times: seq<int>, cutoff: int)
    ensures Keeps(After(times, cutoff), times, cutoff)
  {
    forall t | t in times || t in After(times, cutoff)
      ensures multiset(After(times, cutoff))[t] == if t > cutoff then multiset(times)[t] else 0
    {
      AfterKeeps(times, cutoff, t);
    }
  }

  lemma {:induction false} AfterKeeps(times: seq<int>, cutoff: int, t: int)
    ensures multiset(After(times, cutoff))[t] == if t > cutoff then multiset(times)[t] else 0
  {
    if times != [] {
      var front, last := times[..|times| - 1], times[|times| - 1];
      AfterKeeps(front, cutoff, t);
      Counts(front, [last], t);
      Counts(After(front, cutoff), if last > cutoff then [last] else [], t);
      assert times == front + [last];
    }
  }

  /**
   When no grant is later than now, a request is granted exactly when the last minute and the last hour have both seen
   fewer grants than their limit. A full minute is reported first, and the usage is these two numbers.
   */
  lemma GrantedIff(c: Config, grants: seq<int>, now: int)
    requires NoneAfter(grants, now)
    ensures var minute := CountIn(grants, now - 60_000, now);
            var hour := CountIn(grants, now - 3_600_000, now);
            var (next, answer) := HistoryStep(c, grants, TryAcquire(now));
            && (answer == Granted <==> minute < c.maxPerMinute && hour < c.maxPerHour)
            && (answer == MinuteLimited <==> minute >= c.maxPerMinute)
            && (answer == HourLimited <==> minute < c.maxPerMinute && hour >= c.maxPerHour)
            && next == (if answer == Granted then grants + [now] else grants)
            && HistoryStep(c, grants, GetUsage(now)) == (grants, Usage(minute, hour))
  {
    AfterCounts(grants, now - MINUTE_WIDTH, now);
    AfterCounts(grants, now - HOUR_WIDTH, now);
    StepCounts(c, grants, TryAcquire(now));
    StepCounts(c, grants, GetUsage(now));
  }

  lemma StepCounts(c: Config, grants: seq<int>, op: Op)
    ensures var m, h := |After(grants, op.now - MINUTE_WIDTH)|, |After(grants, op.now - HOUR_WIDTH)|;
            var (next, answer) := HistoryStep(c, grants, op);
            if op.GetUsage? then (next, answer) == (grants, Usage(m, h))
            else answer == Decide(c, m, h) && next == if answer == Granted then grants + [op.now] else grants
  {
  }

  /** Operation `i` is a request that was granted. */
  predicate GrantedAt(ops: seq<Op>, answers: seq<Answer>, i: int) {
    0 <= i < |ops| && i < |answers| && ops[i].TryAcquire? && answers[i] == Granted
  }

  /** The earlier granted requests that are younger than `width` at operation `k`. */
  ghost function Recent(ops: seq<Op>, answers: seq<Answer>, k: nat, width: int): set<int>
    requires k < |ops|
  {
    set i | 0 <= i < k && GrantedAt(ops, answers, i) && ops[k].now - ops[i].now < width
  }

  /** An operation is answered from the numbers of recent grants. */
  ghost predicate AnsweredBy(c: Config, op: Op, answer: Answer, minute: nat, hour: nat) {
    if op.GetUsage? then answer == Usage(minute, hour)
    else
      && (answer == Granted <==> minute < c.maxPerMinute && hour < c.maxPerHour)
      && (answer == MinuteLimited <==> minute >= c.maxPerMinute)
      && (answer == HourLimited <==> minute < c.maxPerMinute && hour >= c.maxPerHour)
  }

  lemma StepAnswered(c: Config, grants: seq<int>, op: Op, minute: nat, hour: nat)
    requires minute == |After(grants, op.now - MINUTE_WIDTH)| && hour == |After(grants, op.now - HOUR_WIDTH)|
    ensures AnsweredBy(c, op, HistoryStep(c, grants, op).1, minute, hour)
  {
    StepCounts(c, grants, op);
  }

  /** The times of the granted requests among the first `k` operations. */
  function GrantTimes(ops: seq<Op>, answers: seq<Answer>, k: nat): seq<int>
    requires k <= |ops|
  {
    if k == 0 then []
    else GrantTimes(ops, answers, k - 1) + if GrantedAt(ops, answers, k - 1) then [ops[k - 1].now] else []
  }

  lemma {:induction false} GrantTimesShift(ops: seq<Op>, answers: seq<Answer>, k: nat)
    requires 0 < k <= |ops| && answers != []
    ensures GrantTimes(ops, answers, k)
         == (if GrantedAt(ops, answers, 0) then [ops[0].now] else []) + GrantTimes(ops[1..], answers[1..], k - 1)
  {
    if k > 1 {
      GrantTimesShift(ops, answers, k - 1);
      assert GrantedAt(ops, answers, k - 1) <==> GrantedAt(ops[1..], answers[1..], k - 2);
    }
  }

  lemma {:induction false} HistoryAnswerAt(c: Config, grants: seq<int>, ops: seq<Op>, k: nat)
    requires k < |ops|
    ensures var answers := HistoryAnswers(c, grants, ops);
            |answers| == |ops|
            && answers[k] == HistoryStep(c, grants + GrantTimes(ops, answers, k), ops[k]).1
    decreases |ops|
  {
    HistoryAnswersLength(c, grants, ops);
    if k == 0 {
      assert grants + [] == grants;
    } else {
      var next := HistoryStep(c, grants, ops[0]).0;
      HistoryAnswerAt(c, next, ops[1..], k - 1);
      TimesContinue(grants, next, ops, HistoryAnswers(c, grants, ops), k);
    }
  }

  lemma {:induction false} HistoryAnswersLength(c: Config, grants: seq<int>, ops: seq<Op>)
    ensures |HistoryAnswers(c, grants, ops)| == |ops|
    decreases |ops|
  {
    if ops != [] {
      HistoryAnswersLength(c, HistoryStep(c, grants, ops[0]).0, ops[1..]);
    }
  }

  lemma TimesContinue(grants: seq<int>, next: seq<int>, ops: seq<Op>, answers: seq<Answer>, k: nat)
    requires 0 < k < |ops| == |answers|
    requires next == if GrantedAt(ops, answers, 0) then grants + [ops[0].now] else grants
    ensures next + GrantTimes(ops[1..], answers[1..], k - 1) == grants + GrantTimes(ops, answers, k)
  {
    GrantTimesShift(ops, answers, k);
  }

  /** The granted requests among the first `k` operations that are later than a cutoff. */
  ghost function Later(ops: seq<Op>, answers: seq<Answer>, k: nat, cutoff: int): set<int>
    requires k <= |ops|
  {
    set i | 0 <= i < k && GrantedAt(ops, answers, i) && ops[i].now > cutoff
  }

  lemma LaterGrows(ops: seq<Op>, answers: seq<Answer>, k: nat, cutoff: int)
    requires k < |ops|
    ensures |Later(ops, answers, k + 1, cutoff)| ==
            |Later(ops, answers, k, cutoff)| + if GrantedAt(ops, answers, k) && ops[k].now > cutoff then 1 else 0
  {
    assert Later(ops, answers, k + 1, cutoff) ==
           Later(ops, answers, k, cutoff) + if GrantedAt(ops, answers, k) && ops[k].now > cutoff then {k} else {};
  }

  lemma AfterGrows(times: seq<int>, cutoff: int, t: int)
    ensures |After(times + [t], cutoff)| == |After(times, cutoff)| + if t > cutoff then 1 else 0
  {
    assert (times + [t])[..|times|] == times;
  }

  lemma {:induction false} RecentCounts(ops: seq<Op>, answers: seq<Answer>, k: nat, cutoff: int)
    requires k <= |ops|
    ensures |After(GrantTimes(ops, answers, k), cutoff)| == |Later(ops, answers, k, cutoff)|
  {
    if k > 0 {
      RecentCounts(ops, answers, k - 1, cutoff);
      LaterGrows(ops, answers, k - 1, cutoff);
      var times := GrantTimes(ops, answers, k - 1);
      AfterGrows(times, cutoff, ops[k - 1].now);
      assert times + [] == times;
    }
  }

  lemma YoungerCounts(ops: seq<Op>, answers: seq<Answer>, k: nat, width: int, times: seq<int>)
    requires k < |ops| && times == GrantTimes(ops, answers, k)
    ensures |After(times, ops[k].now - width)| == |Recent(ops, answers, k, width)|
  {
    RecentCounts(ops, answers, k, ops[k].now - width);
    assert Recent(ops, answers, k, width) == Later(ops, answers, k, ops[k].now - width);
  }

  lemma AnswerCounts(c: Config, times: seq<int>, op: Op, answer: Answer, minute: nat, hour: nat)
    requires minute == |After(times, op.now - MINUTE_WIDTH)| && hour == |After(times, op.now - HOUR_WIDTH)|
    requires answer == HistoryStep(c, [] + times, op).1
    ensures AnsweredBy(c, op, answer, minute, hour)
  {
    assert [] + times == times;
    StepAnswered(c, times, op, minute, hour);
  }

  lemma RecentAnswers(c: Config, ops: seq<Op>, answers: seq<Answer>, k: nat, times: seq<int>)
    requires k < |ops| == |answers| && times == GrantTimes(ops, answers, k)
    requires answers[k] == HistoryStep(c, [] + times, ops[k]).1
    ensures AnsweredBy(c, ops[k], answers[k],
                       |Recent(ops, answers, k, 60_000)|, |Recent(ops, answers, k, 3_600_000)|)
  {
    var minute := |Recent(ops, answers, k, MINUTE_WIDTH)|;
    var hour := |Recent(ops, answers, k, HOUR_WIDTH)|;
    YoungerCounts(ops, answers, k, MINUTE_WIDTH, times);
    YoungerCounts(ops, answers, k, HOUR_WIDTH, times);
    AnswerCounts(c, times, ops[k], answers[k], minute, hour);
  }

  /**
   A new limiter answers every operation of a nondecreasing run by counting the requests that it granted less than a
   minute and less than an hour before: a grant counts for exactly that long, and then no more.
   */
  lemma AnswersCountGrants(c: Config, ops: seq<Op>, k: nat)
    requires k < |ops| && Nondecreasing(ops, ops[0].now)
    ensures var answers := Answers(c, Windows([], []), ops);
            |answers| == |ops|
            && AnsweredBy(c, ops[k], answers[k],
                          |Recent(ops, answers, k, 60_000)|, |Recent(ops, answers, k, 3_600_000)|)
  {
    PruningChangesNoAnswer(c, Windows([], []), [], ops[0].now, ops);
    HistoryAnswerAt(c, [], ops, k);
    RecentAnswers(c, ops, HistoryAnswers(c, [], ops), k, GrantTimes(ops, HistoryAnswers(c, [], ops), k));
  }

  lemma StepKeepsPace(c: Config, grants: seq<int>, op: Op)
    requires Paced(grants, c.maxPerMinute, MINUTE_WIDTH) && Paced(grants, c.maxPerHour, HOUR_WIDTH)
    ensures var next := HistoryStep(c, grants, op).0;
            Paced(next, c.maxPerMinute, MINUTE_WIDTH) && Paced(next, c.maxPerHour, HOUR_WIDTH)
  {
    var next := HistoryStep(c, grants, op).0;
    if next != grants {
      assert next[..|next| - 1] == grants;
    }
  }

  // ---- What the usage tells ----

  /** Whether `k` requests in a row at one instant are all granted. */
  predicate BurstGranted(c: Config, grants: seq<int>, now: int, k: nat)
    decreases k
  {
    k == 0 ||
    var (next, answer) := HistoryStep(c, grants, TryAcquire(now));
    answer.Granted? && BurstGranted(c, next, now, k - 1)
  }

  /** Whether so many more grants stay within a limit. */
  predicate Room(count: int, k: int, limit: int) {
    k == 0 || count + k <= limit
  }

  lemma GrantCounts(c: Config, grants: seq<int>, now: int)
    ensures var m, h := |After(grants, now - MINUTE_WIDTH)|, |After(grants, now - HOUR_WIDTH)|;
            var (next, answer) := HistoryStep(c, grants, TryAcquire(now));
            && (answer.Granted? <==> m < c.maxPerMinute && h < c.maxPerHour)
            && (answer.Granted? ==>
                  |After(next, now - MINUTE_WIDTH)| == m + 1 && |After(next, now - HOUR_WIDTH)| == h + 1)
  {
    AfterPush(grants, now - MINUTE_WIDTH, now);
    AfterPush(grants, now - HOUR_WIDTH, now);
  }

  /** A burst at the instant of a usage query is granted in full if and only if the counts leave room for it. */
  lemma {:induction false} UsageTellsCapacity(c: Config, grants: seq<int>, now: int, k: nat)
    ensures var usage := HistoryStep(c, grants, GetUsage(now)).1;
            usage.Usage? &&
            (BurstGranted(c, grants, now, k) <==>
             Room(usage.minuteCount, k, c.maxPerMinute) && Room(usage.hourCount, k, c.maxPerHour))
    decreases k
  {
    if k > 0 {
      GrantCounts(c, grants, now);
      var (next, answer) := HistoryStep(c, grants, TryAcquire(now));
      var m, h := |After(grants, now - MINUTE_WIDTH)|, |After(grants, now - HOUR_WIDTH)|;
      assert HistoryStep(c, grants, GetUsage(now)).1 == Usage(m, h);
      if answer.Granted? {
        assert HistoryStep(c, next, GetUsage(now)).1 == Usage(m + 1, h + 1);
        UsageTellsCapacity(c, next, now, k - 1);
      }
    }
  }

  // ---- What the object keeps ----

  ghost predicate Holds(c: Config, w: Windows, grants: seq<int>, last: int) {
    && Represents(w, grants, last) && NoneAfter(grants, last)
    && Paced(grants, c.maxPerMinute, MINUTE_WIDTH) && Paced(grants, c.maxPerHour, HOUR_WIDTH)
  }

  lemma StepHolds(c: Config, w: Windows, grants: seq<int>, last: int, op: Op)
    requires Holds(c, w, grants, last) && (grants == [] || last <= op.now)
    ensures Step(c, w, op).1 == HistoryStep(c, grants, op).1
    ensures Holds(c, Step(c, w, op).0, HistoryStep(c, grants, op).0, op.now)
  {
    StepRefines(c, w, grants, if grants == [] then op.now else last, op);
    StepKeepsPace(c, grants, op);
  }

  // ---- The object ----

  class RateLimiter {
    const config: Config
    var minuteWindow: seq<int>
    var hourWindow: seq<int>
    /** All grants since the limiter was created or last reset. */
    ghost var grants: seq<int>
    /** The latest time the limiter was used. */
    ghost var last: int

    ghost predicate Valid()
      reads this
    {
      Holds(config, Windows(minuteWindow, hourWindow), grants, last)
    }

    constructor (config: Config)
      ensures Valid() && grants == [] && this.config == config && minuteWindow == hourWindow == []
    {
      this.config := config;
      minuteWindow, hourWindow, grants, last := [], [], [], 0;
    }

    method PruneWindows(now: int)
      modifies this`minuteWindow, this`hourWindow
      ensures Windows(minuteWindow, hourWindow) == Pruned(Windows(old(minuteWindow), old(hourWindow)), now)
      ensures Keeps(minuteWindow, old(minuteWindow), now - 60_000)
      ensures Keeps(hourWindow, old(hourWindow), now - 3_600_000)
    {
      var minuteCutoff := now - MINUTE_WIDTH;
      var hourCutoff := now - HOUR_WIDTH;
      minuteWindow := Splice(minuteWindow, minuteCutoff);
      hourWindow := Splice(hourWindow, hourCutoff);
      PruningKeeps(old(minuteWindow), minuteCutoff);
      PruningKeeps(old(hourWindow), hourCutoff);
    }

    /** Removes the entries up to the cutoff, walking backwards. */
    static method Splice(times: seq<int>, cutoff: int) returns (window: seq<int>)
      ensures window == After(times, cutoff)
    {
      window := times;
      var index := |window| - 1;
      assert times[..|times|] == times;
      while index >= 0
        invariant -1 <= index < |times|
        invariant index < |window| && window[..index + 1] == times[..index + 1]
        invariant After(times[..index + 1], cutoff) + window[index + 1..] == After(times, cutoff)
      {
        assert times[..index + 1][..index] == times[..index];
        if window[index] <= cutoff {
          window := window[..index] + window[index + 1..];
        } else {
          assert window[index..] == [window[index]] + window[index + 1..];
        }
        index := index - 1;
      }
    }

    /** Decides on the windows alone. */
    method Admit(now: int) returns (answer: Answer)
      modifies this`minuteWindow, this`hourWindow
      ensures (Windows(minuteWindow, hourWindow), answer)
           == Step(config, Windows(old(minuteWindow), old(hourWindow)), Op.TryAcquire(now))
    {
      PruneWindows(now);
      if |minuteWindow| >= config.maxPerMinute {
        return MinuteLimited;
      }
      if |hourWindow| >= config.maxPerHour {
        return HourLimited;
      }
      minuteWindow := minuteWindow + [now];
      hourWindow := hourWindow + [now];
      answer := Granted;
    }

    /** Brings the history up to date with windows that an operation has changed. */
    ghost method Remember(before: Windows, op: Op)
      requires Holds(config, before, grants, last) && (grants == [] || last <= op.now)
      requires Windows(minuteWindow, hourWindow) == Step(config, before, op).0
      modifies this`grants, this`last
      ensures Valid() && last == op.now && grants == HistoryStep(config, old(grants), op).0
      ensures HistoryStep(config, old(grants), op).1 == Step(config, before, op).1
      ensures NoneAfter(old(grants), op.now)
    {
      StepHolds(config, before, grants, last, op);
      grants, last := HistoryStep(config, grants, op).0, op.now;
    }

    method TryAcquire(now: int) returns (answer: Answer)
      requires Valid() && (grants == [] || last <= now)
      modifies this
      ensures Valid() && last == now
      ensures var minute := CountIn(old(grants), now - 60_000, now);
              var hour := CountIn(old(grants), now - 3_600_000, now);
              && (answer == Granted <==> minute < config.maxPerMinute && hour < config.maxPerHour)
              && (answer == MinuteLimited <==> minute >= config.maxPerMinute)
              && (answer == HourLimited <==> minute < config.maxPerMinute && hour >= config.maxPerHour)
      ensures grants == if answer == Granted then old(grants) + [now] else old(grants)
      ensures (grants, answer) == HistoryStep(config, old(grants), Op.TryAcquire(now))
    {
      ghost var before := Windows(minuteWindow, hourWindow);
      answer := Admit(now);
      Remember(before, Op.TryAcquire(now));
      GrantedIff(config, old(grants), now);
    }

    method GetUsage(now: int) returns (answer: Answer)
      requires Valid() && (grants == [] || last <= now)
      modifies this
      ensures Valid() && last == now && grants == old(grants)
      ensures answer == Usage(CountIn(grants, now - 60_000, now), CountIn(grants, now - 3_600_000, now))
    {
      ghost var before := Windows(minuteWindow, hourWindow);
      PruneWindows(now);
      answer := Usage(|minuteWindow|, |hourWindow|);
      Remember(before, Op.GetUsage(now));
      GrantedIff(config, grants, now);
    }

    method Reset()
      modifies this
      ensures Valid() && grants == [] && minuteWindow == hourWindow == []
    {
      minuteWindow, hourWindow, grants := [], [], [];
    }

    /** At any moment, no minute and no hour has seen more grants than its limit. */
    lemma Limits(low: int)
      requires Valid() && config.maxPerMinute >= 0 && config.maxPerHour >= 0
      ensures CountIn(grants, low, low + MINUTE_WIDTH) <= config.maxPerMinute
      ensures CountIn(grants, low, low + HOUR_WIDTH) <= config.maxPerHour
    {
      WindowBound(grants, config.maxPerMinute, MINUTE_WIDTH, low);
      WindowBound(grants, config.maxPerHour, HOUR_WIDTH, low);
    }
  }
}
