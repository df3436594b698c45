/**
 The bounded forward search for the next minute a schedule matches. Minutes are tried one by one from the one after the
 start, for 366 days.
 */
module NextRun {
  import opened Text
  import opened CronExpression

  const MINUTE := 60_000
  const HORIZON: nat := 366 * 24 * 60

  datatype Outcome = Found(at: int) | BadExpression | BadZone | Exhausted

  /** Minutes are numbered from the epoch: minute `m` starts at the instant `m * MINUTE`. */
  function Due(h: Host, schedule: string, zone: string): int -> bool {
    m => IsDue(h, schedule, zone, m * MINUTE)
  }

  /** The first number `k` with `m <= k < end` that satisfies `p`. */
  function First(p: int -> bool, m: int, end: int): Option<int>
    decreases end - m
  {
    if m >= end then None else if p(m) then Some(m) else First(p, m + 1, end)
  }

  /** The search for a well-formed schedule in a valid zone, `p` saying which minutes are due. */
  function Search(p: int -> bool, from: int): Outcome {
    match First(p, from / MINUTE + 1, from / MINUTE + 1 + HORIZON)
    case Some(m) => Found(m * MINUTE)
    case None => Exhausted
  }

  function NextRunAt(h: Host, schedule: string, zone: string, from: int): Outcome {
    if |Fields(schedule)| != 5 then BadExpression
    else if !h.zoneValid(zone) then BadZone
    else Search(Due(h, schedule, zone), from)
  }

  /** Minute `m` is the earliest due one strictly after the minute of the instant `from`. */
  ghost predicate LeastDue(h: Host, schedule: string, zone: string, from: int, m: int) {
    Least(Due(h, schedule, zone), from / MINUTE, m)
  }

  ghost predicate Least(p: int -> bool, after: int, m: int) {
    after < m && p(m) && forall k | after < k < m :: !p(k)
  }

  /** `computeNextRunAt` */
  method ComputeNextRunAt(h: Host, schedule: string, zone: string, from: int) returns (r: Outcome)
    ensures r == NextRunAt(h, schedule, zone, from)
  {
    if |Fields(schedule)| != 5 {
      return BadExpression;
    }
    if !h.zoneValid(zone) {
      return BadZone;
    }
    var isDue := Due(h, schedule, zone);
    var candidate := from / MINUTE;
    candidate := candidate + 1;
    ghost var m := candidate;
    var index := 0;
    while index < HORIZON
      invariant 0 <= index <= HORIZON
      invariant candidate == m + index
      invariant First(isDue, candidate, m + HORIZON) == First(isDue, m, m + HORIZON)
    {
      if isDue(candidate) {
        return Found(candidate * MINUTE);
      }
      candidate := candidate + 1;
      index := index + 1;
    }
    return Exhausted;
  }

  lemma {:induction false} FirstIsLeast(p: int -> bool, m: int, end: int)
    ensures match First(p, m, end)
            case Some(at) => at < end && Least(p, m - 1, at)
            case None => forall k | m <= k < end :: !p(k)
    decreases end - m
  {
    if m < end && !p(m) {
      FirstIsLeast(p, m + 1, end);
    }
  }

  /**
   The search answers with minute `m` exactly when `m` is the earliest due minute after `from` and lies
   within 366 days; it gives up exactly when there is no due minute there.
   */
  lemma SearchIsLeast(p: int -> bool, from: int, m: int)
    ensures Search(p, from) == Found(m * MINUTE) <==> Least(p, from / MINUTE, m) && m <= from / MINUTE + HORIZON
    ensures Search(p, from) == Exhausted <==> forall k | from / MINUTE < k <= from / MINUTE + HORIZON :: !p(k)
    ensures Search(p, from).Found? || Search(p, from).Exhausted?
  {
    FirstIsLeast(p, from / MINUTE + 1, from / MINUTE + 1 + HORIZON);
  }

  lemma FoundMeans(h: Host, schedule: string, zone: string, from: int) returns (m: int)
    requires NextRunAt(h, schedule, zone, from).Found?
    ensures NextRunAt(h, schedule, zone, from) == Found(m * MINUTE) && LeastDue(h, schedule, zone, from, m)
  {
    m := First(Due(h, schedule, zone), from / MINUTE + 1, from / MINUTE + 1 + HORIZON).value;
    SearchIsLeast(Due(h, schedule, zone), from, m);
  }

  /** A later due minute within the horizon bounds what the search finds. */
  lemma SearchBounded(p: int -> bool, from: int, due: int) returns (m: int)
    requires from / MINUTE < due <= from / MINUTE + HORIZON && p(due)
    ensures Search(p, from) == Found(m * MINUTE) && Least(p, from / MINUTE, m) && m <= due
  {
    FirstIsLeast(p, from / MINUTE + 1, from / MINUTE + 1 + HORIZON);
    m := First(p, from / MINUTE + 1, from / MINUTE + 1 + HORIZON).value;
  }

  lemma {:induction false} FirstExtensional(p: int -> bool, q: int -> bool, m: int, end: int)
    requires forall k :: p(k) == q(k)
    ensures First(p, m, end) == First(q, m, end)
    decreases end - m
  {
    if m < end {
      FirstExtensional(p, q, m + 1, end);
    }
  }

  /** Searching with the untrimmed schedule, as `create` does, finds what the stored trimmed one would. */
  lemma NextRunIgnoresPadding(h: Host, schedule: string, zone: string, from: int)
    ensures NextRunAt(h, Trim(schedule), zone, from) == NextRunAt(h, schedule, zone, from)
  {
    var p, q := Due(h, Trim(schedule), zone), Due(h, schedule, zone);
    forall k ensures p(k) == q(k) {
      DueIgnoresPadding(h, schedule, zone, k * MINUTE);
    }
    DueIgnoresPadding(h, schedule, zone, from);
    FirstExtensional(p, q, from / MINUTE + 1, from / MINUTE + 1 + HORIZON);
  }
}
