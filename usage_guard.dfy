/**
  The daily query counter that protects the service's cost: a small JSON file
  holding the date and the number of queries admitted on that date.  A query
  is admitted while fewer than `MaxDailyQueries` were admitted today; the
  count starts again from zero on a new date.
*/
module UsageGuard {
  import opened Wrappers

  const MaxDailyQueries: int := 200

  /**
    What the counter file holds when it is read: no file, a file that is not
    valid JSON, or a JSON object whose "date" and "count" keys may be absent.
  */
  datatype CounterFile =
    | Missing
    | Unreadable
    | Stored(date: Option<string>, count: Option<int>)

  /** The outcome of one check: admitted (with the file written back), denied, or failed. */
  datatype Outcome =
    | Admitted(file: CounterFile)
    | Denied
    | Failed   // the file is dated today but has no "count" key: the lookup raises

  /**
    The count for `today` as the check sees it: zero when the file is missing,
    unreadable or dated another day; `None` when a today-dated file lacks a count.
  */
  function TodaysCount(file: CounterFile, today: string): Option<int>
  {
    match file
    case Missing => Some(0)
    case Unreadable => Some(0)
    case Stored(date, count) => if date != Some(today) then Some(0) else count
  }

  /** check_rate_limit as a step on the counter file. */
  function RateLimit(file: CounterFile, today: string): (r: Outcome)
    ensures r.Failed? <==> TodaysCount(file, today).None?
    ensures r.Denied? <==> TodaysCount(file, today).Some? && TodaysCount(file, today).value >= MaxDailyQueries
    ensures r.Admitted? ==> r.file == Stored(Some(today), Some(TodaysCount(file, today).value + 1))
  {
    match TodaysCount(file, today)
    case None => Failed
    case Some(count) =>
      if count >= MaxDailyQueries then Denied
      else Admitted(Stored(Some(today), Some(count + 1)))
  }

  /** A counter file whose count for `today` is known and within the daily cap. */
  predicate WithinCap(file: CounterFile, today: string)
  {
    TodaysCount(file, today).Some? && TodaysCount(file, today).value <= MaxDailyQueries
  }

  /** Checking never pushes today's count past the cap, and a missing file starts within it. */
  lemma RateLimitKeepsCap(file: CounterFile, today: string)
    requires WithinCap(file, today)
    ensures RateLimit(file, today).Admitted? ==> WithinCap(RateLimit(file, today).file, today)
    ensures WithinCap(Missing, today) && WithinCap(Unreadable, today)
  {
  }

  /** A file dated another day resets the count: the first query of a new day is admitted as number 1. */
  lemma NewDayAdmits(date: Option<string>, count: Option<int>, today: string)
    requires date != Some(today)
    ensures RateLimit(Stored(date, count), today) == Admitted(Stored(Some(today), Some(1)))
  {
  }

  /**
    `k` queries in a row on the same day, starting from `file`: how many were
    admitted and what the counter file holds afterwards (a denied or failed
    query leaves the file as it was).
  */
  function RunDay(file: CounterFile, today: string, k: nat): (nat, CounterFile)
  {
    if k == 0 then (0, file)
    else
      var (admitted, current) := RunDay(file, today, k - 1);
      match RateLimit(current, today)
      case Admitted(next) => (admitted + 1, next)
      case Denied => (admitted, current)
      case Failed => (admitted, current)
  }

  /** How many more queries today's count leaves room for. */
  function Remaining(count: int): nat
  {
    if count >= MaxDailyQueries then 0 else MaxDailyQueries - count
  }

  /**
    Starting from a known count `c` for today, `k` queries admit exactly
    the smaller of `k` and the room left under the cap, and any admission leaves the file dated
    today with the count raised by that many.
  */
  lemma {:induction false} DailyQuota(file: CounterFile, today: string, k: nat)
    requires TodaysCount(file, today).Some?
    ensures var c := TodaysCount(file, today).value;
      var (admitted, last) := RunDay(file, today, k);
      && admitted == (if k <= Remaining(c) then k else Remaining(c))
      && (admitted > 0 ==> last == Stored(Some(today), Some(c + admitted)))
      && (admitted == 0 ==> last == file)
  {
    if k > 0 {
      DailyQuota(file, today, k - 1);
    }
  }

  /** However many queries arrive in one day, at most 200 are admitted from a fresh start. */
  lemma DailyCap(file: CounterFile, today: string, k: nat)
    requires TodaysCount(file, today) == Some(0)
    ensures RunDay(file, today, k).0 <= MaxDailyQueries
    ensures k <= MaxDailyQueries ==> RunDay(file, today, k).0 == k
  {
    DailyQuota(file, today, k);
  }
}
