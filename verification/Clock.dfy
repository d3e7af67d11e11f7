/** Time as the scheduler sees it: ticks of the system clock, durations cast to coarser units
    by truncation toward zero, and UTC calendar days. */
module Clock {

  /** A point in time or a difference of two, in nanosecond ticks. */
  type Tp = int

  const SECOND: int := 1_000_000_000
  const HOUR: int := 3600 * SECOND
  const DAY: int := 24 * HOUR

  /** `duration_cast`: whole units in `d`, truncated toward zero. */
  function Cast(d: int, unit: int): int
    requires unit > 0
  {
    if d >= 0 then d / unit else -((-d) / unit)
  }

  /** The only way the program looks at a truncated duration is against a threshold;
      truncation then shows up as one extra unit for a strict comparison. */
  lemma CastThreshold(d: int, unit: int, k: int)
    requires unit > 0
    ensures k >= 1 ==> (Cast(d, unit) >= k <==> d >= k * unit)
    ensures k >= 0 ==> (Cast(d, unit) > k <==> d >= (k + 1) * unit)
  {
    if d >= 0 {
      QuotientThreshold(d, unit, k);
      QuotientThreshold(d, unit, k + 1);
    } else {
      QuotientThreshold(-d, unit, 0);
      if k >= 1 {
        assert k * unit >= 0;
      }
      if k >= 0 {
        assert (k + 1) * unit >= 0;
      }
    }
  }

  lemma QuotientThreshold(d: int, unit: int, k: int)
    requires unit > 0 && d >= 0
    ensures d / unit >= k <==> d >= k * unit
  {
    var q := d / unit;
    assert q * unit <= d < q * unit + unit;
    if q >= k {
      assert q * unit >= k * unit;
    } else {
      assert (q + 1) * unit <= k * unit;
    }
  }

  /** The eviction test shared by all sliding windows; `window` is in seconds. */
  predicate Expired(now: Tp, tp: Tp, window: nat) {
    Cast(now - tp, SECOND) > window
  }

  lemma ExpiredThreshold(now: Tp, tp: Tp, window: nat)
    ensures Expired(now, tp, window) <==> now - tp >= (window + 1) * SECOND
  {
    CastThreshold(now - tp, SECOND, window);
  }

  /** What has left a window stays out of it later, and out of every shorter window;
      an older time point leaves first. */
  lemma ExpiredMonotone(now: Tp, tp: Tp, window: nat, later: Tp, older: Tp, shorter: nat)
    requires Expired(now, tp, window) && now <= later && older <= tp && shorter <= window
    ensures Expired(later, older, shorter)
  {
    ExpiredThreshold(now, tp, window);
    ExpiredThreshold(later, older, shorter);
  }

  /** The calendar day of a time point (day strings compare like these numbers). */
  function DayOf(tp: Tp): int {
    tp / DAY
  }

  lemma DayOfMonotone(a: Tp, b: Tp)
    requires a <= b
    ensures DayOf(a) <= DayOf(b)
  {
  }

  lemma DayOfMinusDays(tp: Tp, n: int)
    ensures DayOf(tp - n * DAY) == DayOf(tp) - n
  {
  }
}
