/** How much to enqueue in a round. */
module DailyQuota {
  import opened Clock
  import opened Types
  import opened CrawledCounters

  function HourTarget(target: Cnt, finished: Cnt, hours: nat): Cnt {
    if hours == 0 then target - finished else Cast(target - finished, hours)
  }

  function ToEnqueue(target: Cnt, enqueued: Cnt, finished: Cnt, hours: nat): Cnt {
    var inProgress := enqueued - finished;
    if inProgress < HourTarget(target, finished, hours) then HourTarget(target, finished, hours) - inProgress else 0
  }

  class EnqueueLoop {
    const m_target_day_crawl: Cnt
    const m_crawled_db: CrawledDb

    constructor (target: Cnt, db: CrawledDb)
      ensures m_target_day_crawl == target && m_crawled_db == db
    {
      m_target_day_crawl, m_crawled_db := target, db;
    }

    ghost function Enqueued(): Cnt
      reads m_crawled_db.m_db.m_urls_days
    {
      EnqueuedOf(m_crawled_db.m_db.m_urls_days.m_urls_days, m_crawled_db.m_fake_url)
    }

    ghost function Finished(): Cnt
      reads m_crawled_db.m_db.m_urls_days
    {
      FinishedOf(m_crawled_db.m_db.m_urls_days.m_urls_days, m_crawled_db.m_fake_url)
    }

    method CalcHourTarget(hours_till_midnight: nat) returns (r: Cnt)
      ensures r == HourTarget(m_target_day_crawl, Finished(), hours_till_midnight)
    {
      var crawled_today := m_crawled_db.GetFinishedToday();
      var left_crawl_today := m_target_day_crawl - crawled_today;
      if hours_till_midnight == 0 {
        return left_crawl_today;
      }
      return Cast(left_crawl_today, hours_till_midnight);
    }

    method CalcToEnqueueNow(hours_till_midnight: nat) returns (r: Cnt)
      ensures r >= 0
      ensures r == ToEnqueue(m_target_day_crawl, Enqueued(), Finished(), hours_till_midnight)
    {
      var target_current_hour := CalcHourTarget(hours_till_midnight);
      var in_progress_now := m_crawled_db.GetInProgress();
      if in_progress_now < target_current_hour {
        return target_current_hour - in_progress_now;
      }
      return 0;
    }
  }

  // ---------------------------------------------------------------- one round

  lemma CastShrinks(d: int, hours: nat)
    requires hours >= 1
    ensures d >= 0 ==> 0 <= Cast(d, hours) <= d
    ensures d < 0 && hours >= 2 ==> Cast(d, hours) > d
  {
    if d >= 0 {
      MulGrows(d, hours);
      QuotientThreshold(d, hours, d + 1);
      QuotientThreshold(d, hours, 0);
    } else {
      MulGrows(-d, hours);
      QuotientThreshold(-d, hours, -d);
    }
  }

  lemma MulGrows(d: nat, hours: nat)
    requires hours >= 1
    ensures d <= d * hours
    ensures d >= 1 && hours >= 2 ==> d < d * hours
    ensures d < (d + 1) * hours
  {
    assert d * hours == d + d * (hours - 1);
    assert (d + 1) * hours == d * hours + hours;
  }

  /** Asking on top of what the counter already holds: within the target exactly when the counter
      of finished attempts is, or at most an hour is left. */
  lemma AskedOnTop(target: Cnt, enqueued: Cnt, finished: Cnt, hours: nat)
    requires enqueued <= target
    ensures enqueued + ToEnqueue(target, enqueued, finished, hours) <= target <==> finished <= target || hours <= 1
  {
    if hours == 1 {
      assert Cast(target - finished, 1) == target - finished;
    } else if hours >= 2 {
      CastShrinks(target - finished, hours);
    }
  }
}
