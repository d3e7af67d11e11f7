/** The limiter of one host (or of the whole system): requests in flight and three windows. */
module HostFrequency {
  import opened Clock
  import opened Types
  import opened SlidingWindows

  const MINUTE_SECS: nat := 60
  const HOUR_SECS: nat := 3600
  const DAY_SECS: nat := 86400

  datatype CrawlLimits = CrawlLimits(hostParallel: Cnt, hostMinute: Cnt, hostHour: Cnt, hostDay: Cnt)

  datatype FreqState = FreqState(crawling: Cnt, min: seq<Tp>, hour: seq<Tp>, day: seq<Tp>)

  const IDLE := FreqState(0, [], [], [])

  /** Outcome of a check that started at the `looks`-th clock reading: windows are cleaned only as
      far as the check got, one clock reading for each. */
  datatype Checked = Checked(allowed: bool, state: FreqState, looks: nat)

  function Check(f: FreqState, limits: CrawlLimits, reading: nat -> Tp, looks: nat): Checked {
    if f.crawling >= limits.hostParallel then Checked(false, f, looks)
    else
      var f1 := f.(min := Recent(f.min, Look(reading, looks), MINUTE_SECS));
      if |f1.min| >= limits.hostMinute then Checked(false, f1, looks + 1)
      else
        var f2 := f1.(hour := Recent(f1.hour, Look(reading, looks + 1), HOUR_SECS));
        if |f2.hour| >= limits.hostHour then Checked(false, f2, looks + 2)
        else
          var f3 := f2.(day := Recent(f2.day, Look(reading, looks + 2), DAY_SECS));
          Checked(|f3.day| < limits.hostDay, f3, looks + 3)
  }

  function Counted(q: seq<Tp>, now: Tp, window: nat): seq<Tp> {
    Recent(q + [now], now, window)
  }

  /** One more request in flight; three clock readings. */
  function Started(f: FreqState, reading: nat -> Tp, looks: nat): FreqState {
    FreqState(f.crawling + 1,
              Counted(f.min, Look(reading, looks), MINUTE_SECS),
              Counted(f.hour, Look(reading, looks + 1), HOUR_SECS),
              Counted(f.day, Look(reading, looks + 2), DAY_SECS))
  }

  /** One request less in flight, but never below zero. */
  function Finished(f: FreqState): FreqState {
    if f.crawling <= 0 then f else f.(crawling := f.crawling - 1)
  }

  class HostFreq {
    var m_crawling_now: Cnt
    const m_min: TpSlidWin
    const m_hour: TpSlidWin
    const m_day: TpSlidWin

    ghost predicate Valid() {
      && m_min != m_hour && m_min != m_day && m_hour != m_day
      && m_min.m_window == MINUTE_SECS && m_hour.m_window == HOUR_SECS && m_day.m_window == DAY_SECS
    }

    ghost function Repr(): set<object> {
      {this, m_min, m_hour, m_day}
    }

    function View(): FreqState
      reads Repr()
    {
      FreqState(m_crawling_now, m_min.m_q, m_hour.m_q, m_day.m_q)
    }

    constructor (f: FreqState := IDLE)
      ensures Valid() && fresh(Repr()) && View() == f
    {
      m_crawling_now := f.crawling;
      m_min := new TpSlidWin(MINUTE_SECS, f.min);
      m_hour := new TpSlidWin(HOUR_SECS, f.hour);
      m_day := new TpSlidWin(DAY_SECS, f.day);
    }

    method IsAllowed(limits: CrawlLimits, clock: SystemClock) returns (r: bool)
      requires Valid()
      modifies Repr(), clock
      ensures Checked(r, View(), clock.looks) == Check(old(View()), limits, clock.reading, old(clock.looks))
    {
      if m_crawling_now >= limits.hostParallel {
        return false;
      }
      var size := m_min.Size(clock);
      if size >= limits.hostMinute {
        return false;
      }
      size := m_hour.Size(clock);
      if size >= limits.hostHour {
        return false;
      }
      size := m_day.Size(clock);
      if size >= limits.hostDay {
        return false;
      }
      return true;
    }

    method IncCrawling(clock: SystemClock)
      requires Valid()
      modifies Repr(), clock
      ensures View() == Started(old(View()), clock.reading, old(clock.looks))
      ensures clock.looks == old(clock.looks) + 3
    {
      hide Recent;
      m_crawling_now := m_crawling_now + 1;
      m_min.Inc(clock);
      m_hour.Inc(clock);
      m_day.Inc(clock);
    }

    method DecCrawling()
      modifies `m_crawling_now
      ensures View() == Finished(old(View()))
    {
      if m_crawling_now <= 0 {
        return;
      }
      m_crawling_now := m_crawling_now - 1;
    }
  }
}
