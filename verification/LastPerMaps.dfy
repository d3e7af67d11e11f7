/** Two counters over the same visits, one for the last hour and one for the last day. */
module LastPerMapsPair {
  import opened Clock
  import opened Types
  import opened Rankings
  import opened UrlFreqMaps
  import opened UrlFreqHistory

  const HOUR_WINDOW: nat := 3600
  const DAY_WINDOW: nat := 86400

  datatype Pair = Pair(hour: FreqCache, day: FreqCache)

  const EMPTY_PAIR := Pair(EMPTY, EMPTY)

  function InsertedPair(p: Pair, s: UrlTpStat, now: Tp): Pair {
    Pair(Inserted(p.hour, s, now, HOUR_WINDOW), Inserted(p.day, s, now, DAY_WINDOW))
  }

  function MergedPair(a: Pair, b: Pair): Pair {
    Pair(Merged(a.hour, b.hour), Merged(a.day, b.day))
  }

  /** What the hour counter holds, the day counter holds too. */
  ghost predicate HourWithinDay(p: Pair) {
    && Consistent(p.hour)
    && Consistent(p.day)
    && multiset(p.hour.q) <= multiset(p.day.q)
  }

  ghost predicate IsSuffix<T>(h: seq<T>, d: seq<T>) {
    |h| <= |d| && h == d[|d| - |h|..]
  }

  class LastPerMaps {
    const m_hour_map: UrlFreqMap
    const m_day_map: UrlFreqMap

    ghost predicate Separate() {
      && m_hour_map != m_day_map
      && m_hour_map.m_window == HOUR_WINDOW
      && m_day_map.m_window == DAY_WINDOW
    }

    ghost function View(): Pair
      reads m_hour_map, m_day_map
    {
      Pair(m_hour_map.View(), m_day_map.View())
    }

    ghost function Known(): set<Url>
      reads m_hour_map, m_day_map
    {
      m_hour_map.m_url_freq.Keys + m_day_map.m_url_freq.Keys
    }

    constructor ()
      ensures Separate() && fresh(m_hour_map) && fresh(m_day_map)
      ensures View() == EMPTY_PAIR
    {
      m_hour_map := new UrlFreqMap(HOUR_WINDOW);
      m_day_map := new UrlFreqMap(DAY_WINDOW);
    }

    constructor Copy(a: LastPerMaps)
      requires a.Separate()
      ensures Separate() && fresh(m_hour_map) && fresh(m_day_map)
      ensures View() == a.View()
    {
      m_hour_map := new UrlFreqMap.Copy(a.m_hour_map);
      m_day_map := new UrlFreqMap.Copy(a.m_day_map);
    }

    /** As long as the hour counter stays within the day counter this is the number of distinct
        known urls. */
    method Max() returns (r: Cnt)
      requires HourWithinDay(View())
      ensures r == |Known()|
      ensures r == |m_day_map.m_url_freq|
    {
      DayKnowsEveryUrl(View());
      assert m_hour_map.m_url_freq.Keys + m_day_map.m_url_freq.Keys == m_day_map.m_url_freq.Keys;
      SubsetCardinality(m_hour_map.m_url_freq.Keys, m_day_map.m_url_freq.Keys);
      r := if m_hour_map.Size() < m_day_map.Size() then m_day_map.Size() else m_hour_map.Size();
    }

    method Insert(visit: UrlVisit, now: Tp)
      requires Separate()
      modifies m_hour_map, m_day_map
      ensures View() == InsertedPair(old(View()), StatOfVisit(visit), now)
    {
      m_hour_map.Insert(visit, now);
      m_day_map.Insert(visit, now);
    }

    method InsertVisitsPack(uts: UrlTpStat, now: Tp)
      requires Separate()
      modifies m_hour_map, m_day_map
      ensures View() == InsertedPair(old(View()), uts, now)
    {
      m_hour_map.InsertVisitsPack(uts, now);
      m_day_map.InsertVisitsPack(uts, now);
    }

    method GetTopHourUrls() returns (urls: seq<UrlFreq>)
      ensures IsRanking(m_hour_map.m_url_freq, urls)
    {
      urls := m_hour_map.GetTopUrls();
    }

    method GetTopDayUrls() returns (urls: seq<UrlFreq>)
      ensures IsRanking(m_day_map.m_url_freq, urls)
    {
      urls := m_day_map.GetTopUrls();
    }

    method Merge(a: LastPerMaps)
      requires Separate() && a.Separate()
      requires m_hour_map != a.m_day_map && m_day_map != a.m_hour_map
      modifies m_hour_map, m_day_map
      ensures View() == MergedPair(old(View()), old(a.View()))
    {
      m_hour_map.Merge(a.m_hour_map);
      m_day_map.Merge(a.m_day_map);
    }
  }

  lemma SubsetCardinality<T>(a: set<T>, b: set<T>)
    requires a <= b
    ensures |a| <= |b|
  {
    assert b == a + (b - a);
  }

  // ---------------------------------------------------------------- the hour queue is a suffix of the day queue

  lemma {:induction false} DropExpiredSuffix(h: seq<UrlTpStat>, d: seq<UrlTpStat>, now: Tp, hw: nat, dw: nat)
    requires IsSuffix(h, d) && hw <= dw
    ensures IsSuffix(DropExpired(h, now, hw), DropExpired(d, now, dw))
    decreases |d|
  {
    if d != [] && Expired(now, d[0].tp, dw) {
      if |h| == |d| {
        ExpiredMonotone(now, d[0].tp, dw, now, d[0].tp, hw);
        DropExpiredSuffix(h[1..], d[1..], now, hw, dw);
      } else {
        DropExpiredSuffix(h, d[1..], now, hw, dw);
      }
    } else {
      DropExpiredTakesPrefix(h, now, hw);
    }
  }

  lemma {:induction false} DropExpiredTakesPrefix(q: seq<UrlTpStat>, now: Tp, window: nat)
    ensures IsSuffix(DropExpired(q, now, window), q)
  {
    if q != [] && Expired(now, q[0].tp, window) {
      DropExpiredTakesPrefix(q[1..], now, window);
    }
  }

  lemma SuffixIsIncluded<T>(h: seq<T>, d: seq<T>)
    requires IsSuffix(h, d)
    ensures multiset(h) <= multiset(d)
  {
    assert d == d[..|d| - |h|] + h;
  }

  lemma DayKnowsEveryUrl(p: Pair)
    requires HourWithinDay(p)
    ensures p.hour.freq.Keys <= p.day.freq.Keys
    ensures forall u :: GetOr0(p.hour.freq, u) <= GetOr0(p.day.freq, u)
  {
    forall u ensures GetOr0(p.hour.freq, u) <= GetOr0(p.day.freq, u) {
      SumForMonotone(p.hour.q, p.day.q, u);
      assert GetOr0(p.hour.freq, u) == SumFor(p.hour.q, u) && GetOr0(p.day.freq, u) == SumFor(p.day.q, u);
    }
    forall u | u in p.hour.freq ensures u in p.day.freq {
      assert GetOr0(p.hour.freq, u) <= GetOr0(p.day.freq, u);
    }
  }

  function RunPair(arrivals: seq<Arrival>): Pair {
    if arrivals == [] then EMPTY_PAIR
    else
      var last := arrivals[|arrivals| - 1];
      InsertedPair(RunPair(arrivals[..|arrivals| - 1]), last.stat, last.now)
  }

  predicate PositiveArrivals(arrivals: seq<Arrival>) {
    forall a :: a in arrivals ==> a.stat.cnt > 0
  }

  /** For every sequence of inserts the hour queue is the tail of the day queue; neither the
      visits nor the clock readings need to be ordered. */
  lemma {:induction false} HourIsSuffixOfDay(arrivals: seq<Arrival>)
    ensures IsSuffix(RunPair(arrivals).hour.q, RunPair(arrivals).day.q)
    ensures PositiveArrivals(arrivals) ==> HourWithinDay(RunPair(arrivals))
  {
    if arrivals != [] {
      var n := |arrivals| - 1;
      HourIsSuffixOfDay(arrivals[..n]);
      InsertKeepsSuffix(RunPair(arrivals[..n]), arrivals[n].stat, arrivals[n].now);
    }
  }

  lemma InsertKeepsSuffix(p: Pair, s: UrlTpStat, now: Tp)
    requires IsSuffix(p.hour.q, p.day.q)
    ensures IsSuffix(InsertedPair(p, s, now).hour.q, InsertedPair(p, s, now).day.q)
    ensures HourWithinDay(p) && s.cnt > 0 ==> HourWithinDay(InsertedPair(p, s, now))
  {
    var h, d := p.hour.q + [s], p.day.q + [s];
    assert d[|d| - |h|..] == h;
    CleanedQueue(Pushed(p.hour, s), now, HOUR_WINDOW);
    CleanedQueue(Pushed(p.day, s), now, DAY_WINDOW);
    DropExpiredSuffix(h, d, now, HOUR_WINDOW, DAY_WINDOW);
    SuffixIsIncluded(InsertedPair(p, s, now).hour.q, InsertedPair(p, s, now).day.q);
    if HourWithinDay(p) && s.cnt > 0 {
      InsertedConsistent(p.hour, s, now, HOUR_WINDOW);
      InsertedConsistent(p.day, s, now, DAY_WINDOW);
    }
  }

  // ---------------------------------------------------------------- what the two counters count

  function HistoryOf(arrivals: seq<Arrival>): History {
    if arrivals == [] then Fresh
    else
      var a := arrivals[|arrivals| - 1];
      Insert(HistoryOf(arrivals[..|arrivals| - 1]), a.stat, a.now)
  }

  /** Both counters of a pair are counters in the sense of the history theorems. */
  lemma {:induction false} PairIsHistory(arrivals: seq<Arrival>)
    ensures RunPair(arrivals) == Pair(Eval(HistoryOf(arrivals), HOUR_WINDOW), Eval(HistoryOf(arrivals), DAY_WINDOW))
  {
    if arrivals != [] {
      PairIsHistory(arrivals[..|arrivals| - 1]);
    }
  }

  /** Visits in time order, and none of them without a count. */
  ghost predicate InTimeOrder(arrivals: seq<Arrival>) {
    && PositiveArrivals(arrivals)
    && (forall i, j :: 0 <= i <= j < |arrivals| ==>
          arrivals[i].stat.tp <= arrivals[j].stat.tp && arrivals[i].now <= arrivals[j].now)
  }

  lemma {:induction false} LogOfArrivals(arrivals: seq<Arrival>)
    ensures Log(HistoryOf(arrivals)) == seq(|arrivals|, i requires 0 <= i < |arrivals| => arrivals[i].stat)
  {
    if arrivals != [] {
      LogOfArrivals(arrivals[..|arrivals| - 1]);
    }
  }

  lemma {:induction false} OrderedHistory(arrivals: seq<Arrival>)
    requires InTimeOrder(arrivals)
    ensures InOrder(HistoryOf(arrivals))
    ensures arrivals != [] ==> NoReadingAfter(HistoryOf(arrivals), arrivals[|arrivals| - 1].now)
  {
    if arrivals != [] {
      hide Log;
      var n := |arrivals| - 1;
      assert forall a :: a in arrivals[..n] ==> a in arrivals;
      OrderedHistory(arrivals[..n]);
      LogOfArrivals(arrivals[..n]);
      if n > 0 {
        ReadingLater(HistoryOf(arrivals[..n]), arrivals[n - 1].now, arrivals[n].now);
      }
    }
  }

  lemma ReadingLater(h: History, t: Tp, later: Tp)
    requires NoReadingAfter(h, t) && t <= later
    ensures NoReadingAfter(h, later)
  {
  }

  /** With visits in time order, right after an insert the one counter holds what was visited less than
      3601 seconds ago, and the other what was visited less than 86401 seconds ago. */
  lemma CountsAreLastHourAndDay(arrivals: seq<Arrival>, u: Url)
    requires arrivals != [] && InTimeOrder(arrivals)
    ensures
      var log, now := Log(HistoryOf(arrivals)), arrivals[|arrivals| - 1].now;
      && GetOr0(RunPair(arrivals).hour.freq, u) == CountYounger(log, u, now, 3601 * 1_000_000_000)
      && GetOr0(RunPair(arrivals).day.freq, u) == CountYounger(log, u, now, 86401 * 1_000_000_000)
  {
    var h, now := HistoryOf(arrivals), arrivals[|arrivals| - 1].now;
    PairIsHistory(arrivals);
    OrderedHistory(arrivals);
    LogOfArrivals(arrivals);
    assert h.Insert? && h.now == now;
    hide HistoryOf, Eval, InWindow, CountYounger, InOrder, NoReadingAfter;
    assert AllPositive(Log(h)) by {
      forall s | s in Log(h) ensures s.cnt > 0 {
        var i :| 0 <= i < |arrivals| && Log(h)[i] == s;
        assert arrivals[i] in arrivals;
      }
    }
    InsertMakesWindowExact(h, HOUR_WINDOW);
    InsertMakesWindowExact(h, DAY_WINDOW);
    WindowByAge(Log(h), u, now, HOUR_WINDOW);
    WindowByAge(Log(h), u, now, DAY_WINDOW);
  }
}
