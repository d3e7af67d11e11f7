/** The statistics variant that writers fill through a merge queue: every pass collects its events
    in a local pair, merges the local pair into a copy of the published one, and switches. */
module UrlFreqStatsByMerge {
  import opened Clock
  import opened Types
  import opened UrlFreqMaps
  import opened UrlFreqHistory
  import opened LastPerMapsPair
  import opened UrlFreqStatistics

  /** Statistics as the merge-queue variant publishes them: every batch of events goes into a
      local pair of its own, and local pairs are merged into a copy of the published one. */
  function Published(batches: seq<seq<Arrival>>): Pair {
    if batches == [] then EMPTY_PAIR
    else MergedPair(Published(batches[..|batches| - 1]), RunPair(batches[|batches| - 1]))
  }

  /** Merging loses the suffix property but keeps what `Max` and the rankings rely on. */
  lemma {:induction false} PublishedHourWithinDay(batches: seq<seq<Arrival>>)
    requires forall b :: b in batches ==> PositiveArrivals(b)
    ensures HourWithinDay(Published(batches))
  {
    if batches != [] {
      var n := |batches| - 1;
      var p, l := Published(batches[..n]), RunPair(batches[n]);
      PublishedHourWithinDay(batches[..n]);
      HourIsSuffixOfDay(batches[n]);
      MergedConsistent(p.hour, l.hour);
      MergedConsistent(p.day, l.day);
      MergedQueueMultiset(p.hour.q, l.hour.q);
      MergedQueueMultiset(p.day.q, l.day.q);
    }
  }

  lemma NothingRun()
    ensures RunPair([]) == EMPTY_PAIR
  {
  }

  lemma RunPairStep(events: seq<Arrival>, i: nat)
    requires i < |events|
    ensures RunPair(events[..i + 1]) == InsertedPair(RunPair(events[..i]), events[i].stat, events[i].now)
  {
    assert events[..i + 1][..i] == events[..i];
  }

  lemma PublishedStep(batches: seq<seq<Arrival>>, b: seq<Arrival>)
    ensures Published(batches + [b]) == MergedPair(Published(batches), RunPair(b))
  {
    assert (batches + [b])[..|batches|] == batches;
  }

  class UrlFreqStatsLF {
    var m_maps: LastPerMaps
    ghost var batches: seq<seq<Arrival>>   // everything merged so far

    ghost predicate Valid()
      reads this, m_maps.m_hour_map, m_maps.m_day_map
    {
      m_maps.Separate() && m_maps.View() == Published(batches)
    }

    /** Every event stands for at least one visit. */
    ghost predicate Positive()
      reads this
    {
      forall b :: b in batches ==> PositiveArrivals(b)
    }

    lemma WithinDay()
      requires Valid() && Positive()
      ensures HourWithinDay(m_maps.View())
    {
      PublishedHourWithinDay(batches);
    }

    constructor ()
      ensures fresh(m_maps) && fresh(m_maps.m_hour_map) && fresh(m_maps.m_day_map)
      ensures Valid() && batches == []
    {
      m_maps := new LastPerMaps();
      batches := [];
    }

    method Max() returns (r: Cnt)
      requires Valid() && Positive()
      ensures r == |m_maps.Known()|
    {
      WithinDay();
      r := m_maps.Max();
    }

    method GetTopUrls(limit: int, filter: Url -> bool) returns (r: seq<UrlFreq>)
      ensures IsTop(m_maps.m_hour_map.m_url_freq, m_maps.m_day_map.m_url_freq, limit, filter, r)
    {
      r := TopUrls(m_maps, limit, filter);
    }

    static method AccEvent(local: LastPerMaps, ev: UrlTpStat, now: Tp)
      requires local.Separate()
      modifies local.m_hour_map, local.m_day_map
      ensures local.View() == InsertedPair(old(local.View()), ev, now)
    {
      local.InsertVisitsPack(ev, now);
    }

    /** One pass of the merge thread over the events it took from the queue. */
    method MergePass(events: seq<Arrival>)
      requires Valid()
      modifies this
      ensures Valid() && fresh(m_maps) && batches == old(batches) + [events]
      ensures m_maps.View() == MergedPair(old(m_maps.View()), RunPair(events))
    {
      hide Published, InsertedPair, RunPair, MergedPair;
      var local := new LastPerMaps();
      NothingRun();
      for i := 0 to |events|
        invariant fresh(local) && local.Separate() && fresh(local.m_hour_map) && fresh(local.m_day_map)
        invariant local.View() == RunPair(events[..i])
        invariant unchanged(this) && m_maps.View() == old(m_maps.View())
      {
        RunPairStep(events, i);
        AccEvent(local, events[i].stat, events[i].now);
      }
      assert events[..|events|] == events;
      var copy := new LastPerMaps.Copy(m_maps);
      copy.Merge(local);
      m_maps := copy;
      PublishedStep(batches, events);
      batches := batches + [events];
    }
  }

  // ---------------------------------------------------------------- published counts against the log

  function PublishedHistory(batches: seq<seq<Arrival>>): History {
    if batches == [] then Fresh
    else Merge(PublishedHistory(batches[..|batches| - 1]), HistoryOf(batches[|batches| - 1]))
  }

  lemma {:induction false} PublishedIsHistory(batches: seq<seq<Arrival>>)
    ensures Published(batches) ==
      Pair(Eval(PublishedHistory(batches), HOUR_WINDOW), Eval(PublishedHistory(batches), DAY_WINDOW))
  {
    if batches != [] {
      PublishedIsHistory(batches[..|batches| - 1]);
      PairIsHistory(batches[|batches| - 1]);
    }
  }

  /** Published counts may lag behind the windows, but they never miss a visit that is still in. */
  lemma PublishedNeverUndercounts(batches: seq<seq<Arrival>>, t: Tp, u: Url)
    requires NoReadingAfter(PublishedHistory(batches), t) && AllPositive(Log(PublishedHistory(batches)))
    ensures
      GetOr0(Published(batches).hour.freq, u) >=
      CountYounger(Log(PublishedHistory(batches)), u, t, 3601 * 1_000_000_000)
    ensures
      GetOr0(Published(batches).day.freq, u) >=
      CountYounger(Log(PublishedHistory(batches)), u, t, 86401 * 1_000_000_000)
  {
    PublishedIsHistory(batches);
    WindowByAge(Log(PublishedHistory(batches)), u, t, HOUR_WINDOW);
    WindowByAge(Log(PublishedHistory(batches)), u, t, DAY_WINDOW);
    ExactIffNoStaleEntry(PublishedHistory(batches), t, HOUR_WINDOW);
    ExactIffNoStaleEntry(PublishedHistory(batches), t, DAY_WINDOW);
  }

  /** Published counts are all exact at `t` if and only if no published entry has expired by then. */
  lemma PublishedExactIff(batches: seq<seq<Arrival>>, t: Tp)
    requires NoReadingAfter(PublishedHistory(batches), t) && AllPositive(Log(PublishedHistory(batches)))
    ensures
      var log := Log(PublishedHistory(batches));
      (forall u :: GetOr0(Published(batches).hour.freq, u) == SumFor(InWindow(log, t, HOUR_WINDOW), u)) <==>
      (forall x :: x in Published(batches).hour.q ==> !Expired(t, x.tp, HOUR_WINDOW))
    ensures
      var log := Log(PublishedHistory(batches));
      (forall u :: GetOr0(Published(batches).day.freq, u) == SumFor(InWindow(log, t, DAY_WINDOW), u)) <==>
      (forall x :: x in Published(batches).day.q ==> !Expired(t, x.tp, DAY_WINDOW))
  {
    PublishedIsHistory(batches);
    ExactIffNoStaleEntry(PublishedHistory(batches), t, HOUR_WINDOW);
    ExactIffNoStaleEntry(PublishedHistory(batches), t, DAY_WINDOW);
  }

  lemma OneArrival(a: Arrival)
    ensures RunPair([a]) == InsertedPair(EMPTY_PAIR, a.stat, a.now)
    ensures HistoryOf([a]) == Insert(Fresh, a.stat, a.now)
  {
    assert [a][..0] == [];
  }

  lemma TwoBatches(a: seq<Arrival>, b: seq<Arrival>)
    ensures Published([a, b]) == MergedPair(MergedPair(EMPTY_PAIR, RunPair(a)), RunPair(b))
    ensures PublishedHistory([a, b]) == Merge(Merge(Fresh, HistoryOf(a)), HistoryOf(b))
  {
    assert [a, b][..1] == [a] && [a][..0] == [];
    assert Published([a]) == MergedPair(Published([]), RunPair(a));
    assert PublishedHistory([a]) == Merge(PublishedHistory([]), HistoryOf(a));
  }

  /** Even a pass that has just published leaves stale counts: the visit to `u` is more than an
      hour old when the second batch is published, and is still counted for the last hour. */
  lemma PublishedCountIsStale(u: Url, v: Url)
    requires u != v
    ensures
      var late := 3601 * SECOND;
      var batches := [[Arrival(UrlTpStat(u, 0, 1), 0)], [Arrival(UrlTpStat(v, late, 1), late)]];
      && NoReadingAfter(PublishedHistory(batches), late)
      && GetOr0(Published(batches).hour.freq, u) == 1
      && SumFor(InWindow(Log(PublishedHistory(batches)), late, HOUR_WINDOW), u) == 0
  {
    var late := 3601 * SECOND;
    var a, b := Arrival(UrlTpStat(u, 0, 1), 0), Arrival(UrlTpStat(v, late, 1), late);
    OneArrival(a);
    OneArrival(b);
    TwoBatches([a], [b]);
    StaleCount(a, b);
    StaleWindow(a, b);
  }

  lemma StaleCount(a: Arrival, b: Arrival)
    requires a.stat.url != b.stat.url && a.now == a.stat.tp && b.now == b.stat.tp && a.stat.cnt == b.stat.cnt == 1
    ensures
      var merged := MergedPair(MergedPair(EMPTY_PAIR, InsertedPair(EMPTY_PAIR, a.stat, a.now)),
        InsertedPair(EMPTY_PAIR, b.stat, b.now));
      GetOr0(merged.hour.freq, a.stat.url) == 1
  {
    ExpiredThreshold(a.now, a.now, HOUR_WINDOW);
    ExpiredThreshold(b.now, b.now, HOUR_WINDOW);
    var x, y := InsertedPair(EMPTY_PAIR, a.stat, a.now).hour, InsertedPair(EMPTY_PAIR, b.stat, b.now).hour;
    assert x.freq == map[a.stat.url := 1];
    assert y.freq == map[b.stat.url := 1];
  }

  lemma OneVisitLog(a: Arrival)
    ensures Log(Insert(Fresh, a.stat, a.now)) == [a.stat]
    ensures Log(Merge(Fresh, Insert(Fresh, a.stat, a.now))) == [a.stat]
  {
    assert Log(Fresh) == [] && [] + [a.stat] == [a.stat];
    assert Log(Insert(Fresh, a.stat, a.now)) == Log(Fresh) + [a.stat];
  }

  lemma WindowOfTwo(x: UrlTpStat, y: UrlTpStat, t: Tp)
    requires Expired(t, x.tp, HOUR_WINDOW) && !Expired(t, y.tp, HOUR_WINDOW)
    ensures InWindow([x, y], t, HOUR_WINDOW) == [y]
  {
    assert [x, y][1..] == [y] && [y][1..] == [];
    assert InWindow([y], t, HOUR_WINDOW) == [y] + InWindow([], t, HOUR_WINDOW);
  }

  lemma StaleWindow(a: Arrival, b: Arrival)
    requires a.stat.url != b.stat.url && b.stat.tp - a.stat.tp >= 3601 * SECOND
    ensures
      var h := Merge(Merge(Fresh, Insert(Fresh, a.stat, a.now)), Insert(Fresh, b.stat, b.now));
      SumFor(InWindow(Log(h), b.stat.tp, HOUR_WINDOW), a.stat.url) == 0
  {
    var h := Merge(Merge(Fresh, Insert(Fresh, a.stat, a.now)), Insert(Fresh, b.stat, b.now));
    OneVisitLog(a);
    OneVisitLog(b);
    assert Log(h) == [a.stat, b.stat];
    ExpiredThreshold(b.stat.tp, a.stat.tp, HOUR_WINDOW);
    ExpiredThreshold(b.stat.tp, b.stat.tp, HOUR_WINDOW);
    WindowOfTwo(a.stat, b.stat, b.stat.tp);
    assert [b.stat][1..] == [];
  }
}
