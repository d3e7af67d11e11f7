/** One whole round of the enqueue loop: how many, which ones, and what is recorded about them. */
module EnqueueRounds {
  import opened Clock
  import opened Types
  import opened SlidingWindows
  import opened LastPerMapsPair
  import opened UrlFreqStatistics
  import opened UrlFreqStatsByMerge
  import opened EnqueueTargets
  import opened TopSearch
  import UrlDatabase
  import UrlDbRuns
  import opened UrlsDaysStore
  import opened CrawledCounters
  import opened DailyQuota
  import QuotaRuns

  class EnqueueRound {
    const m_url_freq_stats: UrlFreqStatsLF
    const m_filter: EnqueueLoopFilter
    const m_quota: EnqueueLoop

    constructor (stats: UrlFreqStatsLF, filter: EnqueueLoopFilter, quota: EnqueueLoop)
      ensures m_url_freq_stats == stats && m_filter == filter && m_quota == quota
    {
      m_url_freq_stats, m_filter, m_quota := stats, filter, quota;
    }

    ghost function Due(hours: nat): Cnt
      reads m_quota.m_crawled_db.m_db.m_urls_days
    {
      ToEnqueue(m_quota.m_target_day_crawl, m_quota.Enqueued(), m_quota.Finished(), hours)
    }

    ghost function Known(): set<Url>
      reads m_url_freq_stats, m_url_freq_stats.m_maps.m_hour_map, m_url_freq_stats.m_maps.m_day_map
    {
      m_url_freq_stats.m_maps.Known()
    }

    /** What is crawlable among the known urls at a reading of the clock. */
    ghost function Crawlable(at: Tp): set<Url>
      reads m_url_freq_stats, m_url_freq_stats.m_maps.m_hour_map, m_url_freq_stats.m_maps.m_day_map
      reads m_filter.m_host_db, m_filter.m_url_db
    {
      m_filter.Targets(at, Known())
    }

    /** The pushed urls are crawlable at the last look at the clock, never more than are due, and
        fewer only if nothing else is crawlable; they are the best ones of the list that the last pass
        ranked. Exactly they are recorded as enqueued, in the url histories, at the attempt time, and in
        the counters, at the clock reading `saved_tp` of that save. The round is a run of the steps of
        `UrlDbRuns`, which continues any run that left the histories as they were, and a regular round
        of `QuotaRuns`, whatever part of what was saved the store has seen. */
    method LoopImpl(hours: nat, now: nat -> Tp, attempt_tp: Tp, saved_tp: Tp)
      returns (pushed: seq<Url>, looks: nat, ghost vias: seq<UrlDatabase.Policy>, ghost best: Pass)
      requires m_url_freq_stats.Valid() && m_url_freq_stats.Positive()
      requires IsCInt(2 * Max(Due(hours), |Known()|))
      requires m_filter.m_url_db.Valid()
      modifies m_filter.m_url_db, m_quota.m_crawled_db.m_db`m_q
      ensures m_filter.m_url_db.Valid()
      ensures |pushed| <= old(Due(hours))
      ensures looks == 0 <==> old(Due(hours)) == 0
      ensures looks > 0 ==> pushed == UrlsOf(best.out) && old(IsBest(hours, looks, now, best))
      ensures looks > 0 ==> ToSet(pushed) <= old(Crawlable(Look(now, looks - 1)))
      ensures looks > 0 && |pushed| < old(Due(hours)) ==> ToSet(pushed) == old(Crawlable(Look(now, looks - 1)))
      ensures looks > 0 && old(m_filter.Distinct(Look(now, looks - 1), Known())) ==> NoDup(pushed)
      ensures
        var db := m_quota.m_crawled_db;
        db.m_db.m_q == old(db.m_db.m_q) + [UrlTpStat(db.m_fake_url(0), saved_tp, |pushed|)]
      ensures
        var db := m_quota.m_crawled_db;
        forall saved, round ::
          && QuotaRuns.ReadsStore(saved, round, old(db.m_db.m_urls_days.m_urls_days))
          && round.hours == hours && round.pushed == |pushed| && round.tp == saved_tp ==>
          && QuotaRuns.RegularStep(saved, round, m_quota.m_target_day_crawl, db.m_fake_url)
          && db.m_db.m_q == old(db.m_db.m_q) + QuotaRuns.SavedBy(round, db.m_fake_url)
      ensures
        var db := m_filter.m_url_db;
        db.m_url_crawl_attempts == UrlDatabase.AllEnqueued(old(db.m_url_crawl_attempts), pushed, db.round(attempt_tp))
      ensures |vias| == |pushed|
      ensures looks > 0 ==>
        var db := m_filter.m_url_db;
        forall stored, before ::
          UrlDbRuns.RunLoop(stored, before, db.round).attempts == old(db.m_url_crawl_attempts) ==>
          Continued(stored, before, UrlDbRuns.RoundSteps(pushed, vias, Look(now, looks - 1), attempt_tp), db.round) ==
          db.m_url_crawl_attempts
    {
      hide HourWithinDay, ToEnqueue, TargetsOf, DistinctTargets, Continued, UrlDbRuns.RunLoop, UrlDatabase.AllEnqueued;
      hide BestFirst, IsTop, QuotaRuns.ReadsStore, QuotaRuns.RegularStep, EnqueuedOf, FinishedOf;
      var push_urls_freq: seq<UrlFreq>;
      m_url_freq_stats.WithinDay();
      push_urls_freq, looks, best := CheckEnqueueImpl(hours, now);
      pushed := UrlsOf(push_urls_freq);
      ghost var db := m_filter.m_url_db;
      vias := seq(|pushed|, _ => UrlDatabase.Page);
      if looks > 0 {
        ghost var at := Look(now, looks - 1);
        vias := TargetsAreAllowed(m_filter.At(at), Known(), pushed);
        RoundContinues(db.m_url_crawl_attempts, pushed, vias, at, attempt_tp, db.round);
      }
      RoundsAreRegular(m_quota.m_crawled_db.m_db.m_urls_days.m_urls_days, hours, |pushed|, saved_tp,
        m_quota.m_target_day_crawl, m_quota.m_crawled_db.m_fake_url);
      m_quota.m_crawled_db.SaveResult(ENQUEUED, |pushed|, saved_tp);
      m_filter.m_url_db.SetEnqueued(pushed, attempt_tp);
    }

    /** What `best` holds are the best ones of what the last of the passes looked at. */
    ghost predicate IsBest(hours: nat, looks: nat, now: nat -> Tp, best: Pass)
      requires looks > 0
      reads m_url_freq_stats, m_url_freq_stats.m_maps.m_hour_map, m_url_freq_stats.m_maps.m_day_map
      reads m_filter.m_host_db, m_filter.m_url_db, m_quota.m_crawled_db.m_db.m_urls_days
    {
      m_filter.IsBest(m_url_freq_stats.m_maps, Doubled(Due(hours), looks - 1), Look(now, looks - 1), best)
    }

    method CheckEnqueueImpl(hours: nat, now: nat -> Tp)
      returns (push_urls: seq<UrlFreq>, looks: nat, ghost best: Pass)
      requires HourWithinDay(m_url_freq_stats.m_maps.View())
      requires IsCInt(2 * Max(Due(hours), |Known()|))
      ensures |push_urls| <= Due(hours)
      ensures looks == 0 <==> Due(hours) == 0
      ensures looks > 0 ==> best.out == push_urls && IsBest(hours, looks, now, best)
      ensures looks > 0 ==> ToSet(UrlsOf(push_urls)) <= Crawlable(Look(now, looks - 1))
      ensures looks > 0 && |push_urls| < Due(hours) ==> ToSet(UrlsOf(push_urls)) == Crawlable(Look(now, looks - 1))
      ensures looks > 0 && m_filter.Distinct(Look(now, looks - 1), Known()) ==> NoDup(UrlsOf(push_urls))
    {
      hide ToEnqueue, EnqueuedOf, FinishedOf, HourWithinDay, TargetsOf, DistinctTargets;
      hide UrlsOf, ToSet, NoDup, Max, IsCInt, BestFirst, TakesAll, IsTop, Decided;
      best := Pass([], [], []);
      var push_target := m_quota.CalcToEnqueueNow(hours);
      if push_target <= 0 {
        return [], 0, best;
      }
      ghost var trace;
      var decisions, top;
      decisions, push_urls, top, looks, trace, best := m_filter.SearchTop(m_url_freq_stats.m_maps, push_target, now);
    }
  }

  lemma RoundsAreRegular(store: Store, hours: nat, pushed: nat, tp: Tp, target: Cnt, fakeUrl: int -> Url)
    requires pushed <= ToEnqueue(target, EnqueuedOf(store, fakeUrl), FinishedOf(store, fakeUrl), hours)
    ensures forall saved, round ::
      && QuotaRuns.ReadsStore(saved, round, store)
      && round.hours == hours && round.pushed == pushed && round.tp == tp ==>
      && QuotaRuns.RegularStep(saved, round, target, fakeUrl)
      && QuotaRuns.SavedBy(round, fakeUrl) == [UrlTpStat(fakeUrl(0), tp, pushed)]
  {
    hide ToEnqueue, EnqueuedOf, FinishedOf;
  }

  /** The histories after more steps of a run. */
  ghost function Continued(
      stored: Attempts, before: seq<UrlDbRuns.Step>, steps: seq<UrlDbRuns.Step>, rounding: Tp -> Tp): Attempts {
    UrlDbRuns.RunLoop(stored, before + steps, rounding).attempts
  }

  lemma RoundContinues(
      attempts: Attempts, pushed: seq<Url>, vias: seq<UrlDatabase.Policy>, at: Tp, tp: Tp, rounding: Tp -> Tp)
    requires |vias| == |pushed|
    requires forall i :: 0 <= i < |pushed| ==>
      UrlDatabase.Verdict(vias[i], UrlDatabase.HistoryOf(attempts, pushed[i]), at) == UrlDatabase.ALLOW
    ensures forall stored, before ::
      UrlDbRuns.RunLoop(stored, before, rounding).attempts == attempts ==>
      Continued(stored, before, UrlDbRuns.RoundSteps(pushed, vias, at, tp), rounding) ==
      UrlDatabase.AllEnqueued(attempts, pushed, rounding(tp))
  {
    forall stored, before | UrlDbRuns.RunLoop(stored, before, rounding).attempts == attempts
      ensures Continued(stored, before, UrlDbRuns.RoundSteps(pushed, vias, at, tp), rounding) ==
        UrlDatabase.AllEnqueued(attempts, pushed, rounding(tp))
    {
      UrlDbRuns.RunContinues(stored, before, UrlDbRuns.RoundSteps(pushed, vias, at, tp), rounding);
      UrlDbRuns.RoundIsRun(UrlDbRuns.RunLoop(stored, before, rounding), pushed, vias, at, tp, rounding);
    }
  }

  /** Every target is allowed by one of the two policies. */
  lemma {:induction false} TargetsAreAllowed(m: Moment, known: set<Url>, urls: seq<Url>)
      returns (vias: seq<UrlDatabase.Policy>)
    requires ToSet(urls) <= TargetsOf(m, known)
    ensures |vias| == |urls|
    ensures forall i :: 0 <= i < |urls| ==>
      UrlDatabase.Verdict(vias[i], UrlDatabase.HistoryOf(m.attempts, urls[i]), m.now) == UrlDatabase.ALLOW
  {
    if urls == [] {
      vias := [];
    } else {
      hide TargetsOf, UrlDatabase.IsDue, UrlDatabase.Verdict, UrlDatabase.HistoryOf;
      var n := |urls| - 1;
      assert urls[n] in ToSet(urls);
      assert ToSet(urls[..n]) <= ToSet(urls);
      vias := TargetsAreAllowed(m, known, urls[..n]);
      TargetIff(m, known, urls[n]);
      var h := UrlDatabase.HistoryOf(m.attempts, urls[n]);
      UrlDatabase.AllowedExactlyAfterWait(UrlDatabase.Page, h, m.now);
      UrlDatabase.AllowedExactlyAfterWait(UrlDatabase.RobotsFile, h, m.now);
      var verdict := UrlDatabase.Verdict(UrlDatabase.Page, h, m.now);
      vias := vias + [if verdict == UrlDatabase.ALLOW then UrlDatabase.Page else UrlDatabase.RobotsFile];
    }
  }
}
