/** From the ranked urls to those worth enqueueing: the filter pipeline and the doubling search. */
module TopSearch {
  import opened Clock
  import opened Types
  import opened Rankings
  import opened LastPerMapsPair
  import opened UrlFreqStatistics
  import opened EnqueueTargets
  import HostDatabase
  import opened SlidingWindows
  import UrlDatabase

  /** The search reads the counters `maps` that the statistics show; either variant of the
      statistics can stand behind them. */
  class EnqueueLoopFilter {
    const m_host_db: HostDatabase.HostDb
    const m_url_db: UrlDatabase.UrlDb

    constructor (hostDb: HostDatabase.HostDb, urlDb: UrlDatabase.UrlDb)
      ensures m_host_db == hostDb && m_url_db == urlDb
    {
      m_host_db, m_url_db := hostDb, urlDb;
    }

    /** What decisions at a reading of the clock depend on. */
    ghost function At(now: Tp): Moment
      reads m_host_db, m_url_db
    {
      Moment(m_host_db.m_web, m_host_db.m_host_robots, m_url_db.m_url_crawl_attempts, now)
    }

    ghost function Targets(now: Tp, urls: set<Url>): set<Url>
      reads m_host_db, m_url_db
    {
      TargetsOf(At(now), urls)
    }

    /** No two known urls make the scheduler enqueue the same one. */
    ghost predicate Distinct(now: Tp, urls: set<Url>)
      reads m_host_db, m_url_db
    {
      DistinctTargets(At(now), urls)
    }

    /** Every entry is a target, and none is repeated if no two known urls lead to the same one. */
    ghost predicate OnlyTargets(out: seq<UrlFreq>, now: Tp, urls: set<Url>)
      reads m_host_db, m_url_db
    {
      && ToSet(UrlsOf(out)) <= Targets(now, urls)
      && (Distinct(now, urls) ==> NoDup(UrlsOf(out)))
    }

    method NeedCrawlUrls(urls: seq<UrlFreq>, now: Tp)
      returns (decisions: seq<UrlDatabase.UrlDecision>, out: seq<UrlFreq>, ghost ranks: seq<nat>)
      ensures Decided(At(now), urls, decisions)
      ensures BestFirst(At(now), urls, out, ranks) && TakesAll(At(now), urls, out, ranks)
      ensures ToSet(UrlsOf(out)) == Targets(now, ToSet(UrlsOf(urls)))
      ensures NoDup(UrlsOf(urls)) ==> (NoDup(UrlsOf(out)) <==> Distinct(now, ToSet(UrlsOf(urls))))
    {
      hide BestFirst, TakesAll, TargetsOf, DistinctTargets, UrlsOf, ToSet, NoDup, HostDatabase.GivesPage,
        HostDatabase.GivesFile, UrlDatabase.IsDue, UrlDatabase.PageVerdict, UrlDatabase.RobotsVerdict;
      var allowed_urls, need_robots := m_host_db.LeaveAllowedByRobots(urls);
      var need_urls;
      decisions, need_urls := m_url_db.LeaveNeedUrls(allowed_urls, now);
      var need_robots_uniq := ReduceUrlFreqs(need_robots);
      var _, filtered := m_url_db.LeaveNeedRobots(need_robots_uniq, now);
      out := filtered + need_urls;
      ranks := PageRanks(At(now), urls);
      PipelineBestFirst(At(now), urls, need_robots_uniq, out);
      ListedAreTargets(At(now), urls, out, ranks);
      if NoDup(UrlsOf(urls)) {
        EntriesDistinctIff(At(now), urls, out, ranks);
      }
    }

    /** The ranked list that a pass looks at, and the best of what is due in it, in pushing order. */
    ghost predicate IsBest(maps: LastPerMaps, top: int, now: Tp, pass: Pass)
      reads m_host_db, m_url_db, maps.m_hour_map, maps.m_day_map
    {
      && IsTop(maps.m_hour_map.m_url_freq, maps.m_day_map.m_url_freq, top, NoFilter(), pass.top)
      && BestFirst(At(now), pass.top, pass.out, pass.ranks)
    }

    /** A whole pass takes all that is due. */
    ghost predicate IsPass(maps: LastPerMaps, top: int, now: Tp, pass: Pass)
      reads m_host_db, m_url_db, maps.m_hour_map, maps.m_day_map
    {
      IsBest(maps, top, now, pass) && TakesAll(At(now), pass.top, pass.out, pass.ranks)
    }

    /** Only targets come out, and all there are once the limit covers the known urls. */
    method Filter(maps: LastPerMaps, top: int, now: Tp)
      returns (decisions: seq<UrlDatabase.UrlDecision>, out: seq<UrlFreq>, ghost pass: Pass)
      requires IsCInt(top)
      ensures IsPass(maps, top, now, pass) && pass.out == out && Decided(At(now), pass.top, decisions)
      ensures OnlyTargets(out, now, maps.Known())
      ensures |maps.Known()| <= AsSize(top) ==> ToSet(UrlsOf(out)) == Targets(now, maps.Known())
      ensures |maps.Known()| <= AsSize(top) ==> (NoDup(UrlsOf(out)) <==> Distinct(now, maps.Known()))
    {
      hide BestFirst, TakesAll, TargetsOf, DistinctTargets;
      var top_urls := TopUrls(maps, top, NoFilter());
      TopWithinKnown(maps.m_hour_map.m_url_freq, maps.m_day_map.m_url_freq, top_urls, top, NoFilter());
      ghost var ranks;
      decisions, out, ranks := NeedCrawlUrls(top_urls, now);
      pass := Pass(top_urls, out, ranks);
      TargetsGrow(At(now), ToSet(UrlsOf(top_urls)), maps.Known());
      if Distinct(now, maps.Known()) {
        FewerStayDistinct(At(now), ToSet(UrlsOf(top_urls)), maps.Known());
      }
    }

    /** The passes of a search: the limit doubles, and only the last one may reach the target. */
    ghost predicate ArePasses(maps: LastPerMaps, push_target: Cnt, now: nat -> Tp, trace: seq<Pass>)
      reads m_host_db, m_url_db, maps.m_hour_map, maps.m_day_map
    {
      && (forall k :: 0 <= k < |trace| ==> IsPass(maps, Doubled(push_target, k), Look(now, k), trace[k]))
      && (forall k :: 0 <= k < |trace| - 1 ==> |trace[k].out| < push_target)
    }

    /** Finds `push_target` entries to enqueue, or as many as there are: the first ones of the last pass.
        The list grows by doubling the number of ranked urls looked at; `now` gives the clock reading
        of each pass. */
    method SearchTop(maps: LastPerMaps, push_target: Cnt, now: nat -> Tp)
      returns (decisions: seq<UrlDatabase.UrlDecision>, push_urls: seq<UrlFreq>, top_cur: Cnt, passes: nat,
               ghost trace: seq<Pass>, ghost best: Pass)
      requires push_target > 0
      requires HourWithinDay(maps.View())
      requires IsCInt(2 * Max(push_target, |maps.Known()|))
      ensures passes > 0 && top_cur == Doubled(push_target, passes - 1) <= 2 * Max(push_target, |maps.Known()|)
      ensures |trace| == passes && ArePasses(maps, push_target, now, trace)
      ensures |push_urls| == if |trace[passes - 1].out| < push_target then |trace[passes - 1].out| else push_target
      ensures IsBest(maps, top_cur, Look(now, passes - 1), best)
      ensures best.out == push_urls && best.top == trace[passes - 1].top
      ensures Decided(At(Look(now, passes - 1)), best.top, decisions)
      ensures OnlyTargets(push_urls, Look(now, passes - 1), maps.Known())
      ensures |push_urls| < push_target ==> ToSet(UrlsOf(push_urls)) == Targets(Look(now, passes - 1), maps.Known())
    {
      hide *;
      ghost var known := maps.Known();
      ghost var most := Max(push_target, |known|);
      ghost var pass;
      LimitRange(push_target, |known|);
      DoublingStep(push_target, 0);
      top_cur, passes := push_target, 1;
      decisions, push_urls, pass := Filter(maps, top_cur, Look(now, 0));
      trace := [pass];
      FirstPass(maps, push_target, now, pass);
      while |push_urls| < push_target
        invariant passes > 0 && top_cur == Doubled(push_target, passes - 1)
        invariant push_target <= top_cur <= 2 * most
        invariant |push_urls| >= push_target || top_cur <= most
        invariant |trace| == passes && trace[passes - 1] == pass && pass.out == push_urls
        invariant ArePasses(maps, push_target, now, trace)
        invariant IsPass(maps, top_cur, Look(now, passes - 1), pass)
        invariant Decided(At(Look(now, passes - 1)), pass.top, decisions)
        invariant OnlyTargets(push_urls, Look(now, passes - 1), known)
        decreases 2 * most - top_cur
      {
        DoublingStep(push_target, passes - 1);
        top_cur := top_cur * 2;
        decisions, push_urls, pass := Filter(maps, top_cur, Look(now, passes));
        OneMorePass(maps, push_target, now, trace, pass);
        trace := trace + [pass];
        passes := passes + 1;
        if |push_urls| >= push_target {
          break;
        }
        var max := maps.Max();
        if top_cur > max {
          best := FirstOfPass(maps, top_cur, Look(now, passes - 1), pass, |push_urls|);
          return;
        }
      }
      PrefixOnlyTargets(push_urls, push_target, Look(now, passes - 1), known);
      best := FirstOfPass(maps, top_cur, Look(now, passes - 1), pass, push_target);
      push_urls := LimitVector(push_urls, push_target);
    }

    lemma FirstPass(maps: LastPerMaps, push_target: Cnt, now: nat -> Tp, pass: Pass)
      requires IsPass(maps, push_target, Look(now, 0), pass)
      ensures ArePasses(maps, push_target, now, [pass])
    {
      hide IsPass;
    }

    lemma OneMorePass(maps: LastPerMaps, push_target: Cnt, now: nat -> Tp, trace: seq<Pass>, pass: Pass)
      requires trace != [] && ArePasses(maps, push_target, now, trace)
      requires |trace[|trace| - 1].out| < push_target
      requires IsPass(maps, Doubled(push_target, |trace|), Look(now, |trace|), pass)
      ensures ArePasses(maps, push_target, now, trace + [pass])
    {
      hide IsPass;
    }

    lemma FirstOfPass(maps: LastPerMaps, top: int, now: Tp, pass: Pass, n: nat) returns (best: Pass)
      requires IsPass(maps, top, now, pass) && n <= |pass.out|
      ensures IsBest(maps, top, now, best)
      ensures best.top == pass.top && best.out == pass.out[..n] && (n == |pass.out| ==> best.out == pass.out)
    {
      hide BestFirst, IsTop;
      var files := |pass.out| - |pass.ranks|;
      PrefixBestFirst(At(now), pass.top, pass.out, pass.ranks, n);
      best := Pass(pass.top, pass.out[..n], if n <= files then [] else pass.ranks[..n - files]);
    }

    lemma PrefixOnlyTargets(v: seq<UrlFreq>, n: nat, now: Tp, urls: set<Url>)
      requires n <= |v| && OnlyTargets(v, now, urls)
      ensures OnlyTargets(v[..n], now, urls)
    {
      PrefixUrls(v, n);
    }

    /** The first `n` entries of a longer list. */
    static method LimitVector(v: seq<UrlFreq>, n: Cnt) returns (r: seq<UrlFreq>)
      requires n >= 0
      ensures r == if |v| > n then v[..n] else v
    {
      r := v;
      if |v| > n {
        r := v[..n];
      }
    }
  }

  /** What one pass of a search looked at and made of it. */
  datatype Pass = Pass(top: seq<UrlFreq>, out: seq<UrlFreq>, ranks: seq<nat>)

  function NoFilter(): Url -> bool {
    (_: Url) => false
  }

  /** `c * 2^k`. */
  function Doubled(c: Cnt, k: nat): Cnt {
    if k == 0 then c else 2 * Doubled(c, k - 1)
  }

  lemma DoublingStep(c: Cnt, k: nat)
    ensures Doubled(c, 0) == c && Doubled(c, k + 1) == 2 * Doubled(c, k)
  {
  }

  /** Every limit that the search can reach is a positive 32-bit number. */
  lemma LimitRange(target: Cnt, known: nat)
    requires target > 0 && IsCInt(2 * Max(target, known))
    ensures target <= Max(target, known) && known <= Max(target, known)
    ensures Max(target, known) == target || Max(target, known) == known
    ensures forall top :: 0 < top <= 2 * Max(target, known) ==> IsCInt(top) && AsSize(top) == top
  {
  }

  // ---------------------------------------------------------------- lemmas

  /** Of two urls in the ranked list with due pages the one with the higher count is pushed first. */
  lemma MoreVisitedFirst(
      hour: map<Url, Cnt>, day: map<Url, Cnt>, limit: int, filter: Url -> bool, m: Moment, best: Pass, i: nat, j: nat)
      returns (k: nat, l: nat)
    requires IsTop(hour, day, limit, filter, best.top) && BestFirst(m, best.top, best.out, best.ranks)
    requires i < |best.top| && j < |best.top| && best.top[i].cnt > best.top[j].cnt
    requires HasDuePage(m, best.top[i].url) && HasDuePage(m, best.top[j].url) && j in best.ranks
    ensures k < l < |best.out|
    ensures best.out[k].url == m.web.normalized(best.top[i].url) && best.out[k].cnt == best.top[i].cnt
    ensures best.out[l].url == m.web.normalized(best.top[j].url) && best.out[l].cnt == best.top[j].cnt
  {
    hide HasDuePage, BestFirst;
    assert i < j;
    k, l := HigherRankFirst(m, best.top, best.out, best.ranks, i, j);
  }

  lemma PrefixUrls(v: seq<UrlFreq>, n: nat)
    requires n <= |v|
    ensures ToSet(UrlsOf(v[..n])) <= ToSet(UrlsOf(v)) && (NoDup(UrlsOf(v)) ==> NoDup(UrlsOf(v[..n])))
  {
    assert UrlsOf(v[..n]) == UrlsOf(v)[..n];
  }

  lemma TopWithinKnown(hour: map<Url, Cnt>, day: map<Url, Cnt>, r: seq<UrlFreq>, limit: int, filter: Url -> bool)
    requires IsCInt(limit) && IsTop(hour, day, limit, filter, r) && (forall u :: !filter(u))
    ensures ToSet(UrlsOf(r)) <= hour.Keys + day.Keys
    ensures |hour.Keys + day.Keys| <= AsSize(limit) ==> ToSet(UrlsOf(r)) == hour.Keys + day.Keys
  {
    var hr, dr :| IsTopFrom(hour, day, hr, dr, limit, filter, r);
    var s := Unfiltered(hr, filter) + Unfiltered(dr, filter);
    AllUnfiltered(hour, day, hr, dr, filter);
    assert ToSet(s) == hour.Keys + day.Keys;
    TopIsFirstDistinct(hr, dr, limit, filter);
    FirstDistinctWithin(TopMap(hr, dr, limit, filter).Keys, s, AsSize(limit));
    if |hour.Keys + day.Keys| <= AsSize(limit) {
      FirstDistinctAll(TopMap(hr, dr, limit, filter).Keys, s, AsSize(limit));
    }
  }

  lemma FirstDistinctWithin(k: set<Url>, s: seq<Url>, n: int)
    requires FirstDistinct(k, s, n)
    ensures k <= ToSet(s)
  {
    var i: nat :| i <= |s| && k == ToSet(s[..i]);
    PrefixSets(s, i, |s|);
  }
}
