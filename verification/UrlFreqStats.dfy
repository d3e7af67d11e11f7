/** The limited top list over the hour and day rankings. */
module UrlFreqStatistics {
  import opened Clock
  import opened Types
  import opened Rankings
  import opened LastPerMapsPair

  /** The values of the limit parameter's type. */
  predicate IsCInt(limit: int) {
    -0x8000_0000 <= limit < 0x8000_0000
  }

  function HourPass(hr: seq<UrlFreq>, n: int, filter: Url -> bool): map<Url, Cnt> {
    if hr == [] then map[]
    else
      var m := HourPass(hr[..|hr| - 1], n, filter);
      var e := hr[|hr| - 1];
      if !filter(e.url) && |m| < n then m[e.url := e.cnt] else m
  }

  function DayPass(m0: map<Url, Cnt>, dr: seq<UrlFreq>, n: int, filter: Url -> bool): map<Url, Cnt> {
    if dr == [] then m0
    else
      var m := DayPass(m0, dr[..|dr| - 1], n, filter);
      var e := dr[|dr| - 1];
      if !filter(e.url) && |m| < n then m[e.url := GetOr0(m, e.url) + e.cnt] else m
  }

  function TopMap(hr: seq<UrlFreq>, dr: seq<UrlFreq>, limit: int, filter: Url -> bool): map<Url, Cnt> {
    DayPass(HourPass(hr, AsSize(limit), filter), dr, AsSize(limit), filter)
  }

  lemma HourPassStep(hr: seq<UrlFreq>, i: nat, n: int, filter: Url -> bool)
    requires i < |hr|
    ensures
      HourPass(hr[..i + 1], n, filter) ==
      var m := HourPass(hr[..i], n, filter);
      if !filter(hr[i].url) && |m| < n then m[hr[i].url := hr[i].cnt] else m
  {
    assert hr[..i + 1][..i] == hr[..i];
  }

  lemma DayPassStep(m0: map<Url, Cnt>, dr: seq<UrlFreq>, i: nat, n: int, filter: Url -> bool)
    requires i < |dr|
    ensures
      DayPass(m0, dr[..i + 1], n, filter) ==
      var m := DayPass(m0, dr[..i], n, filter);
      if !filter(dr[i].url) && |m| < n then m[dr[i].url := GetOr0(m, dr[i].url) + dr[i].cnt] else m
  {
    assert dr[..i + 1][..i] == dr[..i];
  }

  /** `r` ranks the limited map that comes from the rankings `hr` and `dr` of the two counters. */
  ghost predicate IsTopFrom(
      hour: map<Url, Cnt>, day: map<Url, Cnt>, hr: seq<UrlFreq>, dr: seq<UrlFreq>, limit: int,
      filter: Url -> bool, r: seq<UrlFreq>) {
    IsRanking(hour, hr) && IsRanking(day, dr) && IsRanking(TopMap(hr, dr, limit, filter), r)
  }

  ghost predicate IsTop(hour: map<Url, Cnt>, day: map<Url, Cnt>, limit: int, filter: Url -> bool, r: seq<UrlFreq>) {
    exists hr, dr :: IsTopFrom(hour, day, hr, dr, limit, filter, r)
  }

  /** The list is computed in the same words by both variants of the statistics. */
  method TopUrls(maps: LastPerMaps, limit: int, filter: Url -> bool) returns (r: seq<UrlFreq>)
    ensures IsTop(maps.m_hour_map.m_url_freq, maps.m_day_map.m_url_freq, limit, filter, r)
  {
    var hour_sorted := maps.GetTopHourUrls();
    var day_sorted := maps.GetTopDayUrls();
    ghost var hr, dr := hour_sorted, day_sorted;

    var r_map: map<Url, Cnt> := map[];
    for i := 0 to |hour_sorted|
      invariant r_map == HourPass(hr[..i], AsSize(limit), filter)
    {
      HourPassStep(hr, i, AsSize(limit), filter);
      if !filter(hour_sorted[i].url) && |r_map| < AsSize(limit) {
        r_map := r_map[hour_sorted[i].url := hour_sorted[i].cnt];
      }
    }
    assert hr[..|hr|] == hr;

    ghost var m0 := r_map;
    for i := 0 to |day_sorted|
      invariant r_map == DayPass(m0, dr[..i], AsSize(limit), filter)
    {
      DayPassStep(m0, dr, i, AsSize(limit), filter);
      if !filter(day_sorted[i].url) && |r_map| < AsSize(limit) {
        if day_sorted[i].url !in r_map {
          r_map := r_map[day_sorted[i].url := day_sorted[i].cnt];
        } else {
          r_map := r_map[day_sorted[i].url := r_map[day_sorted[i].url] + day_sorted[i].cnt];
        }
      }
    }
    assert dr[..|dr|] == dr;
    r := RankingOf(r_map);
    assert IsTopFrom(maps.m_hour_map.m_url_freq, maps.m_day_map.m_url_freq, hr, dr, limit, filter, r);
  }

  class UrlFreqStats {
    const m_maps: LastPerMaps

    constructor ()
      ensures fresh(m_maps) && m_maps.Separate() && m_maps.View() == EMPTY_PAIR
    {
      m_maps := new LastPerMaps();
    }

    method Max() returns (r: Cnt)
      requires HourWithinDay(m_maps.View())
      ensures r == |m_maps.Known()|
    {
      r := m_maps.Max();
    }

    method Insert(visit: UrlVisit, now: Tp)
      requires m_maps.Separate()
      modifies m_maps.m_hour_map, m_maps.m_day_map
      ensures m_maps.View() == InsertedPair(old(m_maps.View()), StatOfVisit(visit), now)
    {
      m_maps.Insert(visit, now);
    }

    method InsertVisitsPack(uts: UrlTpStat, now: Tp)
      requires m_maps.Separate()
      modifies m_maps.m_hour_map, m_maps.m_day_map
      ensures m_maps.View() == InsertedPair(old(m_maps.View()), uts, now)
    {
      m_maps.InsertVisitsPack(uts, now);
    }

    method GetTopUrls(limit: int, filter: Url -> bool) returns (r: seq<UrlFreq>)
      ensures IsTop(m_maps.m_hour_map.m_url_freq, m_maps.m_day_map.m_url_freq, limit, filter, r)
    {
      r := TopUrls(m_maps, limit, filter);
    }
  }

  // ---------------------------------------------------------------- which urls make the list

  /** The urls of a ranking that the filter lets through, in ranking order. */
  function Unfiltered(v: seq<UrlFreq>, filter: Url -> bool): seq<Url> {
    if v == [] then []
    else if filter(v[|v| - 1].url) then Unfiltered(v[..|v| - 1], filter)
    else Unfiltered(v[..|v| - 1], filter) + [v[|v| - 1].url]
  }

  ghost function Passing(urls: set<Url>, filter: Url -> bool): set<Url> {
    set u | u in urls && !filter(u)
  }

  /** `k` is the set of the first `n` distinct members of `s` (of all of them, if there are fewer). */
  ghost predicate FirstDistinct(k: set<Url>, s: seq<Url>, n: int) {
    exists i :: 0 <= i <= |s| && k == ToSet(s[..i]) && (if i < |s| then |k| == n else |k| <= n)
  }

  lemma FirstDistinctStep(k: set<Url>, s: seq<Url>, u: Url, n: int)
    requires FirstDistinct(k, s, n)
    ensures FirstDistinct(if |k| < n then k + {u} else k, s + [u], n)
  {
    var i: nat :| i <= |s| && k == ToSet(s[..i]) && (if i < |s| then |k| == n else |k| <= n);
    var s' := s + [u];
    if |k| < n {
      assert s'[..|s'|] == s' && s[..|s|] == s;
      assert ToSet(s') == ToSet(s) + {u};
    } else {
      assert s'[..i] == s[..i];
    }
  }

  /** One ranking entry: the map before and after, the urls looked at before and after. */
  lemma PassStepKeys(
      before: map<Url, Cnt>, after: map<Url, Cnt>, s: seq<Url>, s': seq<Url>, e: UrlFreq, n: int,
      filter: Url -> bool)
    requires FirstDistinct(before.Keys, s, n)
    requires s' == if filter(e.url) then s else s + [e.url]
    requires if !filter(e.url) && |before| < n then e.url in after && after == before[e.url := after[e.url]]
      else after == before
    ensures FirstDistinct(after.Keys, s', n)
  {
    if !filter(e.url) {
      FirstDistinctStep(before.Keys, s, e.url, n);
      assert |before| == |before.Keys|;
      assert |before| < n ==> after.Keys == before.Keys + {e.url};
    }
  }

  lemma {:induction false} HourPassKeys(hr: seq<UrlFreq>, n: int, filter: Url -> bool)
    requires n >= 0
    ensures FirstDistinct(HourPass(hr, n, filter).Keys, Unfiltered(hr, filter), n)
  {
    if hr == [] {
      assert HourPass(hr, n, filter).Keys == ToSet(Unfiltered(hr, filter)[..0]);
    } else {
      var k := |hr| - 1;
      HourPassKeys(hr[..k], n, filter);
      PassStepKeys(HourPass(hr[..k], n, filter), HourPass(hr, n, filter), Unfiltered(hr[..k], filter),
        Unfiltered(hr, filter), hr[k], n, filter);
    }
  }

  lemma UnfilteredStep(s: seq<Url>, v: seq<UrlFreq>, filter: Url -> bool)
    requires v != []
    ensures
      var before := s + Unfiltered(v[..|v| - 1], filter);
      s + Unfiltered(v, filter) == if filter(v[|v| - 1].url) then before else before + [v[|v| - 1].url]
  {
    Regroup(s, Unfiltered(v[..|v| - 1], filter), [v[|v| - 1].url]);
  }

  lemma {:induction false} DayPassKeys(m0: map<Url, Cnt>, s: seq<Url>, dr: seq<UrlFreq>, n: int, filter: Url -> bool)
    requires n >= 0
    requires FirstDistinct(m0.Keys, s, n)
    ensures FirstDistinct(DayPass(m0, dr, n, filter).Keys, s + Unfiltered(dr, filter), n)
  {
    if dr == [] {
      assert s + [] == s;
    } else {
      var k := |dr| - 1;
      DayPassKeys(m0, s, dr[..k], n, filter);
      UnfilteredStep(s, dr, filter);
      PassStepKeys(DayPass(m0, dr[..k], n, filter), DayPass(m0, dr, n, filter),
                   s + Unfiltered(dr[..k], filter), s + Unfiltered(dr, filter), dr[k], n, filter);
    }
  }

  /** The list holds exactly the first `limit` distinct unfiltered urls of the hour ranking
      followed by the day ranking; a negative limit means no limit. */
  lemma TopIsFirstDistinct(hr: seq<UrlFreq>, dr: seq<UrlFreq>, limit: int, filter: Url -> bool)
    requires IsCInt(limit)
    ensures FirstDistinct(TopMap(hr, dr, limit, filter).Keys, Unfiltered(hr, filter) + Unfiltered(dr, filter),
      AsSize(limit))
  {
    HourPassKeys(hr, AsSize(limit), filter);
    DayPassKeys(HourPass(hr, AsSize(limit), filter), Unfiltered(hr, filter), dr, AsSize(limit), filter);
  }

  lemma PrefixSets(s: seq<Url>, i: nat, j: nat)
    requires i <= j <= |s|
    ensures ToSet(s[..i]) <= ToSet(s[..j]) <= ToSet(s)
  {
    assert s[..j][..i] == s[..i];
  }

  lemma FirstDistinctGrows(k1: set<Url>, n1: int, k2: set<Url>, n2: int, s: seq<Url>)
    requires FirstDistinct(k1, s, n1) && FirstDistinct(k2, s, n2) && n1 <= n2
    ensures k1 <= k2
  {
    var i: nat :| i <= |s| && k1 == ToSet(s[..i]) && (if i < |s| then |k1| == n1 else |k1| <= n1);
    var j: nat :| j <= |s| && k2 == ToSet(s[..j]) && (if j < |s| then |k2| == n2 else |k2| <= n2);
    if i <= j {
      PrefixSets(s, i, j);
    } else {
      PrefixSets(s, j, i);
      SameCardinality(k2, k1);
    }
  }

  /** Raising the limit never drops a url. */
  lemma TopGrowsWithLimit(hr: seq<UrlFreq>, dr: seq<UrlFreq>, limit: int, larger: int, filter: Url -> bool)
    requires IsCInt(limit) && IsCInt(larger) && AsSize(limit) <= AsSize(larger)
    ensures TopMap(hr, dr, limit, filter).Keys <= TopMap(hr, dr, larger, filter).Keys
  {
    TopIsFirstDistinct(hr, dr, limit, filter);
    TopIsFirstDistinct(hr, dr, larger, filter);
    FirstDistinctGrows(
      TopMap(hr, dr, limit, filter).Keys, AsSize(limit), TopMap(hr, dr, larger, filter).Keys, AsSize(larger),
      Unfiltered(hr, filter) + Unfiltered(dr, filter));
  }

  // ---------------------------------------------------------------- which counts they carry

  lemma {:induction false} HourPassCounts(hr: seq<UrlFreq>, n: int, filter: Url -> bool, u: Url)
    requires NoDup(UrlsOf(hr))
    requires |HourPass(hr, n, filter)| < n && !filter(u)
    ensures GetOr0(HourPass(hr, n, filter), u) == CountIn(hr, u)
  {
    if hr != [] {
      var k := |hr| - 1;
      assert UrlsOf(hr[..k]) == UrlsOf(hr)[..k];
      HourPassCounts(hr[..k], n, filter, u);
      if hr[k].url == u {
        assert u !in UrlsOf(hr)[..k] by {
          assert UrlsOf(hr)[k] == u;
        }
        CountInAbsent(hr[..k], u);
      }
    }
  }

  lemma {:induction false} DayPassCounts(m0: map<Url, Cnt>, dr: seq<UrlFreq>, n: int, filter: Url -> bool, u: Url)
    requires |DayPass(m0, dr, n, filter)| < n && !filter(u)
    ensures |m0| <= |DayPass(m0, dr, n, filter)|
    ensures GetOr0(DayPass(m0, dr, n, filter), u) == GetOr0(m0, u) + CountIn(dr, u)
  {
    if dr != [] {
      DayPassCounts(m0, dr[..|dr| - 1], n, filter, u);
    }
  }

  /** When the limit was not reached, every unfiltered known url is listed with the exact sum of
      its hour and day counts. */
  lemma UnreachedLimitIsExact(
      hour: map<Url, Cnt>, day: map<Url, Cnt>, hr: seq<UrlFreq>, dr: seq<UrlFreq>, limit: int, filter: Url -> bool)
    requires IsCInt(limit) && IsRanking(hour, hr) && IsRanking(day, dr)
    requires |TopMap(hr, dr, limit, filter)| < AsSize(limit)
    ensures forall u :: !filter(u) ==> GetOr0(TopMap(hr, dr, limit, filter), u) == GetOr0(hour, u) + GetOr0(day, u)
    ensures TopMap(hr, dr, limit, filter).Keys == Passing(hour.Keys + day.Keys, filter)
  {
    forall u | !filter(u) ensures GetOr0(TopMap(hr, dr, limit, filter), u) == GetOr0(hour, u) + GetOr0(day, u) {
      DayPassCounts(HourPass(hr, AsSize(limit), filter), dr, AsSize(limit), filter, u);
      HourPassCounts(hr, AsSize(limit), filter, u);
      RankingCounts(hour, hr, u);
      RankingCounts(day, dr, u);
    }
    TopIsFirstDistinct(hr, dr, limit, filter);
    AllUnfiltered(hour, day, hr, dr, filter);
  }

  lemma {:induction false} UnfilteredMembers(v: seq<UrlFreq>, filter: Url -> bool)
    ensures ToSet(Unfiltered(v, filter)) == Passing(ToSet(UrlsOf(v)), filter)
  {
    if v != [] {
      var n := |v| - 1;
      UnfilteredMembers(v[..n], filter);
      assert UrlsOf(v) == UrlsOf(v[..n]) + [v[n].url];
      forall u ensures u in Unfiltered(v, filter) <==> u in UrlsOf(v) && !filter(u) {
        assert u in Unfiltered(v[..n], filter) <==> u in ToSet(Unfiltered(v[..n], filter));
      }
    }
  }

  lemma AllUnfiltered(hour: map<Url, Cnt>, day: map<Url, Cnt>, hr: seq<UrlFreq>, dr: seq<UrlFreq>, filter: Url -> bool)
    requires IsRanking(hour, hr) && IsRanking(day, dr)
    ensures ToSet(Unfiltered(hr, filter) + Unfiltered(dr, filter)) == Passing(hour.Keys + day.Keys, filter)
  {
    UnfilteredMembers(hr, filter);
    UnfilteredMembers(dr, filter);
    assert ToSet(Unfiltered(hr, filter) + Unfiltered(dr, filter)) ==
      ToSet(Unfiltered(hr, filter)) + ToSet(Unfiltered(dr, filter));
  }

  /** A limit of at least the number of known urls lists them all. */
  lemma LargeLimitListsAll(
      hour: map<Url, Cnt>, day: map<Url, Cnt>, hr: seq<UrlFreq>, dr: seq<UrlFreq>, limit: int, filter: Url -> bool)
    requires IsCInt(limit) && IsRanking(hour, hr) && IsRanking(day, dr)
    requires |hour.Keys + day.Keys| <= AsSize(limit)
    ensures TopMap(hr, dr, limit, filter).Keys == Passing(hour.Keys + day.Keys, filter)
  {
    TopIsFirstDistinct(hr, dr, limit, filter);
    AllUnfiltered(hour, day, hr, dr, filter);
    FirstDistinctOfPassing(
      TopMap(hr, dr, limit, filter).Keys, Unfiltered(hr, filter) + Unfiltered(dr, filter), AsSize(limit),
      hour.Keys + day.Keys, filter);
  }

  lemma FirstDistinctOfPassing(k: set<Url>, s: seq<Url>, n: int, urls: set<Url>, filter: Url -> bool)
    requires FirstDistinct(k, s, n) && ToSet(s) == Passing(urls, filter) && |urls| <= n
    ensures k == Passing(urls, filter)
  {
    SubsetCardinality(ToSet(s), urls);
    FirstDistinctAll(k, s, n);
  }

  lemma FirstDistinctAll(k: set<Url>, s: seq<Url>, n: int)
    requires FirstDistinct(k, s, n) && |ToSet(s)| <= n
    ensures k == ToSet(s)
  {
    var i: nat :| i <= |s| && k == ToSet(s[..i]) && (if i < |s| then |k| == n else |k| <= n);
    PrefixSets(s, i, |s|);
    assert s[..|s|] == s;
    SameCardinality(k, ToSet(s));
  }

  // ---------------------------------------------------------------- counts at the limit

  /** The urls of the entries that the filter lets through. */
  ghost function ListedIn(v: seq<UrlFreq>, filter: Url -> bool): set<Url> {
    Passing(ToSet(UrlsOf(v)), filter)
  }

  /** How many urls are listed after `i` entries, `known` being listed before. */
  ghost function ListedAfter(v: seq<UrlFreq>, known: set<Url>, filter: Url -> bool, i: nat): nat
    requires i <= |v|
  {
    |known + ListedIn(v[..i], filter)|
  }

  ghost predicate RoomBelow(v: seq<UrlFreq>, known: set<Url>, n: int, filter: Url -> bool, cut: nat)
    requires cut <= |v|
  {
    forall i: nat :: i < cut ==> ListedAfter(v, known, filter, i) < n
  }

  /** How many entries of a ranking are read: the last one read is the one that fills the list with the
      `n`-th url. */
  ghost predicate ReadUpTo(v: seq<UrlFreq>, known: set<Url>, n: int, filter: Url -> bool, cut: nat) {
    && cut <= |v|
    && (cut < |v| ==> ListedAfter(v, known, filter, cut) >= n)
    && RoomBelow(v, known, n, filter, cut)
  }

  lemma ListedStep(known: set<Url>, v: seq<UrlFreq>, k: nat, filter: Url -> bool)
    requires k < |v|
    ensures
      known + ListedIn(v[..k + 1], filter) ==
      if filter(v[k].url) then known + ListedIn(v[..k], filter) else known + ListedIn(v[..k], filter) + {v[k].url}
  {
    assert v[..k + 1] == v[..k] + [v[k]];
    UrlsOfAppend(v[..k], v[k]);
  }

  lemma CountInStep(v: seq<UrlFreq>, k: nat, u: Url)
    requires k < |v|
    ensures CountIn(v[..k + 1], u) == CountIn(v[..k], u) + if v[k].url == u then v[k].cnt else 0
  {
    assert v[..k + 1][..k] == v[..k];
  }

  /** The list after `cut` entries holds what the filter lets through of them, with its counts. */
  ghost predicate ListIs(m0: map<Url, Cnt>, v: seq<UrlFreq>, n: int, filter: Url -> bool, cut: nat, u: Url)
    requires cut <= |v|
  {
    var m := DayPass(m0, v[..cut], n, filter);
    && m.Keys == m0.Keys + ListedIn(v[..cut], filter)
    && (!filter(u) ==> GetOr0(m, u) == GetOr0(m0, u) + CountIn(v[..cut], u))
  }

  lemma NothingRead(m0: map<Url, Cnt>, v: seq<UrlFreq>, n: int, filter: Url -> bool, u: Url)
    ensures ListIs(m0, v, n, filter, 0, u)
  {
    assert v[..0] == [] && ListedIn([], filter) == {};
  }

  lemma SizeOfKeys<K, V>(m: map<K, V>, keys: set<K>)
    requires m.Keys == keys
    ensures |m| == |keys|
  {
  }

  /** One entry read by a list that is not full. */
  lemma EntryRead(m0: map<Url, Cnt>, v: seq<UrlFreq>, n: int, filter: Url -> bool, k: nat, u: Url)
    requires k < |v| && |DayPass(m0, v[..k], n, filter)| < n
    ensures
      var before, after, e := DayPass(m0, v[..k], n, filter), DayPass(m0, v[..k + 1], n, filter), v[k];
      && after.Keys == (if filter(e.url) then before.Keys else before.Keys + {e.url})
      && (!filter(u) ==> GetOr0(after, u) == GetOr0(before, u) + if e.url == u then e.cnt else 0)
  {
    hide DayPass;
    DayPassStep(m0, v, k, n, filter);
  }

  lemma OneMoreRead(m0: map<Url, Cnt>, v: seq<UrlFreq>, n: int, filter: Url -> bool, k: nat, u: Url)
    requires k < |v| && ListIs(m0, v, n, filter, k, u) && ListedAfter(v, m0.Keys, filter, k) < n
    ensures ListIs(m0, v, n, filter, k + 1, u)
  {
    hide ListedIn, CountIn, DayPass, GetOr0;
    SizeOfKeys(DayPass(m0, v[..k], n, filter), m0.Keys + ListedIn(v[..k], filter));
    EntryRead(m0, v, n, filter, k, u);
    ListedStep(m0.Keys, v, k, filter);
    CountInStep(v, k, u);
  }

  /** As long as the list is not full each entry that is let through is added. */
  lemma {:induction false} DayPassReads(
      m0: map<Url, Cnt>, v: seq<UrlFreq>, n: int, filter: Url -> bool, cut: nat, u: Url)
    requires cut <= |v| && RoomBelow(v, m0.Keys, n, filter, cut)
    ensures ListIs(m0, v, n, filter, cut, u)
  {
    hide ListIs, ListedAfter;
    if cut == 0 {
      NothingRead(m0, v, n, filter, u);
    } else {
      DayPassReads(m0, v, n, filter, cut - 1, u);
      OneMoreRead(m0, v, n, filter, cut - 1, u);
    }
  }

  lemma {:induction false} FullStays(m0: map<Url, Cnt>, v: seq<UrlFreq>, n: int, filter: Url -> bool, cut: nat)
    requires cut <= |v| && (cut < |v| ==> |DayPass(m0, v[..cut], n, filter)| >= n)
    ensures DayPass(m0, v, n, filter) == DayPass(m0, v[..cut], n, filter)
  {
    if cut == |v| {
      assert v[..cut] == v;
    } else {
      var k := |v| - 1;
      assert v[..k][..cut] == v[..cut];
      FullStays(m0, v[..k], n, filter, cut);
    }
  }

  /** The first pass is a second pass over an empty list: no ranking names a url twice. */
  lemma {:induction false} HourPassIsDayPass(hr: seq<UrlFreq>, n: int, filter: Url -> bool)
    requires NoDup(UrlsOf(hr))
    ensures HourPass(hr, n, filter) == DayPass(map[], hr, n, filter)
    ensures HourPass(hr, n, filter).Keys <= ToSet(UrlsOf(hr))
  {
    if hr != [] {
      var k := |hr| - 1;
      assert hr == hr[..k] + [hr[k]];
      assert UrlsOf(hr[..k]) == UrlsOf(hr)[..k];
      HourPassIsDayPass(hr[..k], n, filter);
      UrlsOfAppend(hr[..k], hr[k]);
      assert hr[k].url !in ToSet(UrlsOf(hr[..k])) by {
        assert UrlsOf(hr)[k] == hr[k].url;
      }
    }
  }

  lemma CutExists(v: seq<UrlFreq>, known: set<Url>, n: int, filter: Url -> bool) returns (cut: nat)
    ensures ReadUpTo(v, known, n, filter, cut) && cut <= |v|
  {
    hide ListedAfter;
    cut := 0;
    while cut < |v| && ListedAfter(v, known, filter, cut) < n
      invariant cut <= |v| && RoomBelow(v, known, n, filter, cut)
    {
      cut := cut + 1;
    }
  }

  lemma DayPassByCut(m0: map<Url, Cnt>, v: seq<UrlFreq>, n: int, filter: Url -> bool, cut: nat, u: Url)
    requires ReadUpTo(v, m0.Keys, n, filter, cut)
    ensures DayPass(m0, v, n, filter).Keys == m0.Keys + ListedIn(v[..cut], filter)
    ensures !filter(u) ==> GetOr0(DayPass(m0, v, n, filter), u) == GetOr0(m0, u) + CountIn(v[..cut], u)
  {
    hide ListedIn, DayPass, RoomBelow;
    DayPassReads(m0, v, n, filter, cut, u);
    var m := DayPass(m0, v[..cut], n, filter);
    assert |m| == |m.Keys|;
    FullStays(m0, v, n, filter, cut);
  }

  /** What the list counts when the limit is reached: a ranking is read until the list has `limit` urls,
      the hour ranking first, and every entry read is counted, no other. */
  lemma CountsAtLimit(hr: seq<UrlFreq>, dr: seq<UrlFreq>, limit: int, filter: Url -> bool, u: Url)
      returns (hours: nat, days: nat)
    requires NoDup(UrlsOf(hr)) && !filter(u)
    ensures ReadUpTo(hr, {}, AsSize(limit), filter, hours)
    ensures ReadUpTo(dr, ListedIn(hr[..hours], filter), AsSize(limit), filter, days)
    ensures GetOr0(TopMap(hr, dr, limit, filter), u) == CountIn(hr[..hours], u) + CountIn(dr[..days], u)
  {
    hide ListedIn, ReadUpTo, DayPass, HourPass, CountIn, NoDup;
    var n := AsSize(limit);
    var none: map<Url, Cnt> := map[];
    assert none.Keys == {};
    hours := CutExists(hr, {}, n, filter);
    DayPassByCut(none, hr, n, filter, hours, u);
    HourPassIsDayPass(hr, n, filter);
    var m0 := HourPass(hr, n, filter);
    assert m0.Keys == ListedIn(hr[..hours], filter);
    days := CutExists(dr, m0.Keys, n, filter);
    DayPassByCut(m0, dr, n, filter, days, u);
  }
}
