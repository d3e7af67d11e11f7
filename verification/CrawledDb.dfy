/** Counting attempts by status and day, on top of the visit store. */
module CrawledCounters {
  import opened Clock
  import opened Types
  import opened UrlsDaysStore
  import opened UrlsDaysHistory
  import opened UrlsDaysProtocol

  /** The value of a status in the wire format. */
  function CodeOf(status: AttemptStatus): int {
    match status
    case ENQUEUED => 0
    case PENDING => 1
    case OK => 2
    case CURL_ERR => 3
    case S4XX => 4
    case S5XX => 5
    case UNRECOGNIZED(code) => code
  }

  /** Every status counts its events under a url of its own. */
  ghost predicate DistinctUrls(fakeUrl: int -> Url) {
    forall a, b :: a != b ==> fakeUrl(a) != fakeUrl(b)
  }

  ghost predicate IsLatest(days: set<DayKey>, d: DayKey) {
    d in days && forall e :: e in days ==> e.num <= d.num
  }

  lemma {:induction false} LatestExists(days: set<DayKey>) returns (d: DayKey)
    requires days != {}
    ensures IsLatest(days, d)
    decreases |days|
  {
    d :| d in days;
    var rest := days - {d};
    if rest != {} {
      var r := LatestExists(rest);
      d := if r.num > d.num then r else d;
    }
  }

  ghost function LatestDay(days: set<DayKey>): (d: DayKey)
    requires days != {}
    ensures IsLatest(days, d)
  {
    LatestExistsForSome(days);
    var d :| IsLatest(days, d);
    d
  }

  lemma LatestExistsForSome(days: set<DayKey>)
    requires days != {}
    ensures exists d :: IsLatest(days, d)
  {
    var d := LatestExists(days);
  }

  /** The count of the latest stored day, which need not be today. */
  ghost function LatestCount(v: Visits): Cnt {
    if v == map[] then 0 else v[LatestDay(v.Keys)]
  }

  ghost function FinishedOf(m: Store, fakeUrl: int -> Url): Cnt {
    LatestCount(EntryOf(m, fakeUrl(2)).visits) + LatestCount(EntryOf(m, fakeUrl(3)).visits) +
    LatestCount(EntryOf(m, fakeUrl(4)).visits) + LatestCount(EntryOf(m, fakeUrl(5)).visits)
  }

  ghost function EnqueuedOf(m: Store, fakeUrl: int -> Url): Cnt {
    LatestCount(EntryOf(m, fakeUrl(0)).visits)
  }

  /** How many of the results ended in a given status. */
  function CountStatus(rs: seq<FetchResult>, status: AttemptStatus): nat {
    if rs == [] then 0 else CountStatus(rs[..|rs| - 1], status) + if rs[|rs| - 1].status == status then 1 else 0
  }

  predicate IsFinal(status: AttemptStatus) {
    status == OK || status == CURL_ERR || status == S4XX || status == S5XX
  }

  lemma {:induction false} FinalResultsCount(results: seq<FetchResult>)
    requires forall r :: r in results ==> IsFinal(r.status)
    ensures
      CountStatus(results, OK) + CountStatus(results, CURL_ERR) + CountStatus(results, S4XX) +
        CountStatus(results, S5XX)
      == |results|
    ensures CountStatus(results, ENQUEUED) == 0
  {
    if results != [] {
      FinalResultsCount(results[..|results| - 1]);
      assert IsFinal(results[|results| - 1].status);
    }
  }

  /** Sums a list of saved counters by url. */
  function Saved(l: seq<UrlTpStat>, u: Url): Cnt {
    if l == [] then 0 else Saved(l[..|l| - 1], u) + if l[|l| - 1].url == u then l[|l| - 1].cnt else 0
  }

  ghost predicate NotNegative(saved: seq<UrlTpStat>) {
    forall s :: s in saved ==> s.cnt >= 0
  }

  /** What is saved for a list of results: under the url of each wire code the number of results with
      that status. */
  ghost predicate AddsUp(results: seq<FetchResult>, added: seq<UrlTpStat>, fakeUrl: int -> Url) {
    && Saved(added, fakeUrl(0)) == CountStatus(results, ENQUEUED)
    && Saved(added, fakeUrl(1)) == CountStatus(results, PENDING)
    && Saved(added, fakeUrl(2)) == CountStatus(results, OK)
    && Saved(added, fakeUrl(3)) == CountStatus(results, CURL_ERR)
    && Saved(added, fakeUrl(4)) == CountStatus(results, S4XX)
    && Saved(added, fakeUrl(5)) == CountStatus(results, S5XX)
    && (forall code: OtherCode :: Saved(added, fakeUrl(code)) == CountStatus(results, UNRECOGNIZED(code)))
    && NotNegative(added)
  }

  /** No status has two records, and none has an empty one. */
  ghost predicate OncePerStatus(added: seq<UrlTpStat>, now: Tp) {
    && (forall s :: s in added ==> s.tp == now && s.cnt > 0)
    && (forall i, j :: 0 <= i < j < |added| ==> added[i].url != added[j].url)
  }

  lemma NothingSaved(now: Tp)
    ensures OncePerStatus([], now)
  {
  }

  lemma RecordsNotNegative(added: seq<UrlTpStat>, now: Tp)
    requires OncePerStatus(added, now)
    ensures NotNegative(added)
  {
  }

  lemma {:induction false} SavedPositive(added: seq<UrlTpStat>, i: nat)
    requires i < |added| && forall s :: s in added ==> s.cnt > 0
    ensures Saved(added, added[i].url) > 0
  {
    var n := |added| - 1;
    assert added[n] in added && forall s :: s in added[..n] ==> s in added;
    if i < n {
      SavedPositive(added[..n], i);
    } else if exists j :: 0 <= j < n && added[j].url == added[n].url {
      var j :| 0 <= j < n && added[j].url == added[n].url;
      SavedPositive(added[..n], j);
    } else {
      SavedAbsent(added[..n], added[n].url);
    }
  }

  lemma {:induction false} SavedAbsent(added: seq<UrlTpStat>, u: Url)
    requires forall i :: 0 <= i < |added| ==> added[i].url != u
    ensures Saved(added, u) == 0
  {
    if added != [] {
      SavedAbsent(added[..|added| - 1], u);
    }
  }

  lemma OneMoreRecord(added: seq<UrlTpStat>, stat: UrlTpStat, now: Tp)
    requires OncePerStatus(added, now) && Saved(added, stat.url) == 0 && stat.tp == now && stat.cnt > 0
    ensures OncePerStatus(added + [stat], now)
  {
    forall i | 0 <= i < |added| ensures added[i].url != stat.url {
      SavedPositive(added, i);
    }
  }

  lemma CodesAddUp(results: seq<FetchResult>, added: seq<UrlTpStat>, fakeUrl: int -> Url)
    requires NotNegative(added)
    requires forall status :: Saved(added, fakeUrl(CodeOf(status))) == CountStatus(results, status)
    ensures AddsUp(results, added, fakeUrl)
  {
    assert CodeOf(ENQUEUED) == 0 && CodeOf(PENDING) == 1 && CodeOf(OK) == 2 && CodeOf(CURL_ERR) == 3;
    assert CodeOf(S4XX) == 4 && CodeOf(S5XX) == 5;
    forall code: OtherCode ensures Saved(added, fakeUrl(code)) == CountStatus(results, UNRECOGNIZED(code)) {
      assert CodeOf(UNRECOGNIZED(code)) == code;
    }
  }

  lemma FinalsAddUp(results: seq<FetchResult>, added: seq<UrlTpStat>, fakeUrl: int -> Url)
    requires (forall r :: r in results ==> IsFinal(r.status)) && AddsUp(results, added, fakeUrl)
    ensures Saved(added, fakeUrl(0)) == 0
    ensures
      Saved(added, fakeUrl(2)) + Saved(added, fakeUrl(3)) + Saved(added, fakeUrl(4)) + Saved(added, fakeUrl(5)) ==
      |results|
  {
    FinalResultsCount(results);
  }

  class CrawledDb {
    const m_db: UrlsDaysDb
    const m_fake_url: int -> Url

    constructor (db: UrlsDaysDb, fakeUrl: int -> Url)
      ensures m_db == db && m_fake_url == fakeUrl
    {
      m_db, m_fake_url := db, fakeUrl;
    }

    method GetTodayEvents(code: int) returns (r: Cnt)
      ensures r == LatestCount(EntryOf(m_db.m_urls_days.m_urls_days, m_fake_url(code)).visits)
    {
      var found, utsv := m_db.m_urls_days.GetUTSV(m_fake_url(code));
      if found && utsv != [] {
        r := utsv[|utsv| - 1].cnt;
        LastIsLatest(m_db.m_urls_days.m_urls_days[m_fake_url(code)], utsv);
      } else {
        r := 0;
      }
    }

    method GetFinishedToday() returns (finished: Cnt)
      ensures finished == FinishedOf(m_db.m_urls_days.m_urls_days, m_fake_url)
    {
      finished := 0;
      ghost var m := m_db.m_urls_days.m_urls_days;
      for code := 2 to 6
        invariant m_db.m_urls_days.m_urls_days == m
        invariant finished == FinishedUpTo(m, m_fake_url, code)
      {
        var events := GetTodayEvents(code);
        finished := finished + events;
      }
      FinishedUpToAll(m, m_fake_url);
    }

    method GetInProgress() returns (r: Cnt)
      ensures var m := m_db.m_urls_days.m_urls_days; r == EnqueuedOf(m, m_fake_url) - FinishedOf(m, m_fake_url)
    {
      var enqueued := GetTodayEvents(0);
      var finished := GetFinishedToday();
      r := enqueued - finished;
    }

    method SaveResult(status: AttemptStatus, cnt: Cnt, now: Tp)
      modifies m_db`m_q
      ensures m_db.m_q == old(m_db.m_q) + [UrlTpStat(m_fake_url(CodeOf(status)), now, cnt)]
      ensures
        var code :=
          match status
          case ENQUEUED => 0 case PENDING => 1 case OK => 2 case CURL_ERR => 3 case S4XX => 4 case S5XX => 5
          case UNRECOGNIZED(other) => other;
        m_db.m_q == old(m_db.m_q) + [UrlTpStat(m_fake_url(code), now, cnt)]
    {
      m_db.SaveVisitsPack(UrlTpStat(m_fake_url(CodeOf(status)), now, cnt));
    }

    /** Groups the results by status and saves one counter for each; `now` is the clock of the call. */
    method OnFetched(results: seq<FetchResult>, now: Tp) returns (ghost added: seq<UrlTpStat>)
      requires DistinctUrls(m_fake_url)
      modifies m_db`m_q
      ensures m_db.m_q == old(m_db.m_q) + added
      ensures AddsUp(results, added, m_fake_url) && OncePerStatus(added, now)
      ensures (forall r :: r in results ==> IsFinal(r.status)) ==>
        && Saved(added, m_fake_url(0)) == 0
        && Saved(added, m_fake_url(2)) + Saved(added, m_fake_url(3)) + Saved(added, m_fake_url(4)) +
             Saved(added, m_fake_url(5)) == |results|
    {
      hide AddsUp, CodeOf, OncePerStatus;
      NothingSaved(now);
      var status_cnt: map<AttemptStatus, Cnt> := map[];
      for i := 0 to |results|
        invariant m_db.m_q == old(m_db.m_q)
        invariant forall status :: GetOr0(status_cnt, status) == CountStatus(results[..i], status)
        invariant forall status :: status in status_cnt ==> status_cnt[status] > 0
      {
        assert results[..i + 1][..i] == results[..i];
        status_cnt := status_cnt[results[i].status := GetOr0(status_cnt, results[i].status) + 1];
      }
      assert results[..|results|] == results;
      added := [];
      var todo := status_cnt.Keys;
      while todo != {}
        invariant todo <= status_cnt.Keys
        invariant m_db.m_q == old(m_db.m_q) + added
        invariant OncePerStatus(added, now)
        invariant forall status ::
          Saved(added, m_fake_url(CodeOf(status))) == if status in todo then 0 else GetOr0(status_cnt, status)
        decreases todo
      {
        var status :| status in todo;
        assert status_cnt[status] == CountStatus(results, status);
        var stat := UrlTpStat(m_fake_url(CodeOf(status)), now, status_cnt[status]);
        SaveResult(status, status_cnt[status], now);
        OneMoreStatus(added, status, stat, m_fake_url);
        OneMoreRecord(added, stat, now);
        added := added + [stat];
        todo := todo - {status};
      }
      RecordsNotNegative(added, now);
      CodesAddUp(results, added, m_fake_url);
      if forall r :: r in results ==> IsFinal(r.status) {
        FinalsAddUp(results, added, m_fake_url);
      }
    }
  }

  /** Saving a counter for one status leaves the sums of the others alone. */
  lemma OneMoreStatus(added: seq<UrlTpStat>, status: AttemptStatus, stat: UrlTpStat, fakeUrl: int -> Url)
    requires DistinctUrls(fakeUrl) && stat.url == fakeUrl(CodeOf(status))
    ensures forall other ::
      Saved(added + [stat], fakeUrl(CodeOf(other))) ==
      Saved(added, fakeUrl(CodeOf(other))) + if other == status then stat.cnt else 0
  {
    forall other
      ensures Saved(added + [stat], fakeUrl(CodeOf(other))) ==
        Saved(added, fakeUrl(CodeOf(other))) + if other == status then stat.cnt else 0
    {
      SavedStep(added, stat, fakeUrl(CodeOf(other)));
      assert other != status ==> CodeOf(other) != CodeOf(status);
    }
  }

  lemma SavedStep(l: seq<UrlTpStat>, s: UrlTpStat, u: Url)
    ensures Saved(l + [s], u) == Saved(l, u) + if s.url == u then s.cnt else 0
  {
    assert (l + [s])[..|l|] == l;
  }

  ghost function FinishedUpTo(m: Store, fakeUrl: int -> Url, code: int): Cnt
    requires 2 <= code
  {
    if code == 2 then 0 else FinishedUpTo(m, fakeUrl, code - 1) + LatestCount(EntryOf(m, fakeUrl(code - 1)).visits)
  }

  lemma FinishedUpToAll(m: Store, fakeUrl: int -> Url)
    ensures FinishedUpTo(m, fakeUrl, 6) == FinishedOf(m, fakeUrl)
  {
    assert FinishedUpTo(m, fakeUrl, 3) == LatestCount(EntryOf(m, fakeUrl(2)).visits);
    assert FinishedUpTo(m, fakeUrl, 4) ==
      LatestCount(EntryOf(m, fakeUrl(2)).visits) + LatestCount(EntryOf(m, fakeUrl(3)).visits);
  }

  lemma NoDayListed(e: UrlDays, l: seq<DayStat>)
    requires IsDayList(e, l)
    ensures l == [] <==> e.visits == map[]
  {
    assert |l| == |e.visits|;
  }

  lemma DaysAscend(e: UrlDays, l: seq<DayStat>, i: nat)
    requires IsDayList(e, l) && i < |l|
    ensures KeyOf(l[i].tp).num <= KeyOf(l[|l| - 1].tp).num
  {
  }

  lemma LastIsLatest(e: UrlDays, l: seq<DayStat>)
    requires IsDayList(e, l)
    ensures l == [] <==> e.visits == map[]
    ensures l != [] ==> l[|l| - 1].cnt == LatestCount(e.visits)
  {
    hide LatestCount, KeyOf;
    NoDayListed(e, l);
    if l != [] {
      var last := KeyOf(l[|l| - 1].tp);
      DayListCovers(e, l);
      forall d | d in e.visits ensures d.num <= last.num {
        var i :| 0 <= i < |l| && KeyOf(l[i].tp) == d;
        DaysAscend(e, l, i);
      }
      LatestIs(e.visits, last);
    }
  }

  /** Strictly ascending and as many as there are days: every day is listed. */
  lemma DayListCovers(e: UrlDays, l: seq<DayStat>)
    requires IsDayList(e, l)
    ensures forall d :: d in e.visits ==> exists i :: 0 <= i < |l| && KeyOf(l[i].tp) == d
  {
    var keys := seq(|l|, i requires 0 <= i < |l| => KeyOf(l[i].tp));
    assert NoDup(keys);
    NoDupCardinality(keys);
    SameCardinality(ToSet(keys), e.visits.Keys);
    forall d | d in e.visits ensures exists i :: 0 <= i < |l| && KeyOf(l[i].tp) == d {
      assert d in ToSet(keys);
      var i :| 0 <= i < |keys| && keys[i] == d;
    }
  }

  // ---------------------------------------------------------------- what the counters read

  function StatsOf(events: seq<Arrival>): seq<UrlTpStat> {
    seq(|events|, i requires 0 <= i < |events| => events[i].stat)
  }

  /** The store once everything saved so far is merged, in whatever batches and order, at readings
      up to `t`, each record while it was still accepted. */
  ghost predicate Merged(h: History, saved: seq<UrlTpStat>, t: Tp) {
    && NoReadingAfter(h, t)
    && NoFuture(h)
    && (forall e :: e in Events(h) ==> !Rejected(e.stat, e.now))
    && multiset(StatsOf(Events(h))) == multiset(saved)
  }

  /** Something was saved for the url on the day, be it a count of zero. */
  ghost predicate HasRecord(saved: seq<UrlTpStat>, u: Url, d: DayKey) {
    exists s :: s in saved && s.url == u && KeyOf(s.tp) == d
  }

  lemma MergedRecords(h: History, saved: seq<UrlTpStat>, t: Tp, u: Url, d: DayKey)
    requires Merged(h, saved, t)
    ensures SomeCounts(Events(h), u, d) <==> HasRecord(saved, u, d)
  {
    var events := Events(h);
    assert forall s :: s in saved <==> s in StatsOf(events) by {
      assert forall s :: s in saved <==> s in multiset(saved);
      assert forall s :: s in StatsOf(events) <==> s in multiset(StatsOf(events));
    }
    if SomeCounts(events, u, d) {
      var e :| e in events && Counts(e, u, d);
      var i :| 0 <= i < |events| && events[i] == e;
      assert StatsOf(events)[i] == e.stat;
    }
    if HasRecord(saved, u, d) {
      var s :| s in saved && s.url == u && KeyOf(s.tp) == d;
      assert s in StatsOf(events);
      var i :| 0 <= i < |events| && StatsOf(events)[i] == s;
      assert events[i] in events && Counts(events[i], u, d);
    }
  }

  lemma {:induction false} NaiveIsDayCount(events: seq<Arrival>, u: Url, d: DayKey)
    requires forall e :: e in events ==> !Rejected(e.stat, e.now)
    ensures NaiveCount(events, u, d) == DayCount(StatsOf(events), u, d)
  {
    if events != [] {
      var n := |events| - 1;
      NaiveIsDayCount(events[..n], u, d);
      assert StatsOf(events)[..n] == StatsOf(events[..n]);
      assert !Rejected(events[n].stat, events[n].now);
    }
  }

  lemma {:induction false} DayCountPermutes(a: seq<UrlTpStat>, b: seq<UrlTpStat>, u: Url, d: DayKey)
    requires multiset(a) == multiset(b)
    ensures DayCount(a, u, d) == DayCount(b, u, d)
    decreases |a|
  {
    if a == [] {
      assert |multiset(b)| == 0;
    } else {
      var n := |a| - 1;
      var x := a[n];
      assert x in multiset(b);
      var j :| 0 <= j < |b| && b[j] == x;
      var rest := b[..j] + b[j + 1..];
      MultisetSplitAt(b, j);
      assert a == a[..n] + [x];
      assert multiset(a[..n]) == multiset(a) - multiset{x};
      assert multiset(rest) == multiset(b) - multiset{x};
      DayCountPermutes(a[..n], rest, u, d);
      DayCountWithout(b, j, u, d);
    }
  }

  /** For every day still retained the store holds the day's sum of what was saved. */
  lemma MergedCounts(h: History, saved: seq<UrlTpStat>, t: Tp, u: Url, d: DayKey)
    requires Merged(h, saved, t) && d.num >= OldestDay(t)
    ensures d in EntryOf(Eval(h), u).visits <==> HasRecord(saved, u, d)
    ensures CountOf(Eval(h), u, d) == DayCount(saved, u, d)
  {
    MergedRecords(h, saved, t, u, d);
    RetainedDaysPresent(h, t, u, d);
    RetainedCountsExact(h, t, u, d);
    NaiveIsDayCount(Events(h), u, d);
    DayCountPermutes(StatsOf(Events(h)), saved, u, d);
  }

  /** A counter reads the latest day on which anything was saved for its url, whichever day that
      is; the store has to retain it still. */
  lemma CounterReadsLatestDay(h: History, saved: seq<UrlTpStat>, t: Tp, u: Url, d: DayKey)
    requires Merged(h, saved, t) && d.num >= OldestDay(t)
    requires HasRecord(saved, u, d) && forall e :: HasRecord(saved, u, e) ==> e.num <= d.num
    ensures LatestCount(EntryOf(Eval(h), u).visits) == DayCount(saved, u, d)
  {
    MergedCounts(h, saved, t, u, d);
    forall e | e in EntryOf(Eval(h), u).visits ensures HasRecord(saved, u, e) {
      StoredDayHasRecord(h, saved, t, u, e);
    }
    LatestIs(EntryOf(Eval(h), u).visits, d);
  }

  lemma StoredDayHasRecord(h: History, saved: seq<UrlTpStat>, t: Tp, u: Url, d: DayKey)
    requires Merged(h, saved, t) && d in EntryOf(Eval(h), u).visits
    ensures HasRecord(saved, u, d)
  {
    StoredDaysHappened(h, u, d);
    MergedRecords(h, saved, t, u, d);
  }

  lemma LatestIs(v: Visits, d: DayKey)
    requires IsLatest(v.Keys, d)
    ensures LatestCount(v) == v[d]
  {
    assert IsLatest(v.Keys, LatestDay(v.Keys));
  }

  lemma CounterWithoutRecord(h: History, saved: seq<UrlTpStat>, t: Tp, u: Url)
    requires Merged(h, saved, t) && forall d :: !HasRecord(saved, u, d)
    ensures LatestCount(EntryOf(Eval(h), u).visits) == 0
  {
    var v := EntryOf(Eval(h), u).visits;
    if v != map[] {
      StoredDayHasRecord(h, saved, t, u, LatestDay(v.Keys));
    }
  }

  /** Nothing is saved for a day that has not begun. */
  lemma NoRecordAfter(h: History, saved: seq<UrlTpStat>, t: Tp, u: Url, d: DayKey)
    requires Merged(h, saved, t) && HasRecord(saved, u, d)
    ensures d.num <= DayOf(t)
  {
    MergedRecords(h, saved, t, u, d);
    var e :| e in Events(h) && Counts(e, u, d);
    EventInTime(h, t, e);
    DayOfMonotone(e.stat.tp, t);
  }

  lemma {:induction false} EventInTime(h: History, t: Tp, e: Arrival)
    requires NoReadingAfter(h, t) && NoFuture(h) && e in Events(h)
    ensures e.stat.tp <= t
  {
    match h
    case Add(p, s, now) =>
      if e in Events(p) {
        EventInTime(p, t, e);
      }
    case Merge(a, b, _) =>
      if e in Events(a) {
        EventInTime(a, t, e);
      } else {
        EventInTime(b, t, e);
      }
  }

  /** With a record of today, the counter reads today. */
  lemma CounterReadsToday(h: History, saved: seq<UrlTpStat>, t: Tp, u: Url)
    requires Merged(h, saved, t) && HasRecord(saved, u, KeyOf(t))
    ensures LatestCount(EntryOf(Eval(h), u).visits) == DayCount(saved, u, KeyOf(t))
  {
    OldestDayMonotone(t, t);
    forall e | HasRecord(saved, u, e) ensures e.num <= DayOf(t) {
      NoRecordAfter(h, saved, t, u, e);
    }
    CounterReadsLatestDay(h, saved, t, u, KeyOf(t));
  }
}
