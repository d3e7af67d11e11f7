/** Visit counts per url and calendar day, for the last `DAYS` days. */
module UrlsDaysStore {
  import opened Clock
  import opened Types

  const DAYS: nat := 14
  const DURATION: int := 13 * DAY   // DAYS - 1 days

  /** The key of a day bucket; day strings sort like these numbers. */
  datatype DayKey = DayKey(num: int)

  function KeyOf(tp: Tp): DayKey {
    DayKey(DayOf(tp))
  }

  type Visits = map<DayKey, Cnt>

  /** `url` is only a label; entries are found through the key they are stored under. */
  datatype UrlDays = UrlDays(url: Option<Url>, visits: Visits)

  /** One stored day as it is handed out: the entry's label, the start of the day, the count. */
  datatype DayStat = DayStat(url: Option<Url>, tp: Tp, cnt: Cnt)

  const NO_DAYS := UrlDays(None, map[])

  type Store = map<Url, UrlDays>

  /** The oldest day that is kept at `now`. */
  function OldestDay(now: Tp): int {
    DayOf(now - DURATION)
  }

  predicate Rejected(s: UrlTpStat, now: Tp) {
    now - s.tp > DURATION
  }

  /** An event that is not too old falls on a day that is kept. */
  lemma RecentIsKept(tp: Tp, now: Tp)
    requires now - tp <= DURATION
    ensures KeyOf(tp).num >= OldestDay(now)
  {
    DayOfMonotone(now - DURATION, tp);
  }

  function CleanedVisits(v: Visits, now: Tp): Visits {
    map d | d in v && d.num >= OldestDay(now) :: v[d]
  }

  function AddedVisits(a: Visits, b: Visits): Visits {
    map d | d in a.Keys + b.Keys :: GetOr0(a, d) + GetOr0(b, d)
  }

  function AddedTo(m: Store, s: UrlTpStat, now: Tp): Store {
    if Rejected(s, now) then m
    else
      var e := if s.url in m then m[s.url] else UrlDays(Some(s.url), map[]);
      var d := KeyOf(s.tp);
      m[s.url := e.(visits := CleanedVisits(e.visits[d := GetOr0(e.visits, d) + s.cnt], now))]
  }

  /** Into an entry without days the other one's days are copied as they are, and nothing is cleaned. */
  function MergedEntry(a: UrlDays, b: UrlDays, now: Tp): UrlDays {
    if a.visits == map[] then a.(visits := b.visits)
    else a.(visits := CleanedVisits(AddedVisits(a.visits, b.visits), now))
  }

  function EntryOf(m: Store, u: Url): UrlDays {
    if u in m then m[u] else NO_DAYS
  }

  function MergedStore(m: Store, other: Store, now: Tp): Store {
    map u | u in m.Keys + other.Keys :: if u in other then MergedEntry(EntryOf(m, u), other[u], now) else m[u]
  }

  class UrlsDays {
    var m_urls_days: Store

    constructor (m: Store := map[])
      ensures m_urls_days == m
    {
      m_urls_days := m;
    }

    method Add(utp: UrlTpStat, now: Tp)
      modifies this
      ensures m_urls_days == AddedTo(old(m_urls_days), utp, now)
      ensures now - utp.tp > 13 * 24 * 3600 * 1_000_000_000 ==> m_urls_days == old(m_urls_days)
      ensures now - utp.tp <= 13 * 24 * 3600 * 1_000_000_000 ==>
        var before, after := EntryOf(old(m_urls_days), utp.url).visits, EntryOf(m_urls_days, utp.url).visits;
        && KeyOf(utp.tp) in after && after[KeyOf(utp.tp)] == GetOr0(before, KeyOf(utp.tp)) + utp.cnt
        && m_urls_days[utp.url].url ==
           if utp.url in old(m_urls_days) then old(m_urls_days)[utp.url].url else Some(utp.url)
    {
      if now - utp.tp > DURATION {
        return;
      }
      RecentIsKept(utp.tp, now);
      var day_key := KeyOf(utp.tp);
      if utp.url !in m_urls_days {
        m_urls_days := m_urls_days[utp.url := UrlDays(Some(utp.url), map[])];
      }
      var entry := m_urls_days[utp.url];
      var visits := entry.visits[day_key := GetOr0(entry.visits, day_key) + utp.cnt];
      visits := CheckClean(visits, now);
      m_urls_days := m_urls_days[utp.url := entry.(visits := visits)];
    }

    /** Visits the days in an arbitrary order and erases the old ones. */
    static method CheckClean(v: Visits, now: Tp) returns (r: Visits)
      ensures r == CleanedVisits(v, now)
    {
      var last_store_day := DayOf(now - DURATION);
      r := v;
      var todo := v.Keys;
      while todo != {}
        invariant todo <= v.Keys
        invariant forall d :: d in r <==> d in v && (d in todo || d.num >= last_store_day)
        invariant forall d :: d in r ==> r[d] == v[d]
        decreases todo
      {
        var d :| d in todo;
        if d.num < last_store_day {
          r := map k | k in r && k != d :: r[k];
        }
        todo := todo - {d};
      }
    }

    static method MergeEntry(a: UrlDays, b: UrlDays, now: Tp) returns (r: UrlDays)
      ensures r == MergedEntry(a, b, now)
    {
      if a.visits == map[] {
        return a.(visits := b.visits);
      }
      var visits := a.visits;
      var todo := b.visits.Keys;
      while todo != {}
        invariant todo <= b.visits.Keys
        invariant forall d :: d in visits <==> d in a.visits || (d in b.visits && d !in todo)
        invariant forall d :: GetOr0(visits, d) == GetOr0(a.visits, d) + if d in todo then 0 else GetOr0(b.visits, d)
        decreases todo
      {
        var d :| d in todo;
        visits := visits[d := GetOr0(visits, d) + b.visits[d]];
        todo := todo - {d};
      }
      forall d | d in visits ensures visits[d] == GetOr0(a.visits, d) + GetOr0(b.visits, d) {
        assert GetOr0(visits, d) == visits[d];
      }
      assert visits == AddedVisits(a.visits, b.visits);
      visits := CheckClean(visits, now);
      r := a.(visits := visits);
    }

    method Merge(uds: UrlsDays, now: Tp)
      modifies this
      ensures m_urls_days == MergedStore(old(m_urls_days), old(uds.m_urls_days), now)
    {
      var other := uds.m_urls_days;
      var todo := other.Keys;
      while todo != {}
        invariant todo <= other.Keys
        invariant forall u :: u in m_urls_days <==> u in old(m_urls_days) || (u in other && u !in todo)
        invariant forall u :: u in m_urls_days ==>
          m_urls_days[u] ==
          if u in other && u !in todo then MergedEntry(EntryOf(old(m_urls_days), u), other[u], now)
          else old(m_urls_days)[u]
        decreases todo
      {
        var u :| u in todo;
        var merged := MergeEntry(EntryOf(m_urls_days, u), other[u], now);
        m_urls_days := m_urls_days[u := merged];
        todo := todo - {u};
      }
    }

    /** The days of a url in ascending order, each at the start of its day. */
    method GetUTSV(url: Url) returns (found: bool, utsv: seq<DayStat>)
      ensures found <==> url in m_urls_days
      ensures !found ==> utsv == []
      ensures found ==> IsDayList(m_urls_days[url], utsv)
    {
      if url !in m_urls_days {
        return false, [];
      }
      utsv := ToUTSV(m_urls_days[url]);
      found := true;
    }
  }

  /** A list with one entry per stored day, at the start of the day and oldest first, carrying the count
      of the day. */
  ghost predicate IsDayList(e: UrlDays, l: seq<DayStat>) {
    && |l| == |e.visits|
    && (forall x :: x in l ==> x.url == e.url)
    && (forall i :: 0 <= i < |l| ==> KeyOf(l[i].tp) in e.visits && l[i].cnt == e.visits[KeyOf(l[i].tp)])
    && (forall i :: 0 <= i < |l| ==> l[i].tp % DAY == 0)
    && (forall i, j :: 0 <= i < j < |l| ==> DayOf(l[i].tp) < DayOf(l[j].tp))
  }

  function StatOfDay(e: UrlDays, d: DayKey): (r: DayStat)
    requires d in e.visits
    ensures KeyOf(r.tp) == d && r.tp % DAY == 0
  {
    DayStat(e.url, d.num * DAY, e.visits[d])
  }

  method ToUTSV(e: UrlDays) returns (l: seq<DayStat>)
    ensures IsDayList(e, l)
  {
    hide StatOfDay, KeyOf, IsDayList;
    l := [];
    ghost var keys: seq<DayKey> := [];
    var todo := e.visits.Keys;
    while todo != {}
      invariant todo <= e.visits.Keys && |keys| + |todo| == |e.visits|
      invariant forall i, j :: 0 <= i < j < |keys| ==> keys[i].num < keys[j].num
      invariant forall i, d :: 0 <= i < |keys| && d in todo ==> keys[i].num < d.num
      invariant |l| == |keys| && forall i :: 0 <= i < |l| ==> keys[i] in e.visits && l[i] == StatOfDay(e, keys[i])
      decreases todo
    {
      var d := Least(todo);
      l := l + [StatOfDay(e, d)];
      keys := keys + [d];
      todo := todo - {d};
    }
    KeysAreDayList(e, l, keys);
  }

  lemma KeysAreDayList(e: UrlDays, l: seq<DayStat>, keys: seq<DayKey>)
    requires |l| == |keys| == |e.visits|
    requires forall i, j :: 0 <= i < j < |keys| ==> keys[i].num < keys[j].num
    requires forall i :: 0 <= i < |l| ==> keys[i] in e.visits && l[i] == StatOfDay(e, keys[i])
    ensures IsDayList(e, l)
  {
    forall i | 0 <= i < |l| ensures KeyOf(l[i].tp) == keys[i] && DayOf(l[i].tp) == keys[i].num && l[i].tp % DAY == 0 {
      assert l[i] == StatOfDay(e, keys[i]);
    }
  }

  method Least(s: set<DayKey>) returns (m: DayKey)
    requires s != {}
    ensures m in s && forall x :: x in s ==> m.num <= x.num
  {
    m :| m in s;
    var todo := s - {m};
    while todo != {}
      invariant todo <= s && m in s
      invariant forall x :: x in s && x !in todo ==> m.num <= x.num
      decreases todo
    {
      var x :| x in todo;
      if x.num < m.num {
        m := x;
      }
      todo := todo - {x};
    }
  }
}
