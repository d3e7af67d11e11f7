/** The sliding-window visit counter: a count map kept in step with a time queue, so that the
    full visit log need not be stored. */
module UrlFreqMaps {
  import opened Clock
  import opened Types
  import opened Rankings

  datatype FreqCache = FreqCache(freq: map<Url, Cnt>, q: seq<UrlTpStat>)

  const EMPTY := FreqCache(map[], [])

  /** What a full scan of `q` would count for `u`. */
  function SumFor(q: seq<UrlTpStat>, u: Url): Cnt {
    if q == [] then 0 else (if q[0].url == u then q[0].cnt else 0) + SumFor(q[1..], u)
  }

  predicate AllPositive(q: seq<UrlTpStat>) {
    forall s :: s in q ==> s.cnt > 0
  }

  /** The count map is exactly a cache of the scan: no zero entries, no missing ones. */
  ghost predicate Consistent(c: FreqCache) {
    && AllPositive(c.q)
    && (forall u :: u in c.freq ==> c.freq[u] > 0)
    && (forall u :: GetOr0(c.freq, u) == SumFor(c.q, u))
  }

  ghost predicate SortedByTp(q: seq<UrlTpStat>) {
    forall i, j :: 0 <= i < j < |q| ==> q[i].tp <= q[j].tp
  }

  ghost predicate FirstIsOldest(q: seq<UrlTpStat>) {
    forall i :: 0 < i < |q| ==> q[0].tp <= q[i].tp
  }

  // ---------------------------------------------------------------- single operations

  function Evicted(freq: map<Url, Cnt>, s: UrlTpStat): map<Url, Cnt> {
    if s.url !in freq then freq
    else if freq[s.url] - s.cnt <= 0 then map u | u in freq && u != s.url :: freq[u]
    else freq[s.url := freq[s.url] - s.cnt]
  }

  function Cleaned(c: FreqCache, now: Tp, window: nat): FreqCache
    decreases |c.q|
  {
    if c.q == [] || !Expired(now, c.q[0].tp, window) then c
    else Cleaned(FreqCache(Evicted(c.freq, c.q[0]), c.q[1..]), now, window)
  }

  function Pushed(c: FreqCache, s: UrlTpStat): FreqCache {
    FreqCache(c.freq[s.url := GetOr0(c.freq, s.url) + s.cnt], c.q + [s])
  }

  function Inserted(c: FreqCache, s: UrlTpStat, now: Tp, window: nat): FreqCache {
    Cleaned(Pushed(c, s), now, window)
  }

  /** Two queues into one; on equal times the entry of `b` goes first. */
  function MergedQueue(a: seq<UrlTpStat>, b: seq<UrlTpStat>): seq<UrlTpStat>
    decreases |a| + |b|
  {
    if a == [] then b
    else if b == [] then a
    else if a[0].tp < b[0].tp then [a[0]] + MergedQueue(a[1..], b)
    else [b[0]] + MergedQueue(a, b[1..])
  }

  lemma StepOfMergedQueue(rq: seq<UrlTpStat>, q1: seq<UrlTpStat>, i1: nat, q2: seq<UrlTpStat>, i2: nat)
    requires i1 < |q1| && i2 < |q2|
    ensures
      rq + MergedQueue(q1[i1..], q2[i2..]) ==
      if q1[i1].tp < q2[i2].tp then rq + [q1[i1]] + MergedQueue(q1[i1 + 1..], q2[i2..])
      else rq + [q2[i2]] + MergedQueue(q1[i1..], q2[i2 + 1..])
  {
    assert q1[i1..][1..] == q1[i1 + 1..];
    assert q2[i2..][1..] == q2[i2 + 1..];
  }

  lemma OneQueueLeft(rq: seq<UrlTpStat>, q1: seq<UrlTpStat>, i1: nat, q2: seq<UrlTpStat>, i2: nat)
    requires i1 <= |q1| && i2 <= |q2|
    ensures i2 == |q2| ==>
      rq + q1[i1..] + MergedQueue(q1[|q1|..], q2[i2..]) == rq + MergedQueue(q1[i1..], q2[i2..])
    ensures i1 == |q1| ==>
      rq + q2[i2..] + MergedQueue(q1[i1..], q2[|q2|..]) == rq + MergedQueue(q1[i1..], q2[i2..])
  {
  }

  lemma NoQueueLeft(rq: seq<UrlTpStat>, q1: seq<UrlTpStat>, q2: seq<UrlTpStat>)
    ensures rq + MergedQueue(q1[|q1|..], q2[|q2|..]) == rq
  {
  }

  function AddedCounts(a: map<Url, Cnt>, b: map<Url, Cnt>): map<Url, Cnt> {
    map u | u in a.Keys + b.Keys :: GetOr0(a, u) + GetOr0(b, u)
  }

  function Merged(a: FreqCache, b: FreqCache): FreqCache {
    FreqCache(AddedCounts(a.freq, b.freq), MergedQueue(a.q, b.q))
  }

  class UrlFreqMap {
    var m_url_freq: map<Url, Cnt>
    var m_uts_q: seq<UrlTpStat>
    const m_window: nat

    ghost function View(): FreqCache
      reads this
    {
      FreqCache(m_url_freq, m_uts_q)
    }

    constructor (window: nat)
      ensures m_window == window && View() == EMPTY
    {
      m_window := window;
      m_url_freq := map[];
      m_uts_q := [];
    }

    constructor Copy(a: UrlFreqMap)
      ensures m_window == a.m_window && View() == a.View()
    {
      m_window := a.m_window;
      m_url_freq := a.m_url_freq;
      m_uts_q := a.m_uts_q;
    }

    method Insert(visit: UrlVisit, now: Tp)
      modifies this
      ensures View() == Inserted(old(View()), StatOfVisit(visit), now, m_window)
    {
      InsertVisitsPack(StatOfVisit(visit), now);
    }

    method InsertVisitsPack(uts: UrlTpStat, now: Tp)
      modifies this
      ensures View() == Inserted(old(View()), uts, now, m_window)
    {
      m_uts_q := m_uts_q + [uts];
      m_url_freq := m_url_freq[uts.url := GetOr0(m_url_freq, uts.url) + uts.cnt];
      CheckCleanup(now);
    }

    method CheckCleanup(now: Tp)
      modifies this
      ensures View() == Cleaned(old(View()), now, m_window)
    {
      while m_uts_q != []
        invariant Cleaned(View(), now, m_window) == Cleaned(old(View()), now, m_window)
        decreases |m_uts_q|
      {
        if !Expired(now, m_uts_q[0].tp, m_window) {
          break;
        }
        var uts := m_uts_q[0];
        if uts.url in m_url_freq {
          var left := m_url_freq[uts.url] - uts.cnt;
          if left <= 0 {
            m_url_freq := map u | u in m_url_freq && u != uts.url :: m_url_freq[u];
          } else {
            m_url_freq := m_url_freq[uts.url := left];
          }
        }
        m_uts_q := m_uts_q[1..];
      }
    }

    method Merge(a: UrlFreqMap)
      modifies this
      ensures View() == Merged(old(View()), old(a.View()))
    {
      m_url_freq := AddCounts(m_url_freq, a.m_url_freq);
      m_uts_q := MergeQueues(m_uts_q, a.m_uts_q);
    }

    /** Iterates over the other map in an arbitrary order. */
    static method AddCounts(a: map<Url, Cnt>, b: map<Url, Cnt>) returns (r: map<Url, Cnt>)
      ensures r == AddedCounts(a, b)
    {
      r := a;
      var todo := b.Keys;
      while todo != {}
        invariant todo <= b.Keys
        invariant forall u :: u in r <==> u in a || (u in b && u !in todo)
        invariant forall u :: GetOr0(r, u) == if u in b && u !in todo then GetOr0(a, u) + GetOr0(b, u) else GetOr0(a, u)
        decreases todo
      {
        var u :| u in todo;
        r := r[u := GetOr0(r, u) + b[u]];
        todo := todo - {u};
      }
      forall u | u in r ensures r[u] == GetOr0(a, u) + GetOr0(b, u) {
        assert GetOr0(r, u) == r[u];
      }
    }

    static method MergeQueues(q1: seq<UrlTpStat>, q2: seq<UrlTpStat>) returns (rq: seq<UrlTpStat>)
      ensures rq == MergedQueue(q1, q2)
    {
      rq := [];
      var i1: nat, i2: nat := 0, 0;
      ghost var all := MergedQueue(q1, q2);
      hide MergedQueue;
      while i1 < |q1| || i2 < |q2|
        invariant i1 <= |q1| && i2 <= |q2|
        invariant rq + MergedQueue(q1[i1..], q2[i2..]) == all
        decreases |q1| - i1 + |q2| - i2
      {
        if i1 < |q1| && i2 < |q2| {
          StepOfMergedQueue(rq, q1, i1, q2, i2);
          if q1[i1].tp < q2[i2].tp {
            rq := rq + [q1[i1]];
            i1 := i1 + 1;
          } else {
            rq := rq + [q2[i2]];
            i2 := i2 + 1;
          }
        } else if i1 < |q1| {
          OneQueueLeft(rq, q1, i1, q2, i2);
          rq := PushRest(rq, q1, i1);
          i1 := |q1|;
        } else {
          OneQueueLeft(rq, q1, i1, q2, i2);
          rq := PushRest(rq, q2, i2);
          i2 := |q2|;
        }
      }
      NoQueueLeft(rq, q1, q2);
    }

    static method PushRest(rq: seq<UrlTpStat>, q: seq<UrlTpStat>, i: nat) returns (r: seq<UrlTpStat>)
      requires i <= |q|
      ensures r == rq + q[i..]
    {
      r := rq;
      for k := i to |q|
        invariant r == rq + q[i..k]
      {
        assert q[i..k + 1] == q[i..k] + [q[k]];
        r := r + [q[k]];
      }
    }

    /** Accepts exactly the queues whose first entry is the oldest (`prev` never advances). */
    method CheckSortedAndDestroyQueue() returns (r: bool)
      modifies this
      ensures r <==> FirstIsOldest(old(m_uts_q))
      ensures m_url_freq == old(m_url_freq)
      ensures r ==> m_uts_q == []
    {
      if m_uts_q == [] {
        return true;
      }
      var prev := m_uts_q[0];
      m_uts_q := m_uts_q[1..];
      ghost var k := 1;
      while m_uts_q != []
        invariant 1 <= k <= |old(m_uts_q)| && m_uts_q == old(m_uts_q)[k..]
        invariant forall i :: 0 < i < k ==> prev.tp <= old(m_uts_q)[i].tp
        invariant m_url_freq == old(m_url_freq)
        decreases |m_uts_q|
      {
        var cur := m_uts_q[0];
        m_uts_q := m_uts_q[1..];
        if prev.tp > cur.tp {
          return false;
        }
        k := k + 1;
      }
      return true;
    }

    method GetTopUrls() returns (urls: seq<UrlFreq>)
      ensures IsRanking(m_url_freq, urls)
    {
      urls := RankingOf(m_url_freq);
    }

    function Size(): nat
      reads this
    {
      |m_url_freq|
    }
  }
}
