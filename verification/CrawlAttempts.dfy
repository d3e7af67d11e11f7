/** The bounded history of attempts to fetch one url, and how long it makes the scheduler wait. */
module CrawlAttemptHistory {
  import opened Clock
  import opened Types

  datatype CrawlAttempt = CrawlAttempt(tp: Tp, status: AttemptStatus)

  const LAST_STORE_ATTEMPTS: nat := 10

  function LastOf<T>(s: seq<T>, n: nat): seq<T> {
    if |s| <= n then s else s[|s| - n..]
  }

  function Added(h: seq<CrawlAttempt>, stored: Tp): seq<CrawlAttempt> {
    LastOf(h + [CrawlAttempt(stored, ENQUEUED)], LAST_STORE_ATTEMPTS)
  }

  function WithLastStatus(h: seq<CrawlAttempt>, status: AttemptStatus): seq<CrawlAttempt>
    requires h != []
  {
    h[|h| - 1 := h[|h| - 1].(status := status)]
  }

  predicate IsHttpError(status: AttemptStatus) {
    status == S4XX || status == S5XX
  }

  /** How many attempts at the end of the history ended in 4xx or 5xx. */
  function TrailingErrors(h: seq<CrawlAttempt>): nat {
    if h == [] || !IsHttpError(h[|h| - 1].status) then 0 else 1 + TrailingErrors(h[..|h| - 1])
  }

  function Min(a: int, b: int): int {
    if a < b then a else b
  }

  class CrawlAttempts {
    var m_crawl_attempts: seq<CrawlAttempt>

    constructor (attempts: seq<CrawlAttempt> := [])
      ensures m_crawl_attempts == attempts
    {
      m_crawl_attempts := attempts;
    }

    /** `stored` is the attempt time rounded to seconds. */
    method Add(stored: Tp)
      modifies this
      ensures m_crawl_attempts == Added(old(m_crawl_attempts), stored)
    {
      m_crawl_attempts := m_crawl_attempts + [CrawlAttempt(stored, ENQUEUED)];
      ghost var all := m_crawl_attempts;
      while |m_crawl_attempts| > LAST_STORE_ATTEMPTS
        invariant |m_crawl_attempts| <= |all| && m_crawl_attempts == all[|all| - |m_crawl_attempts|..]
        invariant |m_crawl_attempts| >= LAST_STORE_ATTEMPTS || m_crawl_attempts == all
      {
        m_crawl_attempts := m_crawl_attempts[1..];
      }
    }

    /** Marks the oldest attempt made at `tp`. */
    method Set(tp: Tp, status: AttemptStatus) returns (found: bool)
      modifies this
      ensures found <==> exists a :: a in old(m_crawl_attempts) && a.tp == tp
      ensures !found ==> m_crawl_attempts == old(m_crawl_attempts)
      ensures found ==> exists i ::
        && 0 <= i < |old(m_crawl_attempts)|
        && old(m_crawl_attempts)[i].tp == tp
        && (forall k :: 0 <= k < i ==> old(m_crawl_attempts)[k].tp != tp)
        && m_crawl_attempts == old(m_crawl_attempts)[i := CrawlAttempt(tp, status)]
    {
      for i := 0 to |m_crawl_attempts|
        invariant m_crawl_attempts == old(m_crawl_attempts)
        invariant forall k :: 0 <= k < i ==> m_crawl_attempts[k].tp != tp
      {
        if m_crawl_attempts[i].tp == tp {
          m_crawl_attempts := m_crawl_attempts[i := m_crawl_attempts[i].(status := status)];
          return true;
        }
      }
      return false;
    }

    method SetLastStatus(status: AttemptStatus)
      requires m_crawl_attempts != []
      modifies this
      ensures m_crawl_attempts == WithLastStatus(old(m_crawl_attempts), status)
    {
      var last := |m_crawl_attempts| - 1;
      m_crawl_attempts := m_crawl_attempts[last := m_crawl_attempts[last].(status := status)];
    }

    /** The scan stops before index 0, so the oldest stored attempt never counts. */
    method Last4xx5xxCount() returns (r: nat)
      ensures r == if m_crawl_attempts == [] then 0 else Min(TrailingErrors(m_crawl_attempts), |m_crawl_attempts| - 1)
    {
      if m_crawl_attempts == [] {
        return 0;
      }
      r := 0;
      var i := |m_crawl_attempts| - 1;
      assert m_crawl_attempts[..i + 1] == m_crawl_attempts;
      while i > 0
        invariant 0 <= i && r + i == |m_crawl_attempts| - 1
        invariant TrailingErrors(m_crawl_attempts) == r + TrailingErrors(m_crawl_attempts[..i + 1])
      {
        assert m_crawl_attempts[..i + 1][..i] == m_crawl_attempts[..i];
        if !IsHttpError(m_crawl_attempts[i].status) {
          break;
        }
        r := r + 1;
        i := i - 1;
      }
    }
  }

  // ---------------------------------------------------------------- the bounded history against the full one

  /** What happens to one url: it is put into the queue, or a result comes in. */
  datatype UrlStep = Enqueue(stored: Tp) | Outcome(status: AttemptStatus, stored: Tp)

  /** A result for a url without history first opens an attempt. */
  function Stepped(h: seq<CrawlAttempt>, step: UrlStep): seq<CrawlAttempt> {
    match step
    case Enqueue(stored) => Added(h, stored)
    case Outcome(status, stored) =>
      var h1 := if h == [] then Added(h, stored) else h;
      WithLastStatus(h1, status)
  }

  function History(steps: seq<UrlStep>): seq<CrawlAttempt> {
    if steps == [] then [] else Stepped(History(steps[..|steps| - 1]), steps[|steps| - 1])
  }

  /** The same without a bound: every attempt ever made. */
  function FullHistory(steps: seq<UrlStep>): seq<CrawlAttempt> {
    if steps == [] then []
    else
      var h := FullHistory(steps[..|steps| - 1]);
      match steps[|steps| - 1]
      case Enqueue(stored) => h + [CrawlAttempt(stored, ENQUEUED)]
      case Outcome(status, stored) => WithLastStatus(if h == [] then [CrawlAttempt(stored, ENQUEUED)] else h, status)
  }

  /** The stored history never exceeds ten attempts and is exactly the ten most recent ones, in
      order and with their latest status. */
  lemma {:induction false} HistoryIsRecentPart(steps: seq<UrlStep>)
    ensures History(steps) == LastOf(FullHistory(steps), LAST_STORE_ATTEMPTS)
    ensures |History(steps)| <= LAST_STORE_ATTEMPTS
  {
    if steps != [] {
      HistoryIsRecentPart(steps[..|steps| - 1]);
    }
  }

  // ---------------------------------------------------------------- back-off

  function Pow2(n: nat): nat {
    if n == 0 then 1 else 2 * Pow2(n - 1)
  }

  lemma {:induction false} Pow2Monotone(m: nat, n: nat)
    requires m <= n
    ensures 1 <= Pow2(m) <= Pow2(n)
    decreases n
  {
    if m < n {
      Pow2Monotone(m, n - 1);
    } else if n > 0 {
      Pow2Monotone(m - 1, n - 1);
    }
  }

  function BackoffHours(h: seq<CrawlAttempt>): nat {
    if h == [] then 1 else Pow2(Min(TrailingErrors(h), |h| - 1))
  }

  lemma BackoffBounds(h: seq<CrawlAttempt>)
    requires |h| <= LAST_STORE_ATTEMPTS
    ensures 1 <= BackoffHours(h) <= 512
  {
    if h != [] {
      Pow2Monotone(Min(TrailingErrors(h), |h| - 1), 9);
      assert Pow2(9) == 512;
    }
  }

  /** `n` rounds of being enqueued and then failing with an http error. */
  datatype Failure = Failure(stored: Tp, status: AttemptStatus)

  function CycleSteps(failures: seq<Failure>): seq<UrlStep> {
    if failures == [] then []
    else
      var f := failures[|failures| - 1];
      CycleSteps(failures[..|failures| - 1]) + [Enqueue(f.stored), Outcome(f.status, f.stored)]
  }

  lemma {:induction false} AllErrorsTrail(h: seq<CrawlAttempt>)
    requires forall a :: a in h ==> IsHttpError(a.status)
    ensures TrailingErrors(h) == |h|
  {
    if h != [] {
      AllErrorsTrail(h[..|h| - 1]);
    }
  }

  lemma {:induction false} CyclesLeaveErrors(failures: seq<Failure>)
    requires forall f :: f in failures ==> IsHttpError(f.status)
    ensures |History(CycleSteps(failures))| == Min(|failures|, LAST_STORE_ATTEMPTS)
    ensures forall a :: a in History(CycleSteps(failures)) ==> IsHttpError(a.status)
  {
    if failures != [] {
      var n := |failures| - 1;
      var f := failures[n];
      var before := CycleSteps(failures[..n]);
      var steps := CycleSteps(failures);
      CyclesLeaveErrors(failures[..n]);
      assert steps[..|steps| - 1] == before + [Enqueue(f.stored)];
      assert (before + [Enqueue(f.stored)])[..|before|] == before;
      assert History(steps) == WithLastStatus(Added(History(before), f.stored), f.status);
    }
  }

  /** After `n >= 1` failing rounds from a fresh url the wait is `2^min(n - 1, 9)` hours. */
  lemma BackoffExact(failures: seq<Failure>)
    requires failures != [] && forall f :: f in failures ==> IsHttpError(f.status)
    ensures BackoffHours(History(CycleSteps(failures))) == Pow2(Min(|failures| - 1, 9))
  {
    CyclesLeaveErrors(failures);
    AllErrorsTrail(History(CycleSteps(failures)));
  }
}
