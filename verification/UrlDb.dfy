/** Which urls are due for another attempt: the page policy, the robots policy, and the recording
    of what was enqueued and what came back. */
module UrlDatabase {
  import opened Clock
  import opened Types
  import opened CrawlAttemptHistory

  datatype UrlDecision =
    | ALLOW
    | DISALLOW_NO_REASON
    | DISALLOW_TRY_IN_HOUR
    | DISALLOW_WAIT_X2_TIME
    | DISALLOW_TRY_IN_A_DAY
    | DISALLOW_TRY_IN_A_WEEK

  type Attempts = map<Url, seq<CrawlAttempt>>

  function HistoryOf(m: Attempts, u: Url): seq<CrawlAttempt> {
    if u in m then m[u] else []
  }

  // ---------------------------------------------------------------- the two policies

  function After(now: Tp, last: Tp, unit: int, count: int, otherwise: UrlDecision): UrlDecision
    requires unit > 0
  {
    if Cast(now - last, unit) >= count then ALLOW else otherwise
  }

  function PageVerdict(h: seq<CrawlAttempt>, now: Tp): UrlDecision {
    if h == [] then ALLOW
    else
      var last := h[|h| - 1];
      match last.status
      case CURL_ERR => After(now, last.tp, HOUR, 1, DISALLOW_TRY_IN_HOUR)
      case ENQUEUED => After(now, last.tp, HOUR, 24, DISALLOW_TRY_IN_A_DAY)
      case PENDING => After(now, last.tp, HOUR, 1, DISALLOW_TRY_IN_HOUR)
      case OK => After(now, last.tp, DAY, 7, DISALLOW_TRY_IN_A_WEEK)
      case S4XX => After(now, last.tp, HOUR, BackoffHours(h), DISALLOW_WAIT_X2_TIME)
      case S5XX => After(now, last.tp, HOUR, BackoffHours(h), DISALLOW_WAIT_X2_TIME)
      case UNRECOGNIZED(_) => DISALLOW_NO_REASON
  }

  function RobotsVerdict(h: seq<CrawlAttempt>, now: Tp): UrlDecision {
    if h == [] then ALLOW
    else
      var last := h[|h| - 1];
      match last.status
      case CURL_ERR => After(now, last.tp, HOUR, 24, DISALLOW_TRY_IN_A_DAY)
      case ENQUEUED => After(now, last.tp, HOUR, 1, DISALLOW_TRY_IN_HOUR)
      case PENDING => After(now, last.tp, HOUR, 1, DISALLOW_TRY_IN_HOUR)
      case OK => After(now, last.tp, DAY, 1, DISALLOW_TRY_IN_A_DAY)
      case S4XX => After(now, last.tp, HOUR, 24, DISALLOW_TRY_IN_A_DAY)
      case S5XX => After(now, last.tp, HOUR, 24, DISALLOW_TRY_IN_A_DAY)
      case UNRECOGNIZED(_) => DISALLOW_NO_REASON
  }

  datatype Policy = Page | RobotsFile

  function Verdict(p: Policy, h: seq<CrawlAttempt>, now: Tp): UrlDecision {
    match p case Page => PageVerdict(h, now) case RobotsFile => RobotsVerdict(h, now)
  }

  /** The shortest time from the last attempt to the next one; none if there will be no next one. */
  function WaitFor(p: Policy, h: seq<CrawlAttempt>): Option<int>
    requires h != []
  {
    match (p, h[|h| - 1].status)
    case (_, UNRECOGNIZED(_)) => None
    case (_, PENDING) => Some(HOUR)
    case (Page, CURL_ERR) => Some(HOUR)
    case (Page, ENQUEUED) => Some(24 * HOUR)
    case (Page, OK) => Some(7 * DAY)
    case (Page, _) => Some(BackoffHours(h) * HOUR)
    case (RobotsFile, ENQUEUED) => Some(HOUR)
    case (RobotsFile, _) => Some(24 * HOUR)
  }

  lemma BackoffPositive(h: seq<CrawlAttempt>)
    ensures BackoffHours(h) >= 1
  {
    if h != [] {
      Pow2Monotone(0, Min(TrailingErrors(h), |h| - 1));
    }
  }

  /** A url without an attempt is due at once, any other when its wait is over. */
  predicate IsDue(p: Policy, h: seq<CrawlAttempt>, now: Tp) {
    h == [] || (WaitFor(p, h).Some? && now - h[|h| - 1].tp >= WaitFor(p, h).value)
  }

  /** Truncated hours and days come out as exact waits, and none is under an hour. */
  lemma AllowedExactlyAfterWait(p: Policy, h: seq<CrawlAttempt>, now: Tp)
    ensures Verdict(p, h, now) == ALLOW <==> IsDue(p, h, now)
    ensures h == [] ==> Verdict(p, h, now) == ALLOW
    ensures h != [] && WaitFor(p, h).Some? ==> WaitFor(p, h).value >= HOUR
  {
    if h != [] {
      var d := now - h[|h| - 1].tp;
      BackoffPositive(h);
      CastThreshold(d, HOUR, 1);
      CastThreshold(d, HOUR, 24);
      CastThreshold(d, HOUR, BackoffHours(h));
      CastThreshold(d, DAY, 1);
      CastThreshold(d, DAY, 7);
    }
  }

  /** In an unchanged state a permission is never taken back. */
  lemma AllowStaysAllow(p: Policy, h: seq<CrawlAttempt>, now: Tp, later: Tp)
    requires Verdict(p, h, now) == ALLOW && now <= later
    ensures Verdict(p, h, later) == ALLOW
  {
    AllowedExactlyAfterWait(p, h, now);
    AllowedExactlyAfterWait(p, h, later);
  }

  // ---------------------------------------------------------------- recording

  function Enqueued(m: Attempts, u: Url, stored: Tp): Attempts {
    m[u := Added(HistoryOf(m, u), stored)]
  }

  function AllEnqueued(m: Attempts, urls: seq<Url>, stored: Tp): Attempts {
    if urls == [] then m else Enqueued(AllEnqueued(m, urls[..|urls| - 1], stored), urls[|urls| - 1], stored)
  }

  function StatusSet(m: Attempts, u: Url, status: AttemptStatus, stored: Tp): Attempts {
    m[u := Stepped(HistoryOf(m, u), Outcome(status, stored))]
  }

  function AllStatusSet(m: Attempts, rs: seq<FetchResult>, stored: Tp): Attempts {
    if rs == [] then m
    else StatusSet(AllStatusSet(m, rs[..|rs| - 1], stored), rs[|rs| - 1].gfq.url, rs[|rs| - 1].status, stored)
  }

  /** No url is known without at least one attempt. */
  ghost predicate NoEmptyHistory(m: Attempts) {
    forall u :: u in m ==> m[u] != []
  }

  /** The counted urls that a policy lets through, in order. */
  function Passing(p: Policy, m: Attempts, urls: seq<UrlFreq>, now: Tp): seq<UrlFreq> {
    if urls == [] then []
    else
      var e := urls[|urls| - 1];
      Passing(p, m, urls[..|urls| - 1], now) + if Verdict(p, HistoryOf(m, e.url), now) == ALLOW then [e] else []
  }

  lemma {:induction false} PassingMembers(p: Policy, m: Attempts, urls: seq<UrlFreq>, now: Tp)
    ensures forall e :: e in Passing(p, m, urls, now) <==> e in urls && IsDue(p, HistoryOf(m, e.url), now)
  {
    hide Verdict, IsDue;
    if urls != [] {
      var n := |urls| - 1;
      PassingMembers(p, m, urls[..n], now);
      AllowedExactlyAfterWait(p, HistoryOf(m, urls[n].url), now);
      assert forall e :: e in urls <==> e in urls[..n] || e == urls[n];
    }
  }

  /** Histories live by value inside the url map: each is taken out, used as an object, and put back. */
  class UrlDb {
    var m_url_crawl_attempts: Attempts
    const round: Tp -> Tp   // to whole seconds

    ghost predicate Valid()
      reads this
    {
      NoEmptyHistory(m_url_crawl_attempts)
    }

    constructor (stored: Attempts, round: Tp -> Tp)
      requires NoEmptyHistory(stored)
      ensures Valid() && m_url_crawl_attempts == stored && this.round == round
    {
      m_url_crawl_attempts := stored;
      this.round := round;
    }

    method IsNeedCrawl(url: Url, now: Tp) returns (d: UrlDecision)
      ensures d == PageVerdict(HistoryOf(m_url_crawl_attempts, url), now)
      ensures url !in m_url_crawl_attempts ==> d == ALLOW
      ensures d == ALLOW <==> IsDue(Page, HistoryOf(m_url_crawl_attempts, url), now)
    {
      AllowedExactlyAfterWait(Page, HistoryOf(m_url_crawl_attempts, url), now);
      hide IsDue;
      if url !in m_url_crawl_attempts || m_url_crawl_attempts[url] == [] {
        return ALLOW;
      }
      var attempts := new CrawlAttempts(m_url_crawl_attempts[url]);
      var last_attempt := attempts.m_crawl_attempts[|attempts.m_crawl_attempts| - 1];
      match last_attempt.status {
        case CURL_ERR =>
          return if Cast(now - last_attempt.tp, HOUR) >= 1 then ALLOW else DISALLOW_TRY_IN_HOUR;
        case ENQUEUED =>
          return if Cast(now - last_attempt.tp, HOUR) >= 24 then ALLOW else DISALLOW_TRY_IN_A_DAY;
        case PENDING =>
          return if Cast(now - last_attempt.tp, HOUR) >= 1 then ALLOW else DISALLOW_TRY_IN_HOUR;
        case OK =>
          return if Cast(now - last_attempt.tp, DAY) >= 7 then ALLOW else DISALLOW_TRY_IN_A_WEEK;
        case S4XX | S5XX =>
          var last_4xx5xx_count := attempts.Last4xx5xxCount();
          var wait_hours := 1;
          for i := 0 to last_4xx5xx_count
            invariant wait_hours == Pow2(i)
          {
            wait_hours := wait_hours * 2;
          }
          return if Cast(now - last_attempt.tp, HOUR) >= wait_hours then ALLOW else DISALLOW_WAIT_X2_TIME;
        case _ =>
          return DISALLOW_NO_REASON;
      }
    }

    method LeaveNeedUrls(urls: seq<UrlFreq>, now: Tp) returns (decisions: seq<UrlDecision>, out: seq<UrlFreq>)
      ensures |decisions| == |urls|
      ensures forall i :: 0 <= i < |urls| ==>
        decisions[i] == PageVerdict(HistoryOf(m_url_crawl_attempts, urls[i].url), now)
      ensures out == Passing(Page, m_url_crawl_attempts, urls, now)
      ensures forall e :: e in out <==> e in urls && IsDue(Page, HistoryOf(m_url_crawl_attempts, e.url), now)
    {
      hide IsDue;
      decisions, out := [], [];
      for i := 0 to |urls|
        invariant |decisions| == i
        invariant forall k :: 0 <= k < i ==>
          decisions[k] == PageVerdict(HistoryOf(m_url_crawl_attempts, urls[k].url), now)
        invariant out == Passing(Page, m_url_crawl_attempts, urls[..i], now)
      {
        assert urls[..i + 1][..i] == urls[..i];
        var decision := IsNeedCrawl(urls[i].url, now);
        decisions := decisions + [decision];
        if decision == ALLOW {
          out := out + [urls[i]];
        }
      }
      assert urls[..|urls|] == urls;
      PassingMembers(Page, m_url_crawl_attempts, urls, now);
    }

    method LeaveNeedRobots(urls: seq<UrlFreq>, now: Tp) returns (decisions: seq<UrlDecision>, out: seq<UrlFreq>)
      ensures |decisions| == |urls|
      ensures forall i :: 0 <= i < |urls| ==>
        decisions[i] == RobotsVerdict(HistoryOf(m_url_crawl_attempts, urls[i].url), now)
      ensures out == Passing(RobotsFile, m_url_crawl_attempts, urls, now)
      ensures forall e :: e in out <==> e in urls && IsDue(RobotsFile, HistoryOf(m_url_crawl_attempts, e.url), now)
    {
      hide IsDue;
      decisions, out := [], [];
      for i := 0 to |urls|
        invariant |decisions| == i
        invariant forall k :: 0 <= k < i ==>
          decisions[k] == RobotsVerdict(HistoryOf(m_url_crawl_attempts, urls[k].url), now)
        invariant out == Passing(RobotsFile, m_url_crawl_attempts, urls[..i], now)
      {
        hide RobotsVerdict, HistoryOf;
        assert urls[..i + 1][..i] == urls[..i];
        var decision := RobotsVerdict(HistoryOf(m_url_crawl_attempts, urls[i].url), now);
        decisions := decisions + [decision];
        if decision == ALLOW {
          out := out + [urls[i]];
        }
      }
      assert urls[..|urls|] == urls;
      PassingMembers(RobotsFile, m_url_crawl_attempts, urls, now);
    }

    method SetEnqueued(urls: seq<Url>, now: Tp)
      requires Valid()
      modifies this
      ensures Valid()
      ensures m_url_crawl_attempts == AllEnqueued(old(m_url_crawl_attempts), urls, round(now))
    {
      for i := 0 to |urls|
        invariant Valid()
        invariant m_url_crawl_attempts == AllEnqueued(old(m_url_crawl_attempts), urls[..i], round(now))
      {
        assert urls[..i + 1][..i] == urls[..i];
        var attempts := new CrawlAttempts(HistoryOf(m_url_crawl_attempts, urls[i]));
        attempts.Add(round(now));
        m_url_crawl_attempts := m_url_crawl_attempts[urls[i] := attempts.m_crawl_attempts];
      }
      assert urls[..|urls|] == urls;
    }

    method OnFetched(results: seq<FetchResult>, now: Tp)
      requires Valid()
      modifies this
      ensures Valid()
      ensures m_url_crawl_attempts == AllStatusSet(old(m_url_crawl_attempts), results, round(now))
    {
      for i := 0 to |results|
        invariant Valid()
        invariant m_url_crawl_attempts == AllStatusSet(old(m_url_crawl_attempts), results[..i], round(now))
      {
        assert results[..i + 1][..i] == results[..i];
        var url := results[i].gfq.url;
        var attempts := new CrawlAttempts(HistoryOf(m_url_crawl_attempts, url));
        if url !in m_url_crawl_attempts {
          attempts.Add(round(now));
        }
        attempts.SetLastStatus(results[i].status);
        m_url_crawl_attempts := m_url_crawl_attempts[url := attempts.m_crawl_attempts];
      }
      assert results[..|results|] == results;
    }
  }
}
