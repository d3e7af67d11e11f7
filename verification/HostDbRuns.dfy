/** What admission control guarantees over whole runs: any interleaving of crawl requests and
    fetch results, under a clock that never goes back. */
module HostDbRuns {
  import opened Clock
  import opened Types
  import opened SlidingWindows
  import opened HostFrequency
  import opened HostDatabase

  datatype Op = Try(records: seq<GFQRecord>) | Results(results: seq<FetchResult>)

  /** Everything a run depends on besides the calls themselves. */
  datatype Setup = Setup(limits: CrawlLimits, web: Web, reading: nat -> Tp, stored: map<Host, Robots>)

  function InitState(u: Setup): HostState {
    HostState(map[], IDLE, u.stored, 0, [])
  }

  function StepOp(s: HostState, u: Setup, op: Op): HostState {
    match op
    case Try(records) => TryAll(s, u.limits, u.web, u.reading, RecordUrls(records)).1
    case Results(results) => OnAllFetched(s, u.web, results)
  }

  function Run(u: Setup, ops: seq<Op>): HostState {
    if ops == [] then InitState(u) else StepOp(Run(u, ops[..|ops| - 1]), u, ops[|ops| - 1])
  }

  // ---------------------------------------------------------------- url by url

  /** The steps inside requests and result lists, one url at a time. */
  datatype UrlStep = TryUrl(url: Url) | Result(result: FetchResult)

  function StepUrl(s: HostState, u: Setup, step: UrlStep): HostState {
    match step
    case TryUrl(url) => TryOne(s, u.limits, u.web, u.reading, url).1
    case Result(r) => OnOneFetched(s, u.web, r)
  }

  function UrlsFrom(s: HostState, u: Setup, steps: seq<UrlStep>): HostState {
    if steps == [] then s else StepUrl(UrlsFrom(s, u, steps[..|steps| - 1]), u, steps[|steps| - 1])
  }

  function UrlSteps(op: Op): seq<UrlStep> {
    match op
    case Try(records) => seq(|records|, i requires 0 <= i < |records| => TryUrl(records[i].url))
    case Results(results) => seq(|results|, i requires 0 <= i < |results| => Result(results[i]))
  }

  function AllUrlSteps(ops: seq<Op>): seq<UrlStep> {
    if ops == [] then [] else AllUrlSteps(ops[..|ops| - 1]) + UrlSteps(ops[|ops| - 1])
  }

  lemma {:induction false} UrlsFromAppend(s: HostState, u: Setup, a: seq<UrlStep>, b: seq<UrlStep>)
    ensures UrlsFrom(s, u, a + b) == UrlsFrom(UrlsFrom(s, u, a), u, b)
  {
    if b == [] {
      assert a + b == a;
    } else {
      assert (a + b)[..|a + b| - 1] == a + b[..|b| - 1];
      UrlsFromAppend(s, u, a, b[..|b| - 1]);
    }
  }

  lemma {:induction false} TryIsUrlSteps(s: HostState, u: Setup, records: seq<GFQRecord>)
    ensures UrlsFrom(s, u, UrlSteps(Try(records))) == StepOp(s, u, Try(records))
  {
    if records != [] {
      var n := |records| - 1;
      TryIsUrlSteps(s, u, records[..n]);
      assert UrlSteps(Try(records))[..n] == UrlSteps(Try(records[..n]));
      assert RecordUrls(records)[..n] == RecordUrls(records[..n]);
    }
  }

  lemma {:induction false} ResultsAreUrlSteps(s: HostState, u: Setup, results: seq<FetchResult>)
    ensures UrlsFrom(s, u, UrlSteps(Results(results))) == StepOp(s, u, Results(results))
  {
    if results != [] {
      var n := |results| - 1;
      ResultsAreUrlSteps(s, u, results[..n]);
      assert UrlSteps(Results(results))[..n] == UrlSteps(Results(results[..n]));
    }
  }

  /** A run of requests and result lists is the run of its urls, one by one. */
  lemma {:induction false} RunIsUrlRun(u: Setup, ops: seq<Op>)
    ensures Run(u, ops) == UrlsFrom(InitState(u), u, AllUrlSteps(ops))
  {
    if ops != [] {
      var n := |ops| - 1;
      RunIsUrlRun(u, ops[..n]);
      UrlsFromAppend(InitState(u), u, AllUrlSteps(ops[..n]), UrlSteps(ops[n]));
      match ops[n]
      case Try(records) => TryIsUrlSteps(Run(u, ops[..n]), u, records);
      case Results(results) => ResultsAreUrlSteps(Run(u, ops[..n]), u, results);
    }
  }

  // ---------------------------------------------------------------- rate limits

  datatype Period = Minute | Hour | Day

  function SecondsOf(p: Period): nat {
    match p case Minute => MINUTE_SECS case Hour => HOUR_SECS case Day => DAY_SECS
  }

  function LimitOf(l: CrawlLimits, p: Period): Cnt {
    match p case Minute => l.hostMinute case Hour => l.hostHour case Day => l.hostDay
  }

  function WindowOf(f: FreqState, p: Period): seq<Tp> {
    match p case Minute => f.min case Hour => f.hour case Day => f.day
  }

  function TimeOf(st: Stamp, p: Period): Tp {
    match p case Minute => st.minTp case Hour => st.hourTp case Day => st.dayTp
  }

  /** The times of all grants to a host, as its window of that period saw them. */
  function GrantTimes(log: seq<Event>, h: Host, p: Period): seq<Tp> {
    if log == [] then []
    else
      var e := log[|log| - 1];
      GrantTimes(log[..|log| - 1], h, p) + if e.Granted? && e.host == h then [TimeOf(e.own, p)] else []
  }

  ghost predicate RateKept(s: HostState, u: Setup, h: Host, p: Period) {
    var times := GrantTimes(s.log, h, p);
    && Tracks(WindowOf(FreqOf(s.freqs, h), p), times, Look(u.reading, s.looks), SecondsOf(p))
    && (LimitOf(u.limits, p) >= 1 ==> Spaced(times, LimitOf(u.limits, p), SecondsOf(p)))
    && (h !in s.freqs ==> times == [])
  }

  /** A check only drops expired events, and lets through only when every window has room. */
  lemma CheckTracks(f: FreqState, u: Setup, looks: nat, p: Period, times: seq<Tp>)
    requires Steady(u.reading)
    requires Tracks(WindowOf(f, p), times, Look(u.reading, looks), SecondsOf(p))
    ensures
      var c := Check(f, u.limits, u.reading, looks);
      && c.looks >= looks
      && Tracks(WindowOf(c.state, p), times, Look(u.reading, c.looks), SecondsOf(p))
      && (c.allowed ==> |WindowOf(c.state, p)| < LimitOf(u.limits, p))
  {
    var c := Check(f, u.limits, u.reading, looks);
    var q := WindowOf(f, p);
    var at := LookFor(looks, p);
    if WindowOf(c.state, p) != q {
      RecentTracks(q, times, Look(u.reading, looks), Look(u.reading, at), SecondsOf(p));
      TracksLater(WindowOf(c.state, p), times, Look(u.reading, at), Look(u.reading, c.looks), SecondsOf(p));
    } else {
      TracksLater(q, times, Look(u.reading, looks), Look(u.reading, c.looks), SecondsOf(p));
    }
  }

  lemma CheckTracksLater(f: FreqState, u: Setup, looks: nat, later: nat, p: Period, times: seq<Tp>)
    requires Steady(u.reading) && Check(f, u.limits, u.reading, looks).looks <= later
    requires Tracks(WindowOf(f, p), times, Look(u.reading, looks), SecondsOf(p))
    ensures
      var c := Check(f, u.limits, u.reading, looks);
      && Tracks(WindowOf(c.state, p), times, Look(u.reading, later), SecondsOf(p))
      && (c.allowed ==> |WindowOf(c.state, p)| < LimitOf(u.limits, p))
  {
    hide Check, Tracks, WindowOf;
    var c := Check(f, u.limits, u.reading, looks);
    CheckTracks(f, u, looks, p, times);
    TracksLater(WindowOf(c.state, p), times, Look(u.reading, c.looks), Look(u.reading, later), SecondsOf(p));
  }

  lemma VerdictLooks(s: HostState, u: Setup, h: Host)
    ensures
      var s1 := FreqVerdict(s, u.limits, u.reading, h).1;
      && s1.log == s.log && s1.looks >= s.looks
      && (h in s.freqs ==> s1.looks >= Check(s.freqs[h], u.limits, u.reading, s.looks).looks)
  {
    hide Check;
    if h in s.freqs {
      var c := Check(s.freqs[h], u.limits, u.reading, s.looks);
      LooksAdvance(s.freqs[h], u, s.looks);
      LooksAdvance(s.global, u, c.looks);
    }
  }

  lemma FreqVerdictKeepsRate(s: HostState, u: Setup, h0: Host, h: Host, p: Period)
    requires Steady(u.reading) && RateKept(s, u, h, p)
    ensures
      var (free, s1) := FreqVerdict(s, u.limits, u.reading, h0);
      && RateKept(s1, u, h, p)
      && s1.log == s.log && s1.looks >= s.looks
      && (free && h0 == h && h in s.freqs ==> |WindowOf(FreqOf(s1.freqs, h), p)| < LimitOf(u.limits, p))
  {
    hide Check, Tracks, Spaced, WindowOf;
    var times, s1 := GrantTimes(s.log, h, p), FreqVerdict(s, u.limits, u.reading, h0).1;
    VerdictLooks(s, u, h0);
    if h == h0 && h in s.freqs {
      CheckTracksLater(s.freqs[h0], u, s.looks, s1.looks, p, times);
    } else {
      TracksLater(
        WindowOf(FreqOf(s.freqs, h), p), times, Look(u.reading, s.looks), Look(u.reading, s1.looks), SecondsOf(p));
    }
  }

  lemma LooksAdvance(f: FreqState, u: Setup, looks: nat)
    ensures Check(f, u.limits, u.reading, looks).looks >= looks
  {
  }

  /** The clock reading that goes into the window of a period. */
  function LookFor(looks: nat, p: Period): nat {
    match p case Minute => looks case Hour => looks + 1 case Day => looks + 2
  }

  lemma StartedWindow(f: FreqState, u: Setup, looks: nat, p: Period)
    ensures WindowOf(Started(f, u.reading, looks), p) ==
      Counted(WindowOf(f, p), Look(u.reading, LookFor(looks, p)), SecondsOf(p))
  {
  }

  lemma GrantTimesStep(log: seq<Event>, e: Event, h: Host, p: Period)
    ensures
      GrantTimes(log + [e], h, p) ==
      if e.Granted? && e.host == h then GrantTimes(log, h, p) + [TimeOf(e.own, p)] else GrantTimes(log, h, p)
  {
    assert (log + [e])[..|log|] == log;
  }

  lemma GrantExtendsTimes(s: HostState, u: Setup, url: Url, h0: Host, h: Host, p: Period)
    ensures
      GrantTimes(s.log + [GrantEvent(s, u.reading, url, h0)], h, p) ==
      if h0 == h then GrantTimes(s.log, h, p) + [Look(u.reading, LookFor(s.looks, p))] else GrantTimes(s.log, h, p)
  {
    GrantTimesStep(s.log, GrantEvent(s, u.reading, url, h0), h, p);
  }

  lemma GrantTracks(f: FreqState, u: Setup, looks: nat, times: seq<Tp>, p: Period)
    requires Steady(u.reading)
    requires Tracks(WindowOf(f, p), times, Look(u.reading, looks), SecondsOf(p))
    requires LimitOf(u.limits, p) >= 1 ==> Spaced(times, LimitOf(u.limits, p), SecondsOf(p))
    requires |WindowOf(f, p)| < LimitOf(u.limits, p) || times == []
    ensures
      var times' := times + [Look(u.reading, LookFor(looks, p))];
      && Tracks(WindowOf(Started(f, u.reading, looks), p), times', Look(u.reading, looks + 6), SecondsOf(p))
      && (LimitOf(u.limits, p) >= 1 ==> Spaced(times', LimitOf(u.limits, p), SecondsOf(p)))
  {
    var q := WindowOf(f, p);
    var last, now := Look(u.reading, looks), Look(u.reading, LookFor(looks, p));
    StartedWindow(f, u, looks, p);
    IncTracks(q, times, last, now, SecondsOf(p));
    if LimitOf(u.limits, p) >= 1 {
      IncSpaced(q, times, last, now, SecondsOf(p), LimitOf(u.limits, p));
    }
    TracksLater(Counted(q, now, SecondsOf(p)), times + [now], now, Look(u.reading, looks + 6), SecondsOf(p));
  }

  lemma GrantKeepsRate(s: HostState, u: Setup, url: Url, h0: Host, h: Host, p: Period)
    requires Steady(u.reading) && RateKept(s, u, h, p)
    requires h0 == h && h in s.freqs ==> |WindowOf(FreqOf(s.freqs, h), p)| < LimitOf(u.limits, p)
    ensures RateKept(SetCrawling(s, u.reading, url, h0), u, h, p)
  {
    GrantExtendsTimes(s, u, url, h0, h, p);
    if h == h0 {
      RateAfterOwnGrant(s, SetCrawling(s, u.reading, url, h0), u, h, p);
    } else {
      RateAfterOtherGrant(s, SetCrawling(s, u.reading, url, h0), u, h, p);
    }
  }

  lemma RateAfterOwnGrant(s: HostState, s1: HostState, u: Setup, h: Host, p: Period)
    requires Steady(u.reading) && RateKept(s, u, h, p)
    requires h in s.freqs ==> |WindowOf(FreqOf(s.freqs, h), p)| < LimitOf(u.limits, p)
    requires h in s1.freqs && s1.freqs[h] == Started(FreqOf(s.freqs, h), u.reading, s.looks) && s1.looks == s.looks + 6
    requires GrantTimes(s1.log, h, p) == GrantTimes(s.log, h, p) + [Look(u.reading, LookFor(s.looks, p))]
    ensures RateKept(s1, u, h, p)
  {
    GrantTracks(FreqOf(s.freqs, h), u, s.looks, GrantTimes(s.log, h, p), p);
  }

  lemma RateAfterOtherGrant(s: HostState, s1: HostState, u: Setup, h: Host, p: Period)
    requires Steady(u.reading) && RateKept(s, u, h, p)
    requires FreqOf(s1.freqs, h) == FreqOf(s.freqs, h) && s1.looks == s.looks + 6
    requires GrantTimes(s1.log, h, p) == GrantTimes(s.log, h, p)
    requires h !in s1.freqs ==> h !in s.freqs
    ensures RateKept(s1, u, h, p)
  {
    TracksLater(WindowOf(FreqOf(s.freqs, h), p), GrantTimes(s.log, h, p), Look(u.reading, s.looks),
      Look(u.reading, s.looks + 6), SecondsOf(p));
  }

  lemma TryOneKeepsRate(s: HostState, u: Setup, url: Url, h: Host, p: Period)
    requires Steady(u.reading) && RateKept(s, u, h, p)
    ensures RateKept(TryOne(s, u.limits, u.web, u.reading, url).1, u, h, p)
  {
    if u.web.ok(url) && Permits(u.web, s.robots, url) {
      var h0 := u.web.host(url);
      var (free, s1) := FreqVerdict(s, u.limits, u.reading, h0);
      FreqVerdictKeepsRate(s, u, h0, h, p);
      if free {
        GrantKeepsRate(s1, u, url, h0, h, p);
      }
    }
  }

  lemma OneFetchedKeepsRate(s: HostState, u: Setup, r: FetchResult, h: Host, p: Period)
    requires RateKept(s, u, h, p)
    ensures RateKept(OnOneFetched(s, u.web, r), u, h, p)
  {
    if u.web.ok(r.gfq.url) {
      GrantTimesStep(s.log, Fetched(r, u.web.host(r.gfq.url)), h, p);
    }
  }

  lemma InitKeepsRate(u: Setup, h: Host, p: Period)
    ensures RateKept(InitState(u), u, h, p)
  {
  }

  lemma {:induction false} UrlsKeepRate(u: Setup, steps: seq<UrlStep>, h: Host, p: Period)
    requires Steady(u.reading)
    ensures RateKept(UrlsFrom(InitState(u), u, steps), u, h, p)
  {
    hide RateKept, TryOne, OnOneFetched;
    if steps == [] {
      InitKeepsRate(u, h, p);
    } else {
      var n := |steps| - 1;
      var s := UrlsFrom(InitState(u), u, steps[..n]);
      UrlsKeepRate(u, steps[..n], h, p);
      match steps[n]
      case TryUrl(url) => TryOneKeepsRate(s, u, url, h, p);
      case Result(r) => OneFetchedKeepsRate(s, u, r, h, p);
    }
  }

  lemma RunKeepsRate(u: Setup, ops: seq<Op>, h: Host, p: Period)
    requires Steady(u.reading)
    ensures RateKept(Run(u, ops), u, h, p)
  {
    hide RateKept;
    RunIsUrlRun(u, ops);
    UrlsKeepRate(u, AllUrlSteps(ops), h, p);
  }

  /** The rate limit: in no closed interval of one minute, one hour or one day does a host get
      more grants than configured, whatever the interleaving of requests and results. */
  lemma RateLimit(u: Setup, ops: seq<Op>, h: Host, p: Period, from: Tp, to: Tp)
    requires Steady(u.reading) && LimitOf(u.limits, p) >= 1
    requires to - from <= (match p case Minute => 60 case Hour => 3600 case Day => 86400) * 1_000_000_000
    ensures
      var times := GrantTimes(Run(u, ops).log, h, p);
      |set i | 0 <= i < |times| && from <= times[i] <= to| <= LimitOf(u.limits, p)
  {
    RunKeepsRate(u, ops, h, p);
    ExpiredThreshold(to, from, SecondsOf(p));
    SpacedBoundsIntervals(GrantTimes(Run(u, ops).log, h, p), LimitOf(u.limits, p), SecondsOf(p), from, to);
  }

  /** The other side of the rate limit: a known host passes its own check exactly when it has a
      free slot and, by the log, fewer grants than allowed within each window. */
  lemma HostCheckExact(u: Setup, ops: seq<Op>, h: Host)
    requires Steady(u.reading) && h in Run(u, ops).freqs
    ensures
      var s := Run(u, ops);
      Check(s.freqs[h], u.limits, u.reading, s.looks).allowed <==>
      && s.freqs[h].crawling < u.limits.hostParallel
      && |Live(GrantTimes(s.log, h, Minute), Look(u.reading, s.looks), MINUTE_SECS)| < u.limits.hostMinute
      && |Live(GrantTimes(s.log, h, Hour), Look(u.reading, s.looks + 1), HOUR_SECS)| < u.limits.hostHour
      && |Live(GrantTimes(s.log, h, Day), Look(u.reading, s.looks + 2), DAY_SECS)| < u.limits.hostDay
  {
    hide Check, Live, Recent, GrantTimes, Run;
    var s := Run(u, ops);
    WindowIsLive(u, ops, h, Minute);
    WindowIsLive(u, ops, h, Hour);
    WindowIsLive(u, ops, h, Day);
    CheckBySizes(s.freqs[h], u, s.looks);
  }

  lemma CheckBySizes(f: FreqState, u: Setup, looks: nat)
    ensures
      Check(f, u.limits, u.reading, looks).allowed <==>
      && f.crawling < u.limits.hostParallel
      && |Recent(f.min, Look(u.reading, looks), MINUTE_SECS)| < u.limits.hostMinute
      && |Recent(f.hour, Look(u.reading, looks + 1), HOUR_SECS)| < u.limits.hostHour
      && |Recent(f.day, Look(u.reading, looks + 2), DAY_SECS)| < u.limits.hostDay
  {
  }

  lemma WindowIsLive(u: Setup, ops: seq<Op>, h: Host, p: Period)
    requires Steady(u.reading)
    ensures
      var s := Run(u, ops);
      var now := Look(u.reading, LookFor(s.looks, p));
      Recent(WindowOf(FreqOf(s.freqs, h), p), now, SecondsOf(p)) == Live(GrantTimes(s.log, h, p), now, SecondsOf(p))
  {
    var s := Run(u, ops);
    RunKeepsRate(u, ops, h, p);
    RecentIsLive(WindowOf(FreqOf(s.freqs, h), p), GrantTimes(s.log, h, p), Look(u.reading, s.looks),
      Look(u.reading, LookFor(s.looks, p)), SecondsOf(p));
  }
}
