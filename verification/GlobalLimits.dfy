/** What the limiter of the whole system guarantees over runs, and what it does not: hosts that have
    no limiter yet are granted without asking it. */
module GlobalLimits {
  import opened Clock
  import opened Types
  import opened SlidingWindows
  import opened HostFrequency
  import opened HostDatabase
  import opened HostDbRuns

  // ---------------------------------------------------------------- the windows

  /** The times of all grants, as the global window of that period saw them. */
  function AllTimes(log: seq<Event>, p: Period): seq<Tp> {
    if log == [] then []
    else
      var e := log[|log| - 1];
      AllTimes(log[..|log| - 1], p) + if e.Granted? then [TimeOf(e.global, p)] else []
  }

  /** For each grant, whether it went to a host without a limiter. */
  function NewHosts(log: seq<Event>): seq<bool> {
    if log == [] then []
    else NewHosts(log[..|log| - 1]) + if log[|log| - 1].Granted? then [log[|log| - 1].newHost] else []
  }

  lemma {:induction false} SameGrants(log: seq<Event>, p: Period)
    ensures |AllTimes(log, p)| == |NewHosts(log)|
  {
    if log != [] {
      SameGrants(log[..|log| - 1], p);
    }
  }

  /** A grant to a host with a limiter comes more than a window after the `limit`-th grant before it. */
  ghost predicate SpacedUnlessNew(times: seq<Tp>, isNew: seq<bool>, limit: Cnt, window: nat) {
    && |times| == |isNew|
    && forall i, j :: 0 <= i < |times| && 0 <= j < |times| && i + limit <= j && !isNew[j] ==>
      Expired(times[j], times[i], window)
  }

  ghost predicate GlobalKept(s: HostState, u: Setup, p: Period) {
    var times := AllTimes(s.log, p);
    && Tracks(WindowOf(s.global, p), times, Look(u.reading, s.looks), SecondsOf(p))
    && SpacedUnlessNew(times, NewHosts(s.log), LimitOf(u.limits, p), SecondsOf(p))
  }

  lemma GlobalLater(s: HostState, s1: HostState, u: Setup, p: Period)
    requires Steady(u.reading) && GlobalKept(s, u, p)
    requires s1.global == s.global && s1.log == s.log && s1.looks >= s.looks
    ensures GlobalKept(s1, u, p)
  {
    TracksLater(WindowOf(s.global, p), AllTimes(s.log, p), Look(u.reading, s.looks), Look(u.reading, s1.looks),
      SecondsOf(p));
  }

  lemma FreqVerdictKeepsGlobal(s: HostState, u: Setup, h: Host, p: Period)
    requires Steady(u.reading) && GlobalKept(s, u, p)
    ensures
      var (free, s1) := FreqVerdict(s, u.limits, u.reading, h);
      && GlobalKept(s1, u, p)
      && (free && h in s1.freqs ==> |WindowOf(s1.global, p)| < LimitOf(u.limits, p))
  {
    hide Check, Tracks, SpacedUnlessNew, WindowOf;
    if h in s.freqs {
      var c := Check(s.freqs[h], u.limits, u.reading, s.looks);
      LooksAdvance(s.freqs[h], u, s.looks);
      GlobalLater(s, s.(freqs := s.freqs[h := c.state], looks := c.looks), u, p);
      CheckTracks(s.global, u, c.looks, p, AllTimes(s.log, p));
    }
  }

  lemma IncSpacedUnlessNew(
      q: seq<Tp>, times: seq<Tp>, isNew: seq<bool>, last: Tp, now: Tp, window: nat, limit: Cnt, another: bool)
    requires Tracks(q, times, last, window) && last <= now
    requires SpacedUnlessNew(times, isNew, limit, window) && (another || |q| < limit)
    ensures SpacedUnlessNew(times + [now], isNew + [another], limit, window)
  {
    var times', isNew' := times + [now], isNew + [another];
    forall i, j | 0 <= i < |times'| && 0 <= j < |times'| && i + limit <= j && !isNew'[j]
      ensures Expired(times'[j], times'[i], window)
    {
      if j == |times| {
        assert i < |times| - |q|;
        ExpiredMonotone(last, times[i], window, now, times[i], window);
      }
    }
  }

  lemma AllTimesStep(log: seq<Event>, e: Event, p: Period)
    requires e.Granted?
    ensures AllTimes(log + [e], p) == AllTimes(log, p) + [TimeOf(e.global, p)]
    ensures NewHosts(log + [e]) == NewHosts(log) + [e.newHost]
  {
    assert (log + [e])[..|log|] == log;
  }

  /** One more grant, seen by the queue of one window. */
  lemma QueueAfterGrant(
      q: seq<Tp>, times: seq<Tp>, isNew: seq<bool>, last: Tp, now: Tp, later: Tp, window: nat, limit: Cnt,
      another: bool)
    requires Tracks(q, times, last, window) && last <= now <= later
    requires SpacedUnlessNew(times, isNew, limit, window) && (another || |q| < limit)
    ensures Tracks(Counted(q, now, window), times + [now], later, window)
    ensures SpacedUnlessNew(times + [now], isNew + [another], limit, window)
  {
    hide Tracks, SpacedUnlessNew;
    IncTracks(q, times, last, now, window);
    IncSpacedUnlessNew(q, times, isNew, last, now, window, limit, another);
    TracksLater(Counted(q, now, window), times + [now], now, later, window);
  }

  lemma GrantKeepsGlobal(s: HostState, u: Setup, url: Url, h: Host, p: Period)
    requires Steady(u.reading) && GlobalKept(s, u, p)
    requires h in s.freqs ==> |WindowOf(s.global, p)| < LimitOf(u.limits, p)
    ensures GlobalKept(SetCrawling(s, u.reading, url, h), u, p)
  {
    hide Tracks, SpacedUnlessNew, Started, WindowOf, Counted, AllTimes, NewHosts;
    var now := Look(u.reading, LookFor(s.looks + 3, p));
    AllTimesStep(s.log, GrantEvent(s, u.reading, url, h), p);
    StartedWindow(s.global, u, s.looks + 3, p);
    QueueAfterGrant(
      WindowOf(s.global, p), AllTimes(s.log, p), NewHosts(s.log), Look(u.reading, s.looks), now,
      Look(u.reading, s.looks + 6), SecondsOf(p), LimitOf(u.limits, p), h !in s.freqs);
  }

  lemma TryOneKeepsGlobal(s: HostState, u: Setup, url: Url, p: Period)
    requires Steady(u.reading) && GlobalKept(s, u, p)
    ensures GlobalKept(TryOne(s, u.limits, u.web, u.reading, url).1, u, p)
  {
    if u.web.ok(url) && Permits(u.web, s.robots, url) {
      var h := u.web.host(url);
      var (free, s1) := FreqVerdict(s, u.limits, u.reading, h);
      FreqVerdictKeepsGlobal(s, u, h, p);
      if free {
        GrantKeepsGlobal(s1, u, url, h, p);
      }
    }
  }

  lemma FetchedIsNoGrant(log: seq<Event>, e: Event, p: Period)
    requires e.Fetched?
    ensures AllTimes(log + [e], p) == AllTimes(log, p) && NewHosts(log + [e]) == NewHosts(log)
  {
    assert (log + [e])[..|log|] == log;
  }

  lemma FinishedWindow(f: FreqState, p: Period)
    ensures WindowOf(Finished(f), p) == WindowOf(f, p)
  {
  }

  lemma OneFetchedKeepsGlobal(s: HostState, u: Setup, r: FetchResult, p: Period)
    requires GlobalKept(s, u, p)
    ensures GlobalKept(OnOneFetched(s, u.web, r), u, p)
  {
    hide Tracks, SpacedUnlessNew, Finished, WindowOf, AllTimes, NewHosts;
    if u.web.ok(r.gfq.url) {
      FetchedIsNoGrant(s.log, Fetched(r, u.web.host(r.gfq.url)), p);
      FinishedWindow(s.global, p);
    }
  }

  lemma InitKeepsGlobal(u: Setup, p: Period)
    ensures GlobalKept(InitState(u), u, p)
  {
  }

  lemma {:induction false} UrlsKeepGlobal(u: Setup, steps: seq<UrlStep>, p: Period)
    requires Steady(u.reading)
    ensures GlobalKept(UrlsFrom(InitState(u), u, steps), u, p)
  {
    hide GlobalKept, TryOne, OnOneFetched;
    if steps == [] {
      InitKeepsGlobal(u, p);
    } else {
      var n := |steps| - 1;
      var s := UrlsFrom(InitState(u), u, steps[..n]);
      UrlsKeepGlobal(u, steps[..n], p);
      match steps[n]
      case TryUrl(url) => TryOneKeepsGlobal(s, u, url, p);
      case Result(r) => OneFetchedKeepsGlobal(s, u, r, p);
    }
  }

  lemma RunKeepsGlobal(u: Setup, ops: seq<Op>, p: Period)
    requires Steady(u.reading)
    ensures GlobalKept(Run(u, ops), u, p)
  {
    hide GlobalKept;
    RunIsUrlRun(u, ops);
    UrlsKeepGlobal(u, AllUrlSteps(ops), p);
  }

  ghost function HitsIn(times: seq<Tp>, from: Tp, to: Tp): set<int> {
    set i | 0 <= i < |times| && from <= times[i] <= to
  }

  /** In any closed interval of a minute, an hour or a day, all grants of a run together number at
      most the limit, plus the grants to hosts that were new at that moment. */
  lemma GlobalRateLimit(u: Setup, ops: seq<Op>, p: Period, from: Tp, to: Tp)
    requires Steady(u.reading)
    requires to - from <= (match p case Minute => 60 case Hour => 3600 case Day => 86400) * 1_000_000_000
    ensures
      var times, isNew := AllTimes(Run(u, ops).log, p), NewHosts(Run(u, ops).log);
      && |times| == |isNew|
      && |HitsIn(times, from, to)| <=
         Max(0, LimitOf(u.limits, p)) + |set i | i in HitsIn(times, from, to) && isNew[i]|
  {
    RunKeepsGlobal(u, ops, p);
    ExpiredThreshold(to, from, SecondsOf(p));
    SpacedUnlessNewBounds(
      AllTimes(Run(u, ops).log, p), NewHosts(Run(u, ops).log), LimitOf(u.limits, p), SecondsOf(p), from, to);
  }

  lemma SpacedUnlessNewBounds(times: seq<Tp>, isNew: seq<bool>, limit: Cnt, window: nat, from: Tp, to: Tp)
    requires Ordered(times) && SpacedUnlessNew(times, isNew, limit, window)
    requires !Expired(to, from, window)
    ensures |HitsIn(times, from, to)| <= Max(0, limit) + |set i | i in HitsIn(times, from, to) && isNew[i]|
  {
    var hits := HitsIn(times, from, to);
    var unchecked := set i | i in hits && isNew[i];
    if hits != {} {
      var first := FirstHit(times, from, to);
      forall i | i in hits - unchecked
        ensures first <= i < first + Max(0, limit)
      {
        InsideNotExpired(times[first], times[i], from, to, window);
        InsideNotExpired(times[i], times[i], from, to, window);
      }
      RangeCardinality(hits - unchecked, (i: int) => i, first, Max(0, limit));
      assert hits == (hits - unchecked) + unchecked;
    }
  }

  // ---------------------------------------------------------------- requests in flight

  /** With the global limiter full, a url passes if and only if its host has no limiter yet, and
      robots rules do not stop it. */
  lemma FullLimiterPassesNewHosts(s: HostState, u: Setup, url: Url)
    requires s.global.crawling >= u.limits.hostParallel
    ensures
      TryOne(s, u.limits, u.web, u.reading, url).0 == ALLOW <==>
      u.web.ok(url) && Permits(u.web, s.robots, url) && u.web.host(url) !in s.freqs
  {
    var h := u.web.host(url);
    if h in s.freqs {
      var s1 := s.(freqs := s.freqs[h := Check(s.freqs[h], u.limits, u.reading, s.looks).state]);
      assert s1.global == s.global;
    }
  }

  /** One request takes the number in flight past the limit exactly when the limit is reached and
      the url's host has no limiter yet; otherwise a number within the limit stays within it. */
  lemma LimitPassedIff(s: HostState, u: Setup, url: Url)
    requires s.global.crawling <= u.limits.hostParallel
    ensures
      TryOne(s, u.limits, u.web, u.reading, url).1.global.crawling > u.limits.hostParallel <==>
      && s.global.crawling == u.limits.hostParallel
      && u.web.ok(url) && Permits(u.web, s.robots, url) && u.web.host(url) !in s.freqs
  {
    if s.global.crawling == u.limits.hostParallel {
      FullLimiterPassesNewHosts(s, u, url);
    }
  }

  /** The step lets a new host through while the global limiter is full. */
  predicate PassesFullLimiter(s: HostState, u: Setup, step: UrlStep) {
    && step.TryUrl?
    && s.global.crawling >= u.limits.hostParallel
    && u.web.ok(step.url) && Permits(u.web, s.robots, step.url) && u.web.host(step.url) !in s.freqs
  }

  lemma StepKeepsLimitIff(s: HostState, u: Setup, step: UrlStep)
    requires s.global.crawling <= u.limits.hostParallel
    ensures StepUrl(s, u, step).global.crawling <= u.limits.hostParallel <==> !PassesFullLimiter(s, u, step)
  {
    if step.TryUrl? {
      LimitPassedIff(s, u, step.url);
    }
  }

  /** Over every run: the number in flight stays within the global limit, after every single url, if
      and only if no new host is let through while the limiter is full. */
  lemma {:induction false} LimitKeptIff(u: Setup, steps: seq<UrlStep>)
    requires u.limits.hostParallel >= 0
    ensures
      (forall n :: 0 <= n <= |steps| ==>
        UrlsFrom(InitState(u), u, steps[..n]).global.crawling <= u.limits.hostParallel) <==>
      (forall n :: 0 <= n < |steps| ==> !PassesFullLimiter(UrlsFrom(InitState(u), u, steps[..n]), u, steps[n]))
  {
    if forall n :: 0 <= n < |steps| ==> !PassesFullLimiter(UrlsFrom(InitState(u), u, steps[..n]), u, steps[n]) {
      forall n | 0 <= n <= |steps|
        ensures UrlsFrom(InitState(u), u, steps[..n]).global.crawling <= u.limits.hostParallel
      {
        UnpassedKeepsLimit(u, steps, n);
      }
    }
    if forall n :: 0 <= n <= |steps| ==>
         UrlsFrom(InitState(u), u, steps[..n]).global.crawling <= u.limits.hostParallel {
      forall n | 0 <= n < |steps|
        ensures !PassesFullLimiter(UrlsFrom(InitState(u), u, steps[..n]), u, steps[n])
      {
        assert steps[..n + 1][..n] == steps[..n];
        StepKeepsLimitIff(UrlsFrom(InitState(u), u, steps[..n]), u, steps[n]);
        assert UrlsFrom(InitState(u), u, steps[..n + 1]).global.crawling <= u.limits.hostParallel;
      }
    }
  }

  lemma {:induction false} UnpassedKeepsLimit(u: Setup, steps: seq<UrlStep>, n: nat)
    requires u.limits.hostParallel >= 0 && n <= |steps|
    requires forall i :: 0 <= i < |steps| ==> !PassesFullLimiter(UrlsFrom(InitState(u), u, steps[..i]), u, steps[i])
    ensures UrlsFrom(InitState(u), u, steps[..n]).global.crawling <= u.limits.hostParallel
  {
    if n > 0 {
      UnpassedKeepsLimit(u, steps, n - 1);
      assert steps[..n][..n - 1] == steps[..n - 1];
      StepKeepsLimitIff(UrlsFrom(InitState(u), u, steps[..n - 1]), u, steps[n - 1]);
    }
  }

  /** Urls of hosts that have never been seen, each its own, which robots rules let through. */
  ghost predicate AllNew(u: Setup, urls: seq<Url>) {
    && (forall i :: 0 <= i < |urls| ==> u.web.ok(urls[i]) && Permits(u.web, u.stored, urls[i]))
    && (forall i, j :: 0 <= i < j < |urls| ==> u.web.host(urls[i]) != u.web.host(urls[j]))
  }

  /** What is known after granting to the hosts of `urls`, all new. */
  ghost predicate AllStarted(s: HostState, u: Setup, urls: seq<Url>) {
    && s.global.crawling == |urls| && s.robots == u.stored
    && (forall h :: h in s.freqs ==> exists i :: 0 <= i < |urls| && u.web.host(urls[i]) == h)
  }

  lemma OneMoreStarts(s: HostState, u: Setup, urls: seq<Url>, url: Url)
    requires AllStarted(s, u, urls) && AllNew(u, urls + [url])
    ensures
      var (d, s1) := TryOne(s, u.limits, u.web, u.reading, url);
      d == ALLOW && AllStarted(s1, u, urls + [url])
  {
    var all := urls + [url];
    var n := |urls|;
    assert all[n] == url;
    forall i | 0 <= i < n ensures u.web.host(urls[i]) != u.web.host(url) {
      assert all[i] == urls[i];
    }
    assert u.web.host(url) !in s.freqs;
    var s1 := TryOne(s, u.limits, u.web, u.reading, url).1;
    forall h | h in s1.freqs ensures exists i :: 0 <= i < |all| && u.web.host(all[i]) == h {
      if h in s.freqs {
        var i :| 0 <= i < n && u.web.host(urls[i]) == h;
        assert all[i] == urls[i];
      } else {
        assert u.web.host(all[n]) == h;
      }
    }
  }

  lemma NothingStarted(u: Setup)
    ensures TryAll(InitState(u), u.limits, u.web, u.reading, []) == ([], InitState(u))
    ensures AllStarted(InitState(u), u, [])
  {
  }

  lemma FirstAreNew(u: Setup, urls: seq<Url>)
    requires AllNew(u, urls) && urls != []
    ensures AllNew(u, urls[..|urls| - 1])
  {
  }

  lemma {:induction false} NewHostsStart(u: Setup, urls: seq<Url>)
    requires AllNew(u, urls)
    ensures
      var (ds, s) := TryAll(InitState(u), u.limits, u.web, u.reading, urls);
      ds == seq(|urls|, _ => ALLOW) && AllStarted(s, u, urls)
  {
    hide AllStarted, TryOne, AllNew, TryAll;
    if urls == [] {
      NothingStarted(u);
    } else {
      var n := |urls| - 1;
      FirstAreNew(u, urls);
      NewHostsStart(u, urls[..n]);
      assert urls == urls[..n] + [urls[n]];
      TryAllStep(InitState(u), u.limits, u.web, u.reading, urls[..n], urls[n]);
      OneMoreStarts(TryAll(InitState(u), u.limits, u.web, u.reading, urls[..n]).1, u, urls[..n], urls[n]);
    }
  }

  /** However low the limits, the first request gets as many urls in flight as it names new hosts. */
  lemma NoBoundOnNewHosts(u: Setup, records: seq<GFQRecord>)
    requires AllNew(u, RecordUrls(records))
    ensures Run(u, [Try(records)]).global.crawling == |records|
  {
    NewHostsStart(u, RecordUrls(records));
    assert [Try(records)][..0] == [];
    assert Run(u, [Try(records)]) == StepOp(Run(u, []), u, Try(records));
  }

  /** The smallest case: a parallel limit of one, and two in flight. */
  lemma TwoInFlightUnderLimitOne(u: Setup, a: GFQRecord, b: GFQRecord)
    requires u.limits.hostParallel == 1
    requires u.web.ok(a.url) && u.web.ok(b.url) && u.web.host(a.url) != u.web.host(b.url)
    requires Permits(u.web, u.stored, a.url) && Permits(u.web, u.stored, b.url)
    ensures Run(u, [Try([a, b])]).global.crawling == 2 > u.limits.hostParallel
  {
    NoBoundOnNewHosts(u, [a, b]);
  }
}
