/** Whole-run guarantees about requests in flight and about the robots gate. */
module HostDbCounters {
  import opened Types
  import opened SlidingWindows
  import opened HostFrequency
  import opened HostDatabase
  import opened HostDbRuns

  // ---------------------------------------------------------------- requests in flight

  ghost function Pick(hosts: set<Host>): Host
    requires hosts != {}
  {
    var h :| h in hosts; h
  }

  ghost function CrawlingOver(hosts: set<Host>, freqs: map<Host, FreqState>): Cnt
    decreases |hosts|
  {
    if hosts == {} then 0
    else FreqOf(freqs, Pick(hosts)).crawling + CrawlingOver(hosts - {Pick(hosts)}, freqs)
  }

  ghost function TotalCrawling(freqs: map<Host, FreqState>): Cnt {
    CrawlingOver(freqs.Keys, freqs)
  }

  /** Any host can be counted first. */
  lemma {:induction false} CountFirst(hosts: set<Host>, freqs: map<Host, FreqState>, h: Host)
    requires h in hosts
    ensures CrawlingOver(hosts, freqs) == FreqOf(freqs, h).crawling + CrawlingOver(hosts - {h}, freqs)
    decreases |hosts|
  {
    hide FreqOf;
    var g := Pick(hosts);
    if g != h {
      CountFirst(hosts - {g}, freqs, h);
      CountFirst(hosts - {h}, freqs, g);
      assert hosts - {g} - {h} == hosts - {h} - {g};
    }
  }

  lemma {:induction false} SameCounts(hosts: set<Host>, a: map<Host, FreqState>, b: map<Host, FreqState>)
    requires forall h :: h in hosts ==> FreqOf(a, h) == FreqOf(b, h)
    ensures CrawlingOver(hosts, a) == CrawlingOver(hosts, b)
    decreases |hosts|
  {
    hide FreqOf;
    if hosts != {} {
      SameCounts(hosts - {Pick(hosts)}, a, b);
    }
  }

  lemma TotalUpdate(freqs: map<Host, FreqState>, h: Host, f: FreqState)
    ensures TotalCrawling(freqs[h := f]) == TotalCrawling(freqs) - FreqOf(freqs, h).crawling + f.crawling
  {
    hide CrawlingOver;
    var after, others := freqs[h := f], freqs.Keys - {h};
    assert after.Keys - {h} == others;
    CountFirst(after.Keys, after, h);
    SameCounts(others, after, freqs);
    if h in freqs {
      CountFirst(freqs.Keys, freqs, h);
    } else {
      assert others == freqs.Keys;
    }
  }

  lemma {:induction false} CountAtLeast(hosts: set<Host>, freqs: map<Host, FreqState>, h: Host)
    requires forall g :: g in hosts ==> FreqOf(freqs, g).crawling >= 0
    ensures CrawlingOver(hosts, freqs) >= 0
    ensures h in hosts ==> CrawlingOver(hosts, freqs) >= FreqOf(freqs, h).crawling
    decreases |hosts|
  {
    hide FreqOf;
    if hosts != {} {
      CountAtLeast(hosts - {Pick(hosts)}, freqs, h);
    }
  }

  lemma TotalAtLeast(freqs: map<Host, FreqState>, h: Host)
    requires forall g :: g in freqs ==> freqs[g].crawling >= 0
    ensures TotalCrawling(freqs) >= FreqOf(freqs, h).crawling
  {
    CountAtLeast(freqs.Keys, freqs, h);
  }

  /** Grants minus results of a host. */
  function Balance(log: seq<Event>, h: Host): Cnt {
    if log == [] then 0
    else
      var e := log[|log| - 1];
      Balance(log[..|log| - 1], h) + if e.host != h then 0 else if e.Granted? then 1 else -1
  }

  /** At no point have more results come in for a host than requests were granted. */
  ghost predicate Matched(log: seq<Event>) {
    forall k, h :: 0 <= k <= |log| ==> Balance(log[..k], h) >= 0
  }

  ghost predicate InFlightBounded(s: HostState, l: CrawlLimits) {
    && (forall h :: h in s.freqs ==> 0 <= s.freqs[h].crawling <= Max(1, l.hostParallel))
    && 0 <= s.global.crawling <= TotalCrawling(s.freqs)
    && (l.hostParallel >= 0 ==> s.global.crawling <= l.hostParallel + |s.freqs|)
  }

  ghost predicate InFlightExact(s: HostState) {
    && (forall h :: FreqOf(s.freqs, h).crawling == Balance(s.log, h))
    && s.global.crawling == TotalCrawling(s.freqs)
  }

  ghost predicate CountersKept(s: HostState, l: CrawlLimits) {
    && InFlightBounded(s, l)
    && (Matched(s.log) ==> InFlightExact(s))
  }

  lemma FreqVerdictKeepsCounters(s: HostState, u: Setup, h: Host)
    requires CountersKept(s, u.limits)
    ensures
      var (free, s1) := FreqVerdict(s, u.limits, u.reading, h);
      && CountersKept(s1, u.limits)
      && s1.log == s.log && s1.robots == s.robots
      && (free && h in s1.freqs ==>
        s1.freqs[h].crawling < u.limits.hostParallel && s1.global.crawling < u.limits.hostParallel)
  {
    hide InFlightExact, Matched, TotalCrawling, Recent;
    if h in s.freqs {
      var c := Check(s.freqs[h], u.limits, u.reading, s.looks);
      WindowsDoNotCount(s, FreqVerdict(s, u.limits, u.reading, h).1, u.limits, h, c.state);
    }
  }

  lemma WindowsDoNotCount(s: HostState, s1: HostState, l: CrawlLimits, h: Host, f: FreqState)
    requires CountersKept(s, l) && h in s.freqs
    requires f.crawling == s.freqs[h].crawling && s1.freqs == s.freqs[h := f]
    requires s1.global.crawling == s.global.crawling && s1.log == s.log
    ensures CountersKept(s1, l)
  {
    hide TotalCrawling, Matched;
    TotalUpdate(s.freqs, h, f);
    NewHostCount(s.freqs, h, f);
  }

  lemma BalanceStep(log: seq<Event>, e: Event, h: Host)
    ensures Balance(log + [e], h) == Balance(log, h) + if e.host != h then 0 else if e.Granted? then 1 else -1
  {
    assert (log + [e])[..|log|] == log;
  }

  lemma MatchedPrefix(log: seq<Event>, e: Event)
    requires Matched(log + [e])
    ensures Matched(log) && forall h :: Balance(log + [e], h) >= 0
  {
    forall k, h | 0 <= k <= |log| ensures Balance(log[..k], h) >= 0 {
      assert (log + [e])[..k] == log[..k];
    }
    assert (log + [e])[..|log + [e]|] == log + [e];
  }

  lemma NewHostCount(freqs: map<Host, FreqState>, h: Host, f: FreqState)
    ensures |freqs[h := f]| == if h in freqs then |freqs| else |freqs| + 1
  {
    assert freqs[h := f].Keys == freqs.Keys + {h};
  }

  lemma ChangeKeepsCounters(s: HostState, s1: HostState, l: CrawlLimits, e: Event, f: FreqState)
    requires CountersKept(s, l)
    requires s1.freqs == s.freqs[e.host := f] && s1.log == s.log + [e]
    requires
      var c := FreqOf(s.freqs, e.host).crawling;
      if e.Granted? then
        && f.crawling == c + 1
        && s1.global.crawling == s.global.crawling + 1
        && (e.host in s.freqs ==> c < l.hostParallel && s.global.crawling < l.hostParallel)
      else
        && f.crawling == Max(0, c - 1)
        && s1.global.crawling == Max(0, s.global.crawling - 1)
    ensures CountersKept(s1, l)
  {
    hide TotalCrawling, Balance, Matched;
    TotalUpdate(s.freqs, e.host, f);
    TotalAtLeast(s.freqs, e.host);
    NewHostCount(s.freqs, e.host, f);
    if Matched(s1.log) {
      MatchedPrefix(s.log, e);
      forall h ensures FreqOf(s1.freqs, h).crawling == Balance(s1.log, h) {
        BalanceStep(s.log, e, h);
        assert Balance(s1.log, h) >= 0;
      }
      BalanceStep(s.log, e, e.host);
      assert Balance(s1.log, e.host) >= 0;
    }
  }

  lemma TryOneKeepsCounters(s: HostState, u: Setup, url: Url)
    requires CountersKept(s, u.limits)
    ensures CountersKept(TryOne(s, u.limits, u.web, u.reading, url).1, u.limits)
  {
    if u.web.ok(url) && Permits(u.web, s.robots, url) {
      var h := u.web.host(url);
      var (free, s1) := FreqVerdict(s, u.limits, u.reading, h);
      FreqVerdictKeepsCounters(s, u, h);
      if free {
        ChangeKeepsCounters(s1, SetCrawling(s1, u.reading, url, h), u.limits, GrantEvent(s1, u.reading, url, h),
                            Started(FreqOf(s1.freqs, h), u.reading, s1.looks));
      }
    }
  }

  lemma OneFetchedKeepsCounters(s: HostState, u: Setup, r: FetchResult)
    requires CountersKept(s, u.limits)
    ensures CountersKept(OnOneFetched(s, u.web, r), u.limits)
  {
    if u.web.ok(r.gfq.url) {
      var h := u.web.host(r.gfq.url);
      ChangeKeepsCounters(s, OnOneFetched(s, u.web, r), u.limits, Fetched(r, h), Finished(FreqOf(s.freqs, h)));
    }
  }

  lemma InitKeepsCounters(u: Setup)
    ensures CountersKept(InitState(u), u.limits)
  {
  }

  lemma {:induction false} UrlsKeepCounters(u: Setup, steps: seq<UrlStep>)
    ensures CountersKept(UrlsFrom(InitState(u), u, steps), u.limits)
  {
    hide CountersKept, TryOne, OnOneFetched;
    if steps == [] {
      InitKeepsCounters(u);
    } else {
      var n := |steps| - 1;
      var s := UrlsFrom(InitState(u), u, steps[..n]);
      UrlsKeepCounters(u, steps[..n]);
      match steps[n]
      case TryUrl(url) => TryOneKeepsCounters(s, u, url);
      case Result(r) => OneFetchedKeepsCounters(s, u, r);
    }
  }

  /** In every reachable state: a host's counter is at most `max(1, parallel limit)`; the global
      counter never exceeds the sum of the host counters, nor the limit plus the number of hosts;
      and if every result answers an earlier grant, each counter is exactly grants minus results
      and the global one is exactly the sum. */
  lemma InFlightAccounting(u: Setup, ops: seq<Op>)
    ensures CountersKept(Run(u, ops), u.limits)
  {
    hide CountersKept;
    RunIsUrlRun(u, ops);
    UrlsKeepCounters(u, AllUrlSteps(ops));
  }

  // ---------------------------------------------------------------- the robots gate

  predicate BringsRobots(web: Web, e: Event) {
    e.Fetched? && web.hasRobotsPostfix(e.result.gfq.url) && e.result.status == OK
  }

  /** Read off the log alone: the robots file of a host is the content of the latest good result for
      one, or else the file stored at the start. */
  ghost function RobotsByLog(u: Setup, log: seq<Event>, h: Host): Option<Robots> {
    if log == [] then if h in u.stored then Some(u.stored[h]) else None
    else
      var e := log[|log| - 1];
      if BringsRobots(u.web, e) && e.host == h then Some(e.result.content)
      else RobotsByLog(u, log[..|log| - 1], h)
  }

  /** The url is a robots file, or the file that the log gives for its host allows it. */
  ghost predicate PermittedByLog(u: Setup, log: seq<Event>, url: Url) {
    u.web.isRobots(url) ||
      var file := RobotsByLog(u, log, u.web.host(url));
      file.Some? && u.web.allows(file.value, u.web.normalized(url))
  }

  ghost predicate GateKept(s: HostState, u: Setup) {
    && (forall h :: RobotsByLog(u, s.log, h) == if h in s.robots then Some(s.robots[h]) else None)
    && (forall i :: 0 <= i < |s.log| && s.log[i].Granted? ==>
          s.log[i].host == u.web.host(s.log[i].url) && PermittedByLog(u, s.log[..i], s.log[i].url))
  }

  lemma RobotsByLogStep(u: Setup, log: seq<Event>, e: Event, h: Host)
    ensures
      RobotsByLog(u, log + [e], h) ==
      if BringsRobots(u.web, e) && e.host == h then Some(e.result.content) else RobotsByLog(u, log, h)
  {
    assert (log + [e])[..|log|] == log;
  }

  lemma EventKeepsGate(s: HostState, s1: HostState, u: Setup, e: Event)
    requires GateKept(s, u) && s1.log == s.log + [e]
    requires s1.robots == if BringsRobots(u.web, e) then s.robots[e.host := e.result.content] else s.robots
    requires e.Granted? ==> e.host == u.web.host(e.url) && Permits(u.web, s.robots, e.url)
    ensures GateKept(s1, u)
  {
    hide BringsRobots;
    forall h ensures RobotsByLog(u, s1.log, h) == if h in s1.robots then Some(s1.robots[h]) else None {
      RobotsByLogStep(u, s.log, e, h);
    }
    hide RobotsByLog;
    forall i | 0 <= i < |s1.log| && s1.log[i].Granted?
      ensures s1.log[i].host == u.web.host(s1.log[i].url) && PermittedByLog(u, s1.log[..i], s1.log[i].url)
    {
      assert s1.log[..i] == s.log[..i];
      if i == |s.log| {
        assert s.log[..i] == s.log;
      } else {
        assert s1.log[i] == s.log[i];
      }
    }
  }

  lemma VerdictLeavesLog(s: HostState, u: Setup, h: Host)
    ensures var s1 := FreqVerdict(s, u.limits, u.reading, h).1; s1.log == s.log && s1.robots == s.robots
  {
  }

  lemma GrantKeepsGate(s: HostState, u: Setup, url: Url)
    requires GateKept(s, u) && Permits(u.web, s.robots, url)
    ensures GateKept(SetCrawling(s, u.reading, url, u.web.host(url)), u)
  {
    hide GateKept, Started, StampAt, Permits;
    var h := u.web.host(url);
    EventKeepsGate(s, SetCrawling(s, u.reading, url, h), u, GrantEvent(s, u.reading, url, h));
  }

  lemma TryOneKeepsGate(s: HostState, u: Setup, url: Url)
    requires GateKept(s, u)
    ensures GateKept(TryOne(s, u.limits, u.web, u.reading, url).1, u)
  {
    hide FreqVerdict, SetCrawling, RobotsByLog;
    if u.web.ok(url) && Permits(u.web, s.robots, url) {
      var (free, s1) := FreqVerdict(s, u.limits, u.reading, u.web.host(url));
      VerdictLeavesLog(s, u, u.web.host(url));
      if free {
        GrantKeepsGate(s1, u, url);
      }
    }
  }

  lemma OneFetchedKeepsGate(s: HostState, u: Setup, r: FetchResult)
    requires GateKept(s, u)
    ensures GateKept(OnOneFetched(s, u.web, r), u)
  {
    hide GateKept;
    if u.web.ok(r.gfq.url) {
      EventKeepsGate(s, OnOneFetched(s, u.web, r), u, Fetched(r, u.web.host(r.gfq.url)));
    }
  }

  lemma {:induction false} UrlsKeepGate(u: Setup, steps: seq<UrlStep>)
    ensures GateKept(UrlsFrom(InitState(u), u, steps), u)
  {
    hide TryOne, OnOneFetched;
    if steps != [] {
      hide GateKept;
      var n := |steps| - 1;
      var s := UrlsFrom(InitState(u), u, steps[..n]);
      UrlsKeepGate(u, steps[..n]);
      match steps[n]
      case TryUrl(url) => TryOneKeepsGate(s, u, url);
      case Result(r) => OneFetchedKeepsGate(s, u, r);
    }
  }

  /** Over every run, each page is granted under the robots file that the log alone gives for its
      host at that moment, and the stored files are exactly the ones that the log gives. */
  lemma RobotsGate(u: Setup, ops: seq<Op>)
    ensures GateKept(Run(u, ops), u)
  {
    hide GateKept;
    RunIsUrlRun(u, ops);
    UrlsKeepGate(u, AllUrlSteps(ops));
  }

  /** What the robots rules refuse in any reachable state, by the log: a page without a file is sent
      off for it, and a page is refused exactly when there is a file that does not allow it. */
  lemma RobotsDecisions(u: Setup, ops: seq<Op>, url: Url)
    ensures
      var s := Run(u, ops);
      var file := RobotsByLog(u, s.log, u.web.host(url));
      var d := TryOne(s, u.limits, u.web, u.reading, url).0;
      && (d == DISALLOW_URL_PARSING <==> !u.web.ok(url))
      && (d == DISALLOW_NEED_ROBOTS <==> u.web.ok(url) && !u.web.isRobots(url) && file == None)
      && (d == DISALLOW_BY_ROBOTS <==>
          u.web.ok(url) && !u.web.isRobots(url) && file.Some? && !u.web.allows(file.value, u.web.normalized(url)))
  {
    hide RobotsByLog;
    RobotsGate(u, ops);
  }

  /** How a list of counted urls is split in any reachable state, by the log: pages that the files allow,
      in normal form, and files that are missing. */
  lemma SplitFollowsLog(u: Setup, ops: seq<Op>, urls: seq<UrlFreq>, e: UrlFreq)
    ensures
      var s := Run(u, ops);
      e in PagesPassing(u.web, s.robots, urls) <==>
      exists x :: x in urls && u.web.ok(x.url) && PermittedByLog(u, s.log, x.url) &&
        e == UrlFreq(u.web.normalized(x.url), x.cnt)
    ensures
      var s := Run(u, ops);
      e in RobotsNeeded(u.web, s.robots, urls) <==>
      exists x :: x in urls && u.web.ok(x.url) && !u.web.isRobots(x.url) &&
        RobotsByLog(u, s.log, u.web.host(x.url)) == None && e == UrlFreq(u.web.robots(x.url), x.cnt)
  {
    hide Run, RobotsByLog, PagesPassing, RobotsNeeded;
    var s := Run(u, ops);
    RobotsGate(u, ops);
    AllowedMembers(u.web, s.robots, urls, e);
    NeededMembers(u.web, s.robots, urls, e);
  }

  // ---------------------------------------------------------------- the shape of an answer

  /** The `i`-th decision is the one for the `i`-th url, taken in the state left by those before. */
  lemma {:induction false} DecisionsAlign(s: HostState, u: Setup, urls: seq<Url>, i: nat)
    requires i < |urls|
    ensures |TryAll(s, u.limits, u.web, u.reading, urls).0| == |urls|
    ensures
      TryAll(s, u.limits, u.web, u.reading, urls).0[i] ==
      TryOne(TryAll(s, u.limits, u.web, u.reading, urls[..i]).1, u.limits, u.web, u.reading, urls[i]).0
  {
    hide *;
    var n := |urls| - 1;
    DecisionCount(s, u, urls[..n]);
    LastDecision(s, u, urls);
    if i < n {
      DecisionsAlign(s, u, urls[..n], i);
      assert urls[..n][..i] == urls[..i];
    }
  }

  lemma LastDecision(s: HostState, u: Setup, urls: seq<Url>)
    requires urls != []
    ensures
      var n := |urls| - 1;
      var (ds, s1) := TryAll(s, u.limits, u.web, u.reading, urls[..n]);
      TryAll(s, u.limits, u.web, u.reading, urls).0 == ds + [TryOne(s1, u.limits, u.web, u.reading, urls[n]).0]
  {
  }

  lemma {:induction false} DecisionCount(s: HostState, u: Setup, urls: seq<Url>)
    ensures |TryAll(s, u.limits, u.web, u.reading, urls).0| == |urls|
  {
    if urls != [] {
      DecisionCount(s, u, urls[..|urls| - 1]);
      LastDecision(s, u, urls);
    }
  }

  /** The number of allowed records up to a position is the place of the next one in the answer. */
  lemma {:induction false} AllowedIsSubsequence(rs: seq<GFQRecord>, ds: seq<Decision>, i: nat)
    requires |rs| == |ds| && i < |rs| && ds[i] == ALLOW
    ensures
      var k := |AllowedOf(rs[..i], ds[..i])|;
      k < |AllowedOf(rs, ds)| && AllowedOf(rs, ds)[k] == rs[i]
    decreases |rs|
  {
    var n := |rs| - 1;
    if i < n {
      AllowedIsSubsequence(rs[..n], ds[..n], i);
      assert rs[..n][..i] == rs[..i] && ds[..n][..i] == ds[..i];
    }
  }
}
