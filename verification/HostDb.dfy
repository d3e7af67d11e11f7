/** Admission control: may this url be fetched right now? */
module HostDatabase {
  import opened Clock
  import opened Types
  import opened SlidingWindows
  import opened HostFrequency

  /** What the url parser and the robots matcher say; neither is part of this model. */
  datatype Web = Web(
    ok: Url -> bool,
    host: Url -> Host,
    normalized: Url -> Url,
    robots: Url -> Url,
    isRobots: Url -> bool,           // the normalized url names a robots.txt
    hasRobotsPostfix: Url -> bool,   // the url as written names a robots.txt
    allows: (Robots, Url) -> bool)

  datatype Decision = ALLOW | DISALLOW_NEED_ROBOTS | DISALLOW_BY_ROBOTS | DISALLOW_URL_PARSING | DISALLOW_FREQ

  /** The clock readings that go into the three windows of one limiter. */
  datatype Stamp = Stamp(minTp: Tp, hourTp: Tp, dayTp: Tp)

  /** What happened, in order: grants with their readings for the host and for the whole system,
      `newHost` if the host had no limiter yet, and results of fetches. */
  datatype Event =
    | Granted(url: Url, host: Host, newHost: bool, own: Stamp, global: Stamp)
    | Fetched(result: FetchResult, host: Host)

  /** Limiters, stored robots, position of the clock, and everything that happened so far. */
  datatype HostState = HostState(
    freqs: map<Host, FreqState>,
    global: FreqState,
    robots: map<Host, Robots>,
    looks: nat,
    log: seq<Event>)

  // ---------------------------------------------------------------- single decisions

  function FreqOf(freqs: map<Host, FreqState>, h: Host): FreqState {
    if h in freqs then freqs[h] else IDLE
  }

  /** Robots rules let a url through if it is a robots file itself, or if the file stored for its
      host allows its normal form. */
  predicate Permits(web: Web, robots: map<Host, Robots>, url: Url) {
    web.isRobots(url) || (web.host(url) in robots && web.allows(robots[web.host(url)], web.normalized(url)))
  }

  /** `w` may be fetched as the page `u`. */
  predicate GivesPage(web: Web, robots: map<Host, Robots>, w: Url, u: Url) {
    web.ok(w) && Permits(web, robots, w) && u == web.normalized(w)
  }

  /** No robots file is stored for the host of `w`, and `u` is the one to fetch. */
  predicate GivesFile(web: Web, robots: map<Host, Robots>, w: Url, u: Url) {
    web.ok(w) && !web.isRobots(w) && web.host(w) !in robots && u == web.robots(w)
  }

  /** Empty when the url may pass; otherwise the reason. */
  function RobotsVerdict(web: Web, robots: map<Host, Robots>, url: Url): Option<Decision> {
    if web.isRobots(url) then None
    else if web.host(url) !in robots then Some(DISALLOW_NEED_ROBOTS)
    else if web.allows(robots[web.host(url)], web.normalized(url)) then None
    else Some(DISALLOW_BY_ROBOTS)
  }

  /** A host never seen before skips every limit. */
  function FreqVerdict(s: HostState, limits: CrawlLimits, reading: nat -> Tp, h: Host): (bool, HostState) {
    if h !in s.freqs then (true, s)
    else
      var c := Check(s.freqs[h], limits, reading, s.looks);
      var s1 := s.(freqs := s.freqs[h := c.state], looks := c.looks);
      if !c.allowed then (false, s1)
      else
        var g := Check(s1.global, limits, reading, s1.looks);
        (g.allowed, s1.(global := g.state, looks := g.looks))
  }

  function StampAt(reading: nat -> Tp, looks: nat): Stamp {
    Stamp(Look(reading, looks), Look(reading, looks + 1), Look(reading, looks + 2))
  }

  function GrantEvent(s: HostState, reading: nat -> Tp, url: Url, h: Host): Event {
    Granted(url, h, h !in s.freqs, StampAt(reading, s.looks), StampAt(reading, s.looks + 3))
  }

  function SetCrawling(s: HostState, reading: nat -> Tp, url: Url, h: Host): HostState {
    HostState(s.freqs[h := Started(FreqOf(s.freqs, h), reading, s.looks)],
              Started(s.global, reading, s.looks + 3),
              s.robots,
              s.looks + 6,
              s.log + [GrantEvent(s, reading, url, h)])
  }

  function TryOne(s: HostState, limits: CrawlLimits, web: Web, reading: nat -> Tp, url: Url): (Decision, HostState) {
    if !web.ok(url) then (DISALLOW_URL_PARSING, s)
    else
      match RobotsVerdict(web, s.robots, url)
      case Some(d) => (d, s)
      case None =>
        var (free, s1) := FreqVerdict(s, limits, reading, web.host(url));
        if free then (ALLOW, SetCrawling(s1, reading, url, web.host(url))) else (DISALLOW_FREQ, s1)
  }

  function TryAll(
      s: HostState, limits: CrawlLimits, web: Web, reading: nat -> Tp, urls: seq<Url>): (seq<Decision>, HostState) {
    if urls == [] then ([], s)
    else
      var n := |urls| - 1;
      var (ds, s1) := TryAll(s, limits, web, reading, urls[..n]);
      var (d, s2) := TryOne(s1, limits, web, reading, urls[n]);
      (ds + [d], s2)
  }

  lemma TryAllStep(s: HostState, limits: CrawlLimits, web: Web, reading: nat -> Tp, urls: seq<Url>, url: Url)
    ensures
      TryAll(s, limits, web, reading, urls + [url]) ==
      var (ds, s1) := TryAll(s, limits, web, reading, urls);
      var (d, s2) := TryOne(s1, limits, web, reading, url);
      (ds + [d], s2)
  {
    assert (urls + [url])[..|urls|] == urls;
  }

  function OnOneFetched(s: HostState, web: Web, r: FetchResult): HostState {
    if !web.ok(r.gfq.url) then s
    else
      var h := web.host(r.gfq.url);
      HostState(s.freqs[h := Finished(FreqOf(s.freqs, h))],
                Finished(s.global),
                if web.hasRobotsPostfix(r.gfq.url) && r.status == OK then s.robots[h := r.content] else s.robots,
                s.looks,
                s.log + [Fetched(r, h)])
  }

  function OnAllFetched(s: HostState, web: Web, rs: seq<FetchResult>): HostState {
    if rs == [] then s else OnOneFetched(OnAllFetched(s, web, rs[..|rs| - 1]), web, rs[|rs| - 1])
  }

  function RecordUrls(rs: seq<GFQRecord>): seq<Url> {
    seq(|rs|, i requires 0 <= i < |rs| => rs[i].url)
  }

  lemma NeededFiles(web: Web, robots: map<Host, Robots>, rs: seq<GFQRecord>, ds: seq<Decision>, need: seq<Url>)
    requires |rs| == |ds| && ToSet(need) == NeedRobotsOf(web, rs, ds)
    requires forall i :: 0 <= i < |rs| ==> RobotsAnswer(web, robots, rs[i].url, ds[i])
    ensures forall u :: u in need <==> exists i :: 0 <= i < |rs| && GivesFile(web, robots, rs[i].url, u)
  {
    forall u ensures u in need <==> exists i :: 0 <= i < |rs| && GivesFile(web, robots, rs[i].url, u) {
      assert u in need <==> u in NeedRobotsOf(web, rs, ds);
      if i :| 0 <= i < |rs| && GivesFile(web, robots, rs[i].url, u) {
        assert ds[i] == DISALLOW_NEED_ROBOTS;
      }
    }
  }

  /** The log has one more entry, the grant of `url` to its host. */
  ghost predicate LogsGrant(before: seq<Event>, after: seq<Event>, web: Web, url: Url) {
    && |after| == |before| + 1
    && after[..|before|] == before
    && after[|before|].Granted? && after[|before|].url == url && after[|before|].host == web.host(url)
  }

  ghost predicate AreGrants(es: seq<Event>, web: Web, rs: seq<GFQRecord>) {
    && |es| == |rs|
    && (forall i :: 0 <= i < |rs| ==> es[i].Granted? && es[i].url == rs[i].url && es[i].host == web.host(rs[i].url))
  }

  /** The log has a grant more for each of the records, in order. */
  ghost predicate LogsGrants(before: seq<Event>, after: seq<Event>, web: Web, rs: seq<GFQRecord>) {
    |before| <= |after| && after[..|before|] == before && AreGrants(after[|before|..], web, rs)
  }

  lemma NoGrants(log: seq<Event>, web: Web)
    ensures LogsGrants(log, log, web, [])
  {
  }

  lemma OneMoreGrant(
      before: seq<Event>, log: seq<Event>, after: seq<Event>, web: Web, rs: seq<GFQRecord>, r: GFQRecord)
    requires LogsGrants(before, log, web, rs) && LogsGrant(log, after, web, r.url)
    ensures LogsGrants(before, after, web, rs + [r])
  {
    assert after == log + [after[|log|]];
    assert after[|before|..] == log[|before|..] + [after[|log|]];
  }

  /** The decisions that do not depend on frequency, in terms of the stored files. */
  predicate RobotsAnswer(web: Web, robots: map<Host, Robots>, url: Url, d: Decision) {
    var h := web.host(url);
    && (d == DISALLOW_URL_PARSING <==> !web.ok(url))
    && (d == DISALLOW_NEED_ROBOTS <==> web.ok(url) && !web.isRobots(url) && h !in robots)
    && (d == DISALLOW_BY_ROBOTS <==>
        web.ok(url) && !web.isRobots(url) && h in robots && !web.allows(robots[h], web.normalized(url)))
  }

  /** The records whose decision is to allow, in the order of the request. */
  function AllowedOf(rs: seq<GFQRecord>, ds: seq<Decision>): seq<GFQRecord>
    requires |rs| == |ds|
  {
    if rs == [] then []
    else AllowedOf(rs[..|rs| - 1], ds[..|ds| - 1]) + if ds[|ds| - 1] == ALLOW then [rs[|rs| - 1]] else []
  }

  ghost function NeedRobotsOf(web: Web, rs: seq<GFQRecord>, ds: seq<Decision>): set<Url>
    requires |rs| == |ds|
  {
    set i | 0 <= i < |rs| && ds[i] == DISALLOW_NEED_ROBOTS :: web.robots(rs[i].url)
  }

  /** The limiters live by value inside the host map: each is taken out, used as an object, and
      put back. */
  class HostDb {
    const m_limits: CrawlLimits
    const m_web: Web
    const m_clock: SystemClock
    var m_host_freq: map<Host, FreqState>
    var m_global_freq: FreqState
    var m_host_robots: map<Host, Robots>
    ghost var log: seq<Event>

    ghost function View(): HostState
      reads this, m_clock
    {
      HostState(m_host_freq, m_global_freq, m_host_robots, m_clock.looks, log)
    }

    constructor (limits: CrawlLimits, web: Web, clock: SystemClock, stored: map<Host, Robots>)
      ensures m_limits == limits && m_web == web && m_clock == clock
      ensures View() == HostState(map[], IDLE, stored, clock.looks, [])
    {
      m_limits, m_web, m_clock := limits, web, clock;
      m_host_freq, m_global_freq, m_host_robots := map[], IDLE, stored;
      log := [];
    }

    method OnFetched(results: seq<FetchResult>)
      modifies this, m_clock
      ensures View() == OnAllFetched(old(View()), m_web, results)
    {
      for i := 0 to |results|
        invariant View() == OnAllFetched(old(View()), m_web, results[..i])
      {
        assert results[..i + 1][..i] == results[..i];
        OnOneResult(results[i]);
      }
      assert results[..|results|] == results;
    }

    method OnOneResult(result: FetchResult)
      modifies this, m_clock
      ensures View() == OnOneFetched(old(View()), m_web, result)
      ensures
        log == if m_web.ok(result.gfq.url) then old(log) + [Fetched(result, m_web.host(result.gfq.url))] else old(log)
    {
      if !m_web.ok(result.gfq.url) {
        return;
      }
      var h := m_web.host(result.gfq.url);
      var f := FinishOne(FreqOf(m_host_freq, h));
      var g := FinishOne(m_global_freq);
      m_host_freq := m_host_freq[h := f];
      m_global_freq := g;
      if m_web.hasRobotsPostfix(result.gfq.url) && result.status == OK {
        m_host_robots := m_host_robots[h := result.content];
      }
      log := log + [Fetched(result, h)];
    }

    method FinishOne(f: FreqState) returns (f': FreqState)
      ensures f' == Finished(f)
    {
      var limiter := new HostFreq(f);
      limiter.DecCrawling();
      f' := limiter.View();
    }

    /** The decisions line up with the request; the allowed records are the `ALLOW` subsequence;
        the robots files to fetch are collected without duplicates. */
    method TryCrawl(records: seq<GFQRecord>) returns (decisions: seq<Decision>, allowed: seq<GFQRecord>, need: seq<Url>)
      modifies this, m_clock
      ensures (decisions, View()) == TryAll(old(View()), m_limits, m_web, m_clock.reading, RecordUrls(records))
      ensures |decisions| == |records|
      ensures allowed == AllowedOf(records, decisions)
      ensures NoDup(need) && ToSet(need) == NeedRobotsOf(m_web, records, decisions)
      ensures m_host_robots == old(m_host_robots)
      ensures forall i :: 0 <= i < |records| ==> RobotsAnswer(m_web, m_host_robots, records[i].url, decisions[i])
      ensures LogsGrants(old(log), log, m_web, allowed)
      ensures forall u ::
        u in need <==> exists i :: 0 <= i < |records| && GivesFile(m_web, m_host_robots, records[i].url, u)
    {
      hide TryOne, TryAll, NeedRobotsOf, AllowedOf, RobotsAnswer, LogsGrant, LogsGrants;
      NoGrants(log, m_web);
      decisions, allowed := [], [];
      ghost var before, urls := View(), RecordUrls(records);
      var needSet: set<Url> := {};
      NothingTried(before, m_limits, m_web, m_clock.reading);
      for i := 0 to |records|
        invariant |decisions| == i
        invariant (decisions, View()) == TryAll(before, m_limits, m_web, m_clock.reading, urls[..i])
        invariant allowed == AllowedOf(records[..i], decisions)
        invariant needSet == NeedRobotsOf(m_web, records[..i], decisions)
        invariant m_host_robots == old(m_host_robots)
        invariant forall k :: 0 <= k < i ==> RobotsAnswer(m_web, m_host_robots, records[k].url, decisions[k])
        invariant LogsGrants(old(log), log, m_web, allowed)
      {
        var url := records[i].url;
        assert urls[..i + 1] == urls[..i] + [url];
        TryAllStep(before, m_limits, m_web, m_clock.reading, urls[..i], url);
        assert records[..i + 1] == records[..i] + [records[i]];
        ghost var logged := log;
        var decision := TryCrawlOne(url);
        if decision == ALLOW {
          OneMoreGrant(old(log), logged, log, m_web, allowed, records[i]);
          allowed := allowed + [records[i]];
        } else if decision == DISALLOW_NEED_ROBOTS {
          needSet := needSet + {m_web.robots(url)};
        }
        NeedRobotsStep(m_web, records, i, decisions, decision);
        AllowedStep(records[..i], decisions, records[i], decision);
        decisions := decisions + [decision];
      }
      assert records[..|records|] == records && urls[..|records|] == urls;
      need := ListOf(needSet);
      NeededFiles(m_web, m_host_robots, records, decisions, need);
    }

    method TryCrawlOne(url: Url) returns (d: Decision)
      modifies this, m_clock
      ensures (d, View()) == TryOne(old(View()), m_limits, m_web, m_clock.reading, url)
      ensures m_host_robots == old(m_host_robots) && RobotsAnswer(m_web, m_host_robots, url, d)
      ensures if d == ALLOW then LogsGrant(old(log), log, m_web, url) else log == old(log)
    {
      if !m_web.ok(url) {
        return DISALLOW_URL_PARSING;
      }
      var refused := RobotsVerdict(m_web, m_host_robots, url);
      if refused.Some? {
        return refused.value;
      }
      var h := m_web.host(url);
      var free := IsAllowedFreq(h);
      if !free {
        return DISALLOW_FREQ;
      }
      MarkCrawling(url, h);
      return ALLOW;
    }

    method MarkCrawling(url: Url, h: Host)
      modifies this, m_clock
      ensures View() == SetCrawling(old(View()), m_clock.reading, url, h)
    {
      ghost var before := View();
      var f := StartOne(FreqOf(m_host_freq, h));
      var g := StartOne(m_global_freq);
      m_host_freq := m_host_freq[h := f];
      m_global_freq := g;
      log := log + [GrantEvent(before, m_clock.reading, url, h)];
    }

    method StartOne(f: FreqState) returns (f': FreqState)
      modifies m_clock
      ensures f' == Started(f, m_clock.reading, old(m_clock.looks))
      ensures m_clock.looks == old(m_clock.looks) + 3
    {
      var limiter := new HostFreq(f);
      limiter.IncCrawling(m_clock);
      f' := limiter.View();
    }

    method IsAllowedFreq(h: Host) returns (r: bool)
      modifies this, m_clock
      ensures (r, View()) == FreqVerdict(old(View()), m_limits, m_clock.reading, h)
    {
      if h !in m_host_freq {
        return true;
      }
      var f := new HostFreq(m_host_freq[h]);
      r := f.IsAllowed(m_limits, m_clock);
      m_host_freq := m_host_freq[h := f.View()];
      if r {
        var g := new HostFreq(m_global_freq);
        r := g.IsAllowed(m_limits, m_clock);
        m_global_freq := g.View();
      }
    }

    /** Read-only: splits counted urls into those the stored robots files allow, normalized, and
        the robots files still missing, each with the count of the url that needs it. */
    method LeaveAllowedByRobots(urls: seq<UrlFreq>) returns (allowed: seq<UrlFreq>, need: seq<UrlFreq>)
      ensures allowed == PagesPassing(m_web, m_host_robots, urls)
      ensures need == RobotsNeeded(m_web, m_host_robots, urls)
      ensures forall e ::
        e in allowed <==> exists x :: x in urls && GivesPage(m_web, m_host_robots, x.url, e.url) && e.cnt == x.cnt
      ensures forall e ::
        e in need <==> exists x :: x in urls && GivesFile(m_web, m_host_robots, x.url, e.url) && e.cnt == x.cnt
    {
      hide GivesPage, GivesFile;
      allowed, need := [], [];
      for i := 0 to |urls|
        invariant allowed == PagesPassing(m_web, m_host_robots, urls[..i])
        invariant need == RobotsNeeded(m_web, m_host_robots, urls[..i])
      {
        assert urls[..i + 1][..i] == urls[..i];
        if !m_web.ok(urls[i].url) {
          continue;
        }
        var refused := RobotsVerdict(m_web, m_host_robots, urls[i].url);
        if refused.None? {
          allowed := allowed + [UrlFreq(m_web.normalized(urls[i].url), urls[i].cnt)];
        } else if refused.value == DISALLOW_NEED_ROBOTS {
          need := need + [UrlFreq(m_web.robots(urls[i].url), urls[i].cnt)];
        }
      }
      assert urls[..|urls|] == urls;
      SplitMembers(m_web, m_host_robots, urls);
    }
  }

  function PagesPassing(web: Web, robots: map<Host, Robots>, urls: seq<UrlFreq>): seq<UrlFreq> {
    if urls == [] then []
    else
      var e := urls[|urls| - 1];
      PagesPassing(web, robots, urls[..|urls| - 1]) +
      if web.ok(e.url) && RobotsVerdict(web, robots, e.url) == None then [UrlFreq(web.normalized(e.url), e.cnt)] else []
  }

  function RobotsNeeded(web: Web, robots: map<Host, Robots>, urls: seq<UrlFreq>): seq<UrlFreq> {
    if urls == [] then []
    else
      var e := urls[|urls| - 1];
      RobotsNeeded(web, robots, urls[..|urls| - 1]) +
      if web.ok(e.url) && RobotsVerdict(web, robots, e.url) == Some(DISALLOW_NEED_ROBOTS)
      then [UrlFreq(web.robots(e.url), e.cnt)]
      else []
  }

  lemma {:induction false} AllowedMembers(web: Web, robots: map<Host, Robots>, urls: seq<UrlFreq>, e: UrlFreq)
    ensures
      e in PagesPassing(web, robots, urls) <==>
      exists x :: x in urls && GivesPage(web, robots, x.url, e.url) && e.cnt == x.cnt
  {
    if urls != [] {
      var n := |urls| - 1;
      var last, before := urls[n], PagesPassing(web, robots, urls[..n]);
      AllowedMembers(web, robots, urls[..n], e);
      assert e in PagesPassing(web, robots, urls) <==>
        e in before || (GivesPage(web, robots, last.url, e.url) && e.cnt == last.cnt);
      hide PagesPassing, GivesPage;
      if x :| x in urls && GivesPage(web, robots, x.url, e.url) && e.cnt == x.cnt {
        assert x in urls[..n] || x == last;
      }
    }
  }

  lemma {:induction false} NeededMembers(web: Web, robots: map<Host, Robots>, urls: seq<UrlFreq>, e: UrlFreq)
    ensures
      e in RobotsNeeded(web, robots, urls) <==>
      exists x :: x in urls && GivesFile(web, robots, x.url, e.url) && e.cnt == x.cnt
  {
    if urls != [] {
      var n := |urls| - 1;
      var last, before := urls[n], RobotsNeeded(web, robots, urls[..n]);
      NeededMembers(web, robots, urls[..n], e);
      assert e in RobotsNeeded(web, robots, urls) <==>
        e in before || (GivesFile(web, robots, last.url, e.url) && e.cnt == last.cnt);
      hide RobotsNeeded, GivesFile;
      if x :| x in urls && GivesFile(web, robots, x.url, e.url) && e.cnt == x.cnt {
        assert x in urls[..n] || x == last;
      }
    }
  }

  lemma SplitMembers(web: Web, robots: map<Host, Robots>, urls: seq<UrlFreq>)
    ensures forall e ::
      e in PagesPassing(web, robots, urls) <==>
      exists x :: x in urls && GivesPage(web, robots, x.url, e.url) && e.cnt == x.cnt
    ensures forall e ::
      e in RobotsNeeded(web, robots, urls) <==>
      exists x :: x in urls && GivesFile(web, robots, x.url, e.url) && e.cnt == x.cnt
  {
    hide *;
    forall e
      ensures
        e in PagesPassing(web, robots, urls) <==>
        exists x :: x in urls && GivesPage(web, robots, x.url, e.url) && e.cnt == x.cnt
    {
      AllowedMembers(web, robots, urls, e);
    }
    forall e
      ensures
        e in RobotsNeeded(web, robots, urls) <==>
        exists x :: x in urls && GivesFile(web, robots, x.url, e.url) && e.cnt == x.cnt
    {
      NeededMembers(web, robots, urls, e);
    }
  }

  lemma NothingTried(s: HostState, limits: CrawlLimits, web: Web, reading: nat -> Tp)
    ensures TryAll(s, limits, web, reading, []) == ([], s)
    ensures AllowedOf([], []) == [] && NeedRobotsOf(web, [], []) == {}
  {
  }

  lemma AllowedStep(rs: seq<GFQRecord>, ds: seq<Decision>, r: GFQRecord, d: Decision)
    requires |rs| == |ds|
    ensures AllowedOf(rs + [r], ds + [d]) == AllowedOf(rs, ds) + if d == ALLOW then [r] else []
  {
    assert (rs + [r])[..|rs|] == rs && (ds + [d])[..|ds|] == ds;
  }

  lemma NeedRobotsStep(web: Web, rs: seq<GFQRecord>, i: nat, ds: seq<Decision>, d: Decision)
    requires i < |rs| && |ds| == i
    ensures
      NeedRobotsOf(web, rs[..i + 1], ds + [d]) ==
      NeedRobotsOf(web, rs[..i], ds) + if d == DISALLOW_NEED_ROBOTS then {web.robots(rs[i].url)} else {}
  {
    var ds' := ds + [d];
    forall u ensures u in NeedRobotsOf(web, rs[..i + 1], ds') <==>
                     u in NeedRobotsOf(web, rs[..i], ds) || (d == DISALLOW_NEED_ROBOTS && u == web.robots(rs[i].url)) {
      if u in NeedRobotsOf(web, rs[..i], ds) {
        var j :| 0 <= j < i && ds[j] == DISALLOW_NEED_ROBOTS && u == web.robots(rs[..i][j].url);
        assert ds'[j] == DISALLOW_NEED_ROBOTS && u == web.robots(rs[..i + 1][j].url);
      }
      if d == DISALLOW_NEED_ROBOTS && u == web.robots(rs[i].url) {
        assert ds'[i] == DISALLOW_NEED_ROBOTS && u == web.robots(rs[..i + 1][i].url);
      }
      if u in NeedRobotsOf(web, rs[..i + 1], ds') {
        var j :| 0 <= j < i + 1 && ds'[j] == DISALLOW_NEED_ROBOTS && u == web.robots(rs[..i + 1][j].url);
        if j < i {
          assert ds[j] == DISALLOW_NEED_ROBOTS && u == web.robots(rs[..i][j].url);
        }
      }
    }
  }
}
