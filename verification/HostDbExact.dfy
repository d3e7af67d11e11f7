/** Admission as a function of what is logged: in every reachable state each decision follows from the
    log of grants and results, the limits and the clock. */
module HostDbExact {
  import opened Clock
  import opened Types
  import opened SlidingWindows
  import opened HostFrequency
  import opened HostDatabase
  import opened HostDbRuns
  import opened HostDbCounters
  import opened GlobalLimits

  // ---------------------------------------------------------------- requests in flight, by the log

  /** A host has a limiter once anything was granted to it or came back from it. */
  ghost predicate Seen(log: seq<Event>, h: Host) {
    exists i :: 0 <= i < |log| && log[i].host == h
  }

  /** One more with each grant to the host, one less with each result, never below zero. */
  function InFlight(log: seq<Event>, h: Host): nat {
    if log == [] then 0
    else
      var e := log[|log| - 1];
      var before := InFlight(log[..|log| - 1], h);
      if e.host != h then before else if e.Granted? then before + 1 else if before == 0 then 0 else before - 1
  }

  /** The same over all hosts together. */
  function AllInFlight(log: seq<Event>): nat {
    if log == [] then 0
    else
      var before := AllInFlight(log[..|log| - 1]);
      if log[|log| - 1].Granted? then before + 1 else if before == 0 then 0 else before - 1
  }

  ghost predicate CountersByLog(s: HostState) {
    && (forall h :: h in s.freqs <==> Seen(s.log, h))
    && (forall h :: FreqOf(s.freqs, h).crawling == InFlight(s.log, h))
    && s.global.crawling == AllInFlight(s.log)
  }

  lemma SeenStep(log: seq<Event>, e: Event, h: Host)
    ensures Seen(log + [e], h) <==> Seen(log, h) || e.host == h
  {
    var log1 := log + [e];
    if i :| 0 <= i < |log| && log[i].host == h {
      assert log1[i].host == h;
    }
    if e.host == h {
      assert log1[|log|].host == h;
    }
  }

  lemma InFlightStep(log: seq<Event>, e: Event, h: Host)
    ensures
      InFlight(log + [e], h) ==
      if e.host != h then InFlight(log, h)
      else if e.Granted? then InFlight(log, h) + 1
      else Max(0, InFlight(log, h) - 1)
    ensures AllInFlight(log + [e]) == if e.Granted? then AllInFlight(log) + 1 else Max(0, AllInFlight(log) - 1)
  {
    assert (log + [e])[..|log|] == log;
  }

  lemma EventKeepsCounters(s: HostState, s1: HostState, e: Event, f: FreqState)
    requires CountersByLog(s) && s1.log == s.log + [e] && s1.freqs == s.freqs[e.host := f]
    requires
      var c, g := FreqOf(s.freqs, e.host).crawling, s.global.crawling;
      && f.crawling == (if e.Granted? then c + 1 else Max(0, c - 1))
      && s1.global.crawling == (if e.Granted? then g + 1 else Max(0, g - 1))
    ensures CountersByLog(s1)
  {
    hide Seen, InFlight, AllInFlight;
    forall h ensures h in s1.freqs <==> Seen(s1.log, h) {
      SeenStep(s.log, e, h);
    }
    forall h ensures FreqOf(s1.freqs, h).crawling == InFlight(s1.log, h) {
      InFlightStep(s.log, e, h);
      assert h != e.host ==> FreqOf(s1.freqs, h) == FreqOf(s.freqs, h);
    }
    InFlightStep(s.log, e, e.host);
  }

  lemma VerdictKeepsCounts(s: HostState, u: Setup, h: Host)
    requires CountersByLog(s)
    ensures CountersByLog(FreqVerdict(s, u.limits, u.reading, h).1)
  {
    hide Recent, Seen, InFlight, AllInFlight;
    VerdictLeavesLog(s, u, h);
  }

  lemma StepKeepsCounts(s: HostState, u: Setup, step: UrlStep)
    requires CountersByLog(s)
    ensures CountersByLog(StepUrl(s, u, step))
  {
    hide CountersByLog, FreqVerdict, Counted, Recent;
    match step
    case TryUrl(url) =>
      var h := u.web.host(url);
      var (free, s1) := FreqVerdict(s, u.limits, u.reading, h);
      VerdictKeepsCounts(s, u, h);
      EventKeepsCounters(s1, SetCrawling(s1, u.reading, url, h), GrantEvent(s1, u.reading, url, h),
        Started(FreqOf(s1.freqs, h), u.reading, s1.looks));
    case Result(r) =>
      if u.web.ok(r.gfq.url) {
        var h := u.web.host(r.gfq.url);
        CountersNotNegative(s, h);
        EventKeepsCounters(s, OnOneFetched(s, u.web, r), Fetched(r, h), Finished(FreqOf(s.freqs, h)));
      }
  }

  lemma CountersNotNegative(s: HostState, h: Host)
    requires CountersByLog(s)
    ensures FreqOf(s.freqs, h).crawling >= 0 && s.global.crawling >= 0
  {
  }

  lemma {:induction false} UrlsKeepCounts(u: Setup, steps: seq<UrlStep>)
    ensures CountersByLog(UrlsFrom(InitState(u), u, steps))
  {
    if steps != [] {
      hide CountersByLog, StepUrl;
      UrlsKeepCounts(u, steps[..|steps| - 1]);
      StepKeepsCounts(UrlsFrom(InitState(u), u, steps[..|steps| - 1]), u, steps[|steps| - 1]);
    }
  }

  /** In every reachable state the counters of requests in flight are what the log gives. */
  lemma CountersFollowLog(u: Setup, ops: seq<Op>)
    ensures CountersByLog(Run(u, ops))
  {
    hide CountersByLog;
    RunIsUrlRun(u, ops);
    UrlsKeepCounts(u, AllUrlSteps(ops));
  }

  // ---------------------------------------------------------------- what grants are logged with

  /** The grant took six looks at the clock from `look` on, three for its host and then three for the
      whole system, and is marked as new exactly if nothing was logged for its host before. */
  ghost predicate GrantTold(e: Event, before: seq<Event>, u: Setup, look: nat)
    requires e.Granted?
  {
    && e.own == Stamp(Look(u.reading, look), Look(u.reading, look + 1), Look(u.reading, look + 2))
    && e.global == Stamp(Look(u.reading, look + 3), Look(u.reading, look + 4), Look(u.reading, look + 5))
    && (e.newHost <==> !Seen(before, e.host))
  }

  /** Every grant is told like that, and no two share a look. */
  ghost predicate GrantsTold(s: HostState, u: Setup, at: seq<nat>) {
    && |at| == |s.log|
    && (forall i :: 0 <= i < |s.log| && s.log[i].Granted? ==>
          at[i] + 6 <= s.looks && GrantTold(s.log[i], s.log[..i], u, at[i]))
    && (forall i, j :: 0 <= i < j < |s.log| && s.log[i].Granted? && s.log[j].Granted? ==> at[i] + 6 <= at[j])
  }

  lemma EventTold(s: HostState, s1: HostState, u: Setup, at: seq<nat>, e: Event)
    requires GrantsTold(s, u, at) && s1.log == s.log + [e]
    requires s1.looks == if e.Granted? then s.looks + 6 else s.looks
    requires e.Granted? ==> GrantTold(e, s.log, u, s.looks)
    ensures GrantsTold(s1, u, at + [s.looks])
  {
    hide GrantTold;
    forall i | 0 <= i < |s1.log| && s1.log[i].Granted?
      ensures (at + [s.looks])[i] + 6 <= s1.looks && GrantTold(s1.log[i], s1.log[..i], u, (at + [s.looks])[i])
    {
      assert s1.log[..i] == s.log[..i];
      if i == |s.log| {
        assert s.log[..i] == s.log;
      }
    }
  }

  lemma MoreLooks(s: HostState, s1: HostState, u: Setup, at: seq<nat>)
    requires GrantsTold(s, u, at) && s1.log == s.log && s1.looks >= s.looks
    ensures GrantsTold(s1, u, at)
  {
    hide GrantTold;
  }

  lemma StepTold(s: HostState, u: Setup, step: UrlStep, at: seq<nat>) returns (at1: seq<nat>)
    requires GrantsTold(s, u, at) && CountersByLog(s)
    ensures GrantsTold(StepUrl(s, u, step), u, at1)
  {
    hide GrantsTold, FreqVerdict, Counted, Recent, Look, Seen, InFlight, AllInFlight;
    at1 := at;
    match step
    case TryUrl(url) =>
      var h := u.web.host(url);
      var (free, s1) := FreqVerdict(s, u.limits, u.reading, h);
      VerdictKeepsCounts(s, u, h);
      VerdictLooks(s, u, h);
      MoreLooks(s, s1, u, at);
      if TryOne(s, u.limits, u.web, u.reading, url).0 == ALLOW {
        EventTold(s1, SetCrawling(s1, u.reading, url, h), u, at, GrantEvent(s1, u.reading, url, h));
        at1 := at + [s1.looks];
      }
    case Result(r) =>
      if u.web.ok(r.gfq.url) {
        EventTold(s, OnOneFetched(s, u.web, r), u, at, Fetched(r, u.web.host(r.gfq.url)));
        at1 := at + [s.looks];
      }
  }

  lemma {:induction false} UrlsTold(u: Setup, steps: seq<UrlStep>) returns (at: seq<nat>)
    ensures GrantsTold(UrlsFrom(InitState(u), u, steps), u, at)
  {
    if steps == [] {
      at := [];
    } else {
      hide GrantsTold, StepUrl, CountersByLog;
      var n := |steps| - 1;
      at := UrlsTold(u, steps[..n]);
      UrlsKeepCounts(u, steps[..n]);
      at := StepTold(UrlsFrom(InitState(u), u, steps[..n]), u, steps[n], at);
    }
  }

  /** In every reachable state the log of grants tells the readings and the new hosts as they were. */
  lemma RunTold(u: Setup, ops: seq<Op>) returns (at: seq<nat>)
    ensures GrantsTold(Run(u, ops), u, at)
  {
    hide GrantsTold;
    RunIsUrlRun(u, ops);
    at := UrlsTold(u, AllUrlSteps(ops));
  }

  // ---------------------------------------------------------------- the whole decision

  /** Fewer in flight than the parallel limit, and within each window fewer grants than allowed, as
      seen at three looks at the clock from `looks` on. */
  ghost predicate HasRoom(
      inFlight: nat, minute: seq<Tp>, hour: seq<Tp>, day: seq<Tp>, u: Setup, looks: nat) {
    && inFlight < u.limits.hostParallel
    && |Live(minute, Look(u.reading, looks), 60)| < u.limits.hostMinute
    && |Live(hour, Look(u.reading, looks + 1), 3600)| < u.limits.hostHour
    && |Live(day, Look(u.reading, looks + 2), 86400)| < u.limits.hostDay
  }

  ghost predicate HostHasRoom(s: HostState, u: Setup, h: Host) {
    HasRoom(InFlight(s.log, h), GrantTimes(s.log, h, Minute), GrantTimes(s.log, h, Hour), GrantTimes(s.log, h, Day),
      u, s.looks)
  }

  ghost predicate SystemHasRoom(s: HostState, u: Setup) {
    HasRoom(AllInFlight(s.log), AllTimes(s.log, Minute), AllTimes(s.log, Hour), AllTimes(s.log, Day), u, s.looks + 3)
  }

  lemma GlobalWindowIsLive(u: Setup, ops: seq<Op>, p: Period)
    requires Steady(u.reading)
    ensures
      var s := Run(u, ops);
      var now := Look(u.reading, LookFor(s.looks + 3, p));
      Recent(WindowOf(s.global, p), now, SecondsOf(p)) == Live(AllTimes(s.log, p), now, SecondsOf(p))
  {
    hide Run;
    var s := Run(u, ops);
    RunKeepsGlobal(u, ops, p);
    RecentIsLive(WindowOf(s.global, p), AllTimes(s.log, p), Look(u.reading, s.looks),
      Look(u.reading, LookFor(s.looks + 3, p)), SecondsOf(p));
  }

  lemma HostRoom(u: Setup, ops: seq<Op>, h: Host)
    requires Steady(u.reading) && h in Run(u, ops).freqs
    ensures
      var s := Run(u, ops);
      Check(s.freqs[h], u.limits, u.reading, s.looks).allowed <==> HostHasRoom(s, u, h)
  {
    hide Check, Live, GrantTimes, Run, InFlight;
    HostCheckExact(u, ops, h);
    CountersFollowLog(u, ops);
    assert FreqOf(Run(u, ops).freqs, h).crawling == InFlight(Run(u, ops).log, h);
  }

  lemma SystemRoom(u: Setup, ops: seq<Op>)
    requires Steady(u.reading)
    ensures
      var s := Run(u, ops);
      Check(s.global, u.limits, u.reading, s.looks + 3).allowed <==> SystemHasRoom(s, u)
  {
    hide Check, Live, Recent, AllTimes, Run, AllInFlight, Seen, InFlight;
    var s := Run(u, ops);
    GlobalWindowIsLive(u, ops, Minute);
    GlobalWindowIsLive(u, ops, Hour);
    GlobalWindowIsLive(u, ops, Day);
    CountersFollowLog(u, ops);
    CheckBySizes(s.global, u, s.looks + 3);
  }

  lemma LooksWhenAllowed(f: FreqState, u: Setup, looks: nat)
    ensures Check(f, u.limits, u.reading, looks).allowed ==> Check(f, u.limits, u.reading, looks).looks == looks + 3
  {
  }

  lemma FreqVerdictExact(u: Setup, ops: seq<Op>, h: Host)
    requires Steady(u.reading)
    ensures
      var s := Run(u, ops);
      FreqVerdict(s, u.limits, u.reading, h).0 <==> !Seen(s.log, h) || (HostHasRoom(s, u, h) && SystemHasRoom(s, u))
  {
    hide Check, Run, HostHasRoom, SystemHasRoom, Seen, InFlight, AllInFlight;
    var s := Run(u, ops);
    CountersFollowLog(u, ops);
    if h in s.freqs {
      HostRoom(u, ops, h);
      SystemRoom(u, ops);
      LooksWhenAllowed(s.freqs[h], u, s.looks);
    }
  }

  /** In every reachable state a url is granted if and only if it parses, the robots file that the log
      gives for its host permits it, and its host is new, or the host and then the whole system have
      room by the log; it is refused for its frequency in the remaining case. */
  lemma AdmissionExact(u: Setup, ops: seq<Op>, url: Url)
    requires Steady(u.reading)
    ensures
      var s := Run(u, ops);
      var h := u.web.host(url);
      var d := TryOne(s, u.limits, u.web, u.reading, url).0;
      var room := !Seen(s.log, h) || (HostHasRoom(s, u, h) && SystemHasRoom(s, u));
      && (d == ALLOW <==> u.web.ok(url) && PermittedByLog(u, s.log, url) && room)
      && (d == DISALLOW_FREQ <==> u.web.ok(url) && PermittedByLog(u, s.log, url) && !room)
  {
    hide FreqVerdict, Run, HostHasRoom, SystemHasRoom, Seen, RobotsByLog;
    var s := Run(u, ops);
    RobotsGate(u, ops);
    FreqVerdictExact(u, ops, u.web.host(url));
    assert PermittedByLog(u, s.log, url) <==> Permits(u.web, s.robots, url);
  }
}
