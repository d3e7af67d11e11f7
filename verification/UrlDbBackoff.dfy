/** Every decision of the enqueue loop by what was logged so far: the attempts that the log tells, the
    wait that they impose, and the back-off after http errors over whole runs. */
module UrlDbBackoff {
  import opened Clock
  import opened Types
  import opened CrawlAttemptHistory
  import opened UrlDatabase
  import opened UrlDbRuns

  // ---------------------------------------------------------------- histories by the log

  /** All attempts at a url ever made: the stored ones, then one for each push; a result gives the
      latest one its status, and is an attempt of its own if there was none. */
  function AttemptsByLog(stored: Attempts, log: seq<Entry>, u: Url): seq<CrawlAttempt> {
    if log == [] then HistoryOf(stored, u)
    else WithEntry(AttemptsByLog(stored, log[..|log| - 1], u), log[|log| - 1], u)
  }

  function WithEntry(all: seq<CrawlAttempt>, e: Entry, u: Url): seq<CrawlAttempt> {
    if e.url != u || e.Chosen? then all
    else if e.Pushed? then all + [CrawlAttempt(e.stored, ENQUEUED)]
    else if all == [] then [CrawlAttempt(e.stored, e.status)]
    else all[|all| - 1 := CrawlAttempt(all[|all| - 1].tp, e.status)]
  }

  ghost predicate PushedSoFar(log: seq<Entry>, u: Url) {
    exists i :: 0 <= i < |log| && log[i].Pushed? && log[i].url == u
  }

  /** The part that is kept: a push cuts it to the ten latest. */
  ghost function KeptByLog(stored: Attempts, log: seq<Entry>, u: Url): seq<CrawlAttempt> {
    var all := AttemptsByLog(stored, log, u);
    if PushedSoFar(log, u) then LastOf(all, LAST_STORE_ATTEMPTS) else all
  }

  lemma PushedStep(log: seq<Entry>, e: Entry, u: Url)
    ensures PushedSoFar(log + [e], u) <==> PushedSoFar(log, u) || (e.Pushed? && e.url == u)
  {
    var log1 := log + [e];
    if i :| 0 <= i < |log| && log[i].Pushed? && log[i].url == u {
      assert log1[i].Pushed? && log1[i].url == u;
    }
    if e.Pushed? && e.url == u {
      assert log1[|log|].Pushed? && log1[|log|].url == u;
    }
  }

  /** One entry, seen by what is kept. */
  function KeptWithEntry(h: seq<CrawlAttempt>, e: Entry, u: Url): seq<CrawlAttempt> {
    if e.url != u || e.Chosen? then h
    else if e.Pushed? then Added(h, e.stored)
    else Stepped(h, Outcome(e.status, e.stored))
  }

  /** Cutting before or after one more attempt is the same, and a new status is that of the last one kept. */
  lemma CutCommutes(all: seq<CrawlAttempt>, a: CrawlAttempt)
    ensures LastOf(LastOf(all, 10) + [a], 10) == LastOf(all + [a], 10)
    ensures all != [] ==> LastOf(all[|all| - 1 := a], 10) == LastOf(all, 10)[|LastOf(all, 10)| - 1 := a]
  {
  }

  lemma KeptStep(stored: Attempts, log: seq<Entry>, e: Entry, u: Url)
    ensures KeptByLog(stored, log + [e], u) == KeptWithEntry(KeptByLog(stored, log, u), e, u)
  {
    hide PushedSoFar;
    var all := AttemptsByLog(stored, log, u);
    PushedStep(log, e, u);
    assert (log + [e])[..|log|] == log;
    if e.Pushed? {
      CutCommutes(all, CrawlAttempt(e.stored, ENQUEUED));
    } else if e.Recorded? && all != [] {
      CutCommutes(all, CrawlAttempt(all[|all| - 1].tp, e.status));
    }
  }

  lemma StepMatchesLog(s: LoopState, stored: Attempts, step: Step, rounding: Tp -> Tp, u: Url)
    requires HistoryOf(s.attempts, u) == KeptByLog(stored, s.log, u)
    ensures
      var s1 := StepLoop(s, step, rounding);
      HistoryOf(s1.attempts, u) == KeptByLog(stored, s1.log, u)
  {
    hide KeptByLog, Added, Stepped, Verdict;
    match step
    case StartRound(_) =>
    case Choose(c, via) => KeptStep(stored, s.log, Chosen(c, s.round, via, s.now), u);
    case Push(c, tp) => KeptStep(stored, s.log, Pushed(c, s.round, rounding(tp)), u);
    case Result(c, status, now) => KeptStep(stored, s.log, Recorded(c, s.round, status, rounding(now)), u);
  }

  /** In every reachable state a stored history is exactly the kept part of the attempts that the log
      tells, with their times and statuses. */
  lemma {:induction false} HistoriesFollowLog(stored: Attempts, steps: seq<Step>, rounding: Tp -> Tp, u: Url)
    ensures
      var s := RunLoop(stored, steps, rounding);
      HistoryOf(s.attempts, u) == KeptByLog(stored, s.log, u)
  {
    if steps != [] {
      hide KeptByLog, StepLoop, HistoryOf;
      var n := |steps| - 1;
      HistoriesFollowLog(stored, steps[..n], rounding, u);
      StepMatchesLog(RunLoop(stored, steps[..n], rounding), stored, steps[n], rounding, u);
    }
  }

  // ---------------------------------------------------------------- decisions by the log

  /** What is decided about a url in any reachable state, from the log and the reading of the round:
      at once without an attempt, else by the time since the latest attempt and its status. */
  lemma DecisionsFollowLog(stored: Attempts, steps: seq<Step>, rounding: Tp -> Tp, u: Url, via: Policy)
    ensures
      var s := RunLoop(stored, steps, rounding);
      var kept := KeptByLog(stored, s.log, u);
      var d := Verdict(via, HistoryOf(s.attempts, u), s.now);
      if kept == [] then d == ALLOW
      else
        var waited := s.now - kept[|kept| - 1].tp;
        match kept[|kept| - 1].status
        case PENDING =>
          d == if waited >= HOUR then ALLOW else DISALLOW_TRY_IN_HOUR
        case ENQUEUED =>
          if via == Page then d == if waited >= 24 * HOUR then ALLOW else DISALLOW_TRY_IN_A_DAY
          else d == if waited >= HOUR then ALLOW else DISALLOW_TRY_IN_HOUR
        case CURL_ERR =>
          if via == Page then d == if waited >= HOUR then ALLOW else DISALLOW_TRY_IN_HOUR
          else d == if waited >= 24 * HOUR then ALLOW else DISALLOW_TRY_IN_A_DAY
        case OK =>
          if via == Page then d == if waited >= 7 * 24 * HOUR then ALLOW else DISALLOW_TRY_IN_A_WEEK
          else d == if waited >= 24 * HOUR then ALLOW else DISALLOW_TRY_IN_A_DAY
        case UNRECOGNIZED(_) => d == DISALLOW_NO_REASON
        case _ =>
          var hours := Pow2(Min(TrailingErrors(kept), |kept| - 1));
          if via == Page then d == if waited >= hours * HOUR then ALLOW else DISALLOW_WAIT_X2_TIME
          else d == if waited >= 24 * HOUR then ALLOW else DISALLOW_TRY_IN_A_DAY
  {
    hide KeptByLog, RunLoop, Pow2, TrailingErrors;
    var s := RunLoop(stored, steps, rounding);
    HistoriesFollowLog(stored, steps, rounding, u);
    var h := HistoryOf(s.attempts, u);
    if h != [] {
      AllowedExactlyAfterWait(via, h, s.now);
    }
  }

  ghost predicate NeverAttempted(stored: Attempts, log: seq<Entry>, u: Url) {
    HistoryOf(stored, u) == [] && forall i :: 0 <= i < |log| && log[i].url == u ==> log[i].Chosen?
  }

  lemma {:induction false} NothingLogged(stored: Attempts, log: seq<Entry>, u: Url)
    requires NeverAttempted(stored, log, u)
    ensures AttemptsByLog(stored, log, u) == []
  {
    if log != [] {
      NothingLogged(stored, log[..|log| - 1], u);
    }
  }

  /** A url that was never attempted, neither before the run nor in it, is chosen under either policy
      whenever a round asks, whatever the clock says. */
  lemma NeverAttemptedIsChosen(stored: Attempts, steps: seq<Step>, rounding: Tp -> Tp, u: Url, via: Policy)
    requires NeverAttempted(stored, RunLoop(stored, steps, rounding).log, u)
    ensures
      var s := RunLoop(stored, steps, rounding);
      var s1 := StepLoop(s, Choose(u, via), rounding);
      u in s1.pending && s1.log == s.log + [Chosen(u, s.round, via, s.now)]
  {
    hide RunLoop, Verdict;
    NothingLogged(stored, RunLoop(stored, steps, rounding).log, u);
    HistoriesFollowLog(stored, steps, rounding, u);
    AllowedExactlyAfterWait(via, [], RunLoop(stored, steps, rounding).now);
  }

  // ---------------------------------------------------------------- back-off over runs

  lemma {:induction false} TrailingOfTail(h: seq<CrawlAttempt>, n: nat)
    requires n <= |h|
    ensures TrailingErrors(h[|h| - n..]) == Min(TrailingErrors(h), n)
    decreases n
  {
    if n > 0 {
      var last := |h| - 1;
      TrailingOfTail(h[..last], n - 1);
      assert h[|h| - n..][..n - 1] == h[..last][last - (n - 1)..];
    }
  }

  /** Of all attempts at most ten are kept, and the oldest kept one is not looked at. */
  lemma BackoffOfLast(all: seq<CrawlAttempt>)
    requires all != []
    ensures BackoffHours(LastOf(all, LAST_STORE_ATTEMPTS)) == Pow2(Min(Min(TrailingErrors(all), |all| - 1), 9))
  {
    TrailingOfTail(all, Min(|all|, LAST_STORE_ATTEMPTS));
    assert LastOf(all, LAST_STORE_ATTEMPTS) == all[|all| - Min(|all|, LAST_STORE_ATTEMPTS)..];
  }

  lemma StepLogsOne(s: LoopState, step: Step, rounding: Tp -> Tp)
    ensures
      var log := StepLoop(s, step, rounding).log;
      |log| <= |s.log| + 1 && |s.log| <= |log| && log[..|s.log|] == s.log
  {
    hide Verdict, Enqueued, StatusSet;
  }

  /** The step at which an entry was logged. */
  lemma {:induction false} LoggedAt(stored: Attempts, steps: seq<Step>, rounding: Tp -> Tp, j: nat) returns (n: nat)
    requires j < |RunLoop(stored, steps, rounding).log|
    ensures n < |steps|
    ensures RunLoop(stored, steps[..n], rounding).log == RunLoop(stored, steps, rounding).log[..j]
    ensures
      StepLoop(RunLoop(stored, steps[..n], rounding), steps[n], rounding).log ==
      RunLoop(stored, steps, rounding).log[..j + 1]
  {
    var last := |steps| - 1;
    var s := RunLoop(stored, steps[..last], rounding);
    StepLogsOne(s, steps[last], rounding);
    hide StepLoop;
    if j < |s.log| {
      n := LoggedAt(stored, steps[..last], rounding, j);
      assert steps[..last][..n] == steps[..n];
    } else {
      n := last;
    }
  }

  lemma {:induction false} ReadingsOfPrefix(steps: seq<Step>, n: nat, t: Tp)
    requires ReadingsOrdered(steps, t) && n <= |steps|
    ensures ReadingsOrdered(steps[..n], t)
    decreases |steps|
  {
    ReadingsLater(steps, t, t);
    if n == |steps| {
      assert steps[..n] == steps;
    } else {
      var last := |steps| - 1;
      var before := ReadingBefore(steps[last], t);
      assert steps[..last][..n] == steps[..n];
      ReadingsOfPrefix(steps[..last], n, before);
      ReadingsLater(steps[..n], before, t);
    }
  }

  lemma ReadingsLater(steps: seq<Step>, t: Tp, later: Tp)
    requires ReadingsOrdered(steps, t) && t <= later
    ensures ReadingsOrdered(steps, later)
    decreases |steps|
  {
    if steps != [] && steps[|steps| - 1].Choose? {
      ReadingsLater(steps[..|steps| - 1], t, later);
    }
  }

  /** What is chosen as a page after `k` errors has waited for them. */
  lemma AllowedWait(h: seq<CrawlAttempt>, all: seq<CrawlAttempt>, now: Tp, stored: Tp)
    requires h == LastOf(all, LAST_STORE_ATTEMPTS) && TrailingErrors(all) >= 1
    requires Verdict(Page, h, now) == ALLOW && h != [] && stored <= h[|h| - 1].tp
    ensures now - stored >= Pow2(Min(Min(TrailingErrors(all), |all| - 1), 9)) * HOUR
  {
    hide Verdict, Pow2, BackoffHours;
    assert h[|h| - 1] == all[|all| - 1];
    BackoffOfLast(all);
    AllowedExactlyAfterWait(Page, h, now);
  }

  /** Once the last `k` of all attempts at a page have ended in http errors, it is not chosen again
      before `2^m` hours after the stored time of every push so far, where `m` is `k`, but at most 9
      and less than the number of attempts. */
  lemma BackoffOverRuns(stored: Attempts, steps: seq<Step>, rounding: Tp -> Tp, t: Tp, i: nat, j: nat)
    requires MonotoneRounding(rounding) && NoEmptyHistory(stored) && ReadingsOrdered(steps, t)
    requires
      var log := RunLoop(stored, steps, rounding).log;
      i < j < |log| && log[i].Pushed? && log[j].Chosen? && log[j].via == Page && log[i].url == log[j].url
    ensures
      var log := RunLoop(stored, steps, rounding).log;
      var all := AttemptsByLog(stored, log[..j], log[j].url);
      var k := TrailingErrors(all);
      k >= 1 ==> log[j].now - log[i].stored >= Pow2(Min(Min(k, |all| - 1), 9)) * HOUR
  {
    hide *;
    var log := RunLoop(stored, steps, rounding).log;
    var u := log[j].url;
    var n := LoggedAt(stored, steps, rounding, j);
    var s := RunLoop(stored, steps[..n], rounding);
    assert log[..j + 1] == log[..j] + [log[j]] && log[..j][i] == log[i];
    ReadingsOfPrefix(steps, n, t);
    RunKeepsSpacing(stored, steps[..n], rounding, u, t);
    PushBeforeLast(s, u, rounding(t), i);
    HistoriesFollowLog(stored, steps[..n], rounding, u);
    KeptAfterPush(stored, s.log, u, i);
    ChosenByStep(s, steps[n], rounding, log[j]);
    if TrailingErrors(AttemptsByLog(stored, s.log, u)) >= 1 {
      AllowedWait(HistoryOf(s.attempts, u), AttemptsByLog(stored, s.log, u), log[j].now, log[i].stored);
    }
  }

  lemma KeptAfterPush(stored: Attempts, log: seq<Entry>, u: Url, i: nat)
    requires i < |log| && log[i].Pushed? && log[i].url == u
    ensures KeptByLog(stored, log, u) == LastOf(AttemptsByLog(stored, log, u), LAST_STORE_ATTEMPTS)
  {
  }

  lemma PushBeforeLast(s: LoopState, u: Url, bound: Tp, i: nat)
    requires SpacingKept(s, u, bound) && i < |s.log| && s.log[i].Pushed? && s.log[i].url == u
    ensures var h := HistoryOf(s.attempts, u); h != [] && s.log[i].stored <= h[|h| - 1].tp
  {
  }

  lemma ChosenByStep(s: LoopState, step: Step, rounding: Tp -> Tp, e: Entry)
    requires StepLoop(s, step, rounding).log == s.log + [e] && e.Chosen?
    ensures Verdict(e.via, HistoryOf(s.attempts, e.url), e.now) == ALLOW
  {
    var log1 := StepLoop(s, step, rounding).log;
    assert log1[|s.log|] == e;
  }
}
