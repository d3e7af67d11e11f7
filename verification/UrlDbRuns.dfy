/** Spacing of attempts over whole runs of the enqueue loop: rounds that choose and push urls,
    with fetch results coming in at any point between any two steps. */
module UrlDbRuns {
  import opened Clock
  import opened Types
  import opened CrawlAttemptHistory
  import opened UrlDatabase

  /** A round reads the clock once for its decisions, chooses urls under one of the two policies,
      then pushes chosen ones and records them as enqueued. Every pass of the top search starts the
      round anew; only what the last pass chose can be pushed. */
  datatype Step =
    | StartRound(now: Tp)
    | Choose(url: Url, via: Policy)
    | Push(url: Url, tp: Tp)
    | Result(url: Url, status: AttemptStatus, now: Tp)

  /** What an observer notes, with the number of the round. */
  datatype Entry =
    | Chosen(url: Url, n: nat, via: Policy, now: Tp)
    | Pushed(url: Url, n: nat, stored: Tp)
    | Recorded(url: Url, n: nat, status: AttemptStatus, stored: Tp)

  datatype LoopState = LoopState(attempts: Attempts, round: nat, now: Tp, pending: set<Url>, log: seq<Entry>)

  function StepLoop(s: LoopState, step: Step, rounding: Tp -> Tp): LoopState {
    match step
    case StartRound(now) => s.(round := s.round + 1, now := now, pending := {})
    case Choose(u, via) =>
      if Verdict(via, HistoryOf(s.attempts, u), s.now) != ALLOW then s
      else s.(pending := s.pending + {u}, log := s.log + [Chosen(u, s.round, via, s.now)])
    case Push(u, tp) =>
      if u !in s.pending then s
      else s.(attempts := Enqueued(s.attempts, u, rounding(tp)), log := s.log + [Pushed(u, s.round, rounding(tp))])
    case Result(u, status, now) =>
      s.(attempts := StatusSet(s.attempts, u, status, rounding(now)),
         log := s.log + [Recorded(u, s.round, status, rounding(now))])
  }

  function RunLoop(stored: Attempts, steps: seq<Step>, rounding: Tp -> Tp): LoopState {
    if steps == [] then LoopState(stored, 0, 0, {}, [])
    else StepLoop(RunLoop(stored, steps[..|steps| - 1], rounding), steps[|steps| - 1], rounding)
  }

  /** Clock readings never go back and none is later than `t`. */
  ghost predicate ReadingsOrdered(steps: seq<Step>, t: Tp)
    decreases |steps|
  {
    if steps == [] then true
    else
      match steps[|steps| - 1]
      case StartRound(now) => now <= t && ReadingsOrdered(steps[..|steps| - 1], now)
      case Choose(_, _) => ReadingsOrdered(steps[..|steps| - 1], t)
      case Push(_, tp) => tp <= t && ReadingsOrdered(steps[..|steps| - 1], tp)
      case Result(_, _, now) => now <= t && ReadingsOrdered(steps[..|steps| - 1], now)
  }

  /** The latest reading before a step that is followed by readings up to `t`. */
  function ReadingBefore(step: Step, t: Tp): Tp {
    match step
    case StartRound(now) => now
    case Choose(_, _) => t
    case Push(_, tp) => tp
    case Result(_, _, now) => now
  }

  ghost predicate MonotoneRounding(rounding: Tp -> Tp) {
    forall a, b :: a <= b ==> rounding(a) <= rounding(b)
  }

  /** The status of a url as the log alone tells it: the latest push or result counts. */
  function StatusInLog(log: seq<Entry>, u: Url): Option<AttemptStatus> {
    if log == [] then None
    else
      var e := log[|log| - 1];
      if e.url != u || e.Chosen? then StatusInLog(log[..|log| - 1], u)
      else if e.Pushed? then Some(ENQUEUED)
      else Some(e.status)
  }

  /** The least distance from an earlier push, by policy and by what the log says happened since;
      none where nothing is chosen at all. */
  function LeastWait(via: Policy, status: AttemptStatus): Option<int> {
    match (via, status)
    case (_, UNRECOGNIZED(_)) => None
    case (Page, ENQUEUED) => Some(24 * HOUR)
    case (Page, OK) => Some(7 * DAY)
    case (RobotsFile, OK) => Some(24 * HOUR)
    case (RobotsFile, CURL_ERR) => Some(24 * HOUR)
    case (RobotsFile, S4XX) => Some(24 * HOUR)
    case (RobotsFile, S5XX) => Some(24 * HOUR)
    case (_, _) => Some(HOUR)
  }

  // ---------------------------------------------------------------- the invariant, one url at a time

  /** The stored history of `u` ends with the latest push and the status that the log tells. */
  ghost predicate HistoryMatchesLog(m: Attempts, log: seq<Entry>, u: Url, bound: Tp) {
    var h := HistoryOf(m, u);
    && (forall i :: 0 <= i < |log| && log[i].Pushed? && log[i].url == u ==>
      h != [] && log[i].stored <= h[|h| - 1].tp && log[i].stored <= bound)
    && (StatusInLog(log, u).Some? ==> h != [] && h[|h| - 1].status == StatusInLog(log, u).value)
  }

  /** Choice `j` keeps its distance from every earlier push of the same url. */
  ghost predicate ChoiceSpaced(log: seq<Entry>, j: nat)
    requires j < |log| && log[j].Chosen?
  {
    forall i :: 0 <= i < j && log[i].Pushed? && log[i].url == log[j].url ==>
      var status := StatusInLog(log[..j], log[j].url);
      && status.Some?
      && LeastWait(log[j].via, status.value).Some?
      && log[j].now - log[i].stored >= LeastWait(log[j].via, status.value).value
  }

  ghost predicate LogSpaced(log: seq<Entry>) {
    forall j :: 0 <= j < |log| && log[j].Chosen? ==> ChoiceSpaced(log, j)
  }

  /** Rounds are logged one after the other, and only chosen urls are pushed. */
  ghost predicate RoundsOrdered(s: LoopState) {
    && (forall i, j :: 0 <= i <= j < |s.log| ==> s.log[i].n <= s.log[j].n)
    && (forall i :: 0 <= i < |s.log| ==> s.log[i].n <= s.round)
    && (forall u :: u in s.pending ==> WasChosen(s.log, |s.log|, u, s.round))
    && (forall k :: 0 <= k < |s.log| && s.log[k].Pushed? ==> WasChosen(s.log, k, s.log[k].url, s.log[k].n))
  }

  ghost predicate WasChosen(log: seq<Entry>, k: int, u: Url, n: nat)
    requires k <= |log|
  {
    exists j :: 0 <= j < k && log[j].Chosen? && log[j].url == u && log[j].n == n
  }

  lemma StatusInLogStep(log: seq<Entry>, e: Entry, u: Url)
    ensures
      StatusInLog(log + [e], u) ==
      if e.url != u || e.Chosen? then StatusInLog(log, u) else if e.Pushed? then Some(ENQUEUED) else Some(e.status)
  {
    assert (log + [e])[..|log|] == log;
  }

  lemma {:induction false} PushLeavesStatus(log: seq<Entry>, u: Url, i: nat)
    requires i < |log| && log[i].Pushed? && log[i].url == u
    ensures StatusInLog(log, u).Some?
  {
    if i < |log| - 1 {
      PushLeavesStatus(log[..|log| - 1], u, i);
    }
  }

  lemma AppendKeepsSpacing(log: seq<Entry>, e: Entry)
    requires LogSpaced(log)
    requires e.Chosen? ==> ChoiceSpaced(log + [e], |log|)
    ensures LogSpaced(log + [e])
  {
    var log1 := log + [e];
    forall j | 0 <= j < |log1| && log1[j].Chosen? ensures ChoiceSpaced(log1, j) {
      if j < |log| {
        assert ChoiceSpaced(log, j);
        assert log1[..j] == log[..j];
      }
    }
  }

  /** The heart of the matter: what a policy allows is far enough from every earlier push. */
  lemma NewChoiceSpaced(s: LoopState, u: Url, via: Policy, bound: Tp)
    requires HistoryMatchesLog(s.attempts, s.log, u, bound)
    requires Verdict(via, HistoryOf(s.attempts, u), s.now) == ALLOW
    ensures ChoiceSpaced(s.log + [Chosen(u, s.round, via, s.now)], |s.log|)
  {
    var log1 := s.log + [Chosen(u, s.round, via, s.now)];
    var h := HistoryOf(s.attempts, u);
    assert log1[..|s.log|] == s.log;
    forall i | 0 <= i < |s.log| && log1[i].Pushed? && log1[i].url == u
      ensures
        var status := StatusInLog(s.log, u);
        status.Some? && LeastWait(via, status.value).Some? &&
          s.now - log1[i].stored >= LeastWait(via, status.value).value
    {
      PushLeavesStatus(s.log, u, i);
      AllowedExactlyAfterWait(via, h, s.now);
      assert s.log[i].stored <= h[|h| - 1].tp;
    }
  }

  lemma AppendKeepsHistory(m: Attempts, m1: Attempts, log: seq<Entry>, e: Entry, u: Url, bound: Tp, bound1: Tp)
    requires HistoryMatchesLog(m, log, u, bound) && bound <= bound1
    requires e.url != u || e.Chosen? ==> HistoryOf(m1, u) == HistoryOf(m, u)
    requires e.url == u && e.Pushed? ==>
      bound <= e.stored <= bound1 && HistoryOf(m1, u) == Added(HistoryOf(m, u), e.stored)
    requires e.url == u && e.Recorded? ==>
      var h := HistoryOf(m, u);
      var h1 := HistoryOf(m1, u);
      h1 != [] && h1[|h1| - 1].status == e.status && (h != [] ==> h1[|h1| - 1].tp == h[|h| - 1].tp)
    ensures HistoryMatchesLog(m1, log + [e], u, bound1)
  {
    StatusInLogStep(log, e, u);
    var log1 := log + [e];
    var h, h1 := HistoryOf(m, u), HistoryOf(m1, u);
    forall i | 0 <= i < |log1| && log1[i].Pushed? && log1[i].url == u
      ensures h1 != [] && log1[i].stored <= h1[|h1| - 1].tp && log1[i].stored <= bound1
    {
      if i < |log| {
        assert log1[i] == log[i];
        assert h != [] && log[i].stored <= h[|h| - 1].tp && log[i].stored <= bound;
      }
    }
  }

  // ---------------------------------------------------------------- runs

  ghost predicate SpacingKept(s: LoopState, u: Url, bound: Tp) {
    && HistoryMatchesLog(s.attempts, s.log, u, bound)
    && LogSpaced(s.log)
    && RoundsOrdered(s)
    && NoEmptyHistory(s.attempts)
  }

  lemma WasChosenLater(log: seq<Entry>, e: Entry, k: int, u: Url, n: nat)
    requires k <= |log| && WasChosen(log, k, u, n)
    ensures WasChosen(log + [e], k, u, n) && WasChosen(log + [e], |log| + 1, u, n)
  {
    var j :| 0 <= j < k && log[j].Chosen? && log[j].url == u && log[j].n == n;
    assert (log + [e])[j] == log[j];
  }

  lemma AppendKeepsRounds(s: LoopState, s1: LoopState, e: Entry)
    requires RoundsOrdered(s) && s1.log == s.log + [e] && s1.round == s.round && e.n == s.round
    requires s1.pending == if e.Chosen? then s.pending + {e.url} else s.pending
    requires e.Pushed? ==> e.url in s.pending
    ensures RoundsOrdered(s1)
  {
    forall u | u in s1.pending ensures WasChosen(s1.log, |s1.log|, u, s1.round) {
      if u in s.pending {
        WasChosenLater(s.log, e, |s.log|, u, s.round);
      } else {
        assert s1.log[|s.log|] == e;
      }
    }
    forall k | 0 <= k < |s1.log| && s1.log[k].Pushed? ensures WasChosen(s1.log, k, s1.log[k].url, s1.log[k].n) {
      if k < |s.log| {
        WasChosenLater(s.log, e, k, s.log[k].url, s.log[k].n);
      } else {
        WasChosenLater(s.log, e, |s.log|, e.url, s.round);
      }
    }
  }

  lemma NewRoundIsOrdered(s: LoopState, now: Tp)
    requires RoundsOrdered(s)
    ensures RoundsOrdered(s.(round := s.round + 1, now := now, pending := {}))
  {
  }

  lemma HistoryMatchesBound(s: LoopState, u: Url, bound: Tp, later: Tp)
    requires HistoryMatchesLog(s.attempts, s.log, u, bound) && bound <= later
    ensures HistoryMatchesLog(s.attempts, s.log, u, later)
  {
  }

  lemma StepKeepsSpacing(s: LoopState, step: Step, rounding: Tp -> Tp, u: Url, before: Tp, after: Tp)
    requires MonotoneRounding(rounding) && before <= after
    requires (forall v :: HistoryMatchesLog(s.attempts, s.log, v, rounding(before)))
    requires LogSpaced(s.log) && RoundsOrdered(s) && NoEmptyHistory(s.attempts)
    requires step.Push? ==> step.tp == after
    requires step.Result? ==> step.now == after
    ensures SpacingKept(StepLoop(s, step, rounding), u, rounding(after))
  {
    hide LogSpaced, RoundsOrdered, ChoiceSpaced;
    assert HistoryMatchesLog(s.attempts, s.log, u, rounding(before));
    HistoryMatchesBound(s, u, rounding(before), rounding(after));
    match step
    case StartRound(now) => NewRoundIsOrdered(s, now);
    case Choose(c, via) =>
      if Verdict(via, HistoryOf(s.attempts, c), s.now) == ALLOW {
        assert HistoryMatchesLog(s.attempts, s.log, c, rounding(before));
        NewChoiceSpaced(s, c, via, rounding(before));
        EntryKeepsSpacing(s, StepLoop(s, step, rounding), Chosen(c, s.round, via, s.now), u, rounding(before),
          rounding(after));
      }
    case Push(c, tp) =>
      if c in s.pending {
        EntryKeepsSpacing(s, StepLoop(s, step, rounding), Pushed(c, s.round, rounding(tp)), u, rounding(before),
          rounding(after));
      }
    case Result(c, status, now) =>
      ResultKeepsSpacing(s, StepLoop(s, step, rounding), c, status, rounding(now), u, rounding(before));
  }

  lemma ResultKeepsSpacing(s: LoopState, s1: LoopState, c: Url, status: AttemptStatus, stored: Tp, u: Url, bound: Tp)
    requires SpacingKept(s, u, bound) && bound <= stored
    requires s1 == s.(attempts := StatusSet(s.attempts, c, status, stored),
      log := s.log + [Recorded(c, s.round, status, stored)])
    ensures SpacingKept(s1, u, stored)
  {
    var h := HistoryOf(s.attempts, c);
    var h1 := Stepped(h, Outcome(status, stored));
    assert h1[|h1| - 1].status == status && (h != [] ==> h1[|h1| - 1].tp == h[|h| - 1].tp);
    EntryKeepsSpacing(s, s1, Recorded(c, s.round, status, stored), u, bound, stored);
  }

  lemma EntryKeepsSpacing(s: LoopState, s1: LoopState, e: Entry, u: Url, bound: Tp, bound1: Tp)
    requires SpacingKept(s, u, bound) && bound <= bound1
    requires s1.log == s.log + [e] && s1.round == s.round && e.n == s.round && NoEmptyHistory(s1.attempts)
    requires s1.pending == if e.Chosen? then s.pending + {e.url} else s.pending
    requires e.Chosen? ==> ChoiceSpaced(s.log + [e], |s.log|)
    requires e.Pushed? ==> e.url in s.pending
    requires e.url != u || e.Chosen? ==> HistoryOf(s1.attempts, u) == HistoryOf(s.attempts, u)
    requires e.url == u && e.Pushed? ==>
      bound <= e.stored <= bound1 && HistoryOf(s1.attempts, u) == Added(HistoryOf(s.attempts, u), e.stored)
    requires e.url == u && e.Recorded? ==>
      var h := HistoryOf(s.attempts, u);
      var h1 := HistoryOf(s1.attempts, u);
      h1 != [] && h1[|h1| - 1].status == e.status && (h != [] ==> h1[|h1| - 1].tp == h[|h| - 1].tp)
    ensures SpacingKept(s1, u, bound1)
  {
    AppendKeepsSpacing(s.log, e);
    AppendKeepsHistory(s.attempts, s1.attempts, s.log, e, u, bound, bound1);
    AppendKeepsRounds(s, s1, e);
  }

  lemma {:induction false} RunKeepsSpacing(stored: Attempts, steps: seq<Step>, rounding: Tp -> Tp, u: Url, t: Tp)
    requires MonotoneRounding(rounding) && NoEmptyHistory(stored) && ReadingsOrdered(steps, t)
    ensures SpacingKept(RunLoop(stored, steps, rounding), u, rounding(t))
    decreases |steps|
  {
    if steps != [] {
      var n := |steps| - 1;
      var step := steps[n];
      var before := ReadingBefore(step, t);
      var s := RunLoop(stored, steps[..n], rounding);
      RunKeepsSpacing(stored, steps[..n], rounding, u, before);
      forall v ensures HistoryMatchesLog(s.attempts, s.log, v, rounding(before)) {
        RunKeepsSpacing(stored, steps[..n], rounding, v, before);
      }
      StepKeepsSpacing(s, step, rounding, u, before, before);
      HistoryMatchesLater(RunLoop(stored, steps, rounding), u, rounding(before), rounding(t));
    }
  }

  lemma HistoryMatchesLater(s: LoopState, u: Url, bound: Tp, later: Tp)
    requires SpacingKept(s, u, bound) && bound <= later
    ensures SpacingKept(s, u, later)
  {
  }

  /** Whenever a url is chosen again, it is at least an hour after the stored time of every earlier
      push; under the page policy a day if no result came since, and a week if the result was OK;
      under the robots policy a day after any final result. */
  lemma ChoicesAreSpaced(stored: Attempts, steps: seq<Step>, rounding: Tp -> Tp, t: Tp, i: nat, j: nat)
    requires MonotoneRounding(rounding) && NoEmptyHistory(stored) && ReadingsOrdered(steps, t)
    requires
      var log := RunLoop(stored, steps, rounding).log;
      i < j < |log| && log[i].Pushed? && log[j].Chosen? && log[i].url == log[j].url
    ensures
      var log := RunLoop(stored, steps, rounding).log;
      var status := StatusInLog(log[..j], log[j].url);
      && status.Some?
      && LeastWait(log[j].via, status.value).Some?
      && log[j].now - log[i].stored >= LeastWait(log[j].via, status.value).value >= HOUR
  {
    hide RunLoop, HistoryMatchesLog, RoundsOrdered, StatusInLog;
    var log := RunLoop(stored, steps, rounding).log;
    RunKeepsSpacing(stored, steps, rounding, log[j].url, t);
    assert ChoiceSpaced(log, j);
  }

  /** Two rounds that push the same url: the later one decided at least an hour after the time
      stored for the earlier one. */
  lemma RoundsAreSpaced(stored: Attempts, steps: seq<Step>, rounding: Tp -> Tp, t: Tp, i: nat, k: nat)
    requires MonotoneRounding(rounding) && NoEmptyHistory(stored) && ReadingsOrdered(steps, t)
    requires
      var log := RunLoop(stored, steps, rounding).log;
      i < |log| && k < |log| && log[i].Pushed? && log[k].Pushed? && log[i].url == log[k].url && log[i].n < log[k].n
    ensures
      var log := RunLoop(stored, steps, rounding).log;
      exists j :: i < j < k && log[j].Chosen? && log[j].url == log[k].url && log[j].n == log[k].n &&
        log[j].now - log[i].stored >= HOUR
  {
    var log := RunLoop(stored, steps, rounding).log;
    RunKeepsSpacing(stored, steps, rounding, log[k].url, t);
    assert WasChosen(log, k, log[k].url, log[k].n);
    var j :| 0 <= j < k && log[j].Chosen? && log[j].url == log[k].url && log[j].n == log[k].n;
    assert i < j;
    ChoicesAreSpaced(stored, steps, rounding, t, i, j);
  }

  /** Recording a whole batch as enqueued is pushing its urls one by one at the same reading. */
  function PushSteps(urls: seq<Url>, tp: Tp): seq<Step> {
    seq(|urls|, i requires 0 <= i < |urls| => Push(urls[i], tp))
  }

  function StepsFrom(s: LoopState, steps: seq<Step>, rounding: Tp -> Tp): LoopState {
    if steps == [] then s else StepLoop(StepsFrom(s, steps[..|steps| - 1], rounding), steps[|steps| - 1], rounding)
  }

  lemma {:induction false} BatchIsPushes(s: LoopState, urls: seq<Url>, tp: Tp, rounding: Tp -> Tp)
    requires forall u :: u in urls ==> u in s.pending
    ensures StepsFrom(s, PushSteps(urls, tp), rounding).attempts == AllEnqueued(s.attempts, urls, rounding(tp))
    ensures StepsFrom(s, PushSteps(urls, tp), rounding).pending == s.pending
  {
    if urls != [] {
      var n := |urls| - 1;
      BatchIsPushes(s, urls[..n], tp, rounding);
      assert PushSteps(urls, tp)[..n] == PushSteps(urls[..n], tp);
      assert PushSteps(urls, tp)[n] == Push(urls[n], tp);
    }
  }

  /** A list of results is its results one by one at the same reading. */
  function ResultSteps(results: seq<FetchResult>, now: Tp): seq<Step> {
    seq(|results|, i requires 0 <= i < |results| => Result(results[i].gfq.url, results[i].status, now))
  }

  lemma {:induction false} ResultsAreSteps(s: LoopState, results: seq<FetchResult>, now: Tp, rounding: Tp -> Tp)
    ensures StepsFrom(s, ResultSteps(results, now), rounding).attempts ==
      AllStatusSet(s.attempts, results, rounding(now))
  {
    if results != [] {
      var n := |results| - 1;
      ResultsAreSteps(s, results[..n], now, rounding);
      assert ResultSteps(results, now)[..n] == ResultSteps(results[..n], now);
      assert ResultSteps(results, now)[n] == Result(results[n].gfq.url, results[n].status, now);
    }
  }

  lemma {:induction false} StepsFromAppend(s: LoopState, a: seq<Step>, b: seq<Step>, rounding: Tp -> Tp)
    ensures StepsFrom(s, a + b, rounding) == StepsFrom(StepsFrom(s, a, rounding), b, rounding)
  {
    if b == [] {
      assert a + b == a;
    } else {
      assert (a + b)[..|a + b| - 1] == a + b[..|b| - 1];
      StepsFromAppend(s, a, b[..|b| - 1], rounding);
    }
  }

  lemma StepsFromStep(s: LoopState, steps: seq<Step>, step: Step, rounding: Tp -> Tp)
    ensures StepsFrom(s, steps + [step], rounding) == StepLoop(StepsFrom(s, steps, rounding), step, rounding)
  {
    assert (steps + [step])[..|steps|] == steps;
  }

  function ChooseSteps(urls: seq<Url>, vias: seq<Policy>): seq<Step>
    requires |urls| == |vias|
  {
    seq(|urls|, i requires 0 <= i < |urls| => Choose(urls[i], vias[i]))
  }

  lemma ChooseStepsStep(urls: seq<Url>, vias: seq<Policy>)
    requires |urls| == |vias| > 0
    ensures
      var n := |urls| - 1;
      ChooseSteps(urls, vias) == ChooseSteps(urls[..n], vias[..n]) + [Choose(urls[n], vias[n])]
  {
  }

  lemma NoSteps(s: LoopState, rounding: Tp -> Tp)
    ensures StepsFrom(s, ChooseSteps([], []), rounding) == s
  {
  }

  /** Choosing allowed urls one by one makes exactly them pending, and changes no history. */
  lemma {:induction false} ChoicesPend(s: LoopState, urls: seq<Url>, vias: seq<Policy>, rounding: Tp -> Tp)
    requires |urls| == |vias|
    requires forall i :: 0 <= i < |urls| ==> Verdict(vias[i], HistoryOf(s.attempts, urls[i]), s.now) == ALLOW
    ensures
      var s1 := StepsFrom(s, ChooseSteps(urls, vias), rounding);
      s1.attempts == s.attempts && s1.now == s.now && s1.pending == s.pending + ToSet(urls)
  {
    hide Verdict, StepsFrom, ChooseSteps;
    if urls == [] {
      NoSteps(s, rounding);
    } else {
      var n := |urls| - 1;
      ChoicesPend(s, urls[..n], vias[..n], rounding);
      ChooseStepsStep(urls, vias);
      StepsFromStep(s, ChooseSteps(urls[..n], vias[..n]), Choose(urls[n], vias[n]), rounding);
      assert ToSet(urls) == ToSet(urls[..n]) + {urls[n]};
    }
  }

  /** The steps of one whole round whose last pass looked at the clock at `now`. */
  function RoundSteps(urls: seq<Url>, vias: seq<Policy>, now: Tp, tp: Tp): seq<Step>
    requires |urls| == |vias|
  {
    [StartRound(now)] + ChooseSteps(urls, vias) + PushSteps(urls, tp)
  }

  /** A round that pushes allowed urls is a run of the steps in which no step is idle: the urls are
      all chosen when they are pushed, and the histories end up as the batch leaves them. */
  lemma RoundIsRun(s: LoopState, urls: seq<Url>, vias: seq<Policy>, now: Tp, tp: Tp, rounding: Tp -> Tp)
    requires |urls| == |vias|
    requires forall i :: 0 <= i < |urls| ==> Verdict(vias[i], HistoryOf(s.attempts, urls[i]), now) == ALLOW
    ensures StepsFrom(s, [StartRound(now)] + ChooseSteps(urls, vias), rounding).pending == ToSet(urls)
    ensures StepsFrom(s, RoundSteps(urls, vias, now, tp), rounding).attempts ==
      AllEnqueued(s.attempts, urls, rounding(tp))
  {
    var begun := StepLoop(s, StartRound(now), rounding);
    assert [StartRound(now)][..0] == [];
    assert StepsFrom(s, [StartRound(now)], rounding) == begun;
    StepsFromAppend(s, [StartRound(now)], ChooseSteps(urls, vias), rounding);
    ChoicesPend(begun, urls, vias, rounding);
    var chosen := StepsFrom(begun, ChooseSteps(urls, vias), rounding);
    StepsFromAppend(s, [StartRound(now)] + ChooseSteps(urls, vias), PushSteps(urls, tp), rounding);
    BatchIsPushes(chosen, urls, tp, rounding);
  }

  /** Continuing a run is one longer run. */
  lemma {:induction false} RunContinues(stored: Attempts, before: seq<Step>, steps: seq<Step>, rounding: Tp -> Tp)
    ensures RunLoop(stored, before + steps, rounding) == StepsFrom(RunLoop(stored, before, rounding), steps, rounding)
  {
    if steps == [] {
      assert before + steps == before;
    } else {
      assert (before + steps)[..|before + steps| - 1] == before + steps[..|steps| - 1];
      RunContinues(stored, before, steps[..|steps| - 1], rounding);
    }
  }
}
