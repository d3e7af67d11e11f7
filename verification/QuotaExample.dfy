/** The shortest kind of run in which counters of an older day break the daily quota, although
    everything saved is merged before each round. */
module QuotaExample {
  import opened Clock
  import opened Types
  import opened UrlsDaysStore
  import opened UrlsDaysHistory
  import opened UrlsDaysProtocol
  import opened CrawledCounters
  import opened DailyQuota
  import opened QuotaRuns

  /** One way of merging: each record straight away, at its own time. */
  function Prompt(saved: seq<UrlTpStat>): History {
    if saved == [] then Empty
    else
      var s := saved[|saved| - 1];
      Add(Prompt(saved[..|saved| - 1]), s, s.tp)
  }

  lemma {:induction false} PromptMerges(saved: seq<UrlTpStat>, t: Tp)
    requires forall s :: s in saved ==> s.tp <= t
    ensures Merged(Prompt(saved), saved, t)
  {
    if saved != [] {
      var n := |saved| - 1;
      assert saved[n] in saved;
      PromptMerges(saved[..n], t);
      var events := Events(Prompt(saved[..n]));
      var e := Arrival(saved[n], saved[n].tp);
      assert Events(Prompt(saved)) == events + [e];
      assert StatsOf(events + [e]) == StatsOf(events) + [saved[n]];
      assert saved == saved[..n] + [saved[n]];
    }
  }

  ghost function Reads(saved: seq<UrlTpStat>, u: Url): Cnt {
    LatestCount(EntryOf(Eval(Prompt(saved)), u).visits)
  }

  /** What a counter reads when the last day with a record is `d`. */
  lemma PromptReads(saved: seq<UrlTpStat>, t: Tp, u: Url, d: DayKey)
    requires forall s :: s in saved ==> s.tp <= t
    requires forall e :: HasRecord(saved, u, e) ==> OldestDay(t) <= e.num <= d.num
    requires HasRecord(saved, u, d) || forall e :: !HasRecord(saved, u, e)
    ensures Reads(saved, u) == DayCount(saved, u, d)
  {
    PromptMerges(saved, t);
    if HasRecord(saved, u, d) {
      CounterReadsLatestDay(Prompt(saved), saved, t, u, d);
    } else {
      CounterWithoutRecord(Prompt(saved), saved, t, u);
      NoRecordNoCount(saved, u, d);
    }
  }

  lemma AskedByReads(saved: seq<UrlTpStat>, target: Cnt, hours: nat, fakeUrl: int -> Url)
    ensures
      Asked(Prompt(saved), target, hours, fakeUrl) ==
      ToEnqueue(target, Reads(saved, fakeUrl(0)),
        Reads(saved, fakeUrl(2)) + Reads(saved, fakeUrl(3)) + Reads(saved, fakeUrl(4)) + Reads(saved, fakeUrl(5)),
        hours)
  {
  }

  // ---------------------------------------------------------------- what the run saves

  /** Whole hours to the end of the day. */
  function HoursLeft(t: Tp): nat {
    (DAY - t % DAY) / HOUR
  }

  lemma HoursLeftValues()
    ensures HoursLeft(23 * HOUR) == 1 && HoursLeft(DAY) == 24 && HoursLeft(DAY + HOUR) == 23
    ensures HoursLeft(DAY + 22 * HOUR) == 2
  {
  }

  /** The `i`-th record: its status, its time and its count. */
  function CodeAt(i: int): int {
    if i == 1 then 4 else if i == 4 then 2 else 0
  }

  function TpAt(i: int): Tp {
    if i < 2 then 23 * HOUR else if i == 2 then DAY else if i == 3 then DAY + HOUR
    else if i == 4 then DAY + 2 * HOUR else DAY + 22 * HOUR
  }

  function CntAt(i: int): Cnt {
    if i == 2 then 0 else 1
  }

  function RecordAt(i: int, fakeUrl: int -> Url): UrlTpStat {
    UrlTpStat(fakeUrl(CodeAt(i)), TpAt(i), CntAt(i))
  }

  function Records(n: nat, fakeUrl: int -> Url): seq<UrlTpStat> {
    if n == 0 then [] else Records(n - 1, fakeUrl) + [RecordAt(n - 1, fakeUrl)]
  }

  function DayAt(i: int): DayKey {
    if i < 2 then DayKey(0) else DayKey(1)
  }

  lemma DaysOfRecords(i: nat, fakeUrl: int -> Url)
    ensures KeyOf(RecordAt(i, fakeUrl).tp) == DayAt(i)
  {
  }

  lemma {:induction false} RecordTimes(n: nat, fakeUrl: int -> Url)
    ensures forall s :: s in Records(n, fakeUrl) ==> s.tp <= TpAt(n)
  {
    if n > 0 {
      RecordTimes(n - 1, fakeUrl);
    }
  }

  lemma NothingYet(code: int, d: DayKey, fakeUrl: int -> Url)
    ensures !HasRecord(Records(0, fakeUrl), fakeUrl(code), d)
    ensures DayCount(Records(0, fakeUrl), fakeUrl(code), d) == 0 && Saved(Records(0, fakeUrl), fakeUrl(code)) == 0
  {
  }

  lemma OneMoreRecord(n: nat, code: int, d: DayKey, fakeUrl: int -> Url)
    requires DistinctUrls(fakeUrl)
    ensures
      HasRecord(Records(n + 1, fakeUrl), fakeUrl(code), d) <==>
      HasRecord(Records(n, fakeUrl), fakeUrl(code), d) || (CodeAt(n) == code && DayAt(n) == d)
    ensures
      DayCount(Records(n + 1, fakeUrl), fakeUrl(code), d) ==
      DayCount(Records(n, fakeUrl), fakeUrl(code), d) + if CodeAt(n) == code && DayAt(n) == d then CntAt(n) else 0
    ensures
      Saved(Records(n + 1, fakeUrl), fakeUrl(code)) ==
      Saved(Records(n, fakeUrl), fakeUrl(code)) + if CodeAt(n) == code then CntAt(n) else 0
  {
    var saved, s := Records(n, fakeUrl), RecordAt(n, fakeUrl);
    DaysOfRecords(n, fakeUrl);
    assert CodeAt(n) != code ==> fakeUrl(CodeAt(n)) != fakeUrl(code);
    assert forall x :: x in saved + [s] <==> x in saved || x == s;
    DayCountStep(saved, s, fakeUrl(code), d);
    SavedStep(saved, s, fakeUrl(code));
  }

  lemma {:induction false} RecordedDays(n: nat, code: int, d: DayKey, fakeUrl: int -> Url)
    requires DistinctUrls(fakeUrl) && n <= 5
    ensures
      HasRecord(Records(n, fakeUrl), fakeUrl(code), d) <==>
      || (d == DayKey(0) && ((code == 0 && n >= 1) || (code == 4 && n >= 2)))
      || (d == DayKey(1) && ((code == 0 && n >= 3) || (code == 2 && n >= 5)))
  {
    hide Records, HasRecord;
    if n == 0 {
      NothingYet(code, d, fakeUrl);
    } else {
      RecordedDays(n - 1, code, d, fakeUrl);
      OneMoreRecord(n - 1, code, d, fakeUrl);
    }
  }

  lemma {:induction false} RecordedCounts(n: nat, code: int, d: DayKey, fakeUrl: int -> Url)
    requires DistinctUrls(fakeUrl) && n <= 6
    ensures
      DayCount(Records(n, fakeUrl), fakeUrl(code), d) ==
      if d == DayKey(0) then (if (code == 0 && n >= 1) || (code == 4 && n >= 2) then 1 else 0)
      else if d != DayKey(1) then 0
      else if code == 0 then (if n <= 3 then 0 else if n <= 5 then 1 else 2)
      else if code == 2 && n >= 5 then 1
      else 0
  {
    hide Records, DayCount;
    if n == 0 {
      NothingYet(code, d, fakeUrl);
    } else {
      RecordedCounts(n - 1, code, d, fakeUrl);
      OneMoreRecord(n - 1, code, d, fakeUrl);
    }
  }

  lemma {:induction false} RecordedTotals(n: nat, code: int, fakeUrl: int -> Url)
    requires DistinctUrls(fakeUrl) && n <= 5
    ensures
      Saved(Records(n, fakeUrl), fakeUrl(code)) ==
      if code == 0 then (if n == 0 then 0 else if n <= 3 then 1 else 2)
      else if (code == 4 && n >= 2) || (code == 2 && n == 5) then 1
      else 0
  {
    hide Records, Saved;
    if n == 0 {
      NothingYet(code, DayKey(0), fakeUrl);
    } else {
      RecordedTotals(n - 1, code, fakeUrl);
      OneMoreRecord(n - 1, code, DayKey(0), fakeUrl);
    }
  }

  lemma RecordReads(n: nat, code: int, fakeUrl: int -> Url)
    requires DistinctUrls(fakeUrl) && n <= 5
    ensures
      Reads(Records(n, fakeUrl), fakeUrl(code)) ==
      if code == 0 then (if n == 0 || n == 3 then 0 else 1)
      else if (code == 4 && n >= 2) || (code == 2 && n == 5) then 1
      else 0
  {
    hide Records, HasRecord, DayCount, Reads;
    var saved := Records(n, fakeUrl);
    var d := if (code == 0 && n >= 3) || code == 2 then DayKey(1) else DayKey(0);
    forall e ensures HasRecord(saved, fakeUrl(code), e) ==> OldestDay(TpAt(n)) <= e.num <= d.num {
      RecordedDays(n, code, e, fakeUrl);
    }
    forall e ensures HasRecord(saved, fakeUrl(code), e) ==> HasRecord(saved, fakeUrl(code), d) {
      RecordedDays(n, code, e, fakeUrl);
      RecordedDays(n, code, d, fakeUrl);
    }
    RecordTimes(n, fakeUrl);
    PromptReads(saved, TpAt(n), fakeUrl(code), d);
    RecordedCounts(n, code, d, fakeUrl);
  }

  /** What the four rounds ask for when the target is one. */
  lemma RoundAsks(n: nat, fakeUrl: int -> Url)
    requires DistinctUrls(fakeUrl) && n in {0, 2, 3, 5}
    ensures Asked(Prompt(Records(n, fakeUrl)), 1, HoursLeft(TpAt(n)), fakeUrl) == CntAt(n)
  {
    RecordReads(n, 0, fakeUrl);
    RecordReads(n, 2, fakeUrl);
    RecordReads(n, 3, fakeUrl);
    RecordReads(n, 4, fakeUrl);
    RecordReads(n, 5, fakeUrl);
    AskedByReads(Records(n, fakeUrl), 1, HoursLeft(TpAt(n)), fakeUrl);
    HoursLeftValues();
    ToEnqueueValues();
  }

  lemma ToEnqueueValues()
    ensures ToEnqueue(1, 0, 0, 1) == 1 && ToEnqueue(1, 1, 1, 24) == 0
    ensures ToEnqueue(1, 0, 1, 23) == 1 && ToEnqueue(1, 1, 2, 2) == 1
  {
    assert Cast(1, 1) == 1 && Cast(0, 24) == 0 && Cast(0, 23) == 0 && Cast(-1, 2) == 0;
  }

  // ---------------------------------------------------------------- the run

  /** One url pushed at 23:00, which fails; a round at midnight; one pushed at 1:00, which is done;
      and a round two hours before the next midnight. */
  function StepAt(n: nat, fakeUrl: int -> Url, failed: FetchResult, done: FetchResult): QuotaStep {
    if n == 1 then Results([failed], [RecordAt(n, fakeUrl)])
    else if n == 4 then Results([done], [RecordAt(n, fakeUrl)])
    else
      var saved := Records(n, fakeUrl);
      Round(Prompt(saved), saved, [], HoursLeft(TpAt(n)), CntAt(n), TpAt(n))
  }

  function Steps(n: nat, fakeUrl: int -> Url, failed: FetchResult, done: FetchResult): seq<QuotaStep> {
    if n == 0 then [] else Steps(n - 1, fakeUrl, failed, done) + [StepAt(n - 1, fakeUrl, failed, done)]
  }

  lemma RoundStep(n: nat, fakeUrl: int -> Url, failed: FetchResult, done: FetchResult)
    requires DistinctUrls(fakeUrl) && n in {0, 2, 3, 5}
    ensures
      var step := StepAt(n, fakeUrl, failed, done);
      && RegularStep(Records(n, fakeUrl), step, 1, fakeUrl) && SettledStep(Records(n, fakeUrl), step, fakeUrl)
      && step.pushed == Asked(step.h, 1, step.hours, fakeUrl)
  {
    hide Records, Prompt, Asked, Merged, HoursLeft;
    var saved := Records(n, fakeUrl);
    RoundAsks(n, fakeUrl);
    RecordTimes(n, fakeUrl);
    PromptMerges(saved, TpAt(n));
    assert saved + [] == saved;
  }

  lemma OneResult(r: FetchResult, tp: Tp, fakeUrl: int -> Url)
    requires DistinctUrls(fakeUrl)
    ensures AddsUp([r], [UrlTpStat(fakeUrl(CodeOf(r.status)), tp, 1)], fakeUrl)
  {
    var s := UrlTpStat(fakeUrl(CodeOf(r.status)), tp, 1);
    forall status ensures Saved([s], fakeUrl(CodeOf(status))) == CountStatus([r], status) {
      SavedOne(s, fakeUrl(CodeOf(status)), DayKey(0));
      assert status != r.status ==> CodeOf(status) != CodeOf(r.status);
      assert [r][..0] == [];
    }
    CodesAddUp([r], [s], fakeUrl);
  }

  lemma ResultStep(n: nat, fakeUrl: int -> Url, failed: FetchResult, done: FetchResult)
    requires DistinctUrls(fakeUrl) && failed.status == S4XX && done.status == OK
    requires n == 1 || n == 4
    ensures
      var step := StepAt(n, fakeUrl, failed, done);
      RegularStep(Records(n, fakeUrl), step, 1, fakeUrl) && SettledStep(Records(n, fakeUrl), step, fakeUrl)
  {
    OneResult(if n == 1 then failed else done, TpAt(n), fakeUrl);
    RecordedTotals(n, 0, fakeUrl);
    RecordedTotals(n, 2, fakeUrl);
    RecordedTotals(n, 3, fakeUrl);
    RecordedTotals(n, 4, fakeUrl);
    RecordedTotals(n, 5, fakeUrl);
  }

  lemma StepSaves(n: nat, fakeUrl: int -> Url, failed: FetchResult, done: FetchResult)
    ensures SavedBy(StepAt(n, fakeUrl, failed, done), fakeUrl) == [RecordAt(n, fakeUrl)]
    ensures StepAt(n, fakeUrl, failed, done).Round? <==> n != 1 && n != 4
  {
  }

  /** A regular, settled run of full rounds that has saved the first `n` records. */
  ghost predicate GoodRun(steps: seq<QuotaStep>, n: nat, fakeUrl: int -> Url) {
    && RegularRun(steps, 1, fakeUrl) && AllFull(steps, 1, fakeUrl) && SettledRun(steps, fakeUrl)
    && SavedSoFar(steps, fakeUrl) == Records(n, fakeUrl)
  }

  lemma NothingIsGood(fakeUrl: int -> Url)
    ensures GoodRun([], 0, fakeUrl)
  {
  }

  lemma GoodRunGoesOn(before: seq<QuotaStep>, n: nat, step: QuotaStep, fakeUrl: int -> Url)
    requires GoodRun(before, n, fakeUrl)
    requires RegularStep(Records(n, fakeUrl), step, 1, fakeUrl) && SettledStep(Records(n, fakeUrl), step, fakeUrl)
    requires step.Round? ==> step.pushed == Asked(step.h, 1, step.hours, fakeUrl)
    requires SavedBy(step, fakeUrl) == [RecordAt(n, fakeUrl)]
    ensures GoodRun(before + [step], n + 1, fakeUrl)
  {
    RunGoesOn(before, step, 1, fakeUrl);
    assert (before + [step])[..|before|] == before;
  }

  lemma {:induction false} StepsAreGood(n: nat, fakeUrl: int -> Url, failed: FetchResult, done: FetchResult)
    requires DistinctUrls(fakeUrl) && failed.status == S4XX && done.status == OK && n <= 6
    ensures GoodRun(Steps(n, fakeUrl, failed, done), n, fakeUrl) && |Steps(n, fakeUrl, failed, done)| == n
  {
    hide GoodRun, StepAt, RegularStep, SettledStep;
    if n == 0 {
      NothingIsGood(fakeUrl);
    } else {
      StepsAreGood(n - 1, fakeUrl, failed, done);
      if n == 2 || n == 5 {
        ResultStep(n - 1, fakeUrl, failed, done);
      } else {
        RoundStep(n - 1, fakeUrl, failed, done);
      }
      StepSaves(n - 1, fakeUrl, failed, done);
      GoodRunGoesOn(Steps(n - 1, fakeUrl, failed, done), n - 1, StepAt(n - 1, fakeUrl, failed, done), fakeUrl);
    }
  }

  lemma {:induction false} HoursAgree(n: nat, fakeUrl: int -> Url, failed: FetchResult, done: FetchResult)
    ensures forall step :: step in Steps(n, fakeUrl, failed, done) && step.Round? ==> step.hours == HoursLeft(step.tp)
  {
    if n > 0 {
      HoursAgree(n - 1, fakeUrl, failed, done);
    }
  }

  /** On a later day the quota can break: statuses that did not occur today still read yesterday's
      counts. The last of six steps pushes a second url on a day whose target is one; it is the only
      one that is not guarded. */
  lemma QuotaBreaksOnSecondDay(fakeUrl: int -> Url, failed: FetchResult, done: FetchResult)
    requires DistinctUrls(fakeUrl) && failed.status == S4XX && done.status == OK
    ensures
      var steps := Steps(6, fakeUrl, failed, done);
      && RegularRun(steps, 1, fakeUrl) && SettledRun(steps, fakeUrl) && AllFull(steps, 1, fakeUrl)
      && (forall step :: step in steps && step.Round? ==> step.hours == HoursLeft(step.tp))
      && DayEnqueued(SavedSoFar(steps, fakeUrl), DayKey(1), fakeUrl) == 2
    ensures
      var before := Steps(5, fakeUrl, failed, done);
      && QuotaKept(SavedSoFar(before, fakeUrl), 1, fakeUrl) && AllGuarded(before, 1, fakeUrl)
      && Steps(6, fakeUrl, failed, done) == before + [StepAt(5, fakeUrl, failed, done)]
      && !Guarded(StepAt(5, fakeUrl, failed, done), 1, fakeUrl)
  {
    StepsAreGood(5, fakeUrl, failed, done);
    StepsAreGood(6, fakeUrl, failed, done);
    HoursAgree(6, fakeUrl, failed, done);
    RecordedCounts(6, 0, DayKey(1), fakeUrl);
    forall d ensures DayEnqueued(Records(5, fakeUrl), d, fakeUrl) <= 1 {
      RecordedCounts(5, 0, d, fakeUrl);
    }
    KeptRunIsGuarded(Steps(5, fakeUrl, failed, done), 1, fakeUrl);
    QuotaIffGuarded(Steps(6, fakeUrl, failed, done), 1, fakeUrl);
    assert DayEnqueued(SavedSoFar(Steps(6, fakeUrl, failed, done), fakeUrl), DayKey(1), fakeUrl) == 2;
  }
}
