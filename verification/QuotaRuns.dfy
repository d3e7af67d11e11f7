/** What the rounds of the enqueue loop do to the daily quota, over runs of any number of days. */
module QuotaRuns {
  import opened Clock
  import opened Types
  import opened UrlsDaysStore
  import opened UrlsDaysHistory
  import opened UrlsDaysProtocol
  import opened CrawledCounters
  import opened DailyQuota

  /** Rounds that push what they found, and results coming in. A round reads the store that the
      history `h` leaves behind, while only `seen` of all that was saved is merged and `queued` is
      not; `tp` is the reading that its own record is stamped with. */
  datatype QuotaStep =
    | Round(h: History, seen: seq<UrlTpStat>, queued: seq<UrlTpStat>, hours: nat, pushed: nat, tp: Tp)
    | Results(results: seq<FetchResult>, added: seq<UrlTpStat>)

  function SavedBy(step: QuotaStep, fakeUrl: int -> Url): seq<UrlTpStat> {
    match step
    case Round(_, _, _, _, pushed, tp) => [UrlTpStat(fakeUrl(0), tp, pushed)]
    case Results(_, added) => added
  }

  function SavedSoFar(steps: seq<QuotaStep>, fakeUrl: int -> Url): seq<UrlTpStat> {
    if steps == [] then [] else SavedSoFar(steps[..|steps| - 1], fakeUrl) + SavedBy(steps[|steps| - 1], fakeUrl)
  }

  /** How many urls were pushed on a day. */
  function DayEnqueued(saved: seq<UrlTpStat>, d: DayKey, fakeUrl: int -> Url): Cnt {
    DayCount(saved, fakeUrl(0), d)
  }

  function EnqueuedIn(saved: seq<UrlTpStat>, fakeUrl: int -> Url): Cnt {
    Saved(saved, fakeUrl(0))
  }

  function FinishedIn(saved: seq<UrlTpStat>, fakeUrl: int -> Url): Cnt {
    Saved(saved, fakeUrl(2)) + Saved(saved, fakeUrl(3)) + Saved(saved, fakeUrl(4)) + Saved(saved, fakeUrl(5))
  }

  /** What a round asks for when it reads the store left by `h`. */
  ghost function Asked(h: History, target: Cnt, hours: nat, fakeUrl: int -> Url): Cnt {
    ToEnqueue(target, EnqueuedOf(Eval(h), fakeUrl), FinishedOf(Eval(h), fakeUrl), hours)
  }

  /** The round reads `store`: by the time of the round some of what was saved is merged into it. */
  ghost predicate ReadsStore(saved: seq<UrlTpStat>, step: QuotaStep, store: Store) {
    && step.Round?
    && Eval(step.h) == store
    && IsSplit(saved, step.seen, step.queued)
    && Merged(step.h, step.seen, step.tp)
  }

  /** A round pushes at most what it computes from what is merged so far; every result is final. */
  ghost predicate RegularStep(saved: seq<UrlTpStat>, step: QuotaStep, target: Cnt, fakeUrl: int -> Url) {
    match step
    case Round(h, seen, queued, hours, pushed, t) =>
      ReadsStore(saved, step, Eval(h)) && pushed <= Asked(h, target, hours, fakeUrl)
    case Results(results, added) =>
      (forall r :: r in results ==> IsFinal(r.status)) && AddsUp(results, added, fakeUrl)
  }

  /** Some of what was saved has reached the store, in whatever order, and the rest is queued. */
  ghost predicate IsSplit(saved: seq<UrlTpStat>, seen: seq<UrlTpStat>, queued: seq<UrlTpStat>) {
    multiset(saved) == multiset(seen + queued)
  }

  ghost predicate RegularRun(steps: seq<QuotaStep>, target: Cnt, fakeUrl: int -> Url) {
    if steps == [] then true
    else
      var before := steps[..|steps| - 1];
      RegularRun(before, target, fakeUrl) &&
        RegularStep(SavedSoFar(before, fakeUrl), steps[|steps| - 1], target, fakeUrl)
  }

  // ---------------------------------------------------------------- sums

  lemma {:induction false} SavedAppend(a: seq<UrlTpStat>, b: seq<UrlTpStat>, u: Url)
    ensures Saved(a + b, u) == Saved(a, u) + Saved(b, u)
  {
    if b == [] {
      assert a + b == a;
    } else {
      assert (a + b)[..|a + b| - 1] == a + b[..|b| - 1];
      SavedAppend(a, b[..|b| - 1], u);
    }
  }

  lemma SavedOne(s: UrlTpStat, u: Url, d: DayKey)
    ensures Saved([s], u) == if u == s.url then s.cnt else 0
    ensures DayCount([s], u, d) == StatWeight(s, u, d)
  {
    assert [s][..0] == [];
  }

  lemma {:induction false} DayWithinSaved(saved: seq<UrlTpStat>, u: Url, d: DayKey)
    requires NotNegative(saved)
    ensures 0 <= DayCount(saved, u, d) <= Saved(saved, u)
  {
    if saved != [] {
      var n := |saved| - 1;
      assert saved[n] in saved;
      DayWithinSaved(saved[..n], u, d);
    }
  }

  /** Results are no pushes. */
  lemma ResultsTotals(results: seq<FetchResult>, added: seq<UrlTpStat>, fakeUrl: int -> Url)
    requires (forall r :: r in results ==> IsFinal(r.status)) && AddsUp(results, added, fakeUrl)
    ensures EnqueuedIn(added, fakeUrl) == 0 && FinishedIn(added, fakeUrl) == |results|
  {
    FinalsAddUp(results, added, fakeUrl);
  }

  ghost predicate OnDay(saved: seq<UrlTpStat>, d: DayKey) {
    forall s :: s in saved ==> KeyOf(s.tp) == d
  }

  lemma {:induction false} OneDaySaved(saved: seq<UrlTpStat>, u: Url, d: DayKey)
    requires OnDay(saved, d)
    ensures DayCount(saved, u, d) == Saved(saved, u)
  {
    if saved != [] {
      var n := |saved| - 1;
      assert saved[n] in saved;
      OneDaySaved(saved[..n], u, d);
    }
  }

  function PushedOn(step: QuotaStep, d: DayKey): Cnt {
    if step.Round? && KeyOf(step.tp) == d then step.pushed else 0
  }

  lemma StepCounts(saved: seq<UrlTpStat>, step: QuotaStep, target: Cnt, d: DayKey, fakeUrl: int -> Url)
    requires RegularStep(saved, step, target, fakeUrl)
    ensures NotNegative(saved) ==> NotNegative(saved + SavedBy(step, fakeUrl))
    ensures DayEnqueued(saved + SavedBy(step, fakeUrl), d, fakeUrl) ==
      DayEnqueued(saved, d, fakeUrl) + PushedOn(step, d)
  {
    DayCountAppend(saved, SavedBy(step, fakeUrl), fakeUrl(0), d);
    match step
    case Round(_, _, _, _, pushed, t) =>
      SavedOne(UrlTpStat(fakeUrl(0), t, pushed), fakeUrl(0), d);
    case Results(results, added) =>
      ResultsTotals(results, added, fakeUrl);
      DayWithinSaved(added, fakeUrl(0), d);
  }

  lemma {:induction false} RunNotNegative(steps: seq<QuotaStep>, target: Cnt, fakeUrl: int -> Url)
    requires RegularRun(steps, target, fakeUrl)
    ensures NotNegative(SavedSoFar(steps, fakeUrl))
  {
    if steps != [] {
      var n := |steps| - 1;
      RunNotNegative(steps[..n], target, fakeUrl);
      StepCounts(SavedSoFar(steps[..n], fakeUrl), steps[n], target, DayKey(0), fakeUrl);
    }
  }

  /** Once the record of a round is merged, the counter of pushes reads the other pushes of the day and
      those of the round. */
  lemma PushesReachCounter(saved: seq<UrlTpStat>, n: nat, tp: Tp, h: History, t: Tp, fakeUrl: int -> Url)
    requires Merged(h, saved + [UrlTpStat(fakeUrl(0), tp, n)], t) && KeyOf(tp) == KeyOf(t)
    ensures EnqueuedOf(Eval(h), fakeUrl) == DayCount(saved, fakeUrl(0), KeyOf(t)) + n
  {
    var s := UrlTpStat(fakeUrl(0), tp, n);
    assert s in saved + [s];
    CounterReadsToday(h, saved + [s], t, fakeUrl(0));
    DayCountStep(saved, s, fakeUrl(0), KeyOf(t));
  }

  /** What the store holds of a day under the four final statuses. */
  function FinishedOn(m: Store, d: DayKey, fakeUrl: int -> Url): Cnt {
    CountOf(m, fakeUrl(2), d) + CountOf(m, fakeUrl(3), d) + CountOf(m, fakeUrl(4), d) + CountOf(m, fakeUrl(5), d)
  }

  function DayFinished(saved: seq<UrlTpStat>, d: DayKey, fakeUrl: int -> Url): Cnt {
    DayCount(saved, fakeUrl(2), d) + DayCount(saved, fakeUrl(3), d) + DayCount(saved, fakeUrl(4), d) +
    DayCount(saved, fakeUrl(5), d)
  }

  lemma ResultsOfDay(saved: seq<UrlTpStat>, added: seq<UrlTpStat>, h: History, t: Tp, u: Url, d: DayKey)
    requires Merged(h, saved + added, t) && d.num >= OldestDay(t) && OnDay(added, d)
    ensures CountOf(Eval(h), u, d) == DayCount(saved, u, d) + Saved(added, u)
  {
    MergedCounts(h, saved + added, t, u, d);
    DayCountAppend(saved, added, u, d);
    OneDaySaved(added, u, d);
  }

  /** Once what is saved for final results is merged, the day has that many finished attempts more, and
      no push more. */
  lemma ResultsReachCounters(
      saved: seq<UrlTpStat>, results: seq<FetchResult>, added: seq<UrlTpStat>, h: History, t: Tp, d: DayKey,
      fakeUrl: int -> Url)
    requires (forall r :: r in results ==> IsFinal(r.status)) && AddsUp(results, added, fakeUrl) && OnDay(added, d)
    requires Merged(h, saved + added, t) && d.num >= OldestDay(t)
    ensures FinishedOn(Eval(h), d, fakeUrl) == DayFinished(saved, d, fakeUrl) + |results|
    ensures CountOf(Eval(h), fakeUrl(0), d) == DayCount(saved, fakeUrl(0), d)
  {
    hide Merged, DayCount, CountOf, OnDay;
    ResultsTotals(results, added, fakeUrl);
    ResultsOfDay(saved, added, h, t, fakeUrl(0), d);
    ResultsOfDay(saved, added, h, t, fakeUrl(2), d);
    ResultsOfDay(saved, added, h, t, fakeUrl(3), d);
    ResultsOfDay(saved, added, h, t, fakeUrl(4), d);
    ResultsOfDay(saved, added, h, t, fakeUrl(5), d);
  }

  // ---------------------------------------------------------------- one round, on any day

  /** How much of what is left of the target the hour's share does not ask for. */
  function Slack(target: Cnt, finished: Cnt, hours: nat): Cnt {
    if hours <= 1 then 0 else (target - finished) - Cast(target - finished, hours)
  }

  /** What the counter of pushes still holds of an older day. */
  ghost function Carried(h: History, t: Tp, fakeUrl: int -> Url): Cnt {
    if KeyOf(t) in EntryOf(Eval(h), fakeUrl(0)).visits then 0 else EnqueuedOf(Eval(h), fakeUrl)
  }

  /** The round asks for nothing, or what is queued for today fits into the slack of its hour and
      the older pushes that the counter still holds. */
  ghost predicate Guard(h: History, queuedToday: Cnt, target: Cnt, hours: nat, t: Tp, fakeUrl: int -> Url) {
    || Asked(h, target, hours, fakeUrl) == 0
    || queuedToday <= Slack(target, FinishedOf(Eval(h), fakeUrl), hours) + Carried(h, t, fakeUrl)
  }

  predicate WithinTarget(target: Cnt, enqueued: Cnt, pushed: Cnt) {
    enqueued + pushed <= target
  }

  lemma CounterNotNegative(h: History, saved: seq<UrlTpStat>, t: Tp, u: Url)
    requires Merged(h, saved, t) && NotNegative(saved)
    ensures LatestCount(EntryOf(Eval(h), u).visits) >= 0
  {
    var v := EntryOf(Eval(h), u).visits;
    if v != map[] {
      var events := Events(h);
      forall e | e in events ensures e.stat.cnt >= 0 {
        var i :| 0 <= i < |events| && events[i] == e;
        assert StatsOf(events)[i] == e.stat;
        assert e.stat in multiset(StatsOf(events));
      }
      CountsNotNegative(h, u, LatestDay(v.Keys));
    }
  }

  lemma NoRecordNoCount(saved: seq<UrlTpStat>, u: Url, d: DayKey)
    requires !HasRecord(saved, u, d)
    ensures DayCount(saved, u, d) == 0
  {
    if saved != [] {
      var n := |saved| - 1;
      assert saved[n] in saved;
      assert forall s :: s in saved[..n] ==> s in saved;
      NoRecordNoCount(saved[..n], u, d);
    }
  }

  lemma SplitCounts(saved: seq<UrlTpStat>, seen: seq<UrlTpStat>, queued: seq<UrlTpStat>, u: Url, d: DayKey)
    requires IsSplit(saved, seen, queued)
    ensures DayCount(saved, u, d) == DayCount(seen, u, d) + DayCount(queued, u, d)
  {
    DayCountPermutes(saved, seen + queued, u, d);
    DayCountAppend(seen, queued, u, d);
  }

  /** The counter of pushes holds today's merged pushes and what is carried over, never both. */
  lemma CounterSplits(seen: seq<UrlTpStat>, h: History, t: Tp, fakeUrl: int -> Url)
    requires Merged(h, seen, t)
    ensures EnqueuedOf(Eval(h), fakeUrl) == DayEnqueued(seen, KeyOf(t), fakeUrl) + Carried(h, t, fakeUrl)
  {
    OldestDayMonotone(t, t);
    MergedCounts(h, seen, t, fakeUrl(0), KeyOf(t));
    if HasRecord(seen, fakeUrl(0), KeyOf(t)) {
      CounterReadsToday(h, seen, t, fakeUrl(0));
    } else {
      NoRecordNoCount(seen, fakeUrl(0), KeyOf(t));
    }
  }

  /** Where a round that asks for anything would take the day's pushes, exactly. */
  lemma Overshoot(
      saved: seq<UrlTpStat>, seen: seq<UrlTpStat>, queued: seq<UrlTpStat>, h: History,
      target: Cnt, hours: nat, t: Tp, fakeUrl: int -> Url)
    requires IsSplit(saved, seen, queued) && Merged(h, seen, t)
    requires Asked(h, target, hours, fakeUrl) > 0
    ensures
      DayEnqueued(saved, KeyOf(t), fakeUrl) + Asked(h, target, hours, fakeUrl) ==
      target + DayEnqueued(queued, KeyOf(t), fakeUrl)
        - Slack(target, FinishedOf(Eval(h), fakeUrl), hours) - Carried(h, t, fakeUrl)
  {
    SplitCounts(saved, seen, queued, fakeUrl(0), KeyOf(t));
    CounterSplits(seen, h, t, fakeUrl);
    AskedBySlack(target, EnqueuedOf(Eval(h), fakeUrl), FinishedOf(Eval(h), fakeUrl), hours);
  }

  lemma AskedBySlack(target: Cnt, enqueued: Cnt, finished: Cnt, hours: nat)
    ensures ToEnqueue(target, enqueued, finished, hours) == Max(0, target - Slack(target, finished, hours) - enqueued)
  {
    if hours == 1 {
      assert Cast(target - finished, 1) == target - finished;
    }
  }

  /** On whatever day, and whatever is not merged yet, a round keeps the day's quota, however many
      urls it finds up to what it asks for, exactly when its guard holds. */
  lemma RoundKeepsQuotaIff(
      saved: seq<UrlTpStat>, seen: seq<UrlTpStat>, queued: seq<UrlTpStat>, h: History,
      target: Cnt, hours: nat, t: Tp, fakeUrl: int -> Url)
    requires IsSplit(saved, seen, queued) && Merged(h, seen, t)
    requires DayEnqueued(saved, KeyOf(t), fakeUrl) <= target
    ensures
      (forall pushed :: 0 <= pushed <= Asked(h, target, hours, fakeUrl) ==>
        WithinTarget(target, DayEnqueued(saved, KeyOf(t), fakeUrl), pushed)) <==>
      Guard(h, DayEnqueued(queued, KeyOf(t), fakeUrl), target, hours, t, fakeUrl)
  {
    var today, asked := DayEnqueued(saved, KeyOf(t), fakeUrl), Asked(h, target, hours, fakeUrl);
    var guarded := Guard(h, DayEnqueued(queued, KeyOf(t), fakeUrl), target, hours, t, fakeUrl);
    assert WithinTarget(target, today, asked) <==> guarded by {
      if asked > 0 {
        Overshoot(saved, seen, queued, h, target, hours, t, fakeUrl);
      }
    }
    assert asked >= 0;
  }

  /** With everything merged the guard says: the counter of finished attempts, which may be an older
      day's, is within the target; or at most an hour is left; or nothing is recorded for today yet
      and the older count of pushes makes up for the excess. */
  lemma GuardWhenMerged(saved: seq<UrlTpStat>, h: History, target: Cnt, hours: nat, t: Tp, fakeUrl: int -> Url)
    requires target >= 0 && NotNegative(saved) && Merged(h, saved, t)
    requires DayEnqueued(saved, KeyOf(t), fakeUrl) <= target
    ensures
      var finished, enqueued := FinishedOf(Eval(h), fakeUrl), EnqueuedOf(Eval(h), fakeUrl);
      Guard(h, 0, target, hours, t, fakeUrl) <==>
      || finished <= target
      || hours <= 1
      || (KeyOf(t) !in EntryOf(Eval(h), fakeUrl(0)).visits &&
          (finished - target) - (finished - target) / hours <= enqueued)
  {
    hide Merged, Eval, LatestCount, EntryOf, DayCount, Slack;
    var finished, enqueued := FinishedOf(Eval(h), fakeUrl), EnqueuedOf(Eval(h), fakeUrl);
    CounterSplits(saved, h, t, fakeUrl);
    CounterNotNegative(h, saved, t, fakeUrl(0));
    DayWithinSaved(saved, fakeUrl(0), KeyOf(t));
    AskedBySlack(target, enqueued, finished, hours);
    SlackSign(target, finished, hours);
  }

  lemma SlackSign(target: Cnt, finished: Cnt, hours: nat)
    ensures hours <= 1 || finished <= target ==> Slack(target, finished, hours) >= 0
    ensures hours >= 2 && finished > target ==>
      Slack(target, finished, hours) == (finished - target) / hours - (finished - target) < 0
  {
    if hours >= 2 {
      CastShrinks(target - finished, hours);
    }
  }

  /** A last-hour round that finds enough urls fills the day's quota to the last one, on any day
      with an earlier round and whatever the counter of finished attempts reads. */
  lemma LastHourFillsQuota(saved: seq<UrlTpStat>, h: History, target: Cnt, hours: nat, t: Tp, fakeUrl: int -> Url)
    requires Merged(h, saved, t) && HasRecord(saved, fakeUrl(0), KeyOf(t)) && hours <= 1
    requires DayEnqueued(saved, KeyOf(t), fakeUrl) <= target
    ensures DayEnqueued(saved, KeyOf(t), fakeUrl) + Asked(h, target, hours, fakeUrl) == target
  {
    CounterReadsToday(h, saved, t, fakeUrl(0));
    AskedBySlack(target, EnqueuedOf(Eval(h), fakeUrl), FinishedOf(Eval(h), fakeUrl), hours);
  }

  // ---------------------------------------------------------------- runs over several days

  ghost predicate Guarded(step: QuotaStep, target: Cnt, fakeUrl: int -> Url) {
    step.Round? ==>
      Guard(step.h, DayEnqueued(step.queued, KeyOf(step.tp), fakeUrl), target, step.hours, step.tp, fakeUrl)
  }

  ghost predicate AllGuarded(steps: seq<QuotaStep>, target: Cnt, fakeUrl: int -> Url) {
    forall step :: step in steps ==> Guarded(step, target, fakeUrl)
  }

  /** Every round finds as many urls as it asks for. */
  ghost predicate AllFull(steps: seq<QuotaStep>, target: Cnt, fakeUrl: int -> Url) {
    forall step :: step in steps && step.Round? ==> step.pushed == Asked(step.h, target, step.hours, fakeUrl)
  }

  ghost predicate QuotaKept(saved: seq<UrlTpStat>, target: Cnt, fakeUrl: int -> Url) {
    forall d :: DayEnqueued(saved, d, fakeUrl) <= target
  }

  /** Guarded rounds keep every day's quota, whatever they find. */
  lemma {:induction false} QuotaOverDays(steps: seq<QuotaStep>, target: Cnt, fakeUrl: int -> Url)
    requires target >= 0 && RegularRun(steps, target, fakeUrl) && AllGuarded(steps, target, fakeUrl)
    ensures QuotaKept(SavedSoFar(steps, fakeUrl), target, fakeUrl)
  {
    if steps != [] {
      var n := |steps| - 1;
      var saved, step := SavedSoFar(steps[..n], fakeUrl), steps[n];
      assert step in steps && forall s :: s in steps[..n] ==> s in steps;
      QuotaOverDays(steps[..n], target, fakeUrl);
      if step.Round? {
        RoundKeepsQuotaIff(saved, step.seen, step.queued, step.h, target, step.hours, step.tp, fakeUrl);
        assert WithinTarget(target, DayEnqueued(saved, KeyOf(step.tp), fakeUrl), step.pushed);
      }
      forall d ensures DayEnqueued(SavedSoFar(steps, fakeUrl), d, fakeUrl) <= target {
        StepCounts(saved, step, target, d, fakeUrl);
      }
    }
  }

  lemma KeptStepIsGuarded(saved: seq<UrlTpStat>, step: QuotaStep, target: Cnt, fakeUrl: int -> Url)
    requires RegularStep(saved, step, target, fakeUrl)
    requires AllFull([step], target, fakeUrl)
    requires QuotaKept(saved + SavedBy(step, fakeUrl), target, fakeUrl)
    ensures QuotaKept(saved, target, fakeUrl) && Guarded(step, target, fakeUrl)
  {
    forall d ensures DayEnqueued(saved, d, fakeUrl) + PushedOn(step, d) <= target {
      StepCounts(saved, step, target, d, fakeUrl);
      assert DayEnqueued(saved + SavedBy(step, fakeUrl), d, fakeUrl) <= target;
    }
    forall d ensures DayEnqueued(saved, d, fakeUrl) <= target {
      assert PushedOn(step, d) >= 0;
      assert DayEnqueued(saved, d, fakeUrl) + PushedOn(step, d) <= target;
    }
    if step.Round? {
      assert step in [step];
      assert DayEnqueued(saved, KeyOf(step.tp), fakeUrl) + PushedOn(step, KeyOf(step.tp)) <= target;
      RoundKeepsQuotaIff(saved, step.seen, step.queued, step.h, target, step.hours, step.tp, fakeUrl);
    }
  }

  /** When urls are plenty, no day exceeds the target if and only if every round was guarded. */
  lemma {:induction false} QuotaIffGuarded(steps: seq<QuotaStep>, target: Cnt, fakeUrl: int -> Url)
    requires target >= 0 && RegularRun(steps, target, fakeUrl) && AllFull(steps, target, fakeUrl)
    ensures QuotaKept(SavedSoFar(steps, fakeUrl), target, fakeUrl) <==> AllGuarded(steps, target, fakeUrl)
  {
    if AllGuarded(steps, target, fakeUrl) {
      QuotaOverDays(steps, target, fakeUrl);
    } else if QuotaKept(SavedSoFar(steps, fakeUrl), target, fakeUrl) {
      KeptRunIsGuarded(steps, target, fakeUrl);
    }
  }

  lemma {:induction false} KeptRunIsGuarded(steps: seq<QuotaStep>, target: Cnt, fakeUrl: int -> Url)
    requires target >= 0 && RegularRun(steps, target, fakeUrl) && AllFull(steps, target, fakeUrl)
    requires QuotaKept(SavedSoFar(steps, fakeUrl), target, fakeUrl)
    ensures AllGuarded(steps, target, fakeUrl)
  {
    if steps != [] {
      var n := |steps| - 1;
      assert forall s :: s in steps <==> s in steps[..n] || s == steps[n];
      KeptStepIsGuarded(SavedSoFar(steps[..n], fakeUrl), steps[n], target, fakeUrl);
      KeptRunIsGuarded(steps[..n], target, fakeUrl);
    }
  }

  // ---------------------------------------------------------------- the first day

  /** While nothing is older than today, the counters behind the quota read exactly what was saved,
      in whatever batches and order it reached the store. */
  lemma CountersReadSaved(h: History, saved: seq<UrlTpStat>, t: Tp, fakeUrl: int -> Url)
    requires Merged(h, saved, t) && OnDay(saved, KeyOf(t))
    ensures EnqueuedOf(Eval(h), fakeUrl) == EnqueuedIn(saved, fakeUrl)
    ensures FinishedOf(Eval(h), fakeUrl) == FinishedIn(saved, fakeUrl)
  {
    forall code ensures LatestCount(EntryOf(Eval(h), fakeUrl(code)).visits) == Saved(saved, fakeUrl(code)) {
      OneDaySaved(saved, fakeUrl(code), KeyOf(t));
      if HasRecord(saved, fakeUrl(code), KeyOf(t)) {
        CounterReadsToday(h, saved, t, fakeUrl(code));
      } else {
        assert forall d :: HasRecord(saved, fakeUrl(code), d) ==> d == KeyOf(t);
        CounterWithoutRecord(h, saved, t, fakeUrl(code));
        NoRecordNoCount(saved, fakeUrl(code), KeyOf(t));
      }
    }
  }

  lemma StepTotals(saved: seq<UrlTpStat>, step: QuotaStep, target: Cnt, fakeUrl: int -> Url)
    requires DistinctUrls(fakeUrl) && RegularStep(saved, step, target, fakeUrl)
    ensures
      var after := saved + SavedBy(step, fakeUrl);
      if step.Round? then
        EnqueuedIn(after, fakeUrl) == EnqueuedIn(saved, fakeUrl) + step.pushed &&
        FinishedIn(after, fakeUrl) == FinishedIn(saved, fakeUrl)
      else
        EnqueuedIn(after, fakeUrl) == EnqueuedIn(saved, fakeUrl) &&
        FinishedIn(after, fakeUrl) == FinishedIn(saved, fakeUrl) + |step.results|
  {
    var own := SavedBy(step, fakeUrl);
    SavedAppend(saved, own, fakeUrl(0));
    SavedAppend(saved, own, fakeUrl(2));
    SavedAppend(saved, own, fakeUrl(3));
    SavedAppend(saved, own, fakeUrl(4));
    SavedAppend(saved, own, fakeUrl(5));
    match step
    case Round(_, _, _, _, pushed, t) =>
      assert own[..0] == [];
    case Results(results, added) =>
      ResultsTotals(results, added, fakeUrl);
  }

  /** Rounds find everything saved so far merged, and every result answers an earlier push. */
  ghost predicate SettledStep(saved: seq<UrlTpStat>, step: QuotaStep, fakeUrl: int -> Url) {
    match step
    case Round(_, _, queued, _, _, _) => queued == []
    case Results(results, _) => FinishedIn(saved, fakeUrl) + |results| <= EnqueuedIn(saved, fakeUrl)
  }

  ghost predicate SettledRun(steps: seq<QuotaStep>, fakeUrl: int -> Url) {
    if steps == [] then true
    else
      var before := steps[..|steps| - 1];
      SettledRun(before, fakeUrl) && SettledStep(SavedSoFar(before, fakeUrl), steps[|steps| - 1], fakeUrl)
  }

  lemma SettledReads(saved: seq<UrlTpStat>, step: QuotaStep, target: Cnt, fakeUrl: int -> Url)
    requires RegularStep(saved, step, target, fakeUrl) && SettledStep(saved, step, fakeUrl)
    requires step.Round? && OnDay(saved, KeyOf(step.tp))
    ensures EnqueuedOf(Eval(step.h), fakeUrl) == EnqueuedIn(saved, fakeUrl)
    ensures FinishedOf(Eval(step.h), fakeUrl) == FinishedIn(saved, fakeUrl)
  {
    assert step.seen + step.queued == step.seen;
    CountersReadSaved(step.h, saved, step.tp, fakeUrl);
  }

  /** On the first day of the counters: finished <= enqueued <= target after every step. */
  lemma {:induction false} QuotaHolds(steps: seq<QuotaStep>, target: Cnt, d: DayKey, fakeUrl: int -> Url)
    requires target >= 0 && DistinctUrls(fakeUrl)
    requires RegularRun(steps, target, fakeUrl) && SettledRun(steps, fakeUrl)
    requires OnDay(SavedSoFar(steps, fakeUrl), d)
    ensures
      var saved := SavedSoFar(steps, fakeUrl);
      0 <= FinishedIn(saved, fakeUrl) <= EnqueuedIn(saved, fakeUrl) <= target
  {
    if steps != [] {
      var n := |steps| - 1;
      var saved, step := SavedSoFar(steps[..n], fakeUrl), steps[n];
      assert OnDay(saved, d);
      QuotaHolds(steps[..n], target, d, fakeUrl);
      StepTotals(saved, step, target, fakeUrl);
      if step.Round? {
        assert SavedBy(step, fakeUrl)[0] in SavedSoFar(steps, fakeUrl);
        SettledReads(saved, step, target, fakeUrl);
        AskedOnTop(target, EnqueuedIn(saved, fakeUrl), FinishedIn(saved, fakeUrl), step.hours);
      }
    }
  }

  // ---------------------------------------------------------------- a merger that lags

  lemma LaggingStep(saved: seq<UrlTpStat>, target: nat, t: Tp, fakeUrl: int -> Url)
    ensures Asked(Empty, target, 0, fakeUrl) == target
    ensures RegularStep(saved, Round(Empty, [], saved, 0, target, t), target, fakeUrl)
  {
    assert [] + saved == saved;
    assert StatsOf([]) == [];
    assert Merged(Empty, [], t);
  }

  /** A regular run whose rounds are full goes on with one more step of that kind. */
  lemma RunGoesOn(before: seq<QuotaStep>, step: QuotaStep, target: Cnt, fakeUrl: int -> Url)
    requires RegularRun(before, target, fakeUrl) && AllFull(before, target, fakeUrl)
    requires RegularStep(SavedSoFar(before, fakeUrl), step, target, fakeUrl)
    requires step.Round? ==> step.pushed == Asked(step.h, target, step.hours, fakeUrl)
    ensures RegularRun(before + [step], target, fakeUrl) && AllFull(before + [step], target, fakeUrl)
    ensures SavedSoFar(before + [step], fakeUrl) == SavedSoFar(before, fakeUrl) + SavedBy(step, fakeUrl)
  {
    assert (before + [step])[..|before|] == before;
  }

  /** A regular run of full rounds in which `c` urls are pushed on day `d`. */
  ghost predicate Pushes(steps: seq<QuotaStep>, d: DayKey, c: Cnt, target: Cnt, fakeUrl: int -> Url) {
    && RegularRun(steps, target, fakeUrl)
    && AllFull(steps, target, fakeUrl)
    && DayEnqueued(SavedSoFar(steps, fakeUrl), d, fakeUrl) == c
  }

  lemma OneMoreLags(before: seq<QuotaStep>, c: Cnt, target: nat, t: Tp, fakeUrl: int -> Url)
    requires Pushes(before, KeyOf(t), c, target, fakeUrl)
    ensures
      var steps := before + [Round(Empty, [], SavedSoFar(before, fakeUrl), 0, target, t)];
      Pushes(steps, KeyOf(t), c + target, target, fakeUrl)
  {
    var saved := SavedSoFar(before, fakeUrl);
    var step := Round(Empty, [], saved, 0, target, t);
    LaggingStep(saved, target, t, fakeUrl);
    RunGoesOn(before, step, target, fakeUrl);
    StepCounts(saved, step, target, KeyOf(t), fakeUrl);
  }

  lemma NothingPushed(d: DayKey, target: Cnt, fakeUrl: int -> Url)
    ensures Pushes([], d, 0, target, fakeUrl)
  {
  }

  /** Nothing bounds the overshoot while saves are queued: there are runs of `n` rounds, none merged
      before the next, that push `n` times the target on one day. */
  lemma {:induction false} LaggingRoundsPileUp(n: nat, target: nat, t: Tp, fakeUrl: int -> Url)
      returns (steps: seq<QuotaStep>)
    ensures |steps| == n && forall step :: step in steps ==> step.Round? && step.seen == []
    ensures Pushes(steps, KeyOf(t), n * target, target, fakeUrl)
  {
    hide *;
    if n == 0 {
      NothingPushed(KeyOf(t), target, fakeUrl);
      steps := [];
    } else {
      var before := LaggingRoundsPileUp(n - 1, target, t, fakeUrl);
      OneMoreLags(before, (n - 1) * target, target, t, fakeUrl);
      assert n * target == (n - 1) * target + target;
      steps := before + [Round(Empty, [], SavedSoFar(before, fakeUrl), 0, target, t)];
    }
  }
}
