/** Day counts against the events that produced them, for every mix of adds and merges. */
module UrlsDaysHistory {
  import opened Clock
  import opened Types
  import opened UrlsDaysStore

  function CountOf(m: Store, u: Url, d: DayKey): Cnt {
    GetOr0(EntryOf(m, u).visits, d)
  }

  /** Counting by hand: every event that was not too old at its own clock reading. */
  function NaiveCount(events: seq<Arrival>, u: Url, d: DayKey): Cnt {
    if events == [] then 0
    else
      var e := events[|events| - 1];
      NaiveCount(events[..|events| - 1], u, d) + Weight(e, u, d)
  }

  function Weight(e: Arrival, u: Url, d: DayKey): Cnt {
    if !Rejected(e.stat, e.now) && e.stat.url == u && KeyOf(e.stat.tp) == d then e.stat.cnt else 0
  }

  lemma {:induction false} NaiveCountAppend(a: seq<Arrival>, b: seq<Arrival>, u: Url, d: DayKey)
    ensures NaiveCount(a + b, u, d) == NaiveCount(a, u, d) + NaiveCount(b, u, d)
  {
    if b == [] {
      assert a + b == a;
    } else {
      assert (a + b)[..|a + b| - 1] == a + b[..|b| - 1];
      NaiveCountAppend(a, b[..|b| - 1], u, d);
    }
  }

  // ---------------------------------------------------------------- single operations

  lemma OldestDayMonotone(now: Tp, later: Tp)
    requires now <= later
    ensures OldestDay(now) <= OldestDay(later)
    ensures OldestDay(now) == DayOf(now) - 13
  {
    DayOfMinusDays(now, 13);
  }

  /** Adding counts the event and touches no other retained count. */
  lemma AddCounts(m: Store, s: UrlTpStat, now: Tp, u: Url, d: DayKey)
    requires d.num >= OldestDay(now)
    ensures CountOf(AddedTo(m, s, now), u, d) == CountOf(m, u, d) + Weight(Arrival(s, now), u, d)
  {
  }

  /** An event at most 13 days old raises the bucket of its day by its count, in spite of the clean-up of
      its own add; an older one leaves the store as it was. */
  lemma AgeDecides(m: Store, s: UrlTpStat, now: Tp)
    ensures now - s.tp <= 13 * 24 * 3600 * 1_000_000_000 ==>
      && KeyOf(s.tp) in EntryOf(AddedTo(m, s, now), s.url).visits
      && CountOf(AddedTo(m, s, now), s.url, KeyOf(s.tp)) == CountOf(m, s.url, KeyOf(s.tp)) + s.cnt
    ensures now - s.tp > 13 * 24 * 3600 * 1_000_000_000 ==> AddedTo(m, s, now) == m
  {
    if now - s.tp <= DURATION {
      RecentIsKept(s.tp, now);
    }
  }

  /** By the calendar: what happened on any of the last 12 full days or later is counted, what happened
      more than 13 days back is not, and on the day in between the time of day decides. */
  lemma CalendarDecides(s: UrlTpStat, now: Tp)
    ensures
      Counts(Arrival(s, now), s.url, KeyOf(s.tp)) <==>
      || DayOf(s.tp) >= DayOf(now) - 12
      || (DayOf(s.tp) == DayOf(now) - 13 && s.tp % DAY >= now % DAY)
  {
    assert s.tp == DayOf(s.tp) * DAY + s.tp % DAY && now == DayOf(now) * DAY + now % DAY;
  }

  /** What counts by hand for a url and a day, by age alone. */
  lemma WeightByAge(e: Arrival, u: Url, d: DayKey)
    ensures
      Counts(e, u, d) <==>
      e.now - e.stat.tp <= 13 * 24 * 3600 * 1_000_000_000 && e.stat.url == u &&
        e.stat.tp / (24 * 3600 * 1_000_000_000) == d.num
    ensures Weight(e, u, d) == if Counts(e, u, d) then e.stat.cnt else 0
  {
  }

  /** The only days that a merge leaves uncleaned are those it copies into an entry without days, and
      those of urls that it does not touch. */
  lemma StaleDaysIff(m: Store, other: Store, now: Tp, u: Url, d: DayKey)
    requires d.num < OldestDay(now)
    ensures
      d in EntryOf(MergedStore(m, other, now), u).visits <==>
      if u in other then EntryOf(m, u).visits == map[] && d in other[u].visits else d in EntryOf(m, u).visits
  {
  }

  lemma MergeCounts(m: Store, other: Store, now: Tp, u: Url, d: DayKey)
    requires d.num >= OldestDay(now)
    ensures CountOf(MergedStore(m, other, now), u, d) == CountOf(m, u, d) + CountOf(other, u, d)
  {
  }

  // ---------------------------------------------------------------- whole histories

  datatype History =
    | Empty
    | Add(before: History, stat: UrlTpStat, now: Tp)
    | Merge(into: History, from: History, now: Tp)

  function Eval(h: History): Store {
    match h
    case Empty => map[]
    case Add(p, s, now) => AddedTo(Eval(p), s, now)
    case Merge(a, b, now) => MergedStore(Eval(a), Eval(b), now)
  }

  function Events(h: History): seq<Arrival> {
    match h
    case Empty => []
    case Add(p, s, now) => Events(p) + [Arrival(s, now)]
    case Merge(a, b, _) => Events(a) + Events(b)
  }

  /** Nothing happened at a clock reading later than `t`; readings need not be ordered. */
  predicate NoReadingAfter(h: History, t: Tp) {
    match h
    case Empty => true
    case Add(p, _, now) => now <= t && NoReadingAfter(p, t)
    case Merge(a, b, now) => now <= t && NoReadingAfter(a, t) && NoReadingAfter(b, t)
  }

  /** For every day still retained, the stored count is the hand count. */
  lemma {:induction false} RetainedCountsExact(h: History, t: Tp, u: Url, d: DayKey)
    requires NoReadingAfter(h, t) && d.num >= OldestDay(t)
    ensures CountOf(Eval(h), u, d) == NaiveCount(Events(h), u, d)
  {
    match h
    case Empty =>
    case Add(p, s, now) =>
      OldestDayMonotone(now, t);
      RetainedCountsExact(p, t, u, d);
      AddCounts(Eval(p), s, now, u, d);
      assert (Events(p) + [Arrival(s, now)])[..|Events(p)|] == Events(p);
    case Merge(a, b, now) =>
      OldestDayMonotone(now, t);
      RetainedCountsExact(a, t, u, d);
      RetainedCountsExact(b, t, u, d);
      MergeCounts(Eval(a), Eval(b), now, u, d);
      NaiveCountAppend(Events(a), Events(b), u, d);
  }

  /** An event that was not too old, for the given url and day. */
  predicate Counts(e: Arrival, u: Url, d: DayKey) {
    !Rejected(e.stat, e.now) && e.stat.url == u && KeyOf(e.stat.tp) == d
  }

  ghost predicate SomeCounts(events: seq<Arrival>, u: Url, d: DayKey) {
    exists e :: e in events && Counts(e, u, d)
  }

  lemma AddDays(m: Store, s: UrlTpStat, now: Tp, u: Url, d: DayKey)
    ensures
      d in EntryOf(AddedTo(m, s, now), u).visits ==>
      d in EntryOf(m, u).visits || Counts(Arrival(s, now), u, d)
    ensures
      d.num >= OldestDay(now) && (d in EntryOf(m, u).visits || Counts(Arrival(s, now), u, d)) ==>
      d in EntryOf(AddedTo(m, s, now), u).visits
  {
  }

  lemma MergeDays(m: Store, other: Store, now: Tp, u: Url, d: DayKey)
    ensures
      d in EntryOf(MergedStore(m, other, now), u).visits ==>
      d in EntryOf(m, u).visits || d in EntryOf(other, u).visits
    ensures
      d.num >= OldestDay(now) && (d in EntryOf(m, u).visits || d in EntryOf(other, u).visits) ==>
      d in EntryOf(MergedStore(m, other, now), u).visits
  {
  }

  /** Every bucket comes from an event of its day. */
  lemma {:induction false} StoredDaysHappened(h: History, u: Url, d: DayKey)
    requires d in EntryOf(Eval(h), u).visits
    ensures SomeCounts(Events(h), u, d)
  {
    match h
    case Add(p, s, now) =>
      AddDays(Eval(p), s, now, u, d);
      assert forall e :: e in Events(h) <==> e in Events(p) || e == Arrival(s, now);
      if d in EntryOf(Eval(p), u).visits {
        StoredDaysHappened(p, u, d);
      }
    case Merge(a, b, now) =>
      MergeDays(Eval(a), Eval(b), now, u, d);
      assert forall e :: e in Events(h) <==> e in Events(a) || e in Events(b);
      if d in EntryOf(Eval(a), u).visits {
        StoredDaysHappened(a, u, d);
      } else {
        StoredDaysHappened(b, u, d);
      }
  }

  /** A day still retained has a bucket, be it an empty one, exactly when some event fell on it. */
  lemma {:induction false} RetainedDaysPresent(h: History, t: Tp, u: Url, d: DayKey)
    requires NoReadingAfter(h, t) && d.num >= OldestDay(t)
    ensures d in EntryOf(Eval(h), u).visits <==> SomeCounts(Events(h), u, d)
  {
    match h
    case Empty =>
    case Add(p, s, now) =>
      OldestDayMonotone(now, t);
      RetainedDaysPresent(p, t, u, d);
      AddDays(Eval(p), s, now, u, d);
      assert forall e :: e in Events(h) <==> e in Events(p) || e == Arrival(s, now);
    case Merge(a, b, now) =>
      OldestDayMonotone(now, t);
      RetainedDaysPresent(a, t, u, d);
      RetainedDaysPresent(b, t, u, d);
      MergeDays(Eval(a), Eval(b), now, u, d);
      assert forall e :: e in Events(h) <==> e in Events(a) || e in Events(b);
  }

  // ---------------------------------------------------------------- batches against direct adds

  datatype Batch = Batch(arrivals: seq<Arrival>, mergedAt: Tp)

  function Direct(arrivals: seq<Arrival>): History {
    if arrivals == [] then Empty
    else
      var a := arrivals[|arrivals| - 1];
      Add(Direct(arrivals[..|arrivals| - 1]), a.stat, a.now)
  }

  function Batched(batches: seq<Batch>): History {
    if batches == [] then Empty
    else
      var b := batches[|batches| - 1];
      Merge(Batched(batches[..|batches| - 1]), Direct(b.arrivals), b.mergedAt)
  }

  function Flattened(batches: seq<Batch>): seq<Arrival> {
    if batches == [] then [] else Flattened(batches[..|batches| - 1]) + batches[|batches| - 1].arrivals
  }

  lemma NoEvents()
    ensures Events(Empty) == []
  {
  }

  lemma EventsOfAdd(h: History, stat: UrlTpStat, now: Tp)
    ensures Events(Add(h, stat, now)) == Events(h) + [Arrival(stat, now)]
  {
  }

  lemma {:induction false} DirectEvents(arrivals: seq<Arrival>)
    ensures Events(Direct(arrivals)) == arrivals
  {
    hide Events;
    if arrivals == [] {
      NoEvents();
    } else {
      var n := |arrivals| - 1;
      var a := arrivals[n];
      DirectEvents(arrivals[..n]);
      EventsOfAdd(Direct(arrivals[..n]), a.stat, a.now);
      hide Direct;
      assert a == Arrival(a.stat, a.now);
      assert arrivals == arrivals[..n] + [a];
    }
  }

  lemma {:induction false} BatchedEvents(batches: seq<Batch>)
    ensures Events(Batched(batches)) == Flattened(batches)
  {
    if batches != [] {
      BatchedEvents(batches[..|batches| - 1]);
      DirectEvents(batches[|batches| - 1].arrivals);
    }
  }

  lemma {:induction false} DirectReadings(arrivals: seq<Arrival>, t: Tp)
    ensures NoReadingAfter(Direct(arrivals), t) <==> forall a :: a in arrivals ==> a.now <= t
  {
    if arrivals != [] {
      var n := |arrivals| - 1;
      DirectReadings(arrivals[..n], t);
      assert forall a :: a in arrivals <==> a in arrivals[..n] || a == arrivals[n];
    }
  }

  lemma {:induction false} BatchReadings(batches: seq<Batch>, t: Tp)
    requires NoReadingAfter(Batched(batches), t)
    ensures NoReadingAfter(Direct(Flattened(batches)), t)
  {
    DirectReadings(Flattened(batches), t);
    if batches != [] {
      var n := |batches| - 1;
      BatchReadings(batches[..n], t);
      DirectReadings(Flattened(batches[..n]), t);
      DirectReadings(batches[n].arrivals, t);
    }
  }

  /** However an event stream is cut into batches, building each batch on its own and merging the
      batches counts every retained day as adding all events to one store does. Readings may come in
      any order, as long as none is later than `t`. */
  lemma BatchesAgreeWithDirectAdds(batches: seq<Batch>, t: Tp, u: Url, d: DayKey)
    requires NoReadingAfter(Batched(batches), t)
    requires d.num >= OldestDay(t)
    ensures CountOf(Eval(Batched(batches)), u, d) == CountOf(Eval(Direct(Flattened(batches))), u, d)
  {
    BatchedEvents(batches);
    DirectEvents(Flattened(batches));
    BatchReadings(batches, t);
    RetainedCountsExact(Batched(batches), t, u, d);
    RetainedCountsExact(Direct(Flattened(batches)), t, u, d);
  }

  // ---------------------------------------------------------------- retention

  /** No event lies in the future of its own clock reading. */
  predicate NoFuture(h: History) {
    match h
    case Empty => true
    case Add(p, s, now) => s.tp <= now && NoFuture(p)
    case Merge(a, b, _) => NoFuture(a) && NoFuture(b)
  }

  /** Readings never go back along a branch, and none is later than `t`. */
  predicate ClockOrdered(h: History, t: Tp) {
    match h
    case Empty => true
    case Add(p, _, now) => now <= t && ClockOrdered(p, now)
    case Merge(a, b, now) => now <= t && ClockOrdered(a, now) && ClockOrdered(b, now)
  }

  /** Days no further apart than the store keeps, none after `last`. */
  ghost predicate Compact(v: Visits, last: int) {
    && (forall d :: d in v ==> d.num <= last)
    && (forall d, e :: d in v && e in v ==> d.num - e.num <= DAYS - 1)
  }

  lemma CleanedCompact(v: Visits, now: Tp)
    requires forall d :: d in v ==> d.num <= DayOf(now)
    ensures Compact(CleanedVisits(v, now), DayOf(now))
  {
    OldestDayMonotone(now, now);
  }

  lemma AddKeepsCompact(m: Store, s: UrlTpStat, now: Tp, u: Url)
    requires Compact(EntryOf(m, u).visits, DayOf(now)) && s.tp <= now
    ensures Compact(EntryOf(AddedTo(m, s, now), u).visits, DayOf(now))
  {
    if !Rejected(s, now) && s.url == u {
      var v := EntryOf(m, u).visits;
      DayOfMonotone(s.tp, now);
      CleanedCompact(v[KeyOf(s.tp) := GetOr0(v, KeyOf(s.tp)) + s.cnt], now);
    }
  }

  lemma MergeKeepsCompact(m: Store, other: Store, now: Tp, u: Url)
    requires Compact(EntryOf(m, u).visits, DayOf(now)) && Compact(EntryOf(other, u).visits, DayOf(now))
    ensures Compact(EntryOf(MergedStore(m, other, now), u).visits, DayOf(now))
  {
    CleanedCompact(AddedVisits(EntryOf(m, u).visits, EntryOf(other, u).visits), now);
  }

  lemma CompactLater(v: Visits, last: int, later: int)
    requires Compact(v, last) && last <= later
    ensures Compact(v, later)
  {
  }

  lemma {:induction false} EntriesCompact(h: History, t: Tp, u: Url)
    requires ClockOrdered(h, t) && NoFuture(h)
    ensures Compact(EntryOf(Eval(h), u).visits, DayOf(t))
  {
    match h
    case Empty =>
    case Add(p, s, now) =>
      EntriesCompact(p, now, u);
      AddKeepsCompact(Eval(p), s, now, u);
      DayOfMonotone(now, t);
      CompactLater(EntryOf(Eval(h), u).visits, DayOf(now), DayOf(t));
    case Merge(a, b, now) =>
      EntriesCompact(a, now, u);
      EntriesCompact(b, now, u);
      MergeKeepsCompact(Eval(a), Eval(b), now, u);
      DayOfMonotone(now, t);
      CompactLater(EntryOf(Eval(h), u).visits, DayOf(now), DayOf(t));
  }

  lemma CompactIsSmall(v: Visits, last: int)
    requires Compact(v, last)
    ensures |v| <= DAYS
  {
    if v.Keys != {} {
      var low := LeastOf(v.Keys);
      RangeCardinality(v.Keys, (d: DayKey) => d.num, low.num, DAYS);
    }
  }

  lemma {:induction false} LeastOf(s: set<DayKey>) returns (m: DayKey)
    requires s != {}
    ensures m in s && forall x :: x in s ==> m.num <= x.num
    decreases |s|
  {
    m :| m in s;
    var rest := s - {m};
    if rest != {} {
      var r := LeastOf(rest);
      m := if r.num < m.num then r else m;
    }
  }

  /** No url ever holds more than 14 days, through any mix of adds and clock-ordered merges. */
  lemma RetentionBound(h: History, t: Tp, u: Url)
    requires ClockOrdered(h, t) && NoFuture(h)
    ensures |EntryOf(Eval(h), u).visits| <= 14
  {
    EntriesCompact(h, t, u);
    CompactIsSmall(EntryOf(Eval(h), u).visits, DayOf(t));
  }

  /** Counts that are never negative stay so. */
  lemma {:induction false} CountsNotNegative(h: History, u: Url, d: DayKey)
    requires forall e :: e in Events(h) ==> e.stat.cnt >= 0
    ensures CountOf(Eval(h), u, d) >= 0
  {
    match h
    case Empty =>
    case Add(p, s, now) =>
      assert forall e :: e in Events(h) <==> e in Events(p) || e == Arrival(s, now);
      assert Arrival(s, now).stat.cnt >= 0;
      CountsNotNegative(p, u, d);
    case Merge(a, b, now) =>
      assert forall e :: e in Events(h) <==> e in Events(a) || e in Events(b);
      CountsNotNegative(a, u, d);
      CountsNotNegative(b, u, d);
  }
}
