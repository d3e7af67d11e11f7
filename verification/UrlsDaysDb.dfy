/** The visit store behind a queue: producers enqueue, one merger drains, copies, merges and
    publishes, one thread snapshots to disk, and shutdown persists what is left. Every step that
    another thread can see in between is a step here. */
module UrlsDaysProtocol {
  import opened Clock
  import opened Types
  import opened UrlsDaysStore
  import opened UrlsDaysHistory

  /** Where the merger is in its pass. */
  datatype Phase = Idle | Draining | Copying | Merging(copy: Store) | Publishing(copy: Store)

  /** A snapshot on its way to disk: decided on, or the local copy and the urls still to be written. */
  datatype Snap = NoSnap | Starting | Saving(copy: Store, todo: set<Url>)

  datatype Db = Db(
    q: seq<UrlTpStat>,
    phase: Phase,
    local: Store,
    published: Store,
    disk: Store,
    snap: Snap,
    running: bool,
    final: bool,     // the pass after the merge loop has begun
    closed: bool,
    now: Tp,
    saved: seq<UrlTpStat>,     // everything ever saved
    dropped: seq<UrlTpStat>,   // drained, but too old by then
    late: seq<UrlTpStat>)      // saved after the final drain was over

  datatype Step =
    | Tick(t: Tp)
    | Save(stat: UrlTpStat)
    | BeginPass
    | Drain(i: nat)
    | EndDrain
    | CopyPublished
    | MergeLocal
    | Publish
    | SnapBegin
    | SnapCopy
    | SnapPut(url: Url)
    | SnapEnd
    | Stop
    | Close

  function Open(disk: Store, now: Tp): Db {
    Db([], Idle, map[], disk, disk, NoSnap, true, false, false, now, [], [], [])
  }

  predicate FinalDrainOver(s: Db) {
    s.final && !s.phase.Draining?
  }

  /** Steps that are not enabled change nothing. */
  function Next(s: Db, step: Step): Db {
    match step
    case Tick(t) => if t < s.now then s else s.(now := t)
    case Save(stat) =>
      if s.closed then s
      else
        var late := if FinalDrainOver(s) then s.late + [stat] else s.late;
        s.(q := s.q + [stat], saved := s.saved + [stat], late := late)
    case BeginPass =>
      // the loop tests the flag before each pass; after it, one more pass
      if s.phase != Idle || s.final then s else s.(phase := Draining, local := map[], final := !s.running)
    case Drain(i) =>
      if s.phase != Draining || i >= |s.q| then s
      else
        var stat := s.q[i];
        s.(q := s.q[..i] + s.q[i + 1..],
           local := AddedTo(s.local, stat, s.now),
           dropped := if Rejected(stat, s.now) then s.dropped + [stat] else s.dropped)
    case EndDrain =>
      if s.phase != Draining || s.q != [] then s
      else s.(phase := if s.local == map[] then Idle else Copying)
    case CopyPublished => if s.phase != Copying then s else s.(phase := Merging(s.published))
    case MergeLocal =>
      if !s.phase.Merging? then s else s.(phase := Publishing(MergedStore(s.phase.copy, s.local, s.now)))
    case Publish => if !s.phase.Publishing? then s else s.(phase := Idle, local := map[], published := s.phase.copy)
    case SnapBegin => if s.snap != NoSnap || !s.running then s else s.(snap := Starting)
    case SnapCopy => if s.snap != Starting then s else s.(snap := Saving(s.published, s.published.Keys))
    case SnapPut(u) =>
      if !s.snap.Saving? || u !in s.snap.todo || u !in s.snap.copy then s
      else s.(disk := s.disk[u := s.snap.copy[u]], snap := s.snap.(todo := s.snap.todo - {u}))
    case SnapEnd => if !s.snap.Saving? || s.snap.todo != {} then s else s.(snap := NoSnap)
    case Stop => s.(running := false)
    case Close =>
      // both threads joined, then the last snapshot
      if s.closed || s.running || !s.final || s.phase != Idle || s.snap != NoSnap then s
      else s.(disk := s.disk + s.published, closed := true)
  }

  function RunDb(s: Db, steps: seq<Step>): Db {
    if steps == [] then s else Next(RunDb(s, steps[..|steps| - 1]), steps[|steps| - 1])
  }

  // ---------------------------------------------------------------- conservation

  /** Counting a list of visits by url and day. */
  function DayCount(l: seq<UrlTpStat>, u: Url, d: DayKey): Cnt {
    if l == [] then 0 else DayCount(l[..|l| - 1], u, d) + StatWeight(l[|l| - 1], u, d)
  }

  function StatWeight(s: UrlTpStat, u: Url, d: DayKey): Cnt {
    if s.url == u && KeyOf(s.tp) == d then s.cnt else 0
  }

  lemma DayCountStep(l: seq<UrlTpStat>, s: UrlTpStat, u: Url, d: DayKey)
    ensures DayCount(l + [s], u, d) == DayCount(l, u, d) + StatWeight(s, u, d)
  {
    assert (l + [s])[..|l|] == l;
  }

  lemma {:induction false} DayCountAppend(a: seq<UrlTpStat>, b: seq<UrlTpStat>, u: Url, d: DayKey)
    ensures DayCount(a + b, u, d) == DayCount(a, u, d) + DayCount(b, u, d)
  {
    if b == [] {
      assert a + b == a;
    } else {
      assert (a + b)[..|a + b| - 1] == a + b[..|b| - 1];
      DayCountAppend(a, b[..|b| - 1], u, d);
    }
  }

  lemma DayCountWithout(l: seq<UrlTpStat>, i: nat, u: Url, d: DayKey)
    requires i < |l|
    ensures DayCount(l, u, d) == DayCount(l[..i] + l[i + 1..], u, d) + StatWeight(l[i], u, d)
  {
    assert l == l[..i] + [l[i]] + l[i + 1..];
    DayCountAppend(l[..i] + [l[i]], l[i + 1..], u, d);
    DayCountStep(l[..i], l[i], u, d);
    DayCountAppend(l[..i], l[i + 1..], u, d);
  }

  /** Published, drained but unpublished, and still queued: together all that was loaded or saved,
      less what was too old when drained. */
  ghost predicate Conserved(s: Db, loaded: Store, u: Url, d: DayKey) {
    CountOf(s.published, u, d) + CountOf(s.local, u, d) + DayCount(s.q, u, d) ==
    CountOf(loaded, u, d) + DayCount(s.saved, u, d) - DayCount(s.dropped, u, d)
  }

  /** What the merger holds privately fits what the others can see. */
  ghost predicate PhaseFits(s: Db, u: Url, d: DayKey) {
    match s.phase
    case Idle => s.local == map[]
    case Merging(c) => c == s.published
    case Publishing(c) => CountOf(c, u, d) == CountOf(s.published, u, d) + CountOf(s.local, u, d)
    case _ => true
  }

  lemma StepConserves(s: Db, step: Step, loaded: Store, u: Url, d: DayKey)
    requires d.num >= OldestDay(Next(s, step).now)
    requires Conserved(s, loaded, u, d) && PhaseFits(s, u, d)
    ensures Conserved(Next(s, step), loaded, u, d) && PhaseFits(Next(s, step), u, d)
  {
    hide AddedTo, MergedStore, CountOf, DayCount;
    if step.Save? {
      SaveConserves(s, Next(s, step), step.stat, loaded, u, d);
    } else if step.Drain? {
      if s.phase == Draining && step.i < |s.q| {
        DrainConserves(s, Next(s, step), step.i, loaded, u, d);
      }
    } else if step.MergeLocal? {
      MergeConserves(s, loaded, u, d);
    } else if step.Publish? {
      PublishConserves(s, loaded, u, d);
    } else {
      QuietStepData(s, step);
      QuietStepPhase(s, step);
    }
  }

  lemma MergeConserves(s: Db, loaded: Store, u: Url, d: DayKey)
    requires d.num >= OldestDay(s.now) && Conserved(s, loaded, u, d) && PhaseFits(s, u, d)
    ensures Conserved(Next(s, MergeLocal), loaded, u, d) && PhaseFits(Next(s, MergeLocal), u, d)
  {
    if s.phase.Merging? {
      MergeCounts(s.phase.copy, s.local, s.now, u, d);
    }
  }

  lemma PublishConserves(s: Db, loaded: Store, u: Url, d: DayKey)
    requires Conserved(s, loaded, u, d) && PhaseFits(s, u, d)
    ensures Conserved(Next(s, Publish), loaded, u, d) && PhaseFits(Next(s, Publish), u, d)
  {
    assert CountOf(map[], u, d) == 0;
  }

  /** The other steps move no visits: they leave queue, stores and logs alone, and the merger's
      copy, if it takes one, is the published store. */
  lemma QuietStepData(s: Db, step: Step)
    requires !step.Save? && !step.Drain? && !step.MergeLocal? && !step.Publish?
    requires s.phase == Idle ==> s.local == map[]
    ensures
      var s1 := Next(s, step);
      && s1.q == s.q && s1.saved == s.saved && s1.dropped == s.dropped
      && s1.published == s.published && s1.local == s.local
  {
    hide AddedTo, MergedStore, Rejected, FinalDrainOver;
    if step.BeginPass? {
      assert Next(s, step) == s || Next(s, step) == s.(phase := Draining, local := map[], final := !s.running);
    } else if step.Tick? {
      assert Next(s, step) == s.(now := Next(s, step).now);
    } else if step.EndDrain? || step.CopyPublished? {
      assert Next(s, step) == s.(phase := Next(s, step).phase);
    } else {
      var s1 := Next(s, step);
      assert s1 == s.(disk := s1.disk, snap := s1.snap, running := s1.running, closed := s1.closed);
    }
  }

  lemma QuietStepPhase(s: Db, step: Step)
    requires !step.Save? && !step.Drain? && !step.MergeLocal? && !step.Publish?
    ensures
      var s1 := Next(s, step);
      || s1.phase == s.phase || s1.phase == Draining || s1.phase == Copying || s1.phase == Merging(s.published)
      || (s1.phase == Idle && s.local == map[])
  {
    hide AddedTo, MergedStore, Rejected, FinalDrainOver;
  }

  lemma SaveConserves(s: Db, s1: Db, stat: UrlTpStat, loaded: Store, u: Url, d: DayKey)
    requires Conserved(s, loaded, u, d) && PhaseFits(s, u, d)
    requires s1 == s || s1 == s.(q := s.q + [stat], saved := s.saved + [stat], late := s1.late)
    ensures Conserved(s1, loaded, u, d) && PhaseFits(s1, u, d)
  {
    DayCountStep(s.q, stat, u, d);
    DayCountStep(s.saved, stat, u, d);
  }

  lemma DrainConserves(s: Db, s1: Db, i: nat, loaded: Store, u: Url, d: DayKey)
    requires i < |s.q| && d.num >= OldestDay(s.now) && Conserved(s, loaded, u, d)
    requires s1.published == s.published && s1.saved == s.saved
    requires s1.q == s.q[..i] + s.q[i + 1..] && s1.local == AddedTo(s.local, s.q[i], s.now)
    requires s1.dropped == if Rejected(s.q[i], s.now) then s.dropped + [s.q[i]] else s.dropped
    ensures Conserved(s1, loaded, u, d)
  {
    DayCountWithout(s.q, i, u, d);
    AddCounts(s.local, s.q[i], s.now, u, d);
    DayCountStep(s.dropped, s.q[i], u, d);
  }

  lemma TimeMovesOn(s: Db, step: Step)
    ensures s.now <= Next(s, step).now
  {
  }

  /** In every reachable state, for each url and each day still retained. */
  lemma {:induction false} VisitsConserved(disk: Store, start: Tp, steps: seq<Step>, u: Url, d: DayKey)
    requires d.num >= OldestDay(RunDb(Open(disk, start), steps).now)
    ensures Conserved(RunDb(Open(disk, start), steps), disk, u, d) && PhaseFits(RunDb(Open(disk, start), steps), u, d)
  {
    if steps != [] {
      var n := |steps| - 1;
      var s := RunDb(Open(disk, start), steps[..n]);
      TimeMovesOn(s, steps[n]);
      OldestDayMonotone(s.now, Next(s, steps[n]).now);
      VisitsConserved(disk, start, steps[..n], u, d);
      StepConserves(s, steps[n], disk, u, d);
    }
  }

  /** All that was handed over for saving, in order. */
  function SavesIn(steps: seq<Step>): seq<UrlTpStat> {
    if steps == [] then []
    else
      var last := steps[|steps| - 1];
      SavesIn(steps[..|steps| - 1]) + if last.Save? then [last.stat] else []
  }

  lemma SaveRecorded(s: Db, step: Step)
    ensures !Next(s, step).closed ==> !s.closed
    ensures !s.closed ==> Next(s, step).saved == if step.Save? then s.saved + [step.stat] else s.saved
  {
    hide AddedTo, MergedStore, Rejected, FinalDrainOver;
  }

  /** Until the store is closed every save is recorded. */
  lemma {:induction false} SavedIsAllSaves(disk: Store, start: Tp, steps: seq<Step>)
    ensures
      var s := RunDb(Open(disk, start), steps);
      !s.closed ==> s.saved == SavesIn(steps)
  {
    if steps != [] {
      hide Next;
      SavedIsAllSaves(disk, start, steps[..|steps| - 1]);
      SaveRecorded(RunDb(Open(disk, start), steps[..|steps| - 1]), steps[|steps| - 1]);
    }
  }

  /** Whatever was dropped is more than 13 days old by now. */
  ghost predicate DroppedAreOld(s: Db) {
    forall x :: x in s.dropped ==> s.now - x.tp > 13 * 24 * 3600 * 1_000_000_000
  }

  lemma StepDropsOld(s: Db, step: Step)
    requires DroppedAreOld(s)
    ensures DroppedAreOld(Next(s, step))
  {
    hide AddedTo, MergedStore, FinalDrainOver;
    TimeMovesOn(s, step);
    assert Next(s, step).dropped == s.dropped ||
      exists x :: Next(s, step).dropped == s.dropped + [x] && Rejected(x, s.now) && Next(s, step).now == s.now;
  }

  lemma {:induction false} OnlyOldAreDropped(disk: Store, start: Tp, steps: seq<Step>)
    ensures DroppedAreOld(RunDb(Open(disk, start), steps))
  {
    if steps != [] {
      hide Next, DroppedAreOld;
      OnlyOldAreDropped(disk, start, steps[..|steps| - 1]);
      StepDropsOld(RunDb(Open(disk, start), steps[..|steps| - 1]), steps[|steps| - 1]);
    }
  }

  lemma {:induction false} OldCountElsewhere(dropped: seq<UrlTpStat>, now: Tp, u: Url, d: DayKey)
    requires forall x :: x in dropped ==> now - x.tp > 13 * 24 * 3600 * 1_000_000_000
    requires d.num >= DayOf(now) - 12
    ensures DayCount(dropped, u, d) == 0
  {
    if dropped != [] {
      var n := |dropped| - 1;
      assert dropped[n] in dropped && forall x :: x in dropped[..n] ==> x in dropped;
      OldCountElsewhere(dropped[..n], now, u, d);
    }
  }

  /** No visit of the last 12 full days is ever lost: in every reachable state published, drained and
      queued visits are together what was loaded and saved. */
  lemma RecentVisitsConserved(disk: Store, start: Tp, steps: seq<Step>, u: Url, d: DayKey)
    requires d.num >= DayOf(RunDb(Open(disk, start), steps).now) - 12
    ensures
      var s := RunDb(Open(disk, start), steps);
      CountOf(s.published, u, d) + CountOf(s.local, u, d) + DayCount(s.q, u, d) ==
      CountOf(disk, u, d) + DayCount(s.saved, u, d)
  {
    hide RunDb;
    var s := RunDb(Open(disk, start), steps);
    OldestDayMonotone(s.now, s.now);
    VisitsConserved(disk, start, steps, u, d);
    OnlyOldAreDropped(disk, start, steps);
    OldCountElsewhere(s.dropped, s.now, u, d);
  }

  // ---------------------------------------------------------------- persistence

  /** Urls only ever come in, so disk and snapshots know no url that is not published. */
  ghost predicate DiskFits(s: Db) {
    && s.disk.Keys <= s.published.Keys
    && (s.snap.Saving? ==> s.snap.copy.Keys <= s.published.Keys)
    && (s.phase.Merging? || s.phase.Publishing? ==> s.published.Keys <= s.phase.copy.Keys)
    && (FinalDrainOver(s) ==> s.q == s.late)
    && (!FinalDrainOver(s) ==> s.late == [])
    && (s.final ==> !s.running)
    && (s.closed ==> s.disk == s.published && s.final && !s.running && s.phase == Idle && s.snap == NoSnap)
  }

  lemma StepKeepsDisk(s: Db, step: Step)
    requires DiskFits(s)
    ensures DiskFits(Next(s, step))
  {
    hide AddedTo, MergedEntry, Rejected;
    if step.Close? {
      assert Next(s, step).closed && !s.closed ==> s.disk + s.published == s.published;
    }
  }

  lemma {:induction false} DiskAlwaysFits(disk: Store, start: Tp, steps: seq<Step>)
    ensures DiskFits(RunDb(Open(disk, start), steps))
  {
    if steps != [] {
      DiskAlwaysFits(disk, start, steps[..|steps| - 1]);
      StepKeepsDisk(RunDb(Open(disk, start), steps[..|steps| - 1]), steps[|steps| - 1]);
    }
  }

  /** After shutdown everything saved before the final drain is on disk, and opening the disk
      again shows every url with the very same days and counts as before the shutdown. */
  lemma ShutdownPersists(disk: Store, start: Tp, steps: seq<Step>, again: Tp, u: Url, d: DayKey)
    requires RunDb(Open(disk, start), steps).closed
    ensures
      var s := RunDb(Open(disk, start), steps);
      Open(s.disk, again).published == s.published
    ensures
      var s := RunDb(Open(disk, start), steps);
      d.num >= OldestDay(s.now) ==>
      CountOf(Open(s.disk, again).published, u, d) ==
      CountOf(disk, u, d) + (DayCount(s.saved, u, d) - DayCount(s.late, u, d)) - DayCount(s.dropped, u, d)
  {
    DiskAlwaysFits(disk, start, steps);
    var s := RunDb(Open(disk, start), steps);
    if d.num >= OldestDay(s.now) {
      VisitsConserved(disk, start, steps, u, d);
    }
  }

  /** And of the last 12 full days everything saved in time is there after opening again. */
  lemma ShutdownKeepsRecent(disk: Store, start: Tp, steps: seq<Step>, again: Tp, u: Url, d: DayKey)
    requires RunDb(Open(disk, start), steps).closed && d.num >= DayOf(RunDb(Open(disk, start), steps).now) - 12
    ensures
      var s := RunDb(Open(disk, start), steps);
      CountOf(Open(s.disk, again).published, u, d) ==
      CountOf(disk, u, d) + DayCount(s.saved, u, d) - DayCount(s.late, u, d)
  {
    hide RunDb, DayCount, CountOf;
    var s := RunDb(Open(disk, start), steps);
    OldestDayMonotone(s.now, s.now);
    ShutdownPersists(disk, start, steps, again, u, d);
    OnlyOldAreDropped(disk, start, steps);
    OldCountElsewhere(s.dropped, s.now, u, d);
  }

  // ---------------------------------------------------------------- one pass of the merger, as code

  /** The queue handed over one by one, each at its own clock reading. */
  function DrainedInto(local: Store, q: seq<UrlTpStat>, readings: seq<Tp>): Store
    requires |readings| >= |q|
  {
    if q == [] then local
    else AddedTo(DrainedInto(local, q[..|q| - 1], readings), q[|q| - 1], readings[|q| - 1])
  }

  /** The visits with the readings at which they are drained. */
  function ArrivalsOf(q: seq<UrlTpStat>, readings: seq<Tp>): seq<Arrival>
    requires |readings| >= |q|
  {
    seq(|q|, i requires 0 <= i < |q| => Arrival(q[i], readings[i]))
  }

  /** The day is retained at every look at the clock that a pass takes. */
  ghost predicate RetainedAt(d: DayKey, readings: seq<Tp>, n: nat)
    requires n <= |readings|
  {
    forall i :: 0 <= i < n ==> d.num >= OldestDay(readings[i])
  }

  lemma {:induction false} DrainedCounts(q: seq<UrlTpStat>, readings: seq<Tp>, u: Url, d: DayKey)
    requires |readings| >= |q| && RetainedAt(d, readings, |q|)
    ensures CountOf(DrainedInto(map[], q, readings), u, d) == NaiveCount(ArrivalsOf(q, readings), u, d)
  {
    if q != [] {
      var n := |q| - 1;
      DrainedCounts(q[..n], readings, u, d);
      AddCounts(DrainedInto(map[], q[..n], readings), q[n], readings[n], u, d);
      assert ArrivalsOf(q, readings)[..n] == ArrivalsOf(q[..n], readings);
    }
  }

  /** What a pass publishes: on top of the published counts those of the visits it drained. */
  lemma PassCounts(store: Store, q: seq<UrlTpStat>, readings: seq<Tp>, u: Url, d: DayKey)
    requires |readings| > |q| && RetainedAt(d, readings, |q| + 1)
    ensures
      var local := DrainedInto(map[], q, readings);
      CountOf(if local == map[] then store else MergedStore(store, local, readings[|q|]), u, d) ==
      CountOf(store, u, d) + NaiveCount(ArrivalsOf(q, readings), u, d)
  {
    DrainedCounts(q, readings, u, d);
    MergeCounts(store, DrainedInto(map[], q, readings), readings[|q|], u, d);
  }

  lemma PassCountsAll(store: Store, q: seq<UrlTpStat>, readings: seq<Tp>)
    requires |readings| > |q|
    ensures
      var local := DrainedInto(map[], q, readings);
      var after := if local == map[] then store else MergedStore(store, local, readings[|q|]);
      forall u, d ::
        RetainedAt(d, readings, |q| + 1) ==>
        CountOf(after, u, d) == CountOf(store, u, d) + NaiveCount(ArrivalsOf(q, readings), u, d)
  {
    hide *;
    var local := DrainedInto(map[], q, readings);
    var after := if local == map[] then store else MergedStore(store, local, readings[|q|]);
    forall u, d | RetainedAt(d, readings, |q| + 1)
      ensures CountOf(after, u, d) == CountOf(store, u, d) + NaiveCount(ArrivalsOf(q, readings), u, d)
    {
      PassCounts(store, q, readings, u, d);
    }
  }

  class UrlsDaysDb {
    var m_q: seq<UrlTpStat>
    const m_urls_days: UrlsDays
    var m_db: Store   // on disk
    var m_merge_finished: bool

    constructor (disk: Store)
      ensures m_q == [] && fresh(m_urls_days) && m_db == disk && !m_merge_finished
      ensures m_urls_days.m_urls_days == disk
    {
      m_q := [];
      m_urls_days := new UrlsDays();
      m_db := disk;
      m_merge_finished := false;
      new;
      LoadSnapshot();
    }

    /** Scans the disk into a local store, then moves it in. */
    method LoadSnapshot()
      modifies m_urls_days
      ensures m_urls_days.m_urls_days == m_db
    {
      var loaded: Store := map[];
      var todo := m_db.Keys;
      while todo != {}
        invariant todo <= m_db.Keys
        invariant forall u :: u in loaded <==> u in m_db && u !in todo
        invariant forall u :: u in loaded ==> loaded[u] == m_db[u]
        decreases todo
      {
        var u :| u in todo;
        loaded := loaded[u := m_db[u]];
        todo := todo - {u};
      }
      m_urls_days.m_urls_days := loaded;
    }

    /** Puts every url of a copy; urls that are on disk already are overwritten, none is removed. */
    method SaveSnapshot()
      modifies `m_db
      ensures m_db == old(m_db) + m_urls_days.m_urls_days
    {
      var copy := m_urls_days.m_urls_days;
      var todo := copy.Keys;
      while todo != {}
        invariant todo <= copy.Keys
        invariant forall u :: u in m_db <==> u in old(m_db) || (u in copy && u !in todo)
        invariant forall u :: u in m_db ==> m_db[u] == if u in copy && u !in todo then copy[u] else old(m_db)[u]
        decreases todo
      {
        var u :| u in todo;
        m_db := m_db[u := copy[u]];
        todo := todo - {u};
      }
    }

    method SaveVisitsPack(utp: UrlTpStat)
      modifies `m_q
      ensures m_q == old(m_q) + [utp]
    {
      m_q := m_q + [utp];
    }

    /** A pass nobody interferes with; `readings` are its looks at the clock. */
    method MergeEventsFromQueue(readings: seq<Tp>)
      requires |readings| > |m_q|
      modifies `m_q, `m_merge_finished, m_urls_days
      ensures m_q == []
      ensures
        var local := DrainedInto(map[], old(m_q), readings);
        && m_merge_finished == (local != map[])
        && m_urls_days.m_urls_days == if local == map[] then old(m_urls_days.m_urls_days)
                                      else MergedStore(old(m_urls_days.m_urls_days), local, readings[|old(m_q)|])
      ensures forall u, d ::
        RetainedAt(d, readings, |old(m_q)| + 1) ==>
        CountOf(m_urls_days.m_urls_days, u, d) ==
        CountOf(old(m_urls_days.m_urls_days), u, d) + NaiveCount(ArrivalsOf(old(m_q), readings), u, d)
    {
      PassCountsAll(m_urls_days.m_urls_days, m_q, readings);
      hide RetainedAt, CountOf, NaiveCount;
      m_merge_finished := false;
      var upd := new UrlsDays();
      var looks := 0;
      ghost var q := m_q;
      while m_q != []
        invariant fresh(upd) && 0 <= looks <= |q| && m_q == q[looks..]
        invariant upd.m_urls_days == DrainedInto(map[], q[..looks], readings)
        invariant m_urls_days.m_urls_days == old(m_urls_days.m_urls_days) && !m_merge_finished
        decreases |m_q|
      {
        var utp := m_q[0];
        assert q[..looks + 1][..looks] == q[..looks];
        m_q := m_q[1..];
        upd.Add(utp, readings[looks]);
        looks := looks + 1;
      }
      assert q[..looks] == q;
      if upd.m_urls_days == map[] {
        return;
      }
      var copy := new UrlsDays(m_urls_days.m_urls_days);
      copy.Merge(upd, readings[looks]);
      m_urls_days.m_urls_days := copy.m_urls_days;
      m_merge_finished := true;
    }
  }

  /** The steps of an undisturbed pass over a queue. */
  function DrainSteps(readings: seq<Tp>, n: nat): seq<Step>
    requires n <= |readings|
  {
    if n == 0 then [] else DrainSteps(readings, n - 1) + [Tick(readings[n - 1]), Drain(0)]
  }

  function PassSteps(readings: seq<Tp>, n: nat): seq<Step>
    requires n < |readings|
  {
    [BeginPass] + DrainSteps(readings, n) + [EndDrain] + [CopyPublished] + [Tick(readings[n])] + [MergeLocal] +
      [Publish]
  }

  lemma RunStep(s: Db, steps: seq<Step>, step: Step)
    ensures RunDb(s, steps + [step]) == Next(RunDb(s, steps), step)
  {
    assert (steps + [step])[..|steps|] == steps;
  }

  lemma DrainOne(s: Db, s0: Db, readings: seq<Tp>, n: nat)
    requires n < |s0.q| < |readings| && s.phase == Draining && s.q == s0.q[n..] && s.now <= readings[n]
    requires s.local == DrainedInto(map[], s0.q[..n], readings)
    ensures
      var s1 := Next(Next(s, Tick(readings[n])), Drain(0));
      && s1.phase == Draining && s1.published == s.published && s1.now == readings[n]
      && s1.disk == s.disk && s1.snap == s.snap && s1.closed == s.closed
      && s1.running == s.running && s1.final == s.final && s1.saved == s.saved
      && s1.q == s0.q[n + 1..] && s1.local == DrainedInto(map[], s0.q[..n + 1], readings)
  {
    hide AddedTo, MergedStore, Rejected;
    assert s0.q[..n + 1][..n] == s0.q[..n] && s0.q[..n + 1][n] == s.q[0];
    hide DrainedInto;
    assert s.q[..0] + s.q[1..] == s0.q[n + 1..];
  }

  /** What the merger leaves alone; its pass is the last one exactly if the loop has been stopped. */
  ghost predicate SameOutside(s: Db, s1: Db) {
    && s1.disk == s.disk && s1.snap == s.snap && s1.closed == s.closed
    && s1.running == s.running && s1.final == !s.running && s1.saved == s.saved
  }

  /** `s1` is `s` with its pass begun and the first `n` visits drained. */
  ghost predicate DrainedPart(s: Db, s1: Db, readings: seq<Tp>, n: nat)
    requires n <= |s.q| < |readings|
  {
    && s1.phase == Draining && s1.published == s.published && SameOutside(s, s1)
    && s1.q == s.q[n..]
    && s1.local == DrainedInto(map[], s.q[..n], readings)
    && s1.now == (if n == 0 then s.now else readings[n - 1])
  }

  lemma BeginDrains(s: Db, readings: seq<Tp>)
    requires s.phase == Idle && !s.final && |s.q| < |readings|
    ensures DrainedPart(s, Next(s, BeginPass), readings, 0)
  {
    assert s.q[..0] == [];
  }

  lemma DrainOneMore(s: Db, s1: Db, readings: seq<Tp>, n: nat)
    requires n < |s.q| < |readings| && DrainedPart(s, s1, readings, n) && s1.now <= readings[n]
    ensures DrainedPart(s, Next(Next(s1, Tick(readings[n])), Drain(0)), readings, n + 1)
  {
    DrainOne(s1, s, readings, n);
  }

  lemma {:induction false} DrainStepsRun(s: Db, readings: seq<Tp>, n: nat)
    requires s.phase == Idle && !s.final && n <= |s.q| < |readings|
    requires forall i, j :: 0 <= i <= j < |readings| ==> s.now <= readings[i] <= readings[j]
    ensures DrainedPart(s, RunDb(s, [BeginPass] + DrainSteps(readings, n)), readings, n)
  {
    hide RunDb, Next, DrainedInto;
    if n == 0 {
      EmptyRun(s);
      assert [BeginPass] + DrainSteps(readings, 0) == [] + [BeginPass];
      RunStep(s, [], BeginPass);
      BeginDrains(s, readings);
    } else {
      DrainStepsRun(s, readings, n - 1);
      var before := [BeginPass] + DrainSteps(readings, n - 1);
      assert [BeginPass] + DrainSteps(readings, n) == before + [Tick(readings[n - 1])] + [Drain(0)];
      RunTwo(s, before, Tick(readings[n - 1]), Drain(0));
      DrainOneMore(s, RunDb(s, before), readings, n - 1);
    }
  }

  lemma EmptyRun(s: Db)
    ensures RunDb(s, []) == s
  {
  }

  lemma RunTwo(s: Db, steps: seq<Step>, a: Step, b: Step)
    ensures RunDb(s, steps + [a] + [b]) == Next(Next(RunDb(s, steps), a), b)
  {
    RunStep(s, steps, a);
    RunStep(s, steps + [a], b);
  }

  lemma EndAndCopy(s: Db, steps: seq<Step>)
    requires RunDb(s, steps).phase == Draining && RunDb(s, steps).q == []
    ensures
      var s0 := RunDb(s, steps);
      RunDb(s, steps + [EndDrain] + [CopyPublished]) ==
        s0.(phase := if s0.local == map[] then Idle else Merging(s0.published))
  {
    RunTwo(s, steps, EndDrain, CopyPublished);
  }

  lemma TickAndMerge(s: Db, steps: seq<Step>, t: Tp)
    requires RunDb(s, steps).now <= t
    requires RunDb(s, steps).phase == Idle || RunDb(s, steps).phase.Merging?
    ensures
      var s0 := RunDb(s, steps);
      RunDb(s, steps + [Tick(t)] + [MergeLocal]) ==
      s0.(now := t, phase := if s0.phase == Idle then Idle else Publishing(MergedStore(s0.phase.copy, s0.local, t)))
  {
    RunTwo(s, steps, Tick(t), MergeLocal);
  }

  lemma MergeAndPublish(s: Db, steps: seq<Step>, t: Tp)
    requires RunDb(s, steps).now <= t
    requires RunDb(s, steps).phase == Idle || RunDb(s, steps).phase.Merging?
    ensures
      var s0 := RunDb(s, steps);
      var s1 := RunDb(s, steps + [Tick(t)] + [MergeLocal] + [Publish]);
      && s1 == s0.(phase := Idle, now := t, local := s1.local, published := s1.published)
      && s1.published == if s0.phase == Idle then s0.published else MergedStore(s0.phase.copy, s0.local, t)
  {
    hide MergedStore, RunDb;
    TickAndMerge(s, steps, t);
    RunStep(s, steps + [Tick(t)] + [MergeLocal], Publish);
  }

  /** The code of a pass is a run of the protocol. */
  lemma PassIsRun(s: Db, readings: seq<Tp>)
    requires s.phase == Idle && s.local == map[] && !s.final && |s.q| < |readings|
    requires forall i, j :: 0 <= i <= j < |readings| ==> s.now <= readings[i] <= readings[j]
    ensures
      var s1 := RunDb(s, PassSteps(readings, |s.q|));
      var local := DrainedInto(map[], s.q, readings);
      && s1.q == [] && s1.phase == Idle && SameOutside(s, s1)
      && s1.published == if local == map[] then s.published else MergedStore(s.published, local, readings[|s.q|])
  {
    var n := |s.q|;
    DrainStepsRun(s, readings, n);
    assert s.q[..n] == s.q;
    var a := [BeginPass] + DrainSteps(readings, n);
    EndAndCopy(s, a);
    MergeAndPublish(s, a + [EndDrain] + [CopyPublished], readings[n]);
  }

  lemma StopsAndCloses(s: Db)
    ensures Next(s, Stop) == s.(running := false)
    ensures !s.closed && !s.running && s.final && s.phase == Idle && s.snap == NoSnap ==>
      Next(s, Close) == s.(disk := s.disk + s.published, closed := true)
  {
  }

  /** Shutting down an idle store is a run of the protocol that ends closed, with everything that was
      queued merged and all that is published on disk. */
  lemma ShutdownIsRun(s: Db, readings: seq<Tp>)
    requires s.phase == Idle && s.local == map[] && s.snap == NoSnap && !s.closed && !s.final && |s.q| < |readings|
    requires forall i, j :: 0 <= i <= j < |readings| ==> s.now <= readings[i] <= readings[j]
    ensures
      var s1 := RunDb(s, [Stop] + PassSteps(readings, |s.q|) + [Close]);
      var local := DrainedInto(map[], s.q, readings);
      && s1.closed && s1.q == [] && s1.disk == s.disk + s1.published
      && s1.published == if local == map[] then s.published else MergedStore(s.published, local, readings[|s.q|])
  {
    hide RunDb, Next, PassSteps, DrainedInto, MergedStore;
    var stopped := s.(running := false);
    var pass := PassSteps(readings, |s.q|);
    StopsAndCloses(s);
    EmptyRun(s);
    RunStep(s, [], Stop);
    assert [] + [Stop] == [Stop];
    PassIsRun(stopped, readings);
    RunAppend(s, [Stop], pass);
    RunStep(s, [Stop] + pass, Close);
    StopsAndCloses(RunDb(s, [Stop] + pass));
  }

  lemma {:induction false} RunAppend(s: Db, a: seq<Step>, b: seq<Step>)
    ensures RunDb(s, a + b) == RunDb(RunDb(s, a), b)
  {
    hide Next;
    if b == [] {
      assert a + b == a;
    } else {
      assert (a + b)[..|a + b| - 1] == a + b[..|b| - 1];
      RunAppend(s, a, b[..|b| - 1]);
    }
  }
}
