/** The labels of stored entries: what a merge forgets to set, and what that does to the statistics
    that are filled from the store when the scheduler starts. */
module UrlsDaysLabels {
  import opened Clock
  import opened Types
  import opened UrlsDaysStore
  import opened UrlsDaysProtocol
  import opened UrlFreqMaps
  import opened LastPerMapsPair
  import opened UrlFreqStatsByMerge

  /** The label a url was opened with, if any. */
  function LabelOnDisk(disk: Store, u: Url): Option<Url> {
    EntryOf(disk, u).url
  }

  /** An entry for `u` has the label it was opened with. */
  ghost predicate Labelled(m: Store, disk: Store, u: Url) {
    u in m ==> m[u].url == LabelOnDisk(disk, u)
  }

  ghost predicate LabelsFit(s: Db, disk: Store, u: Url) {
    && Labelled(s.published, disk, u) && (u in disk ==> u in s.published)
    && Labelled(s.disk, disk, u)
    && (s.snap.Saving? ==> Labelled(s.snap.copy, disk, u))
    && (s.phase.Merging? || s.phase.Publishing? ==>
          Labelled(s.phase.copy, disk, u) && (u in disk ==> u in s.phase.copy))
  }

  /** The label of the local store is dropped when an entry is merged. */
  lemma MergeKeepsLabel(m: Store, other: Store, now: Tp, disk: Store, u: Url)
    requires Labelled(m, disk, u) && (u in disk ==> u in m)
    ensures Labelled(MergedStore(m, other, now), disk, u) && (u in disk ==> u in MergedStore(m, other, now))
  {
  }

  lemma StepKeepsLabels(s: Db, step: Step, disk: Store, u: Url)
    requires LabelsFit(s, disk, u)
    ensures LabelsFit(Next(s, step), disk, u)
  {
    if step.MergeLocal? && s.phase.Merging? {
      hide MergedStore;
      MergeKeepsLabel(s.phase.copy, s.local, s.now, disk, u);
    }
  }

  lemma {:induction false} LabelsComeFromDisk(disk: Store, start: Tp, steps: seq<Step>, u: Url)
    ensures LabelsFit(RunDb(Open(disk, start), steps), disk, u)
  {
    if steps != [] {
      var n := |steps| - 1;
      LabelsComeFromDisk(disk, start, steps[..n], u);
      StepKeepsLabels(RunDb(Open(disk, start), steps[..n]), steps[n], disk, u);
    }
  }

  ghost predicate NoLabels(m: Store) {
    forall u :: u in m ==> m[u].url == None
  }

  lemma LabelledAll(m: Store, disk: Store)
    requires forall u :: Labelled(m, disk, u)
    ensures forall u :: u in m ==> m[u].url == if u in disk then disk[u].url else None
    ensures NoLabels(disk) ==> NoLabels(m)
  {
    forall u | u in m ensures m[u].url == LabelOnDisk(disk, u) {
      assert Labelled(m, disk, u);
    }
  }

  /** In every reachable state an entry has the label it had on disk when the store was opened, and
      none if it was not there. So a store that once starts empty never has a label, through any
      number of restarts. */
  lemma LabelsStayEmpty(disk: Store, start: Tp, steps: seq<Step>)
    ensures
      var s := RunDb(Open(disk, start), steps);
      forall u :: u in s.published ==> s.published[u].url == if u in disk then disk[u].url else None
    ensures
      var s := RunDb(Open(disk, start), steps);
      NoLabels(disk) ==> NoLabels(s.published) && NoLabels(s.disk)
  {
    var s := RunDb(Open(disk, start), steps);
    forall u ensures Labelled(s.published, disk, u) && Labelled(s.disk, disk, u) {
      LabelsComeFromDisk(disk, start, steps, u);
    }
    LabelledAll(s.published, disk);
    LabelledAll(s.disk, disk);
  }

  // ---------------------------------------------------------------- filling the statistics

  /** A label as a url; a missing one is the empty string. */
  function TextOf(name: Option<Url>, empty: Url): Url {
    if name.Some? then name.value else empty
  }

  ghost function StatsOfDays(l: seq<DayStat>, empty: Url): set<UrlTpStat> {
    set x | x in l :: UrlTpStat(TextOf(x.url, empty), x.tp, x.cnt)
  }

  /** What the scheduler feeds to the statistics when it starts: stored days of entries, under the
      entries' labels. */
  ghost predicate IsFedFrom(events: seq<Arrival>, m: Store, empty: Url) {
    forall e :: e in events ==>
      exists u: Url, l: seq<DayStat> :: u in m && IsDayList(m[u], l) && e.stat in StatsOfDays(l, empty)
  }

  lemma FedUnderEmptyUrl(events: seq<Arrival>, m: Store, empty: Url)
    requires NoLabels(m) && IsFedFrom(events, m, empty)
    ensures forall e :: e in events ==> e.stat.url == empty
  {
    forall e | e in events ensures e.stat.url == empty {
      var u: Url, l: seq<DayStat> :| u in m && IsDayList(m[u], l) && e.stat in StatsOfDays(l, empty);
      var x :| x in l && e.stat == UrlTpStat(TextOf(x.url, empty), x.tp, x.cnt);
    }
  }

  /** However the merge thread batches what is fed from a store without labels, the published
      statistics know no url but the empty one. */
  lemma {:induction false} FedStatsKnowNoUrl(batches: seq<seq<Arrival>>, m: Store, empty: Url)
    requires NoLabels(m) && forall b :: b in batches ==> IsFedFrom(b, m, empty)
    ensures Published(batches).hour.freq.Keys <= {empty} && Published(batches).day.freq.Keys <= {empty}
  {
    if batches != [] {
      var n := |batches| - 1;
      assert batches[n] in batches;
      FedStatsKnowNoUrl(batches[..n], m, empty);
      FedUnderEmptyUrl(batches[n], m, empty);
      OnlyUrlKnown(batches[n], empty);
    }
  }

  lemma {:induction false} OnlyUrlKnown(events: seq<Arrival>, only: Url)
    requires forall e :: e in events ==> e.stat.url == only
    ensures RunPair(events).hour.freq.Keys <= {only} && RunPair(events).day.freq.Keys <= {only}
  {
    if events != [] {
      var n := |events| - 1;
      var e := events[n];
      assert e in events;
      OnlyUrlKnown(events[..n], only);
      CleanedKnows(Pushed(RunPair(events[..n]).hour, e.stat), e.now, HOUR_WINDOW);
      CleanedKnows(Pushed(RunPair(events[..n]).day, e.stat), e.now, DAY_WINDOW);
    }
  }

  lemma {:induction false} CleanedKnows(c: FreqCache, now: Tp, window: nat)
    ensures Cleaned(c, now, window).freq.Keys <= c.freq.Keys
    decreases |c.q|
  {
    if c.q != [] && Expired(now, c.q[0].tp, window) {
      CleanedKnows(FreqCache(Evicted(c.freq, c.q[0]), c.q[1..]), now, window);
    }
  }
}
