/** What is on disk at any moment, in terms of the copies that the snapshots took. */
module UrlsDaysSnapshots {
  import opened Clock
  import opened Types
  import opened UrlsDaysStore
  import opened UrlsDaysProtocol

  /** The stores that were published when snapshots took their copies, read off the run alone. */
  function Copies(s0: Db, steps: seq<Step>): seq<Store> {
    if steps == [] then []
    else
      var n := |steps| - 1;
      var s := RunDb(s0, steps[..n]);
      Copies(s0, steps[..n]) + if steps[n].SnapCopy? && s.snap.Starting? then [s.published] else []
  }

  /** The latest of them, or the disk as it was when the store was opened. */
  function LastOr<T>(l: seq<T>, otherwise: T): T {
    if l == [] then otherwise else l[|l| - 1]
  }

  /** `disk` after the urls of `copy` outside `todo` have been written over `before`. */
  ghost predicate PartWritten(disk: Store, before: Store, copy: Store, todo: set<Url>) {
    && todo <= copy.Keys && before.Keys <= copy.Keys
    && disk.Keys == before.Keys + (copy.Keys - todo)
    && forall u :: u in disk ==> disk[u] == if u in todo then before[u] else copy[u]
  }

  /** Between snapshots the disk is exactly the latest copy; while one runs, it is the copy before,
      overwritten url by url; after shutdown it is what is published. */
  ghost predicate DiskIs(s: Db, loaded: Store, copies: seq<Store>) {
    if s.closed then s.disk == s.published
    else if s.snap.Saving? then
      && copies != [] && s.snap.copy == copies[|copies| - 1]
      && PartWritten(s.disk, LastOr(copies[..|copies| - 1], loaded), s.snap.copy, s.snap.todo)
    else s.disk == LastOr(copies, loaded)
  }

  lemma CopyTaken(s: Db, loaded: Store, copies: seq<Store>)
    requires DiskFits(s) && DiskIs(s, loaded, copies) && s.snap == Starting
    ensures DiskIs(Next(s, SnapCopy), loaded, copies + [s.published])
  {
    assert (copies + [s.published])[..|copies|] == copies;
  }

  lemma UrlWritten(s: Db, loaded: Store, copies: seq<Store>, u: Url)
    requires DiskFits(s) && DiskIs(s, loaded, copies)
    ensures DiskIs(Next(s, SnapPut(u)), loaded, copies)
  {
  }

  lemma SnapshotOver(s: Db, loaded: Store, copies: seq<Store>)
    requires DiskFits(s) && DiskIs(s, loaded, copies)
    ensures DiskIs(Next(s, SnapEnd), loaded, copies)
  {
    if s.snap.Saving? && s.snap.todo == {} {
      assert s.disk.Keys == s.snap.copy.Keys;
      assert s.disk == s.snap.copy;
    }
  }

  lemma OtherStepsLeaveDisk(s: Db, step: Step, loaded: Store, copies: seq<Store>)
    requires DiskFits(s) && DiskIs(s, loaded, copies)
    requires !step.SnapCopy? && !step.SnapPut? && !step.SnapEnd?
    ensures DiskIs(Next(s, step), loaded, copies)
  {
    hide AddedTo, MergedStore, Rejected, FinalDrainOver, PartWritten;
    var s1 := Next(s, step);
    if step.Close? {
      assert s1.closed ==> s1.disk == s1.published by {
        StepKeepsDisk(s, step);
      }
    } else if s.closed {
      StepKeepsDisk(s, step);
    } else {
      assert s1.disk == s.disk && s1.closed == s.closed;
      assert s1.snap == s.snap || (s.snap == NoSnap && s1.snap == Starting);
    }
  }

  /** In every reachable state. */
  lemma {:induction false} DiskFollowsCopies(disk: Store, start: Tp, steps: seq<Step>)
    ensures DiskIs(RunDb(Open(disk, start), steps), disk, Copies(Open(disk, start), steps))
  {
    if steps != [] {
      hide Next, DiskIs;
      var n := |steps| - 1;
      var s := RunDb(Open(disk, start), steps[..n]);
      var copies := Copies(Open(disk, start), steps[..n]);
      DiskFollowsCopies(disk, start, steps[..n]);
      DiskAlwaysFits(disk, start, steps[..n]);
      hide DiskFits;
      assert copies + [] == copies;
      match steps[n]
      case SnapCopy =>
        if s.snap.Starting? {
          CopyTaken(s, disk, copies);
        } else {
          NotStarting(s);
        }
      case SnapPut(u) => UrlWritten(s, disk, copies, u);
      case SnapEnd => SnapshotOver(s, disk, copies);
      case _ => OtherStepsLeaveDisk(s, steps[n], disk, copies);
    }
  }

  lemma NotStarting(s: Db)
    requires s.snap != Starting
    ensures Next(s, SnapCopy) == s
  {
  }

  // ---------------------------------------------------------------- one snapshot, as code

  function PutSteps(urls: seq<Url>): seq<Step> {
    seq(|urls|, i requires 0 <= i < |urls| => SnapPut(urls[i]))
  }

  /** `s1` is `s` after some urls of its copy have been written. */
  ghost predicate HasPut(s: Db, s1: Db, urls: seq<Url>) {
    && s.snap.Saving? && ToSet(urls) <= s.snap.copy.Keys
    && s1 == s.(disk := s1.disk, snap := s.snap.(todo := s.snap.todo - ToSet(urls)))
    && s1.disk.Keys == s.disk.Keys + ToSet(urls)
    && (forall u :: u in s1.disk ==> s1.disk[u] == if u in ToSet(urls) then s.snap.copy[u] else s.disk[u])
  }

  lemma NothingPut(s: Db)
    requires s.snap.Saving?
    ensures HasPut(s, s, [])
  {
    assert ToSet<Url>([]) == {};
  }

  lemma OneMorePut(s: Db, s1: Db, urls: seq<Url>, u: Url)
    requires HasPut(s, s1, urls) && u in s.snap.todo && u in s.snap.copy && u !in urls
    ensures HasPut(s, Next(s1, SnapPut(u)), urls + [u])
  {
    hide AddedTo, MergedStore;
    assert ToSet(urls + [u]) == ToSet(urls) + {u};
    assert s.snap.todo - ToSet(urls) - {u} == s.snap.todo - (ToSet(urls) + {u});
  }

  lemma {:induction false} PutsRun(s: Db, urls: seq<Url>)
    requires s.snap.Saving? && NoDup(urls) && forall u :: u in urls ==> u in s.snap.todo && u in s.snap.copy
    ensures HasPut(s, RunDb(s, PutSteps(urls)), urls)
  {
    hide HasPut, RunDb, Next;
    if urls == [] {
      assert PutSteps(urls) == [];
      EmptyRun(s);
      NothingPut(s);
    } else {
      var n := |urls| - 1;
      assert PutSteps(urls) == PutSteps(urls[..n]) + [SnapPut(urls[n])];
      assert urls == urls[..n] + [urls[n]] && urls[n] !in urls[..n];
      PutsRun(s, urls[..n]);
      RunStep(s, PutSteps(urls[..n]), SnapPut(urls[n]));
      OneMorePut(s, RunDb(s, PutSteps(urls[..n])), urls[..n], urls[n]);
    }
  }

  lemma BeginAndCopy(s: Db)
    requires s.snap == NoSnap && s.running
    ensures RunDb(s, [SnapBegin] + [SnapCopy]) == s.(snap := Saving(s.published, s.published.Keys))
  {
    EmptyRun(s);
    assert [SnapBegin] + [SnapCopy] == [] + [SnapBegin] + [SnapCopy];
    RunTwo(s, [], SnapBegin, SnapCopy);
  }

  lemma AllPut(s: Db, s1: Db, urls: seq<Url>)
    requires HasPut(s, s1, urls) && ToSet(urls) == s.snap.copy.Keys == s.snap.todo
    ensures Next(s1, SnapEnd) == s.(disk := s.disk + s.snap.copy, snap := NoSnap)
  {
    assert s1.disk == s.disk + s.snap.copy;
  }

  /** The code of a snapshot nobody interferes with is a run of the protocol, whatever the order in which
      it visits the urls. */
  lemma SnapshotIsRun(s: Db, urls: seq<Url>)
    requires s.snap == NoSnap && s.running && NoDup(urls) && ToSet(urls) == s.published.Keys
    ensures RunDb(s, [SnapBegin] + [SnapCopy] + PutSteps(urls) + [SnapEnd]) == s.(disk := s.disk + s.published)
  {
    hide RunDb, Next, HasPut, PutSteps;
    var begun := [SnapBegin] + [SnapCopy];
    var s1 := s.(snap := Saving(s.published, s.published.Keys));
    BeginAndCopy(s);
    forall u | u in urls ensures u in s.published {
      assert u in ToSet(urls);
    }
    PutsRun(s1, urls);
    RunAppend(s, begun, PutSteps(urls));
    RunStep(s, begun + PutSteps(urls), SnapEnd);
    AllPut(s1, RunDb(s1, PutSteps(urls)), urls);
  }
}
