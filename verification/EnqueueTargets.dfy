/** What is worth enqueueing, url by url, and the order in which the pipeline lists it. */
module EnqueueTargets {
  import opened Clock
  import opened Types
  import opened Rankings
  import HostDatabase
  import UrlDatabase

  type RobotsMap = map<Host, Robots>
  type Attempts = UrlDatabase.Attempts

  /** What the decisions at one look at the clock depend on. */
  datatype Moment = Moment(web: HostDatabase.Web, robots: RobotsMap, attempts: Attempts, now: Tp)

  // ---------------------------------------------------------------- what the pipeline means for one url

  predicate Due(m: Moment, p: UrlDatabase.Policy, u: Url) {
    UrlDatabase.IsDue(p, UrlDatabase.HistoryOf(m.attempts, u), m.now)
  }

  /** Robots rules permit `w`, and its normal form `u` is due as a page. */
  predicate DuePage(m: Moment, w: Url, u: Url) {
    HostDatabase.GivesPage(m.web, m.robots, w, u) && Due(m, UrlDatabase.Page, u)
  }

  /** The host of `w` has no robots file, and the one to fetch, `u`, is due as such. */
  predicate DueFile(m: Moment, w: Url, u: Url) {
    HostDatabase.GivesFile(m.web, m.robots, w, u) && Due(m, UrlDatabase.RobotsFile, u)
  }

  predicate HasDuePage(m: Moment, w: Url) {
    DuePage(m, w, m.web.normalized(w))
  }

  /** All that is crawlable among `urls`. */
  ghost function TargetsOf(m: Moment, urls: set<Url>): set<Url> {
    (set w | w in urls && HasDuePage(m, w) :: m.web.normalized(w)) +
    (set w | w in urls && DueFile(m, w, m.web.robots(w)) :: m.web.robots(w))
  }

  lemma TargetIff(m: Moment, urls: set<Url>, u: Url)
    ensures u in TargetsOf(m, urls) <==> exists w :: w in urls && (DuePage(m, w, u) || DueFile(m, w, u))
  {
    hide Due;
    if w :| w in urls && (DuePage(m, w, u) || DueFile(m, w, u)) {
      assert u == m.web.normalized(w) || u == m.web.robots(w);
    }
  }

  lemma TargetsGrow(m: Moment, a: set<Url>, b: set<Url>)
    requires a <= b
    ensures TargetsOf(m, a) <= TargetsOf(m, b)
  {
  }

  /** A url that parses is never left out for lack of history: with a robots file that allows it, its
      normal form is a target unless it was attempted before; without one, the robots file is. */
  lemma NeverAttemptedIsTarget(m: Moment, urls: set<Url>, w: Url)
    requires w in urls && m.web.ok(w)
    ensures
      && (m.web.isRobots(w) ||
          (m.web.host(w) in m.robots && m.web.allows(m.robots[m.web.host(w)], m.web.normalized(w))))
      && m.web.normalized(w) !in m.attempts ==>
      m.web.normalized(w) in TargetsOf(m, urls)
    ensures
      !m.web.isRobots(w) && m.web.host(w) !in m.robots && m.web.robots(w) !in m.attempts ==>
      m.web.robots(w) in TargetsOf(m, urls)
  {
    assert HasDuePage(m, w) ==> m.web.normalized(w) in TargetsOf(m, urls);
  }

  // ---------------------------------------------------------------- the lists of the pipeline

  /** The due pages of a list of known urls, as the pipeline collects them. */
  function PagesOf(m: Moment, v: seq<UrlFreq>): seq<UrlFreq> {
    UrlDatabase.Passing(
      UrlDatabase.Page, m.attempts, HostDatabase.PagesPassing(m.web, m.robots, v), m.now)
  }

  /** One decision under the page policy for each url that robots rules permit, in order. */
  ghost predicate Decided(m: Moment, v: seq<UrlFreq>, decisions: seq<UrlDatabase.UrlDecision>) {
    var pages := HostDatabase.PagesPassing(m.web, m.robots, v);
    && |decisions| == |pages|
    && (forall i :: 0 <= i < |pages| ==>
          decisions[i] == UrlDatabase.PageVerdict(UrlDatabase.HistoryOf(m.attempts, pages[i].url), m.now))
  }

  /** The places of the urls that have a due page. */
  function PageRanks(m: Moment, v: seq<UrlFreq>): seq<nat> {
    if v == [] then []
    else
      var n := |v| - 1;
      PageRanks(m, v[..n]) + if HasDuePage(m, v[n].url) then [n] else []
  }

  /** `pages[k]` is the due page of the url at place `ranks[k]`, and places ascend. */
  ghost predicate InRankOrder(m: Moment, v: seq<UrlFreq>, pages: seq<UrlFreq>, ranks: seq<nat>) {
    && |pages| == |ranks|
    && (forall k :: 0 <= k < |ranks| ==>
          ranks[k] < |v| && DuePage(m, v[ranks[k]].url, pages[k].url) && pages[k].cnt == v[ranks[k]].cnt)
    && (forall k, l :: 0 <= k < l < |ranks| ==> ranks[k] < ranks[l])
  }

  ghost predicate ListsFiles(m: Moment, v: seq<UrlFreq>, files: seq<UrlFreq>) {
    forall u :: (exists w :: w in UrlsOf(v) && DueFile(m, w, u)) ==> u in UrlsOf(files)
  }

  /** `out` begins with robots files, each once, and goes on with the pages of the places `ranks`.
      No page is there unless all due robots files are, and no due page is left out before another. */
  ghost predicate BestFirst(m: Moment, v: seq<UrlFreq>, out: seq<UrlFreq>, ranks: seq<nat>) {
    && |ranks| <= |out|
    && var files := out[..|out| - |ranks|];
    && NoDup(UrlsOf(files))
    && (forall u :: u in UrlsOf(files) ==> exists w :: w in UrlsOf(v) && DueFile(m, w, u))
    && InRankOrder(m, v, out[|files|..], ranks)
    && (ranks != [] ==> ListsFiles(m, v, files))
    && (forall k, j :: 0 <= k < |ranks| && 0 <= j < ranks[k] && HasDuePage(m, v[j].url) ==> j in ranks)
  }

  /** Nothing that is due is left out. */
  ghost predicate TakesAll(m: Moment, v: seq<UrlFreq>, out: seq<UrlFreq>, ranks: seq<nat>) {
    && |ranks| <= |out|
    && ListsFiles(m, v, out[..|out| - |ranks|])
    && (forall j :: 0 <= j < |v| && HasDuePage(m, v[j].url) ==> j in ranks)
  }

  lemma PagesOfStep(m: Moment, v: seq<UrlFreq>, e: UrlFreq)
    ensures
      PagesOf(m, v + [e]) ==
      if HasDuePage(m, e.url) then PagesOf(m, v) + [UrlFreq(m.web.normalized(e.url), e.cnt)] else PagesOf(m, v)
  {
    hide UrlDatabase.Verdict, UrlDatabase.IsDue, UrlDatabase.HistoryOf;
    var pages, u := HostDatabase.PagesPassing(m.web, m.robots, v), m.web.normalized(e.url);
    assert (v + [e])[..|v|] == v;
    if HostDatabase.GivesPage(m.web, m.robots, e.url, u) {
      assert (pages + [UrlFreq(u, e.cnt)])[..|pages|] == pages;
      UrlDatabase.AllowedExactlyAfterWait(UrlDatabase.Page, UrlDatabase.HistoryOf(m.attempts, u), m.now);
    } else {
      assert pages + [] == pages;
    }
  }

  lemma RankOrderStep(m: Moment, v: seq<UrlFreq>, e: UrlFreq, pages: seq<UrlFreq>, ranks: seq<nat>, page: UrlFreq)
    requires InRankOrder(m, v, pages, ranks)
    ensures InRankOrder(m, v + [e], pages, ranks)
    ensures DuePage(m, e.url, page.url) && page.cnt == e.cnt ==>
      InRankOrder(m, v + [e], pages + [page], ranks + [|v|])
  {
    hide DuePage;
  }

  lemma RanksStep(m: Moment, v: seq<UrlFreq>, e: UrlFreq)
    ensures PageRanks(m, v + [e]) == if HasDuePage(m, e.url) then PageRanks(m, v) + [|v|] else PageRanks(m, v)
  {
    hide HasDuePage;
    assert (v + [e])[..|v|] == v;
  }

  /** The places of all urls with a due page are listed. */
  lemma {:induction false} RanksComplete(m: Moment, v: seq<UrlFreq>)
    ensures forall j: nat :: j < |v| && HasDuePage(m, v[j].url) ==> j in PageRanks(m, v)
  {
    hide HasDuePage;
    if v != [] {
      var n := |v| - 1;
      RanksComplete(m, v[..n]);
      assert forall j: nat :: j < n ==> v[..n][j] == v[j];
    }
  }

  /** The pages come out in the order of the list. */
  lemma {:induction false} PagesInOrder(m: Moment, v: seq<UrlFreq>)
    ensures InRankOrder(m, v, PagesOf(m, v), PageRanks(m, v))
  {
    if v != [] {
      hide InRankOrder, PagesOf, PageRanks, DuePage;
      var n := |v| - 1;
      PagesInOrder(m, v[..n]);
      assert v == v[..n] + [v[n]];
      PagesOfStep(m, v[..n], v[n]);
      RanksStep(m, v[..n], v[n]);
      RankOrderStep(m, v[..n], v[n], PagesOf(m, v[..n]), PageRanks(m, v[..n]),
        UrlFreq(m.web.normalized(v[n].url), v[n].cnt));
    }
  }

  lemma UrlIn(v: seq<UrlFreq>, u: Url)
    ensures u in UrlsOf(v) <==> exists e :: e in v && e.url == u
  {
    if u in UrlsOf(v) {
      var i :| 0 <= i < |v| && UrlsOf(v)[i] == u;
      assert v[i] in v && v[i].url == u;
    }
    if e :| e in v && e.url == u {
      var i :| 0 <= i < |v| && v[i] == e;
      assert UrlsOf(v)[i] == u;
    }
  }

  /** The robots files that are left of those needed are the due ones. */
  lemma FilesOf(m: Moment, v: seq<UrlFreq>, uniq: seq<UrlFreq>, u: Url)
    requires ToSet(UrlsOf(uniq)) == ToSet(UrlsOf(HostDatabase.RobotsNeeded(m.web, m.robots, v)))
    ensures
      u in UrlsOf(UrlDatabase.Passing(UrlDatabase.RobotsFile, m.attempts, uniq, m.now)) <==>
      exists w :: w in UrlsOf(v) && DueFile(m, w, u)
  {
    hide UrlsOf, UrlDatabase.IsDue, UrlDatabase.Passing, HostDatabase.RobotsNeeded, HostDatabase.GivesFile;
    var needed := HostDatabase.RobotsNeeded(m.web, m.robots, v);
    UrlIn(UrlDatabase.Passing(UrlDatabase.RobotsFile, m.attempts, uniq, m.now), u);
    UrlDatabase.PassingMembers(UrlDatabase.RobotsFile, m.attempts, uniq, m.now);
    UrlIn(uniq, u);
    UrlIn(needed, u);
    assert u in UrlsOf(uniq) <==> u in ToSet(UrlsOf(uniq));
    assert u in UrlsOf(needed) <==> u in ToSet(UrlsOf(needed));
    NeededUrls(m, v, u);
  }

  lemma NeededUrls(m: Moment, v: seq<UrlFreq>, u: Url)
    ensures
      (exists e :: e in HostDatabase.RobotsNeeded(m.web, m.robots, v) && e.url == u) <==>
      exists w :: w in UrlsOf(v) && HostDatabase.GivesFile(m.web, m.robots, w, u)
  {
    hide UrlsOf, HostDatabase.RobotsNeeded, HostDatabase.GivesFile;
    var needed := HostDatabase.RobotsNeeded(m.web, m.robots, v);
    HostDatabase.SplitMembers(m.web, m.robots, v);
    if e :| e in needed && e.url == u {
      var x :| x in v && HostDatabase.GivesFile(m.web, m.robots, x.url, u) && e.cnt == x.cnt;
      UrlIn(v, x.url);
    }
    if w :| w in UrlsOf(v) && HostDatabase.GivesFile(m.web, m.robots, w, u) {
      UrlIn(v, w);
      var x :| x in v && x.url == w;
      assert UrlFreq(u, x.cnt) in needed;
    }
  }

  /** The pipeline lists all that is due, robots files first and pages as they are ranked, no matter how
      the missing robots files were grouped. */
  lemma PipelineBestFirst(m: Moment, v: seq<UrlFreq>, uniq: seq<UrlFreq>, out: seq<UrlFreq>)
    requires NoDup(UrlsOf(uniq))
    requires ToSet(UrlsOf(uniq)) == ToSet(UrlsOf(HostDatabase.RobotsNeeded(m.web, m.robots, v)))
    requires out == UrlDatabase.Passing(UrlDatabase.RobotsFile, m.attempts, uniq, m.now) + PagesOf(m, v)
    ensures BestFirst(m, v, out, PageRanks(m, v)) && TakesAll(m, v, out, PageRanks(m, v))
  {
    hide NoDup, DueFile, HasDuePage, InRankOrder, PageRanks, PagesOf, UrlDatabase.Passing;
    var files := UrlDatabase.Passing(UrlDatabase.RobotsFile, m.attempts, uniq, m.now);
    PagesInOrder(m, v);
    RanksComplete(m, v);
    PassingKeepsDistinct(UrlDatabase.RobotsFile, m.attempts, uniq, m.now);
    forall u ensures u in UrlsOf(files) <==> exists w :: w in UrlsOf(v) && DueFile(m, w, u) {
      FilesOf(m, v, uniq, u);
    }
    RankOrderLengths(m, v, PagesOf(m, v), PageRanks(m, v));
    assert out[..|files|] == files && out[|files|..] == PagesOf(m, v);
    assert out[..|out| - |PageRanks(m, v)|] == files;
  }

  lemma RankOrderLengths(m: Moment, v: seq<UrlFreq>, pages: seq<UrlFreq>, ranks: seq<nat>)
    requires InRankOrder(m, v, pages, ranks)
    ensures |pages| == |ranks| && forall k :: 0 <= k < |ranks| ==> ranks[k] < |v|
  {
  }

  lemma FilesOfPrefix(m: Moment, v: seq<UrlFreq>, out: seq<UrlFreq>, ranks: seq<nat>, n: nat)
    requires BestFirst(m, v, out, ranks) && n <= |out| - |ranks|
    ensures BestFirst(m, v, out[..n], [])
  {
    hide DuePage, DueFile, HasDuePage, ListsFiles;
    var files := out[..|out| - |ranks|];
    var first, none: seq<nat> := out[..n], [];
    assert first == files[..n] && UrlsOf(first) == UrlsOf(files)[..n];
    assert first[..|first| - |none|] == first && first[|first|..] == [];
    assert NoDup(UrlsOf(first)) && forall u :: u in UrlsOf(first) ==> u in UrlsOf(files);
    assert InRankOrder(m, v, [], none);
    assert BestFirst(m, v, first, none);
  }

  lemma PagesOfPrefix(m: Moment, v: seq<UrlFreq>, out: seq<UrlFreq>, ranks: seq<nat>, n: nat)
    requires BestFirst(m, v, out, ranks) && |out| - |ranks| < n <= |out|
    ensures BestFirst(m, v, out[..n], ranks[..n - (|out| - |ranks|)])
  {
    hide DuePage, DueFile, HasDuePage, ListsFiles, NoDup;
    var files := |out| - |ranks|;
    var first := ranks[..n - files];
    assert out[..n][..files] == out[..files] && out[..n][files..] == out[files..][..n - files];
    assert forall a, b :: 0 <= a <= b < |ranks| ==> ranks[a] <= ranks[b];
    forall k, j | 0 <= k < |first| && 0 <= j < first[k] && HasDuePage(m, v[j].url) ensures j in first {
      assert ranks[k] == first[k] && j in ranks;
      var l :| 0 <= l < |ranks| && ranks[l] == j;
      assert l < k && first[l] == j;
    }
  }

  /** The first entries of a list that is ordered like this are ordered like this. */
  lemma PrefixBestFirst(m: Moment, v: seq<UrlFreq>, out: seq<UrlFreq>, ranks: seq<nat>, n: nat)
    requires BestFirst(m, v, out, ranks) && n <= |out|
    ensures
      var files := |out| - |ranks|;
      BestFirst(m, v, out[..n], if n <= files then [] else ranks[..n - files])
  {
    if n <= |out| - |ranks| {
      FilesOfPrefix(m, v, out, ranks, n);
    } else {
      PagesOfPrefix(m, v, out, ranks, n);
    }
  }

  /** Of two urls with due pages the one that is ranked higher goes first: if the other one's page is
      listed then so is its, and earlier, and all due robots files are listed before both. */
  lemma HigherRankFirst(m: Moment, v: seq<UrlFreq>, out: seq<UrlFreq>, ranks: seq<nat>, i: nat, j: nat)
      returns (k: nat, l: nat)
    requires BestFirst(m, v, out, ranks) && i < j < |v|
    requires HasDuePage(m, v[i].url) && HasDuePage(m, v[j].url) && j in ranks
    ensures |out| - |ranks| <= k < l < |out|
    ensures out[k] == UrlFreq(m.web.normalized(v[i].url), v[i].cnt)
    ensures out[l] == UrlFreq(m.web.normalized(v[j].url), v[j].cnt)
    ensures ListsFiles(m, v, out[..k])
  {
    hide DueFile;
    var files := |out| - |ranks|;
    var b :| 0 <= b < |ranks| && ranks[b] == j;
    assert i in ranks;
    var a :| 0 <= a < |ranks| && ranks[a] == i;
    k, l := files + a, files + b;
    assert out[files..][a] == out[k] && out[files..][b] == out[l];
    forall u | u in UrlsOf(out[..files]) ensures u in UrlsOf(out[..k]) {
      var c :| 0 <= c < files && UrlsOf(out[..files])[c] == u;
      assert UrlsOf(out[..k])[c] == u;
    }
  }

  // ---------------------------------------------------------------- such a list as a set

  lemma OneEntry(m: Moment, v: seq<UrlFreq>, out: seq<UrlFreq>, ranks: seq<nat>, i: nat)
    requires BestFirst(m, v, out, ranks) && i < |out|
    ensures exists w :: w in UrlsOf(v) && (DuePage(m, w, out[i].url) || DueFile(m, w, out[i].url))
  {
    hide DuePage, DueFile, HasDuePage;
    var files := |out| - |ranks|;
    assert |out[..files]| == files;
    if i < files {
      assert UrlsOf(out[..files])[i] == out[i].url;
      assert out[i].url in UrlsOf(out[..files]);
    } else {
      var r := ranks[i - files];
      assert out[files..][i - files] == out[i] && UrlsOf(v)[r] == v[r].url;
      assert v[r].url in UrlsOf(v) && DuePage(m, v[r].url, out[i].url);
    }
  }

  /** Only targets are listed, and all of them if nothing is left out. */
  lemma ListedAreTargets(m: Moment, v: seq<UrlFreq>, out: seq<UrlFreq>, ranks: seq<nat>)
    requires BestFirst(m, v, out, ranks)
    ensures ToSet(UrlsOf(out)) <= TargetsOf(m, ToSet(UrlsOf(v)))
    ensures TakesAll(m, v, out, ranks) ==> ToSet(UrlsOf(out)) == TargetsOf(m, ToSet(UrlsOf(v)))
  {
    hide DuePage, DueFile, BestFirst, TakesAll, TargetsOf;
    var known := ToSet(UrlsOf(v));
    forall u | u in UrlsOf(out) ensures u in TargetsOf(m, known) {
      var i :| 0 <= i < |out| && UrlsOf(out)[i] == u;
      OneEntry(m, v, out, ranks, i);
      TargetIff(m, known, u);
    }
    if TakesAll(m, v, out, ranks) {
      forall u | u in TargetsOf(m, known) ensures u in UrlsOf(out) {
        TargetIff(m, known, u);
        var w :| w in known && (DuePage(m, w, u) || DueFile(m, w, u));
        TargetListed(m, v, out, ranks, w, u);
      }
    }
  }

  lemma TargetListed(m: Moment, v: seq<UrlFreq>, out: seq<UrlFreq>, ranks: seq<nat>, w: Url, u: Url)
    requires BestFirst(m, v, out, ranks) && TakesAll(m, v, out, ranks)
    requires w in UrlsOf(v) && (DuePage(m, w, u) || DueFile(m, w, u))
    ensures u in UrlsOf(out)
  {
    hide Due;
    var files := |out| - |ranks|;
    if DueFile(m, w, u) {
      assert u in UrlsOf(out[..files]);
      var i :| 0 <= i < files && UrlsOf(out[..files])[i] == u;
      assert UrlsOf(out)[i] == u;
    } else {
      var j :| 0 <= j < |v| && UrlsOf(v)[j] == w;
      assert HasDuePage(m, v[j].url);
      var k :| 0 <= k < |ranks| && ranks[k] == j;
      assert out[files..][k] == out[files + k];
      assert UrlsOf(out)[files + k] == u;
    }
  }

  // ---------------------------------------------------------------- entries that name the same url

  /** No two urls share a normal form that is due. */
  ghost predicate DistinctPages(m: Moment, urls: set<Url>) {
    forall v, w, u :: v in urls && w in urls && DuePage(m, v, u) && DuePage(m, w, u) ==> v == w
  }

  /** No url is the normal form of a due page and a due robots file at once. */
  ghost predicate NoneIsBoth(m: Moment, urls: set<Url>) {
    forall v, w, u :: v in urls && w in urls && DuePage(m, v, u) ==> !DueFile(m, w, u)
  }

  ghost predicate DistinctTargets(m: Moment, urls: set<Url>) {
    DistinctPages(m, urls) && NoneIsBoth(m, urls)
  }

  lemma FewerStayDistinct(m: Moment, a: set<Url>, b: set<Url>)
    requires a <= b && DistinctTargets(m, b)
    ensures DistinctTargets(m, a)
  {
  }

  lemma SharedRepeats<T>(a: seq<T>, b: seq<T>, x: T)
    requires x in a && x in b
    ensures !NoDup(a + b)
  {
    var i :| 0 <= i < |a| && a[i] == x;
    var j :| 0 <= j < |b| && b[j] == x;
    assert (a + b)[i] == (a + b)[|a| + j];
  }

  lemma NoDupAppend<T>(a: seq<T>, b: seq<T>)
    ensures NoDup(a + b) <==> NoDup(a) && NoDup(b) && forall x :: x in a ==> x !in b
  {
    var s := a + b;
    if NoDup(s) {
      assert forall i :: 0 <= i < |a| ==> s[i] == a[i];
      assert forall i :: 0 <= i < |b| ==> s[|a| + i] == b[i];
    }
    forall x | x in a && x in b ensures !NoDup(s) {
      SharedRepeats(a, b, x);
    }
    if NoDup(a) && NoDup(b) && forall x :: x in a ==> x !in b {
      forall i, j | 0 <= i < j < |s| ensures s[i] != s[j] {
        if i < |a| <= j {
          assert s[i] in a && s[j] == b[j - |a|] && s[j] in b;
        }
      }
    }
  }

  lemma NoDupStep(v: seq<UrlFreq>, e: UrlFreq)
    ensures NoDup(UrlsOf(v + [e])) <==> NoDup(UrlsOf(v)) && e.url !in UrlsOf(v)
  {
    hide NoDup;
    UrlsOfAppend(v, e);
    NoDupAppend(UrlsOf(v), [e.url]);
    assert NoDup([e.url]) by {
      NoDupOne(e.url);
    }
  }

  lemma NoDupOne<T>(x: T)
    ensures NoDup([x])
  {
  }

  lemma {:induction false} PassingKeepsDistinct(p: UrlDatabase.Policy, m: Attempts, v: seq<UrlFreq>, now: Tp)
    requires NoDup(UrlsOf(v))
    ensures NoDup(UrlsOf(UrlDatabase.Passing(p, m, v, now)))
  {
    hide UrlDatabase.Verdict, UrlDatabase.IsDue, NoDup, UrlsOf;
    if v == [] {
      assert UrlDatabase.Passing(p, m, v, now) == v;
    } else {
      var n := |v| - 1;
      var before := UrlDatabase.Passing(p, m, v[..n], now);
      assert v == v[..n] + [v[n]] && before + [] == before;
      NoDupStep(v[..n], v[n]);
      NoDupStep(before, v[n]);
      PassingKeepsDistinct(p, m, v[..n], now);
      UrlDatabase.PassingMembers(p, m, v[..n], now);
      UrlIn(before, v[n].url);
      UrlIn(v[..n], v[n].url);
    }
  }

  lemma PagesDistinctIff(m: Moment, v: seq<UrlFreq>, pages: seq<UrlFreq>, ranks: seq<nat>)
    requires NoDup(UrlsOf(v)) && InRankOrder(m, v, pages, ranks)
    requires forall j :: 0 <= j < |v| && HasDuePage(m, v[j].url) ==> j in ranks
    ensures NoDup(UrlsOf(pages)) <==> DistinctPages(m, ToSet(UrlsOf(v)))
  {
    hide Due;
    if NoDup(UrlsOf(pages)) {
      forall a, b, u | a in UrlsOf(v) && b in UrlsOf(v) && DuePage(m, a, u) && DuePage(m, b, u) ensures a == b {
        var i :| 0 <= i < |v| && UrlsOf(v)[i] == a;
        var j :| 0 <= j < |v| && UrlsOf(v)[j] == b;
        assert HasDuePage(m, v[i].url) && HasDuePage(m, v[j].url);
        var k :| 0 <= k < |ranks| && ranks[k] == i;
        var l :| 0 <= l < |ranks| && ranks[l] == j;
        assert UrlsOf(pages)[k] == u == UrlsOf(pages)[l];
      }
    }
    if DistinctPages(m, ToSet(UrlsOf(v))) {
      forall k, l | 0 <= k < l < |pages| ensures UrlsOf(pages)[k] != UrlsOf(pages)[l] {
        var a, b := UrlsOf(v)[ranks[k]], UrlsOf(v)[ranks[l]];
        assert a != b && a in ToSet(UrlsOf(v)) && b in ToSet(UrlsOf(v));
        assert DuePage(m, a, pages[k].url) && DuePage(m, b, pages[l].url);
      }
    }
  }

  lemma NoClashIff(m: Moment, known: set<Url>, files: seq<Url>, pages: seq<Url>)
    requires forall u :: u in files <==> exists w :: w in known && DueFile(m, w, u)
    requires forall u :: u in pages <==> exists w :: w in known && DuePage(m, w, u)
    ensures (forall u :: u in files ==> u !in pages) <==> NoneIsBoth(m, known)
  {
    hide DuePage, DueFile;
    if NoneIsBoth(m, known) {
      forall u | u in files ensures u !in pages {
        var w :| w in known && DueFile(m, w, u);
      }
    }
    if forall u :: u in files ==> u !in pages {
      forall v, w, u | v in known && w in known && DuePage(m, v, u) ensures !DueFile(m, w, u) {
        assert u in pages;
      }
    }
  }

  lemma PageListed(m: Moment, v: seq<UrlFreq>, pages: seq<UrlFreq>, ranks: seq<nat>, u: Url)
    requires InRankOrder(m, v, pages, ranks)
    requires forall j :: 0 <= j < |v| && HasDuePage(m, v[j].url) ==> j in ranks
    ensures u in UrlsOf(pages) <==> exists w :: w in ToSet(UrlsOf(v)) && DuePage(m, w, u)
  {
    hide Due;
    if u in UrlsOf(pages) {
      var k :| 0 <= k < |pages| && UrlsOf(pages)[k] == u;
      assert UrlsOf(v)[ranks[k]] in ToSet(UrlsOf(v));
    }
    if w :| w in ToSet(UrlsOf(v)) && DuePage(m, w, u) {
      var j :| 0 <= j < |v| && UrlsOf(v)[j] == w;
      assert HasDuePage(m, v[j].url);
      var k :| 0 <= k < |ranks| && ranks[k] == j;
      assert UrlsOf(pages)[k] == u;
    }
  }

  /** Made from a list without repetitions, a list of all that is due is without repetitions if and only
      if the normal forms of the due pages are distinct, and none of them is a due robots file. */
  lemma EntriesDistinctIff(m: Moment, v: seq<UrlFreq>, out: seq<UrlFreq>, ranks: seq<nat>)
    requires NoDup(UrlsOf(v)) && BestFirst(m, v, out, ranks) && TakesAll(m, v, out, ranks)
    ensures NoDup(UrlsOf(out)) <==> DistinctTargets(m, ToSet(UrlsOf(v)))
  {
    hide NoDup, DuePage, DueFile, HasDuePage, DistinctPages, NoneIsBoth, InRankOrder;
    var known, files := ToSet(UrlsOf(v)), |out| - |ranks|;
    var fs, ps := UrlsOf(out[..files]), UrlsOf(out[files..]);
    assert UrlsOf(out) == fs + ps;
    NoDupAppend(fs, ps);
    PagesDistinctIff(m, v, out[files..], ranks);
    forall u ensures u in fs <==> exists w :: w in known && DueFile(m, w, u) {
      assert forall w :: w in known <==> w in UrlsOf(v);
    }
    forall u ensures u in ps <==> exists w :: w in known && DuePage(m, w, u) {
      PageListed(m, v, out[files..], ranks, u);
    }
    NoClashIff(m, known, fs, ps);
  }
}
