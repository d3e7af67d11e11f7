/** What a sliding-window counter means: against the complete log of everything that was ever
    inserted, for every tree of inserts and merges. */
module UrlFreqHistory {
  import opened Clock
  import opened Types
  import opened UrlFreqMaps

  // ---------------------------------------------------------------- counting over lists

  lemma {:induction false} SumForAppend(a: seq<UrlTpStat>, b: seq<UrlTpStat>, u: Url)
    ensures SumFor(a + b, u) == SumFor(a, u) + SumFor(b, u)
  {
    if a == [] {
      assert a + b == b;
    } else {
      assert (a + b)[1..] == a[1..] + b;
      SumForAppend(a[1..], b, u);
    }
  }

  lemma {:induction false} SumForSign(q: seq<UrlTpStat>, u: Url)
    requires AllPositive(q)
    ensures SumFor(q, u) >= 0
    ensures SumFor(q, u) > 0 <==> exists s :: s in q && s.url == u
  {
    if q != [] {
      SumForSign(q[1..], u);
      assert forall s :: s in q <==> s == q[0] || s in q[1..];
    }
  }

  lemma SumForWithout(b: seq<UrlTpStat>, j: nat, u: Url)
    requires j < |b|
    ensures SumFor(b, u) == (if b[j].url == u then b[j].cnt else 0) + SumFor(b[..j] + b[j + 1..], u)
  {
    SumForAppend(b[..j], b[j..], u);
    SumForAppend(b[..j], b[j + 1..], u);
    assert b == b[..j] + b[j..];
    assert b[j..][1..] == b[j + 1..];
  }

  /** Counting is monotone in the multiset of entries, and strictly so for a url that loses one. */
  lemma {:induction false} SumForMonotone(a: seq<UrlTpStat>, b: seq<UrlTpStat>, u: Url)
    requires AllPositive(b)
    requires multiset(a) <= multiset(b)
    ensures SumFor(a, u) <= SumFor(b, u)
    ensures forall x :: multiset(a)[x] < multiset(b)[x] && x.url == u ==> SumFor(a, u) < SumFor(b, u)
  {
    if a == [] {
      SumForSign(b, u);
      forall x | multiset(a)[x] < multiset(b)[x] && x.url == u ensures SumFor(a, u) < SumFor(b, u) {
        assert x in b;
      }
    } else {
      MultisetSplitHead(a);
      assert a[0] in multiset(b);
      var j :| 0 <= j < |b| && b[j] == a[0];
      var rest := b[..j] + b[j + 1..];
      MultisetSplitAt(b, j);
      SumForWithout(b, j, u);
      forall x ensures multiset(a[1..])[x] <= multiset(rest)[x] {
        assert multiset(a)[x] <= multiset(b)[x];
      }
      SumForMonotone(a[1..], rest, u);
    }
  }

  // ---------------------------------------------------------------- expiry and merging, on queues alone

  function DropExpired(q: seq<UrlTpStat>, now: Tp, window: nat): seq<UrlTpStat> {
    if q == [] || !Expired(now, q[0].tp, window) then q else DropExpired(q[1..], now, window)
  }

  lemma {:induction false} CleanedQueue(c: FreqCache, now: Tp, window: nat)
    ensures Cleaned(c, now, window).q == DropExpired(c.q, now, window)
    decreases |c.q|
  {
    if c.q != [] && Expired(now, c.q[0].tp, window) {
      CleanedQueue(FreqCache(Evicted(c.freq, c.q[0]), c.q[1..]), now, window);
    }
  }

  /** Expiry only removes, and only what has expired. */
  lemma {:induction false} DropExpiredKeeps(q: seq<UrlTpStat>, now: Tp, window: nat, x: UrlTpStat)
    ensures multiset(DropExpired(q, now, window))[x] <= multiset(q)[x]
    ensures !Expired(now, x.tp, window) ==> multiset(DropExpired(q, now, window))[x] == multiset(q)[x]
  {
    if q != [] && Expired(now, q[0].tp, window) {
      MultisetSplitHead(q);
      DropExpiredKeeps(q[1..], now, window, x);
    }
  }

  /** On a sorted queue the front test is a complete test. */
  lemma {:induction false} DropExpiredSorted(q: seq<UrlTpStat>, now: Tp, window: nat)
    requires SortedByTp(q)
    ensures SortedByTp(DropExpired(q, now, window))
    ensures forall x :: x in DropExpired(q, now, window) ==> !Expired(now, x.tp, window)
  {
    if q != [] {
      if Expired(now, q[0].tp, window) {
        DropExpiredSorted(q[1..], now, window);
      } else {
        forall x | x in q ensures !Expired(now, x.tp, window) {
          if Expired(now, x.tp, window) {
            ExpiredMonotone(now, x.tp, window, now, q[0].tp, window);
          }
        }
      }
    }
  }

  lemma {:induction false} MergedQueueMultiset(a: seq<UrlTpStat>, b: seq<UrlTpStat>)
    ensures multiset(MergedQueue(a, b)) == multiset(a) + multiset(b)
    decreases |a| + |b|
  {
    if a != [] && b != [] {
      if a[0].tp < b[0].tp {
        MultisetSplitHead(a);
        MergedQueueMultiset(a[1..], b);
      } else {
        MultisetSplitHead(b);
        MergedQueueMultiset(a, b[1..]);
      }
    }
  }

  function Shifted(s: seq<nat>): (r: seq<nat>)
    ensures |r| == |s| && forall i :: 0 <= i < |s| ==> r[i] == s[i] + 1
  {
    seq(|s|, i requires 0 <= i < |s| => s[i] + 1)
  }

  /** `places[i]` is where the `i`-th entry of `q` stands in `m`, and the order is kept. */
  ghost predicate StandsAt(q: seq<UrlTpStat>, m: seq<UrlTpStat>, places: seq<nat>) {
    && |places| == |q|
    && (forall i :: 0 <= i < |q| ==> places[i] < |m| && m[places[i]] == q[i])
    && (forall i, j :: 0 <= i < j < |q| ==> places[i] < places[j])
  }

  /** Both queues keep their own order, and no entry takes the place of another; of two entries at the
      same time, in sorted queues, the one of `b` goes first. */
  ghost predicate Interleaves(
      a: seq<UrlTpStat>, b: seq<UrlTpStat>, m: seq<UrlTpStat>, pa: seq<nat>, pb: seq<nat>) {
    && |m| == |a| + |b|
    && StandsAt(a, m, pa)
    && StandsAt(b, m, pb)
    && (forall i, j :: 0 <= i < |a| && 0 <= j < |b| ==> pa[i] != pb[j])
    && (SortedByTp(a) && SortedByTp(b) ==> TiesGoSecond(a, b, pa, pb))
  }

  ghost predicate TiesGoSecond(a: seq<UrlTpStat>, b: seq<UrlTpStat>, pa: seq<nat>, pb: seq<nat>)
    requires |pa| == |a| && |pb| == |b|
  {
    forall i, j :: 0 <= i < |a| && 0 <= j < |b| && a[i].tp == b[j].tp ==> pb[j] < pa[i]
  }

  lemma {:induction false} MergedQueueInterleaves(a: seq<UrlTpStat>, b: seq<UrlTpStat>)
      returns (pa: seq<nat>, pb: seq<nat>)
    ensures Interleaves(a, b, MergedQueue(a, b), pa, pb)
    decreases |a| + |b|
  {
    if a == [] {
      pa, pb := [], seq(|b|, i => i);
    } else if b == [] {
      pa, pb := seq(|a|, i => i), [];
    } else if a[0].tp < b[0].tp {
      var m := MergedQueue(a[1..], b);
      pa, pb := MergedQueueInterleaves(a[1..], b);
      FirstGoesFirst(a, b, m, pa, pb);
      pa, pb := [0] + Shifted(pa), Shifted(pb);
    } else {
      var m := MergedQueue(a, b[1..]);
      pa, pb := MergedQueueInterleaves(a, b[1..]);
      SecondGoesFirst(a, b, m, pa, pb);
      pa, pb := Shifted(pa), [0] + Shifted(pb);
    }
  }

  lemma StandsLater(q: seq<UrlTpStat>, m: seq<UrlTpStat>, places: seq<nat>, x: UrlTpStat)
    requires StandsAt(q, m, places)
    ensures StandsAt(q, [x] + m, Shifted(places)) && StandsAt([x] + q, [x] + m, [0] + Shifted(places))
  {
  }

  lemma FirstGoesFirst(a: seq<UrlTpStat>, b: seq<UrlTpStat>, m: seq<UrlTpStat>, pa: seq<nat>, pb: seq<nat>)
    requires a != [] && b != [] && a[0].tp < b[0].tp && Interleaves(a[1..], b, m, pa, pb)
    ensures Interleaves(a, b, [a[0]] + m, [0] + Shifted(pa), Shifted(pb))
  {
    hide StandsAt, Shifted, TiesGoSecond, SortedByTp;
    StandsLater(a[1..], m, pa, a[0]);
    StandsLater(b, m, pb, a[0]);
    assert [a[0]] + a[1..] == a;
    Places(a[1..], m, pa);
    Places(b, m, pb);
    if SortedByTp(a) && SortedByTp(b) {
      SortedTail(a);
      TiesAfterFirst(a, b, pa, pb);
    }
  }

  lemma TiesAfterFirst(a: seq<UrlTpStat>, b: seq<UrlTpStat>, pa: seq<nat>, pb: seq<nat>)
    requires a != [] && b != [] && a[0].tp < b[0].tp && SortedByTp(b) && |pa| == |a| - 1 && |pb| == |b|
    requires TiesGoSecond(a[1..], b, pa, pb)
    ensures TiesGoSecond(a, b, [0] + Shifted(pa), Shifted(pb))
  {
    forall i, j | 0 <= i < |a| && 0 <= j < |b| && a[i].tp == b[j].tp
      ensures Shifted(pb)[j] < ([0] + Shifted(pa))[i]
    {
      assert b[0].tp <= b[j].tp;
      assert a[i] == a[1..][i - 1];
    }
  }

  lemma SecondGoesFirst(a: seq<UrlTpStat>, b: seq<UrlTpStat>, m: seq<UrlTpStat>, pa: seq<nat>, pb: seq<nat>)
    requires a != [] && b != [] && Interleaves(a, b[1..], m, pa, pb)
    ensures Interleaves(a, b, [b[0]] + m, Shifted(pa), [0] + Shifted(pb))
  {
    hide StandsAt, Shifted, TiesGoSecond, SortedByTp;
    StandsLater(a, m, pa, b[0]);
    StandsLater(b[1..], m, pb, b[0]);
    assert [b[0]] + b[1..] == b;
    Places(a, m, pa);
    Places(b[1..], m, pb);
    if SortedByTp(a) && SortedByTp(b) {
      SortedTail(b);
      TiesAfterSecond(a, b, pa, pb);
    }
  }

  lemma TiesAfterSecond(a: seq<UrlTpStat>, b: seq<UrlTpStat>, pa: seq<nat>, pb: seq<nat>)
    requires b != [] && |pa| == |a| && |pb| == |b| - 1 && TiesGoSecond(a, b[1..], pa, pb)
    ensures TiesGoSecond(a, b, Shifted(pa), [0] + Shifted(pb))
  {
    forall i, j | 0 <= i < |a| && 0 <= j < |b| && a[i].tp == b[j].tp
      ensures ([0] + Shifted(pb))[j] < Shifted(pa)[i]
    {
      if j > 0 {
        assert b[j] == b[1..][j - 1];
      }
    }
  }

  lemma Places(q: seq<UrlTpStat>, m: seq<UrlTpStat>, places: seq<nat>)
    requires StandsAt(q, m, places)
    ensures |places| == |q|
  {
  }

  lemma SortedCons(head: UrlTpStat, rest: seq<UrlTpStat>)
    requires SortedByTp(rest) && forall x :: x in multiset(rest) ==> head.tp <= x.tp
    ensures SortedByTp([head] + rest)
  {
    forall j | 0 <= j < |rest| ensures head.tp <= rest[j].tp {
      assert rest[j] in multiset(rest);
    }
  }

  lemma SortedTail(q: seq<UrlTpStat>)
    requires SortedByTp(q) && q != []
    ensures SortedByTp(q[1..])
    ensures forall x :: x in multiset(q) || x in multiset(q[1..]) ==> q[0].tp <= x.tp
  {
    assert forall i :: 0 <= i < |q| ==> q[0].tp <= q[i].tp;
  }

  lemma {:induction false} MergedQueueSorted(a: seq<UrlTpStat>, b: seq<UrlTpStat>)
    requires SortedByTp(a) && SortedByTp(b)
    ensures SortedByTp(MergedQueue(a, b))
    decreases |a| + |b|
  {
    hide SortedByTp;
    if a != [] && b != [] {
      SortedTail(a);
      SortedTail(b);
      if a[0].tp < b[0].tp {
        MergedQueueSorted(a[1..], b);
        MergedQueueMultiset(a[1..], b);
        SortedCons(a[0], MergedQueue(a[1..], b));
      } else {
        MergedQueueSorted(a, b[1..]);
        MergedQueueMultiset(a, b[1..]);
        SortedCons(b[0], MergedQueue(a, b[1..]));
      }
    }
  }

  lemma {:induction false} MergedQueueSum(a: seq<UrlTpStat>, b: seq<UrlTpStat>, u: Url)
    ensures SumFor(MergedQueue(a, b), u) == SumFor(a, u) + SumFor(b, u)
    decreases |a| + |b|
  {
    if a != [] && b != [] {
      if a[0].tp < b[0].tp {
        MergedQueueSum(a[1..], b, u);
      } else {
        MergedQueueSum(a, b[1..], u);
      }
    }
  }

  /** Accepting a queue proves it sorted exactly for queues of at most two entries. */
  lemma OrderCheckDecidesShortQueues(n: nat, u: Url)
    ensures (forall q :: |q| == n && FirstIsOldest(q) ==> SortedByTp(q)) <==> n <= 2
    ensures forall q :: SortedByTp(q) ==> FirstIsOldest(q)
  {
    if n > 2 {
      var q := [UrlTpStat(u, 0, 1), UrlTpStat(u, 2, 1)] + seq(n - 2, _ => UrlTpStat(u, 1, 1));
      assert |q| == n && FirstIsOldest(q) && q[1].tp > q[2].tp;
    }
  }

  // ---------------------------------------------------------------- the cache invariant

  lemma PushedConsistent(c: FreqCache, s: UrlTpStat)
    requires Consistent(c) && s.cnt > 0
    ensures Consistent(Pushed(c, s))
  {
    forall u ensures GetOr0(Pushed(c, s).freq, u) == SumFor(c.q + [s], u) {
      SumForAppend(c.q, [s], u);
    }
    SumForSign(c.q, s.url);
  }

  lemma EvictedConsistent(c: FreqCache)
    requires Consistent(c) && c.q != []
    ensures Consistent(FreqCache(Evicted(c.freq, c.q[0]), c.q[1..]))
  {
    var s := c.q[0];
    assert s.cnt > 0;
    SumForSign(c.q[1..], s.url);
    assert GetOr0(c.freq, s.url) == SumFor(c.q, s.url) >= s.cnt;
    forall u ensures GetOr0(Evicted(c.freq, s), u) == SumFor(c.q[1..], u) {
      assert GetOr0(c.freq, u) == SumFor(c.q, u) == (if s.url == u then s.cnt else 0) + SumFor(c.q[1..], u);
    }
  }

  lemma {:induction false} CleanedConsistent(c: FreqCache, now: Tp, window: nat)
    requires Consistent(c)
    ensures Consistent(Cleaned(c, now, window))
    decreases |c.q|
  {
    if c.q != [] && Expired(now, c.q[0].tp, window) {
      EvictedConsistent(c);
      CleanedConsistent(FreqCache(Evicted(c.freq, c.q[0]), c.q[1..]), now, window);
    }
  }

  lemma InsertedConsistent(c: FreqCache, s: UrlTpStat, now: Tp, window: nat)
    requires Consistent(c) && s.cnt > 0
    ensures Consistent(Inserted(c, s, now, window))
  {
    PushedConsistent(c, s);
    CleanedConsistent(Pushed(c, s), now, window);
  }

  lemma MergedConsistent(a: FreqCache, b: FreqCache)
    requires Consistent(a) && Consistent(b)
    ensures Consistent(Merged(a, b))
  {
    MergedQueueMultiset(a.q, b.q);
    forall s | s in MergedQueue(a.q, b.q) ensures s.cnt > 0 {
      assert s in multiset(MergedQueue(a.q, b.q));
      assert s in a.q || s in b.q;
    }
    forall u ensures GetOr0(AddedCounts(a.freq, b.freq), u) == SumFor(MergedQueue(a.q, b.q), u) {
      MergedQueueSum(a.q, b.q, u);
      assert GetOr0(a.freq, u) == SumFor(a.q, u);
      assert GetOr0(b.freq, u) == SumFor(b.q, u);
    }
  }

  // ---------------------------------------------------------------- whole histories

  /** How a counter came to be: built by inserts, each at its own clock reading, and by merging
      another counter of the same window into it. */
  datatype History = Fresh | Insert(before: History, stat: UrlTpStat, now: Tp) | Merge(left: History, right: History)

  function Eval(h: History, window: nat): FreqCache {
    match h
    case Fresh => EMPTY
    case Insert(p, s, now) => Inserted(Eval(p, window), s, now, window)
    case Merge(l, r) => Merged(Eval(l, window), Eval(r, window))
  }

  /** Everything ever inserted, nothing forgotten. */
  function Log(h: History): seq<UrlTpStat> {
    match h
    case Fresh => []
    case Insert(p, s, _) => Log(p) + [s]
    case Merge(l, r) => Log(l) + Log(r)
  }

  /** No insert happened at a clock reading later than `t`; readings need not be ordered. */
  predicate NoReadingAfter(h: History, t: Tp) {
    match h
    case Fresh => true
    case Insert(p, _, now) => now <= t && NoReadingAfter(p, t)
    case Merge(l, r) => NoReadingAfter(l, t) && NoReadingAfter(r, t)
  }

  /** Visit times arrive in order at every insert. */
  predicate InOrder(h: History) {
    match h
    case Fresh => true
    case Insert(p, s, _) => InOrder(p) && forall x :: x in Log(p) ==> x.tp <= s.tp
    case Merge(l, r) => InOrder(l) && InOrder(r)
  }

  function InWindow(log: seq<UrlTpStat>, now: Tp, window: nat): seq<UrlTpStat> {
    if log == [] then []
    else (if Expired(now, log[0].tp, window) then [] else [log[0]]) + InWindow(log[1..], now, window)
  }

  /** Counting by hand what was visited less than `age` ticks ago. */
  function CountYounger(log: seq<UrlTpStat>, u: Url, now: Tp, age: int): Cnt {
    if log == [] then 0
    else (if log[0].url == u && now - log[0].tp < age then log[0].cnt else 0) + CountYounger(log[1..], u, now, age)
  }

  /** A window counts what is younger than its seconds and one more. */
  lemma {:induction false} WindowByAge(log: seq<UrlTpStat>, u: Url, now: Tp, window: nat)
    ensures SumFor(InWindow(log, now, window), u) == CountYounger(log, u, now, (window + 1) * 1_000_000_000)
  {
    if log != [] {
      var first, rest := log[0], InWindow(log[1..], now, window);
      ExpiredThreshold(now, first.tp, window);
      hide Expired;
      WindowByAge(log[1..], u, now, window);
      assert ([first] + rest)[1..] == rest;
      assert [] + rest == rest;
    }
  }

  lemma {:induction false} InWindowMultiset(log: seq<UrlTpStat>, now: Tp, window: nat, x: UrlTpStat)
    ensures multiset(InWindow(log, now, window))[x] == if Expired(now, x.tp, window) then 0 else multiset(log)[x]
  {
    if log != [] {
      MultisetSplitHead(log);
      InWindowMultiset(log[1..], now, window, x);
    }
  }

  /** The map agrees with the queue after every history, whatever the clock did. */
  lemma {:induction false} CountsAreScans(h: History, window: nat)
    requires AllPositive(Log(h))
    ensures Consistent(Eval(h, window))
  {
    match h
    case Fresh =>
    case Insert(p, s, now) =>
      assert s == Log(h)[|Log(p)|];
      assert Log(p) == Log(h)[..|Log(p)|];
      CountsAreScans(p, window);
      InsertedConsistent(Eval(p, window), s, now, window);
    case Merge(l, r) =>
      assert Log(l) == Log(h)[..|Log(l)|] && Log(r) == Log(h)[|Log(l)|..];
      CountsAreScans(l, window);
      CountsAreScans(r, window);
      MergedConsistent(Eval(l, window), Eval(r, window));
  }

  /** No visit still inside the window is ever missing from the queue, and nothing is invented,
      in whatever order the visit times came. */
  lemma {:induction false} NothingInWindowLost(h: History, t: Tp, window: nat, x: UrlTpStat)
    requires NoReadingAfter(h, t)
    ensures multiset(Eval(h, window).q)[x] <= multiset(Log(h))[x]
    ensures !Expired(t, x.tp, window) ==> multiset(Eval(h, window).q)[x] == multiset(Log(h))[x]
  {
    match h
    case Fresh =>
    case Insert(p, s, now) =>
      NothingInWindowLost(p, t, window, x);
      var c := Pushed(Eval(p, window), s);
      CleanedQueue(c, now, window);
      DropExpiredKeeps(c.q, now, window, x);
      if !Expired(t, x.tp, window) && Expired(now, x.tp, window) {
        ExpiredMonotone(now, x.tp, window, t, x.tp, window);
      }
    case Merge(l, r) =>
      NothingInWindowLost(l, t, window, x);
      NothingInWindowLost(r, t, window, x);
      MergedQueueMultiset(Eval(l, window).q, Eval(r, window).q);
  }

  /** A visit no older than any before it goes to the end of a sorted queue. */
  lemma LatestGoesLast(c: FreqCache, log: seq<UrlTpStat>, s: UrlTpStat)
    requires SortedByTp(c.q) && multiset(c.q) <= multiset(log)
    requires forall x :: x in log ==> x.tp <= s.tp
    ensures SortedByTp(Pushed(c, s).q) && multiset(Pushed(c, s).q) <= multiset(log + [s])
  {
    forall x | x in c.q ensures x.tp <= s.tp {
      assert x in multiset(c.q);
      assert x in multiset(log);
    }
  }

  lemma SortedAfterCleaning(c: FreqCache, log: seq<UrlTpStat>, now: Tp, window: nat)
    requires SortedByTp(c.q) && multiset(c.q) <= multiset(log)
    ensures SortedByTp(Cleaned(c, now, window).q) && multiset(Cleaned(c, now, window).q) <= multiset(log)
  {
    CleanedQueue(c, now, window);
    DropExpiredSorted(c.q, now, window);
    forall x ensures multiset(Cleaned(c, now, window).q)[x] <= multiset(log)[x] {
      DropExpiredKeeps(c.q, now, window, x);
    }
  }

  lemma {:induction false} InOrderKeepsSorted(h: History, window: nat)
    requires InOrder(h)
    ensures SortedByTp(Eval(h, window).q)
    ensures multiset(Eval(h, window).q) <= multiset(Log(h))
  {
    match h
    case Fresh =>
    case Insert(p, s, now) =>
      InOrderKeepsSorted(p, window);
      LatestGoesLast(Eval(p, window), Log(p), s);
      SortedAfterCleaning(Pushed(Eval(p, window), s), Log(h), now, window);
    case Merge(l, r) =>
      InOrderKeepsSorted(l, window);
      InOrderKeepsSorted(r, window);
      MergedQueueSorted(Eval(l, window).q, Eval(r, window).q);
      MergedQueueMultiset(Eval(l, window).q, Eval(r, window).q);
  }

  /** The counts never fall below the true in-window counts; they are all exact if and only if
      the queue holds no entry that has already left the window. */
  lemma ExactIffNoStaleEntry(h: History, t: Tp, window: nat)
    requires AllPositive(Log(h)) && NoReadingAfter(h, t)
    ensures forall u :: GetOr0(Eval(h, window).freq, u) >= SumFor(InWindow(Log(h), t, window), u)
    ensures
      (forall u :: GetOr0(Eval(h, window).freq, u) == SumFor(InWindow(Log(h), t, window), u)) <==>
      (forall x :: x in Eval(h, window).q ==> !Expired(t, x.tp, window))
  {
    hide Eval, InWindow, SumFor, Expired;
    var c := Eval(h, window);
    var live := InWindow(Log(h), t, window);
    CountsAreScans(h, window);
    forall x: UrlTpStat ensures multiset(live)[x] == if Expired(t, x.tp, window) then 0 else multiset(c.q)[x] {
      InWindowMultiset(Log(h), t, window, x);
      NothingInWindowLost(h, t, window, x);
    }
    LiveSums(c.q, live, t, window);
    assert forall u :: GetOr0(c.freq, u) == SumFor(c.q, u);
  }

  lemma SumForLess(a: seq<UrlTpStat>, b: seq<UrlTpStat>, x: UrlTpStat)
    requires AllPositive(b) && multiset(a) <= multiset(b) && multiset(a)[x] < multiset(b)[x]
    ensures SumFor(a, x.url) < SumFor(b, x.url)
  {
    SumForMonotone(a, b, x.url);
  }

  lemma LiveSums(q: seq<UrlTpStat>, live: seq<UrlTpStat>, t: Tp, window: nat)
    requires AllPositive(q)
    requires forall x: UrlTpStat :: multiset(live)[x] == if Expired(t, x.tp, window) then 0 else multiset(q)[x]
    ensures forall u :: SumFor(q, u) >= SumFor(live, u)
    ensures (forall u :: SumFor(q, u) == SumFor(live, u)) <==> (forall x :: x in q ==> !Expired(t, x.tp, window))
  {
    hide SumFor, Expired;
    forall u ensures SumFor(q, u) >= SumFor(live, u) {
      SumForMonotone(live, q, u);
    }
    if x :| x in q && Expired(t, x.tp, window) {
      assert multiset(live)[x] < multiset(q)[x];
      SumForLess(live, q, x);
    } else {
      forall x ensures multiset(live)[x] == multiset(q)[x] {
        assert multiset(q)[x] > 0 ==> x in q;
      }
      forall y | y in live ensures y.cnt > 0 {
        assert y in multiset(live) && y in multiset(q);
        assert y in q;
      }
      forall u ensures SumFor(live, u) == SumFor(q, u) {
        SumForMonotone(q, live, u);
      }
    }
  }

  /** With visits in time order, right after an insert the cache is the window: the queue is the
      sorted in-window part of the combined log of everything merged in so far, and every count
      is the naive count over that log. */
  lemma InsertMakesWindowExact(h: History, window: nat)
    requires h.Insert? && InOrder(h) && NoReadingAfter(h, h.now) && AllPositive(Log(h))
    ensures SortedByTp(Eval(h, window).q)
    ensures multiset(Eval(h, window).q) == multiset(InWindow(Log(h), h.now, window))
    ensures forall u :: GetOr0(Eval(h, window).freq, u) == SumFor(InWindow(Log(h), h.now, window), u)
  {
    hide Eval, InWindow, SumFor, Expired, SortedByTp;
    InOrderKeepsSorted(h, window);
    InsertLeavesNoStale(h, window);
    ExactIffNoStaleEntry(h, h.now, window);
    forall x: UrlTpStat ensures multiset(Eval(h, window).q)[x] == multiset(InWindow(Log(h), h.now, window))[x] {
      InWindowMultiset(Log(h), h.now, window, x);
      NothingInWindowLost(h, h.now, window, x);
      assert multiset(Eval(h, window).q)[x] > 0 ==> x in Eval(h, window).q;
    }
  }

  lemma InsertLeavesNoStale(h: History, window: nat)
    requires h.Insert? && InOrder(h)
    ensures forall x :: x in Eval(h, window).q ==> !Expired(h.now, x.tp, window)
  {
    var c := Pushed(Eval(h.before, window), h.stat);
    InOrderKeepsSorted(h.before, window);
    LatestGoesLast(Eval(h.before, window), Log(h.before), h.stat);
    CleanedQueue(c, h.now, window);
    DropExpiredSorted(c.q, h.now, window);
  }

  /** Three visits in the wrong order leave a counter whose queue is not sorted, and the order
      check accepts it. */
  lemma OrderCheckMissesDisorder(u: Url, window: nat)
    ensures
      var h := Insert(Insert(Insert(Fresh, UrlTpStat(u, 0, 1), 2), UrlTpStat(u, 2, 1), 2), UrlTpStat(u, 1, 1), 2);
      && NoReadingAfter(h, 2)
      && FirstIsOldest(Eval(h, window).q) && !SortedByTp(Eval(h, window).q)
  {
    var a, b, c := UrlTpStat(u, 0, 1), UrlTpStat(u, 2, 1), UrlTpStat(u, 1, 1);
    var h1 := Insert(Fresh, a, 2);
    var h2 := Insert(h1, b, 2);
    var h3 := Insert(h2, c, 2);
    ExpiredThreshold(2, 0, window);
    assert Eval(h1, window).q == [a];
    assert Eval(h2, window).q == [a, b];
    assert Eval(h3, window).q == [a, b, c];
    assert NoReadingAfter(h1, 2) && NoReadingAfter(h2, 2);
    assert [a, b, c][1].tp > [a, b, c][2].tp;
  }
}
