/** Counting the events of the last minute, hour or day. */
module SlidingWindows {
  import opened Clock
  import opened Types

  function Look(reading: nat -> Tp, i: nat): Tp {
    reading(i)
  }

  /** The system clock: the `i`-th look at it shows `reading(i)`. */
  class SystemClock {
    const reading: nat -> Tp
    var looks: nat

    constructor (reading: nat -> Tp)
      ensures this.reading == reading && looks == 0
    {
      this.reading := reading;
      looks := 0;
    }

    method Now() returns (t: Tp)
      modifies this
      ensures t == Look(reading, old(looks)) && looks == old(looks) + 1
    {
      t := Look(reading, looks);
      looks := looks + 1;
    }
  }

  /** The clock never goes back. */
  ghost predicate Steady(reading: nat -> Tp) {
    forall i: nat, j: nat :: i <= j ==> Look(reading, i) <= Look(reading, j)
  }

  function Recent(q: seq<Tp>, now: Tp, window: nat): seq<Tp> {
    if q != [] && Expired(now, q[0], window) then Recent(q[1..], now, window) else q
  }

  class TpSlidWin {
    var m_q: seq<Tp>
    const m_window: nat

    constructor (window: nat, q: seq<Tp> := [])
      ensures m_window == window && m_q == q
    {
      m_window := window;
      m_q := q;
    }

    method Size(clock: SystemClock) returns (r: Cnt)
      modifies this, clock
      ensures clock.looks == old(clock.looks) + 1
      ensures m_q == Recent(old(m_q), Look(clock.reading, old(clock.looks)), m_window)
      ensures r == |m_q|
    {
      var now := clock.Now();
      CheckClean(now);
      r := |m_q|;
    }

    method Inc(clock: SystemClock)
      modifies this, clock
      ensures clock.looks == old(clock.looks) + 1
      ensures var now := Look(clock.reading, old(clock.looks)); m_q == Recent(old(m_q) + [now], now, m_window)
    {
      var now := clock.Now();
      m_q := m_q + [now];
      CheckClean(now);
    }

    method CheckClean(now: Tp)
      modifies this
      ensures m_q == Recent(old(m_q), now, m_window)
    {
      while m_q != [] && Expired(now, m_q[0], m_window)
        invariant Recent(m_q, now, m_window) == Recent(old(m_q), now, m_window)
        decreases |m_q|
      {
        m_q := m_q[1..];
      }
    }
  }

  // ---------------------------------------------------------------- the queue against all events ever counted

  ghost predicate Ordered(times: seq<Tp>) {
    forall i, j :: 0 <= i <= j < |times| ==> times[i] <= times[j]
  }

  /** `q` is what is left of `times` at `last`: a tail, and everything before it has expired. */
  ghost predicate Tracks(q: seq<Tp>, times: seq<Tp>, last: Tp, window: nat) {
    && Ordered(times)
    && (forall t :: t in times ==> t <= last)
    && |q| <= |times|
    && q == times[|times| - |q|..]
    && (forall i :: 0 <= i < |times| - |q| ==> Expired(last, times[i], window))
  }

  /** Any `limit + 1` consecutive events are spread over more than the window. */
  ghost predicate Spaced(times: seq<Tp>, limit: Cnt, window: nat) {
    forall i, j :: 0 <= i < |times| && 0 <= j < |times| && i + limit <= j ==> Expired(times[j], times[i], window)
  }

  lemma {:induction false} RecentTracks(q: seq<Tp>, times: seq<Tp>, last: Tp, now: Tp, window: nat)
    requires Tracks(q, times, last, window) && last <= now
    ensures Tracks(Recent(q, now, window), times, now, window)
    decreases |q|
  {
    TracksLater(q, times, last, now, window);
    if q != [] && Expired(now, q[0], window) {
      assert q[0] == times[|times| - |q|];
      assert Tracks(q[1..], times, now, window);
      RecentTracks(q[1..], times, now, now, window);
    }
  }

  lemma TracksLater(q: seq<Tp>, times: seq<Tp>, last: Tp, now: Tp, window: nat)
    requires Tracks(q, times, last, window) && last <= now
    ensures Tracks(q, times, now, window)
  {
    forall i | 0 <= i < |times| - |q| ensures Expired(now, times[i], window) {
      ExpiredMonotone(last, times[i], window, now, times[i], window);
    }
  }

  lemma IncTracks(q: seq<Tp>, times: seq<Tp>, last: Tp, now: Tp, window: nat)
    requires Tracks(q, times, last, window) && last <= now
    ensures Tracks(Recent(q + [now], now, window), times + [now], now, window)
  {
    TracksLater(q, times, last, now, window);
    forall i | 0 <= i < |times| ensures times[i] <= now {
      assert times[i] in times;
    }
    RecentTracks(q + [now], times + [now], now, now, window);
  }

  /** The events that a window counts at `now`, picked from all events by the clock alone. */
  function Live(times: seq<Tp>, now: Tp, window: nat): seq<Tp> {
    if times == [] then []
    else if Expired(now, times[|times| - 1], window) then Live(times[..|times| - 1], now, window)
    else Live(times[..|times| - 1], now, window) + [times[|times| - 1]]
  }

  lemma LiveStep(times: seq<Tp>, now: Tp, window: nat)
    requires times != []
    ensures
      var last := times[|times| - 1];
      var before := Live(times[..|times| - 1], now, window);
      Live(times, now, window) == if Expired(now, last, window) then before else before + [last]
  {
  }

  lemma {:induction false} LiveOfTail(times: seq<Tp>, now: Tp, window: nat, k: nat)
    requires k <= |times|
    requires forall i :: 0 <= i < k ==> Expired(now, times[i], window)
    requires forall i :: k <= i < |times| ==> !Expired(now, times[i], window)
    ensures Live(times, now, window) == times[k..]
  {
    hide Expired;
    if times != [] {
      var n := |times| - 1;
      LiveStep(times, now, window);
      hide Live;
      if k == |times| {
        LiveOfTail(times[..n], now, window, n);
      } else {
        LiveOfTail(times[..n], now, window, k);
        assert times[k..] == times[..n][k..] + [times[n]];
      }
    }
  }

  /** A window's queue, once cleaned, is exactly the list of live events. */
  lemma RecentIsLive(q: seq<Tp>, times: seq<Tp>, last: Tp, now: Tp, window: nat)
    requires Tracks(q, times, last, window) && last <= now
    ensures Recent(q, now, window) == Live(times, now, window)
  {
    RecentTracks(q, times, last, now, window);
    RecentHeadLive(q, now, window);
    var r := Recent(q, now, window);
    var k := |times| - |r|;
    forall i | k <= i < |times| ensures !Expired(now, times[i], window) {
      assert r[0] == times[k] <= times[i];
      if Expired(now, times[i], window) {
        ExpiredMonotone(now, times[i], window, now, times[k], window);
      }
    }
    LiveOfTail(times, now, window, k);
  }

  lemma {:induction false} RecentHeadLive(q: seq<Tp>, now: Tp, window: nat)
    ensures var r := Recent(q, now, window); r != [] ==> !Expired(now, r[0], window)
  {
    if q != [] && Expired(now, q[0], window) {
      RecentHeadLive(q[1..], now, window);
    }
  }

  /** Counting one more event when fewer than `limit` are left in the window keeps the spacing. */
  lemma IncSpaced(q: seq<Tp>, times: seq<Tp>, last: Tp, now: Tp, window: nat, limit: Cnt)
    requires Tracks(q, times, last, window) && last <= now
    requires Spaced(times, limit, window) && (|q| < limit || (times == [] && limit >= 1))
    ensures Spaced(times + [now], limit, window)
  {
    var times' := times + [now];
    forall i, j | 0 <= i < |times'| && 0 <= j < |times'| && i + limit <= j
      ensures Expired(times'[j], times'[i], window)
    {
      if j == |times| {
        assert i < |times| - |q|;
        ExpiredMonotone(last, times[i], window, now, times[i], window);
      }
    }
  }

  /** Spacing bounds every interval: no stretch of time within the window sees more than `limit`. */
  lemma SpacedBoundsIntervals(times: seq<Tp>, limit: Cnt, window: nat, from: Tp, to: Tp)
    requires Ordered(times) && Spaced(times, limit, window) && limit >= 0
    requires !Expired(to, from, window)
    ensures |set i | 0 <= i < |times| && from <= times[i] <= to| <= limit
  {
    var hits := set i | 0 <= i < |times| && from <= times[i] <= to;
    if hits != {} {
      var first := FirstHit(times, from, to);
      forall i | i in hits ensures first <= i < first + limit {
        InsideNotExpired(times[first], times[i], from, to, window);
      }
      RangeCardinality(hits, (i: int) => i, first, limit);
    }
  }

  lemma InsideNotExpired(a: Tp, b: Tp, from: Tp, to: Tp, window: nat)
    requires from <= a && b <= to && !Expired(to, from, window)
    ensures !Expired(b, a, window)
  {
    ExpiredThreshold(to, from, window);
    ExpiredThreshold(b, a, window);
  }

  lemma {:induction false} FirstHit(times: seq<Tp>, from: Tp, to: Tp) returns (first: int)
    requires exists i :: 0 <= i < |times| && from <= times[i] <= to
    ensures 0 <= first < |times| && from <= times[first] <= to
    ensures forall i :: 0 <= i < first ==> !(from <= times[i] <= to)
  {
    first := 0;
    while !(from <= times[first] <= to)
      invariant 0 <= first < |times|
      invariant forall i :: 0 <= i < first ==> !(from <= times[i] <= to)
      decreases |times| - first
    {
      first := first + 1;
    }
  }
}
