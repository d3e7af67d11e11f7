/** The worker's dispatch loop: slice a batch, ask the scheduler, fetch what it allows, and put the
    rest back into the queue. */
module FetchDispatch {
  import opened Types
  import opened RequestBatches
  import HostDatabase

  /** What the scheduler answers to its `k`-th request; it may answer anything. */
  type Scheduler = (nat, seq<GFQRecord>) -> seq<GFQRecord>

  function Answer(scheduler: Scheduler, k: nat, asked: seq<GFQRecord>): seq<GFQRecord> {
    scheduler(k, asked)
  }

  function CountUrl(l: seq<GFQRecord>, u: Url): nat {
    if l == [] then 0 else (if l[0].url == u then 1 else 0) + CountUrl(l[1..], u)
  }

  function Excess(a: nat, b: nat): nat {
    if a > b then a - b else 0
  }

  // ---------------------------------------------------------------- sorting and subtracting by url

  /** The order of urls as strings, given as an order-preserving rank. */
  ghost predicate IsOrder(rank: Url -> real) {
    forall u, v :: rank(u) == rank(v) ==> u == v
  }

  ghost predicate SortedByUrl(l: seq<GFQRecord>, rank: Url -> real) {
    forall i, j :: 0 <= i <= j < |l| ==> rank(l[i].url) <= rank(l[j].url)
  }

  method InsertByUrl(l: seq<GFQRecord>, r: GFQRecord, rank: Url -> real) returns (l': seq<GFQRecord>)
    requires SortedByUrl(l, rank)
    ensures SortedByUrl(l', rank) && multiset(l') == multiset(l) + multiset{r}
  {
    var k: nat := 0;
    while k < |l| && rank(l[k].url) <= rank(r.url)
      invariant k <= |l|
      invariant forall i :: 0 <= i < k ==> rank(l[i].url) <= rank(r.url)
    {
      k := k + 1;
    }
    l' := l[..k] + [r] + l[k..];
    MultisetInsertAt(l, k, r);
    InsertedSorted(l, r, k, rank);
  }

  lemma InsertedSorted(l: seq<GFQRecord>, r: GFQRecord, k: nat, rank: Url -> real)
    requires k <= |l| && SortedByUrl(l, rank)
    requires forall i :: 0 <= i < k ==> rank(l[i].url) <= rank(r.url)
    requires k < |l| ==> rank(r.url) < rank(l[k].url)
    ensures SortedByUrl(l[..k] + [r] + l[k..], rank)
  {
    var l' := l[..k] + [r] + l[k..];
    assert forall i :: 0 <= i < k ==> l'[i] == l[i];
    assert forall i :: k < i < |l'| ==> l'[i] == l[i - 1];
    forall i, j | 0 <= i <= j < |l'| ensures rank(l'[i].url) <= rank(l'[j].url) {
      if k < j {
        assert rank(r.url) <= rank(l[k].url) <= rank(l[j - 1].url);
      }
    }
  }

  /** `std::sort`; the order of records with the same url is not fixed. */
  method SortRecords(l: seq<GFQRecord>, rank: Url -> real) returns (r: seq<GFQRecord>)
    ensures SortedByUrl(r, rank) && multiset(r) == multiset(l)
  {
    r := [];
    for n := 0 to |l|
      invariant SortedByUrl(r, rank) && multiset(r) == multiset(l[..n])
    {
      assert l[..n + 1] == l[..n] + [l[n]];
      r := InsertByUrl(r, l[n], rank);
    }
    assert l[..|l|] == l;
  }

  function Minus(a: seq<GFQRecord>, b: seq<GFQRecord>, rank: Url -> real): seq<GFQRecord>
    decreases |a| + |b|
  {
    if a == [] then []
    else if b == [] then a
    else if rank(a[0].url) < rank(b[0].url) then [a[0]] + Minus(a[1..], b, rank)
    else if rank(b[0].url) < rank(a[0].url) then Minus(a, b[1..], rank)
    else Minus(a[1..], b[1..], rank)
  }

  /** The difference of two sorted lists, walking both from the front. */
  method PushVectorMinus(a: seq<GFQRecord>, b: seq<GFQRecord>, rank: Url -> real) returns (r: seq<GFQRecord>)
    ensures r == Minus(a, b, rank)
  {
    r := [];
    var i: nat, j: nat := 0, 0;
    while i < |a|
      invariant i <= |a| && j <= |b|
      invariant r + Minus(a[i..], b[j..], rank) == Minus(a, b, rank)
      decreases |a| - i + |b| - j
    {
      assert a[i..][1..] == a[i + 1..];
      if j == |b| {
        assert Minus(a[i..], b[j..], rank) == [a[i]] + Minus(a[i + 1..], b[j..], rank) by {
          assert b[j..] == [] && Minus(a[i + 1..], [], rank) == a[i + 1..];
        }
        r := r + [a[i]];
        i := i + 1;
      } else {
        assert b[j..][1..] == b[j + 1..];
        if rank(a[i].url) < rank(b[j].url) {
          r := r + [a[i]];
          i := i + 1;
        } else if rank(b[j].url) < rank(a[i].url) {
          j := j + 1;
        } else {
          i, j := i + 1, j + 1;
        }
      }
    }
  }

  lemma {:induction false} MinusWithin(a: seq<GFQRecord>, b: seq<GFQRecord>, rank: Url -> real)
    ensures multiset(Minus(a, b, rank)) <= multiset(a)
    decreases |a| + |b|
  {
    if a != [] && b != [] {
      MultisetSplitHead(a);
      if rank(a[0].url) < rank(b[0].url) {
        MinusWithin(a[1..], b, rank);
      } else if rank(b[0].url) < rank(a[0].url) {
        MinusWithin(a, b[1..], rank);
      } else {
        MinusWithin(a[1..], b[1..], rank);
      }
    }
  }

  lemma {:induction false} CountAbsent(l: seq<GFQRecord>, u: Url, rank: Url -> real)
    requires forall i :: 0 <= i < |l| ==> rank(l[i].url) > rank(u)
    ensures CountUrl(l, u) == 0
  {
    if l != [] {
      CountAbsent(l[1..], u, rank);
    }
  }

  /** For every url the difference keeps as many records as one list has more than the other. */
  lemma {:induction false} MinusCounts(a: seq<GFQRecord>, b: seq<GFQRecord>, rank: Url -> real, u: Url)
    requires IsOrder(rank) && SortedByUrl(a, rank) && SortedByUrl(b, rank)
    ensures CountUrl(Minus(a, b, rank), u) == Excess(CountUrl(a, u), CountUrl(b, u))
    decreases |a| + |b|
  {
    if a != [] && b != [] {
      if rank(a[0].url) < rank(b[0].url) {
        MinusCounts(a[1..], b, rank, u);
        if a[0].url == u {
          CountAbsent(b, u, rank);
        }
      } else if rank(b[0].url) < rank(a[0].url) {
        MinusCounts(a, b[1..], rank, u);
        if b[0].url == u {
          CountAbsent(a, u, rank);
        }
      } else {
        MinusCounts(a[1..], b[1..], rank, u);
      }
    }
  }

  lemma {:induction false} CountAppend(a: seq<GFQRecord>, b: seq<GFQRecord>, u: Url)
    ensures CountUrl(a + b, u) == CountUrl(a, u) + CountUrl(b, u)
  {
    if a == [] {
      assert a + b == b;
    } else {
      assert (a + b)[1..] == a[1..] + b;
      CountAppend(a[1..], b, u);
    }
  }

  lemma CountWithout(l: seq<GFQRecord>, j: nat, u: Url)
    requires j < |l|
    ensures CountUrl(l, u) == CountUrl(l[..j] + l[j + 1..], u) + if l[j].url == u then 1 else 0
  {
    assert l == l[..j] + l[j..];
    assert l[j..][1..] == l[j + 1..];
    CountAppend(l[..j], l[j..], u);
    CountAppend(l[..j], l[j + 1..], u);
  }

  lemma {:induction false} CountPermutes(a: seq<GFQRecord>, b: seq<GFQRecord>, u: Url)
    requires multiset(a) == multiset(b)
    ensures CountUrl(a, u) == CountUrl(b, u)
  {
    if a == [] {
      assert |multiset(b)| == 0;
    } else {
      assert a[0] in multiset(b);
      var j :| 0 <= j < |b| && b[j] == a[0];
      MultisetSplitHead(a);
      MultisetSplitAt(b, j);
      assert multiset(a[1..]) == multiset(a) - multiset{a[0]};
      assert multiset(b[..j] + b[j + 1..]) == multiset(b) - multiset{a[0]};
      CountPermutes(a[1..], b[..j] + b[j + 1..], u);
      CountWithout(b, j, u);
    }
  }

  // ---------------------------------------------------------------- the loop, batch by batch

  function FirstBatch(reqs: seq<GFQRecord>, max: nat): seq<GFQRecord> {
    if max < |reqs| then reqs[..max] else reqs
  }

  function RestOf(reqs: seq<GFQRecord>, max: nat): seq<GFQRecord> {
    if max < |reqs| then reqs[max..] else []
  }

  /** What is left of a batch after `n` passes. */
  function LeftAfter(reqs: seq<GFQRecord>, max: nat, n: nat): seq<GFQRecord> {
    if n == 0 then reqs else RestOf(LeftAfter(reqs, max, n - 1), max)
  }

  /** Passes that may hold a request use a batch up; with a limit of zero only an empty one ends. */
  predicate Ends(reqs: seq<GFQRecord>, max: nat) {
    max > 0 || reqs == []
  }

  lemma {:induction false} LeftIsTail(reqs: seq<GFQRecord>, max: nat, n: nat)
    ensures LeftAfter(reqs, max, n) == if n * max < |reqs| then reqs[n * max..] else []
  {
    if n > 0 {
      LeftIsTail(reqs, max, n - 1);
      assert n * max == (n - 1) * max + max;
    }
  }

  /** Some number of passes empties the batch if and only if `Ends` holds; with a limit of zero a
      batch stays as it is for ever. */
  lemma LoopEndsIff(reqs: seq<GFQRecord>, max: nat)
    ensures (exists n: nat :: LeftAfter(reqs, max, n) == []) <==> Ends(reqs, max)
    ensures max == 0 ==> forall n: nat :: LeftAfter(reqs, max, n) == reqs
  {
    if max == 0 {
      forall n: nat ensures LeftAfter(reqs, max, n) == reqs {
        LeftIsTail(reqs, max, n);
      }
      if reqs == [] {
        assert LeftAfter(reqs, max, 0) == [];
      }
    } else {
      LeftIsTail(reqs, max, |reqs|);
      MulAtLeast(|reqs|, max);
      assert LeftAfter(reqs, max, |reqs|) == [];
    }
  }

  lemma MulAtLeast(n: nat, max: nat)
    requires max > 0
    ensures n * max >= n
  {
    assert n * max == n + n * (max - 1);
  }

  /** Everything handed to the http client, starting with the `k`-th question to the scheduler. */
  function Dispatched(reqs: seq<GFQRecord>, max: nat, scheduler: Scheduler, k: nat): seq<GFQRecord>
    requires Ends(reqs, max)
    decreases |reqs|
  {
    if reqs == [] then []
    else Answer(scheduler, k, FirstBatch(reqs, max)) + Dispatched(RestOf(reqs, max), max, scheduler, k + 1)
  }

  /** How many records of a url go back to the queue. */
  function Requeued(reqs: seq<GFQRecord>, max: nat, scheduler: Scheduler, k: nat, u: Url): nat
    requires Ends(reqs, max)
    decreases |reqs|
  {
    if reqs == [] then 0
    else
      var asked := FirstBatch(reqs, max);
      Excess(CountUrl(asked, u), CountUrl(Answer(scheduler, k, asked), u)) +
        Requeued(RestOf(reqs, max), max, scheduler, k + 1, u)
  }

  /** No answer names a url more often than its request did. */
  predicate AnswersWithin(reqs: seq<GFQRecord>, max: nat, scheduler: Scheduler, k: nat, u: Url)
    requires Ends(reqs, max)
    decreases |reqs|
  {
    reqs == [] ||
    var asked := FirstBatch(reqs, max);
    && CountUrl(Answer(scheduler, k, asked), u) <= CountUrl(asked, u)
    && AnswersWithin(RestOf(reqs, max), max, scheduler, k + 1, u)
  }

  /** Nothing is ever lost; and what is fetched and what is put back make up the input exactly if
      and only if every answer stays within its request. */
  lemma {:induction false} RequestsConserved(reqs: seq<GFQRecord>, max: nat, scheduler: Scheduler, k: nat, u: Url)
    requires Ends(reqs, max)
    ensures CountUrl(Dispatched(reqs, max, scheduler, k), u) + Requeued(reqs, max, scheduler, k, u) >= CountUrl(reqs, u)
    ensures
      CountUrl(Dispatched(reqs, max, scheduler, k), u) + Requeued(reqs, max, scheduler, k, u) == CountUrl(reqs, u) <==>
      AnswersWithin(reqs, max, scheduler, k, u)
    decreases |reqs|
  {
    if reqs != [] {
      var asked, rest := FirstBatch(reqs, max), RestOf(reqs, max);
      RequestsConserved(rest, max, scheduler, k + 1, u);
      assert reqs == asked + rest;
      CountAppend(asked, rest, u);
      CountAppend(Answer(scheduler, k, asked), Dispatched(rest, max, scheduler, k + 1), u);
    }
  }

  lemma {:induction false} AllowedWithin(rs: seq<GFQRecord>, ds: seq<HostDatabase.Decision>, u: Url)
    requires |rs| == |ds|
    ensures CountUrl(HostDatabase.AllowedOf(rs, ds), u) <= CountUrl(rs, u)
  {
    if rs != [] {
      var n := |rs| - 1;
      AllowedWithin(rs[..n], ds[..n], u);
      CountAppend(rs[..n], [rs[n]], u);
      assert rs == rs[..n] + [rs[n]];
      CountAppend(HostDatabase.AllowedOf(rs[..n], ds[..n]), if ds[n] == HostDatabase.ALLOW then [rs[n]] else [], u);
    }
  }

  /** The answer is the part of the request that some list of decisions allows. */
  ghost predicate AnswersAllowed(scheduler: Scheduler, i: nat, asked: seq<GFQRecord>) {
    exists ds :: |ds| == |asked| && Answer(scheduler, i, asked) == HostDatabase.AllowedOf(asked, ds)
  }

  /** With admission control as the scheduler, which answers with the allowed part of the request,
      no request is lost and none is doubled. */
  lemma {:induction false} AdmissionConserves(reqs: seq<GFQRecord>, max: nat, scheduler: Scheduler, k: nat, u: Url)
    requires Ends(reqs, max)
    requires forall i, asked :: AnswersAllowed(scheduler, i, asked)
    ensures AnswersWithin(reqs, max, scheduler, k, u)
    ensures CountUrl(Dispatched(reqs, max, scheduler, k), u) + Requeued(reqs, max, scheduler, k, u) == CountUrl(reqs, u)
    decreases |reqs|
  {
    if reqs != [] {
      var asked := FirstBatch(reqs, max);
      assert AnswersAllowed(scheduler, k, asked);
      var ds :| |ds| == |asked| && Answer(scheduler, k, asked) == HostDatabase.AllowedOf(asked, ds);
      AllowedWithin(asked, ds, u);
      AdmissionConserves(RestOf(reqs, max), max, scheduler, k + 1, u);
    }
    RequestsConserved(reqs, max, scheduler, k, u);
  }

  /** A batch shrinks with every pass exactly when passes may hold at least one request. */
  lemma PassMakesProgress(reqs: seq<GFQRecord>, max: nat)
    requires reqs != []
    ensures |RestOf(reqs, max)| < |reqs| <==> max > 0
    ensures FirstBatch(reqs, max) + RestOf(reqs, max) == reqs
  {
  }

  /** `called` and `back` are what the passes before the `k`-th question made of `all`, of which
      `left` is still to come. */
  ghost predicate SentSoFar(
      all: seq<GFQRecord>, left: seq<GFQRecord>, max: nat, scheduler: Scheduler, k: nat,
      called: seq<GFQRecord>, back: seq<GFQRecord>)
    requires Ends(all, max) && Ends(left, max)
  {
    && called + Dispatched(left, max, scheduler, k) == Dispatched(all, max, scheduler, 0)
    && multiset(back) + multiset(left) <= multiset(all)
    && forall u :: CountUrl(back, u) + Requeued(left, max, scheduler, k, u) == Requeued(all, max, scheduler, 0, u)
  }

  lemma OneBatchOf(left: seq<GFQRecord>, max: nat, scheduler: Scheduler, k: nat)
    requires max > 0 && left != []
    ensures
      Dispatched(left, max, scheduler, k) ==
      Answer(scheduler, k, FirstBatch(left, max)) + Dispatched(RestOf(left, max), max, scheduler, k + 1)
    ensures forall u ::
      var asked := FirstBatch(left, max);
      Requeued(left, max, scheduler, k, u) ==
      Excess(CountUrl(asked, u), CountUrl(Answer(scheduler, k, asked), u)) +
      Requeued(RestOf(left, max), max, scheduler, k + 1, u)
    ensures multiset(left) == multiset(FirstBatch(left, max)) + multiset(RestOf(left, max))
  {
    assert left == FirstBatch(left, max) + RestOf(left, max);
  }

  lemma SendOneBatch(
      all: seq<GFQRecord>, left: seq<GFQRecord>, max: nat, scheduler: Scheduler, k: nat,
      called: seq<GFQRecord>, back: seq<GFQRecord>, disallowed: seq<GFQRecord>)
    requires max > 0 && left != [] && SentSoFar(all, left, max, scheduler, k, called, back)
    requires
      var asked := FirstBatch(left, max);
      && multiset(disallowed) <= multiset(asked)
      && forall u :: CountUrl(disallowed, u) == Excess(CountUrl(asked, u), CountUrl(Answer(scheduler, k, asked), u))
    ensures SentSoFar(all, RestOf(left, max), max, scheduler, k + 1,
      called + Answer(scheduler, k, FirstBatch(left, max)), back + disallowed)
  {
    var answer := Answer(scheduler, k, FirstBatch(left, max));
    OneBatchOf(left, max, scheduler, k);
    forall u
      ensures CountUrl(back + disallowed, u) + Requeued(RestOf(left, max), max, scheduler, k + 1, u) ==
        Requeued(all, max, scheduler, 0, u)
    {
      CountAppend(back, disallowed, u);
    }
    Regroup(called, answer, Dispatched(RestOf(left, max), max, scheduler, k + 1));
  }

  lemma BatchTaken(reqs: seq<GFQRecord>, max: nat, count: nat)
    requires count <= max && count <= |reqs| && (count < max ==> count == |reqs|)
    ensures reqs[..count] == FirstBatch(reqs, max) && reqs[count..] == RestOf(reqs, max)
  {
  }

  lemma SentAll(
      all: seq<GFQRecord>, max: nat, scheduler: Scheduler, k: nat, called: seq<GFQRecord>, back: seq<GFQRecord>)
    requires Ends(all, max) && SentSoFar(all, [], max, scheduler, k, called, back)
    ensures called == Dispatched(all, max, scheduler, 0)
    ensures multiset(back) <= multiset(all)
    ensures forall u :: CountUrl(back, u) == Requeued(all, max, scheduler, 0, u)
  {
    assert called + [] == called;
  }

  class FetchLoop {
    const m_max_requests_in_batch: Long
    const m_rank: Url -> real
    var m_called: seq<GFQRecord>   // handed to the http client
    var m_queue: seq<GFQRecord>    // put back

    constructor (max: Long, rank: Url -> real)
      ensures m_max_requests_in_batch == max && m_rank == rank && m_called == [] && m_queue == []
    {
      m_max_requests_in_batch, m_rank := max, rank;
      m_called, m_queue := [], [];
    }

    /** Ends with an empty batch; what was called is what the scheduler answered, in order, and per
        url everything else (`back`) went back to the queue. */
    method SendToCurl(batch: ReqBatch, scheduler: Scheduler) returns (ghost back: seq<GFQRecord>)
      requires IsOrder(m_rank)
      requires Ends(batch.m_reqs, AsSize(m_max_requests_in_batch))
      modifies this, batch
      ensures batch.m_reqs == []
      ensures m_called == old(m_called) + Dispatched(old(batch.m_reqs), AsSize(m_max_requests_in_batch), scheduler, 0)
      ensures m_queue == old(m_queue) + back
      ensures multiset(back) <= multiset(old(batch.m_reqs))
      ensures forall u ::
        CountUrl(back, u) == Requeued(old(batch.m_reqs), AsSize(m_max_requests_in_batch), scheduler, 0, u)
    {
      var k := 0;
      var max: nat := AsSize(m_max_requests_in_batch);
      back := [];
      ghost var called: seq<GFQRecord> := [];
      while batch.m_reqs != []
        invariant m_called == old(m_called) + called && m_queue == old(m_queue) + back
        invariant SentSoFar(old(batch.m_reqs), batch.m_reqs, max, scheduler, k, called, back)
        decreases |batch.m_reqs|
      {
        ghost var left := batch.m_reqs;
        ghost var disallowed := SendFirst(batch, max, scheduler, k);
        SendOneBatch(old(batch.m_reqs), left, max, scheduler, k, called, back, disallowed);
        Regroup(old(m_called), called, Answer(scheduler, k, FirstBatch(left, max)));
        Regroup(old(m_queue), back, disallowed);
        called := called + Answer(scheduler, k, FirstBatch(left, max));
        back := back + disallowed;
        k := k + 1;
      }
      SentAll(old(batch.m_reqs), max, scheduler, k, called, back);
    }

    /** One pass: take the first requests off the batch, call what the scheduler allows of them,
        put the others back. */
    method SendFirst(batch: ReqBatch, max: nat, scheduler: Scheduler, k: nat) returns (ghost disallowed: seq<GFQRecord>)
      requires IsOrder(m_rank)
      modifies this, batch
      ensures batch.m_reqs == RestOf(old(batch.m_reqs), max)
      ensures m_called == old(m_called) + Answer(scheduler, k, FirstBatch(old(batch.m_reqs), max))
      ensures m_queue == old(m_queue) + disallowed
      ensures multiset(disallowed) <= multiset(FirstBatch(old(batch.m_reqs), max))
      ensures forall u ::
        CountUrl(disallowed, u) ==
        Excess(CountUrl(FirstBatch(old(batch.m_reqs), max), u),
          CountUrl(Answer(scheduler, k, FirstBatch(old(batch.m_reqs), max)), u))
    {
      var batch_size, try_urls := batch.GetReqs(max);
      var ok, rest := batch.Slice(batch_size);
      BatchTaken(batch.m_reqs, max, batch_size);
      batch.m_reqs := rest;
      var allowed_urls := Answer(scheduler, k, try_urls);
      m_called := m_called + allowed_urls;
      var disallowed_urls := Disallowed(try_urls, allowed_urls);
      m_queue := m_queue + disallowed_urls;
      disallowed := disallowed_urls;
    }

    method Disallowed(try_urls: seq<GFQRecord>, allowed_urls: seq<GFQRecord>) returns (r: seq<GFQRecord>)
      requires IsOrder(m_rank)
      ensures multiset(r) <= multiset(try_urls)
      ensures forall u :: CountUrl(r, u) == Excess(CountUrl(try_urls, u), CountUrl(allowed_urls, u))
    {
      var a := SortRecords(try_urls, m_rank);
      var b := SortRecords(allowed_urls, m_rank);
      r := PushVectorMinus(a, b, m_rank);
      MinusWithin(a, b, m_rank);
      forall u ensures CountUrl(r, u) == Excess(CountUrl(try_urls, u), CountUrl(allowed_urls, u)) {
        MinusCounts(a, b, m_rank, u);
        CountPermutes(a, try_urls, u);
        CountPermutes(b, allowed_urls, u);
      }
    }
  }
}
