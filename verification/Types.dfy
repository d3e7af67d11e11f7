/** The value types that every component exchanges, and counting over lists of them. */
module Types {
  import opened Clock

  /** Urls and hosts are only ever compared and looked up; parsing them is someone else's work. */
  type Url(==, !new)
  type Host(==, !new)
  type Cnt = int

  datatype Option<+T> = None | Some(value: T)

  datatype UrlFreq = UrlFreq(url: Url, cnt: Cnt)
  datatype UrlVisit = UrlVisit(url: Url, tp: Tp)
  datatype UrlTpStat = UrlTpStat(url: Url, tp: Tp, cnt: Cnt)

  /** The text of a robots.txt file. */
  type Robots(!new)

  /** Wire values outside the range of the known statuses. */
  type OtherCode = c: int | c < 0 || c > 5 witness 6

  datatype AttemptStatus = ENQUEUED | PENDING | OK | CURL_ERR | S4XX | S5XX | UNRECOGNIZED(code: OtherCode)

  datatype GFQRecord = GFQRecord(url: Url, attempt_ts: int)

  datatype FetchResult = FetchResult(gfq: GFQRecord, status: AttemptStatus, content: Robots)

  /** One counted visit handed over at a clock reading of its own. */
  datatype Arrival = Arrival(stat: UrlTpStat, now: Tp)

  function StatOfVisit(v: UrlVisit): UrlTpStat {
    UrlTpStat(v.url, v.tp, 1)
  }

  function GetOr0<K>(m: map<K, Cnt>, k: K): Cnt {
    if k in m then m[k] else 0
  }

  const SIZE_T_VALUES := 0x1_0000_0000_0000_0000

  /** A 64-bit setting. */
  type Long = x: int | -0x8000_0000_0000_0000 <= x < 0x8000_0000_0000_0000

  /** A signed number used as a size: negative ones wrap to huge ones. */
  function AsSize(limit: int): int {
    if limit < 0 then limit + SIZE_T_VALUES else limit
  }

  /** Lists of url and count pairs, seen through their first component. */
  function UrlsOf(v: seq<UrlFreq>): (urls: seq<Url>)
    ensures |urls| == |v| && forall i :: 0 <= i < |v| ==> urls[i] == v[i].url
  {
    seq(|v|, i requires 0 <= i < |v| => v[i].url)
  }

  ghost function ToSet<T>(s: seq<T>): set<T> {
    set x | x in s
  }

  ghost predicate NoDup<T>(s: seq<T>) {
    forall i, j :: 0 <= i < j < |s| ==> s[i] != s[j]
  }

  lemma NoDupCardinality<T>(s: seq<T>)
    ensures |ToSet(s)| <= |s|
    ensures NoDup(s) ==> |ToSet(s)| == |s|
  {
    if s == [] {
      assert ToSet(s) == {};
    } else {
      var n := |s| - 1;
      NoDupCardinality(s[..n]);
      assert ToSet(s) == ToSet(s[..n]) + {s[n]};
    }
  }

  /** A subset that is as large as the whole is the whole. */
  lemma SameCardinality<T>(a: set<T>, b: set<T>)
    requires a <= b
    ensures |a| >= |b| ==> a == b
  {
    assert b == a + (b - a);
  }

  /** A set whose members have distinct ranks inside `[lo, lo + n)` has at most `n` members. */
  lemma {:induction false} RangeCardinality<T>(s: set<T>, rank: T -> int, lo: int, n: nat)
    requires forall x :: x in s ==> lo <= rank(x) < lo + n
    requires forall x, y :: x in s && y in s && rank(x) == rank(y) ==> x == y
    ensures |s| <= n
    decreases n
  {
    if n == 0 {
      assert forall x :: x !in s;
    } else if x :| x in s && rank(x) == lo + n - 1 {
      RangeCardinality(s - {x}, rank, lo, n - 1);
    } else {
      RangeCardinality(s, rank, lo, n - 1);
    }
  }

  /** Moving an element to the front does not change a list as a multiset. */
  lemma MultisetSplitAt<T>(s: seq<T>, j: nat)
    requires j < |s|
    ensures multiset(s) == multiset{s[j]} + multiset(s[..j] + s[j + 1..])
  {
    assert s == s[..j] + [s[j]] + s[j + 1..];
  }

  lemma MultisetSplitHead<T>(s: seq<T>)
    requires s != []
    ensures multiset(s) == multiset{s[0]} + multiset(s[1..])
  {
    assert s == [s[0]] + s[1..];
  }

  lemma MultisetInsertAt<T>(s: seq<T>, k: nat, x: T)
    requires k <= |s|
    ensures multiset(s[..k] + [x] + s[k..]) == multiset(s) + multiset{x}
  {
    assert s == s[..k] + s[k..];
  }

  lemma Regroup<T>(a: seq<T>, b: seq<T>, c: seq<T>)
    ensures (a + b) + c == a + (b + c)
  {
  }

  function Max(a: int, b: int): int {
    if a < b then b else a
  }

  /** The members of a set as a list, in some order. */
  method ListOf<T(==)>(s: set<T>) returns (r: seq<T>)
    ensures NoDup(r) && ToSet(r) == s
  {
    r := [];
    var todo := s;
    while todo != {}
      invariant todo <= s && NoDup(r) && ToSet(r) == s - todo
      decreases todo
    {
      var x :| x in todo;
      assert x !in ToSet(r);
      assert ToSet(r + [x]) == ToSet(r) + {x};
      r := r + [x];
      todo := todo - {x};
    }
  }
}
