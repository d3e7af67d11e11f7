/** Turning an unordered count map into a list sorted by descending count. */
module Rankings {
  import opened Types

  ghost predicate SortedByCount(v: seq<UrlFreq>) {
    forall i, j :: 0 <= i < j < |v| ==> v[i].cnt >= v[j].cnt
  }

  /** Every entry of `freq` exactly once, most frequent first; the order of ties is not fixed. */
  ghost predicate IsRanking(freq: map<Url, Cnt>, v: seq<UrlFreq>) {
    && SortedByCount(v)
    && NoDup(UrlsOf(v))
    && ToSet(UrlsOf(v)) == freq.Keys
    && (forall i :: 0 <= i < |v| ==> v[i].url in freq && freq[v[i].url] == v[i].cnt)
  }

  method InsertByCount(r: seq<UrlFreq>, e: UrlFreq) returns (r': seq<UrlFreq>)
    requires SortedByCount(r)
    ensures multiset(r') == multiset(r) + multiset{e}
    ensures SortedByCount(r')
  {
    var k: nat := 0;
    while k < |r| && r[k].cnt >= e.cnt
      invariant k <= |r|
      invariant forall i :: 0 <= i < k ==> r[i].cnt >= e.cnt
    {
      k := k + 1;
    }
    r' := r[..k] + [e] + r[k..];
    MultisetInsertAt(r, k, e);
    InsertedSorted(r, k, e);
  }

  lemma InsertedSorted(r: seq<UrlFreq>, k: nat, e: UrlFreq)
    requires SortedByCount(r) && k <= |r|
    requires forall i :: 0 <= i < k ==> r[i].cnt >= e.cnt
    requires k < |r| ==> r[k].cnt < e.cnt
    ensures SortedByCount(r[..k] + [e] + r[k..])
  {
    var r' := r[..k] + [e] + r[k..];
    forall i, j | 0 <= i < j < |r'| ensures r'[i].cnt >= r'[j].cnt {
      assert i != k ==> r'[i] == r[if i < k then i else i - 1];
      assert j != k ==> r'[j] == r[if j < k then j else j - 1];
    }
  }

  /** `std::sort` by descending count. */
  method SortByCount(v: seq<UrlFreq>) returns (r: seq<UrlFreq>)
    ensures multiset(r) == multiset(v)
    ensures SortedByCount(r)
  {
    r := [];
    for n := 0 to |v|
      invariant multiset(r) == multiset(v[..n])
      invariant SortedByCount(r)
    {
      assert v[..n + 1] == v[..n] + [v[n]];
      r := InsertByCount(r, v[n]);
    }
    assert v[..|v|] == v;
  }

  ghost predicate ListsEntries(freq: map<Url, Cnt>, v: seq<UrlFreq>) {
    && NoDup(UrlsOf(v))
    && ToSet(UrlsOf(v)) == freq.Keys
    && (forall e :: e in v ==> e.url in freq && freq[e.url] == e.cnt)
  }

  /** All entries of the map, in some order. */
  method AllEntries(freq: map<Url, Cnt>) returns (all: seq<UrlFreq>)
    ensures ListsEntries(freq, all)
  {
    all := [];
    var todo := freq.Keys;
    while todo != {}
      invariant todo <= freq.Keys
      invariant ToSet(UrlsOf(all)) == freq.Keys - todo
      invariant NoDup(UrlsOf(all))
      invariant forall e :: e in all ==> e.url in freq && freq[e.url] == e.cnt
      decreases |todo|
    {
      var u :| u in todo;
      UrlsOfAppend(all, UrlFreq(u, freq[u]));
      all := all + [UrlFreq(u, freq[u])];
      todo := todo - {u};
    }
  }

  lemma UrlsOfAppend(v: seq<UrlFreq>, e: UrlFreq)
    ensures UrlsOf(v + [e]) == UrlsOf(v) + [e.url]
    ensures ToSet(UrlsOf(v + [e])) == ToSet(UrlsOf(v)) + {e.url}
    ensures NoDup(UrlsOf(v)) && e.url !in ToSet(UrlsOf(v)) ==> NoDup(UrlsOf(v + [e]))
  {
    var urls := UrlsOf(v);
    assert UrlsOf(v + [e]) == urls + [e.url];
    forall x ensures x in ToSet(urls + [e.url]) <==> x in ToSet(urls) + {e.url} {
    }
    if NoDup(urls) && e.url !in ToSet(urls) {
      forall i, j | 0 <= i < j < |urls| + 1 ensures (urls + [e.url])[i] != (urls + [e.url])[j] {
        assert urls[i] in ToSet(urls);
      }
    }
  }

  method RankingOf(freq: map<Url, Cnt>) returns (urls: seq<UrlFreq>)
    ensures IsRanking(freq, urls)
    ensures forall i, j :: 0 <= i < j < |urls| ==> urls[i].cnt >= urls[j].cnt
  {
    var all := AllEntries(freq);
    urls := SortByCount(all);
    PermutedUrls(all, urls);
    forall e | e in urls ensures e in all {
      assert e in multiset(urls);
    }
  }

  /** Reordering keeps the set of urls and the absence of duplicates. */
  lemma PermutedUrls(a: seq<UrlFreq>, b: seq<UrlFreq>)
    requires multiset(a) == multiset(b)
    requires NoDup(UrlsOf(a))
    ensures ToSet(UrlsOf(a)) == ToSet(UrlsOf(b))
    ensures NoDup(UrlsOf(b))
  {
    forall u ensures u in UrlsOf(a) <==> u in UrlsOf(b) {
      if u in UrlsOf(a) {
        var i :| 0 <= i < |a| && UrlsOf(a)[i] == u;
        assert a[i] in multiset(a) && a[i] in b;
        var j :| 0 <= j < |b| && b[j] == a[i];
        assert UrlsOf(b)[j] == u;
      }
      if u in UrlsOf(b) {
        var i :| 0 <= i < |b| && UrlsOf(b)[i] == u;
        assert b[i] in multiset(b) && b[i] in a;
        var j :| 0 <= j < |a| && a[j] == b[i];
        assert UrlsOf(a)[j] == u;
      }
    }
    NoDupCardinality(UrlsOf(a));
    assert |b| == |multiset(b)| == |multiset(a)| == |a|;
    assert ToSet(UrlsOf(a)) == ToSet(UrlsOf(b));
    CardinalityNoDup(UrlsOf(b));
  }

  /** A list with as many distinct members as entries repeats nothing. */
  lemma CardinalityNoDup<T>(s: seq<T>)
    requires |ToSet(s)| >= |s|
    ensures NoDup(s)
  {
    if s != [] {
      var n := |s| - 1;
      NoDupCardinality(s[..n]);
      assert ToSet(s) == ToSet(s[..n]) + {s[n]};
      CardinalityNoDup(s[..n]);
      assert s[n] !in s[..n];
      forall i, j | 0 <= i < j < |s| ensures s[i] != s[j] {
        if j < n {
          assert s[..n][i] != s[..n][j];
        } else {
          assert s[..n][i] == s[i];
        }
      }
    }
  }

  /** The count that a ranking gives to a url. */
  function CountIn(v: seq<UrlFreq>, u: Url): Cnt {
    if v == [] then 0 else CountIn(v[..|v| - 1], u) + if v[|v| - 1].url == u then v[|v| - 1].cnt else 0
  }

  lemma {:induction false} CountInAbsent(v: seq<UrlFreq>, u: Url)
    requires u !in UrlsOf(v)
    ensures CountIn(v, u) == 0
  {
    if v != [] {
      var n := |v| - 1;
      assert UrlsOf(v)[..n] == UrlsOf(v[..n]) && UrlsOf(v)[n] == v[n].url;
      CountInAbsent(v[..n], u);
    }
  }

  lemma {:induction false} CountInRanking(v: seq<UrlFreq>, i: nat)
    requires i < |v| && NoDup(UrlsOf(v))
    ensures CountIn(v, v[i].url) == v[i].cnt
  {
    var n := |v| - 1;
    assert UrlsOf(v[..n]) == UrlsOf(v)[..n];
    if i == n {
      assert v[n].url !in UrlsOf(v)[..n] by {
        assert UrlsOf(v)[n] == v[n].url;
      }
      CountInAbsent(v[..n], v[n].url);
    } else {
      CountInRanking(v[..n], i);
      assert UrlsOf(v)[i] != UrlsOf(v)[n];
    }
  }

  lemma RankingCounts(freq: map<Url, Cnt>, v: seq<UrlFreq>, u: Url)
    requires IsRanking(freq, v)
    ensures CountIn(v, u) == GetOr0(freq, u)
  {
    if u in freq {
      assert u in ToSet(UrlsOf(v));
      var i :| 0 <= i < |v| && UrlsOf(v)[i] == u;
      CountInRanking(v, i);
    } else {
      assert u !in ToSet(UrlsOf(v));
      CountInAbsent(v, u);
    }
  }

  // ---------------------------------------------------------------- grouping by url

  /** The sum of the counts of every url. */
  function Summed(v: seq<UrlFreq>): map<Url, Cnt> {
    if v == [] then map[]
    else
      var m := Summed(v[..|v| - 1]);
      var e := v[|v| - 1];
      m[e.url := GetOr0(m, e.url) + e.cnt]
  }

  lemma {:induction false} SummedMeaning(v: seq<UrlFreq>, u: Url)
    ensures Summed(v).Keys == ToSet(UrlsOf(v))
    ensures GetOr0(Summed(v), u) == CountIn(v, u)
  {
    if v != [] {
      var n := |v| - 1;
      SummedMeaning(v[..n], u);
      UrlsOfAppend(v[..n], v[n]);
      assert v == v[..n] + [v[n]];
    }
  }

  /** Every url once, in some order, with the sum of its counts. */
  method ReduceUrlFreqs(v: seq<UrlFreq>) returns (out: seq<UrlFreq>)
    ensures NoDup(UrlsOf(out)) && ToSet(UrlsOf(out)) == ToSet(UrlsOf(v))
    ensures forall e :: e in out ==> e.cnt == CountIn(v, e.url)
  {
    var u_map: map<Url, Cnt> := map[];
    for i := 0 to |v|
      invariant u_map == Summed(v[..i])
    {
      assert v[..i + 1][..i] == v[..i];
      if v[i].url !in u_map {
        u_map := u_map[v[i].url := v[i].cnt];
      } else {
        u_map := u_map[v[i].url := u_map[v[i].url] + v[i].cnt];
      }
    }
    assert v[..|v|] == v;
    out := AllEntries(u_map);
    forall e | e in out ensures e.cnt == CountIn(v, e.url) {
      SummedMeaning(v, e.url);
    }
    SummedKeys(v);
  }

  lemma SummedKeys(v: seq<UrlFreq>)
    ensures Summed(v).Keys == ToSet(UrlsOf(v))
  {
    if v != [] {
      SummedMeaning(v, v[0].url);
    }
  }
}
