/** The keyword index over query groups, and the full scan that collects hits per group. */
module QueryIndex {
  import opened Types

  type GroupId(==, !new)
  type Query = string

  datatype QueryGroup = QueryGroup(gid: GroupId, queries: seq<Query>)
  datatype QueryGroupHits = QueryGroupHits(gid: GroupId, hits: seq<Url>)
  datatype PageContent = PageContent(url: Url, content: string)

  predicate OccursAt(q: Query, content: string, i: int) {
    0 <= i <= |content| - |q| && content[i..i + |q|] == q
  }

  ghost predicate Occurs(q: Query, content: string) {
    exists i :: OccursAt(q, content, i)
  }

  /** All matches that a keyword trie reports for a text. */
  type Trie = (set<Query>, string) -> seq<Query>

  /** The trie reports every occurring keyword at least once, and nothing else; it cannot hold the
      empty keyword. */
  ghost predicate ReportsAll(trie: Trie) {
    forall keys, content, q :: q in trie(keys, content) <==> q in keys && q != "" && Occurs(q, content)
  }

  // ---------------------------------------------------------------- brute force

  /** Some group of that id has a query that occurs in the page. */
  ghost predicate GroupHit(qgs: seq<QueryGroup>, g: GroupId, content: string) {
    exists i, q :: 0 <= i < |qgs| && qgs[i].gid == g && q in qgs[i].queries && q != "" && Occurs(q, content)
  }

  /** The pages of a group in scan order. */
  ghost function HitsOf(qgs: seq<QueryGroup>, g: GroupId, pages: seq<PageContent>): seq<Url> {
    if pages == [] then []
    else
      var p := pages[|pages| - 1];
      HitsOf(qgs, g, pages[..|pages| - 1]) + if GroupHit(qgs, g, p.content) then [p.url] else []
  }

  // ---------------------------------------------------------------- the index

  /** Which groups ask for a query, counting only the first `n` groups and the first `k` queries of
      the next one. */
  ghost predicate Asks(qgs: seq<QueryGroup>, n: int, k: int, g: GroupId, q: Query)
    requires 0 <= n <= |qgs| && 0 <= k && (k > 0 ==> n < |qgs| && k <= |qgs[n].queries|)
  {
    || (exists i :: 0 <= i < n && qgs[i].gid == g && q in qgs[i].queries)
    || (k > 0 && qgs[n].gid == g && q in qgs[n].queries[..k])
  }

  ghost predicate Indexes(groups: map<Query, seq<GroupId>>, qgs: seq<QueryGroup>, n: int, k: int)
    requires 0 <= n <= |qgs| && 0 <= k && (k > 0 ==> n < |qgs| && k <= |qgs[n].queries|)
  {
    forall q, g :: g in GroupsOf(groups, q) <==> Asks(qgs, n, k, g, q)
  }

  function GroupsOf(groups: map<Query, seq<GroupId>>, q: Query): seq<GroupId> {
    if q in groups then groups[q] else []
  }

  lemma IndexStep(groups: map<Query, seq<GroupId>>, qgs: seq<QueryGroup>, n: nat, k: nat)
    requires n < |qgs| && k < |qgs[n].queries|
    requires Indexes(groups, qgs, n, k)
    ensures
      var query := qgs[n].queries[k];
      Indexes(groups[query := GroupsOf(groups, query) + [qgs[n].gid]], qgs, n, k + 1)
  {
    var query := qgs[n].queries[k];
    var after := groups[query := GroupsOf(groups, query) + [qgs[n].gid]];
    assert qgs[n].queries[..k + 1] == qgs[n].queries[..k] + [query];
    forall q, g ensures g in GroupsOf(after, q) <==> Asks(qgs, n, k + 1, g, q) {
      assert g in GroupsOf(groups, q) <==> Asks(qgs, n, k, g, q);
    }
  }

  lemma IndexNext(groups: map<Query, seq<GroupId>>, qgs: seq<QueryGroup>, n: nat)
    requires n < |qgs| && Indexes(groups, qgs, n, |qgs[n].queries|)
    ensures Indexes(groups, qgs, n + 1, 0)
  {
    var queries := qgs[n].queries;
    assert queries[..|queries|] == queries;
    forall q, g ensures g in GroupsOf(groups, q) <==> Asks(qgs, n + 1, 0, g, q) {
      assert g in GroupsOf(groups, q) <==> Asks(qgs, n, |queries|, g, q);
      if Asks(qgs, n + 1, 0, g, q) {
        var i :| 0 <= i < n + 1 && qgs[i].gid == g && q in qgs[i].queries;
      }
      if Asks(qgs, n, |queries|, g, q) && queries != [] && qgs[n].gid == g && q in queries {
        assert 0 <= n < n + 1;
      }
    }
  }

  class QueryGroupMatcher {
    const m_trie: Trie
    var m_keywords: set<Query>   // inserted into the trie
    var m_keyword_groups: map<Query, seq<GroupId>>

    ghost predicate Built(qgs: seq<QueryGroup>)
      reads this
    {
      && m_keywords == m_keyword_groups.Keys
      && Indexes(m_keyword_groups, qgs, |qgs|, 0)
    }

    constructor (qgs: seq<QueryGroup>, trie: Trie)
      ensures m_trie == trie && Built(qgs)
    {
      m_trie := trie;
      m_keyword_groups := map[];
      m_keywords := {};
      new;
      for n := 0 to |qgs|
        invariant m_keywords == m_keyword_groups.Keys
        invariant Indexes(m_keyword_groups, qgs, n, 0)
      {
        for k := 0 to |qgs[n].queries|
          invariant m_keywords == m_keyword_groups.Keys
          invariant Indexes(m_keyword_groups, qgs, n, k)
        {
          var query := qgs[n].queries[k];
          IndexStep(m_keyword_groups, qgs, n, k);
          m_keyword_groups := m_keyword_groups[query := GroupsOf(m_keyword_groups, query) + [qgs[n].gid]];
          m_keywords := m_keywords + {query};
        }
        IndexNext(m_keyword_groups, qgs, n);
      }
    }

    /** Appends the ids of the groups that the content hits, each once. */
    method Match(content: string, gids: seq<GroupId>, ghost qgs: seq<QueryGroup>)
      returns (found: bool, out: seq<GroupId>)
      requires Built(qgs) && ReportsAll(m_trie)
      ensures |gids| <= |out| && out[..|gids|] == gids
      ensures NoDup(out[|gids|..])
      ensures forall g :: g in out[|gids|..] <==> GroupHit(qgs, g, content)
      ensures found <==> out != []
    {
      var gids_set: set<GroupId> := {};
      var matches := m_trie(m_keywords, content);
      for i := 0 to |matches|
        invariant forall g :: g in gids_set <==> exists j :: 0 <= j < i && g in GroupsOf(m_keyword_groups, matches[j])
      {
        var hits := GroupsOf(m_keyword_groups, matches[i]);
        gids_set := gids_set + set g | g in hits;
      }
      SetIsHits(gids_set, m_keyword_groups, matches, qgs, content, m_trie);
      var added := ListOf(gids_set);
      assert forall g :: g in added <==> g in ToSet(added);
      out := gids + added;
      assert out[|gids|..] == added;
      found := out != [];
    }
  }

  lemma SetIsHits(
      gids: set<GroupId>, groups: map<Query, seq<GroupId>>, matches: seq<Query>, qgs: seq<QueryGroup>,
      content: string, trie: Trie)
    requires Indexes(groups, qgs, |qgs|, 0) && ReportsAll(trie) && matches == trie(groups.Keys, content)
    requires forall g :: g in gids <==> exists j :: 0 <= j < |matches| && g in GroupsOf(groups, matches[j])
    ensures forall g :: g in gids <==> GroupHit(qgs, g, content)
  {
    forall g ensures g in gids <==> GroupHit(qgs, g, content) {
      if g in gids {
        var j :| 0 <= j < |matches| && g in GroupsOf(groups, matches[j]);
        var q := matches[j];
        assert q in matches;
        assert Asks(qgs, |qgs|, 0, g, q);
      }
      if GroupHit(qgs, g, content) {
        var i, q :| 0 <= i < |qgs| && qgs[i].gid == g && q in qgs[i].queries && q != "" && Occurs(q, content);
        assert Asks(qgs, |qgs|, 0, g, q);
        assert g in GroupsOf(groups, q);
        assert q in matches;
        var j :| 0 <= j < |matches| && matches[j] == q;
      }
    }
  }

  // ---------------------------------------------------------------- the scan

  function HitsAt(m: map<GroupId, QueryGroupHits>, g: GroupId): seq<Url> {
    if g in m then m[g].hits else []
  }

  /** The map after scanning `pages`: exactly the groups with hits, each with its pages in order. */
  ghost predicate Collected(m: map<GroupId, QueryGroupHits>, qgs: seq<QueryGroup>, pages: seq<PageContent>) {
    && (forall g :: g in m ==> m[g].gid == g && m[g].hits != [])
    && (forall g :: HitsAt(m, g) == HitsOf(qgs, g, pages))
  }

  method AddPage(m: map<GroupId, QueryGroupHits>, gids: seq<GroupId>, url: Url)
    returns (r: map<GroupId, QueryGroupHits>)
    requires NoDup(gids)
    requires forall g :: g in m ==> m[g].gid == g && m[g].hits != []
    ensures forall g :: g in r ==> r[g].gid == g && r[g].hits != []
    ensures forall g :: HitsAt(r, g) == HitsAt(m, g) + if g in gids then [url] else []
  {
    r := m;
    for i := 0 to |gids|
      invariant forall g :: g in r ==> r[g].gid == g && r[g].hits != []
      invariant forall g :: HitsAt(r, g) == HitsAt(m, g) + if g in gids[..i] then [url] else []
    {
      assert gids[..i + 1] == gids[..i] + [gids[i]];
      r := r[gids[i] := QueryGroupHits(gids[i], HitsAt(r, gids[i]) + [url])];
    }
    assert gids[..|gids|] == gids;
  }

  /** For each group id: the scan-order list of the pages that contain one of its queries; each page
      once, and no entry for a group without hits. */
  method QueryPages(qgs: seq<QueryGroup>, pages: seq<PageContent>, trie: Trie) returns (out: seq<QueryGroupHits>)
    requires ReportsAll(trie)
    ensures forall h :: h in out ==> h.hits == HitsOf(qgs, h.gid, pages) && h.hits != []
    ensures forall g :: HitsOf(qgs, g, pages) != [] ==> exists h :: h in out && h.gid == g
    ensures forall i, j :: 0 <= i < j < |out| ==> out[i].gid != out[j].gid
  {
    var matcher := new QueryGroupMatcher(qgs, trie);
    var hits: map<GroupId, QueryGroupHits> := map[];
    for i := 0 to |pages|
      invariant matcher.m_trie == trie && matcher.Built(qgs)
      invariant Collected(hits, qgs, pages[..i])
    {
      assert pages[..i + 1][..i] == pages[..i];
      var _, gids := matcher.Match(pages[i].content, [], qgs);
      assert gids[0..] == gids;
      hits := AddPage(hits, gids, pages[i].url);
      forall g ensures HitsAt(hits, g) == HitsOf(qgs, g, pages[..i + 1]) {
        assert g in gids <==> GroupHit(qgs, g, pages[i].content);
      }
    }
    assert pages[..|pages|] == pages;
    out := AllHits(hits);
    forall g | HitsOf(qgs, g, pages) != [] ensures exists h :: h in out && h.gid == g {
      assert HitsAt(hits, g) == HitsOf(qgs, g, pages);
      assert hits[g] in out;
    }
    forall h | h in out ensures h.hits == HitsOf(qgs, h.gid, pages) && h.hits != [] {
      assert HitsAt(hits, h.gid) == HitsOf(qgs, h.gid, pages);
    }
  }

  method AllHits(m: map<GroupId, QueryGroupHits>) returns (out: seq<QueryGroupHits>)
    requires forall g :: g in m ==> m[g].gid == g
    ensures forall g :: g in m ==> m[g] in out
    ensures forall h :: h in out ==> h.gid in m && m[h.gid] == h
    ensures forall i, j :: 0 <= i < j < |out| ==> out[i].gid != out[j].gid
  {
    out := [];
    var todo := m.Keys;
    while todo != {}
      invariant todo <= m.Keys
      invariant forall g :: g in m && g !in todo ==> m[g] in out
      invariant forall h :: h in out ==> h.gid in m && h.gid !in todo && m[h.gid] == h
      invariant forall i, j :: 0 <= i < j < |out| ==> out[i].gid != out[j].gid
      decreases todo
    {
      var g :| g in todo;
      out := out + [m[g]];
      todo := todo - {g};
    }
  }
}
