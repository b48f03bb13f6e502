/** Link discovery in `bing_site_search` (scraper.py:83-112): up to five
    result pages are read, LinkedIn links are collected until `limit` of them
    (counting repeats) have been seen, and the collection is de-duplicated. */
module Search {
  import opened Wrappers
  import opened Seqs
  import opened PyText
  import opened Unique

  /** Only results whose address mentions this domain are kept. */
  const Domain := "linkedin.com"

  /** At most this many result pages are requested per query. */
  const MaxPages := 5

  /** What one request for a result page yields: the `href` of each result
      heading, in page order, with the empty string for a heading that has
      none; or the error that ended the request after its retries. */
  datatype SerpPage = SerpFailed(reason: string) | Serp(hrefs: seq<string>)

  /** The search engine as the scraper sees it: the result page for a search
      term and a `first=` offset. */
  type Engine = (string, int) -> SerpPage

  /** The search term sent for a query. */
  function SearchTerm(query: string): string
  {
    "site:linkedin.com (" + query + ")"
  }

  /** The 1-based rank of the first result on page `page` (pages of ten). */
  function FirstParam(page: int): int
  {
    page * 10 + 1
  }

  /** An `href` the scraper collects: present and mentioning the domain. */
  predicate IsLink(href: string)
  {
    href != "" && Contains(href, Domain)
  }

  /** The collectable `href`s of one page, in page order. */
  function Links(hrefs: seq<string>): (r: seq<string>)
    ensures |r| <= |hrefs|
  {
    if hrefs == [] then []
    else
      var init := Links(hrefs[..|hrefs| - 1]);
      var h := hrefs[|hrefs| - 1];
      assert hrefs == hrefs[..|hrefs| - 1] + [h];
      if IsLink(h) then init + [h] else init
  }

  /** A page's links are exactly its `href`s that are links. */
  lemma {:induction false} LinksMembers(hrefs: seq<string>)
    ensures forall h :: h in Links(hrefs) <==> h in hrefs && IsLink(h)
    decreases |hrefs|
  {
    if hrefs != [] {
      var init := hrefs[..|hrefs| - 1];
      assert hrefs == init + [hrefs[|hrefs| - 1]];
      LinksMembers(init);
    }
  }

  /** The links of a page, none if it could not be fetched. */
  function LinksOn(p: SerpPage): seq<string>
  {
    if p.Serp? then Links(p.hrefs) else []
  }

  /** Every link of pages `page` to `MaxPages - 1`, in order: what the loop
      would collect with no limit and no failures. */
  function Pool(engine: Engine, term: string, page: nat): seq<string>
    decreases MaxPages - page
  {
    if page >= MaxPages then []
    else LinksOn(engine(term, FirstParam(page))) + Pool(engine, term, page + 1)
  }

  /** What the collection loop did: the `first=` offsets it requested, the
      links it collected before de-duplication, and the error that ended it
      early, if any. */
  datatype Gathered = Gathered(firsts: seq<int>, raw: seq<string>, failure: Option<string>)

  /** The loop at scraper.py:90-104 from page `page` with `raw` already
      collected. A page contributes its links until the collected count
      reaches `limit`; a failed request ends everything. */
  function Gather(engine: Engine, term: string, limit: int, page: nat, raw: seq<string>): Gathered
    decreases MaxPages - page
  {
    if |raw| >= limit || page >= MaxPages then Gathered([], raw, None)
    else
      match engine(term, FirstParam(page))
      case SerpFailed(e) => Gathered([FirstParam(page)], raw, Some(e))
      case Serp(hrefs) =>
        var rest := Gather(engine, term, limit, page + 1, raw + Prefix(Links(hrefs), limit - |raw|));
        rest.(firsts := [FirstParam(page)] + rest.firsts)
  }

  /** `bing_site_search(query, limit)`: the de-duplicated links, cut to
      `limit`, or the error of the request that failed. */
  function BingSiteSearch(engine: Engine, query: string, limit: int): Result<seq<string>, string>
  {
    var g := Gather(engine, SearchTerm(query), limit, 0, []);
    if g.failure.Some? then Failure(g.failure.value)
    else Success(SliceTo(Dedup(g.raw), limit))
  }

  /** The pages requested from page `page` on are consecutive pages of ten,
      never past the fifth. */
  lemma {:induction false} GatherRequests(engine: Engine, term: string, limit: int, page: nat, raw: seq<string>)
    requires page <= MaxPages
    ensures var g := Gather(engine, term, limit, page, raw);
      && |g.firsts| <= MaxPages - page
      && forall i :: 0 <= i < |g.firsts| ==> g.firsts[i] == FirstParam(page + i)
    decreases MaxPages - page
  {
    if |raw| < limit && page < MaxPages {
      var p := engine(term, FirstParam(page));
      if p.Serp? {
        GatherRequests(engine, term, limit, page + 1, raw + Prefix(Links(p.hrefs), limit - |raw|));
      }
    }
  }

  /** The loop only appends links, and once below `limit` it never collects
      more than `limit` of them. */
  lemma {:induction false} GatherGrows(engine: Engine, term: string, limit: int, page: nat, raw: seq<string>)
    ensures var g := Gather(engine, term, limit, page, raw);
      && raw <= g.raw
      && (|raw| <= limit ==> |g.raw| <= limit)
      && forall k :: |raw| <= k < |g.raw| ==> IsLink(g.raw[k])
    decreases MaxPages - page
  {
    if |raw| < limit && page < MaxPages {
      var p := engine(term, FirstParam(page));
      if p.Serp? {
        var next := raw + Prefix(Links(p.hrefs), limit - |raw|);
        GatherGrows(engine, term, limit, page + 1, next);
        var g := Gather(engine, term, limit, page + 1, next);
        forall k | |raw| <= k < |g.raw| ensures IsLink(g.raw[k]) {
          if k < |next| {
            assert g.raw[k] == next[k] == Prefix(Links(p.hrefs), limit - |raw|)[k - |raw|];
            assert g.raw[k] in Links(p.hrefs);
            LinksMembers(p.hrefs);
          }
        }
      }
    }
  }

  /** One round of the loop on a page that was fetched. */
  lemma GatherStep(engine: Engine, term: string, limit: int, page: nat, raw: seq<string>)
    requires |raw| < limit && page < MaxPages && engine(term, FirstParam(page)).Serp?
    ensures var hrefs := engine(term, FirstParam(page)).hrefs;
      var rest := Gather(engine, term, limit, page + 1, raw + Prefix(Links(hrefs), limit - |raw|));
      var g := Gather(engine, term, limit, page, raw);
      && g.raw == rest.raw && g.failure == rest.failure
      && g.firsts == [FirstParam(page)] + rest.firsts
      && Pool(engine, term, page) == Links(hrefs) + Pool(engine, term, page + 1)
  {
  }

  /** Without a failure, the loop collects exactly the first `limit` links of
      the pool: it stops early only when nothing more would be taken. */
  lemma {:induction false} GatherTakesPool(engine: Engine, term: string, limit: int, page: nat, raw: seq<string>)
    requires Prefix(raw, limit) == raw
    ensures var g := Gather(engine, term, limit, page, raw);
      g.failure.None? ==> g.raw == Prefix(raw + Pool(engine, term, page), limit)
    decreases MaxPages - page
  {
    if |raw| < limit && page < MaxPages {
      var p := engine(term, FirstParam(page));
      if p.Serp? {
        var next := raw + Prefix(Links(p.hrefs), limit - |raw|);
        assert Prefix(next, limit) == next;
        GatherTakesPool(engine, term, limit, page + 1, next);
        TakesPoolStep(engine, term, limit, page, raw);
      }
    } else if |raw| >= limit {
      PrefixFull(raw, Pool(engine, term, page), limit);
    } else {
      assert raw + Pool(engine, term, page) == raw;
    }
  }

  /** The inductive step of `GatherTakesPool`: if the rounds after a served
      page take the first links of the rest of the pool, the rounds from that
      page take the first links of the pool from that page. */
  lemma TakesPoolStep(engine: Engine, term: string, limit: int, page: nat, raw: seq<string>)
    requires |raw| < limit && page < MaxPages && engine(term, FirstParam(page)).Serp?
    requires var hrefs := engine(term, FirstParam(page)).hrefs;
      var next := raw + Prefix(Links(hrefs), limit - |raw|);
      var rest := Gather(engine, term, limit, page + 1, next);
      rest.failure.None? ==> rest.raw == Prefix(next + Pool(engine, term, page + 1), limit)
    ensures var g := Gather(engine, term, limit, page, raw);
      g.failure.None? ==> g.raw == Prefix(raw + Pool(engine, term, page), limit)
  {
    var links := Links(engine(term, FirstParam(page)).hrefs);
    var next := raw + Prefix(links, limit - |raw|);
    var tail := Pool(engine, term, page + 1);
    var g := Gather(engine, term, limit, page, raw);
    var rest := Gather(engine, term, limit, page + 1, next);
    GatherStep(engine, term, limit, page, raw);
    if g.failure.None? {
      calc {
        g.raw;
        rest.raw;
        Prefix(next + tail, limit);
        { PrefixOfAppend(raw, links, tail, limit); }
        Prefix(raw + links + tail, limit);
        { assert raw + links + tail == raw + (links + tail); }
        Prefix(raw + Pool(engine, term, page), limit);
      }
    }
  }

  /** The loop fails exactly when the last page it requested failed, and then
      with that page's error; otherwise it stopped because `limit` links were
      collected or five pages were read. */
  lemma {:induction false} GatherEnds(engine: Engine, term: string, limit: int, page: nat, raw: seq<string>)
    requires page <= MaxPages
    ensures var g := Gather(engine, term, limit, page, raw);
      && (g.failure.Some? ==> g.firsts != [] && engine(term, g.firsts[|g.firsts| - 1]) == SerpFailed(g.failure.value))
      && (g.failure.None? ==> (
        && (forall i :: 0 <= i < |g.firsts| ==> engine(term, g.firsts[i]).Serp?)
        && (|g.raw| >= limit || |g.firsts| == MaxPages - page)))
    decreases MaxPages - page
  {
    if |raw| < limit && page < MaxPages {
      var p := engine(term, FirstParam(page));
      if p.Serp? {
        var next := raw + Prefix(Links(p.hrefs), limit - |raw|);
        GatherEnds(engine, term, limit, page + 1, next);
      }
    }
  }

  /** Pages requested: at most five, page `p` with `first = 10*p + 1`, and
      none at all when `limit <= 0`. */
  lemma SearchPages(engine: Engine, query: string, limit: int)
    ensures var g := Gather(engine, SearchTerm(query), limit, 0, []);
      && |g.firsts| <= MaxPages
      && (forall p :: 0 <= p < |g.firsts| ==> g.firsts[p] == 10 * p + 1)
      && (limit <= 0 ==> g.firsts == [])
  {
    GatherRequests(engine, SearchTerm(query), limit, 0, []);
  }

  /** The raw collection: only links, never more than `limit` of them,
      nothing at all when `limit <= 0`, and when no request failed, exactly
      the first `limit` links of the pages in order (repeats included). */
  lemma SearchRaw(engine: Engine, query: string, limit: int)
    ensures var g := Gather(engine, SearchTerm(query), limit, 0, []);
      && (forall h :: h in g.raw ==> IsLink(h))
      && (limit <= 0 ==> g.raw == [])
      && (limit >= 0 ==> |g.raw| <= limit)
      && (g.failure.None? ==> g.raw == Prefix(Pool(engine, SearchTerm(query), 0), limit))
  {
    var term := SearchTerm(query);
    GatherGrows(engine, term, limit, 0, []);
    GatherTakesPool(engine, term, limit, 0, []);
    var g := Gather(engine, term, limit, 0, []);
    forall h | h in g.raw ensures IsLink(h) {
      var k :| 0 <= k < |g.raw| && g.raw[k] == h;
    }
    assert [] + Pool(engine, term, 0) == Pool(engine, term, 0);
  }

  /** The result: duplicate-free, never longer than `limit`, and listing
      every collected link once, in the order it was first collected; the
      final `[:limit]` cut never removes anything. */
  lemma SearchResult(engine: Engine, query: string, limit: int)
    requires BingSiteSearch(engine, query, limit).Success?
    ensures var g := Gather(engine, SearchTerm(query), limit, 0, []);
      var links := BingSiteSearch(engine, query, limit).value;
      && links == Dedup(g.raw)
      && NoDup(links)
      && (forall h :: h in links <==> h in g.raw)
      && FirstOrdered(g.raw, links)
      && |links| <= |g.raw|
      && (limit >= 0 ==> |links| <= limit)
      && (limit <= 0 ==> links == [])
  {
    var g := Gather(engine, SearchTerm(query), limit, 0, []);
    SearchRaw(engine, query, limit);
    DedupFirstOrdered(g.raw);
  }

  /** A failed search reports the error of a page it requested, the last one. */
  lemma SearchFailure(engine: Engine, query: string, limit: int)
    requires BingSiteSearch(engine, query, limit).Failure?
    ensures var g := Gather(engine, SearchTerm(query), limit, 0, []);
      && g.firsts != []
      && engine(SearchTerm(query), g.firsts[|g.firsts| - 1]) == SerpFailed(BingSiteSearch(engine, query, limit).error)
  {
    GatherEnds(engine, SearchTerm(query), limit, 0, []);
  }

  /** Repeats count toward `limit` before de-duplication, so the result can be
      shorter than `limit` although more distinct links were on the page. */
  lemma SearchShortfall()
    ensures var a := "linkedin.com/in/a";
      var b := "linkedin.com/in/b";
      var engine: Engine := (term, first) => if first == 1 then Serp([a, a, b]) else Serp([]);
      BingSiteSearch(engine, "q", 2) == Success([a])
  {
    var a := "linkedin.com/in/a";
    var b := "linkedin.com/in/b";
    var engine: Engine := (term, first) => if first == 1 then Serp([a, a, b]) else Serp([]);
    assert a[..|Domain|] == Domain && b[..|Domain|] == Domain;
    assert IsLink(a) && IsLink(b);
    assert [a, a, b][..2] == [a, a];
    assert [a, a][..1] == [a];
    assert Links([a]) == [a];
    assert Links([a, a]) == [a, a];
    assert Links([a, a, b]) == [a, a, b];
    var term := SearchTerm("q");
    assert engine(term, FirstParam(0)) == Serp([a, a, b]);
    assert Prefix([a, a, b], 2) == [a, a];
    assert [] + [a, a] == [a, a];
    GatherStep(engine, term, 2, 0, []);
    assert Gather(engine, term, 2, 1, [a, a]) == Gathered([], [a, a], None);
    assert Gather(engine, term, 2, 0, []) == Gathered([1], [a, a], None);
    assert Dedup([a]) == [a];
    assert Dedup([a, a]) == [a];
  }

  /** The links of a prefix of a page are a prefix of the page's links. */
  lemma {:induction false} LinksOfPrefix(hrefs: seq<string>, j: nat)
    requires j <= |hrefs|
    ensures Links(hrefs[..j]) <= Links(hrefs)
    decreases |hrefs| - j
  {
    if j < |hrefs| {
      var init := hrefs[..|hrefs| - 1];
      assert init[..j] == hrefs[..j];
      LinksOfPrefix(init, j);
    } else {
      assert hrefs[..j] == hrefs;
    }
  }

  /** The links of two pieces of a page, one after the other, are the links
      of the whole: the filter keeps page order and every repeat. */
  lemma {:induction false} LinksAppend(a: seq<string>, b: seq<string>)
    ensures Links(a + b) == Links(a) + Links(b)
    decreases |b|
  {
    if b == [] {
      assert a + b == a;
    } else {
      var front := b[..|b| - 1];
      var x := b[|b| - 1];
      assert b == front + [x];
      assert a + b == (a + front) + [x];
      assert (a + b)[..|a + b| - 1] == a + front;
      LinksAppend(a, front);
    }
  }

  /** Extending a page prefix by one heading extends its links by that
      heading when it is a link. */
  lemma LinksSnoc(hrefs: seq<string>, i: nat)
    requires i < |hrefs|
    ensures Links(hrefs[..i + 1]) == Links(hrefs[..i]) + (if IsLink(hrefs[i]) then [hrefs[i]] else [])
  {
    assert hrefs[..i + 1][..i] == hrefs[..i];
  }

  /** Once the links of a page prefix number `n`, they are the page's first `n` links. */
  lemma LinksUpTo(hrefs: seq<string>, j: nat, n: int)
    requires j <= |hrefs| && |Links(hrefs[..j])| == n
    ensures Prefix(Links(hrefs), n) == Links(hrefs[..j])
  {
    LinksOfPrefix(hrefs, j);
    PrefixExact(Links(hrefs[..j]), Links(hrefs), n);
  }

  /** The inner loop of scraper.py:96-102 over one page's result headings:
      it appends each link and breaks as soon as `limit` links are counted.
      It appends exactly the page's first `limit - |urls|` links. */
  method CollectPage(hrefs: seq<string>, urls: seq<string>, limit: int) returns (out: seq<string>)
    requires |urls| < limit
    ensures out == urls + Prefix(Links(hrefs), limit - |urls|)
  {
    out := urls;
    var count := |urls|;
    var i := 0;
    while i < |hrefs|
      invariant 0 <= i <= |hrefs|
      invariant count == |out| < limit
      invariant out == urls + Links(hrefs[..i])
    {
      var href := hrefs[i];
      LinksSnoc(hrefs, i);
      if IsLink(href) {
        out := out + [href];
        count := count + 1;
        if count >= limit {
          LinksUpTo(hrefs, i + 1, limit - |urls|);
          return;
        }
      }
      i := i + 1;
    }
    assert hrefs[..i] == hrefs;
  }

  /** The de-duplication loop of scraper.py:106-111: an element is kept when
      the `seen` set does not hold it yet. */
  method DedupInOrder(urls: seq<string>) returns (deduped: seq<string>)
    ensures deduped == Dedup(urls)
    ensures NoDup(deduped) && (forall u :: u in deduped <==> u in urls)
  {
    var seen: set<string> := {};
    deduped := [];
    var j := 0;
    while j < |urls|
      invariant 0 <= j <= |urls|
      invariant deduped == Dedup(urls[..j])
      invariant forall u :: u in seen <==> u in deduped
    {
      var u := urls[j];
      assert urls[..j + 1] == urls[..j] + [u];
      if u !in seen {
        deduped := deduped + [u];
        seen := seen + {u};
      }
      j := j + 1;
    }
    assert urls[..j] == urls;
  }

  /** One served page, seen from the loop: the loop's running state moves
      that page's offset from what is still to come to what was requested. */
  lemma GatherAdvance(engine: Engine, term: string, limit: int, page: nat, raw: seq<string>, firsts: seq<int>)
    requires |raw| < limit && page < MaxPages && engine(term, FirstParam(page)).Serp?
    ensures var next := raw + Prefix(Links(engine(term, FirstParam(page)).hrefs), limit - |raw|);
      var g := Gather(engine, term, limit, page, raw);
      var rest := Gather(engine, term, limit, page + 1, next);
      && g.raw == rest.raw && g.failure == rest.failure
      && firsts + g.firsts == (firsts + [FirstParam(page)]) + rest.firsts
  {
    GatherStep(engine, term, limit, page, raw);
  }

  /** The page loop of scraper.py:90-104: while fewer than `limit` links
      are counted and fewer than five pages were read, request the next page
      and let `CollectPage` read it. A failed request ends the loop. */
  method GatherLoop(engine: Engine, term: string, limit: int) returns (g: Gathered)
    ensures g == Gather(engine, term, limit, 0, [])
  {
    ghost var whole := Gather(engine, term, limit, 0, []);
    var urls: seq<string> := [];
    var count := 0;
    var page := 0;
    var firsts: seq<int> := [];
    ghost var rest := whole;
    while count < limit && page < MaxPages
      invariant 0 <= page <= MaxPages
      invariant count == |urls|
      invariant rest == Gather(engine, term, limit, page, urls)
      invariant whole.raw == rest.raw && whole.failure == rest.failure
      invariant whole.firsts == firsts + rest.firsts
      decreases MaxPages - page
    {
      var first := page * 10 + 1;
      var resp := engine(term, first);
      assert first == FirstParam(page);
      if resp.SerpFailed? {
        assert rest == Gathered([first], urls, Some(resp.reason));
        return Gathered(firsts + [first], urls, Some(resp.reason));
      }
      GatherAdvance(engine, term, limit, page, urls, firsts);
      urls := CollectPage(resp.hrefs, urls, limit);
      rest := Gather(engine, term, limit, page + 1, urls);
      count := |urls|;
      firsts := firsts + [first];
      page := page + 1;
    }
    assert rest == Gathered([], urls, None);
    g := Gathered(firsts, urls, None);
  }

  /** `bing_site_search` as scraper.py:83-112 writes it: `GatherLoop`, then
      `DedupInOrder` and the final `[:limit]`. It also returns the `first=`
      offsets it requested. It computes exactly `BingSiteSearch`, so
      everything proved about that function holds of it. */
  method SiteSearch(engine: Engine, query: string, limit: int) returns (r: Result<seq<string>, string>, firsts: seq<int>)
    ensures r == BingSiteSearch(engine, query, limit)
    ensures |firsts| <= MaxPages && forall p :: 0 <= p < |firsts| ==> firsts[p] == 10 * p + 1
    ensures r.Success? ==> NoDup(r.value) && (limit >= 0 ==> |r.value| <= limit)
  {
    var g := GatherLoop(engine, SearchTerm(query), limit);
    SearchPages(engine, query, limit);
    firsts := g.firsts;
    if g.failure.Some? {
      return Failure(g.failure.value), firsts;
    }
    var deduped := DedupInOrder(g.raw);
    r := Success(SliceTo(deduped, limit));
    SearchResult(engine, query, limit);
  }
}
