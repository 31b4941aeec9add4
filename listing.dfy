/**
 * The listing extractor, `_extract_business_cards` and
 * `parse_search_results`: one summary record per business link of a
 * search-results page, deduplicated by canonical URL, with a rating looked
 * up a few ancestors above the link.
 */
module Listing {
  import opened Wrappers
  import opened TextUtils
  import opened Dom
  import opened Records

  /** `a[href^='/biz/']`. */
  const BizLink: Selector := LinkHrefPrefix("/biz/")

  /** How many ancestors above a link are searched for its rating. */
  const MaxHops: nat := 4

  // ---------------------------------------------------------------------
  // Canonical URLs
  // ---------------------------------------------------------------------

  /** `s.rstrip("/")`. */
  function RStripSlashes(s: string): (r: string)
    ensures |r| <= |s| && r == s[..|r|]
    ensures r == [] || r[|r| - 1] != '/'
    ensures forall k | |r| <= k < |s| :: s[k] == '/'
  {
    if s != [] && s[|s| - 1] == '/' then RStripSlashes(s[..|s| - 1]) else s
  }

  /** `href.split("?", 1)[0]`: the part of `href` before its first `?`. */
  function BeforeQuery(href: string): (r: string)
    ensures |r| <= |href| && r == href[..|r|]
    ensures '?' !in r
    ensures |r| < |href| ==> href[|r|] == '?'
  {
    if href == [] || href[0] == '?' then []
    else [href[0]] + BeforeQuery(href[1..])
  }

  /** `base_url.rstrip("/") + href.split("?", 1)[0]`. */
  function CanonicalUrl(baseUrl: string, href: string): string {
    RStripSlashes(baseUrl) + BeforeQuery(href)
  }

  // ---------------------------------------------------------------------
  // The record a link stands for
  // ---------------------------------------------------------------------

  /** `link.get("href")`, for a link that `select` returned. */
  function Href(link: Visit): string
    requires Matches(BizLink, link.node)
  {
    link.node.attrs["href"]
  }

  function LinkUrl(baseUrl: string, link: Visit): string
    requires Matches(BizLink, link.node)
  {
    CanonicalUrl(baseUrl, Href(link))
  }

  /** `clean_text(link.get_text(" ", strip=True))`. */
  function LinkName(link: Visit): string {
    CleanedText(link.node)
  }

  /** The first present value of `xs`. */
  function FirstSome<T>(xs: seq<Option<T>>): (r: Option<T>)
    ensures r.None? <==> forall k | 0 <= k < |xs| :: xs[k].None?
    ensures r.Some? ==> r in xs
  {
    if xs == [] then None
    else if xs[0].Some? then xs[0]
    else
      var r := FirstSome(xs[1..]);
      assert forall k | 1 <= k < |xs| :: xs[k] == xs[1..][k - 1];
      r
  }

  /** The rating each scope's star-rating label gives, scope by scope. */
  function Ratings(scopes: seq<Node>): (rs: seq<Option<Decimal>>)
    ensures |rs| == |scopes| && forall k | 0 <= k < |scopes| :: rs[k] == StarRating(scopes[k])
  {
    seq(|scopes|, k requires 0 <= k < |scopes| => StarRating(scopes[k]))
  }

  /** How many ancestors the walk from a link can reach. */
  function NearbyHops(link: Visit): (h: nat)
    ensures h <= |link.ancestors| && h <= MaxHops
    ensures h == MaxHops || h == |link.ancestors|
  {
    if |link.ancestors| < MaxHops then |link.ancestors| else MaxHops
  }

  /** The rating of a link: the first rating found in the subtrees of its
      ancestors 1 to 4, nearest first, stopping early at the document root. */
  function NearbyRating(link: Visit): Option<Decimal> {
    FirstSome(Ratings(link.ancestors)[..NearbyHops(link)])
  }

  predicate AllLinks(links: seq<Visit>) {
    forall k | 0 <= k < |links| :: Matches(BizLink, links[k].node)
  }

  /** The summary record built for a link. */
  function Card(baseUrl: string, link: Visit): Business
    requires Matches(BizLink, link.node)
  {
    Business(Some(LinkName(link)), None, None, NearbyRating(link), None, Some(LinkUrl(baseUrl, link)))
  }

  /** The card of every link, in document order. */
  function Cards(baseUrl: string, links: seq<Visit>): (cs: seq<Business>)
    requires AllLinks(links)
    ensures |cs| == |links| && forall k | 0 <= k < |links| :: cs[k] == Card(baseUrl, links[k])
  {
    seq(|links|, k requires 0 <= k < |links| => Card(baseUrl, links[k]))
  }

  function UrlsOf(rs: seq<Business>): set<string> {
    set k | 0 <= k < |rs| && rs[k].url.Some? :: rs[k].url.value
  }

  /** A card whose name cleaned to the empty string. */
  predicate Unnamed(c: Business) {
    c.businessName == Some("")
  }

  /** A card the scan skips: its URL is already among the records kept so
      far, or it has no name. */
  predicate Skipped(kept: seq<Business>, c: Business) {
    (c.url.Some? && c.url.value in UrlsOf(kept)) || Unnamed(c)
  }

  /** The records the scan keeps from the cards, in order, before any cut at
      `max_results`. */
  function Dedup(cs: seq<Business>): seq<Business>
    decreases |cs|
  {
    if cs == [] then []
    else
      var prev := Dedup(cs[..|cs| - 1]);
      var c := cs[|cs| - 1];
      if Skipped(prev, c) then prev else prev + [c]
  }

  /** The records the scan of `links` appends. */
  function Emitted(baseUrl: string, links: seq<Visit>): seq<Business>
    requires AllLinks(links)
  {
    Dedup(Cards(baseUrl, links))
  }

  /** How many records the scan can hold: the length check follows the
      append, so a limit below 1 still lets one record through. */
  function Cap(maxResults: int): nat {
    if maxResults >= 1 then maxResults else 1
  }

  function Take<T>(s: seq<T>, n: nat): (r: seq<T>)
    ensures |r| == if |s| < n then |s| else n
    ensures r == s[..|r|]
  {
    if |s| <= n then s else s[..n]
  }

  // ---------------------------------------------------------------------
  // The extractor
  // ---------------------------------------------------------------------

  /** The ancestor walk of `_extract_business_cards`: up to four hops from
      the link, stopping when the parent is `None` or a rating was read. */
  method FindNearbyRating(link: Visit) returns (ratingValue: Option<Decimal>)
    ensures ratingValue == NearbyRating(link)
  {
    ghost var rs := Ratings(link.ancestors);
    ghost var h := NearbyHops(link);
    ratingValue := None;
    var hop := 0;
    while hop < MaxHops
      invariant hop <= h
      invariant ratingValue.None? && FirstSome(rs[..hop]).None?
    {
      if hop == |link.ancestors| {
        assert hop == h;
        break;
      }
      var current := link.ancestors[hop];
      ratingValue := StarRating(current);
      if ratingValue.Some? {
        FoundAt(rs, h, hop);
        break;
      }
      FirstSomeSnoc(rs, hop);
      hop := hop + 1;
    }
    if ratingValue.None? {
      assert hop == h;
      assert FirstSome(rs[..hop]).None?;
    }
  }

  lemma {:induction false} FirstSomeAppend<T>(xs: seq<Option<T>>, x: Option<T>)
    ensures FirstSome(xs + [x]) == if FirstSome(xs).Some? then FirstSome(xs) else x
  {
    if xs == [] {
      assert (xs + [x])[1..] == [];
    } else {
      assert (xs + [x])[1..] == xs[1..] + [x];
      FirstSomeAppend(xs[1..], x);
    }
  }

  lemma FirstSomeSnoc<T>(xs: seq<Option<T>>, n: nat)
    requires n < |xs|
    ensures FirstSome(xs[..n + 1]) == if FirstSome(xs[..n]).Some? then FirstSome(xs[..n]) else xs[n]
  {
    assert xs[..n + 1] == xs[..n] + [xs[n]];
    FirstSomeAppend(xs[..n], xs[n]);
  }

  /** The first present value is the one at `n` when none comes before. */
  lemma FoundAt<T>(xs: seq<Option<T>>, h: nat, n: nat)
    requires n < h <= |xs| && FirstSome(xs[..n]).None? && xs[n].Some?
    ensures FirstSome(xs[..h]) == xs[n]
  {
    FirstSomeSnoc(xs, n);
    assert xs[..h][..n + 1] == xs[..n + 1];
    FoundStays(xs[..h], n + 1);
  }

  /** Once a value is found, later entries are not looked at. */
  lemma {:induction false} FoundStays<T>(xs: seq<Option<T>>, n: nat)
    requires n <= |xs| && FirstSome(xs[..n]).Some?
    ensures FirstSome(xs) == FirstSome(xs[..n])
  {
    assert n > 0;
    if xs[0].None? {
      assert xs[..n][1..] == xs[1..][..n - 1];
      FoundStays(xs[1..], n - 1);
    }
  }

  /** `_extract_business_cards(soup, base_url, max_results)`: the records of
      the scan, cut to what the length check lets through. */
  method ExtractBusinessCards(soup: Node, baseUrl: string, maxResults: int) returns (results: seq<Business>)
    ensures results == Take(Emitted(baseUrl, Select(soup, BizLink)), Cap(maxResults))
  {
    var links := Select(soup, BizLink);
    results := ScanLinks(baseUrl, links, maxResults);
  }

  /** The loop of `_extract_business_cards` over the selected links. */
  method ScanLinks(baseUrl: string, links: seq<Visit>, maxResults: int) returns (results: seq<Business>)
    requires AllLinks(links)
    ensures results == Take(Emitted(baseUrl, links), Cap(maxResults))
  {
    ghost var cs := Cards(baseUrl, links);
    var seenUrls: set<string> := {};
    results := [];
    var i := 0;
    while i < |links|
      invariant i <= |links|
      invariant results == Dedup(cs[..i])
      invariant seenUrls == UrlsOf(results)
      invariant |results| < Cap(maxResults)
    {
      DedupNext(cs, i);
      var card := ScanLink(baseUrl, links[i], seenUrls);
      assert cs[i] == Card(baseUrl, links[i]);
      assert card.None? <==> Skipped(results, cs[i]);
      if card.None? {
        i := i + 1;
        continue;
      }
      var result := card.value;
      seenUrls := seenUrls + {result.url.value};
      UrlsOfSnoc(results, result);
      results := results + [result];
      if |results| >= maxResults {
        assert |results| == Cap(maxResults);
        DedupCut(cs, i + 1, Cap(maxResults));
        return;
      }
      i := i + 1;
    }
    assert cs[..i] == cs;
  }

  /** The body of the scan for one link: nothing when its URL was seen
      already or it has no name, and otherwise its card, whose rating is
      looked up only then. */
  method ScanLink(baseUrl: string, link: Visit, seenUrls: set<string>) returns (card: Option<Business>)
    requires Matches(BizLink, link.node)
    ensures card.None? <==> (LinkUrl(baseUrl, link) in seenUrls || LinkName(link) == "")
    ensures card.Some? ==> card.value == Card(baseUrl, link)
  {
    var href := BeforeQuery(link.node.attrs["href"]);
    var fullUrl := RStripSlashes(baseUrl) + href;
    if fullUrl in seenUrls {
      return None;
    }
    var name := CleanedText(link.node);
    if name == "" {
      return None;
    }
    var ratingValue := FindNearbyRating(link);
    return Some(Business(Some(name), None, None, ratingValue, None, Some(fullUrl)));
  }

  /** Once the records of a prefix reach the limit, they are the cut of all
      the records. */
  lemma DedupCut(cs: seq<Business>, n: nat, limit: nat)
    requires n <= |cs| && |Dedup(cs[..n])| == limit
    ensures Take(Dedup(cs), limit) == Dedup(cs[..n])
  {
    DedupPrefix(cs, n);
  }

  lemma DedupNext(cs: seq<Business>, i: nat)
    requires i < |cs|
    ensures Dedup(cs[..i + 1]) == if Skipped(Dedup(cs[..i]), cs[i]) then Dedup(cs[..i]) else Dedup(cs[..i]) + [cs[i]]
  {
    assert cs[..i + 1][..i] == cs[..i];
  }

  lemma UrlsOfSnoc(rs: seq<Business>, r: Business)
    requires r.url.Some?
    ensures UrlsOf(rs + [r]) == UrlsOf(rs) + {r.url.value}
  {
    var t := rs + [r];
    assert forall k | 0 <= k < |rs| :: t[k] == rs[k];
    assert t[|rs|] == r;
  }

  /** One more card appends at most one record. */
  lemma DedupStep(cs: seq<Business>)
    requires cs != []
    ensures var prev := Dedup(cs[..|cs| - 1]);
      |prev| <= |Dedup(cs)| && prev == Dedup(cs)[..|prev|]
  {
  }

  /** The records of a prefix of the cards are a prefix of the records. */
  lemma {:induction false} DedupPrefix(cs: seq<Business>, n: nat)
    requires n <= |cs|
    ensures |Dedup(cs[..n])| <= |Dedup(cs)|
    ensures Dedup(cs[..n]) == Dedup(cs)[..|Dedup(cs[..n])|]
    decreases |cs|
  {
    if n == |cs| {
      assert cs[..n] == cs;
    } else {
      var init := cs[..|cs| - 1];
      assert init[..n] == cs[..n];
      DedupPrefix(init, n);
      DedupStep(cs);
    }
  }

  // ---------------------------------------------------------------------
  // What the scan keeps
  // ---------------------------------------------------------------------

  predicate AllHaveUrls(cs: seq<Business>) {
    forall k | 0 <= k < |cs| :: cs[k].url.Some?
  }

  /** Card `k` has a name and no earlier card with a name has its URL. */
  predicate FirstOfItsUrl(cs: seq<Business>, k: int) {
    0 <= k < |cs| && !Unnamed(cs[k]) &&
    forall j | 0 <= j < k :: !Unnamed(cs[j]) ==> cs[j].url != cs[k].url
  }

  predicate DistinctUrls(rs: seq<Business>) {
    forall j, k | 0 <= j < k < |rs| :: rs[j].url != rs[k].url
  }

  lemma {:induction false} DedupSubset(cs: seq<Business>)
    ensures forall r | r in Dedup(cs) :: r in cs
    decreases |cs|
  {
    if cs != [] {
      DedupSubset(cs[..|cs| - 1]);
    }
  }

  /** No two records share a URL. */
  lemma {:induction false} DedupDistinct(cs: seq<Business>)
    requires AllHaveUrls(cs)
    ensures DistinctUrls(Dedup(cs))
    decreases |cs|
  {
    if cs != [] {
      var init := cs[..|cs| - 1];
      var prev := Dedup(init);
      DedupDistinct(init);
      DedupSubset(init);
      var c := cs[|cs| - 1];
      if !Skipped(prev, c) {
        var rs := prev + [c];
        forall j | 0 <= j < |prev| ensures rs[j].url != rs[|prev|].url {
          assert prev[j] in init;
          assert prev[j].url.value in UrlsOf(prev);
        }
      }
    }
  }

  /** The URL of every card with a name is among the records. */
  lemma {:induction false} DedupCoversNamed(cs: seq<Business>, k: nat)
    requires AllHaveUrls(cs) && k < |cs| && !Unnamed(cs[k])
    ensures cs[k].url.value in UrlsOf(Dedup(cs))
    decreases |cs|
  {
    var n := |cs| - 1;
    var init := cs[..n];
    var prev := Dedup(init);
    UrlsGrow(cs);
    if k < n {
      assert init[k] == cs[k];
      DedupCoversNamed(init, k);
    } else if cs[k].url.value !in UrlsOf(prev) {
      var rs := Dedup(cs);
      assert rs == prev + [cs[k]];
      assert rs[|prev|] == cs[k];
    }
  }

  lemma UrlsGrow(cs: seq<Business>)
    requires cs != []
    ensures UrlsOf(Dedup(cs[..|cs| - 1])) <= UrlsOf(Dedup(cs))
  {
    var prev := Dedup(cs[..|cs| - 1]);
    var rs := Dedup(cs);
    DedupStep(cs);
    forall u | u in UrlsOf(prev) ensures u in UrlsOf(rs) {
      var k :| 0 <= k < |prev| && prev[k].url.Some? && prev[k].url.value == u;
      assert rs[k] == prev[k];
    }
  }

  /** Every record is a card that is the first with its URL among the cards
      with a name. */
  lemma {:induction false} DedupFromFirsts(cs: seq<Business>)
    requires AllHaveUrls(cs)
    ensures forall r | r in Dedup(cs) :: exists k | 0 <= k < |cs| :: FirstOfItsUrl(cs, k) && r == cs[k]
    decreases |cs|
  {
    if cs != [] {
      var n := |cs| - 1;
      var init := cs[..n];
      var prev := Dedup(init);
      DedupFromFirsts(init);
      forall r | r in prev
        ensures exists k | 0 <= k < |cs| :: FirstOfItsUrl(cs, k) && r == cs[k]
      {
        var k :| 0 <= k < |init| && FirstOfItsUrl(init, k) && r == init[k];
        FirstOfItsUrlExtends(cs, k);
      }
      if !Skipped(prev, cs[n]) {
        LastIsFirstOfItsUrl(cs);
      }
    }
  }

  /** Being first with its URL does not depend on the cards after. */
  lemma FirstOfItsUrlExtends(cs: seq<Business>, k: nat)
    requires cs != [] && FirstOfItsUrl(cs[..|cs| - 1], k)
    ensures FirstOfItsUrl(cs, k) && cs[k] == cs[..|cs| - 1][k]
  {
    var init := cs[..|cs| - 1];
    assert forall j | 0 <= j <= k :: cs[j] == init[j];
  }

  /** A last card the scan keeps is the first with its URL. */
  lemma LastIsFirstOfItsUrl(cs: seq<Business>)
    requires AllHaveUrls(cs) && cs != []
    requires !Skipped(Dedup(cs[..|cs| - 1]), cs[|cs| - 1])
    ensures FirstOfItsUrl(cs, |cs| - 1)
  {
    var n := |cs| - 1;
    var init := cs[..n];
    forall j | 0 <= j < n && !Unnamed(cs[j]) ensures cs[j].url != cs[n].url {
      assert cs[j] == init[j];
      DedupCoversNamed(init, j);
    }
  }

  /** Every card that is the first with its URL is kept. */
  lemma DedupCoversFirsts(cs: seq<Business>, k: nat)
    requires AllHaveUrls(cs) && FirstOfItsUrl(cs, k)
    ensures cs[k] in Dedup(cs)
  {
    var rs := Dedup(cs);
    DedupCoversNamed(cs, k);
    var i :| 0 <= i < |rs| && rs[i].url.Some? && rs[i].url.value == cs[k].url.value;
    DedupFromFirsts(cs);
    assert rs[i] in rs;
    var k' :| 0 <= k' < |cs| && FirstOfItsUrl(cs, k') && rs[i] == cs[k'];
    assert k' == k;
  }

  /** A card is kept exactly when it is the first with its URL among the
      cards with a name; the records have distinct URLs. */
  lemma EmittedSpec(baseUrl: string, links: seq<Visit>)
    requires AllLinks(links)
    ensures DistinctUrls(Emitted(baseUrl, links))
    ensures forall k | 0 <= k < |links| ::
      FirstOfItsUrl(Cards(baseUrl, links), k) ==> Card(baseUrl, links[k]) in Emitted(baseUrl, links)
    ensures forall r | r in Emitted(baseUrl, links) ::
      exists k | 0 <= k < |links| :: FirstOfItsUrl(Cards(baseUrl, links), k) && r == Card(baseUrl, links[k])
  {
    var cs := Cards(baseUrl, links);
    DedupDistinct(cs);
    DedupFromFirsts(cs);
    forall k | 0 <= k < |links| && FirstOfItsUrl(cs, k) ensures cs[k] in Dedup(cs) {
      DedupCoversFirsts(cs, k);
    }
  }

  /** A card has a clean name that is empty exactly when the link shows no
      text, the link's canonical URL, the rating found near the link, and no
      detail fields. */
  lemma CardShape(baseUrl: string, link: Visit)
    requires Matches(BizLink, link.node)
    ensures var c := Card(baseUrl, link);
      c.businessName.Some? && IsClean(c.businessName.value) &&
      (Unnamed(c) <==> forall m | m in Descendants(link.node) :: Blank(m)) &&
      c.address.None? && c.phoneNumber.None? && c.reviewText.None? &&
      c.url == Some(RStripSlashes(baseUrl) + BeforeQuery(link.node.attrs["href"])) &&
      c.rating == NearbyRating(link)
  {
    CleanedTextEmptyIff(link.node);
  }

  /** The query string of a link does not change its canonical URL. */
  lemma {:induction false} QueryIgnored(baseUrl: string, path: string, query: string)
    requires '?' !in path
    ensures CanonicalUrl(baseUrl, path + "?" + query) == CanonicalUrl(baseUrl, path)
  {
    if path != [] {
      assert (path + "?" + query)[1..] == path[1..] + "?" + query;
      QueryIgnored(baseUrl, path[1..], query);
    }
  }

  /** Stripping trailing slashes twice strips nothing more. */
  lemma RStripSlashesIdempotent(s: string)
    ensures RStripSlashes(RStripSlashes(s)) == RStripSlashes(s)
  {
  }

  /** `parse_search_results(html, base_url, max_results)` on the parsed
      page: at most `Cap(max_results)` records, with distinct URLs, every one
      a card of a link on the page that has a name. */
  method ParseSearchResults(soup: Node, baseUrl: string, maxResults: int) returns (businesses: seq<Business>)
    ensures businesses == Take(Emitted(baseUrl, Select(soup, BizLink)), Cap(maxResults))
    ensures |businesses| <= Cap(maxResults) && DistinctUrls(businesses)
    ensures forall r | r in businesses :: !Unnamed(r) && r in Cards(baseUrl, Select(soup, BizLink))
  {
    businesses := ExtractBusinessCards(soup, baseUrl, maxResults);
    ghost var links := Select(soup, BizLink);
    CardsHaveUrls(baseUrl, links);
    KeptCardsSpec(Cards(baseUrl, links), Cap(maxResults));
  }

  lemma CardsHaveUrls(baseUrl: string, links: seq<Visit>)
    requires AllLinks(links)
    ensures AllHaveUrls(Cards(baseUrl, links))
  {
  }

  /** The first `limit` records: no more than `limit`, distinct URLs, each a
      card with a name. */
  lemma KeptCardsSpec(cs: seq<Business>, limit: nat)
    requires AllHaveUrls(cs)
    ensures |Take(Dedup(cs), limit)| <= limit && DistinctUrls(Take(Dedup(cs), limit))
    ensures forall r | r in Take(Dedup(cs), limit) :: !Unnamed(r) && r in cs
  {
    var rs := Dedup(cs);
    DedupDistinct(cs);
    DedupFromFirsts(cs);
    var t := Take(rs, limit);
    assert forall r | r in t :: r in rs;
  }
}
