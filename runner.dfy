/**
 * The runner: reading the input lines, telling page URLs from search
 * queries, enriching search results with their detail pages under a request
 * budget, collecting every record and capping the total.
 *
 * Fetching a page and parsing HTML are not part of the model: `fetch` is
 * any function from a URL to the page's HTML or `None` (`fetch_html`), and
 * `parse` any function from HTML to the document tree (`BeautifulSoup`).
 */
module Runner {
  import opened Wrappers
  import opened TextUtils
  import opened Dom
  import opened Values
  import opened Records
  import opened Listing
  import opened Detail
  import opened Exporters

  // ---------------------------------------------------------------------
  // Input lines
  // ---------------------------------------------------------------------

  /** A stripped line that `load_inputs` keeps: not blank, not a comment. */
  predicate KeptLine(line: string) {
    line != "" && line[0] != '#'
  }

  /** The entries `load_inputs` reads from the lines of the input file. */
  function KeptLines(lines: seq<string>): seq<string> {
    if lines == [] then []
    else
      var line := Strip(lines[|lines| - 1]);
      KeptLines(lines[..|lines| - 1]) + (if KeptLine(line) then [line] else [])
  }

  method LoadInputs(lines: seq<string>) returns (queries: seq<string>)
    ensures queries == KeptLines(lines)
  {
    queries := [];
    for i := 0 to |lines|
      invariant queries == KeptLines(lines[..i])
    {
      assert lines[..i + 1][..i] == lines[..i];
      var line := Strip(lines[i]);
      if line == "" || line[0] == '#' {
        continue;
      }
      queries := queries + [line];
    }
    assert lines[..|lines|] == lines;
  }

  /** The filter keeps the order of the lines: the entries of two stretches
      of the file are the entries of the first, then those of the second. */
  lemma {:induction false} KeptLinesConcat(a: seq<string>, b: seq<string>)
    ensures KeptLines(a + b) == KeptLines(a) + KeptLines(b)
  {
    if b == [] {
      assert a + b == a;
    } else {
      assert (a + b)[..|a + b| - 1] == a + b[..|b| - 1];
      assert (a + b)[|a + b| - 1] == b[|b| - 1];
      KeptLinesConcat(a, b[..|b| - 1]);
    }
  }

  /** An entry is kept exactly when it is some line, stripped, that is
      neither blank nor a comment. */
  lemma {:induction false} KeptLinesSpec(lines: seq<string>, q: string)
    ensures q in KeptLines(lines) <==> KeptLine(q) && exists l | l in lines :: Strip(l) == q
  {
    if lines != [] {
      var init := lines[..|lines| - 1];
      var last := lines[|lines| - 1];
      KeptLinesSpec(init, q);
      assert forall l | l in lines :: l in init || l == last;
      assert forall l | l in init :: l in lines;
    }
  }

  /** Every entry is already stripped and starts with neither whitespace nor
      `#`. */
  lemma KeptLinesStripped(lines: seq<string>, q: string)
    requires q in KeptLines(lines)
    ensures Strip(q) == q && KeptLine(q) && !IsSpace(q[0])
  {
    KeptLinesSpec(lines, q);
    var l :| l in lines && Strip(l) == q;
    StripStripped(q);
  }

  lemma StripStripped(s: string)
    requires s == [] || (!IsSpace(s[0]) && !IsSpace(s[|s| - 1]))
    ensures Strip(s) == s
  {
  }

  // ---------------------------------------------------------------------
  // Page URLs and search queries
  // ---------------------------------------------------------------------

  /** What `run_scraper` does with one entry. */
  datatype Input = Skipped | PageUrl(url: string) | Query(text: string)

  function Classify(raw: string): Input {
    var r := Strip(raw);
    if r == "" then Skipped
    else if "http://" <= r || "https://" <= r then PageUrl(r)
    else Query(r)
  }

  /** An entry is skipped exactly when it is blank, a page URL exactly when
      it starts with `http://` or `https://`, and a query otherwise; either
      way it is carried stripped. An entry `load_inputs` kept is never skipped
      and is carried as it is. */
  lemma ClassifySpec(raw: string)
    ensures Classify(raw).Skipped? <==> AllSpace(raw)
    ensures Classify(raw).PageUrl? <==> !AllSpace(raw) && ("http://" <= Strip(raw) || "https://" <= Strip(raw))
    ensures Classify(raw).PageUrl? ==> Classify(raw).url == Strip(raw)
    ensures Classify(raw).Query? ==> Classify(raw).text == Strip(raw)
  {
    StripEmptyIff(raw);
  }

  lemma LoadedNeverSkipped(lines: seq<string>, q: string)
    requires q in KeptLines(lines)
    ensures !Classify(q).Skipped?
    ensures Classify(q) == PageUrl(q) || Classify(q) == Query(q)
  {
    KeptLinesStripped(lines, q);
  }

  // ---------------------------------------------------------------------
  // The global cap
  // ---------------------------------------------------------------------

  /** `all_results[:max_results]` when `max_results` is given, with Python's
      slice rule for a negative bound: it drops that many from the end. */
  function Truncate<T>(xs: seq<T>, maxResults: Option<int>): seq<T> {
    match maxResults
    case None => xs
    case Some(m) =>
      if m >= |xs| then xs
      else if m >= 0 then xs[..m]
      else if |xs| + m >= 0 then xs[..|xs| + m]
      else []
  }

  /** The result is a prefix of the records: all of them with no cap, the
      first `m` (or all, if fewer) for a cap `m >= 0`, and all but the last
      `-m` for a negative cap. */
  lemma TruncateSpec<T>(xs: seq<T>, maxResults: Option<int>)
    ensures Truncate(xs, maxResults) <= xs
    ensures maxResults.None? ==> Truncate(xs, maxResults) == xs
    ensures maxResults.Some? && maxResults.value >= 0 ==>
      |Truncate(xs, maxResults)| == if maxResults.value < |xs| then maxResults.value else |xs|
    ensures maxResults.Some? && maxResults.value < 0 ==>
      |Truncate(xs, maxResults)| == if |xs| + maxResults.value > 0 then |xs| + maxResults.value else 0
  {
  }

  // ---------------------------------------------------------------------
  // Enrichment
  // ---------------------------------------------------------------------

  /** `url = biz.get("url")` when it is a string that is not empty. */
  function UrlOf(biz: Entries): Option<string> {
    match Get(biz, KStr("url"))
    case Some(Str(u)) => if u != "" then Some(u) else None
    case _ => None
  }

  /** `fetch_html` returned a page: neither `None` nor `""`. */
  predicate Fetched(html: Option<string>) {
    html.Some? && html.value != ""
  }

  /** `parse_business_page(html, url=url)`. */
  function DetailsOf(parse: string -> Node, html: string, url: string): Entries {
    ToDict(BusinessPage(parse(html), Some(url))).entries
  }

  /** `parse_business_page` as a function of the page and its URL. */
  function PageDetails(parse: string -> Node): (string, string) -> Entries {
    (html, url) => DetailsOf(parse, html, url)
  }

  /** The records `enrich_businesses_with_details` returns and its counter,
      for the records processed so far; `details` parses a fetched page. */
  function Enrichment(details: (string, string) -> Entries, fetch: string -> Option<string>, budget: int, bs: seq<Entries>):
    (r: (seq<Entries>, nat))
    ensures |r.0| == |bs|
  {
    if bs == [] then ([], 0)
    else
      var prev := Enrichment(details, fetch, budget, bs[..|bs| - 1]);
      var biz := bs[|bs| - 1];
      var url := UrlOf(biz);
      if url.None? || prev.1 >= budget then (prev.0 + [biz], prev.1)
      else
        var html := fetch(url.value);
        if !Fetched(html) then (prev.0 + [biz], prev.1)
        else (prev.0 + [Merge(biz, details(html.value, url.value))], prev.1 + 1)
  }

  method EnrichBusinessesWithDetails(
    details: (string, string) -> Entries, fetch: string -> Option<string>, businesses: seq<Entries>,
    maxDetailRequests: int)
    returns (enriched: seq<Entries>)
    ensures enriched == Enrichment(details, fetch, maxDetailRequests, businesses).0
  {
    enriched := [];
    var detailCount: nat := 0;
    for i := 0 to |businesses|
      invariant (enriched, detailCount) == Enrichment(details, fetch, maxDetailRequests, businesses[..i])
    {
      assert businesses[..i + 1][..i] == businesses[..i];
      var biz := businesses[i];
      var url := UrlOf(biz);
      if url.None? || detailCount >= maxDetailRequests {
        enriched := enriched + [biz];
        continue;
      }
      var html := fetch(url.value);
      if html.None? || html.value == "" {
        enriched := enriched + [biz];
        continue;
      }
      var merged := Merge(biz, details(html.value, url.value));
      enriched := enriched + [merged];
      detailCount := detailCount + 1;
    }
    assert businesses[..|businesses|] == businesses;
  }

  /** Record `i` is merged with its details exactly when it has a URL, the
      budget was not used up by the records before it, and its page was
      fetched. */
  predicate MergesAt(details: (string, string) -> Entries, fetch: string -> Option<string>, budget: int, bs: seq<Entries>, i: nat)
    requires i < |bs|
  {
    UrlOf(bs[i]).Some? && Enrichment(details, fetch, budget, bs[..i]).1 < budget && Fetched(fetch(UrlOf(bs[i]).value))
  }

  lemma {:induction false} EnrichmentPrefix(details: (string, string) -> Entries, fetch: string -> Option<string>, budget: int, bs: seq<Entries>, n: nat)
    requires n <= |bs|
    ensures Enrichment(details, fetch, budget, bs).0[..n] == Enrichment(details, fetch, budget, bs[..n]).0
    decreases |bs|
  {
    if n < |bs| {
      var init := bs[..|bs| - 1];
      assert init[..n] == bs[..n];
      EnrichmentPrefix(details, fetch, budget, init, n);
      assert Enrichment(details, fetch, budget, bs).0[..n] == Enrichment(details, fetch, budget, init).0[..n];
    } else {
      assert bs[..n] == bs;
    }
  }

  /** The list has the input's length, and element `i` is record `i`, merged
      with the details of its page when `MergesAt`, unchanged otherwise. */
  lemma EnrichmentAt(details: (string, string) -> Entries, fetch: string -> Option<string>, budget: int, bs: seq<Entries>, i: nat)
    requires i < |bs|
    ensures |Enrichment(details, fetch, budget, bs).0| == |bs|
    ensures Enrichment(details, fetch, budget, bs).0[i] ==
      if MergesAt(details, fetch, budget, bs, i)
      then Merge(bs[i], details(fetch(UrlOf(bs[i]).value).value, UrlOf(bs[i]).value))
      else bs[i]
  {
    EnrichmentPrefix(details, fetch, budget, bs, i + 1);
    assert bs[..i + 1][..i] == bs[..i];
    assert Enrichment(details, fetch, budget, bs).0[i] == Enrichment(details, fetch, budget, bs).0[..i + 1][i];
  }

  /** The number of records merged. */
  function MergedCount(details: (string, string) -> Entries, fetch: string -> Option<string>, budget: int, bs: seq<Entries>): nat {
    if bs == [] then 0
    else
      var here := if MergesAt(details, fetch, budget, bs, |bs| - 1) then 1 else 0;
      MergedCount(details, fetch, budget, bs[..|bs| - 1]) + here
  }

  /** The counter is the number of merged records, and never exceeds the
      budget (or 0 when the budget is negative). */
  lemma {:induction false} EnrichmentCount(details: (string, string) -> Entries, fetch: string -> Option<string>, budget: int, bs: seq<Entries>)
    ensures Enrichment(details, fetch, budget, bs).1 == MergedCount(details, fetch, budget, bs)
    ensures Enrichment(details, fetch, budget, bs).1 <= if budget < 0 then 0 else budget
  {
    if bs != [] {
      EnrichmentCount(details, fetch, budget, bs[..|bs| - 1]);
    }
  }

  /** The counter never goes down as more records are processed. */
  lemma {:induction false} CountGrows(details: (string, string) -> Entries, fetch: string -> Option<string>, budget: int, bs: seq<Entries>, n: nat)
    requires n <= |bs|
    ensures Enrichment(details, fetch, budget, bs[..n]).1 <= Enrichment(details, fetch, budget, bs).1
    decreases |bs|
  {
    if n < |bs| {
      var init := bs[..|bs| - 1];
      assert init[..n] == bs[..n];
      CountGrows(details, fetch, budget, init, n);
    } else {
      assert bs[..n] == bs;
    }
  }

  /** Once the budget is reached, every later record passes through as it
      is, without a fetch. */
  lemma BudgetExhausted(details: (string, string) -> Entries, fetch: string -> Option<string>, budget: int, bs: seq<Entries>, k: nat, i: nat)
    requires k <= i < |bs| && Enrichment(details, fetch, budget, bs[..k]).1 >= budget
    ensures !MergesAt(details, fetch, budget, bs, i)
    ensures Enrichment(details, fetch, budget, bs).0[i] == bs[i]
  {
    assert bs[..i][..k] == bs[..k];
    CountGrows(details, fetch, budget, bs[..i], k);
    EnrichmentAt(details, fetch, budget, bs, i);
  }

  /** The number of fetches made: one per record with a URL met while the
      counter was below the budget, whether the fetch returned a page or
      not. */
  function Attempts(details: (string, string) -> Entries, fetch: string -> Option<string>, budget: int, bs: seq<Entries>): nat {
    if bs == [] then 0
    else
      var init := bs[..|bs| - 1];
      var here := if UrlOf(bs[|bs| - 1]).Some? && Enrichment(details, fetch, budget, init).1 < budget then 1 else 0;
      Attempts(details, fetch, budget, init) + here
  }

  /** Every merge took a fetch. */
  lemma {:induction false} CountAtMostAttempts(details: (string, string) -> Entries, fetch: string -> Option<string>, budget: int, bs: seq<Entries>)
    ensures Enrichment(details, fetch, budget, bs).1 <= Attempts(details, fetch, budget, bs)
  {
    if bs != [] {
      CountAtMostAttempts(details, fetch, budget, bs[..|bs| - 1]);
    }
  }

  /** Only pages that came back count against the budget: with a budget of
      one and fetches that fail, both records with a URL are fetched and
      neither is merged. */
  lemma AttemptsExceedBudget(details: (string, string) -> Entries, fetch: string -> Option<string>, a: Entries, b: Entries)
    requires forall u :: !Fetched(fetch(u))
    requires UrlOf(a).Some? && UrlOf(b).Some?
    ensures Attempts(details, fetch, 1, [a, b]) == 2
    ensures Enrichment(details, fetch, 1, [a, b]) == ([a, b], 0)
  {
    assert [a, b][..1] == [a] && [a][..0] == [];
    assert !Fetched(fetch(UrlOf(a).value)) && !Fetched(fetch(UrlOf(b).value));
    assert Enrichment(details, fetch, 1, []) == ([], 0);
    assert [] + [a] == [a] && [a] + [b] == [a, b];
    assert Enrichment(details, fetch, 1, [a]) == ([a], 0);
    assert Attempts(details, fetch, 1, [a]) == 1;
  }

  /** A merged record has the page's value for every key, `None` included:
      merging the dictionary of a search result with a detail dictionary
      gives the detail dictionary. */
  lemma MergeBusinessDicts(summary: Business, details: Business)
    ensures Merge(ToDict(summary).entries, ToDict(details).entries) == ToDict(details).entries
  {
    ToDictKeysDistinct(summary);
    MergeSameKeys(ToDict(summary).entries, ToDict(details).entries);
  }

  /** A merged record's URL is the URL its page was fetched from. */
  lemma MergedUrl(parse: string -> Node, biz: Entries, html: string, url: string)
    ensures Get(Merge(biz, PageDetails(parse)(html, url)), KStr("url")) == Some(Str(url))
  {
    var d := DetailsOf(parse, html, url);
    PutAllConcat([], biz, d);
    LastValueAt(d, 5);
    GetPutAll(DictOf(biz), d, KStr("url"));
  }

  // ---------------------------------------------------------------------
  // The whole run
  // ---------------------------------------------------------------------

  /** The settings `run_scraper` reads, and the search-URL builder, which
      holds the base URL, the search path and the location. */
  datatype Settings = Settings(
    baseUrl: string,
    maxResultsPerQuery: int,
    maxDetailRequestsPerQuery: int,
    searchUrl: string -> string)

  /** What `parse_search_results` keeps of a results page. */
  function SearchCards(soup: Node, baseUrl: string, maxResults: int): seq<Business> {
    Take(Emitted(baseUrl, Select(soup, BizLink)), Cap(maxResults))
  }

  function Dicts(bs: seq<Business>): (rs: seq<Entries>)
    ensures |rs| == |bs|
  {
    seq(|bs|, k requires 0 <= k < |bs| => ToDict(bs[k]).entries)
  }

  /** `parse_search_results(html, base_url=..., max_results=...)`. */
  function SearchResults(parse: string -> Node, s: Settings): string -> seq<Entries> {
    html => Dicts(SearchCards(parse(html), s.baseUrl, s.maxResultsPerQuery))
  }

  /** The records one entry contributes, given how pages and result lists
      are parsed. */
  function RecordsOf(
    page: (string, string) -> Entries, search: string -> seq<Entries>, fetch: string -> Option<string>,
    s: Settings, raw: string): seq<Entries>
  {
    InputRecords(page, search, fetch, s, Classify(raw))
  }

  /** The records of a classified entry. */
  function InputRecords(
    page: (string, string) -> Entries, search: string -> seq<Entries>, fetch: string -> Option<string>,
    s: Settings, c: Input): seq<Entries>
  {
    match c
    case Skipped => []
    case PageUrl(url) => PageRecords(page, fetch, url)
    case Query(q) => QueryRecords(page, search, fetch, s, q)
  }

  /** A page URL gives its page's record, or nothing when the fetch fails. */
  function PageRecords(page: (string, string) -> Entries, fetch: string -> Option<string>, url: string): seq<Entries> {
    var html := fetch(url);
    if !Fetched(html) then [] else [page(html.value, url)]
  }

  /** A query gives its enriched results, or nothing when the fetch fails. */
  function QueryRecords(
    page: (string, string) -> Entries, search: string -> seq<Entries>, fetch: string -> Option<string>,
    s: Settings, q: string): seq<Entries>
  {
    var html := fetch(s.searchUrl(q));
    if !Fetched(html) then []
    else Enrichment(page, fetch, s.maxDetailRequestsPerQuery, search(html.value)).0
  }

  /** `all_results` after the entries processed so far. */
  function Collected(
    page: (string, string) -> Entries, search: string -> seq<Entries>, fetch: string -> Option<string>,
    s: Settings, queries: seq<string>): seq<Entries>
  {
    if queries == [] then []
    else Collected(page, search, fetch, s, queries[..|queries| - 1]) + RecordsOf(page, search, fetch, s, queries[|queries| - 1])
  }

  function Mappings(rs: seq<Entries>): (vs: seq<Value>)
    ensures |vs| == |rs|
  {
    seq(|rs|, k requires 0 <= k < |rs| => Mapping(rs[k]))
  }

  /** One pass of `run_scraper`'s loop: a page URL is fetched and parsed as
      a business page, a query is searched and its results enriched, and a
      blank entry or a failed fetch contributes nothing. */
  method ProcessEntry(
    page: (string, string) -> Entries, search: string -> seq<Entries>, fetch: string -> Option<string>,
    s: Settings, raw: string)
    returns (records: seq<Entries>)
    ensures records == RecordsOf(page, search, fetch, s, raw)
  {
    match Classify(raw)
    case Skipped =>
      records := [];
    case PageUrl(url) =>
      records := FetchPage(page, fetch, url);
    case Query(q) =>
      records := SearchQuery(page, search, fetch, s, q);
  }

  /** A direct page URL: `fetch_html`, then `parse_business_page`. */
  method FetchPage(page: (string, string) -> Entries, fetch: string -> Option<string>, url: string)
    returns (records: seq<Entries>)
    ensures records == PageRecords(page, fetch, url)
  {
    var html := fetch(url);
    if html.None? || html.value == "" {
      return [];
    }
    var biz := page(html.value, url);
    return [biz];
  }

  /** A search query: `fetch_html` of its search URL, `parse_search_results`,
      then `enrich_businesses_with_details`. */
  method SearchQuery(
    page: (string, string) -> Entries, search: string -> seq<Entries>, fetch: string -> Option<string>,
    s: Settings, query: string)
    returns (records: seq<Entries>)
    ensures records == QueryRecords(page, search, fetch, s, query)
  {
    var html := fetch(s.searchUrl(query));
    if html.None? || html.value == "" {
      return [];
    }
    var businesses := search(html.value);
    records := EnrichBusinessesWithDetails(page, fetch, businesses, s.maxDetailRequestsPerQuery);
  }

  /** `run_scraper` up to the export, with the page and result-list parsers
      of the listing and detail extractors: the records of every entry of
      the input file in turn, capped by `max_results`, as `export_to_json`
      writes them. */
  method RunScraper(
    parse: string -> Node, fetch: string -> Option<string>, s: Settings, lines: seq<string>, maxResults: Option<int>)
    returns (output: seq<Value>)
    ensures output == ExportRecords(Mappings(Truncate(
      Collected(PageDetails(parse), SearchResults(parse, s), fetch, s, KeptLines(lines)), maxResults)))
  {
    var queries := LoadInputs(lines);
    var allResults := CollectAll(PageDetails(parse), SearchResults(parse, s), fetch, s, queries);
    allResults := Truncate(allResults, maxResults);
    output := ExportRecords(Mappings(allResults));
  }

  /** The loop of `run_scraper` over the entries. */
  method CollectAll(
    page: (string, string) -> Entries, search: string -> seq<Entries>, fetch: string -> Option<string>,
    s: Settings, queries: seq<string>)
    returns (allResults: seq<Entries>)
    ensures allResults == Collected(page, search, fetch, s, queries)
  {
    allResults := [];
    for i := 0 to |queries|
      invariant allResults == Collected(page, search, fetch, s, queries[..i])
    {
      assert queries[..i + 1][..i] == queries[..i];
      var records := ProcessEntry(page, search, fetch, s, queries[i]);
      allResults := allResults + records;
    }
    assert queries[..|queries|] == queries;
  }

  /** A record that is the dictionary of some business. */
  ghost predicate IsBusinessDict(r: Entries) {
    exists b: Business :: r == ToDict(b).entries
  }

  /** A merge into the dictionary of a search result with a business
      dictionary is the latter. */
  lemma {:induction false} EnrichedAreBusinessDicts(
    details: (string, string) -> Entries, fetch: string -> Option<string>, budget: int, bs: seq<Entries>)
    requires forall h, u :: IsBusinessDict(details(h, u))
    requires forall k | 0 <= k < |bs| :: IsBusinessDict(bs[k])
    ensures forall k | 0 <= k < |bs| :: IsBusinessDict(Enrichment(details, fetch, budget, bs).0[k])
  {
    forall k | 0 <= k < |bs| ensures IsBusinessDict(Enrichment(details, fetch, budget, bs).0[k]) {
      EnrichmentAt(details, fetch, budget, bs, k);
      if MergesAt(details, fetch, budget, bs, k) {
        var b: Business :| bs[k] == ToDict(b).entries;
        var url := UrlOf(bs[k]).value;
        var d := details(fetch(url).value, url);
        var page: Business :| d == ToDict(page).entries;
        MergeBusinessDicts(b, page);
      }
    }
  }

  /** Every record collected is the dictionary of some business: a detail
      page's, a search result's, or a search result merged with its page,
      which is the page's. */
  lemma {:induction false} CollectedAreBusinessDicts(
    page: (string, string) -> Entries, search: string -> seq<Entries>, fetch: string -> Option<string>,
    s: Settings, queries: seq<string>)
    requires forall h, u :: IsBusinessDict(page(h, u))
    requires forall h, k | 0 <= k < |search(h)| :: IsBusinessDict(search(h)[k])
    ensures forall k | 0 <= k < |Collected(page, search, fetch, s, queries)| ::
      IsBusinessDict(Collected(page, search, fetch, s, queries)[k])
  {
    if queries != [] {
      var init := queries[..|queries| - 1];
      CollectedAreBusinessDicts(page, search, fetch, s, init);
      var rs := RecordsOf(page, search, fetch, s, queries[|queries| - 1]);
      RecordsAreBusinessDicts(page, search, fetch, s, queries[|queries| - 1]);
      var before := Collected(page, search, fetch, s, init);
      assert Collected(page, search, fetch, s, queries) == before + rs;
      forall k | 0 <= k < |before| + |rs| ensures IsBusinessDict((before + rs)[k]) {
        if k >= |before| { assert (before + rs)[k] == rs[k - |before|]; }
      }
    }
  }

  /** The records of one entry are business dictionaries. */
  lemma RecordsAreBusinessDicts(
    page: (string, string) -> Entries, search: string -> seq<Entries>, fetch: string -> Option<string>,
    s: Settings, raw: string)
    requires forall h, u :: IsBusinessDict(page(h, u))
    requires forall h, k | 0 <= k < |search(h)| :: IsBusinessDict(search(h)[k])
    ensures forall k | 0 <= k < |RecordsOf(page, search, fetch, s, raw)| ::
      IsBusinessDict(RecordsOf(page, search, fetch, s, raw)[k])
  {
    InputRecordsAreBusinessDicts(page, search, fetch, s, Classify(raw));
  }

  lemma InputRecordsAreBusinessDicts(
    page: (string, string) -> Entries, search: string -> seq<Entries>, fetch: string -> Option<string>,
    s: Settings, c: Input)
    requires forall h, u :: IsBusinessDict(page(h, u))
    requires forall h, k | 0 <= k < |search(h)| :: IsBusinessDict(search(h)[k])
    ensures forall k | 0 <= k < |InputRecords(page, search, fetch, s, c)| ::
      IsBusinessDict(InputRecords(page, search, fetch, s, c)[k])
  {
    match c
    case Skipped =>
    case PageUrl(url) =>
    case Query(q) => QueryRecordsAreBusinessDicts(page, search, fetch, s, q);
  }

  lemma QueryRecordsAreBusinessDicts(
    page: (string, string) -> Entries, search: string -> seq<Entries>, fetch: string -> Option<string>,
    s: Settings, q: string)
    requires forall h, u :: IsBusinessDict(page(h, u))
    requires forall h, k | 0 <= k < |search(h)| :: IsBusinessDict(search(h)[k])
    ensures forall k | 0 <= k < |QueryRecords(page, search, fetch, s, q)| ::
      IsBusinessDict(QueryRecords(page, search, fetch, s, q)[k])
  {
    var html := fetch(s.searchUrl(q));
    if Fetched(html) {
      EnrichedAreBusinessDicts(page, fetch, s.maxDetailRequestsPerQuery, search(html.value));
    }
  }

  /** The real parsers produce business dictionaries. */
  lemma ParsersGiveBusinessDicts(parse: string -> Node, s: Settings)
    ensures forall h, u :: IsBusinessDict(PageDetails(parse)(h, u))
    ensures forall h, k | 0 <= k < |SearchResults(parse, s)(h)| :: IsBusinessDict(SearchResults(parse, s)(h)[k])
  {
    forall h, u ensures IsBusinessDict(PageDetails(parse)(h, u)) {
      PageDetailsIsBusinessDict(parse, h, u);
    }
    forall h, k | 0 <= k < |SearchResults(parse, s)(h)| ensures IsBusinessDict(SearchResults(parse, s)(h)[k]) {
      SearchResultIsBusinessDict(parse, s, h, k);
    }
  }

  lemma PageDetailsIsBusinessDict(parse: string -> Node, h: string, u: string)
    ensures IsBusinessDict(PageDetails(parse)(h, u))
  {
    var b := BusinessPage(parse(h), Some(u));
    DictOfBusiness(b);
    assert PageDetails(parse)(h, u) == ToDict(b).entries;
  }

  lemma DictOfBusiness(b: Business)
    ensures IsBusinessDict(ToDict(b).entries)
  {
  }

  lemma SearchResultIsBusinessDict(parse: string -> Node, s: Settings, h: string, k: int)
    requires 0 <= k < |SearchResults(parse, s)(h)|
    ensures IsBusinessDict(SearchResults(parse, s)(h)[k])
  {
    var cards := SearchCards(parse(h), s.baseUrl, s.maxResultsPerQuery);
    assert SearchResults(parse, s)(h)[k] == ToDict(cards[k]).entries;
  }

  /** Exporting the run's records changes nothing: what is written is the
      collected, capped list of dictionaries, in order. */
  lemma ExportIsIdentity(parse: string -> Node, fetch: string -> Option<string>, s: Settings, lines: seq<string>, maxResults: Option<int>)
    ensures var rs := Truncate(Collected(PageDetails(parse), SearchResults(parse, s), fetch, s, KeptLines(lines)), maxResults);
      ExportRecords(Mappings(rs)) == Mappings(rs)
  {
    ParsersGiveBusinessDicts(parse, s);
    ExportLeavesBusinessDicts(PageDetails(parse), SearchResults(parse, s), fetch, s, KeptLines(lines), maxResults);
  }

  /** With parsers that produce business dictionaries, exporting the capped
      records changes nothing. */
  lemma ExportLeavesBusinessDicts(
    page: (string, string) -> Entries, search: string -> seq<Entries>, fetch: string -> Option<string>,
    s: Settings, queries: seq<string>, maxResults: Option<int>)
    requires forall h, u :: IsBusinessDict(page(h, u))
    requires forall h, k | 0 <= k < |search(h)| :: IsBusinessDict(search(h)[k])
    ensures var rs := Truncate(Collected(page, search, fetch, s, queries), maxResults);
      ExportRecords(Mappings(rs)) == Mappings(rs)
  {
    var all := Collected(page, search, fetch, s, queries);
    var rs := Truncate(all, maxResults);
    CollectedAreBusinessDicts(page, search, fetch, s, queries);
    TruncateSpec(all, maxResults);
    ExportRecordsSpec(Mappings(rs));
    forall k | 0 <= k < |rs| ensures Normalize(Mapping(rs[k])) == Mapping(rs[k]) {
      assert rs[k] == all[k];
      var b: Business :| rs[k] == ToDict(b).entries;
      BusinessIsJson(b);
    }
  }
}
