# Yelp scraper core in Dafny

A model of the core of a small Python Yelp scraper, with proofs about it.
The model covers:

- the text helpers: `clean_text` and `extract_rating_from_aria`;
- both HTML extractors:
  - the search-results extractor, which collects one summary card per `/biz/` link;
  - the business-page extractor, which reads out the name, address, phone, rating and top review;
- the runner:
  - it filters the input lines;
  - it tells page URLs from search queries;
  - it enriches search results with their detail pages under a request budget;
  - it caps the total;
- the JSON exporter's normalisation of records (`_ensure_serializable`).

Modules, one per file:

| file | module | models |
|---|---|---|
| `wrappers.dfy` | `Wrappers` | `Option` |
| `text_utils.dfy` | `TextUtils` | `clean_text`, `extract_rating_from_aria`, and Python's `str.strip` and `\s+` collapsing |
| `dom.dfy` | `Dom` | the parsed page as a node tree. It covers the parts of BeautifulSoup the extractors call: `descendants`, `find`, `find_all`, `select("a[href^=...]")`, `get_text(" ", strip=True)` |
| `values.dfy` | `Values` | Python values and dictionaries: insertion order, `d[k] = v`, `{**a, **b}` |
| `records.dfy` | `Records` | the `Review` and `Business` dataclasses, `to_dict`, and the shared star-rating lookup |
| `listing.dfy` | `Listing` | `_extract_business_cards` and `parse_search_results` |
| `detail.dfy` | `Detail` | `_extract_address`, `_extract_phone`, `_extract_overall_rating`, `_extract_top_review` and `parse_business_page` |
| `runner.dfy` | `Runner` | `load_inputs`'s line filter, `enrich_businesses_with_details`, and the loop and truncation of `run_scraper` |
| `exporters.dfy` | `Exporters` | `_ensure_serializable` and the per-record mapping of `export_to_json` |

How the model is written:

- Pure Python functions are Dafny functions. Each has lemmas stating what it means.
- The loops are methods with loop invariants, proved equal to a specification function:
  - the link scan;
  - the ancestor hops;
  - the address candidates;
  - the phone patterns;
  - the review blocks;
  - the enrichment loop;
  - the runner's loop over the entries.
- Fetching pages and parsing HTML are parameters:
  - `fetch: string -> Option<string>` stands for `fetch_html`;
  - `parse: string -> Node` stands for `BeautifulSoup(html, "lxml")`;
  - `Settings.searchUrl` stands for `build_search_url` with the configured base URL, search path and location.
- The runner's methods are generic in how pages and result lists are parsed. `Runner.RunScraper` instantiates them with the model's own extractors (`PageDetails`, `SearchResults`).

Edge cases of the code that the model keeps:

- The link scan checks the result count only after appending a record. So a `max_results` below 1 still lets one record through (`Listing.Cap`).
- The detail budget counts only pages that were fetched. A failed fetch costs nothing (`Runner.AttemptsExceedBudget`).
- `{**biz, **details}` replaces every key of a search result, `None` values included. The detail dictionary has the same six keys as the summary card, so a merged record is exactly the detail dictionary (`Runner.MergeBusinessDicts`).
- `all_results[:max_results]` with a negative `max_results` drops records from the end (`Runner.TruncateSpec`).
- The phone search tries the parenthesised pattern on the whole text first. It falls back to the dashed pattern only when the first one occurs nowhere (`Detail.PhoneSpec`).

## Model

| member | source | states |
|---|---|---|
| TextUtils.Strip | src/extractors/text_utils.py:14 | the result of `str.strip()` neither starts nor ends with whitespace |
| TextUtils.StripBounds | src/extractors/text_utils.py:14 | the stripped text is a slice of the input with only whitespace cut off at either end |
| TextUtils.LStrip | src/extractors/text_utils.py:14 | the left strip is a suffix of the input; what it removed is whitespace; it starts with a non-space |
| TextUtils.RStrip | src/extractors/text_utils.py:14 | the right strip is a prefix of the input; what it removed is whitespace; it ends with a non-space |
| TextUtils.Collapse | src/extractors/text_utils.py:6 | `\s+` → `" "` is empty only for an empty input, and leaves no whitespace but single spaces |
| TextUtils.CleanText | src/extractors/text_utils.py:8-14 | `clean_text(None)` is `""` and every result is clean: no leading, trailing or doubled whitespace |
| TextUtils.CleanTextKeepsNonSpace | src/extractors/text_utils.py:8-14 | cleaning keeps every non-whitespace character, in order |
| TextUtils.CleanTextEmptyIff | src/extractors/text_utils.py:8-14 | the cleaned text is empty exactly when the input is all whitespace |
| TextUtils.CleanTextFixesClean | src/extractors/text_utils.py:8-14 | cleaning leaves clean text unchanged |
| TextUtils.CleanTextIdempotent | src/extractors/text_utils.py:8-14 | cleaning twice gives what cleaning once gives |
| TextUtils.NonSpaceCollapse | src/extractors/text_utils.py:14 | collapsing whitespace runs keeps the non-whitespace characters |
| TextUtils.NonSpaceStrip | src/extractors/text_utils.py:14 | stripping keeps the non-whitespace characters |
| TextUtils.FirstDigit | src/extractors/text_utils.py:23 | finds the first digit at or after a position, or reports there is none |
| TextUtils.NumberAt | src/extractors/text_utils.py:23 | the greedy match of `\d+(\.\d+)?` at a digit: a well-formed literal that occurs there and cannot be extended |
| TextUtils.ExtractRatingFromAria | src/extractors/text_utils.py:16-30 | no label or an empty label gives `None`; a result exists exactly when the label has a digit; the result is the leftmost, longest number |
| TextUtils.LeftmostNumberUnique | src/extractors/text_utils.py:23 | at most one number is the leftmost, longest match in a label |
| TextUtils.MatchIsNumberAt | src/extractors/text_utils.py:23 | each match of the number pattern at a position is the one the greedy scan computes there |
| TextUtils.RatingOfFourAndAHalf | src/extractors/text_utils.py:18 | `"4.5 star rating"` gives 4.5 |
| TextUtils.RatingOfFourPoint | src/extractors/text_utils.py:23 | `"4. stars"` gives 4, since the fraction group needs a digit after the point |
| TextUtils.RatingWithoutDigits | src/extractors/text_utils.py:24-25 | a label without digits gives `None` |
| Dom.Visits | src/extractors/yelp_parser.py:62 | each node of the walk has its parent as the first entry of its ancestor chain |
| Dom.Filter | src/extractors/yelp_parser.py:105 | `find_all` filtering keeps exactly the matching nodes |
| Dom.FirstIndex | src/extractors/yelp_parser.py:100 | the first matching position, with nothing matching before it, or none at all |
| Dom.FindAll | src/extractors/yelp_parser.py:105 | `find_all` returns exactly the matching descendants |
| Dom.FindSpec | src/extractors/yelp_parser.py:100 | `find` returns nothing exactly when no descendant matches, and otherwise the first matching descendant in document order |
| Dom.FindIsFirstOfFindAll | src/extractors/yelp_parser.py:100-105 | `find` returns the first element of `find_all` |
| Dom.Select | src/extractors/yelp_parser.py:42 | every link `select` yields matches the selector |
| Dom.SelectSpec | src/extractors/yelp_parser.py:42 | `select` yields every matching node in document order: its nodes are exactly `find_all`'s, and every matching visit of the walk is among its results |
| Dom.TextPieces | src/extractors/yelp_parser.py:54 | every piece that `get_text(strip=True)` joins is non-empty and starts and ends with a non-space |
| Dom.CleanedTextIsClean | src/extractors/yelp_parser.py:54 | the cleaned text of an element is clean |
| Dom.CleanedTextEmptyIff | src/extractors/yelp_parser.py:54-56 | an element's cleaned text is empty exactly when every text node below it is whitespace |
| Values.IndexOf | src/runner.py:107 | the position of a key in a dictionary, or `None` exactly when the key is absent |
| Values.GetPut | src/runner.py:107 | after `d[k] = v`, looking up `k` gives `v` and every other key keeps its value |
| Values.GetPutAll | src/runner.py:107 | after `{**a, **b}`, a key has its last value in `b`, else its value in `a` |
| Values.PutAllShape | src/runner.py:107 | updating a dictionary keeps its keys distinct and adds only given entries |
| Values.DictOfDistinct | src/outputs/exporters.py:18 | a comprehension over pairs with distinct keys builds exactly those pairs |
| Values.MergeSameKeys | src/runner.py:107 | merging two dictionaries with the same keys in the same order gives the second |
| Values.PutAllConcat | src/runner.py:107 | updating with `x + y` is updating with `x`, then with `y` |
| Records.OptionalText | src/extractors/yelp_parser.py:26-27 | `asdict` keeps `None` as `None` and a string as itself |
| Records.OptionalNumber | src/extractors/yelp_parser.py:26-27 | `asdict` keeps `None` as `None` and a rating as a float |
| Records.ToDict | src/extractors/yelp_parser.py:17-27 | `to_dict` has the six field names as keys, in declaration order, with the name and URL carried over |
| Records.ToDictKeysDistinct | src/extractors/yelp_parser.py:17-27 | no key of a business dictionary occurs twice |
| Listing.RStripSlashes | src/extractors/yelp_parser.py:49 | `rstrip("/")` is a prefix without a trailing slash, and only slashes were cut |
| Listing.BeforeQuery | src/extractors/yelp_parser.py:48 | `split("?", 1)[0]` is the prefix before the first `?` |
| Listing.RStripSlashesIdempotent | src/extractors/yelp_parser.py:49 | stripping slashes twice changes nothing more |
| Listing.QueryIgnored | src/extractors/yelp_parser.py:48-49 | a link's query string does not change its canonical URL |
| Listing.FirstSome | src/extractors/yelp_parser.py:61-69 | the first rating found on the hops, or `None` exactly when no hop has one |
| Listing.NearbyHops | src/extractors/yelp_parser.py:61-64 | at most four hops, fewer only when the walk reaches the root first |
| Listing.FindNearbyRating | src/extractors/yelp_parser.py:59-69 | the hop loop returns the first rating found on the first four ancestors |
| Listing.CardShape | src/extractors/yelp_parser.py:54-80 | a card has a clean name, empty exactly when the link shows no text, plus the canonical URL, the nearby rating and no detail fields |
| Listing.ScanLink | src/extractors/yelp_parser.py:43-56 | a link is skipped exactly when its URL was seen or its name is empty; otherwise it gives its card |
| Listing.ScanLinks | src/extractors/yelp_parser.py:42-83 | the loop returns the de-duplicated cards, cut at the result limit |
| Listing.ExtractBusinessCards | src/extractors/yelp_parser.py:29-85 | `_extract_business_cards` is the de-duplicated cards of the selected links, cut at the result limit |
| Listing.Take | src/extractors/yelp_parser.py:82-83 | the cut is a prefix of the limit's length, or everything when there is less |
| Listing.DedupDistinct | src/extractors/yelp_parser.py:51-52 | the kept records have pairwise different URLs |
| Listing.DedupSubset | src/extractors/yelp_parser.py:51-56 | each kept record is one of the cards |
| Listing.DedupCoversNamed | src/extractors/yelp_parser.py:51-56 | the URL of every named card is among the kept URLs |
| Listing.DedupFromFirsts | src/extractors/yelp_parser.py:51-56 | each kept record is the first named card with its URL |
| Listing.DedupCoversFirsts | src/extractors/yelp_parser.py:51-56 | each first named card with its URL is kept |
| Listing.DedupPrefix | src/extractors/yelp_parser.py:42-83 | scanning fewer links keeps a prefix of the records |
| Listing.DedupCut | src/extractors/yelp_parser.py:82-83 | breaking at the limit gives the first records the full scan keeps |
| Listing.EmittedSpec | src/extractors/yelp_parser.py:42-80 | a card is kept exactly when it is the first named card with its URL, and the kept URLs are distinct |
| Listing.KeptCardsSpec | src/extractors/yelp_parser.py:42-83 | the records are at most the limit, named, with distinct URLs, all taken from the cards |
| Listing.ParseSearchResults | src/extractors/yelp_parser.py:87-95 | `parse_search_results` returns at most the limit of named, distinct-URL cards, in document order |
| Detail.FoundText | src/extractors/yelp_parser.py:100-102 | the cleaned text of the first match, or `None` exactly when nothing matches |
| Detail.FirstNonEmptySpec | src/extractors/yelp_parser.py:105-108 | the first non-empty text, or `None` exactly when every text is empty |
| Detail.FindFirstText | src/extractors/yelp_parser.py:105-108 | the candidate loop returns the first non-empty cleaned text |
| Detail.FirstTextSpec | src/extractors/yelp_parser.py:105-108 | the first candidate with text is found and no earlier candidate has any |
| Detail.BusinessNameSpec | src/extractors/yelp_parser.py:177-187 | the `itemprop=name` text wins when it is non-empty; otherwise the first `<h1>`; `None` only when neither exists |
| Detail.ExtractAddress | src/extractors/yelp_parser.py:97-115 | `_extract_address` tries the three strategies in the code's order |
| Detail.AddressSpec | src/extractors/yelp_parser.py:97-115 | `None` exactly when there is no test-id element, no `<address>` element and no labelled element with text; a test-id element's text wins even when empty; otherwise the first labelled element with text; only then the first `<address>` element; always clean |
| Detail.MatchEndIff | src/extractors/yelp_parser.py:121-124 | a phone pattern matches a slice exactly when the slice has the pattern's shape |
| Detail.SearchFromSpec | src/extractors/yelp_parser.py:126 | `re.search` finds the leftmost match, or none exists |
| Detail.NotOccurs | src/extractors/yelp_parser.py:126-127 | the search fails exactly when the pattern occurs nowhere |
| Detail.Leftmost | src/extractors/yelp_parser.py:126 | the found match is a phone-shaped slice with no match starting earlier |
| Detail.PhoneSpec | src/extractors/yelp_parser.py:117-129 | `None` exactly when neither pattern occurs; the parenthesised form wins whenever it occurs |
| Detail.ExtractPhone | src/extractors/yelp_parser.py:117-129 | the pattern loop returns the phone of the page text |
| Detail.PhoneOfParenthesised | src/extractors/yelp_parser.py:122 | `"Call (555) 555-1234 now"` gives `"(555) 555-1234"` |
| Detail.OverallRatingSpec | src/extractors/yelp_parser.py:131-136 | read from the first star-rating element in document order: present exactly when its label has a digit, and then the leftmost number of that label; `None` when there is no such element |
| Detail.ExtractTopReview | src/extractors/yelp_parser.py:138-169 | `_extract_top_review` checks `itemprop` blocks first, then `data-testid` blocks |
| Detail.ScanReviews | src/extractors/yelp_parser.py:149-169 | the block loop returns the review of the first block with text |
| Detail.ReadReview | src/extractors/yelp_parser.py:150-167 | a block's review has its text, rating and author |
| Detail.TopReviewSpec | src/extractors/yelp_parser.py:138-169 | `None` exactly when every block's text is empty; otherwise the first block with text, with a clean non-empty text |
| Detail.BusinessPageSpec | src/extractors/yelp_parser.py:189-201 | the page's rating wins over the review's, and is `None` when neither exists; the review text is the top review's text, or `None` without one, and is non-empty when present; name, address and phone are those the three extractors read; the URL is carried over |
| Detail.ParseBusinessPage | src/extractors/yelp_parser.py:171-203 | `parse_business_page` is the `to_dict` of the business read out of the page |
| Runner.LoadInputs | src/runner.py:47-53 | the line loop keeps the stripped lines that are neither blank nor comments |
| Runner.KeptLinesConcat | src/runner.py:49-53 | filtering a concatenation is concatenating the filtered parts |
| Runner.KeptLinesSpec | src/runner.py:49-53 | a query is kept exactly when it is the strip of some line and neither blank nor a comment |
| Runner.KeptLinesStripped | src/runner.py:50-53 | a kept query is stripped, non-empty and not a comment |
| Runner.ClassifySpec | src/runner.py:148-163 | blank exactly for whitespace, a page URL exactly for an `http://`/`https://` prefix, otherwise a query; carried stripped |
| Runner.LoadedNeverSkipped | src/runner.py:148-154 | a loaded entry is never skipped, and is carried unchanged |
| Runner.TruncateSpec | src/runner.py:182-183 | the cut is a prefix: everything with no cap; at most `m` records for `m >= 0`; all but the last `-m` for `m < 0` |
| Runner.Enrichment | src/runner.py:95-109 | enrichment yields one record per search result |
| Runner.EnrichBusinessesWithDetails | src/runner.py:81-112 | the loop yields the enrichment of the results |
| Runner.EnrichmentAt | src/runner.py:95-109 | a record is merged with its details exactly when it has a URL, the budget is not used up, and its page was fetched; otherwise it stays as it is |
| Runner.EnrichmentPrefix | src/runner.py:95-109 | enriching a prefix gives a prefix of the records |
| Runner.EnrichmentCount | src/runner.py:93-109 | the counter is the number of merged records, and at most the budget |
| Runner.CountGrows | src/runner.py:109 | the counter never decreases along the loop |
| Runner.BudgetExhausted | src/runner.py:97-99 | once the budget is spent, every later record stays as it is |
| Runner.CountAtMostAttempts | src/runner.py:101-109 | merged pages are at most the fetches attempted |
| Runner.AttemptsExceedBudget | src/runner.py:97-104 | failed fetches do not count, so a budget of 1 allows 2 attempts |
| Runner.MergeBusinessDicts | src/runner.py:106-107 | merging a card with a detail dictionary gives the detail dictionary |
| Runner.MergedUrl | src/runner.py:106-107 | a merged record's URL is the URL its page was fetched from |
| Runner.FetchPage | src/runner.py:156-160 | a page URL gives its parsed page, or nothing when the fetch fails |
| Runner.SearchQuery | src/runner.py:163-180 | a query gives its enriched search results, or nothing when the fetch fails |
| Runner.ProcessEntry | src/runner.py:147-180 | an entry gives the records of its classification |
| Runner.CollectAll | src/runner.py:144-180 | the loop concatenates the records of every entry, in order |
| Runner.RunScraper | src/runner.py:144-187 | the run exports the capped records of every kept input line, in order |
| Runner.EnrichedAreBusinessDicts | src/runner.py:95-109 | enriching business dictionaries gives business dictionaries |
| Runner.CollectedAreBusinessDicts | src/runner.py:144-180 | every collected record is a business dictionary |
| Runner.ParsersGiveBusinessDicts | src/runner.py:159-172 | both extractors produce business dictionaries |
| Runner.ExportIsIdentity | src/runner.py:182-187 | exporting the run's records changes none of them |
| Exporters.NormalizeIsJson | src/outputs/exporters.py:10-24 | `_ensure_serializable` always gives a value `json.dump` accepts |
| Exporters.JsonFixpoint | src/outputs/exporters.py:10-24 | a value already fit for JSON is returned unchanged |
| Exporters.NormalizeIdempotent | src/outputs/exporters.py:10-24 | normalising twice gives what normalising once gives |
| Exporters.NormalizeMapping | src/outputs/exporters.py:17-18 | a mapping becomes the dict built from its string-keyed pairs |
| Exporters.NormalizeMappingSize | src/outputs/exporters.py:17-18 | a mapping stays a mapping and never grows |
| Exporters.NormalizeMappingLookup | src/outputs/exporters.py:18 | a key's string form maps to its normalised value when no later key prints the same |
| Exporters.NormalizeSequence | src/outputs/exporters.py:20-21 | lists, tuples and sets become lists of the same length; lists and tuples keep their elements in order |
| Exporters.CollidingKeys | src/outputs/exporters.py:18 | the keys `1` and `"1"` collapse into one key, which takes the later value |
| Exporters.ExportRecordsSpec | src/outputs/exporters.py:30 | the export has one normalised, JSON-ready record per input record, in order |
| Exporters.BusinessIsJson | src/outputs/exporters.py:14-18 | a business dictionary is JSON already, and exporting leaves it as it is |

## Left out

- Network, files and logging are not modelled: `fetch_html` (`requests.get`, headers, timeouts), reading the input file, `load_settings`, and `json.dump` and the output directory. Fetching is a parameter, and a pure function: within a run, one URL always gives the same page. The input file is its lines. The output is the list of normalised records.
- `build_search_url` (`urlencode`, `urljoin`) is any function from a query to a URL (`Settings.searchUrl`).
- HTML parsing with lxml is any function from HTML to a node tree. Only the BeautifulSoup operations the extractors call are modelled. For `select`, that is only `a[href^=...]`; for regular expressions, only case-insensitive substring search, with ASCII-only case folding (Python's `re.I` also matches `ſ` to `s` and the Kelvin sign to `k`).
- `\s` and `\d` are modelled on ASCII: `\s` is space, `\t`–`\r` and `\x1c`–`\x1f`; `\d` is `0`–`9`. Python's Unicode whitespace and digits are not modelled.
- Floats: a rating is carried as the decimal literal it was read from, not as an IEEE double. So `float()` rounding and the `ValueError` branch of `extract_rating_from_aria` are not modelled; that branch cannot be taken for a digit literal.
- The `if not href: continue` branch of the link scan is not modelled. `select("a[href^='/biz/']")` only yields links whose `href` starts with `/biz/`, so the branch is never taken.
- The `has_attr("aria-label")` checks are not modelled as branches. A node found by its `aria-label` always has one.
- Runner.EnrichBusinessesWithDetails: `base_url`, `headers` and `timeout` are not parameters. `base_url` is never read by the function, and `headers` and `timeout` are only passed on to fetching.
- Runner.UrlOf: a record whose `url` is truthy but not a string is treated as having no URL. The extractors never produce one.
- Exporters.NormalizeSequence: for a set, the result is only stated to be a list of the same length, because Python's set iteration order is not modelled.
- Values.Key: Python's cross-type key equality (`1 == True`, `1 == 1.0`) is not modelled. Keys of different types are different keys.
- `export_to_jsonl` is not modelled. It writes the same normalised records, one per line.
- Command-line parsing (`parse_args`, `main`) is not part of this model.
