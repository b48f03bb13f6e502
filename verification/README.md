# LinkedIn keyword harvester — a verified model of its deterministic core

This project is a Dafny model of the rules inside `scraper.py`. That script
finds public LinkedIn links through Bing and collects page metadata for a
list of keywords. Network access, HTML parsing, sleeping and file I/O are
replaced by abstract inputs, which leaves five small, total pieces:

* **Cookie normalisation** (`load_cookies`). A parsed `cookies.json` is
  either a list of `{name, value}` records or a flat dict. The list form
  keeps the entries whose name and value are both truthy, and a later
  entry overwrites an earlier one. The dict form is returned unchanged.
  Any other shape raises. Two more failures are modelled: a list entry
  that is not a dict (`c.get` raises), and a truthy list or dict used as
  a name (it is unhashable).
* **CSRF token** (`make_session`). When the cookies hold a truthy
  `JSESSIONID`, the session sends `csrf-token` set to that value with every
  leading and trailing `"` stripped, plus three fixed LinkedIn headers. A
  truthy `JSESSIONID` that is not a string makes `.strip` raise.
* **Link discovery** (`bing_site_search`). It requests at most five result
  pages, page `p` with `first = 10*p + 1`. It keeps the hrefs that are
  present and contain `linkedin.com`, and stops once the raw count,
  repeats included, reaches `limit`. It then de-duplicates in
  first-occurrence order. A failed request propagates.
* **Metadata** (`fetch_url_metadata`). On success it returns the stripped
  title and a description. The description is the stripped Open Graph
  description if that has text, else the stripped plain description, else
  empty. On a fetch error it returns empty fields and the error.
* **Harvest** (`linkedin_keyword_harvest`). At most one cookie-failure row
  comes first. Then there is one row per discovered URL, keyword by
  keyword, each tagged with its keyword.

Modules follow these pieces. `Cookies`, `Sessions`, `Search`, `Metadata`
and `Harvest` hold the model. `Json` holds parsed JSON values, `PyText`
holds Python's `str.strip` and substring test, and `Unique` holds the
de-duplication. `Seqs` and `Wrappers` are shared helpers.

`bing_site_search` is modelled twice. `Search.BingSiteSearch` is the
functional specification. `Search.SiteSearch` is the source's loops written
as methods, and it is proved to compute exactly the same thing.

## Model

| member | source | states |
|---|---|---|
| Cookies.LoadCookies | scraper.py:43-55 | a dict document is returned unchanged, with exactly its string keys mapped to their values; a list is normalised; any other document fails with the unsupported-format error |
| Cookies.LoadErrorText | scraper.py:53 | each load error has a non-empty message, and the unsupported-format error's message is exactly "Unsupported cookies.json format" |
| Cookies.FromListKeys | scraper.py:44-49 | the list form stores exactly the names of entries whose name and value are both truthy; every stored name and value is truthy, and every stored name is hashable |
| Cookies.FromListLastWins | scraper.py:45-49 | when several entries share a name, the stored value is the one from the last stored entry with that name |
| Cookies.FromListFailure | scraper.py:45-49 | the list form fails exactly when some entry is not a dict or is stored under an unhashable name, and the error is the complaint about the first such entry |
| PyText.Strip | scraper.py:67 | `strip(chars)` leaves a middle part of the input with only `chars` cut from each end, and that middle part neither starts nor ends with one of `chars` |
| PyText.StripUnique | scraper.py:67 | any middle part framed that way equals `Strip`'s result, so the two properties define Python's `strip` completely |
| PyText.StripEmptyIff | scraper.py:127-129 | stripping gives the empty string exactly when the input is made only of stripped characters |
| PyText.ContainsIff | scraper.py:98 | the substring test `"linkedin.com" in href` holds exactly when the domain occurs at some position of the href |
| Sessions.CsrfToken | scraper.py:65-67 | the token is `JSESSIONID` with runs of double quotes removed from both ends, and it neither starts nor ends with a quote |
| Sessions.CsrfTokenEmpty | scraper.py:66-68 | the token is empty exactly when `JSESSIONID` consists only of quotes |
| Sessions.CsrfTokenDoubleQuotes | scraper.py:67 | doubled quotes are stripped too, so this is not "remove one enclosing pair" |
| Sessions.SessionErrorText | scraper.py:67 | a `.strip` on a non-string `JSESSIONID` has a non-empty message |
| Sessions.MakeSession | scraper.py:57-72 | the session fails exactly when the cookies hold a truthy non-string `JSESSIONID`; otherwise it carries the cookies and keeps the base headers, and it adds the four LinkedIn headers, with the stripped token, exactly when `JSESSIONID` is truthy |
| Sessions.CsrfHeaderIff | scraper.py:60-68 | with default headers, `csrf-token` is present exactly when `JSESSIONID` is truthy, and its value is the stripped string; a session without cookies always succeeds |
| Sessions.CsrfHeaderEmptyToken | scraper.py:65-68 | a `JSESSIONID` of two quote characters still sets `csrf-token`, to the empty string |
| Search.LinksMembers | scraper.py:96-98 | a page yields exactly its hrefs that are present and contain the domain |
| Search.LinksAppend | scraper.py:96-98 | the links of a page cut in two pieces are the links of the first piece followed by those of the second, so the filter keeps page order and every repeat (the repeats are what `SearchShortfall` exhibits) |
| Search.GatherRequests | scraper.py:89-103 | the loop requests consecutive pages of ten from its starting page, never past the fifth |
| Search.GatherGrows | scraper.py:96-102 | the loop only appends links, and once below `limit` it never collects more than `limit` |
| Search.GatherTakesPool | scraper.py:90-103 | when no request fails, the loop collects exactly the first `limit` links of all five pages in order, repeats included |
| Search.GatherEnds | scraper.py:90-94 | the loop fails exactly when its last request failed, with that error; otherwise every requested page was served, and it stopped at `limit` links or after five pages |
| Search.SearchPages | scraper.py:88-93 | a search requests at most five pages, page `p` with `first = 10*p + 1`, and none when `limit <= 0` |
| Search.SearchRaw | scraper.py:90-103 | the raw collection holds only links, at most `limit` of them, none when `limit <= 0`, and with no failure exactly the first `limit` links of the pool |
| Search.SearchResult | scraper.py:105-112 | the result has no duplicates, holds exactly the collected links in first-collection order, has at most `limit` entries, and the final `[:limit]` removes nothing |
| Search.SearchFailure | scraper.py:94 | a failed search reports the error of the last page it requested |
| Search.SearchShortfall | scraper.py:96-112 | repeats count toward `limit` before de-duplication, so a search can return fewer than `limit` links although more distinct ones were on the page |
| Search.CollectPage | scraper.py:96-102 | the inner loop appends exactly the page's first `limit - count` links, breaking once `limit` is reached |
| Search.GatherLoop | scraper.py:86-104 | the page loop computes exactly the collection that `Gather` specifies |
| Search.DedupInOrder | scraper.py:106-111 | the loop with a `seen` set computes `Dedup`: no duplicates, and the same elements as its input |
| Search.SiteSearch | scraper.py:83-112 | the source's loops compute `BingSiteSearch`; at most five pages are requested with the right offsets, and a result is duplicate-free and at most `limit` long |
| Unique.Dedup | scraper.py:105-111 | de-duplication gives no duplicates, keeps every element and adds none, and is never longer than its input |
| Unique.DedupFirstOrdered | scraper.py:105-111 | the de-duplicated list follows the order of first occurrence |
| Unique.DedupUnique | scraper.py:105-111 | any duplicate-free list of the same elements in first-occurrence order equals the de-duplicated list |
| Unique.DedupIdentity | scraper.py:105-111 | de-duplication changes nothing exactly when the input has no duplicates |
| Seqs.SliceTo | scraper.py:112 | Python's `xs[:n]` keeps a prefix: all of `xs` when `n` is large, `n` elements when `0 <= n <= len`, and counts from the end when `n` is negative |
| Metadata.Stripped | scraper.py:123 | a missing or empty piece gives the empty string; otherwise the piece's whitespace-stripped text |
| Metadata.FetchUrlMetadata | scraper.py:114-134 | on fetch failure the title and description are empty and the error is the non-empty failure text; on success the error is empty, the title is the stripped title, and the description follows the fallback chain from Open Graph to plain description to empty |
| Metadata.DescriptionChoice | scraper.py:123-132 | the description equals Python's `strip()` of the Open Graph text if that has text, else of the plain description; the title equals the stripped title |
| Harvest.CookieSetup | scraper.py:148-157 | without a cookie path, the stage uses a plain session and adds no row; otherwise it adds exactly one failure row, with the prefixed message of the failing step, when reading, loading or session creation fails, and it uses the authenticated session when none fails |
| Harvest.KeywordRowsMatchDiscovered | scraper.py:159-165 | the keyword loop succeeds exactly when discovery does, with the same error on failure, and gives one row per discovered (keyword, url) pair in order |
| Harvest.AssembleShape | scraper.py:159-167 | the cookie-stage rows come first, then exactly one row per discovered pair |
| Harvest.AssembleKeywords | scraper.py:163-164 | every row after the cookie-stage rows carries a keyword |
| Harvest.HarvestShape | scraper.py:144-167 | the harvest gives at most one leading cookie-failure row, then one row per discovered pair in keyword order, each tagged with the keyword that found it; it fails exactly when a search fails |
| Harvest.HarvestPrelude | scraper.py:148-167 | a cookie failure gives exactly one leading row, which has no keyword and whose error starts with "Failed to load cookies: "; every other row has a keyword |
| Harvest.DiscoveredAppend | scraper.py:159-160 | discovery walks the keywords in order: the pairs for `a + b` are the pairs for `a` followed by the pairs for `b` |

## Left out

- HTTP: `requests.Session`, `_get` and its retry with exponential backoff (scraper.py:77-81). Each request is an input: a result page, or a failure with its message. This is network plumbing.
- Repeated requests: the search engine (`Search.Engine`) and the page source (`Harvest.PageSource`) are fixed functions, so asking twice with the same arguments gives the same answer. In `scraper.py` every `bing_site_search` call (scraper.py:160) and every `fetch_url_metadata` call (scraper.py:162) sends a fresh request, which may return a different page or fail. The model therefore does not cover a keyword repeated in the list getting different results, or a url found under two keywords getting different metadata.
- requests' internals: its own default headers, case-insensitive header names, and the cookie jar, where a `None` value removes a cookie and the domain is fixed. A session is modelled as the headers `scraper.py` sets plus the cookie dict it was given.
- HTML parsing with BeautifulSoup (scraper.py:95-96, 122-132). A result page is the list of `href`s its selector finds. A fetched page is its title text and two `content` attributes. These come from a foreign library applied to third-party markup.
- The Bing session's headers, `BING_HEADERS` (scraper.py:31-34, 85). They only affect how the search engine answers, and the engine is an input.
- URL building with `quote_plus` (scraper.py:92-93). The model records the search term and the `first=` offset of each request, not the encoded URL.
- `_random_pause` (scraper.py:74-75). It is randomised sleeping and has no effect on results.
- Reading `cookies.json` (scraper.py:38-39). The harvest takes the outcome as input: a parsed document, or a read/parse failure with its message.
- JSON floats. Numbers are integers, so `0.0` and `1.0` as cookie names are not modelled.
- Cookies.FromListKeys: treats `True` and `1` as different cookie names. Python's dict treats them as the same key, and keeps the first key with the later value.
- Cookies.LoadErrorText: the texts of the `AttributeError` and `TypeError` messages follow CPython 3.12's wording; other interpreter versions may word them differently.
- Metadata.FetchUrlMetadata: a fetch failure's text is taken as given and required to be non-empty. The retry wrapper's own message format is not modelled.
- A failed search propagates out of the harvest uncaught. The model returns that page's failure text, not the wrapper exception.
- The command-line entry point and the CSV export with pandas (scraper.py:169-183). This is I/O.
- `app.py`. It imports `scrape_keywords`, which `scraper.py` does not define, so it has no behaviour to model.
