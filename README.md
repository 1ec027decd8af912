# Career-page finder, modelled in Dafny

A model of the core of `companies_job_links_find.py`, a batch tool that finds
the career pages of companies. It covers four parts:

- The resolver picks a company's homepage from a search results page.
- The discovery engine (`CareerPageFinder.find_career_page`) works in four steps:
  - it fetches the homepage;
  - it keeps the anchors whose lower-cased `href` or text contains one of eight career keywords, resolves their original `href` against the homepage, and drops repeats;
  - if that yields nothing, it probes ten conventional paths with HEAD requests;
  - it keeps at most three URLs.
- Output shaping builds the CSV row for each result and names the CSV and JSON files.
- The summary report counts results and picks the top ten by number of career URLs, using a stable descending sort.

The network is an oracle, `Finder.Net`:

- the search request returns a results page or raises;
- the homepage GET returns the page's anchors or raises;
- each HEAD probe returns a status code or raises.

`urljoin` is an uninterpreted `resolve(base, href)`, which may also raise (`None`).

`Finder.Discover` states the whole of `find_career_page` as one function. It returns the outcome and the list of requests issued, in order. The outcome is one of:

- not found;
- an exception after the homepage was known;
- found, with the homepage and its URLs.

The request list is what lets the model state that nothing is fetched or probed, and in which order the probes run.

`Finder.FindCareerPage` is written imperatively, like the source. It takes the supplied homepage or calls the resolver itself, and then calls:

- `ExploreHomepage`, the steps once the homepage is known;
- `ScanAnchors`, the anchor loop;
- `ProbePatterns`, the probing loop.

Each of these is proved equal to its specification function.

Modules:
- `Wrappers`: the option type.
- `Strings`: four string operations over `seq<char>`, with their laws:
  - ASCII `lower`;
  - the `in` substring test;
  - `rstrip` and left-to-right `replace`.
- `Seqs`: three list operations:
  - filtering (comprehensions with a condition);
  - first-occurrence de-duplication;
  - slicing `s[:n]`.
- `Finder`: the resolver and the discovery engine.
- `Output`: the CSV row and the output file names.
- `Summary`: the counts, the stable sort and the top-ten list.

`main_website or "Error"` at `companies_job_links_find.py:110` never yields `"Error"`. At that point `main_website` is either the truthy supplied value (line 48) or the resolver's non-empty `href` (lines 33-35, 49-50). So a failed fetch, or a failed `urljoin`, keeps the attempted homepage and records no URLs: see `Finder.FailedIff` and `Finder.RecordInvariant`.

## Model

| member | source | states |
|---|---|---|
| `Finder.SearchCompanyWebsite` | companies_job_links_find.py:31-40 | The resolver returns a homepage exactly when the search succeeded, returned at least one result anchor, and the first anchor's `href` is present and non-empty. That homepage is the first anchor's `href`. |
| `Finder.ResolverReadsOnlyFirstAnchor` | companies_job_links_find.py:31-35 | Result anchors after the first never change the resolver's answer. |
| `Finder.MentionsKeywordIff` | companies_job_links_find.py:81-83 | The keyword test from position `i` holds iff some keyword at or after `i` is a substring of the href or of the text. |
| `Finder.CareerLinkIff` | companies_job_links_find.py:77-83 | An anchor is career-relevant iff one of the eight keywords is a substring of its lower-cased `href` or of its lower-cased text. |
| `Finder.ResolveAllSpec` | companies_job_links_find.py:84 | Resolving the relevant anchors succeeds iff every one of them resolves. Position `k` of the result then holds `urljoin(homepage, href)` of the `k`-th relevant anchor, with the original-case `href`. |
| `Finder.ScanFailsIff` | companies_job_links_find.py:76-86 | The scan raises iff some career-relevant anchor's `href` fails to resolve. |
| `Finder.ScanResult` | companies_job_links_find.py:76-86 | A successful scan has no duplicates and no more URLs than relevant anchors. A URL is collected iff it is the resolution of some relevant anchor. URLs appear in the order of their first occurrence. |
| `Finder.ScanFailsFromPrefix` | companies_job_links_find.py:83-84 | Once a resolution among the first `n` anchors raises, the whole scan raises. |
| `Finder.ScanAnchors` | companies_job_links_find.py:72-86 | The anchor loop, with `append` guarded by `not in`, returns exactly what the scan specification `Scan` gives, including `None` when a resolution raises. |
| `Finder.ProbeUrls` | companies_job_links_find.py:90-92 | One probe URL per pattern, in pattern order: the stripped base plus the pattern. |
| `Finder.ProbeRequests` | companies_job_links_find.py:93-94 | One HEAD request per probe URL, in order. |
| `Finder.ProbeHitsIff` | companies_job_links_find.py:93-98 | A URL is kept iff it is one of the probe URLs and its probe answered 200. A raise or a non-200 status skips it. |
| `Finder.ProbePatterns` | companies_job_links_find.py:89-98 | The probing loop returns exactly the probe hits, in pattern order, and issues exactly one HEAD per pattern. |
| `Finder.ExploreHomepage` | companies_job_links_find.py:67-112 | The steps after the homepage is known produce exactly the record and the requests of `Explore`. |
| `Finder.FindCareerPage` | companies_job_links_find.py:42-112 | `find_career_page` returns the record of `Discover`'s outcome and issues exactly `Discover`'s requests. |
| `Finder.NotFoundIff` | companies_job_links_find.py:48-51 | The outcome is "not found" iff no truthy homepage was supplied and the resolver found none. The only request is then the search, so nothing is fetched or probed. The record is then `("Not found", [])`. |
| `Finder.FailedIff` | companies_job_links_find.py:106-112 | The outcome is an exception iff the homepage is known and either its fetch raises or a relevant anchor fails to resolve. The record then keeps the attempted homepage, which is non-empty, and has no URLs. |
| `Finder.ExploreWithoutProbing` | companies_job_links_find.py:89 | Unless the scan completed with nothing collected, the homepage GET is the only request after the homepage is known. |
| `Finder.ExploreWithProbing` | companies_job_links_find.py:89-98 | When the scan collected nothing, the homepage GET is followed by one HEAD per pattern. The HEADs go to the homepage with every trailing `/` removed plus the pattern, in pattern order. |
| `Finder.ProbingIff` | companies_job_links_find.py:89-98 | Probing happens iff the homepage is known, was fetched, and the scan completed with nothing collected. The probes are then the last requests, right after the homepage GET, one per pattern, in pattern order. |
| `Finder.RelevantAnchorPreventsProbing` | companies_job_links_find.py:83-89 | A fetched homepage with at least one career-relevant anchor is never probed. |
| `Finder.FoundUrls` | companies_job_links_find.py:89-104 | A found outcome keeps the first `min(3, n)` URLs of the scan's list, or of the probe hits when the scan collected nothing. Every probe hit answered 200 and is the stripped homepage plus a pattern. |
| `Finder.RecordInvariant` | companies_job_links_find.py:100-112 | Every record has at most three URLs. A main website equal to a sentinel comes with no URLs, provided the homepage is not itself spelled like a sentinel. `"Error"` never appears. |
| `Finder.SuppliedHomepage` | companies_job_links_find.py:48 | With a truthy homepage supplied, no search happens and discovery is exploration of that homepage. |
| `Finder.AboutIsNotCareer` | companies_job_links_find.py:77-83 | The anchor `("/about", "About")` is not career-relevant. |
| `Finder.CareersIsCareer` | companies_job_links_find.py:77-83 | The anchor `("/careers", "Careers")` is career-relevant. |
| `Finder.OneRelevantAnchor` | companies_job_links_find.py:76-104 | A page with one irrelevant anchor followed by one relevant anchor yields just the relevant anchor's resolution. |
| `Finder.AboutAndCareersScenario` | companies_job_links_find.py:76-104 | A page with an About link and a Careers link yields only the resolved Careers URL. |
| `Finder.OnlyJobsAccepted` | companies_job_links_find.py:91-98 | When only `/jobs` answers 200, the probe hits are the base plus `/jobs`. |
| `Finder.JobsProbeScenario` | companies_job_links_find.py:88-104 | A page without relevant anchors, where only `/jobs` answers 200, yields the stripped homepage plus `/jobs`. |
| `Strings.LowerAt` | companies_job_links_find.py:77-78 | Lower-casing works character by character. |
| `Strings.LowerNoUpper` | companies_job_links_find.py:77-78 | A string without upper-case letters is its own lower-case form. |
| `Strings.ContainsIff` | companies_job_links_find.py:83 | The computable `in` test holds iff the keyword occurs at some position. |
| `Strings.NotContainsFirstChar` | companies_job_links_find.py:83 | A keyword whose first character is absent from the string does not occur in it. |
| `Strings.RStrip` | companies_job_links_find.py:90 | `rstrip('/')` gives a prefix of the homepage. The prefix does not end in `/`, and everything removed after it is `/`. |
| `Strings.ReplaceAbsent` | companies_job_links_find.py:165 | With no occurrence left, `replace` leaves the rest of the string unchanged. |
| `Strings.ReplaceFirst` | companies_job_links_find.py:165 | The first occurrence is replaced and what precedes it is kept. Replacing then continues after the occurrence. |
| `Strings.FirstOccurrence` | companies_job_links_find.py:165 | Wherever the pattern occurs there is a first occurrence. |
| `Strings.ReplaceLengthMonotone` | companies_job_links_find.py:165 | A longer replacement never gives a shorter result. It gives a strictly longer one when the pattern occurs. |
| `Strings.ReplaceSelf` | companies_job_links_find.py:165 | Replacing a pattern by itself changes nothing. |
| `Strings.ReplaceChanges` | companies_job_links_find.py:165 | Replacing an occurring pattern by a different string at least as long always changes the string. |
| `Seqs.Filter` | companies_job_links_find.py:194 | A comprehension with a condition never yields more elements than its input. |
| `Seqs.FilterMember` | companies_job_links_find.py:206 | Exactly the elements satisfying the condition survive. |
| `Seqs.Dedup` | companies_job_links_find.py:85-86 | De-duplication yields no repeats, no more elements than its input, and only elements of its input. |
| `Seqs.DedupMember` | companies_job_links_find.py:85-86 | De-duplication keeps every value. |
| `Seqs.DedupFirstSeen` | companies_job_links_find.py:85-86 | De-duplication keeps values in the order of their first occurrence. |
| `Seqs.DedupNoDup` | companies_job_links_find.py:85-86 | A list without repeats is left as it is. |
| `Seqs.Take` | companies_job_links_find.py:103 | `s[:n]` is the prefix of length `min(n, len(s))`. |
| `Output.RowColumns` | companies_job_links_find.py:172-179 | A row copies the company and main website, and its total is the number of URLs. URL column `k` holds the `k`-th URL when `len > k`, and is empty otherwise. |
| `Output.RowRecoversUrls` | companies_job_links_find.py:172-179 | For at most three URLs, the first `total` URL columns are exactly the URL list, and the remaining columns are empty. |
| `Output.NoTxtAppends` | companies_job_links_find.py:165 | A filename without `.txt` gets the extension appended. |
| `Output.TxtEndingSwapped` | companies_job_links_find.py:165 | A filename whose only `.txt` is its ending has that ending swapped for the extension. |
| `Output.OutputNeverInput` | companies_job_links_find.py:165-183 | Neither the CSV name (line 165) nor the JSON name (line 183) ever equals the input filename. |
| `Output.CsvJsonNamesDiffer` | companies_job_links_find.py:165-183 | The CSV file (line 165) and the JSON file (line 183) never have the same name. |
| `Summary.CountCareerPages` | companies_job_links_find.py:194 | The count of results with URLs is at most the total. |
| `Summary.CountWebsites` | companies_job_links_find.py:195 | The count of results whose website is not a sentinel is at most the total. |
| `Summary.CountsAreSelections` | companies_job_links_find.py:193-203 | Each count is the size of the corresponding selection. The "no career page" figure, total minus career pages, is the number of results with no URLs. |
| `Summary.CareerPagesAtMostWebsites` | companies_job_links_find.py:194-195 | Career pages never outnumber websites found, when every result with URLs has a real website (which `Finder.RecordInvariant` guarantees). |
| `Summary.Insert` | companies_job_links_find.py:206-207 | Insertion adds exactly one element and keeps all the others. |
| `Summary.SortDesc` | companies_job_links_find.py:206-207 | The sort's result is a permutation of its input. |
| `Summary.InsertSorted` | companies_job_links_find.py:206-207 | Insertion keeps a list non-increasing by URL count. |
| `Summary.SortDescSorted` | companies_job_links_find.py:206-207 | The sort's result is non-increasing by URL count. |
| `Summary.InsertTies` | companies_job_links_find.py:206-207 | Insertion puts the new element ahead of every element with the same count. |
| `Summary.SortDescStable` | companies_job_links_find.py:206-207 | The sort is stable: for every count, the results with that count keep their input order. |
| `Summary.TopCompanies` | companies_job_links_find.py:206-207 | The top list has at most ten entries. |
| `Summary.TopMembers` | companies_job_links_find.py:193-207 | The top list has `min(10, career pages)` entries, each an input result with non-empty URLs. |
| `Summary.TopSorted` | companies_job_links_find.py:206-207 | The top list is non-increasing by URL count. |
| `Summary.TopStable` | companies_job_links_find.py:206-207 | For every count, the top list's results with that count are a prefix of the input's results with that count. |
| `Summary.TopMaximal` | companies_job_links_find.py:206-207 | No result with URLs left out of the top list has more URLs than any result in it. |
| `Summary.PrefixDominates` | companies_job_links_find.py:206-207 | In a non-increasing list, every element of a prefix has at least the count of every later element. |
| `Summary.TiesOfFound` | companies_job_links_find.py:206 | Selecting results with URLs and then those with count `k` gives no results for `k = 0`, and otherwise gives the input's results with count `k`. |
| `Summary.Summarize` | companies_job_links_find.py:193-207 | The report has websites ≤ total and career pages + no career page = total. Its top list has `min(10, career pages)` entries. |

## Left out

- HTTP behaviour is not modelled: the session, the User-Agent header, timeouts, redirects, and what a non-200 homepage body contains. A non-200 homepage is still parsed by the source; the model only sees anchors or a raise, through the `fetch` oracle.
- HTML parsing with BeautifulSoup is not modelled, including `find_all` and `get_text(strip=True)`. Anchors arrive as `(href, text)` pairs with the text already extracted, and result anchors as optional `href`s.
- `urljoin` is not modelled. Section 5.2 of RFC 3986 defines the semantics it follows; here it is the uninterpreted `resolve`.
- `str.lower` is modelled for ASCII only. It is Unicode-aware in the source.
- The search URL is built by plain string concatenation. The URL encoding that `requests` applies to it is not modelled.
- File reading and writing, CSV quoting and JSON serialisation are not modelled. Neither are the checkpoint files, `time.sleep`, `print`, `input()`, `main` or `quick_test`. All of these are I/O or presentation.
- The percentages printed in the summary are not modelled, because they are floating point. They also raise `ZeroDivisionError` on an empty result list; the model keeps only the integer figures, and these are defined for every list.
- The `results` field of `CareerPageFinder` is never updated by the modelled code, and the `session` field is network state, so the finder is not modelled as a class.
- The batch orchestrator `process_companies_from_file` is not modelled. It lies outside the core.
- Concurrency and real time do not arise. The source is sequential, and the model is deterministic by construction.
