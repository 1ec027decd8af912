/** The career-page finder: the resolver that picks a homepage from a search
    results page, and the discovery engine that scans the homepage's anchors
    for career keywords, falls back to probing conventional paths, and keeps
    at most three URLs.

    The network is an oracle (`Net`): what the search request, the homepage
    GET and each HEAD probe return is given as data, with "raised an
    exception" as one of the outcomes. URL resolution (`urljoin`) is the
    uninterpreted `resolve`, which may also raise (`None`). */
module Finder {
  import opened Wrappers
  import opened Strings
  import opened Seqs

  /** An `<a>` element with an `href`: the raw attribute and the visible text. */
  datatype Anchor = Anchor(href: string, text: string)

  /** The search request raised, or the page's `result__a` anchors in page
      order, each with its `href` attribute when it has one. */
  datatype SearchPage = SearchFailed | SearchResults(hrefs: seq<Option<string>>)

  /** The homepage GET (or the parse of its body) raised, or the anchors of
      the parsed page that carry an `href`, in document order. */
  datatype PageFetch = FetchFailed | Fetched(anchors: seq<Anchor>)

  /** The reply to a HEAD probe: a status code, or an exception. */
  datatype ProbeReply = Status(code: int) | ProbeRaised

  /** What each request returns, as a function of its URL. */
  datatype Net = Net(search: string -> SearchPage, fetch: string -> PageFetch, probe: string -> ProbeReply)

  /** A network request the finder issues, in the order it issues them. */
  datatype Request = SearchGet(url: string) | PageGet(url: string) | ProbeHead(url: string)

  /** The three ways discovery ends: no homepage could be found; an exception
      once the homepage was known; or the homepage and its career URLs. */
  datatype Outcome = NotFound | Failed(attempted: string) | Found(site: string, urls: seq<string>)

  /** The dictionary `{"company", "main_website", "career_urls"}`. */
  datatype DiscoveryResult = DiscoveryResult(company: string, mainWebsite: string, careerUrls: seq<string>)

  /** An outcome together with the requests that produced it. */
  datatype Run = Run(outcome: Outcome, requests: seq<Request>)

  const NotFoundSentinel: string := "Not found"
  const ErrorSentinel: string := "Error"

  /** The most career URLs a result keeps (`career_links[:3]`). */
  const MaxCareerUrls: nat := 3

  const Keywords: seq<string> :=
    ["career", "job", "work with us", "join us", "employment", "hiring", "opportunities", "openings"]

  const Patterns: seq<string> :=
    ["/careers", "/career", "/jobs", "/job-opportunities", "/work-with-us",
     "/join-us", "/employment", "/opportunities", "/hiring", "/openings"]

  predicate IsSentinel(s: string)
  {
    s == NotFoundSentinel || s == ErrorSentinel
  }

  /** Python's `not s` for an optional string: `None` or empty. */
  predicate IsFalsy(s: Option<string>)
  {
    s.None? || s.value == ""
  }

  function SearchUrl(company: string): string
  {
    "https://duckduckgo.com/html/?q=" + company + " official website"
  }

  // ---------------------------------------------------------------- resolver

  /** `search_company_website` after the request: the first result anchor's
      `href`, if that anchor exists and its `href` is present and non-empty. */
  function SearchCompanyWebsite(page: SearchPage): (r: Option<string>)
    ensures r.Some? <==> page.SearchResults? && page.hrefs != [] && !IsFalsy(page.hrefs[0])
    ensures r.Some? ==> r == page.hrefs[0] && r.value != ""
  {
    match page
    case SearchFailed => None
    case SearchResults(hrefs) =>
      if hrefs != [] && hrefs[0].Some? && hrefs[0].value != "" then hrefs[0] else None
  }

  /** Only the first result anchor matters: whatever follows it is never read. */
  lemma ResolverReadsOnlyFirstAnchor(first: Option<string>, rest1: seq<Option<string>>, rest2: seq<Option<string>>)
    ensures SearchCompanyWebsite(SearchResults([first] + rest1)) == SearchCompanyWebsite(SearchResults([first] + rest2))
    ensures SearchCompanyWebsite(SearchResults([first] + rest1)) == if IsFalsy(first) then None else first
  {
  }

  // ---------------------------------------------------------- classification

  /** Some keyword from index `i` on occurs in `href` or in `text`: Python's
      `any(keyword in href or keyword in text for keyword in career_keywords)`
      over the rest of the list. */
  predicate MentionsKeyword(href: string, text: string, i: nat)
    decreases |Keywords| - i
  {
    i < |Keywords| &&
    (Contains(href, Keywords[i]) || Contains(text, Keywords[i]) || MentionsKeyword(href, text, i + 1))
  }

  /** An anchor is career-relevant when some keyword occurs in its lower-cased
      `href` or in its lower-cased text. */
  predicate IsCareerLink(a: Anchor)
  {
    MentionsKeyword(Lower(a.href), Lower(a.text), 0)
  }

  lemma {:induction false} MentionsKeywordIff(href: string, text: string, i: nat)
    ensures MentionsKeyword(href, text, i) <==>
      exists j :: i <= j < |Keywords| && (IsSubstring(Keywords[j], href) || IsSubstring(Keywords[j], text))
    decreases |Keywords| - i
  {
    if i < |Keywords| {
      MentionsKeywordIff(href, text, i + 1);
      ContainsIff(href, Keywords[i]);
      ContainsIff(text, Keywords[i]);
    }
  }

  /** Classification is exactly "some keyword of the fixed list is a substring
      of the lower-cased href or of the lower-cased text". */
  lemma CareerLinkIff(a: Anchor)
    ensures IsCareerLink(a) <==>
      exists i :: 0 <= i < |Keywords| &&
        (IsSubstring(Keywords[i], Lower(a.href)) || IsSubstring(Keywords[i], Lower(a.text)))
  {
    MentionsKeywordIff(Lower(a.href), Lower(a.text), 0);
  }

  // ------------------------------------------------------------------ scan

  /** `urljoin(home, link['href'])` for each link in turn, with the original-case
      `href`; `None` as soon as one resolution raises. */
  function ResolveAll(home: string, links: seq<Anchor>, resolve: (string, string) -> Option<string>): (r: Option<seq<string>>)
    ensures r.Some? ==> |r.value| == |links|
  {
    if links == [] then Some([])
    else
      var init, last := links[..|links| - 1], links[|links| - 1];
      match ResolveAll(home, init, resolve)
      case None => None
      case Some(urls) =>
        match resolve(home, last.href)
        case None => None
        case Some(u) => Some(urls + [u])
  }

  /** Resolution succeeds exactly when every link resolves, and then yields
      each link's resolution at the link's position. */
  lemma {:induction false} ResolveAllSpec(home: string, links: seq<Anchor>, resolve: (string, string) -> Option<string>)
    ensures var r := ResolveAll(home, links, resolve);
      r.Some? <==> forall k :: 0 <= k < |links| ==> resolve(home, links[k].href).Some?
    ensures var r := ResolveAll(home, links, resolve);
      r.Some? ==> forall k :: 0 <= k < |links| ==> resolve(home, links[k].href) == Some(r.value[k])
  {
    if links != [] {
      var init, last := links[..|links| - 1], links[|links| - 1];
      ResolveAllSpec(home, init, resolve);
      assert forall k :: 0 <= k < |init| ==> init[k] == links[k];
    }
  }

  /** The scan of the homepage's anchors: the resolved URLs of the
      career-relevant anchors, first occurrence kept, in anchor order; `None`
      when a resolution raises. */
  function Scan(home: string, anchors: seq<Anchor>, resolve: (string, string) -> Option<string>): Option<seq<string>>
  {
    match ResolveAll(home, Filter(anchors, IsCareerLink), resolve)
    case None => None
    case Some(urls) => Some(Dedup(urls))
  }

  /** The scan raises exactly when a career-relevant anchor's `href` fails to resolve. */
  lemma ScanFailsIff(home: string, anchors: seq<Anchor>, resolve: (string, string) -> Option<string>)
    ensures Scan(home, anchors, resolve).None? <==>
      exists a :: a in anchors && IsCareerLink(a) && resolve(home, a.href).None?
  {
    var links := Filter(anchors, IsCareerLink);
    ResolveAllSpec(home, links, resolve);
    if Scan(home, anchors, resolve).None? {
      var k :| 0 <= k < |links| && resolve(home, links[k].href).None?;
      FilterMember(anchors, IsCareerLink, links[k]);
    }
    if a :| a in anchors && IsCareerLink(a) && resolve(home, a.href).None? {
      FilterMember(anchors, IsCareerLink, a);
      var k :| 0 <= k < |links| && links[k] == a;
    }
  }

  /** What a successful scan collects: no duplicates, exactly the resolutions of
      the career-relevant anchors, in first-seen order, and no more of them
      than there are relevant anchors. */
  lemma ScanResult(home: string, anchors: seq<Anchor>, resolve: (string, string) -> Option<string>)
    requires Scan(home, anchors, resolve).Some?
    ensures var links := Scan(home, anchors, resolve).value;
      && NoDup(links)
      && |links| <= |Filter(anchors, IsCareerLink)|
      && (forall u :: u in links <==> exists a :: a in anchors && IsCareerLink(a) && resolve(home, a.href) == Some(u))
    ensures var urls := ResolveAll(home, Filter(anchors, IsCareerLink), resolve).value;
      var links := Scan(home, anchors, resolve).value;
      forall i, j :: 0 <= i < j < |links| ==> IndexOf(urls, links[i]) < IndexOf(urls, links[j])
  {
    var relevant := Filter(anchors, IsCareerLink);
    var urls := ResolveAll(home, relevant, resolve).value;
    var links := Dedup(urls);
    ResolveAllSpec(home, relevant, resolve);
    DedupFirstSeen(urls);
    forall u
      ensures u in links <==> exists a :: a in anchors && IsCareerLink(a) && resolve(home, a.href) == Some(u)
    {
      DedupMember(urls, u);
      if u in links {
        var k :| 0 <= k < |urls| && urls[k] == u;
        FilterMember(anchors, IsCareerLink, relevant[k]);
        assert resolve(home, relevant[k].href) == Some(u);
      }
      if a :| a in anchors && IsCareerLink(a) && resolve(home, a.href) == Some(u) {
        FilterMember(anchors, IsCareerLink, a);
        var k :| 0 <= k < |relevant| && relevant[k] == a;
        assert urls[k] == u;
      }
    }
  }

  /** Once a resolution among the first `n` anchors has raised, the whole scan raises. */
  lemma ScanFailsFromPrefix(home: string, anchors: seq<Anchor>, n: nat, resolve: (string, string) -> Option<string>)
    requires n <= |anchors|
    requires ResolveAll(home, Filter(anchors[..n], IsCareerLink), resolve).None?
    ensures Scan(home, anchors, resolve).None?
  {
    var front := Filter(anchors[..n], IsCareerLink);
    assert anchors == anchors[..n] + anchors[n..];
    FilterAppend(anchors[..n], anchors[n..], IsCareerLink);
    ResolveAllSpec(home, front, resolve);
    ResolveAllSpec(home, Filter(anchors, IsCareerLink), resolve);
    var k :| 0 <= k < |front| && resolve(home, front[k].href).None?;
    assert Filter(anchors, IsCareerLink)[k] == front[k];
  }

  // ------------------------------------------------------------- probing

  predicate Accepted(reply: ProbeReply)
  {
    reply.Status? && reply.code == 200
  }

  function AcceptedBy(probe: string -> ProbeReply): string -> bool
  {
    u => Accepted(probe(u))
  }

  /** `base_url + pattern` for each pattern, in pattern order. */
  function ProbeUrls(base: string, patterns: seq<string>): (r: seq<string>)
    ensures |r| == |patterns|
    ensures forall i :: 0 <= i < |patterns| ==> r[i] == base + patterns[i]
  {
    if patterns == [] then [] else [base + patterns[0]] + ProbeUrls(base, patterns[1..])
  }

  /** A HEAD request for each URL, in order. */
  function ProbeRequests(urls: seq<string>): (r: seq<Request>)
    ensures |r| == |urls|
    ensures forall i :: 0 <= i < |urls| ==> r[i] == ProbeHead(urls[i])
  {
    if urls == [] then [] else [ProbeHead(urls[0])] + ProbeRequests(urls[1..])
  }

  /** The probe URLs whose HEAD reply is status 200, in probe order. Probes that
      raise or answer anything else are skipped and probing goes on. */
  function ProbeHits(urls: seq<string>, probe: string -> ProbeReply): seq<string>
  {
    Filter(urls, AcceptedBy(probe))
  }

  /** Probing keeps exactly the URLs whose probe answers 200. */
  lemma ProbeHitsIff(urls: seq<string>, probe: string -> ProbeReply, u: string)
    ensures u in ProbeHits(urls, probe) <==> u in urls && Accepted(probe(u))
  {
    FilterMember(urls, AcceptedBy(probe), u);
  }

  // ------------------------------------------------------------ discovery

  /** The homepage discovery works on: the one supplied, or else the resolver's. */
  function Attempted(company: string, mainWebsite: Option<string>, net: Net): Option<string>
  {
    if IsFalsy(mainWebsite) then SearchCompanyWebsite(net.search(SearchUrl(company))) else mainWebsite
  }

  /** The search request issued when no homepage was supplied. */
  function Searched(company: string, mainWebsite: Option<string>): seq<Request>
  {
    if IsFalsy(mainWebsite) then [SearchGet(SearchUrl(company))] else []
  }

  /** Everything `find_career_page` does once the homepage is known: fetch it,
      scan its anchors, probe the patterns if the scan collected nothing, and
      keep the first three URLs. */
  function Explore(home: string, net: Net, resolve: (string, string) -> Option<string>): Run
  {
    match net.fetch(home)
    case FetchFailed => Run(Failed(home), [PageGet(home)])
    case Fetched(anchors) =>
      match Scan(home, anchors, resolve)
      case None => Run(Failed(home), [PageGet(home)])
      case Some(links) =>
        if links != [] then Run(Found(home, Take(links, MaxCareerUrls)), [PageGet(home)])
        else
          var urls := ProbeUrls(RStrip(home, '/'), Patterns);
          Run(Found(home, Take(ProbeHits(urls, net.probe), MaxCareerUrls)), [PageGet(home)] + ProbeRequests(urls))
  }

  /** `find_career_page`, stated over whole lists. */
  function Discover(company: string, mainWebsite: Option<string>, net: Net,
                    resolve: (string, string) -> Option<string>): Run
  {
    var searched := Searched(company, mainWebsite);
    match Attempted(company, mainWebsite, net)
    case None => Run(NotFound, searched)
    case Some(home) =>
      var run := Explore(home, net, resolve);
      Run(run.outcome, searched + run.requests)
  }

  /** The dictionary the source returns for an outcome; after an exception the
      main website is `main_website or "Error"`. */
  function ToRecord(company: string, outcome: Outcome): DiscoveryResult
  {
    match outcome
    case NotFound => DiscoveryResult(company, NotFoundSentinel, [])
    case Failed(home) => DiscoveryResult(company, if home == "" then ErrorSentinel else home, [])
    case Found(home, urls) => DiscoveryResult(company, home, urls)
  }

  /** The scan loop of `find_career_page`: for each anchor, if it is
      career-relevant, resolve its original-case `href` and append the result
      unless it is already there. `None` when a resolution raises. */
  method ScanAnchors(home: string, anchors: seq<Anchor>, resolve: (string, string) -> Option<string>)
    returns (careerLinks: Option<seq<string>>)
    ensures careerLinks == Scan(home, anchors, resolve)
  {
    var links: seq<string> := [];
    ghost var relevant: seq<Anchor> := [];
    ghost var urls: seq<string> := [];
    var i := 0;
    while i < |anchors|
      invariant 0 <= i <= |anchors|
      invariant relevant == Filter(anchors[..i], IsCareerLink)
      invariant ResolveAll(home, relevant, resolve) == Some(urls)
      invariant links == Dedup(urls)
    {
      var link := anchors[i];
      assert anchors[..i + 1] == anchors[..i] + [link];
      FilterSnoc(anchors[..i], link, IsCareerLink);
      if IsCareerLink(link) {
        var fullUrl := resolve(home, link.href);
        ResolveAllSnoc(home, relevant, link, resolve);
        if fullUrl.None? {
          ScanFailsFromPrefix(home, anchors, i + 1, resolve);
          return None;
        }
        DedupSnoc(urls, fullUrl.value);
        if fullUrl.value !in links {
          links := links + [fullUrl.value];
        }
        relevant := relevant + [link];
        urls := urls + [fullUrl.value];
      }
      i := i + 1;
    }
    assert anchors[..i] == anchors;
    return Some(links);
  }

  lemma ResolveAllSnoc(home: string, links: seq<Anchor>, last: Anchor, resolve: (string, string) -> Option<string>)
    ensures ResolveAll(home, links + [last], resolve) ==
      match ResolveAll(home, links, resolve)
      case None => None
      case Some(urls) => (match resolve(home, last.href) case None => None case Some(u) => Some(urls + [u]))
  {
    assert (links + [last])[..|links|] == links;
  }

  /** The probing loop of `find_career_page`: a HEAD request for `base + pattern`
      for every pattern in order, keeping the URLs that answer 200. */
  method ProbePatterns(base: string, probe: string -> ProbeReply)
    returns (hits: seq<string>, requests: seq<Request>)
    ensures hits == ProbeHits(ProbeUrls(base, Patterns), probe)
    ensures requests == ProbeRequests(ProbeUrls(base, Patterns))
  {
    hits, requests := [], [];
    var j := 0;
    while j < |Patterns|
      invariant 0 <= j <= |Patterns|
      invariant hits == ProbeHits(ProbeUrls(base, Patterns[..j]), probe)
      invariant requests == ProbeRequests(ProbeUrls(base, Patterns[..j]))
    {
      var testUrl := base + Patterns[j];
      assert Patterns[..j + 1] == Patterns[..j] + [Patterns[j]];
      ProbeUrlsSnoc(base, Patterns[..j], Patterns[j]);
      FilterSnoc(ProbeUrls(base, Patterns[..j]), testUrl, AcceptedBy(probe));
      ProbeRequestsSnoc(ProbeUrls(base, Patterns[..j]), testUrl);
      requests := requests + [ProbeHead(testUrl)];
      var reply := probe(testUrl);
      if Accepted(reply) {
        hits := hits + [testUrl];
      }
      j := j + 1;
    }
    assert Patterns[..j] == Patterns;
  }

  lemma {:induction false} ProbeUrlsSnoc(base: string, patterns: seq<string>, last: string)
    ensures ProbeUrls(base, patterns + [last]) == ProbeUrls(base, patterns) + [base + last]
  {
    if patterns == [] {
      assert [last][1..] == [];
    } else {
      assert (patterns + [last])[1..] == patterns[1..] + [last];
      ProbeUrlsSnoc(base, patterns[1..], last);
    }
  }

  lemma {:induction false} ProbeRequestsSnoc(urls: seq<string>, last: string)
    ensures ProbeRequests(urls + [last]) == ProbeRequests(urls) + [ProbeHead(last)]
  {
    if urls == [] {
      assert [last][1..] == [];
    } else {
      assert (urls + [last])[1..] == urls[1..] + [last];
      ProbeRequestsSnoc(urls[1..], last);
    }
  }

  /** The part of `find_career_page` after the homepage is known. */
  method ExploreHomepage(company: string, home: string, net: Net, resolve: (string, string) -> Option<string>)
    returns (result: DiscoveryResult, requests: seq<Request>)
    ensures result == ToRecord(company, Explore(home, net, resolve).outcome)
    ensures requests == Explore(home, net, resolve).requests
  {
    requests := [PageGet(home)];
    var page := net.fetch(home);
    if page.FetchFailed? {
      return DiscoveryResult(company, if home == "" then ErrorSentinel else home, []), requests;
    }
    var scanned := ScanAnchors(home, page.anchors, resolve);
    if scanned.None? {
      return DiscoveryResult(company, if home == "" then ErrorSentinel else home, []), requests;
    }
    var careerLinks := scanned.value;
    if careerLinks == [] {
      var probes;
      careerLinks, probes := ProbePatterns(RStrip(home, '/'), net.probe);
      requests := requests + probes;
    }
    result := DiscoveryResult(company, home, Take(careerLinks, MaxCareerUrls));
  }

  /** `find_career_page`. */
  method FindCareerPage(company: string, mainWebsite: Option<string>, net: Net,
                        resolve: (string, string) -> Option<string>)
    returns (result: DiscoveryResult, requests: seq<Request>)
    ensures result == ToRecord(company, Discover(company, mainWebsite, net, resolve).outcome)
    ensures requests == Discover(company, mainWebsite, net, resolve).requests
  {
    var home := mainWebsite;
    requests := [];
    if IsFalsy(mainWebsite) {
      var searchUrl := SearchUrl(company);
      requests := [SearchGet(searchUrl)];
      home := SearchCompanyWebsite(net.search(searchUrl));
    }
    if home.None? {
      return DiscoveryResult(company, NotFoundSentinel, []), requests;
    }
    var explored;
    result, explored := ExploreHomepage(company, home.value, net, resolve);
    requests := requests + explored;
  }

  // ------------------------------------------------- properties of discovery

  predicate HasProbe(requests: seq<Request>)
  {
    exists k :: 0 <= k < |requests| && requests[k].ProbeHead?
  }

  /** "Not found" happens exactly when no homepage was supplied and the resolver
      found none; only the search request is issued, and nothing is fetched or probed. */
  lemma NotFoundIff(company: string, mainWebsite: Option<string>, net: Net,
                    resolve: (string, string) -> Option<string>)
    ensures var run := Discover(company, mainWebsite, net, resolve);
      run.outcome.NotFound? <==> IsFalsy(mainWebsite) && SearchCompanyWebsite(net.search(SearchUrl(company))).None?
    ensures var run := Discover(company, mainWebsite, net, resolve);
      run.outcome.NotFound? ==>
        && run.requests == [SearchGet(SearchUrl(company))]
        && ToRecord(company, run.outcome) == DiscoveryResult(company, NotFoundSentinel, [])
  {
  }

  /** Discovery ends in an exception exactly when the homepage is known and its
      fetch raises or a relevant anchor fails to resolve. The record then keeps
      the attempted homepage, which is never empty, so `"Error"` never appears. */
  lemma FailedIff(company: string, mainWebsite: Option<string>, net: Net,
                  resolve: (string, string) -> Option<string>)
    ensures var run := Discover(company, mainWebsite, net, resolve);
      var home := Attempted(company, mainWebsite, net);
      run.outcome.Failed? <==>
        home.Some? &&
        (net.fetch(home.value).FetchFailed? ||
         exists a :: a in net.fetch(home.value).anchors && IsCareerLink(a) && resolve(home.value, a.href).None?)
    ensures var run := Discover(company, mainWebsite, net, resolve);
      var home := Attempted(company, mainWebsite, net);
      run.outcome.Failed? ==>
        && home.Some? && home.value != ""
        && ToRecord(company, run.outcome) == DiscoveryResult(company, home.value, [])
  {
    var home := Attempted(company, mainWebsite, net);
    if home.Some? && net.fetch(home.value).Fetched? {
      ScanFailsIff(home.value, net.fetch(home.value).anchors, resolve);
    }
  }

  /** For a known homepage, the homepage GET is the only request unless the
      homepage was fetched and scanned without an exception and the scan
      collected nothing. */
  lemma ExploreWithoutProbing(home: string, net: Net, resolve: (string, string) -> Option<string>)
    requires !(net.fetch(home).Fetched? && Scan(home, net.fetch(home).anchors, resolve) == Some([]))
    ensures Explore(home, net, resolve).requests == [PageGet(home)]
  {
  }

  /** When the scan collected nothing, the homepage GET is followed by one HEAD
      per pattern, against the homepage with trailing `/` removed, in pattern
      order. */
  lemma ExploreWithProbing(home: string, net: Net, resolve: (string, string) -> Option<string>)
    requires net.fetch(home).Fetched? && Scan(home, net.fetch(home).anchors, resolve) == Some([])
    ensures var requests := Explore(home, net, resolve).requests;
      && |requests| == 1 + |Patterns|
      && requests[0] == PageGet(home)
      && forall i :: 0 <= i < |Patterns| ==> requests[1 + i] == ProbeHead(RStrip(home, '/') + Patterns[i])
  {
  }

  /** Probing happens exactly when the homepage is known, was fetched and
      scanned without an exception, and the scan collected nothing. The probes
      then come last, right after the homepage GET, one HEAD per pattern,
      against the homepage with trailing `/` removed, in pattern order. */
  lemma ProbingIff(company: string, mainWebsite: Option<string>, net: Net,
                   resolve: (string, string) -> Option<string>)
    ensures var run := Discover(company, mainWebsite, net, resolve);
      var home := Attempted(company, mainWebsite, net);
      HasProbe(run.requests) <==>
        home.Some? && net.fetch(home.value).Fetched? &&
        Scan(home.value, net.fetch(home.value).anchors, resolve) == Some([])
    ensures var run := Discover(company, mainWebsite, net, resolve);
      var home := Attempted(company, mainWebsite, net);
      HasProbe(run.requests) ==>
        var n := |run.requests| - |Patterns|;
        && n >= 1
        && run.requests[n - 1] == PageGet(home.value)
        && forall i :: 0 <= i < |Patterns| ==> run.requests[n + i] == ProbeHead(RStrip(home.value, '/') + Patterns[i])
  {
    var run := Discover(company, mainWebsite, net, resolve);
    var searched := Searched(company, mainWebsite);
    assert !HasProbe(searched);
    var home := Attempted(company, mainWebsite, net);
    if home.Some? {
      var explored := Explore(home.value, net, resolve);
      assert run.requests == searched + explored.requests;
      HasProbeAppend(searched, explored.requests);
      if net.fetch(home.value).Fetched? && Scan(home.value, net.fetch(home.value).anchors, resolve) == Some([]) {
        ExploreWithProbing(home.value, net, resolve);
        assert explored.requests[1].ProbeHead?;
      } else {
        ExploreWithoutProbing(home.value, net, resolve);
        assert !HasProbe(explored.requests);
      }
    }
  }

  lemma HasProbeAppend(a: seq<Request>, b: seq<Request>)
    requires !HasProbe(a)
    ensures HasProbe(a + b) <==> HasProbe(b)
  {
    if HasProbe(b) {
      var k :| 0 <= k < |b| && b[k].ProbeHead?;
      assert (a + b)[|a| + k] == b[k];
    }
  }

  /** A homepage with at least one career-relevant anchor is never probed. */
  lemma RelevantAnchorPreventsProbing(company: string, mainWebsite: Option<string>, net: Net,
                                      resolve: (string, string) -> Option<string>)
    requires var home := Attempted(company, mainWebsite, net);
      home.Some? && net.fetch(home.value).Fetched? &&
      Filter(net.fetch(home.value).anchors, IsCareerLink) != []
    ensures !HasProbe(Discover(company, mainWebsite, net, resolve).requests)
  {
    var home := Attempted(company, mainWebsite, net).value;
    var anchors := net.fetch(home).anchors;
    ProbingIff(company, mainWebsite, net, resolve);
    var relevant := Filter(anchors, IsCareerLink);
    match ResolveAll(home, relevant, resolve)
    case None =>
    case Some(urls) =>
      DedupMember(urls, urls[0]);
  }

  /** The career URLs found are the first `min(3, n)` of the scan's list, or,
      when the scan collected nothing, of the probe hits; every probe hit is the
      stripped homepage plus a pattern whose probe answered 200. */
  lemma FoundUrls(company: string, mainWebsite: Option<string>, net: Net,
                  resolve: (string, string) -> Option<string>)
    ensures var run := Discover(company, mainWebsite, net, resolve);
      var home := Attempted(company, mainWebsite, net);
      run.outcome.Found? ==>
        && home.Some? && run.outcome.site == home.value
        && net.fetch(home.value).Fetched?
        && var links := Scan(home.value, net.fetch(home.value).anchors, resolve);
           var probed := ProbeHits(ProbeUrls(RStrip(home.value, '/'), Patterns), net.probe);
           && links.Some?
           && run.outcome.urls == Take(if links.value != [] then links.value else probed, MaxCareerUrls)
           && |run.outcome.urls| <= MaxCareerUrls
           && (links.value == [] ==> forall u :: u in run.outcome.urls ==>
                 Accepted(net.probe(u)) &&
                 exists i :: 0 <= i < |Patterns| && u == RStrip(home.value, '/') + Patterns[i])
  {
    var run := Discover(company, mainWebsite, net, resolve);
    var home := Attempted(company, mainWebsite, net);
    if run.outcome.Found? && Scan(home.value, net.fetch(home.value).anchors, resolve).value == [] {
      var urls := ProbeUrls(RStrip(home.value, '/'), Patterns);
      var probed := ProbeHits(urls, net.probe);
      forall u | u in run.outcome.urls
        ensures Accepted(net.probe(u)) && exists i :: 0 <= i < |Patterns| && u == RStrip(home.value, '/') + Patterns[i]
      {
        assert u in probed;
        ProbeHitsIff(urls, net.probe, u);
        var i :| 0 <= i < |urls| && urls[i] == u;
      }
    }
  }

  /** The invariants on every record: at most three career URLs, and a
      sentinel main website only with no career URLs (given that the homepage
      itself is not spelled like a sentinel). */
  lemma RecordInvariant(company: string, mainWebsite: Option<string>, net: Net,
                        resolve: (string, string) -> Option<string>)
    requires var home := Attempted(company, mainWebsite, net); home.Some? ==> !IsSentinel(home.value)
    ensures var r := ToRecord(company, Discover(company, mainWebsite, net, resolve).outcome);
      && |r.careerUrls| <= MaxCareerUrls
      && (IsSentinel(r.mainWebsite) ==> r.careerUrls == [])
      && r.mainWebsite != ErrorSentinel
  {
    FoundUrls(company, mainWebsite, net, resolve);
  }

  // -------------------------------------------------------------- scenarios

  /** With a homepage supplied, discovery is exploration of that homepage. */
  lemma SuppliedHomepage(company: string, home: string, net: Net, resolve: (string, string) -> Option<string>)
    requires home != ""
    ensures Discover(company, Some(home), net, resolve) == Explore(home, net, resolve)
  {
    assert [] + Explore(home, net, resolve).requests == Explore(home, net, resolve).requests;
  }

  lemma AboutIsNotCareer()
    ensures !IsCareerLink(Anchor("/about", "About"))
  {
    LowerNoUpper("/about");
    LowerNoUpper("bout");
    assert Lower("About") == [LowerChar('A')] + Lower("bout");
    forall i | 0 <= i < |Keywords|
      ensures !Contains("/about", Keywords[i]) && !Contains("about", Keywords[i])
    {
      if Keywords[i][0] == 'o' {
        assert |Keywords[i]| > 6;
      } else {
        NotContainsFirstChar("/about", Keywords[i]);
        NotContainsFirstChar("about", Keywords[i]);
      }
    }
    MentionsKeywordIff("/about", "about", 0);
  }

  lemma CareersIsCareer()
    ensures IsCareerLink(Anchor("/careers", "Careers"))
  {
    LowerNoUpper("/careers");
    assert "/careers"[1..][..6] == "career";
    assert Contains("/careers", "career");
  }

  /** A page whose one irrelevant anchor precedes one relevant anchor yields
      that anchor's resolved URL only. */
  lemma OneRelevantAnchor(home: string, net: Net, resolve: (string, string) -> Option<string>,
                          other: Anchor, relevant: Anchor, u: string)
    requires net.fetch(home) == Fetched([other, relevant])
    requires !IsCareerLink(other) && IsCareerLink(relevant)
    requires resolve(home, relevant.href) == Some(u)
    ensures Explore(home, net, resolve).outcome == Found(home, [u])
  {
    FilterSnoc([other], relevant, IsCareerLink);
    assert [other, relevant] == [other] + [relevant];
    assert Filter([other], IsCareerLink) == [];
    var resolved := ResolveAll(home, [relevant], resolve);
    ResolveAllSpec(home, [relevant], resolve);
    assert resolved.Some? && resolved.value[0] == u;
    assert resolved.value == [u];
    assert [u][..0] == [];
    assert Dedup([u]) == [u];
  }

  /** A page with an "About" link and a "Careers" link yields the resolved
      careers link only. */
  lemma AboutAndCareersScenario(company: string, home: string, net: Net,
                                resolve: (string, string) -> Option<string>, careers: string)
    requires home != ""
    requires net.fetch(home) == Fetched([Anchor("/about", "About"), Anchor("/careers", "Careers")])
    requires resolve(home, "/careers") == Some(careers)
    ensures ToRecord(company, Discover(company, Some(home), net, resolve).outcome) ==
      DiscoveryResult(company, home, [careers])
  {
    SuppliedHomepage(company, home, net, resolve);
    AboutIsNotCareer();
    CareersIsCareer();
    OneRelevantAnchor(home, net, resolve, Anchor("/about", "About"), Anchor("/careers", "Careers"), careers);
  }

  /** The hits of the probes when only `/jobs` answers 200. */
  lemma OnlyJobsAccepted(base: string, probe: string -> ProbeReply)
    requires forall i :: 0 <= i < |Patterns| ==>
      (Accepted(probe(base + Patterns[i])) <==> Patterns[i] == "/jobs")
    ensures ProbeHits(ProbeUrls(base, Patterns), probe) == [base + "/jobs"]
  {
    var urls := ProbeUrls(base, Patterns);
    var accept := AcceptedBy(probe);
    assert Patterns[2] == "/jobs";
    assert forall i :: 0 <= i < |urls| ==> (accept(urls[i]) <==> i == 2);
    assert urls == urls[..2] + [urls[2]] + urls[3..];
    FilterAppend(urls[..2] + [urls[2]], urls[3..], accept);
    FilterAppend(urls[..2], [urls[2]], accept);
    FilterNone(urls[..2], accept);
    FilterNone(urls[3..], accept);
    assert Filter([urls[2]], accept) == [urls[2]] + Filter([], accept);
  }

  /** A page with no relevant anchor, where only `/jobs` answers 200, yields
      the stripped homepage plus `/jobs`. */
  lemma JobsProbeScenario(company: string, home: string, anchors: seq<Anchor>, net: Net,
                          resolve: (string, string) -> Option<string>)
    requires home != ""
    requires net.fetch(home) == Fetched(anchors)
    requires forall i :: 0 <= i < |anchors| ==> !IsCareerLink(anchors[i])
    requires forall i :: 0 <= i < |Patterns| ==>
      (Accepted(net.probe(RStrip(home, '/') + Patterns[i])) <==> Patterns[i] == "/jobs")
    ensures ToRecord(company, Discover(company, Some(home), net, resolve).outcome) ==
      DiscoveryResult(company, home, [RStrip(home, '/') + "/jobs"])
  {
    SuppliedHomepage(company, home, net, resolve);
    FilterNone(anchors, IsCareerLink);
    assert Scan(home, anchors, resolve) == Some([]);
    OnlyJobsAccepted(RStrip(home, '/'), net.probe);
  }
}
