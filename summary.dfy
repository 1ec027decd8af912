/** The summary report of `generate_summary_report`: how many results found a
    main website and a career page, and the (at most ten) results with the
    most career URLs, by a stable descending sort on the URL count. */
module Summary {
  import opened Seqs
  import opened Finder

  /** How many results the top list keeps. */
  const TopSize: nat := 10

  function UrlCount(r: DiscoveryResult): nat
  {
    |r.careerUrls|
  }

  /** `if r['career_urls']`: the list is non-empty. */
  predicate HasUrls(r: DiscoveryResult)
  {
    r.careerUrls != []
  }

  predicate NoUrls(r: DiscoveryResult)
  {
    r.careerUrls == []
  }

  /** `r['main_website'] not in ['Not found', 'Error']`. */
  predicate HasWebsite(r: DiscoveryResult)
  {
    !IsSentinel(r.mainWebsite)
  }

  // ------------------------------------------------------------- counts

  /** `sum(1 for r in results if r['career_urls'])`. */
  function CountCareerPages(results: seq<DiscoveryResult>): (n: nat)
    ensures n <= |results|
  {
    if results == [] then 0
    else (if HasUrls(results[0]) then 1 else 0) + CountCareerPages(results[1..])
  }

  /** `sum(1 for r in results if r['main_website'] not in ['Not found', 'Error'])`. */
  function CountWebsites(results: seq<DiscoveryResult>): (n: nat)
    ensures n <= |results|
  {
    if results == [] then 0
    else (if HasWebsite(results[0]) then 1 else 0) + CountWebsites(results[1..])
  }

  /** The counts are the sizes of the corresponding selections, and the
      "no career page" figure, total minus career pages, is the number of
      results with an empty URL list. */
  lemma {:induction false} CountsAreSelections(results: seq<DiscoveryResult>)
    ensures CountCareerPages(results) == |Filter(results, HasUrls)|
    ensures CountWebsites(results) == |Filter(results, HasWebsite)|
    ensures |results| - CountCareerPages(results) == |Filter(results, NoUrls)|
  {
    if results != [] {
      CountsAreSelections(results[1..]);
    }
  }

  /** When every result with a sentinel website has no career URLs (which
      discovery guarantees, see `Finder.RecordInvariant`), career pages are
      never more than websites found. */
  lemma {:induction false} CareerPagesAtMostWebsites(results: seq<DiscoveryResult>)
    requires forall i :: 0 <= i < |results| ==> HasUrls(results[i]) ==> HasWebsite(results[i])
    ensures CountCareerPages(results) <= CountWebsites(results)
  {
    if results != [] {
      CareerPagesAtMostWebsites(results[1..]);
    }
  }

  // --------------------------------------------------------- stable sort

  /** Non-increasing by URL count. */
  predicate SortedDesc(s: seq<DiscoveryResult>)
  {
    forall i, j :: 0 <= i < j < |s| ==> UrlCount(s[i]) >= UrlCount(s[j])
  }

  /** Inserts `x` before the first element with a smaller count, so ahead of
      every element with the same count. */
  function Insert(x: DiscoveryResult, s: seq<DiscoveryResult>): (r: seq<DiscoveryResult>)
    ensures multiset(r) == multiset(s) + multiset{x}
  {
    if s == [] || UrlCount(x) >= UrlCount(s[0]) then [x] + s
    else
      assert s == [s[0]] + s[1..];
      [s[0]] + Insert(x, s[1..])
  }

  /** `sorted(s, key=lambda x: len(x['career_urls']), reverse=True)`, as an
      insertion sort from the back. */
  function SortDesc(s: seq<DiscoveryResult>): (r: seq<DiscoveryResult>)
    ensures multiset(r) == multiset(s)
  {
    if s == [] then []
    else
      assert s == [s[0]] + s[1..];
      Insert(s[0], SortDesc(s[1..]))
  }

  lemma {:induction false} InsertSorted(x: DiscoveryResult, s: seq<DiscoveryResult>)
    requires SortedDesc(s)
    ensures SortedDesc(Insert(x, s))
  {
    if s != [] && UrlCount(x) < UrlCount(s[0]) {
      var tail := Insert(x, s[1..]);
      InsertSorted(x, s[1..]);
      forall y | y in tail
        ensures UrlCount(s[0]) >= UrlCount(y)
      {
        assert y in multiset(tail);
      }
    }
  }

  /** The sort's result is non-increasing by URL count. */
  lemma {:induction false} SortDescSorted(s: seq<DiscoveryResult>)
    ensures SortedDesc(SortDesc(s))
  {
    if s != [] {
      SortDescSorted(s[1..]);
      InsertSorted(s[0], SortDesc(s[1..]));
    }
  }

  /** The results with URL count `k`. */
  function CountIs(k: nat): DiscoveryResult -> bool
  {
    r => UrlCount(r) == k
  }

  lemma {:induction false} InsertTies(x: DiscoveryResult, s: seq<DiscoveryResult>, k: nat)
    ensures Filter(Insert(x, s), CountIs(k)) == (if UrlCount(x) == k then [x] else []) + Filter(s, CountIs(k))
  {
    if s == [] || UrlCount(x) >= UrlCount(s[0]) {
      assert ([x] + s)[1..] == s;
    } else {
      InsertTies(x, s[1..], k);
      assert ([s[0]] + Insert(x, s[1..]))[1..] == Insert(x, s[1..]);
    }
  }

  /** Stability: among results with the same URL count, the sort keeps the
      input order. */
  lemma {:induction false} SortDescStable(s: seq<DiscoveryResult>, k: nat)
    ensures Filter(SortDesc(s), CountIs(k)) == Filter(s, CountIs(k))
  {
    if s != [] {
      SortDescStable(s[1..], k);
      InsertTies(s[0], SortDesc(s[1..]), k);
    }
  }

  // ------------------------------------------------------------- top ten

  /** `sorted([r for r in results if r['career_urls']], key=..., reverse=True)[:10]`. */
  function TopCompanies(results: seq<DiscoveryResult>): (top: seq<DiscoveryResult>)
    ensures |top| <= TopSize
  {
    Take(SortDesc(Filter(results, HasUrls)), TopSize)
  }

  /** The top list holds `min(10, career pages)` results, each of them a
      result from the input with a non-empty URL list. */
  lemma TopMembers(results: seq<DiscoveryResult>)
    ensures var top := TopCompanies(results);
      |top| == if CountCareerPages(results) < TopSize then CountCareerPages(results) else TopSize
    ensures forall x :: x in TopCompanies(results) ==> x in results && HasUrls(x)
  {
    var found := Filter(results, HasUrls);
    var sorted := SortDesc(found);
    CountsAreSelections(results);
    assert |sorted| == |multiset(sorted)| == |found|;
    forall x | x in TopCompanies(results)
      ensures x in results && HasUrls(x)
    {
      assert x in sorted;
      assert x in multiset(sorted);
      FilterMember(results, HasUrls, x);
    }
  }

  /** The top list is non-increasing by URL count. */
  lemma TopSorted(results: seq<DiscoveryResult>)
    ensures SortedDesc(TopCompanies(results))
  {
    SortDescSorted(Filter(results, HasUrls));
  }

  /** Ties keep the input order: for each count, the top list's results with
      that count are the first of the input's results with that count. */
  lemma TopStable(results: seq<DiscoveryResult>, k: nat)
    ensures Filter(TopCompanies(results), CountIs(k)) <= Filter(results, CountIs(k))
  {
    var found := Filter(results, HasUrls);
    var sorted := SortDesc(found);
    var top := TopCompanies(results);
    assert sorted == top + sorted[|top|..];
    FilterAppend(top, sorted[|top|..], CountIs(k));
    SortDescStable(found, k);
    TiesOfFound(results, k);
  }

  /** Every result with URLs left out of the top list has no more URLs than
      any result in it. */
  lemma TopMaximal(results: seq<DiscoveryResult>)
    ensures var found := Filter(results, HasUrls);
      var top := TopCompanies(results);
      forall x, y :: x in multiset(found) - multiset(top) && y in top ==> UrlCount(y) >= UrlCount(x)
  {
    var found := Filter(results, HasUrls);
    var sorted := SortDesc(found);
    var top := TopCompanies(results);
    var rest := sorted[|top|..];
    assert sorted == top + rest;
    assert multiset(found) - multiset(top) == multiset(rest);
    SortDescSorted(found);
    PrefixDominates(sorted, |top|);
  }

  /** In a non-increasing list, everything in a prefix has at least the count
      of everything after it. */
  lemma PrefixDominates(s: seq<DiscoveryResult>, n: nat)
    requires SortedDesc(s) && n <= |s|
    ensures forall x, y :: x in s[n..] && y in s[..n] ==> UrlCount(y) >= UrlCount(x)
  {
    forall x, y | x in s[n..] && y in s[..n]
      ensures UrlCount(y) >= UrlCount(x)
    {
      var i :| 0 <= i < n && s[..n][i] == y;
      var j :| 0 <= j < |s| - n && s[n..][j] == x;
      assert s[i] == y && s[n + j] == x;
    }
  }

  /** A count above zero is a count of a result with URLs. */
  lemma {:induction false} TiesOfFound(results: seq<DiscoveryResult>, k: nat)
    ensures Filter(Filter(results, HasUrls), CountIs(k)) == if k == 0 then [] else Filter(results, CountIs(k))
  {
    if results != [] {
      TiesOfFound(results[1..], k);
      var head := if HasUrls(results[0]) then [results[0]] else [];
      FilterAppend(head, Filter(results[1..], HasUrls), CountIs(k));
      if HasUrls(results[0]) {
        assert head[1..] == [];
      }
    }
  }

  // -------------------------------------------------------------- report

  /** The integer figures of the summary report and its top list. */
  datatype Report = Report(total: nat, websites: nat, careerPages: nat, noCareerPage: nat, top: seq<DiscoveryResult>)

  /** `generate_summary_report` without its printing. */
  function Summarize(results: seq<DiscoveryResult>): (r: Report)
    ensures r.websites <= r.total && r.careerPages <= r.total
    ensures r.careerPages + r.noCareerPage == r.total
    ensures |r.top| == if r.careerPages < TopSize then r.careerPages else TopSize
  {
    TopMembers(results);
    var found := CountCareerPages(results);
    Report(|results|, CountWebsites(results), found, |results| - found, TopCompanies(results))
  }
}
