/** Output shaping in `save_results`: the CSV row written for each discovery
    result, and the names of the CSV and JSON files derived from the output
    filename. */
module Output {
  import opened Strings
  import opened Finder

  const TxtExtension: string := ".txt"
  const CsvExtension: string := ".csv"
  const JsonExtension: string := ".json"

  /** One row of the CSV file, one field per header column: `Company`,
      `Main_Website`, `Career_URL_1` to `Career_URL_3` and `Total_Career_URLs`. */
  datatype CsvRow = CsvRow(company: string, mainWebsite: string,
                           url1: string, url2: string, url3: string, total: nat)

  /** `urls[k] if len(urls) > k else ''`. */
  function UrlColumn(urls: seq<string>, k: nat): string
  {
    if |urls| > k then urls[k] else ""
  }

  /** The row dictionary built for one result. */
  function Row(result: DiscoveryResult): CsvRow
  {
    var urls := result.careerUrls;
    CsvRow(result.company, result.mainWebsite, UrlColumn(urls, 0), UrlColumn(urls, 1), UrlColumn(urls, 2), |urls|)
  }

  /** The three URL columns of a row, in column order. */
  function UrlColumns(row: CsvRow): seq<string>
  {
    [row.url1, row.url2, row.url3]
  }

  /** A row records the company, the main website and the URL count unchanged;
      URL column `k` holds the `k`-th URL when there is one and is empty
      otherwise. */
  lemma RowColumns(result: DiscoveryResult, k: nat)
    requires k < 3
    ensures Row(result).company == result.company && Row(result).mainWebsite == result.mainWebsite
    ensures Row(result).total == |result.careerUrls|
    ensures k < |result.careerUrls| ==> UrlColumns(Row(result))[k] == result.careerUrls[k]
    ensures k >= |result.careerUrls| ==> UrlColumns(Row(result))[k] == ""
  {
  }

  /** For a result with at most three URLs (every result discovery produces),
      the row loses nothing: the first `total` URL columns are exactly the URL
      list, and the rest are empty. */
  lemma RowRecoversUrls(result: DiscoveryResult)
    requires |result.careerUrls| <= 3
    ensures var row := Row(result);
      && UrlColumns(row)[..row.total] == result.careerUrls
      && forall k :: row.total <= k < 3 ==> UrlColumns(row)[k] == ""
  {
    var row := Row(result);
    forall k | 0 <= k < row.total
      ensures UrlColumns(row)[k] == result.careerUrls[k]
    {
      RowColumns(result, k);
    }
  }

  /** `filename.replace('.txt', ext) if '.txt' in filename else filename + ext`. */
  function OutputName(filename: string, ext: string): string
  {
    if Contains(filename, TxtExtension) then Replace(filename, TxtExtension, ext) else filename + ext
  }

  /** A filename without `.txt` gets the extension appended. */
  lemma NoTxtAppends(filename: string, ext: string)
    requires !IsSubstring(TxtExtension, filename)
    ensures OutputName(filename, ext) == filename + ext
  {
    ContainsIff(filename, TxtExtension);
  }

  /** A filename whose only `.txt` is its ending has that ending swapped for
      the extension. */
  lemma TxtEndingSwapped(stem: string, ext: string)
    requires forall j :: 0 <= j < |stem| ==> !OccursAt(stem + TxtExtension, TxtExtension, j)
    ensures OutputName(stem + TxtExtension, ext) == stem + ext
  {
    var name := stem + TxtExtension;
    assert name[|stem|..] == TxtExtension;
    assert OccursAt(name, TxtExtension, |stem|);
    assert Contains(name, TxtExtension) by {
      ContainsIff(name, TxtExtension);
    }
    ReplaceFirst(name, TxtExtension, ext, 0, |stem|);
    assert name[..|stem|] == stem;
  }

  /** Neither output file ever has the input file's name. */
  lemma OutputNeverInput(filename: string)
    ensures OutputName(filename, CsvExtension) != filename
    ensures OutputName(filename, JsonExtension) != filename
  {
    if Contains(filename, TxtExtension) {
      ReplaceChanges(filename, TxtExtension, CsvExtension);
      ReplaceChanges(filename, TxtExtension, JsonExtension);
    } else {
      assert |filename + CsvExtension| > |filename|;
      assert |filename + JsonExtension| > |filename|;
    }
  }

  /** The CSV and the JSON file never share a name. */
  lemma CsvJsonNamesDiffer(filename: string)
    ensures OutputName(filename, CsvExtension) != OutputName(filename, JsonExtension)
  {
    if Contains(filename, TxtExtension) {
      ReplaceLengthMonotone(filename, TxtExtension, CsvExtension, JsonExtension, 0);
    } else {
      assert |filename + CsvExtension| < |filename + JsonExtension|;
    }
  }
}
