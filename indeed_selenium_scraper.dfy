/**
 * The Selenium-based Indeed scraper (`IndeedSeleniumScraper`). Loading a
 * results page in the browser and extracting its cards is a parameter
 * `fetch`: the cards extracted from the page at a URL. A card whose link has
 * no `href` has the empty URL.
 */
module IndeedSeleniumScraper {
  import opened Text
  import opened Seqs
  import opened Jobs
  import IndeedScraper

  // ---------------------------------------------------------------- get_indeed_url

  /** `keyword.replace(' ', '+')` */
  function Plus(s: string): string
  {
    ReplaceChar(s, ' ', '+')
  }

  /** `get_indeed_url`: spaces in the keyword and the location become `+`, then the start offset. */
  function GetIndeedUrl(keyword: string, location: string, start: nat): (url: string)
  {
    IndeedScraper.BaseUrl + "?q=" + Plus(keyword) + "&l=" + Plus(location) + "&start=" + NatToString(start)
  }

  function QueryParams(keyword: string, location: string, start: nat): seq<string>
  {
    ["q=" + Plus(keyword), "l=" + Plus(location), "start=" + NatToString(start)]
  }

  /** The query of the URL is its three parameters joined with `&`. */
  lemma UrlQuery(keyword: string, location: string, start: nat)
    ensures GetIndeedUrl(keyword, location, start)[|IndeedScraper.BaseUrl| + 1..]
      == Join("&", QueryParams(keyword, location, start))
  {
    var params := QueryParams(keyword, location, start);
    var url := GetIndeedUrl(keyword, location, start);
    assert Join("&", params[1..]) == params[1] + "&" + params[2] by {
      assert params[1..][1..] == [params[2]];
    }
    assert Join("&", params) == params[0] + "&" + params[1] + "&" + params[2];
    assert url == IndeedScraper.BaseUrl + "?" + (params[0] + "&" + params[1] + "&" + params[2]);
  }

  /** The URL holds no space. */
  lemma UrlHasNoSpace(keyword: string, location: string, start: nat)
    ensures NoChar(GetIndeedUrl(keyword, location, start), ' ')
  {
    assert NoChar(IndeedScraper.BaseUrl + "?q=", ' ');
    IndeedScraper.NatDigitsNoChar(start, ' ');
    NoCharConcat(IndeedScraper.BaseUrl + "?q=", Plus(keyword), ' ');
    NoCharConcat(IndeedScraper.BaseUrl + "?q=" + Plus(keyword), "&l=", ' ');
    NoCharConcat(IndeedScraper.BaseUrl + "?q=" + Plus(keyword) + "&l=", Plus(location), ' ');
    NoCharConcat(IndeedScraper.BaseUrl + "?q=" + Plus(keyword) + "&l=" + Plus(location), "&start=", ' ');
    NoCharConcat(IndeedScraper.BaseUrl + "?q=" + Plus(keyword) + "&l=" + Plus(location) + "&start=", NatToString(start), ' ');
  }

  /**
   * When the keyword and the location hold no `+` and no `&`, the query
   * splits into its three parameters and turning `+` back into spaces gives
   * the keyword and the location.
   */
  lemma QueryRoundTrip(keyword: string, location: string, start: nat)
    requires NoChar(keyword, '&') && NoChar(location, '&')
    requires NoChar(keyword, '+') && NoChar(location, '+')
    ensures var url := GetIndeedUrl(keyword, location, start);
      && Split(url[|IndeedScraper.BaseUrl| + 1..], '&') == QueryParams(keyword, location, start)
      && ReplaceChar(Plus(keyword), '+', ' ') == keyword
      && ReplaceChar(Plus(location), '+', ' ') == location
  {
    var params := QueryParams(keyword, location, start);
    UrlQuery(keyword, location, start);
    IndeedScraper.NatDigitsNoChar(start, '&');
    assert NoChar(Plus(keyword), '&');
    assert NoChar(Plus(location), '&');
    forall k | 0 <= k < |params|
      ensures NoChar(params[k], '&')
    {
      if k == 0 {
        NoCharConcat("q=", Plus(keyword), '&');
      } else if k == 1 {
        NoCharConcat("l=", Plus(location), '&');
      } else {
        NoCharConcat("start=", NatToString(start), '&');
      }
    }
    SplitJoin(params, '&');
    ReplaceCharInverse(keyword, ' ', '+');
    ReplaceCharInverse(location, ' ', '+');
  }

  // ---------------------------------------------------------------- search_jobs

  /** The jobs `scrape_page` returns for each start offset of one (keyword, location) search. */
  function StartPages(keyword: string, location: string, fetch: string -> seq<Job>): nat -> seq<Job>
  {
    (start: nat) => IndeedScraper.PageJobs(fetch, GetIndeedUrl(keyword, location, start))
  }

  /**
   * The jobs of one search from offset `start` with `collected` results so
   * far: pages are read while fewer than `max_results_per_search` results are
   * collected, until one is empty; `page` gives the jobs at an offset.
   */
  function PagesFrom(page: nat -> seq<Job>, start: nat, collected: nat, maxResults: int): seq<Job>
    decreases maxResults - collected
  {
    if collected >= maxResults then []
    else if page(start) == [] then []
    else page(start) + PagesFrom(page, start + 15, collected + |page(start)|, maxResults)
  }

  /**
   * The pagination loop of `search_jobs`, for the pages at the offsets of
   * one (keyword, location) search. It returns the jobs and the offsets it
   * requested: 0, 15, 30, …; every page but the last had jobs, and the loop
   * stopped at an empty page unless the jobs collected reached
   * `max_results_per_search`.
   */
  method Paginate(page: nat -> seq<Job>, maxResults: int) returns (found: seq<Job>, starts: seq<nat>)
    ensures found == PagesFrom(page, 0, 0, maxResults)
    ensures forall k :: 0 <= k < |starts| ==> starts[k] == 15 * k
    ensures forall k :: 0 <= k < |starts| - 1 ==> page(starts[k]) != []
    ensures |found| < maxResults ==> |starts| >= 1 && page(starts[|starts| - 1]) == []
  {
    found := [];
    starts := [];
    var resultsCollected: nat := 0;
    var start: nat := 0;
    while resultsCollected < maxResults
      invariant found + PagesFrom(page, start, resultsCollected, maxResults) == PagesFrom(page, 0, 0, maxResults)
      invariant resultsCollected == |found| && start == 15 * |starts|
      invariant forall k :: 0 <= k < |starts| ==> starts[k] == 15 * k
      invariant forall k :: 0 <= k < |starts| ==> page(starts[k]) != []
      decreases maxResults - resultsCollected
    {
      var jobs := page(start);
      starts := starts + [start];
      if jobs == [] {
        return;
      }
      found := found + jobs;
      resultsCollected := resultsCollected + |jobs|;
      start := start + 15;
    }
  }

  /** The pagination of one (keyword, location) search: `scrape_page` at `get_indeed_url(keyword, location, start)`. */
  method SearchPages(keyword: string, location: string, maxResults: int, fetch: string -> seq<Job>)
    returns (found: seq<Job>, starts: seq<nat>)
    ensures found == PagesFrom(StartPages(keyword, location, fetch), 0, 0, maxResults)
    ensures forall k :: 0 <= k < |starts| ==> starts[k] == 15 * k
  {
    found, starts := Paginate(StartPages(keyword, location, fetch), maxResults);
  }

  /** One (keyword, location) search. */
  function PageSearch(maxResults: int, fetch: string -> seq<Job>): (string, string) -> seq<Job>
  {
    (keyword: string, location: string) => PagesFrom(StartPages(keyword, location, fetch), 0, 0, maxResults)
  }

  /**
   * The location loop of `search_jobs` for one keyword. It has the same shape
   * as `IndeedScraper.SearchKeyword`, but it calls this module's `SearchPages`.
   */
  method SearchKeyword(keyword: string, locations: seq<string>, maxResults: int, fetch: string -> seq<Job>)
    returns (found: seq<Job>)
    ensures found == KeywordResults(keyword, locations, PageSearch(maxResults, fetch))
  {
    found := [];
    for j := 0 to |locations|
      invariant found == KeywordResults(keyword, locations[..j], PageSearch(maxResults, fetch))
    {
      assert locations[..j + 1][..j] == locations[..j];
      var jobs, _ := SearchPages(keyword, locations[j], maxResults, fetch);
      found := found + jobs;
    }
    assert locations[..|locations|] == locations;
  }

  /** `search_jobs`: every keyword with every location, then the URL de-duplication. */
  method SearchJobs(keywords: seq<string>, locations: seq<string>, maxResults: int, fetch: string -> seq<Job>)
    returns (unique: seq<Job>)
    ensures unique == DropBlankDedup(AllResults(keywords, locations, PageSearch(maxResults, fetch)))
  {
    var all: seq<Job> := [];
    for i := 0 to |keywords|
      invariant all == AllResults(keywords[..i], locations, PageSearch(maxResults, fetch))
    {
      assert keywords[..i + 1][..i] == keywords[..i];
      var found := SearchKeyword(keywords[i], locations, maxResults, fetch);
      all := all + found;
    }
    assert keywords[..|keywords|] == keywords;
    unique := DedupUrls(all);
  }

  // ---------------------------------------------------------------- the URL de-duplication

  /** A job is kept only if its URL is non-blank and not seen before. */
  function DropBlankDedup(jobs: seq<Job>): seq<Job>
  {
    if jobs == [] then []
    else
      var init, job := jobs[..|jobs| - 1], jobs[|jobs| - 1];
      DropBlankDedup(init) + (if job.url != "" && job.url !in UrlsOf(init) then [job] else [])
  }

  /** The de-duplication loop at the end of `search_jobs`. */
  method DedupUrls(all: seq<Job>) returns (unique: seq<Job>)
    ensures unique == DropBlankDedup(all)
  {
    var seen: set<string> := {};
    unique := [];
    for i := 0 to |all|
      invariant unique == DropBlankDedup(all[..i])
      invariant seen == UrlsOf(all[..i])
    {
      var job := all[i];
      assert all[..i + 1] == all[..i] + [job];
      assert all[..i + 1][..i] == all[..i];
      UrlsOfSnoc(all[..i], job);
      if job.url != "" && job.url !in seen {
        seen := seen + {job.url};
        unique := unique + [job];
      }
    }
    assert all[..|all|] == all;
  }

  function NonBlankRule(): Job -> bool
  {
    (job: Job) => job.url != ""
  }

  function Url(job: Job): string
  {
    job.url
  }

  /** The URLs of the non-blank jobs are the non-blank URLs. */
  lemma NonBlankKeys(jobs: seq<Job>)
    ensures KeysOf(Filter(jobs, NonBlankRule()), Url) == UrlsOf(jobs)
  {
    FilterMembers(jobs, NonBlankRule());
  }

  /**
   * The de-duplication is the first job per URL among the jobs with a
   * non-blank URL.
   */
  lemma {:induction false} DropBlankDedupIsKeepFirst(jobs: seq<Job>)
    ensures DropBlankDedup(jobs) == KeepFirst(Filter(jobs, NonBlankRule()), Url)
    decreases |jobs|
  {
    if jobs != [] {
      var init, job := jobs[..|jobs| - 1], jobs[|jobs| - 1];
      DropBlankDedupIsKeepFirst(init);
      assert jobs == init + [job];
      FilterSnoc(init, job, NonBlankRule());
      var kept := Filter(init, NonBlankRule());
      assert jobs[..|jobs| - 1] == init;
      if job.url != "" {
        NonBlankKeys(init);
        KeepFirstSnoc(kept, job, Url);
        assert Filter(jobs, NonBlankRule()) == kept + [job];
      } else {
        assert Filter(jobs, NonBlankRule()) == kept;
        assert DropBlankDedup(jobs) == DropBlankDedup(init);
      }
    }
  }

  /**
   * Every kept job has a non-blank URL, no two kept jobs share one, no
   * non-blank URL is lost, and the kept jobs are in input order.
   */
  lemma DropBlankDedupProperties(jobs: seq<Job>)
    ensures forall job :: job in DropBlankDedup(jobs) ==> job in jobs && job.url != ""
    ensures DistinctKeys(DropBlankDedup(jobs), Url)
    ensures KeysOf(DropBlankDedup(jobs), Url) == UrlsOf(jobs)
    ensures IsSubsequence(DropBlankDedup(jobs), jobs)
  {
    var nonBlank := Filter(jobs, NonBlankRule());
    DropBlankDedupIsKeepFirst(jobs);
    KeepFirstProperties(nonBlank, Url);
    FilterMembers(jobs, NonBlankRule());
    NonBlankKeys(jobs);
    KeepFirstIsSubsequence(nonBlank, Url);
    FilterIsSubsequence(jobs, NonBlankRule());
    SubsequenceTransitive(KeepFirst(nonBlank, Url), nonBlank, jobs);
  }
}
