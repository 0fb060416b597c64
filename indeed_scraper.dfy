/**
 * The requests-based Indeed scraper (`IndeedScraper`). Fetching a results
 * page and parsing its cards is a parameter `fetch`: the cards parsed from
 * the page at a URL.
 */
module IndeedScraper {
  import opened Text
  import opened Seqs
  import opened Jobs

  // ---------------------------------------------------------------- get_indeed_url

  const BaseUrl: string := "https://in.indeed.com/jobs"

  /** The `key=value` pairs of the query, in the order of the `params` dict. */
  function QueryParams(keyword: string, location: string, page: nat): seq<string>
  {
    ["q=" + keyword, "l=" + location, "start=" + NatToString(page * 10), "sort=date", "from=searchOnHP"]
  }

  /** `get_indeed_url`: the parameters joined with `&`, nothing encoded. */
  function GetIndeedUrl(keyword: string, location: string, page: nat): string
  {
    BaseUrl + "?" + Join("&", QueryParams(keyword, location, page))
  }

  /**
   * When neither the keyword nor the location holds an `&`, splitting the
   * query at `&` gives back the five parameters, in order.
   */
  lemma QueryRoundTrip(keyword: string, location: string, page: nat)
    requires NoChar(keyword, '&') && NoChar(location, '&')
    ensures var url := GetIndeedUrl(keyword, location, page);
      Split(url[|BaseUrl| + 1..], '&') == QueryParams(keyword, location, page)
  {
    var params := QueryParams(keyword, location, page);
    var url := GetIndeedUrl(keyword, location, page);
    assert url[|BaseUrl| + 1..] == Join("&", params);
    NatDigitsNoChar(page * 10, '&');
    assert NoChar("sort=date", '&');
    assert NoChar("from=searchOnHP", '&');
    forall k | 0 <= k < |params|
      ensures NoChar(params[k], '&')
    {
      if k == 0 {
        NoCharConcat("q=", keyword, '&');
      } else if k == 1 {
        NoCharConcat("l=", location, '&');
      } else if k == 2 {
        NoCharConcat("start=", NatToString(page * 10), '&');
      }
    }
    SplitJoin(params, '&');
  }

  /** The query written out. */
  lemma QueryJoined(keyword: string, location: string, page: nat)
    ensures Join("&", QueryParams(keyword, location, page))
      == "q=" + keyword + "&" + "l=" + location + "&" + "start=" + NatToString(page * 10)
         + ("&" + "sort=date" + "&" + "from=searchOnHP")
  {
    var ps := QueryParams(keyword, location, page);
    assert Join("&", ps[3..]) == "sort=date" + "&" + "from=searchOnHP" by {
      assert ps[3..][1..] == ["from=searchOnHP"];
    }
    assert Join("&", ps[2..]) == ps[2] + "&" + Join("&", ps[3..]) by {
      assert ps[2..][1..] == ps[3..];
    }
    assert Join("&", ps[1..]) == ps[1] + "&" + Join("&", ps[2..]) by {
      assert ps[1..][1..] == ps[2..];
    }
  }

  /** A decimal numeral holds only digits. */
  lemma NatDigitsNoChar(n: nat, c: char)
    requires !IsDigit(c)
    ensures NoChar(NatToString(n), c)
  {
    var s := NatToString(n);
    assert AllDigits(s);
  }

  /** The URL around its page number. */
  lemma UrlShape(keyword: string, location: string, page: nat)
    ensures GetIndeedUrl(keyword, location, page)
      == (BaseUrl + "?" + "q=" + keyword + "&" + "l=" + location + "&" + "start=")
         + NatToString(page * 10) + ("&" + "sort=date" + "&" + "from=searchOnHP")
  {
    QueryJoined(keyword, location, page);
  }

  /** Equal strings with the same prefix and suffix have the same middle. */
  lemma MiddleDetermined(prefix: string, a: string, b: string, suffix: string)
    requires prefix + a + suffix == prefix + b + suffix
    ensures a == b
  {
    var s := prefix + a + suffix;
    assert |a| == |b|;
    forall i | 0 <= i < |a|
      ensures a[i] == b[i]
    {
      assert a[i] == s[|prefix| + i];
      assert b[i] == (prefix + b + suffix)[|prefix| + i];
    }
  }

  /** Different pages of one search have different URLs. */
  lemma PageUrlsDistinct(keyword: string, location: string, p1: nat, p2: nat)
    requires GetIndeedUrl(keyword, location, p1) == GetIndeedUrl(keyword, location, p2)
    ensures p1 == p2
  {
    UrlShape(keyword, location, p1);
    UrlShape(keyword, location, p2);
    MiddleDetermined(BaseUrl + "?" + "q=" + keyword + "&" + "l=" + location + "&" + "start=",
      NatToString(p1 * 10), NatToString(p2 * 10), "&" + "sort=date" + "&" + "from=searchOnHP");
    ParseNatToString(p1 * 10);
    ParseNatToString(p2 * 10);
  }

  // ---------------------------------------------------------------- scrape_page

  /** The title filter of `scrape_page`: only cards that yielded a title are returned. */
  method KeepTitled(cards: seq<Job>) returns (jobs: seq<Job>)
    ensures jobs == Filter(cards, TitleRule())
    ensures forall job :: job in jobs <==> job in cards && HasTitle(job)
  {
    jobs := [];
    for i := 0 to |cards|
      invariant jobs == Filter(cards[..i], TitleRule())
    {
      FilterSnoc(cards[..i], cards[i], TitleRule());
      assert cards[..i + 1] == cards[..i] + [cards[i]];
      if HasTitle(cards[i]) {
        jobs := jobs + [cards[i]];
      }
    }
    assert cards[..|cards|] == cards;
    FilterMembers(cards, TitleRule());
  }

  function TitleRule(): Job -> bool
  {
    (job: Job) => HasTitle(job)
  }

  /** The jobs `scrape_page` returns for a URL. */
  function PageJobs(fetch: string -> seq<Job>, url: string): seq<Job>
  {
    Filter(fetch(url), TitleRule())
  }

  // ---------------------------------------------------------------- search_jobs

  /** The jobs of one (keyword, location) search from page `page` on: pages are read until one is empty or `max_pages` is reached. */
  function PagesFrom(keyword: string, location: string, page: nat, maxPages: int, fetch: string -> seq<Job>): seq<Job>
    decreases maxPages - page
  {
    if page >= maxPages then []
    else
      var jobs := PageJobs(fetch, GetIndeedUrl(keyword, location, page));
      jobs + (if jobs == [] then [] else PagesFrom(keyword, location, page + 1, maxPages, fetch))
  }

  /** The number of pages that search requests from page `page` on. */
  function PagesRead(keyword: string, location: string, page: nat, maxPages: int, fetch: string -> seq<Job>): nat
    decreases maxPages - page
  {
    if page >= maxPages then 0
    else if PageJobs(fetch, GetIndeedUrl(keyword, location, page)) == [] then 1
    else 1 + PagesRead(keyword, location, page + 1, maxPages, fetch)
  }

  /**
   * At most `max_pages` pages are read; every page read before the last one
   * had jobs, and stopping short of `max_pages` means the last one was empty.
   */
  lemma {:induction false} PagesReadBounds(keyword: string, location: string, page: nat, maxPages: int, fetch: string -> seq<Job>)
    ensures page <= maxPages ==> PagesRead(keyword, location, page, maxPages, fetch) <= maxPages - page
    ensures page >= maxPages ==> PagesRead(keyword, location, page, maxPages, fetch) == 0
    ensures forall p: nat :: page <= p < page + PagesRead(keyword, location, page, maxPages, fetch) - 1 ==>
      PageJobs(fetch, GetIndeedUrl(keyword, location, p)) != []
    ensures var n := PagesRead(keyword, location, page, maxPages, fetch);
      page < maxPages && n < maxPages - page ==>
        n >= 1 && PageJobs(fetch, GetIndeedUrl(keyword, location, page + n - 1)) == []
    decreases maxPages - page
  {
    if page < maxPages && PageJobs(fetch, GetIndeedUrl(keyword, location, page)) != [] {
      PagesReadBounds(keyword, location, page + 1, maxPages, fetch);
    }
  }

  /** The page loop of `search_jobs` for one (keyword, location). */
  method SearchPages(keyword: string, location: string, maxPages: int, fetch: string -> seq<Job>)
    returns (found: seq<Job>, pages: nat)
    ensures found == PagesFrom(keyword, location, 0, maxPages, fetch)
    ensures pages == PagesRead(keyword, location, 0, maxPages, fetch)
  {
    found := [];
    pages := 0;
    var page: nat := 0;
    while page < maxPages
      invariant found + PagesFrom(keyword, location, page, maxPages, fetch) == PagesFrom(keyword, location, 0, maxPages, fetch)
      invariant pages + PagesRead(keyword, location, page, maxPages, fetch) == PagesRead(keyword, location, 0, maxPages, fetch)
      decreases maxPages - page
    {
      var url := GetIndeedUrl(keyword, location, page);
      var cards := fetch(url);
      var jobs := KeepTitled(cards);
      assert PagesFrom(keyword, location, page, maxPages, fetch)
        == jobs + (if jobs == [] then [] else PagesFrom(keyword, location, page + 1, maxPages, fetch));
      pages := pages + 1;
      found := found + jobs;
      if jobs == [] {
        return;
      }
      page := page + 1;
    }
  }

  /** One (keyword, location) search. */
  function PageSearch(maxPages: int, fetch: string -> seq<Job>): (string, string) -> seq<Job>
  {
    (keyword: string, location: string) => PagesFrom(keyword, location, 0, maxPages, fetch)
  }

  /** The URL de-duplication: a blank URL is always kept, a non-blank one only the first time. */
  function KeepBlankDedup(jobs: seq<Job>): seq<Job>
  {
    if jobs == [] then []
    else
      var init, job := jobs[..|jobs| - 1], jobs[|jobs| - 1];
      KeepBlankDedup(init) + (if job.url == "" || job.url !in UrlsOf(init) then [job] else [])
  }

  /** The location loop of `search_jobs` for one keyword. */
  method SearchKeyword(keyword: string, locations: seq<string>, maxPages: int, fetch: string -> seq<Job>)
    returns (found: seq<Job>)
    ensures found == KeywordResults(keyword, locations, PageSearch(maxPages, fetch))
  {
    found := [];
    for j := 0 to |locations|
      invariant found == KeywordResults(keyword, locations[..j], PageSearch(maxPages, fetch))
    {
      assert locations[..j + 1][..j] == locations[..j];
      var jobs, _ := SearchPages(keyword, locations[j], maxPages, fetch);
      found := found + jobs;
    }
    assert locations[..|locations|] == locations;
  }

  /** `search_jobs`: every keyword with every location, then the URL de-duplication. */
  method SearchJobs(keywords: seq<string>, locations: seq<string>, maxPages: int, fetch: string -> seq<Job>)
    returns (unique: seq<Job>)
    ensures unique == KeepBlankDedup(AllResults(keywords, locations, PageSearch(maxPages, fetch)))
  {
    var all: seq<Job> := [];
    for i := 0 to |keywords|
      invariant all == AllResults(keywords[..i], locations, PageSearch(maxPages, fetch))
    {
      assert keywords[..i + 1][..i] == keywords[..i];
      var found := SearchKeyword(keywords[i], locations, maxPages, fetch);
      all := all + found;
    }
    assert keywords[..|keywords|] == keywords;
    unique := DedupUrls(all);
  }

  /** The de-duplication loop at the end of `search_jobs`. */
  method DedupUrls(all: seq<Job>) returns (unique: seq<Job>)
    ensures unique == KeepBlankDedup(all)
  {
    var seen: set<string> := {};
    unique := [];
    for i := 0 to |all|
      invariant unique == KeepBlankDedup(all[..i])
      invariant seen == UrlsOf(all[..i])
    {
      var job := all[i];
      assert all[..i + 1] == all[..i] + [job];
      assert all[..i + 1][..i] == all[..i];
      UrlsOfSnoc(all[..i], job);
      if job.url != "" && job.url !in seen {
        seen := seen + {job.url};
        unique := unique + [job];
      } else if job.url == "" {
        unique := unique + [job];
      }
    }
    assert all[..|all|] == all;
  }

  /** No two kept jobs share a non-blank URL. */
  predicate DistinctUrls(jobs: seq<Job>)
  {
    forall i, j :: 0 <= i < j < |jobs| && jobs[i].url != "" ==> jobs[i].url != jobs[j].url
  }

  function BlankRule(): Job -> bool
  {
    (job: Job) => job.url == ""
  }

  /** The de-duplication keeps only input jobs, in input order, and loses no URL. */
  lemma {:induction false} KeepBlankDedupMembers(jobs: seq<Job>)
    ensures forall job :: job in KeepBlankDedup(jobs) ==> job in jobs
    ensures UrlsOf(KeepBlankDedup(jobs)) == UrlsOf(jobs)
    ensures IsSubsequence(KeepBlankDedup(jobs), jobs)
    decreases |jobs|
  {
    if jobs != [] {
      var init, job := jobs[..|jobs| - 1], jobs[|jobs| - 1];
      var r := KeepBlankDedup(init);
      KeepBlankDedupMembers(init);
      assert jobs == init + [job];
      UrlsOfSnoc(init, job);
      if job.url == "" || job.url !in UrlsOf(init) {
        assert KeepBlankDedup(jobs) == r + [job];
        UrlsOfSnoc(r, job);
        assert (r + [job])[..|r|] == r;
        assert jobs[..|jobs| - 1] == init;
      } else {
        assert KeepBlankDedup(jobs) == r;
        assert jobs[..|jobs| - 1] == init;
        assert IsSubsequence(r, init);
      }
    }
  }

  /** Kept jobs have pairwise distinct non-blank URLs. */
  lemma {:induction false} KeepBlankDedupDistinct(jobs: seq<Job>)
    ensures DistinctUrls(KeepBlankDedup(jobs))
    decreases |jobs|
  {
    if jobs != [] {
      var init, job := jobs[..|jobs| - 1], jobs[|jobs| - 1];
      var r := KeepBlankDedup(init);
      KeepBlankDedupDistinct(init);
      if job.url == "" || job.url !in UrlsOf(init) {
        KeepBlankDedupMembers(init);
        var r' := r + [job];
        forall i, j | 0 <= i < j < |r'| && r'[i].url != ""
          ensures r'[i].url != r'[j].url
        {
          if j == |r| {
            assert r[i] in r;
            assert r[i].url in UrlsOf(r);
          }
        }
      }
    }
  }

  /** Every blank-URL job is kept, in input order. */
  lemma {:induction false} KeepBlankDedupBlanks(jobs: seq<Job>)
    ensures Filter(KeepBlankDedup(jobs), BlankRule()) == Filter(jobs, BlankRule())
    decreases |jobs|
  {
    if jobs != [] {
      var init, job := jobs[..|jobs| - 1], jobs[|jobs| - 1];
      var r := KeepBlankDedup(init);
      KeepBlankDedupBlanks(init);
      assert jobs == init + [job];
      FilterSnoc(init, job, BlankRule());
      if job.url == "" || job.url !in UrlsOf(init) {
        assert KeepBlankDedup(jobs) == r + [job];
        FilterSnoc(r, job, BlankRule());
      } else {
        assert KeepBlankDedup(jobs) == r;
        assert !BlankRule()(job);
      }
    }
  }

  /** The first job with a non-blank URL is the one kept for that URL. */
  lemma {:induction false} KeepBlankDedupKeepsFirst(jobs: seq<Job>, i: nat)
    requires i < |jobs| && jobs[i].url != "" && jobs[i].url !in UrlsOf(jobs[..i])
    ensures jobs[i] in KeepBlankDedup(jobs)
    decreases |jobs|
  {
    var init := jobs[..|jobs| - 1];
    if i < |jobs| - 1 {
      assert init[..i] == jobs[..i];
      KeepBlankDedupKeepsFirst(init, i);
      assert KeepBlankDedup(init) <= KeepBlankDedup(jobs);
    } else {
      assert init == jobs[..i];
    }
  }

  /** A job with a blank URL survives the de-duplication. */
  lemma BlankUrlKept(jobs: seq<Job>, job: Job)
    requires job in jobs && job.url == ""
    ensures job in KeepBlankDedup(jobs)
  {
    KeepBlankDedupBlanks(jobs);
    FilterMembers(jobs, BlankRule());
    FilterMembers(KeepBlankDedup(jobs), BlankRule());
  }

  // ---------------------------------------------------------------- filter_operations_jobs

  const OperationsKeywords: seq<string> :=
    ["operations", "coordinator", "executive", "associate", "analyst", "admin", "program", "business operations"]

  predicate IsOperationsJob(job: Job)
  {
    exists k :: 0 <= k < |OperationsKeywords| && Contains(Lower(job.title), OperationsKeywords[k])
  }

  function OperationsRule(): Job -> bool
  {
    (job: Job) => IsOperationsJob(job)
  }

  /** `filter_operations_jobs`: the jobs whose lower-cased title holds an operations keyword, in order. */
  method FilterOperationsJobs(jobs: seq<Job>) returns (filtered: seq<Job>)
    ensures filtered == Filter(jobs, OperationsRule())
    ensures forall job :: job in filtered <==> job in jobs && IsOperationsJob(job)
  {
    filtered := [];
    for i := 0 to |jobs|
      invariant filtered == Filter(jobs[..i], OperationsRule())
    {
      FilterSnoc(jobs[..i], jobs[i], OperationsRule());
      assert jobs[..i + 1] == jobs[..i] + [jobs[i]];
      if IsOperationsJob(jobs[i]) {
        filtered := filtered + [jobs[i]];
      }
    }
    assert jobs[..|jobs|] == jobs;
    FilterMembers(jobs, OperationsRule());
  }
}
