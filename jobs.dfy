/**
 * A scraped job record. In the pipeline it is a Python dict; `title`,
 * `company`, `url` and `source` are always set by the scrapers, the other
 * fields may be missing (`None` below), which matters where the code reads
 * them with `job.get(key, default)` or `job[key]`.
 */
module Jobs {
  import opened Wrappers

  datatype Job = Job(
    title: string,
    company: string,
    location: Option<string>,
    salary: Option<string>,
    experience: Option<string>,
    url: string,
    source: string)

  /** `bool(job.get('title'))`: the scrapers keep only cards with a non-empty title. */
  predicate HasTitle(job: Job)
  {
    job.title != ""
  }

  /** The non-empty URLs of some jobs: what the scrapers' `seen_urls` holds after them. */
  function UrlsOf(jobs: seq<Job>): set<string>
  {
    set job | job in jobs && job.url != "" :: job.url
  }

  lemma UrlsOfSnoc(jobs: seq<Job>, job: Job)
    ensures UrlsOf(jobs + [job]) == UrlsOf(jobs) + (if job.url != "" then {job.url} else {})
  {
    assert forall x :: x in jobs + [job] <==> x in jobs || x == job;
  }

  /** The jobs of one keyword searched in every location, in turn. */
  function KeywordResults(keyword: string, locations: seq<string>, search: (string, string) -> seq<Job>): seq<Job>
  {
    if locations == [] then []
    else
      var n := |locations| - 1;
      KeywordResults(keyword, locations[..n], search) + search(keyword, locations[n])
  }

  /** The jobs of every (keyword, location) search, keywords outermost: what `all_jobs.extend` gathers. */
  function AllResults(keywords: seq<string>, locations: seq<string>, search: (string, string) -> seq<Job>): seq<Job>
  {
    if keywords == [] then []
    else
      var n := |keywords| - 1;
      AllResults(keywords[..n], locations, search) + KeywordResults(keywords[n], locations, search)
  }
}
