/**
 * The JobSpy-based searcher (`JobSearcherV2`). A DataFrame is a sequence of
 * rows whose cells may be missing (`None` stands for pandas' NaN); a filter
 * keeps the rows its predicate accepts, in order.
 */
module JobSearchV2 {
  import opened Wrappers
  import opened Text
  import opened Seqs
  import opened Patterns
  import JobSearch

  /** One DataFrame row: the JobSpy columns used, plus the two columns `search_jobs` adds. */
  datatype Row = Row(
    title: Option<string>,
    company: Option<string>,
    location: Option<string>,
    description: Option<string>,
    minAmount: Option<real>,
    maxAmount: Option<real>,
    interval: Option<string>,
    jobUrl: Option<string>,
    site: Option<string>,
    jobType: Option<string>,
    searchTerm: Option<string>,
    scrapedDate: Option<string>)

  /** `str(cell)`: a missing cell is NaN, which prints as `nan`. */
  function Str(cell: Option<string>): (r: string)
    ensures cell.Some? ==> r == cell.value
  {
    match cell
    case Some(s) => s
    case None => "nan"
  }

  // ---------------------------------------------------------------- search_jobs

  /** The cells `drop_duplicates(subset=['title', 'company', 'location'])` compares. */
  function Triple(row: Row): (Option<string>, Option<string>, Option<string>)
  {
    (row.title, row.company, row.location)
  }

  /** `jobs_df['search_term'] = term; jobs_df['scraped_date'] = now`. */
  function Tagged(rows: seq<Row>, term: string, now: string): (r: seq<Row>)
    ensures |r| == |rows|
    ensures forall k :: 0 <= k < |r| ==>
      r[k] == rows[k].(searchTerm := Some(term), scrapedDate := Some(now))
  {
    seq(|rows|, k requires 0 <= k < |rows| => rows[k].(searchTerm := Some(term), scrapedDate := Some(now)))
  }

  /**
   * The rows collected over the first terms: the tagged result of every
   * search that returned rows (`None`: the search raised and was skipped).
   * `nows[n]` is the reading of `datetime.now()` taken for the n-th term.
   */
  function Collected(terms: seq<string>, scraped: seq<Option<seq<Row>>>, nows: seq<string>): seq<Row>
    requires |scraped| == |terms| == |nows|
  {
    if terms == [] then []
    else
      var n := |terms| - 1;
      Collected(terms[..n], scraped[..n], nows[..n])
      + (if scraped[n].Some? then Tagged(scraped[n].value, terms[n], nows[n]) else [])
  }

  /**
   * `search_jobs`: one search per term (the scraped rows are given), the
   * non-empty results tagged with their term and their own clock reading and
   * concatenated, then the first row per exact (title, company, location)
   * triple kept.
   */
  method SearchJobs(terms: seq<string>, scraped: seq<Option<seq<Row>>>, nows: seq<string>) returns (combined: seq<Row>)
    requires |scraped| == |terms| == |nows|
    ensures combined == KeepFirst(Collected(terms, scraped, nows), Triple)
  {
    var allJobs: seq<Row> := [];
    for i := 0 to |terms|
      invariant allJobs == Collected(terms[..i], scraped[..i], nows[..i])
    {
      assert terms[..i + 1][..i] == terms[..i];
      assert scraped[..i + 1][..i] == scraped[..i];
      assert nows[..i + 1][..i] == nows[..i];
      match scraped[i]
      case None =>
      case Some(jobs) =>
        if jobs != [] {
          allJobs := allJobs + Tagged(jobs, terms[i], nows[i]);
        }
    }
    assert terms[..|terms|] == terms && scraped[..|scraped|] == scraped && nows[..|nows|] == nows;
    if allJobs != [] {
      combined := KeepFirst(allJobs, Triple);
    } else {
      combined := [];
    }
  }

  /**
   * The combined rows: every one was scraped, no two share their triple, and
   * each is the first row with its triple, so the order is the scraped order.
   */
  lemma SearchJobsUnique(terms: seq<string>, scraped: seq<Option<seq<Row>>>, nows: seq<string>)
    requires |scraped| == |terms| == |nows|
    ensures var all := Collected(terms, scraped, nows);
      var combined := KeepFirst(all, Triple);
      && (forall row :: row in combined ==> row in all)
      && KeysOf(combined, Triple) == KeysOf(all, Triple)
      && DistinctKeys(combined, Triple)
      && IsSubsequence(combined, all)
  {
    var all := Collected(terms, scraped, nows);
    KeepFirstProperties(all, Triple);
    KeepFirstIsSubsequence(all, Triple);
  }

  /** A row whose triple occurs earlier is dropped; the first row with a triple is kept. */
  lemma SearchJobsKeepsFirst(terms: seq<string>, scraped: seq<Option<seq<Row>>>, nows: seq<string>, i: nat)
    requires |scraped| == |terms| == |nows|
    requires i < |Collected(terms, scraped, nows)|
    ensures var all := Collected(terms, scraped, nows);
      Triple(all[i]) !in KeysOf(all[..i], Triple) ==> all[i] in KeepFirst(all, Triple)
  {
    var all := Collected(terms, scraped, nows);
    if Triple(all[i]) !in KeysOf(all[..i], Triple) {
      KeepFirstKeepsFirstOccurrences(all, Triple, i);
    }
  }

  /** Every collected row carries one of the search terms and the clock reading taken for that term. */
  lemma {:induction false} CollectedTagged(terms: seq<string>, scraped: seq<Option<seq<Row>>>, nows: seq<string>, row: Row)
    requires |scraped| == |terms| == |nows|
    requires row in Collected(terms, scraped, nows)
    ensures exists n :: 0 <= n < |terms| && row.searchTerm == Some(terms[n]) && row.scrapedDate == Some(nows[n])
    decreases |terms|
  {
    var n := |terms| - 1;
    var init := Collected(terms[..n], scraped[..n], nows[..n]);
    if row in init {
      CollectedTagged(terms[..n], scraped[..n], nows[..n], row);
      var m :| 0 <= m < n && row.searchTerm == Some(terms[..n][m]) && row.scrapedDate == Some(nows[..n][m]);
      assert terms[..n][m] == terms[m] && nows[..n][m] == nows[m];
    } else {
      var tagged := Tagged(scraped[n].value, terms[n], nows[n]);
      assert row in tagged;
      var k :| 0 <= k < |tagged| && tagged[k] == row;
    }
  }

  // ---------------------------------------------------------------- filter_by_location

  /** `location_matches`: false for a missing location, else some preference is in the lower-cased location. */
  predicate LocationMatches(location: Option<string>, normalized: seq<string>)
  {
    location.Some? && exists k :: 0 <= k < |normalized| && Contains(Lower(location.value), normalized[k])
  }

  function LocationRule(normalized: seq<string>): Row -> bool
  {
    (row: Row) => LocationMatches(row.location, normalized)
  }

  /** `filter_by_location`: the rows whose location matches a normalized preference, in order. */
  function FilterByLocation(rows: seq<Row>, preferred: seq<string>): (r: seq<Row>)
    ensures rows == [] ==> r == rows
    ensures forall row :: row in r <==>
      row in rows && LocationMatches(row.location, JobSearch.NormalizedLocations(preferred))
    ensures IsSubsequence(r, rows)
  {
    var rule := LocationRule(JobSearch.NormalizedLocations(preferred));
    FilterMembers(rows, rule);
    FilterIsSubsequence(rows, rule);
    if rows == [] then rows else Filter(rows, rule)
  }

  /** A row without a location never passes, whatever the preferences. */
  lemma MissingLocationDropped(rows: seq<Row>, preferred: seq<string>, row: Row)
    requires row.location.None?
    ensures row !in FilterByLocation(rows, preferred)
  {
  }

  /** A blank preference matches every row that has a location. */
  lemma BlankPreferenceKeepsLocated(rows: seq<Row>, preferred: seq<string>, row: Row)
    requires "" in preferred && row in rows && row.location.Some?
    ensures row in FilterByLocation(rows, preferred)
  {
    var k :| 0 <= k < |preferred| && preferred[k] == "";
    var normalized := JobSearch.NormalizedLocations(preferred);
    assert normalized[k] == "";
    assert ContainsAt(Lower(row.location.value), "", 0);
  }

  // ---------------------------------------------------------------- filter_by_experience

  const EntryKeywords: seq<string> :=
    ["entry", "fresher", "junior", "graduate", "trainee", "associate", "coordinator", "beginner", "0-1", "0-2", "new grad"]

  const SeniorKeywords: seq<string> :=
    ["senior", "lead", "manager", "head", "director", "principal", "expert", "specialist", "architect", "5+", "7+", "10+"]

  /** `is_entry_level`. */
  predicate IsEntryLevel(row: Row, maxYears: int)
  {
    var title := Lower(Str(row.title));
    var description := Lower(Str(row.description));
    if JobSearch.AnyIn(SeniorKeywords, title) then false
    else if JobSearch.AnyIn(EntryKeywords, title) then true
    else if JobSearch.AnyIn(EntryKeywords, description) then true
    else
      var years := FindAllYears(description, 0);
      if years != [] then MinOf(years) <= maxYears else true
  }

  function EntryLevelRule(maxYears: int): Row -> bool
  {
    (row: Row) => IsEntryLevel(row, maxYears)
  }

  /** `filter_by_experience`: the entry-level rows, in order. */
  function FilterByExperience(rows: seq<Row>, maxYears: int): (r: seq<Row>)
    ensures rows == [] ==> r == rows
    ensures forall row :: row in r <==> row in rows && IsEntryLevel(row, maxYears)
    ensures IsSubsequence(r, rows)
  {
    FilterMembers(rows, EntryLevelRule(maxYears));
    FilterIsSubsequence(rows, EntryLevelRule(maxYears));
    if rows == [] then rows else Filter(rows, EntryLevelRule(maxYears))
  }

  /** A senior keyword in the title rejects the row, whatever else it says. */
  lemma SeniorTitleRejected(row: Row, maxYears: int, keyword: string)
    requires keyword in SeniorKeywords && Contains(Lower(Str(row.title)), keyword)
    ensures !IsEntryLevel(row, maxYears)
  {
  }

  /** Without a senior keyword, an entry keyword in the title or the description accepts the row. */
  lemma EntryKeywordAccepted(row: Row, maxYears: int, keyword: string)
    requires !JobSearch.AnyIn(SeniorKeywords, Lower(Str(row.title)))
    requires keyword in EntryKeywords
    requires Contains(Lower(Str(row.title)), keyword) || Contains(Lower(Str(row.description)), keyword)
    ensures IsEntryLevel(row, maxYears)
  {
  }

  /**
   * When no keyword decides, the row is accepted exactly when the description
   * states no experience requirement or some stated requirement is within
   * `maxYears` (the smallest one is).
   */
  lemma YearsDecide(row: Row, maxYears: int)
    requires !JobSearch.AnyIn(SeniorKeywords, Lower(Str(row.title)))
    requires !JobSearch.AnyIn(EntryKeywords, Lower(Str(row.title)))
    requires !JobSearch.AnyIn(EntryKeywords, Lower(Str(row.description)))
    ensures var years := FindAllYears(Lower(Str(row.description)), 0);
      IsEntryLevel(row, maxYears) <==> years == [] || exists k :: 0 <= k < |years| && years[k] <= maxYears
  {
    var years := FindAllYears(Lower(Str(row.description)), 0);
    if years != [] {
      MinAtMost(years, maxYears);
    }
  }

  // ---------------------------------------------------------------- filter_by_salary

  /** `salary_value >= min_salary_lpa` for the first lpa match, else for the first lakh/lac match, else the rupee amount against the target; no match accepts. */
  predicate DescriptionMeetsSalary(s: string, minLpa: int)
  {
    match FirstMatch(s, LpaMatcher(s), 0)
    case Some(q) => AmountValue(s, q, Plain) >= minLpa as real
    case None =>
      match FirstMatch(s, LakhOrLacMatcher(s), 0)
      case Some(q) => AmountValue(s, q, Plain) >= minLpa as real
      case None =>
        match FirstMatch(s, RupeeAnnualMatcher(s), 0)
        case Some(p) => AmountValue(s, RupeeNumberStart(s, p), Grouped) >= (minLpa * 100000) as real
        case None => true
  }

  /** `meets_salary_requirement`. */
  predicate MeetsSalary(row: Row, minLpa: int)
  {
    var interval := Lower(Str(row.interval));
    var target := (minLpa * 100000) as real;
    if row.minAmount.Some? && row.minAmount.value > 0.0 && interval == "yearly" then
      row.minAmount.value >= target
    else if row.minAmount.Some? && row.minAmount.value > 0.0 && interval == "monthly" then
      row.minAmount.value * 12.0 >= target
    else
      DescriptionMeetsSalary(Lower(Str(row.description)), minLpa)
  }

  function SalaryRule(minLpa: int): Row -> bool
  {
    (row: Row) => MeetsSalary(row, minLpa)
  }

  /** `filter_by_salary`: the rows meeting the minimum, in order. */
  function FilterBySalary(rows: seq<Row>, minLpa: int): (r: seq<Row>)
    ensures rows == [] ==> r == rows
    ensures forall row :: row in r <==> row in rows && MeetsSalary(row, minLpa)
    ensures IsSubsequence(r, rows)
  {
    FilterMembers(rows, SalaryRule(minLpa));
    FilterIsSubsequence(rows, SalaryRule(minLpa));
    if rows == [] then rows else Filter(rows, SalaryRule(minLpa))
  }

  /** A positive yearly amount decides alone: at least `min_salary_lpa` lakh rupees. */
  lemma YearlyAmountDecides(row: Row, minLpa: int)
    requires row.minAmount.Some? && row.minAmount.value > 0.0 && Lower(Str(row.interval)) == "yearly"
    ensures MeetsSalary(row, minLpa) <==> row.minAmount.value >= minLpa as real * 100000.0
  {
  }

  /** A positive monthly amount decides alone: twelve of it reach the yearly target. */
  lemma MonthlyAmountDecides(row: Row, minLpa: int)
    requires row.minAmount.Some? && row.minAmount.value > 0.0 && Lower(Str(row.interval)) == "monthly"
    ensures MeetsSalary(row, minLpa) <==> 12.0 * row.minAmount.value >= minLpa as real * 100000.0
  {
  }

  /** With no usable amount and no number in the description the row is kept for manual review. */
  lemma NoSalaryInformationKept(row: Row, minLpa: int)
    requires row.minAmount.None?
    requires forall k :: 0 <= k < |Str(row.description)| ==> !IsDigit(Str(row.description)[k])
    ensures MeetsSalary(row, minLpa)
  {
    var s := Lower(Str(row.description));
    assert forall k :: 0 <= k < |s| ==> !IsDigit(s[k]);
    forall q: nat
      ensures !LpaAt(s, q) && !LakhOrLacAt(s, q) && !RupeeAnnualAt(s, q)
    {
      NoDigitNoMatch(s, q);
    }
    FirstMatchNone(s, LpaMatcher(s), 0);
    FirstMatchNone(s, LakhOrLacMatcher(s), 0);
    FirstMatchNone(s, RupeeAnnualMatcher(s), 0);
  }

  // ---------------------------------------------------------------- convert_to_job_dict_format

  /** A job dictionary produced for the notifier and the tracker. */
  datatype JobDict = JobDict(
    title: string,
    company: string,
    location: string,
    salary: string,
    experience: string,
    url: string,
    source: string,
    description: string,
    jobType: string,
    scrapedDate: string,
    searchTerm: string)

  /**
   * The number formats of the f-strings in `_format_salary`: `oneDecimal` is
   * `{x:.1f}` and `grouped` is `{x:,.0f}`.
   */
  datatype NumberFormat = NumberFormat(oneDecimal: real -> string, grouped: real -> string)

  /** `_format_salary`. */
  function FormatSalary(row: Row, fmt: NumberFormat): (r: string)
    ensures row.minAmount.None? ==> r == "Check job description"
  {
    var interval := Str(row.interval);
    var lower := Lower(interval);
    match (row.minAmount, row.maxAmount)
    case (Some(lo), Some(hi)) =>
      if lower == "yearly" then
        fmt.oneDecimal(lo / 100000.0) + "-" + fmt.oneDecimal(hi / 100000.0) + " LPA"
      else if lower == "monthly" then
        fmt.oneDecimal(lo * 12.0 / 100000.0) + "-" + fmt.oneDecimal(hi * 12.0 / 100000.0) + " LPA"
      else
        [Rupee] + fmt.grouped(lo) + "-" + [Rupee] + fmt.grouped(hi) + " " + interval
    case (Some(lo), None) =>
      if lower == "yearly" then fmt.oneDecimal(lo / 100000.0) + "+ LPA"
      else [Rupee] + fmt.grouped(lo) + "+ " + interval
    case (None, _) => "Check job description"
  }

  /** `str(description)[:500] + '...'` when the description is present, else `''`. */
  function DescriptionExcerpt(description: Option<string>): (r: string)
    ensures description.None? ==> r == ""
    ensures description.Some? ==> |r| == Min(500, |description.value|) + 3
    ensures description.Some? ==> r == description.value[..Min(500, |description.value|)] + "..."
  {
    match description
    case None => ""
    case Some(d) => d[..Min(500, |d|)] + "..."
  }

  function Min(a: int, b: int): int
  {
    if a <= b then a else b
  }

  /** The dictionary built for one row. */
  function ToJobDict(row: Row, fmt: NumberFormat): JobDict
  {
    JobDict(
      Str(row.title),
      Str(row.company),
      Str(row.location),
      FormatSalary(row, fmt),
      "Entry level",
      Str(row.jobUrl),
      TitleCase(Str(row.site)),
      DescriptionExcerpt(row.description),
      Str(row.jobType),
      Str(row.scrapedDate),
      Str(row.searchTerm))
  }

  /** `convert_to_job_dict_format`: one dictionary per row, in row order. */
  method ConvertToJobDictFormat(rows: seq<Row>, fmt: NumberFormat) returns (jobs: seq<JobDict>)
    ensures |jobs| == |rows|
    ensures forall k :: 0 <= k < |rows| ==> jobs[k] == ToJobDict(rows[k], fmt)
  {
    if rows == [] {
      return [];
    }
    jobs := [];
    for i := 0 to |rows|
      invariant |jobs| == i
      invariant forall k :: 0 <= k < i ==> jobs[k] == ToJobDict(rows[k], fmt)
    {
      jobs := jobs + [ToJobDict(rows[i], fmt)];
    }
  }

  /** Each dictionary keeps the row's text cells, says "Entry level", and cuts the description. */
  lemma JobDictFields(row: Row, fmt: NumberFormat)
    ensures var job := ToJobDict(row, fmt);
      && job.experience == "Entry level"
      && (row.title.Some? ==> job.title == row.title.value)
      && (row.company.Some? ==> job.company == row.company.value)
      && (row.location.Some? ==> job.location == row.location.value)
      && (row.description.None? ==> job.description == "")
      && (row.description.Some? ==> |job.description| <= 503)
      && (row.minAmount.None? ==> job.salary == "Check job description")
  {
  }

  // ---------------------------------------------------------------- search_operations_jobs

  /** A row that the three filters of `search_operations_jobs` all let through. */
  predicate PassesFilters(row: Row, preferred: seq<string>, maxYears: int, minLpa: int)
  {
    LocationMatches(row.location, JobSearch.NormalizedLocations(preferred))
    && IsEntryLevel(row, maxYears) && MeetsSalary(row, minLpa)
  }

  /** The rows left after the location, experience and salary filters, in order. */
  function Passed(combined: seq<Row>, preferred: seq<string>, maxYears: int, minLpa: int): (r: seq<Row>)
    ensures forall row :: row in r <==> row in combined && PassesFilters(row, preferred, maxYears, minLpa)
  {
    FilterBySalary(FilterByExperience(FilterByLocation(combined, preferred), maxYears), minLpa)
  }

  /** The filter chain after the search: location, then experience, then salary, then conversion. */
  method SearchOperationsJobs(combined: seq<Row>, preferred: seq<string>, minLpa: int, maxYears: int, fmt: NumberFormat)
    returns (jobs: seq<JobDict>)
    ensures combined == [] ==> jobs == []
    ensures combined != [] ==> var paid := Passed(combined, preferred, maxYears, minLpa);
      |jobs| == |paid| && forall k :: 0 <= k < |paid| ==> jobs[k] == ToJobDict(paid[k], fmt)
    ensures forall row :: row in combined && PassesFilters(row, preferred, maxYears, minLpa) ==> ToJobDict(row, fmt) in jobs
    ensures forall job :: job in jobs ==>
      exists row :: row in combined && PassesFilters(row, preferred, maxYears, minLpa) && job == ToJobDict(row, fmt)
  {
    if combined == [] {
      return [];
    }
    var located := FilterByLocation(combined, preferred);
    var experienced := FilterByExperience(located, maxYears);
    var paid := FilterBySalary(experienced, minLpa);
    assert paid == Passed(combined, preferred, maxYears, minLpa);
    jobs := ConvertToJobDictFormat(paid, fmt);
    forall job | job in jobs
      ensures exists row :: row in combined && PassesFilters(row, preferred, maxYears, minLpa) && job == ToJobDict(row, fmt)
    {
      var k :| 0 <= k < |jobs| && jobs[k] == job;
      assert paid[k] in paid;
    }
    forall row | row in combined && PassesFilters(row, preferred, maxYears, minLpa)
      ensures ToJobDict(row, fmt) in jobs
    {
      var k :| 0 <= k < |paid| && paid[k] == row;
      assert jobs[k] == ToJobDict(row, fmt);
    }
  }
}
