# Job-alert pipeline, modelled in Dafny

This project models the decision logic of a job-alert pipeline for entry-level operations roles in India. The pipeline has these stages:

1. **Scrape.** Two Indeed scrapers and a JobSpy-based searcher gather job records.
2. **Filter and de-duplicate.** The records are narrowed by location, experience level and salary, then de-duplicated.
3. **Suppress repeats.** A seen-job history tracker suppresses jobs already emitted within a recent window. It also keeps daily counts and sweeps old entries.
4. **Report.** The survivors are rendered as a plain-text summary and as an HTML report. A small index updater later reads the report's file name and its "Total Jobs Found" line back.

The model is split into one module per source file, plus shared modules:

| module | models |
|---|---|
| `JobTracking` (`job_tracker.dfy`) | `JobTracker`: a class whose fields `seenJobs`, `dailyCounts` and `lastCleanup` are the three parts of the history store |
| `JobSearch` (`job_search.dfy`) | the filters and the fuzzy de-duplication of `JobSearcher` |
| `JobSearchV2` (`job_search_v2.dfy`) | the JobSpy searcher; a DataFrame is a sequence of rows with optional cells |
| `IndeedScraper`, `IndeedSeleniumScraper` | the URL builders, the page loops, the title filter and the two URL-de-duplication policies |
| `Notifier` (`notifier.dfy`) | the plain-text summary and the text and path of the HTML report |
| `UpdateIndex` (`update_index.dfy`) | the file-name date parser and the job-count reader |
| shared modules | `Text` (Python string operations), `Patterns` (hand-written matchers for the regular expressions used), `Seqs` (filters, first-occurrence selection, subsequences), `Jobs` (the scraped job record), `Wrappers` (`Option`) |

Conventions:

- Wherever the source reads the clock, the model takes the reading as a parameter, one per call of `datetime.now()`: integer seconds in the tracker, a string per search term in `search_jobs`, a `Clock` reading in the notifier. The one exception is `filter_new_jobs`, under "## Left out".
- A timestamp's calendar day is `t / 86400`, and the tracker's ISO date keys are modelled as those day numbers.
- MD5 is a function `digest` that is fixed when a tracker is built.
- Fetching a results page is a parameter `fetch`: the cards parsed from the page at a URL.
- Loops that accumulate a list or a string are methods with loop invariants. Each is proved equal to a specification function, and the properties the source promises are proved as lemmas about that function.

## Model

A row whose third column begins "definition:" names a reference function. Its own contract only describes what it computes, and the properties the source promises about it are proved by the rows that cite it.

| member | source | states |
|---|---|---|
| JobTracking.HashKey | job_tracker.py:45 | definition: the key string "title-company-location", each field lower-cased and stripped, with a missing location as "" |
| JobTracking.GenerateJobHash | job_tracker.py:43-46 | definition: the digest of the key string, where the digest is a parameter standing for MD5 |
| JobTracking.SeenRecently | job_tracker.py:57-61 | definition: the hash is in the store with a date after today minus `days_threshold` days |
| JobTracking.Step | job_tracker.py:54-65 | definition: one iteration of the loop, which skips a recently seen job and otherwise emits it and stamps its hash with now |
| JobTracking.Select | job_tracker.py:54-65 | definition: the iterations of the loop over the batch, in order, from the given store |
| JobTracking.JobTracker.constructor | job_tracker.py:21-26 | a fresh store has no seen jobs, no daily counts, and `last_cleanup` set to now |
| JobTracking.HashUsesNormalizedFields | job_tracker.py:43-46 | two jobs whose lower-cased, stripped title, company and location agree get the same fingerprint |
| JobTracking.MissingLocationIsEmpty | job_tracker.py:45 | a job without a location is fingerprinted exactly like one with location `''` |
| JobTracking.HyphenJoinInjective | job_tracker.py:45 | `f"{t}-{c}-{l}"` determines t, c and l when t and c hold no hyphen |
| JobTracking.HashKeyInjective | job_tracker.py:45 | when title and company hold no hyphen, equal hashed strings mean equal normalised fields: only an MD5 collision merges different jobs |
| JobTracking.JobTracker.FilterNewJobs | job_tracker.py:48-67 | the returned jobs and the new `seen_jobs` are exactly what the job-by-job rule gives from the old store: skip a job seen on a day after today minus the threshold, otherwise emit it and stamp its hash with now |
| JobTracking.SelectIsSubsequence | job_tracker.py:54-64 | the emitted jobs are the input with some jobs deleted, in input order |
| JobTracking.SelectStore | job_tracker.py:57-65 | after the batch, the store equals the old one with every emitted job's hash stamped with now, and every other entry unchanged |
| JobTracking.EmittedHashesInBatch | job_tracker.py:54-65 | only fingerprints of jobs in the batch are stamped |
| JobTracking.SelectLeavesOthers | job_tracker.py:57-65 | a hash of no job in the batch keeps its presence and its timestamp |
| JobTracking.SelectMarksBatch | job_tracker.py:59-65 | with a threshold of at least one day, every fingerprint of the batch is recent afterwards |
| JobTracking.SelectClosedForm | job_tracker.py:50-67 | with a threshold of at least one day, the emitted jobs are the first job of each fingerprint among those not seen recently before the batch, so a repeat within the batch is suppressed |
| JobTracking.EmittedFingerprintsDistinct | job_tracker.py:59-65 | with a threshold of at least one day, no two emitted jobs share a fingerprint |
| JobTracking.RerunEmitsNothing | job_tracker.py:48-67 | with a threshold of at least one day, running the same batch again at the same time emits nothing |
| JobTracking.JobTracker.RecordDailyCount | job_tracker.py:69-72 | today's count is overwritten with the given count; every other date is unchanged |
| JobTracking.JobTracker.GetRecentDailyCounts | job_tracker.py:74-83 | the result has exactly `days` keys, today back to today − (days − 1), each mapped to the stored count or 0; for `days` ≤ 0 it is empty |
| JobTracking.SweepSeen | job_tracker.py:89-96 | definition: a seen entry survives exactly when its timestamp is not before the cutoff, and survivors keep their timestamp |
| JobTracking.SweepCounts | job_tracker.py:98-105 | definition: a daily count survives exactly when its date's midnight is not before the cutoff, unchanged |
| JobTracking.JobTracker.RemoveSeenBefore | job_tracker.py:89-96 | collecting the old hashes and then deleting them leaves exactly the swept `seen_jobs` |
| JobTracking.JobTracker.RemoveCountsBefore | job_tracker.py:98-105 | collecting the old dates and then deleting them leaves exactly the swept `daily_counts` |
| JobTracking.JobTracker.CleanupOldHistory | job_tracker.py:85-107 | both maps are swept with the cutoff `now` − `days_to_keep` days, and `last_cleanup` becomes the second clock reading `finishedAt` |
| JobTracking.DayBeforeCutoff | job_tracker.py:87 | an entry older than the cutoff lies on a day at or before today − `days_to_keep` |
| JobTracking.SweepPreservesSelection | job_tracker.py:85-96 | if the sweep keeps at least `days_threshold` days (threshold ≥ 1), the sweep never changes what `filter_new_jobs` emits |
| JobTracking.SweepIdempotent | job_tracker.py:85-105 | sweeping twice with one cutoff is sweeping once, and a sweep never adds entries |
| JobTracking.JobTracker.GetStats | job_tracker.py:110-120 | the statistics are the number of seen jobs, the counts of the last 7 days (each the stored count or 0), their average over the 7 days, and the stored `last_cleanup` |
| JobTracking.RecentTotal | job_tracker.py:118 | definition: the sum of the stored counts, 0 when absent, over the `days` dates ending today |
| JobTracking.RecentTotalBounds | job_tracker.py:118 | with every stored count between 0 and a bound, the sum over `days` dates is between 0 and `days` times the bound |
| JobTracking.AverageBounds | job_tracker.py:118 | with every stored count between 0 and a bound, the average daily count is between 0 and the bound |
| JobSearch.MeetsSalary | job_search.py:390-401 | definition: the lower-cased salary text holds "not disclosed" or "check", or its extracted amount is at least `min_salary_lpa` |
| JobSearch.IsEntryLevel | job_search.py:446-458 | definition: the title holds no senior keyword, and the experience or title holds an entry keyword, or the experience matches `0\s*-\s*[123]`, "check" or "not specified" |
| JobSearch.InPreferredLocation | job_search.py:470-476 | definition: some normalised preference is a substring of the lower-cased location, with a missing location as "" |
| JobSearch.WordSetKey | job_search.py:545-549 | definition: the distinct white-space-separated words, sorted and joined with "-" |
| JobSearch.DedupKey | job_search.py:541-549 | definition: the title's word-set key and the company's word-set key joined with "-" |
| JobSearch.ExtractSalaryLpa | job_search.py:405-428 | the extracted salary is never negative |
| JobSearch.LpaFirst | job_search.py:410-413 | the leftmost lpa amount decides, whatever else the text holds |
| JobSearch.LakhOnly | job_search.py:415-419 | without an lpa amount, the leftmost lakh/lac/l amount decides, whatever yearly amount the text holds |
| JobSearch.NoPatternExtractsZero | job_search.py:409-428 | a text matching none of the three patterns extracts 0 |
| JobSearch.NoLpaText | job_search.py:410-413 | a text holding "lpa" nowhere has no lpa match |
| JobSearch.LakhUnitMatch | job_search.py:416 | the lakh pattern matches "a lakh…" and "a lac…" at the start and captures `a` |
| JobSearch.LakhUnitNoLpa | job_search.py:410 | "a lakh…" and "a lac…" followed by text without `l` hold "lpa" nowhere |
| JobSearch.LakhUnitGivesAmount | job_search.py:409-419 | "a lakh" or "a lac", followed by any lower-case text without `l`, gives `a` |
| JobSearch.LakhGivesAmount | job_search.py:415-419 | "5 lakh" gives 5 |
| JobSearch.LakhBeatsYearly | job_search.py:409-426 | "a lac or ₹b,c per year" gives `a`, though "₹b,c per year" alone gives bc / 100000: the lakh pattern is tried before the yearly one |
| JobSearch.YearlyRestPlain | job_search.py:421 | " or ₹b,c per year" holds no `l` and no upper-case letter |
| JobSearch.AmountValueNonNegative | job_search.py:425 | `float()` of a matched number is never negative |
| JobSearch.FilterBySalary | job_search.py:385-403 | the loop returns, in order, exactly the jobs that meet the salary rule |
| JobSearch.UndisclosedAlwaysKept | job_search.py:394-397 | a salary mentioning "not disclosed" or "check" keeps the job, whatever the minimum |
| JobSearch.DisclosedKeptIffEnough | job_search.py:399-401 | any other job is kept exactly when its extracted salary reaches the minimum |
| JobSearch.NoDigitExtractsZero | job_search.py:409-428 | a salary text without a digit extracts 0 |
| JobSearch.LpaRangeMatch | job_search.py:410-411 | the lpa pattern matches "a-b lpa" at its start and captures `a` |
| JobSearch.LowerEndOfRange | job_search.py:410 | in "a-b lpa" the first number is `a`, with no space after it |
| JobSearch.UpperEndOfRange | job_search.py:410 | in "a-b lpa" the optional range "-b" ends before the space |
| JobSearch.RangeBeforeSpace | job_search.py:410 | a dash, a run of digits, one space and a letter: the optional range ends at the space |
| JobSearch.DashDigits | job_search.py:410 | `-\s*\d+(?:\.\d+)?` after a dash reads exactly the digits up to the next space |
| JobSearch.OneSpace | job_search.py:410 | `\s*` at a single space followed by a letter reads that one space |
| JobSearch.LpaAtStartGives | job_search.py:405-413 | a text with no upper-case letter whose lpa pattern matches at its start extracts the whole number there |
| JobSearch.LpaRangeGivesLowerEnd | job_search.py:410-413 | "a-b lpa" extracts the lower end `a` ("12-15 lpa" gives 12) |
| JobSearch.LowerInvariant | job_search.py:407 | the text is lower-cased first, so a text and its lower-case form extract the same amount |
| JobSearch.LpaRangeAnyCase | job_search.py:407-413 | "a-b" followed by " lpa" in any case extracts `a` |
| JobSearch.UpperLpaRange | job_search.py:407-413 | "a-b LPA" extracts `a` ("12-15 LPA" gives 12) |
| JobSearch.AnnualOnlyAnyCase | job_search.py:407-426 | for text in any case, when the lower-cased text has no lpa or lakh match, the leftmost yearly amount divided by 100000 is the result |
| JobSearch.DigitsRun | job_search.py:410 | `\d+` ends at the first non-digit |
| JobSearch.NoLakhSearch | job_search.py:410-419 | a text without `l` matches neither the lpa nor the lakh pattern, so only the yearly pattern can decide |
| JobSearch.RupeeNumberEnd | job_search.py:422 | in "₹a,b per year" the grouped number ends before the space |
| JobSearch.PerYearSuffix | job_search.py:422 | " per year" after the number is the `\s*(?:per\s*)?year` tail |
| JobSearch.RupeesPerYearMatch | job_search.py:422-423 | the yearly pattern matches "₹a,b per year" with its group `a,b` |
| JobSearch.AfterRupeeSign | job_search.py:422-423 | a yearly amount right after `₹` is the leftmost match |
| JobSearch.AnnualOnly | job_search.py:421-426 | on lower-case text, when only the yearly pattern matches, the result is its amount divided by 100000 |
| JobSearch.RemoveGroupComma | job_search.py:425 | removing the commas of "a,b" leaves `a + b` |
| JobSearch.WholeAmountValue | job_search.py:425 | a number whose digits, without commas, are `t` has the value of `t` |
| JobSearch.RupeesPerYearRead | job_search.py:421-426 | "₹a,b per year" is read by the yearly pattern, in lakhs |
| JobSearch.RupeesPerYearValue | job_search.py:425 | the amount read from "₹a,b per year" is the number `a + b` |
| JobSearch.RupeesPerYearInLakhs | job_search.py:421-426 | "₹a,b per year" extracts (a + b) / 100000 ("₹4,50,000 per year" gives 4.5) |
| JobSearch.FilterEntryLevel | job_search.py:430-460 | the loop returns, in order, exactly the jobs the entry-level rule accepts |
| JobSearch.SeniorTitleExcluded | job_search.py:446-448 | a senior keyword in the title excludes the job, even with entry keywords present |
| JobSearch.YearsInTitleExcluded | job_search.py:439-448 | "years" is a senior keyword, so any title containing it is excluded |
| JobSearch.SpacedZeroRangeAdmitted | job_search.py:454-455 | an experience text containing "0 - 3", with no senior title keyword, is admitted |
| JobSearch.NormalizedLocations | job_search.py:467 | definition: one lower-cased, stripped preference per preference, in order |
| JobSearch.AnyPreferenceIn | job_search.py:473-476 | the inner loop finds a match exactly when some normalised preference is a substring of the location |
| JobSearch.FilterByLocation | job_search.py:462-478 | the loop returns, in order, each job at most once, exactly those whose lower-cased location contains a preference |
| JobSearch.BlankPreferenceKeepsAll | job_search.py:473-474 | a preference that is blank after stripping matches every job |
| JobSearch.MissingLocationMatchesOnlyBlank | job_search.py:470-476 | a job without a location passes exactly when some preference is blank |
| JobSearch.SeenOfKept | job_search.py:555-556 | both keys of every kept job are in `seen_combinations` |
| JobSearch.SeenOfSource | job_search.py:555-556 | every key in `seen_combinations` came from a kept job |
| JobSearch.DedupStep | job_search.py:554-557 | one iteration keeps the job exactly when neither key was seen, and adds both keys |
| JobSearch.DeduplicateWith | job_search.py:538-557 | the loop fails (KeyError) exactly when some job lacks a location; otherwise it returns the first job per fuzzy key, in order |
| JobSearch.DeduplicateJobs | job_search.py:533-559 | `_deduplicate_jobs` with its fuzzy key (word sets of title and company) and its exact key |
| JobSearch.MissingLocationExists | job_search.py:542 | the lookup fails on a sequence exactly when one of its jobs has no location |
| JobSearch.MissingLocationStep | job_search.py:542 | the lookup fails on one more job exactly when it failed before or the job has no location |
| JobSearch.SameWordsSameKey | job_search.py:545-549 | titles and companies with the same words, in any order, case or repetition, give the same key; location plays no part |
| JobSearch.ReorderedDuplicateDropped | job_search.py:545-557 | so the later of two such jobs is dropped |
| JobSearchV2.LocationMatches | job_search_v2.py:95-99 | definition: the location is present and some normalised preference is a substring of it, lower-cased |
| JobSearchV2.IsEntryLevel | job_search_v2.py:122-145 | definition: false for a senior keyword in the title, true for an entry keyword in the title or description, otherwise the minimum "N years of experience" is at most `max_years`, and true when there is none |
| JobSearchV2.DescriptionMeetsSalary | job_search_v2.py:176-189 | definition: the first of the three description patterns that matches decides: an lpa or lakh amount against `min_lpa`, a yearly amount against `min_lpa` × 100000; with no match the row is kept |
| JobSearchV2.MeetsSalary | job_search_v2.py:156-192 | definition: a positive yearly `min_amount`, or 12 times a positive monthly one, is compared with `min_lpa` × 100000; otherwise the description decides |
| JobSearchV2.ToJobDict | job_search_v2.py:205-217 | definition: the output dictionary of one row, with each field as `str()` of its cell or its default |
| JobSearchV2.Str | job_search_v2.py:123-124 | definition: `str()` of a present cell is the cell itself (a missing one prints `nan`) |
| JobSearchV2.Tagged | job_search_v2.py:60-61 | definition: every row of a result gets the search term and the search time, and nothing else changes |
| JobSearchV2.SearchJobs | job_search_v2.py:40-85 | the combined rows are the first row per exact (title, company, location) triple among the non-empty results, term by term, each tagged with its term and its own clock reading |
| JobSearchV2.SearchJobsUnique | job_search_v2.py:76-79 | the combined rows come from the results, cover every triple, hold each triple once, and keep the scraped order |
| JobSearchV2.SearchJobsKeepsFirst | job_search_v2.py:76-79 | a row whose triple does not occur earlier is kept |
| JobSearchV2.CollectedTagged | job_search_v2.py:58-62 | every collected row carries one of the search terms and the clock reading taken for that term |
| JobSearchV2.FilterByLocation | job_search_v2.py:87-103 | an empty frame is returned unchanged; the result keeps, in order, exactly the rows whose location matches |
| JobSearchV2.MissingLocationDropped | job_search_v2.py:96-97 | a row without a location never passes |
| JobSearchV2.BlankPreferenceKeepsLocated | job_search_v2.py:98-99 | a blank preference passes every row that has a location |
| JobSearchV2.FilterByExperience | job_search_v2.py:105-149 | an empty frame is returned unchanged; the result keeps, in order, exactly the entry-level rows |
| JobSearchV2.SeniorTitleRejected | job_search_v2.py:126-128 | a senior keyword in the title rejects the row |
| JobSearchV2.EntryKeywordAccepted | job_search_v2.py:130-136 | without a senior keyword, an entry keyword in the title or the description accepts the row |
| JobSearchV2.YearsDecide | job_search_v2.py:138-145 | when no keyword decides, the row is accepted exactly when there is no "N years experience" match or some N is within `max_years` (so the minimum one is) |
| JobSearchV2.FilterBySalary | job_search_v2.py:151-196 | an empty frame is returned unchanged; the result keeps, in order, exactly the rows meeting the salary rule |
| JobSearchV2.YearlyAmountDecides | job_search_v2.py:166-168 | a positive yearly `min_amount` decides alone: at least `min_salary_lpa` × 100000 |
| JobSearchV2.MonthlyAmountDecides | job_search_v2.py:166-170 | a positive monthly `min_amount` decides alone: twelve times it against the same target |
| JobSearchV2.NoSalaryInformationKept | job_search_v2.py:172-192 | with no amount and no number in the description, the row is kept |
| JobSearchV2.FormatSalary | job_search_v2.py:245-246 | without `min_amount` the salary reads "Check job description" |
| JobSearchV2.DescriptionExcerpt | job_search_v2.py:213 | definition: a present description becomes its first 500 characters plus "...", and a missing one becomes "" |
| JobSearchV2.ConvertToJobDictFormat | job_search_v2.py:198-220 | one dictionary per row, in row order |
| JobSearchV2.JobDictFields | job_search_v2.py:205-217 | each dictionary keeps the row's title, company and location; sets experience to "Entry level"; cuts the description; and falls back to "Check job description" |
| JobSearchV2.Passed | job_search_v2.py:279-281 | the rows left by the three filters are exactly the rows passing location, experience and salary |
| JobSearchV2.SearchOperationsJobs | job_search_v2.py:276-285 | an empty search gives no jobs; otherwise the jobs are the converted rows left by the three filters, in order; every row passing all three is converted, and each job comes from such a row |
| IndeedScraper.GetIndeedUrl | indeed_scraper.py:27-44 | definition: the base URL, "?", and the five `k=v` parameters joined with "&", with start = page × 10 |
| IndeedScraper.PageJobs | indeed_scraper.py:152 | definition: the jobs with a title among the cards fetched from the URL |
| IndeedScraper.PagesFrom | indeed_scraper.py:148-158 | definition: the pages from `page` on, up to `max_pages`, concatenated, stopping after the first empty page |
| IndeedScraper.KeepBlankDedup | indeed_scraper.py:162-171 | definition: every job with a blank URL, and the first job of each non-blank URL, in order |
| IndeedScraper.IsOperationsJob | indeed_scraper.py:175-188 | definition: some operations keyword is a substring of the lower-cased title |
| IndeedScraper.QueryJoined | indeed_scraper.py:34-43 | the query is `q=…&l=…&start=…&sort=date&from=searchOnHP`, in that order, unencoded |
| IndeedScraper.QueryRoundTrip | indeed_scraper.py:27-44 | when keyword and location hold no `&`, splitting the query at `&` gives back the five parameters, `start` being page × 10 |
| IndeedScraper.NatDigitsNoChar | indeed_scraper.py:37 | the numeral of `start` holds only digits |
| IndeedScraper.UrlShape | indeed_scraper.py:30-44 | the whole URL around its `start` numeral |
| IndeedScraper.MiddleDetermined | indeed_scraper.py:43-44 | equal strings with the same prefix and suffix have the same middle |
| IndeedScraper.PageUrlsDistinct | indeed_scraper.py:27-44 | different pages of one search have different URLs |
| IndeedScraper.KeepTitled | indeed_scraper.py:115-118 | only parsed cards with a non-empty title are returned, in order (the Selenium scraper's `scrape_page`, indeed_selenium_scraper.py:156-159, applies the same rule) |
| IndeedScraper.PagesReadBounds | indeed_scraper.py:148-158 | at most `max_pages` pages are requested; every page but the last had jobs; stopping early means the last page was empty |
| IndeedScraper.SearchPages | indeed_scraper.py:148-158 | the page loop collects the pages' jobs up to and including the first empty page, and counts the pages requested |
| IndeedScraper.SearchKeyword | indeed_scraper.py:145-158 | the location loop concatenates each location's search, in order |
| IndeedScraper.SearchJobs | indeed_scraper.py:127-173 | every keyword with every location, keywords outermost, then the URL de-duplication |
| IndeedScraper.DedupUrls | indeed_scraper.py:162-171 | the de-duplication loop computes the keep-blank policy |
| IndeedScraper.KeepBlankDedupMembers | indeed_scraper.py:162-171 | only input jobs are kept, in input order, and no URL is lost |
| IndeedScraper.KeepBlankDedupDistinct | indeed_scraper.py:165-168 | kept jobs have pairwise distinct non-empty URLs |
| IndeedScraper.KeepBlankDedupBlanks | indeed_scraper.py:169-170 | every job with an empty URL is kept, in order |
| IndeedScraper.KeepBlankDedupKeepsFirst | indeed_scraper.py:163-171 | the first job with a non-empty URL is kept |
| IndeedScraper.BlankUrlKept | indeed_scraper.py:169-170 | a job with an empty URL survives |
| IndeedScraper.FilterOperationsJobs | indeed_scraper.py:175-188 | the loop returns, in order, exactly the jobs whose lower-cased title contains an operations keyword |
| IndeedSeleniumScraper.GetIndeedUrl | indeed_selenium_scraper.py:52-56 | definition: the base URL with `q`, `l` and `start`, spaces in the keyword and location read as "+" |
| IndeedSeleniumScraper.PagesFrom | indeed_selenium_scraper.py:191-209 | definition: the pages at offsets start, start + 15, …, concatenated until a page is empty or `max_results` jobs are collected |
| IndeedSeleniumScraper.DropBlankDedup | indeed_selenium_scraper.py:214-221 | definition: the first job of each non-blank URL, in order, with blank-URL jobs dropped |
| IndeedSeleniumScraper.UrlQuery | indeed_selenium_scraper.py:52-56 | the URL's query is `q=`, `l=` and `start=` joined with `&` |
| IndeedSeleniumScraper.UrlHasNoSpace | indeed_selenium_scraper.py:55 | the URL holds no space |
| IndeedSeleniumScraper.QueryRoundTrip | indeed_selenium_scraper.py:52-56 | without `+` or `&` in keyword and location, the query splits into its three parameters, and turning `+` back into spaces restores them |
| IndeedSeleniumScraper.Paginate | indeed_selenium_scraper.py:191-209 | the offsets requested are 0, 15, 30, …; every page but the last had jobs; the loop stops at an empty page unless `max_results_per_search` was reached; it always terminates |
| IndeedSeleniumScraper.SearchPages | indeed_selenium_scraper.py:191-209 | the pagination of one search, reading `get_indeed_url(keyword, location, start)` |
| IndeedSeleniumScraper.SearchKeyword | indeed_selenium_scraper.py:188-209 | the location loop concatenates each location's search, in order |
| IndeedSeleniumScraper.SearchJobs | indeed_selenium_scraper.py:170-224 | every keyword with every location, then the drop-blank de-duplication |
| IndeedSeleniumScraper.DedupUrls | indeed_selenium_scraper.py:214-221 | the de-duplication loop computes the drop-blank policy |
| IndeedSeleniumScraper.NonBlankKeys | indeed_selenium_scraper.py:219 | the URLs of the jobs with a non-empty URL are all the non-empty URLs |
| IndeedSeleniumScraper.DropBlankDedupIsKeepFirst | indeed_selenium_scraper.py:218-221 | the de-duplication is the first job per URL among the jobs with a non-empty URL |
| IndeedSeleniumScraper.DropBlankDedupProperties | indeed_selenium_scraper.py:214-221 | kept jobs have non-empty, pairwise distinct URLs; no non-empty URL is lost; input order is kept |
| Notifier.SummaryText | notifier.py:44-63 | definition: the no-jobs sentence, or the header, the first ten entries numbered from 1 and the trailer |
| Notifier.JobBlock | notifier.py:95-107 | definition: the HTML block of one job with its title, company, location, salary, experience, source and link |
| Notifier.Page | notifier.py:67-112 | definition: the head with the date, search time and total, one block per job in order, and the tail, around a fixed text |
| Notifier.ReportText | notifier.py:67-112 | definition: the page around the template text of `create_html_report`, dated by the title and search clocks |
| Notifier.ReportPath | notifier.py:115-116 | definition: `job_report_<YYYYMMDD_HHMMSS>.html` in the storage directory |
| Notifier.Digits | notifier.py:71 | a zero-padded field has its width and only digits |
| Notifier.ClockTextNoF | notifier.py:71 | the formatted dates hold no 'F' |
| Notifier.AppendEntries | notifier.py:51-58 | the entry loop appends the first `count` jobs' texts, numbered on from `first` |
| Notifier.ListedConcat | notifier.py:51 | the texts of consecutive runs of jobs follow each other, numbered on |
| Notifier.ListedContains | notifier.py:51-58 | the k-th job's text, under number first + k, is in the listing |
| Notifier.FormatJobSummary | notifier.py:44-63 | the summary is the fixed sentence for no jobs; otherwise the header, the first ten entries numbered from 1, and the trailer |
| Notifier.NoJobsSummary | notifier.py:46-47 | the summary is "No matching jobs found in today's search." exactly when there are no jobs |
| Notifier.SummaryCounts | notifier.py:49 | the summary opens with the header, and the number after "Found " reads back as `len(jobs)` |
| Notifier.HeaderCount | notifier.py:49 | the count in a header reads back, whatever follows it |
| Notifier.SummaryListsJob | notifier.py:51-58 | the k-th job, for k below ten, is listed under number k + 1 |
| Notifier.EntrySplit | notifier.py:52-58 | when no field holds a newline, an entry splits into its seven field lines followed by a blank line |
| Notifier.EntryEnd | notifier.py:58 | an entry ends with a blank line |
| Notifier.TerminatedConcat | notifier.py:52-58 | lines each ending in a newline concatenate |
| Notifier.TerminatedEnd | notifier.py:58 | newline-ended lines end in a newline |
| Notifier.ListedEnd | notifier.py:51-58 | a non-empty listing ends with its last entry's blank line |
| Notifier.TrailerWhenMoreThanTen | notifier.py:60-61 | the summary ends with " more jobs.\n" exactly when there are more than ten jobs |
| Notifier.RenderPage | notifier.py:67-112 | the page built around any fixed text is the head with the total, one block per job in order, and the tail |
| Notifier.RenderReport | notifier.py:67-112 | the report's page is that page around the text of `create_html_report`, dated by the title and search clocks |
| Notifier.CreateHtmlReport | notifier.py:65-121 | the page is the head with the total, one block per job in order, and the tail, and the path is `job_report_<stamp>.html` in the storage directory |
| Notifier.PageListsJob | notifier.py:95-107 | every job has its block on a page, whatever its fixed text |
| Notifier.ReportListsJob | notifier.py:95-107 | every job has its block on the report |
| Notifier.PageHeadNoF | notifier.py:67-89 | nothing before the total line holds an 'F' when neither the dates nor the fixed text before the label does |
| Notifier.HtmlNoF | notifier.py:67-89 | the report's fixed text before the total holds no 'F' |
| Notifier.PageAroundTotal | notifier.py:88-93 | a page is the text before the total, then the label, then `len(jobs)`, then the rest |
| Notifier.SummaryCloseStart | notifier.py:90-91 | the total is followed by a tag |
| UpdateIndex.CountJobsInReport | update_index.py:40-51 | definition: 0 for an unreadable file, otherwise the number after the first "Total Jobs Found:</strong> ", and 0 when there is none |
| UpdateIndex.ReportNameMatcher | update_index.py:25 | the position test of `job_report_(\d{8})_(\d{6})\.html` |
| UpdateIndex.ExtractDateFromFilename | update_index.py:23-38 | "Unknown" exactly when the report pattern matches nowhere in the path; otherwise a "MM/DD/YYYY at HH:MM" shaped string |
| UpdateIndex.DateOfReportName | update_index.py:25-37 | the leftmost report name decides: month, day, year, hour and minute from its digits, with the seconds dropped |
| UpdateIndex.NoReportNameInPlainDirectory | update_index.py:25 | no match starts in a directory name without 'j' |
| UpdateIndex.NoReportNameInResultsDirectory | update_index.py:25 | no match starts in the `job_results/` prefix |
| UpdateIndex.ReportNameOfClock | update_index.py:25-35 | a name written from a clock reading matches, and its digit fields are that reading's |
| UpdateIndex.ReportPathDate | update_index.py:23-37 | round trip: a report path in a directory without 'j' gives back the date and minute it was written |
| UpdateIndex.ResultsReportPathDate | update_index.py:23-37 | the same round trip in the default `job_results` directory |
| UpdateIndex.CountWithoutTotal | update_index.py:46-51 | a page without "Total Jobs Found:</strong> " and a digit counts 0 |
| UpdateIndex.CountAfterTotal | update_index.py:46-48 | the number after the first total line, followed by a non-digit, is the count |
| UpdateIndex.PageCount | update_index.py:40-51 | the count read from any page whose fixed text has no 'F' before the label "Total Jobs Found:</strong> " and a non-digit after the total is its number of jobs |
| UpdateIndex.HtmlCountable | notifier.py:67-93 | the report's fixed text meets those conditions |
| UpdateIndex.ReportCountRoundTrip | update_index.py:40-51 | round trip: the count read from a report built from N jobs is N |
| Patterns.FindAllYears | job_search_v2.py:139-140 | definition: the numbers of all non-overlapping "N years of experience" matches, left to right |
| Patterns.FirstMatchLeftmost | job_search.py:411 | the search finds the leftmost position where the pattern matches, and finds none only when there is none |
| Patterns.FirstMatchNone | job_search.py:411 | no match anywhere gives no result |
| Patterns.FirstMatchAt | job_search.py:411 | the first matching position is the result |
| Patterns.AnnualSearchFinds | job_search.py:423 | the yearly search finds its first match |
| Patterns.NoDigitNoMatch | job_search.py:410-422 | every salary pattern needs a digit where its number starts |
| Patterns.NoLetterLNoLakh | job_search.py:410-416 | every match of the lpa or lakh pattern contains `l` |
| Patterns.AmountIsNumeral | job_search.py:425 | a matched number without its commas is what `float()` reads |
| Patterns.AmountParts | job_search.py:422 | a matched number is digits, then comma groups, then an optional fraction |
| Patterns.WholeNumeralValue | job_search.py:413 | a numeral without a fraction has the value of its digits |
| Patterns.MinOf | job_search_v2.py:142 | `min()` is an element no greater than any other |
| Patterns.MinAtMost | job_search_v2.py:142-143 | the minimum is within a bound exactly when some element is |
| Text.SplitJoin | indeed_scraper.py:43 | `&`-joined parts without `&` split back into the parts |
| Text.ReplaceCharInverse | indeed_selenium_scraper.py:55 | replacing spaces by `+` is undone when the text held no `+` |
| Text.ParseNatToString | update_index.py:48 | `int(str(n)) == n` |
| Text.SortedUnique | job_search.py:545-549 | `sorted(set(words))` is strictly sorted with the same elements |
| Text.SortedUniqueOfSameSet | job_search.py:545-549 | `sorted(set(xs))` depends only on the set of words |
| Text.Words | job_search.py:545 | `split()` gives non-empty words without white space |
| Seqs.FilterLoop | job_search.py:387-403 | the append-when-accepted loop computes the filter |
| Seqs.FilterMembers | job_search.py:387-403 | a filter keeps exactly the elements that satisfy its predicate |
| Seqs.KeepFirstProperties | job_search_v2.py:76-79 | keeping first occurrences takes only input elements, covers every key and has each key once |
| Seqs.KeepFirstKeepsFirstOccurrences | job_search_v2.py:76-79 | every first occurrence of a key is kept |
| Seqs.KeepFirstOnlyFirstOccurrences | job_search_v2.py:76-79 | every kept element is the first of its key |

## Left out

- Network and browser work is not modelled: HTTP fetching, HTML parsing of cards (`parse_job_card`, `extract_job_data`), Selenium driver setup, and the random sleeps between pages. The cards a page yields are the parameter `fetch`.
- `jobspy.scrape_jobs` is not modelled; each term's result is given, with `None` marking a search that raised.
- pandas is modelled as sequences of rows. `NaN` is a missing cell, and `str(NaN)` is rendered as `nan`.
- File I/O is not modelled: `load_history` reading and `save_history` writing (only the empty store built when there is no file is modelled), `save_jobs`, `load_latest_jobs`, the file write in `create_html_report`, and `find_latest_report`/`update_index_html`, which depend on modification times.
- `count_jobs_in_report`: the file's text is the argument, and an unreadable file (the swallowed exception) is `None`, which counts 0.
- SMTP sending, `main.py`, `scheduler.py` and the two GitHub-action scripts are not modelled. They only sequence the calls above or run timers.
- Python's regular-expression engine is replaced by hand-written matchers for the exact patterns used. `\s`, `split()` and `strip()` use Python's full white-space set (`Text.IsSpace`). `\d` is read as the ASCII digits 0–9, though Python's `re` also matches other Unicode decimal digits. The model's `lower()` and `title()` change only ASCII letters, where Python's also change other cased letters.
- JobTracking.GenerateJobHash: MD5 itself is a function parameter `digest`, so the model states what the digest is applied to, not its value.
- JobTracking.JobTracker.FilterNewJobs: the source reads `datetime.now()` separately for the threshold and for each stamp. The model uses one `now` per call.
- JobTracking.JobTracker.GetStats: `avg_daily_jobs` is the exact quotient as a `real`, without the rounding of Python's float division. `last_cleanup` is always present in the model's store, so the "Never" default is not modelled.
- JobTracking: ISO date strings are modelled as day numbers, and `datetime` values as integer seconds. The model does not check that stored strings parse.
- JobSearchV2.FormatSalary: the `:.1f` and `:,.0f` float formatting is a parameter `fmt`. Only the "Check job description" branch is stated outright.
- JobSearch.ExtractSalaryLpa: numbers are exact reals, not binary floats.
- JobSearch.DeduplicateJobs: `job['location']` raising `KeyError` is modelled as the result `None`. The title and company lookups are always present in scraped records.
- IndeedSeleniumScraper: a card link without an `href` is modelled as the empty URL.
- Notifier.FormatJobSummary: the seven `+=` of one entry are one append of the entry's text, which is the same string.
- Notifier.CreateHtmlReport: the three `datetime.now()` readings are separate `Clock` parameters. Years outside 1000–9999 are padded to four digits rather than as `strftime` does. `Path` normalisation of the storage directory (for example a trailing `/`) is not modelled.
- UpdateIndex.ReportPathDate: the round trip is proved for directory names without a `j` and for the default `job_results`. Other directories could hold an earlier report-shaped name.
