/**
 * The two readers of `update_index.py`: the date in a report's file name and
 * the job count on a report page. Finding the newest report and rewriting
 * `index.html` are not modelled; a report that cannot be read is `None`.
 */
module UpdateIndex {
  import opened Wrappers
  import opened Text
  import opened Patterns
  import opened JobSearchV2
  import Notifier

  // ---------------------------------------------------------------- extract_date_from_filename

  /** `job_report_(\d{8})_(\d{6})\.html` matches at `q`: 31 characters. */
  predicate ReportNameAt(s: string, q: nat)
  {
    q + 31 <= |s| && s[q..q + 11] == "job_report_" && AllDigits(s[q + 11..q + 19])
    && s[q + 19] == '_' && AllDigits(s[q + 20..q + 26]) && s[q + 26..q + 31] == ".html"
  }

  function ReportNameMatcher(s: string): nat -> bool { (q: nat) => ReportNameAt(s, q) }

  /** `.../job_report_YYYYMMDD_HHMMSS.html` gives "MM/DD/YYYY at HH:MM"; any other name "Unknown". */
  function ExtractDateFromFilename(filename: string): (r: string)
    ensures r == "Unknown" <==> forall q :: 0 <= q < |filename| ==> !ReportNameAt(filename, q)
    ensures r != "Unknown" ==> |r| == 19 && r[2] == '/' && r[5] == '/' && r[10..14] == " at " && r[16] == ':'
  {
    FirstMatchLeftmost(filename, ReportNameMatcher(filename), 0);
    assert forall q :: 0 <= q < |filename| ==> ReportNameMatcher(filename)(q) == ReportNameAt(filename, q);
    match FirstMatch(filename, ReportNameMatcher(filename), 0)
    case None => "Unknown"
    case Some(q) =>
      var date := filename[q + 11..q + 19];
      var time := filename[q + 20..q + 26];
      date[4..6] + "/" + date[6..8] + "/" + date[..4] + " at " + time[..2] + ":" + time[2..4]
  }

  /** The leftmost report name in a path decides its date: month, day, year, hour and minute, not the seconds. */
  lemma DateOfReportName(s: string, q: nat)
    requires ReportNameAt(s, q)
    requires forall k :: 0 <= k < q ==> !ReportNameAt(s, k)
    ensures ExtractDateFromFilename(s)
      == s[q + 15..q + 17] + "/" + s[q + 17..q + 19] + "/" + s[q + 11..q + 15]
         + " at " + s[q + 20..q + 22] + ":" + s[q + 22..q + 24]
  {
    FirstMatchAt(s, ReportNameMatcher(s), 0, q);
    var date := s[q + 11..q + 19];
    var time := s[q + 20..q + 26];
    SliceOfSlice(s, q + 11, q + 19, 4, 6);
    SliceOfSlice(s, q + 11, q + 19, 6, 8);
    SliceOfSlice(s, q + 11, q + 19, 0, 4);
    SliceOfSlice(s, q + 20, q + 26, 0, 2);
    SliceOfSlice(s, q + 20, q + 26, 2, 4);
  }

  /** No report name starts inside a directory name without a 'j'. */
  lemma NoReportNameInPlainDirectory(dir: string, name: string)
    requires NoChar(dir, 'j')
    ensures forall k :: 0 <= k < |dir| + 1 ==> !ReportNameAt(dir + "/" + name, k)
  {
    var s := dir + "/" + name;
    forall k | 0 <= k < |dir| + 1
      ensures !ReportNameAt(s, k)
    {
      assert s[k] != 'j';
      if k + 11 <= |s| {
        assert s[k..k + 11][0] == s[k];
      }
    }
  }

  /** No report name starts inside the default directory `job_results/`. */
  lemma NoReportNameInResultsDirectory(name: string)
    ensures forall k :: 0 <= k < 12 ==> !ReportNameAt("job_results" + "/" + name, k)
  {
    var s := "job_results" + "/" + name;
    assert s[..12] == "job_results/";
    forall k | 0 <= k < 12
      ensures !ReportNameAt(s, k)
    {
      if k + 11 <= |s| {
        if k == 0 {
          assert s[k..k + 11][6] == s[6] == 's';
        } else {
          assert s[k..k + 11][0] == s[k] != 'j';
        }
      }
    }
  }

  /** The report name written at `q` has the date and time of the clock reading. */
  lemma ReportNameOfClock(s: string, q: nat, c: Notifier.Clock)
    requires q + 31 <= |s| && s[q..q + 31] == "job_report_" + Notifier.StampText(c) + ".html"
    ensures ReportNameAt(s, q)
    ensures s[q + 15..q + 17] == Notifier.Digits(c.month, 2) && s[q + 17..q + 19] == Notifier.Digits(c.day, 2)
    ensures s[q + 11..q + 15] == Notifier.Digits(c.year, 4)
    ensures s[q + 20..q + 22] == Notifier.Digits(c.hour, 2) && s[q + 22..q + 24] == Notifier.Digits(c.minute, 2)
  {
    var y, mo, d := Notifier.Digits(c.year, 4), Notifier.Digits(c.month, 2), Notifier.Digits(c.day, 2);
    var h, mi, se := Notifier.Digits(c.hour, 2), Notifier.Digits(c.minute, 2), Notifier.Digits(c.second, 2);
    var ymd, hms := y + mo + d, h + mi + se;
    var t := s[q..q + 31];
    assert t == "job_report_" + ymd + "_" + hms + ".html";
    assert t[11..19] == ymd;
    assert t[20..26] == hms;
    SliceOfSlice(s, q, q + 31, 11, 19);
    SliceOfSlice(s, q, q + 31, 20, 26);
    SliceOfSlice(s, q, q + 31, 0, 11);
    SliceOfSlice(s, q, q + 31, 26, 31);
    SliceOfSlice(s, q, q + 31, 15, 17);
    SliceOfSlice(s, q, q + 31, 17, 19);
    SliceOfSlice(s, q, q + 31, 11, 15);
    SliceOfSlice(s, q, q + 31, 20, 22);
    SliceOfSlice(s, q, q + 31, 22, 24);
    assert t[15..17] == mo && t[17..19] == d && t[11..15] == y;
    assert t[20..22] == h && t[22..24] == mi;
    assert s[q + 19] == t[19] == '_';
  }

  /** The date shown for a report is the one `create_html_report` wrote into its file name. */
  function ShownDate(c: Notifier.Clock): string
  {
    Notifier.Digits(c.month, 2) + "/" + Notifier.Digits(c.day, 2) + "/" + Notifier.Digits(c.year, 4)
    + " at " + Notifier.Digits(c.hour, 2) + ":" + Notifier.Digits(c.minute, 2)
  }

  /** Round trip with the notifier: a report path in a directory without a 'j' gives back its clock reading. */
  lemma ReportPathDate(dir: string, c: Notifier.Clock)
    requires NoChar(dir, 'j')
    ensures ExtractDateFromFilename(Notifier.ReportPath(dir, c)) == ShownDate(c)
  {
    var name := "job_report_" + Notifier.StampText(c) + ".html";
    var s := Notifier.ReportPath(dir, c);
    assert s == dir + "/" + name;
    var q := |dir| + 1;
    assert s[q..q + 31] == name;
    ReportNameOfClock(s, q, c);
    NoReportNameInPlainDirectory(dir, name);
    DateOfReportName(s, q);
  }

  /** The same round trip in the default directory `job_results`. */
  lemma ResultsReportPathDate(c: Notifier.Clock)
    ensures ExtractDateFromFilename(Notifier.ReportPath("job_results", c)) == ShownDate(c)
  {
    var name := "job_report_" + Notifier.StampText(c) + ".html";
    var s := Notifier.ReportPath("job_results", c);
    assert s == "job_results" + "/" + name;
    assert s[12..12 + 31] == name;
    ReportNameOfClock(s, 12, c);
    NoReportNameInResultsDirectory(name);
    DateOfReportName(s, 12);
  }

  // ---------------------------------------------------------------- count_jobs_in_report

  const TotalPattern: string := "Total Jobs Found:</strong> "

  /** `Total Jobs Found:</strong> (\d+)` matches at `q`. */
  predicate TotalAt(s: string, q: nat)
  {
    q + 27 < |s| && s[q..q + 27] == TotalPattern && IsDigit(s[q + 27])
  }

  function TotalMatcher(s: string): nat -> bool { (q: nat) => TotalAt(s, q) }

  /** `count_jobs_in_report` on the text of a report; `None` is a report that cannot be read. */
  function CountJobsInReport(content: Option<string>): nat
  {
    match content
    case None => 0
    case Some(s) =>
      match FirstMatch(s, TotalMatcher(s), 0)
      case None => 0
      case Some(q) =>
        FirstMatchLeftmost(s, TotalMatcher(s), 0);
        ParseNat(s[q + 27..DigitsEnd(s, q + 27)])
  }

  /** A page without the total line counts no jobs. */
  lemma CountWithoutTotal(s: string)
    requires forall q :: 0 <= q < |s| ==> !TotalAt(s, q)
    ensures CountJobsInReport(Some(s)) == 0
  {
    FirstMatchNone(s, TotalMatcher(s), 0);
  }

  /** The number after the first total line is the count. */
  lemma CountAfterTotal(pre: string, n: nat, close: string, rest: string)
    requires NoChar(pre, 'F')
    requires close != [] && !IsDigit(close[0])
    ensures CountJobsInReport(Some(pre + TotalPattern + NatToString(n) + (close + rest))) == n
  {
    var post := close + rest;
    var d := NatToString(n);
    var s := pre + TotalPattern + d + post;
    var q := |pre|;
    assert s[q..q + 27] == TotalPattern;
    assert s[q + 27] == d[0];
    forall k | 0 <= k < q
      ensures !TotalAt(s, k)
    {
      if k + 11 < q {
        assert s[k + 11] == pre[k + 11];
      } else {
        assert s[k + 11] == TotalPattern[k + 11 - q];
      }
      assert s[k..k + 27][11] == s[k + 11] != 'F';
    }
    FirstMatchAt(s, TotalMatcher(s), 0, q);
    var e := DigitsEnd(s, q + 27);
    assert forall i :: q + 27 <= i < q + 27 + |d| ==> s[i] == d[i - q - 27];
    assert q + 27 + |d| == |s| || !IsDigit(s[q + 27 + |d|]);
    assert e == q + 27 + |d|;
    assert s[q + 27..e] == d;
    ParseNatToString(n);
  }

  /** What the count needs of the fixed text of a page: no 'F' before the label, and a non-digit after the total. */
  predicate CountableText(t: Notifier.PageText)
  {
    NoChar(t.opening, 'F') && NoChar(t.style, 'F') && NoChar(t.summaryOpen, 'F')
    && t.totalLabel == TotalPattern && t.summaryClose != [] && !IsDigit(t.summaryClose[0])
  }

  /** The count read from a page is the number of jobs it was built from. */
  lemma PageCount(t: Notifier.PageText, jobs: seq<JobDict>, date: string, searchTime: string)
    requires CountableText(t)
    requires NoChar(date, 'F') && NoChar(searchTime, 'F')
    ensures CountJobsInReport(Some(Notifier.Page(t, jobs, date, searchTime))) == |jobs|
  {
    Notifier.PageHeadNoF(t, date, searchTime);
    Notifier.PageAroundTotal(t, jobs, date, searchTime);
    CountAfterTotal(Notifier.PageHead(t, date, searchTime), |jobs|, t.summaryClose,
      Notifier.Listed(jobs, 0, Notifier.BlockEntry()) + t.tail);
  }

  /** The fixed text of the notifier's report is countable. */
  lemma HtmlCountable()
    ensures CountableText(Notifier.Html)
  {
    Notifier.HtmlNoF();
    Notifier.SummaryCloseStart();
    assert Notifier.TotalLabel == TotalPattern;
  }

  /** Round trip with the notifier: the count read from a report is the number of jobs it was built from. */
  lemma ReportCountRoundTrip(jobs: seq<JobDict>, titleClock: Notifier.Clock, searchClock: Notifier.Clock)
    ensures CountJobsInReport(Some(Notifier.ReportText(jobs, titleClock, searchClock))) == |jobs|
  {
    Notifier.ClockTextNoF(titleClock);
    Notifier.ClockTextNoF(searchClock);
    HtmlCountable();
    PageCount(Notifier.Html, jobs, Notifier.DateText(titleClock), Notifier.MinuteText(searchClock));
  }
}
