/**
 * The text a `JobNotifier` renders: the plain-text summary of
 * `format_job_summary` and the HTML page and file name of
 * `create_html_report`. The clock readings are parameters; writing the page
 * to disk is not modelled.
 */
module Notifier {
  import opened Text
  import opened JobSearchV2

  // ---------------------------------------------------------------- clock readings

  /** A reading of `datetime.now()`. */
  datatype Clock = Clock(year: nat, month: nat, day: nat, hour: nat, minute: nat, second: nat)

  /** The last `width` decimal digits of `n`, padded with zeros (`%02d`, `%04d`). */
  function Digits(n: nat, width: nat): (r: string)
    ensures |r| == width && AllDigits(r)
  {
    if width == 0 then "" else Digits(n / 10, width - 1) + [DigitChar(n % 10)]
  }

  /** `strftime('%Y-%m-%d')` */
  function DateText(c: Clock): string
  {
    Digits(c.year, 4) + "-" + Digits(c.month, 2) + "-" + Digits(c.day, 2)
  }

  /** `strftime('%Y-%m-%d %H:%M')` */
  function MinuteText(c: Clock): string
  {
    DateText(c) + " " + Digits(c.hour, 2) + ":" + Digits(c.minute, 2)
  }

  /** `strftime("%Y%m%d_%H%M%S")` */
  function StampText(c: Clock): string
  {
    Digits(c.year, 4) + Digits(c.month, 2) + Digits(c.day, 2) + "_"
    + Digits(c.hour, 2) + Digits(c.minute, 2) + Digits(c.second, 2)
  }

  /** Formatted readings hold no 'F'. */
  lemma ClockTextNoF(c: Clock)
    ensures NoChar(DateText(c), 'F') && NoChar(MinuteText(c), 'F')
  {
    assert AllDigits(Digits(c.year, 4)) && AllDigits(Digits(c.month, 2)) && AllDigits(Digits(c.day, 2));
    assert AllDigits(Digits(c.hour, 2)) && AllDigits(Digits(c.minute, 2));
  }

  // ---------------------------------------------------------------- listing jobs

  /** The texts `entry(first, items[0])`, `entry(first + 1, items[1])`, … one after another. */
  function Listed(items: seq<JobDict>, first: nat, entry: (nat, JobDict) -> string): string
  {
    if items == [] then ""
    else Listed(items[..|items| - 1], first, entry) + entry(first + |items| - 1, items[|items| - 1])
  }

  /** The loops of both renderers: append the texts of the first `count` jobs, numbered from `first`. */
  method AppendEntries(text: string, jobs: seq<JobDict>, count: nat, first: nat, entry: (nat, JobDict) -> string)
    returns (r: string)
    requires count <= |jobs|
    ensures r == text + Listed(jobs[..count], first, entry)
  {
    r := text;
    for i := 0 to count
      invariant r == text + Listed(jobs[..i], first, entry)
    {
      r := r + entry(first + i, jobs[i]);
      assert jobs[..i + 1][..i] == jobs[..i];
    }
  }

  /** The texts of consecutive runs of jobs are consecutive, numbered on. */
  lemma {:induction false} ListedConcat(a: seq<JobDict>, b: seq<JobDict>, first: nat, entry: (nat, JobDict) -> string)
    ensures Listed(a + b, first, entry) == Listed(a, first, entry) + Listed(b, first + |a|, entry)
    decreases |b|
  {
    if b == [] {
      assert a + b == a;
    } else {
      assert (a + b)[..|a + b| - 1] == a + b[..|b| - 1];
      ListedConcat(a, b[..|b| - 1], first, entry);
    }
  }

  /** The `k`-th job's text, under the number `first + k`, is in the listing. */
  lemma ListedContains(items: seq<JobDict>, first: nat, entry: (nat, JobDict) -> string, k: nat)
    requires k < |items|
    ensures Contains(Listed(items, first, entry), entry(first + k, items[k]))
  {
    assert items == items[..k] + [items[k]] + items[k + 1..];
    ListedConcat(items[..k] + [items[k]], items[k + 1..], first, entry);
    ListedConcat(items[..k], [items[k]], first, entry);
    assert Listed([items[k]], first + k, entry) == entry(first + k, items[k]) by {
      assert [items[k]][..0] == [];
    }
    ContainsSelf(entry(first + k, items[k]));
    ContainsInside(Listed(items[..k], first, entry), entry(first + k, items[k]),
      Listed(items[k + 1..], first + k + 1, entry), entry(first + k, items[k]));
  }

  lemma ContainsSelf(s: string)
    ensures Contains(s, s)
  {
    assert ContainsAt(s, s, 0);
  }

  // ---------------------------------------------------------------- format_job_summary

  const NoJobsMessage: string := "No matching jobs found in today's search."

  /** The first line of a summary and the blank line after it. */
  function SummaryHeader(count: nat): string
  {
    "Found " + NatToString(count) + " matching Operations jobs offering >9 LPA:\n\n"
  }

  /** The seven lines listing one job under the number `numeral`. */
  function EntryLines(numeral: string, job: JobDict): seq<string>
  {
    [ numeral + ". " + job.title,
      "   Company: " + job.company,
      "   Location: " + job.location,
      "   Salary: " + job.salary,
      "   Experience: " + job.experience,
      "   Source: " + job.source,
      "   URL: " + job.url ]
  }

  /** One listed job: its seven lines, each ended by a newline, then a blank line. */
  function Entry(numeral: string, job: JobDict): string
  {
    Terminated(EntryLines(numeral, job) + [""], '\n')
  }

  /** The entry of the job numbered `number`. */
  function EntryText(number: nat, job: JobDict): string
  {
    Entry(NatToString(number), job)
  }

  /** The line that counts the jobs beyond the first ten. */
  function Trailer(count: nat): string
  {
    if count > 10 then "\n... and " + NatToString(count - 10) + " more jobs.\n" else ""
  }


  /** The summary of `jobs`: a header, the first ten jobs numbered from 1, and the trailer. */
  function SummaryText(jobs: seq<JobDict>): string
  {
    if jobs == [] then NoJobsMessage
    else SummaryHeader(|jobs|) + Listed(jobs[..Min(10, |jobs|)], 1, EntryText) + Trailer(|jobs|)
  }

  /**
   * `format_job_summary`. The seven `+=` of one entry are the one append of
   * its `EntryText`.
   */
  method FormatJobSummary(jobs: seq<JobDict>) returns (summary: string)
    ensures summary == SummaryText(jobs)
  {
    if |jobs| == 0 {
      return NoJobsMessage;
    }
    summary := AppendEntries(SummaryHeader(|jobs|), jobs, Min(10, |jobs|), 1, EntryText);
    if |jobs| > 10 {
      summary := summary + "\n... and " + NatToString(|jobs| - 10) + " more jobs.\n";
    }
  }

  // ---------------------------------------------------------------- properties of the summary

  /** The fixed message is the summary exactly when there are no jobs. */
  lemma NoJobsSummary(jobs: seq<JobDict>)
    ensures SummaryText(jobs) == NoJobsMessage <==> jobs == []
  {
    if jobs != [] {
      var s := SummaryText(jobs);
      assert s[0] == 'F';
      assert NoJobsMessage[0] == 'N';
    }
  }

  /** A summary of jobs opens with their number. */
  lemma SummaryCounts(jobs: seq<JobDict>)
    requires jobs != []
    ensures var h := SummaryHeader(|jobs|);
      |SummaryText(jobs)| >= |h| && SummaryText(jobs)[..|h|] == h
    ensures var s := SummaryText(jobs); var d := NatToString(|jobs|);
      |s| >= 6 + |d| && ParseNat(s[6..6 + |d|]) == |jobs|
  {
    var rest := Listed(jobs[..Min(10, |jobs|)], 1, EntryText) + Trailer(|jobs|);
    assert SummaryText(jobs) == SummaryHeader(|jobs|) + rest;
    HeaderCount(|jobs|, rest);
  }

  /** The number in a header, whatever follows it, reads back as the count. */
  lemma HeaderCount(count: nat, rest: string)
    ensures var s := SummaryHeader(count) + rest; var d := NatToString(count);
      |s| >= 6 + |d| && ParseNat(s[6..6 + |d|]) == count
  {
    var d := NatToString(count);
    var s := SummaryHeader(count) + rest;
    assert s == "Found " + d + (" matching Operations jobs offering >9 LPA:\n\n" + rest);
    assert s[6..6 + |d|] == d;
    ParseNatToString(count);
  }

  /** The `k`-th job, for `k` below ten, is listed under the number `k + 1`. */
  lemma SummaryListsJob(jobs: seq<JobDict>, k: nat)
    requires k < |jobs| && k < 10
    ensures Contains(SummaryText(jobs), EntryText(k + 1, jobs[k]))
  {
    var shown := jobs[..Min(10, |jobs|)];
    ListedContains(shown, 1, EntryText, k);
    ContainsInside(SummaryHeader(|jobs|), Listed(shown, 1, EntryText), Trailer(|jobs|), EntryText(k + 1, jobs[k]));
  }

  /** When no field holds a newline, splitting an entry at newlines gives its seven lines and a blank line. */
  lemma EntrySplit(number: nat, job: JobDict)
    requires NoChar(job.title, '\n') && NoChar(job.company, '\n') && NoChar(job.location, '\n')
    requires NoChar(job.salary, '\n') && NoChar(job.experience, '\n') && NoChar(job.source, '\n')
    requires NoChar(job.url, '\n')
    ensures Split(EntryText(number, job), '\n') == EntryLines(NatToString(number), job) + ["", ""]
  {
    var numeral := NatToString(number);
    var lines := EntryLines(numeral, job);
    var xs := lines + ["", ""];
    TerminatedJoin(lines + [""], '\n');
    assert lines + [""] + [""] == xs;
    assert AllDigits(numeral);
    NoCharConcat(numeral, ". ", '\n');
    NoCharConcat(numeral + ". ", job.title, '\n');
    NoCharConcat("   Company: ", job.company, '\n');
    NoCharConcat("   Location: ", job.location, '\n');
    NoCharConcat("   Salary: ", job.salary, '\n');
    NoCharConcat("   Experience: ", job.experience, '\n');
    NoCharConcat("   Source: ", job.source, '\n');
    NoCharConcat("   URL: ", job.url, '\n');
    assert forall k :: 0 <= k < |xs| ==> NoChar(xs[k], '\n');
    SplitJoin(xs, '\n');
  }

  /** An entry ends with a blank line. */
  lemma EntryEnd(numeral: string, job: JobDict)
    ensures var e := Entry(numeral, job); |e| >= 2 && e[|e| - 1] == '\n' && e[|e| - 2] == '\n'
  {
    var lines := EntryLines(numeral, job) + [""];
    TerminatedEnd(lines[..7], "", '\n');
    assert lines == lines[..7] + [""];
    TerminatedEnd(lines[..6], lines[6], '\n');
    assert lines[..7] == lines[..6] + [lines[6]];
    TerminatedConcat(lines[..7], [""], '\n');
  }

  lemma {:induction false} TerminatedConcat(xs: seq<string>, ys: seq<string>, sep: char)
    ensures Terminated(xs + ys, sep) == Terminated(xs, sep) + Terminated(ys, sep)
    decreases |xs|
  {
    if xs != [] {
      assert (xs + ys)[1..] == xs[1..] + ys;
      TerminatedConcat(xs[1..], ys, sep);
    } else {
      assert xs + ys == ys;
    }
  }

  lemma TerminatedEnd(xs: seq<string>, x: string, sep: char)
    ensures var t := Terminated(xs + [x], sep); |t| >= 1 && t[|t| - 1] == sep
  {
    TerminatedConcat(xs, [x], sep);
    assert Terminated([x], sep) == x + [sep] by { assert [x][1..] == []; }
  }

  /** The trailer ends the summary exactly when more than ten jobs were found. */
  lemma TrailerWhenMoreThanTen(jobs: seq<JobDict>)
    requires jobs != []
    ensures var s := SummaryText(jobs);
      |jobs| > 10 <==> |s| >= 12 && s[|s| - 12..] == " more jobs.\n"
  {
    var listed := Listed(jobs[..Min(10, |jobs|)], 1, EntryText);
    if |jobs| > 10 {
      EndsWithTrailer(SummaryHeader(|jobs|) + listed, NatToString(|jobs| - 10));
    } else {
      assert jobs[..Min(10, |jobs|)] == jobs;
      ListedEnd(jobs, 1);
      BlankLineIsNoTrailer(SummaryHeader(|jobs|), listed);
    }
  }

  /** Text followed by a trailer ends with the trailer's last words. */
  lemma EndsWithTrailer(front: string, rest: string)
    ensures var s := front + ("\n... and " + rest + " more jobs.\n");
      |s| >= 12 && s[|s| - 12..] == " more jobs.\n"
  {
    var s := front + ("\n... and " + rest + " more jobs.\n");
    assert s == (front + "\n... and " + rest) + " more jobs.\n";
  }

  /** Text whose last line is blank does not end with the trailer. */
  lemma BlankLineIsNoTrailer(front: string, t: string)
    requires |t| >= 2 && t[|t| - 2] == '\n'
    ensures var s := front + t; !(|s| >= 12 && s[|s| - 12..] == " more jobs.\n")
  {
    var s := front + t;
    assert s[|s| - 2] == '\n';
    assert " more jobs.\n"[10] == '.';
    if |s| >= 12 {
      assert s[|s| - 12..][10] == s[|s| - 2];
    }
  }

  /** A listing of jobs ends with the blank line of its last entry. */
  lemma ListedEnd(jobs: seq<JobDict>, first: nat)
    requires jobs != []
    ensures var t := Listed(jobs, first, EntryText); |t| >= 2 && t[|t| - 2] == '\n'
  {
    var n := first + |jobs| - 1;
    var last := jobs[|jobs| - 1];
    EntryEnd(NatToString(n), last);
    assert Listed(jobs, first, EntryText) == Listed(jobs[..|jobs| - 1], first, EntryText) + Entry(NatToString(n), last);
  }

  // ---------------------------------------------------------------- create_html_report

  // The template text up to the "Total Jobs Found" line, as literals of at most
  // 32 characters, so that each one's lack of an 'F' is a small proof.

  /** Up to the date in `<title>` (notifier.py:67-71). */
  const Opening: string := Opening0 + Opening1 + Opening2 + Opening3
  const Opening0: string := "\n        <!DOCTYPE html>\n"
  const Opening1: string := "        <html>\n        <head>\n"
  const Opening2: string := "            <title>Operations Jo"
  const Opening3: string := "b Search Results - "

  /** From `</title>` to the date of the summary (notifier.py:71-89). */
  const Style: string := StyleOpen + StyleJob + StyleDetails + StyleSummary + BodyOpen
  /** `</title>`, `<style>` and the rules for `body`, `h1` and the start of `.job`. */
  const StyleOpen: string := Style0 + Style1 + Style2 + Style3 + Style4
  /** The rules for `.job`, `.job:hover` and `.job-title`. */
  const StyleJob: string := Style5 + Style6 + Style7 + Style8 + Style9 + Style10 + Style11
  /** The rules for `.company`, `.details` and `.apply-btn`. */
  const StyleDetails: string := Style12 + Style13 + Style14 + Style15 + Style16 + Style17 + Style18 + Style19 + Style20
  /** The rules for `.apply-btn:hover` and `.summary`. */
  const StyleSummary: string := Style21 + Style22 + Style23 + Style24 + Style25 + Style26
  /** `</style>`, `<body>`, the heading and the search-date label. */
  const BodyOpen: string := Style27 + Style28 + Style29 + Style30 + Style31 + Style32 + Style33
  const Style0: string := "</title>\n            <style>\n"
  const Style1: string := "                body { font-fami"
  const Style2: string := "ly: Arial, sans-serif; margin: 2"
  const Style3: string := "0px; }\n                h1 { colo"
  const Style4: string := "r: #333; }\n                .job "
  const Style5: string := "{ border: 1px solid #ddd; paddin"
  const Style6: string := "g: 15px; margin: 10px 0; border-"
  const Style7: string := "radius: 5px; }\n                ."
  const Style8: string := "job:hover { background-color: #f"
  const Style9: string := "5f5f5; }\n                .job-ti"
  const Style10: string := "tle { font-size: 18px; font-weig"
  const Style11: string := "ht: bold; color: #0066cc; }\n"
  const Style12: string := "                .company { color"
  const Style13: string := ": #666; margin: 5px 0; }\n"
  const Style14: string := "                .details { margi"
  const Style15: string := "n: 10px 0; }\n                .ap"
  const Style16: string := "ply-btn { background-color: #006"
  const Style17: string := "6cc; color: white; padding: 8px "
  const Style18: string := "15px; \n                         "
  const Style19: string := "    text-decoration: none; borde"
  const Style20: string := "r-radius: 3px; display: inline-b"
  const Style21: string := "lock; }\n                .apply-b"
  const Style22: string := "tn:hover { background-color: #00"
  const Style23: string := "52a3; }\n                .summary"
  const Style24: string := " { background-color: #e8f4f8; pa"
  const Style25: string := "dding: 15px; border-radius: 5px;"
  const Style26: string := " margin-bottom: 20px; }\n"
  const Style27: string := "            </style>\n"
  const Style28: string := "        </head>\n        <body>\n"
  const Style29: string := "            <h1>Operations Job S"
  const Style30: string := "earch Results</h1>\n            <"
  const Style31: string := "div class=\"summary\">\n"
  const Style32: string := "                <p><strong>Searc"
  const Style33: string := "h Date:</strong> "

  /** Between the search date and the total (notifier.py:89-90). */
  const SummaryOpen: string := "</p>\n                <p><strong>"

  /** The label that `update_index.py` looks for (notifier.py:90). */
  const TotalLabel: string := "Total Jobs Found:</strong> "

  /** After the total: the criteria line and the end of the summary (notifier.py:90-93). */
  const SummaryClose: string := TotalEnd + CriteriaLine
  const TotalEnd: string := "</p>\n"
  const CriteriaLine: string := "                <p><strong>Criteria:</strong> Operations roles, >9 LPA, Entry level</p>\n            </div>\n        "

  // ---------------------------------------------------------------- no 'F' before the total

  // One lemma per template piece: each piece is a literal of at most 32
  // characters, so each proof reads only one short literal. A single lemma
  // over all pieces would put the whole head in one proof obligation, and
  // that is too costly for the solver. The group lemmas below chain the
  // pieces together.
  lemma Opening0NoF() ensures NoChar(Opening0, 'F') { }
  lemma Opening1NoF() ensures NoChar(Opening1, 'F') { }
  lemma Opening2NoF() ensures NoChar(Opening2, 'F') { }
  lemma Opening3NoF() ensures NoChar(Opening3, 'F') { }
  lemma Style0NoF() ensures NoChar(Style0, 'F') { }
  lemma Style1NoF() ensures NoChar(Style1, 'F') { }
  lemma Style2NoF() ensures NoChar(Style2, 'F') { }
  lemma Style3NoF() ensures NoChar(Style3, 'F') { }
  lemma Style4NoF() ensures NoChar(Style4, 'F') { }
  lemma Style5NoF() ensures NoChar(Style5, 'F') { }
  lemma Style6NoF() ensures NoChar(Style6, 'F') { }
  lemma Style7NoF() ensures NoChar(Style7, 'F') { }
  lemma Style8NoF() ensures NoChar(Style8, 'F') { }
  lemma Style9NoF() ensures NoChar(Style9, 'F') { }
  lemma Style10NoF() ensures NoChar(Style10, 'F') { }
  lemma Style11NoF() ensures NoChar(Style11, 'F') { }
  lemma Style12NoF() ensures NoChar(Style12, 'F') { }
  lemma Style13NoF() ensures NoChar(Style13, 'F') { }
  lemma Style14NoF() ensures NoChar(Style14, 'F') { }
  lemma Style15NoF() ensures NoChar(Style15, 'F') { }
  lemma Style16NoF() ensures NoChar(Style16, 'F') { }
  lemma Style17NoF() ensures NoChar(Style17, 'F') { }
  lemma Style18NoF() ensures NoChar(Style18, 'F') { }
  lemma Style19NoF() ensures NoChar(Style19, 'F') { }
  lemma Style20NoF() ensures NoChar(Style20, 'F') { }
  lemma Style21NoF() ensures NoChar(Style21, 'F') { }
  lemma Style22NoF() ensures NoChar(Style22, 'F') { }
  lemma Style23NoF() ensures NoChar(Style23, 'F') { }
  lemma Style24NoF() ensures NoChar(Style24, 'F') { }
  lemma Style25NoF() ensures NoChar(Style25, 'F') { }
  lemma Style26NoF() ensures NoChar(Style26, 'F') { }
  lemma Style27NoF() ensures NoChar(Style27, 'F') { }
  lemma Style28NoF() ensures NoChar(Style28, 'F') { }
  lemma Style29NoF() ensures NoChar(Style29, 'F') { }
  lemma Style30NoF() ensures NoChar(Style30, 'F') { }
  lemma Style31NoF() ensures NoChar(Style31, 'F') { }
  lemma Style32NoF() ensures NoChar(Style32, 'F') { }
  lemma Style33NoF() ensures NoChar(Style33, 'F') { }

  /** The opening of the page has no 'F'. */
  lemma OpeningNoF()
    ensures NoChar(Opening, 'F')
  {
    Opening0NoF();
    Opening1NoF();
    Opening2NoF();
    Opening3NoF();
    NoCharConcat(Opening0, Opening1, 'F');
    NoCharConcat(Opening0 + Opening1, Opening2, 'F');
    NoCharConcat(Opening0 + Opening1 + Opening2, Opening3, 'F');
  }

  /** `</title>`, `<style>` and the rules for `body`, `h1` and the start of `.job` have no 'F'. */
  lemma StyleOpenNoF()
    ensures NoChar(StyleOpen, 'F')
  {
    Style0NoF();
    Style1NoF();
    Style2NoF();
    Style3NoF();
    Style4NoF();
    NoCharConcat(Style0, Style1, 'F');
    NoCharConcat(Style0 + Style1, Style2, 'F');
    NoCharConcat(Style0 + Style1 + Style2, Style3, 'F');
    NoCharConcat(Style0 + Style1 + Style2 + Style3, Style4, 'F');
  }

  /** The rules for `.job`, `.job:hover` and `.job-title` have no 'F'. */
  lemma StyleJobNoF()
    ensures NoChar(StyleJob, 'F')
  {
    Style5NoF();
    Style6NoF();
    Style7NoF();
    Style8NoF();
    Style9NoF();
    Style10NoF();
    Style11NoF();
    NoCharConcat(Style5, Style6, 'F');
    NoCharConcat(Style5 + Style6, Style7, 'F');
    NoCharConcat(Style5 + Style6 + Style7, Style8, 'F');
    NoCharConcat(Style5 + Style6 + Style7 + Style8, Style9, 'F');
    NoCharConcat(Style5 + Style6 + Style7 + Style8 + Style9, Style10, 'F');
    NoCharConcat(Style5 + Style6 + Style7 + Style8 + Style9 + Style10, Style11, 'F');
  }

  /** The rules for `.company`, `.details` and `.apply-btn` have no 'F'. */
  lemma StyleDetailsNoF()
    ensures NoChar(StyleDetails, 'F')
  {
    Style12NoF();
    Style13NoF();
    Style14NoF();
    Style15NoF();
    Style16NoF();
    Style17NoF();
    Style18NoF();
    Style19NoF();
    Style20NoF();
    NoCharConcat(Style12, Style13, 'F');
    NoCharConcat(Style12 + Style13, Style14, 'F');
    NoCharConcat(Style12 + Style13 + Style14, Style15, 'F');
    NoCharConcat(Style12 + Style13 + Style14 + Style15, Style16, 'F');
    NoCharConcat(Style12 + Style13 + Style14 + Style15 + Style16, Style17, 'F');
    NoCharConcat(Style12 + Style13 + Style14 + Style15 + Style16 + Style17, Style18, 'F');
    NoCharConcat(Style12 + Style13 + Style14 + Style15 + Style16 + Style17 + Style18, Style19, 'F');
    NoCharConcat(Style12 + Style13 + Style14 + Style15 + Style16 + Style17 + Style18 + Style19, Style20, 'F');
  }

  /** The rules for `.apply-btn:hover` and `.summary` have no 'F'. */
  lemma StyleSummaryNoF()
    ensures NoChar(StyleSummary, 'F')
  {
    Style21NoF();
    Style22NoF();
    Style23NoF();
    Style24NoF();
    Style25NoF();
    Style26NoF();
    NoCharConcat(Style21, Style22, 'F');
    NoCharConcat(Style21 + Style22, Style23, 'F');
    NoCharConcat(Style21 + Style22 + Style23, Style24, 'F');
    NoCharConcat(Style21 + Style22 + Style23 + Style24, Style25, 'F');
    NoCharConcat(Style21 + Style22 + Style23 + Style24 + Style25, Style26, 'F');
  }

  /** `</style>`, `<body>`, the heading and the search-date label have no 'F'. */
  lemma BodyOpenNoF()
    ensures NoChar(BodyOpen, 'F')
  {
    Style27NoF();
    Style28NoF();
    Style29NoF();
    Style30NoF();
    Style31NoF();
    Style32NoF();
    Style33NoF();
    NoCharConcat(Style27, Style28, 'F');
    NoCharConcat(Style27 + Style28, Style29, 'F');
    NoCharConcat(Style27 + Style28 + Style29, Style30, 'F');
    NoCharConcat(Style27 + Style28 + Style29 + Style30, Style31, 'F');
    NoCharConcat(Style27 + Style28 + Style29 + Style30 + Style31, Style32, 'F');
    NoCharConcat(Style27 + Style28 + Style29 + Style30 + Style31 + Style32, Style33, 'F');
  }

  /** The style sheet and the start of the body have no 'F'. */
  lemma StyleNoF()
    ensures NoChar(Style, 'F')
  {
    StyleOpenNoF();
    StyleJobNoF();
    StyleDetailsNoF();
    StyleSummaryNoF();
    BodyOpenNoF();
    NoCharConcat(StyleOpen, StyleJob, 'F');
    NoCharConcat(StyleOpen + StyleJob, StyleDetails, 'F');
    NoCharConcat(StyleOpen + StyleJob + StyleDetails, StyleSummary, 'F');
    NoCharConcat(StyleOpen + StyleJob + StyleDetails + StyleSummary, BodyOpen, 'F');
  }

  /**
   * The fixed text of a report page: everything but the two dates, the
   * total and the job blocks. The page is stated over any such text, so
   * that what holds of its shape is proved without the long literals.
   */
  datatype PageText = PageText(opening: string, style: string, summaryOpen: string, totalLabel: string,
                               summaryClose: string, tail: string)

  /** The text that `create_html_report` writes around its values (notifier.py:67-112). */
  const Html: PageText := PageText(Opening, Style, SummaryOpen, TotalLabel, SummaryClose, TailText)

  /** The page from its first line to the total (notifier.py:67-90). */
  function PageHead(t: PageText, date: string, searchTime: string): string
  {
    t.opening + date + t.style + searchTime + t.summaryOpen
  }

  /** The page from its first line to the end of the summary, for `count` jobs. */
  function PageTop(t: PageText, date: string, searchTime: string, count: nat): string
  {
    PageHead(t, date, searchTime) + t.totalLabel + NatToString(count) + t.summaryClose
  }

  /** The block of one job (notifier.py:96-107). */
  function JobBlock(job: JobDict): string
  {
    "\n            <div class=\"job\">\n                <div class=\"job-title\">" + job.title
    + "</div>\n                <div class=\"company\">" + job.company + " - " + job.location
    + "</div>\n                <div class=\"details\">\n                    <p><strong>Salary:</strong> " + job.salary
    + "</p>\n                    <p><strong>Experience:</strong> " + job.experience
    + "</p>\n                    <p><strong>Source:</strong> " + job.source
    + "</p>\n                </div>\n                <a href=\"" + job.url
    + "\" target=\"_blank\" class=\"apply-btn\">View & Apply</a>\n            </div>\n            "
  }

  /** The block of a job, whatever its position. */
  function BlockEntry(): (nat, JobDict) -> string
  {
    (number: nat, job: JobDict) => JobBlock(job)
  }

  /** The end of the page (notifier.py:109-112). */
  const TailText: string := "\n        </body>\n        </html>\n        "

  /** The page for `jobs` around the fixed text `t`. */
  function Page(t: PageText, jobs: seq<JobDict>, date: string, searchTime: string): string
  {
    PageTop(t, date, searchTime, |jobs|) + Listed(jobs, 0, BlockEntry()) + t.tail
  }

  /** The page for `jobs`, with the title dated by one reading of the clock and the summary by another. */
  function ReportText(jobs: seq<JobDict>, titleClock: Clock, searchClock: Clock): string
  {
    Page(Html, jobs, DateText(titleClock), MinuteText(searchClock))
  }

  /** `str(self.storage_dir / f"job_report_{timestamp}.html")` */
  function ReportPath(storageDir: string, fileClock: Clock): string
  {
    storageDir + "/" + "job_report_" + StampText(fileClock) + ".html"
  }

  /** The page is built as `create_html_report` builds it: the head, one block per job in order, the tail. */
  method RenderPage(t: PageText, jobs: seq<JobDict>, date: string, searchTime: string) returns (html: string)
    ensures html == Page(t, jobs, date, searchTime)
  {
    html := AppendEntries(PageTop(t, date, searchTime, |jobs|), jobs, |jobs|, 0, BlockEntry());
    assert jobs[..|jobs|] == jobs;
    html := html + t.tail;
  }

  /** The report's page: `RenderPage` around the text of `create_html_report`, dated by two clock readings. */
  method RenderReport(jobs: seq<JobDict>, titleClock: Clock, searchClock: Clock) returns (html: string)
    ensures html == ReportText(jobs, titleClock, searchClock)
  {
    html := RenderPage(Html, jobs, DateText(titleClock), MinuteText(searchClock));
  }

  /**
   * `create_html_report`: the page it writes and the path it returns. The
   * three clock readings are the three calls of `datetime.now()`.
   */
  method CreateHtmlReport(storageDir: string, jobs: seq<JobDict>, titleClock: Clock, searchClock: Clock, fileClock: Clock)
    returns (html: string, path: string)
    ensures html == ReportText(jobs, titleClock, searchClock)
    ensures path == ReportPath(storageDir, fileClock)
  {
    html := RenderReport(jobs, titleClock, searchClock);
    path := ReportPath(storageDir, fileClock);
  }

  // ---------------------------------------------------------------- properties of the page

  /** Every job has its block on a page, after the summary. */
  lemma PageListsJob(t: PageText, jobs: seq<JobDict>, date: string, searchTime: string, k: nat)
    requires k < |jobs|
    ensures Contains(Page(t, jobs, date, searchTime), JobBlock(jobs[k]))
  {
    ListedContains(jobs, 0, BlockEntry(), k);
    ContainsInside(PageTop(t, date, searchTime, |jobs|), Listed(jobs, 0, BlockEntry()), t.tail, JobBlock(jobs[k]));
  }

  /** Every job has its block on the report. */
  lemma ReportListsJob(jobs: seq<JobDict>, k: nat, titleClock: Clock, searchClock: Clock)
    requires k < |jobs|
    ensures Contains(ReportText(jobs, titleClock, searchClock), JobBlock(jobs[k]))
  {
    PageListsJob(Html, jobs, DateText(titleClock), MinuteText(searchClock), k);
  }

  /** Nothing before the total holds an 'F' when neither the dates nor the fixed text before it does. */
  lemma PageHeadNoF(t: PageText, date: string, searchTime: string)
    requires NoChar(t.opening, 'F') && NoChar(t.style, 'F') && NoChar(t.summaryOpen, 'F')
    requires NoChar(date, 'F') && NoChar(searchTime, 'F')
    ensures NoChar(PageHead(t, date, searchTime), 'F')
  {
    NoCharConcat(t.opening, date, 'F');
    NoCharConcat(t.opening + date, t.style, 'F');
    NoCharConcat(t.opening + date + t.style, searchTime, 'F');
    NoCharConcat(t.opening + date + t.style + searchTime, t.summaryOpen, 'F');
  }

  /** The fixed text of the report has no 'F' before the total. */
  lemma HtmlNoF()
    ensures NoChar(Html.opening, 'F') && NoChar(Html.style, 'F') && NoChar(Html.summaryOpen, 'F')
  {
    OpeningNoF();
    StyleNoF();
    assert NoChar(SummaryOpen, 'F');
  }

  /** A page around its total. */
  lemma PageAroundTotal(t: PageText, jobs: seq<JobDict>, date: string, searchTime: string)
    ensures Page(t, jobs, date, searchTime)
      == PageHead(t, date, searchTime) + t.totalLabel + NatToString(|jobs|)
         + (t.summaryClose + (Listed(jobs, 0, BlockEntry()) + t.tail))
  {
    Regroup(PageHead(t, date, searchTime), t.totalLabel, NatToString(|jobs|), t.summaryClose,
      Listed(jobs, 0, BlockEntry()), t.tail);
  }

  lemma Regroup(a: string, b: string, c: string, d: string, e: string, f: string)
    ensures a + b + c + d + e + f == a + b + c + (d + (e + f))
  {
  }

  /** The total is followed by a tag. */
  lemma SummaryCloseStart()
    ensures SummaryClose != [] && SummaryClose[0] == '<'
  {
    assert TotalEnd[0] == '<';
  }
}
