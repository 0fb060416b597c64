/**
 * The filters and the de-duplication of the first search pipeline
 * (`JobSearcher` in job_search.py). Jobs are the scrapers' records; a field
 * read with `job.get(key, '')` is the empty string when it is missing.
 */
module JobSearch {
  import opened Wrappers
  import opened Text
  import opened Seqs
  import opened Patterns
  import opened Jobs

  // ---------------------------------------------------------------- salary

  /**
   * `_extract_salary_lpa`: the first number of the leftmost "… lpa" amount,
   * else of the leftmost "… lakh/lac/l" amount, else the leftmost yearly
   * rupee amount in lakhs, else 0.
   */
  function ExtractSalaryLpa(text: string): (lpa: real)
    ensures lpa >= 0.0
  {
    var s := Lower(text);
    match FirstMatch(s, LpaMatcher(s), 0)
    case Some(q) => AmountValueNonNegative(s, q, Plain); AmountValue(s, q, Plain)
    case None =>
      match FirstMatch(s, LakhMatcher(s), 0)
      case Some(q) => AmountValueNonNegative(s, q, Plain); AmountValue(s, q, Plain)
      case None =>
        match FirstMatch(s, AnnualMatcher(s), 0)
        case Some(q) => AmountValueNonNegative(s, q, Grouped); AmountValue(s, q, Grouped) / 100000.0
        case None => 0.0
  }

  lemma AmountValueNonNegative(s: string, q: nat, shape: NumberShape)
    requires q <= |s|
    ensures AmountValue(s, q, shape) >= 0.0
  {
  }

  /** The rule of `filter_by_salary` for one job. */
  predicate MeetsSalary(job: Job, minLpa: int)
  {
    var text := Lower(job.salary.GetOr(""));
    Contains(text, "not disclosed") || Contains(text, "check") || ExtractSalaryLpa(text) >= minLpa as real
  }

  function SalaryRule(minLpa: int): Job -> bool
  {
    job => MeetsSalary(job, minLpa)
  }

  /** `filter_by_salary`: the loop appends each job that meets the rule. */
  method FilterBySalary(jobs: seq<Job>, minLpa: int) returns (filtered: seq<Job>)
    ensures filtered == Filter(jobs, SalaryRule(minLpa))
    ensures forall job :: job in filtered <==> job in jobs && MeetsSalary(job, minLpa)
  {
    filtered := FilterLoop(jobs, SalaryRule(minLpa));
    FilterMembers(jobs, SalaryRule(minLpa));
  }

  /** A salary text with no digit extracts 0, so it passes only a minimum of at most 0 or by its wording. */
  lemma NoDigitExtractsZero(text: string)
    requires forall k :: 0 <= k < |text| ==> !IsDigit(text[k])
    ensures ExtractSalaryLpa(text) == 0.0
  {
    var s := Lower(text);
    assert forall k :: 0 <= k < |s| ==> !IsDigit(s[k]);
    forall q: nat
      ensures !LpaAt(s, q) && !LakhAt(s, q) && !AnnualAt(s, q)
    {
      NoDigitNoMatch(s, q);
    }
    FirstMatchNone(s, LpaMatcher(s), 0);
    FirstMatchNone(s, LakhMatcher(s), 0);
    FirstMatchNone(s, AnnualMatcher(s), 0);
  }

  /** "not disclosed" and "check" keep a job whatever the minimum. */
  lemma UndisclosedAlwaysKept(job: Job, minLpa: int)
    requires Contains(Lower(job.salary.GetOr("")), "not disclosed") || Contains(Lower(job.salary.GetOr("")), "check")
    ensures MeetsSalary(job, minLpa)
  {
  }

  /** Any other job is kept exactly when its extracted salary reaches the minimum. */
  lemma DisclosedKeptIffEnough(job: Job, minLpa: int)
    requires !Contains(Lower(job.salary.GetOr("")), "not disclosed") && !Contains(Lower(job.salary.GetOr("")), "check")
    ensures MeetsSalary(job, minLpa) <==> ExtractSalaryLpa(Lower(job.salary.GetOr(""))) >= minLpa as real
  {
  }

  predicate DigitString(a: string)
  {
    a != [] && AllDigits(a)
  }

  /** The lpa pattern matches "a-b lpa" at its start, and its group is `a`. */
  lemma LpaRangeMatch(a: string, b: string)
    requires DigitString(a) && DigitString(b)
    ensures var s := a + "-" + b + " lpa"; LpaAt(s, 0) && Amount(s, 0, Plain) == a
  {
    var s := a + "-" + b + " lpa";
    var m := |a| + 1 + |b|;
    LowerEndOfRange(a, b);
    UpperEndOfRange(a, b);
    assert SpacesEnd(s, m + 1) == m + 1;
    assert AmountEnd(s, 0, Plain) == m + 1;
    assert s[m + 1..] == "lpa";
  }

  /** In "a-b lpa" the first number is `a`, with no space after it. */
  lemma LowerEndOfRange(a: string, b: string)
    requires DigitString(a) && DigitString(b)
    ensures var s := a + "-" + b + " lpa"; NumberEnd(s, 0, Plain) == |a| && SpacesEnd(s, |a|) == |a| && s[..|a|] == a
  {
    var s := a + "-" + b + " lpa";
    var n := |a|;
    assert s == a + ("-" + b + " lpa");
    PrefixOfConcat(a, "-" + b + " lpa");
    assert s[n] == '-';
    DigitsRun(s, 0, n);
  }

  /** In "a-b lpa" the range "-b" ends before the space. */
  lemma UpperEndOfRange(a: string, b: string)
    requires DigitString(a) && DigitString(b)
    ensures var s := a + "-" + b + " lpa"; RangeEnd(s, |a|, Plain) == |a| + 1 + |b| && SpacesEnd(s, |a| + 1 + |b|) == |a| + 2 + |b|
  {
    LpaWordStart();
    EndsWithDash(a);
    RangeBeforeSpace(a + "-", b, " lpa");
  }

  /** " lpa" is a space followed by a letter. */
  lemma LpaWordStart()
    ensures |" lpa"| >= 2 && " lpa"[0] == ' ' && IsLower(" lpa"[1])
  {
  }

  /** `a + "-"` ends with its dash. */
  lemma EndsWithDash(a: string)
    ensures |a + "-"| == |a| + 1 && (a + "-")[|a|] == '-'
  {
  }

  /**
   * A dash, a run of digits `b`, a space and a letter: the range starting at
   * the dash ends at the space, and the space is a single one.
   */
  lemma RangeBeforeSpace(x: string, b: string, t: string)
    requires x != [] && x[|x| - 1] == '-' && DigitString(b)
    requires |t| >= 2 && t[0] == ' ' && IsLower(t[1])
    ensures var s := x + b + t; RangeEnd(s, |x| - 1, Plain) == |x| + |b| && SpacesEnd(s, |x| + |b|) == |x| + |b| + 1
  {
    var s := x + b + t;
    InfixSlice(x, b, t);
    AroundInfix(x, b, t);
    DashDigits(s, |x|, |x| + |b|);
    OneSpace(s, |x| + |b|);
  }

  /** A dash at `n - 1` and the digits `s[n..m]` up to a space at `m`: the range ends at `m`. */
  lemma DashDigits(s: string, n: nat, m: nat)
    requires 0 < n < m < |s| && s[n - 1] == '-' && s[m] == ' ' && DigitString(s[n..m])
    ensures RangeEnd(s, n - 1, Plain) == m
  {
    assert forall k :: n <= k < m ==> IsDigit(s[k]) by {
      forall k | n <= k < m
        ensures IsDigit(s[k])
      {
        assert s[n..m][k - n] == s[k];
      }
    }
    assert IsDigit(s[n]);
    assert SpacesEnd(s, n) == n;
    DigitsRun(s, n, m);
    assert NumberEnd(s, n, Plain) == m;
  }

  /** A space followed by a letter is a white-space run of length one. */
  lemma OneSpace(s: string, m: nat)
    requires m + 1 < |s| && s[m] == ' ' && IsLower(s[m + 1])
    ensures SpacesEnd(s, m) == m + 1
  {
    assert SpacesEnd(s, m + 1) == m + 1;
  }

  /** The lpa pattern reads the lower end of a range: "12-15 lpa" gives 12. */
  lemma LpaRangeGivesLowerEnd(a: string, b: string)
    requires DigitString(a) && DigitString(b)
    ensures ExtractSalaryLpa(a + "-" + b + " lpa") == ParseNat(a) as real
  {
    RangeWordsLower();
    NoUpperJoin(a, "-");
    NoUpperJoin(a + "-", b);
    NoUpperJoin(a + "-" + b, " lpa");
    LpaRangeMatch(a, b);
    LpaAtStartGives(a + "-" + b + " lpa", a);
  }

  /** The words around the numbers of "a-b lpa" hold no upper-case letter. */
  lemma RangeWordsLower()
    ensures forall i :: 0 <= i < |"-"| ==> !IsUpper("-"[i])
    ensures forall i :: 0 <= i < |" lpa"| ==> !IsUpper(" lpa"[i])
  {
  }

  /** A lower-case text whose lpa pattern matches at its start gives the amount there. */
  lemma LpaAtStartGives(s: string, a: string)
    requires forall i :: 0 <= i < |s| ==> !IsUpper(s[i])
    requires s != [] && LpaAt(s, 0) && Amount(s, 0, Plain) == a && AllDigits(a)
    ensures ExtractSalaryLpa(s) == ParseNat(a) as real
  {
    LowerIdentity(s);
    FirstMatchAt(s, LpaMatcher(s), 0, 0);
    LpaFirst(s, 0);
    RemoveCharAbsent(a, ',');
    WholeNumeralValue(a);
  }

  /** A run of digits from `i` to `j`, followed by a non-digit, ends at `j`. */
  lemma {:induction false} DigitsRun(s: string, i: nat, j: nat)
    requires i <= j < |s| && !IsDigit(s[j])
    requires forall k :: i <= k < j ==> IsDigit(s[k])
    ensures DigitsEnd(s, i) == j
    decreases j - i
  {
    if i < j {
      DigitsRun(s, i + 1, j);
    }
  }

  /** In "₹a,b per year" the grouped number starting at 1 ends before the space. */
  lemma RupeeNumberEnd(a: string, b: string)
    requires DigitString(a) && DigitString(b)
    ensures var s := [Rupee] + a + "," + b + " per year";
      NumberEnd(s, 1, Grouped) == 2 + |a| + |b| && s[1..2 + |a| + |b|] == a + [','] + b
  {
    var s := [Rupee] + a + "," + b + " per year";
    var n := 1 + |a|;
    assert s[1..n] == a && s[n] == ',';
    DigitsRun(s, 1, n);
    var m := n + 1 + |b|;
    assert s[n + 1..m] == b && s[m] == ' ';
    DigitsRun(s, n + 1, m);
    assert GroupsEnd(s, m) == m;
    assert GroupsEnd(s, n) == m;
    assert FractionEnd(s, m) == m;
    assert s[1..m] == a + [','] + b;
  }

  /** After the number of "₹a,b per year" come " per " and "year". */
  lemma PerYearSuffix(s: string, m: nat)
    requires m + 9 == |s| && s[m..] == " per year"
    ensures SpacesEnd(s, m) == m + 1
    ensures RangeEnd(s, m + 1, Grouped) == m + 1
    ensures PerEnd(s, m + 1) == m + 5
    ensures ContainsAt(s, "year", m + 5)
  {
    assert s[m] == ' ' && s[m + 1] == 'p' && s[m + 4] == ' ' && s[m + 5] == 'y';
    assert SpacesEnd(s, m + 1) == m + 1;
    assert s[m + 1..m + 4] == "per";
    assert SpacesEnd(s, m + 5) == m + 5;
    assert s[m + 5..m + 9] == "year";
  }

  /** The rupee pattern matches "₹a,b per year" with its number at 1, and its group is `a,b`. */
  lemma RupeesPerYearMatch(a: string, b: string)
    requires DigitString(a) && DigitString(b)
    ensures var s := [Rupee] + a + "," + b + " per year";
      AnnualAt(s, 1) && Amount(s, 1, Grouped) == a + [','] + b
  {
    var s := [Rupee] + a + "," + b + " per year";
    RupeeNumberEnd(a, b);
    var m := 2 + |a| + |b|;
    assert s[m..] == " per year";
    PerYearSuffix(s, m);
    assert AmountEnd(s, 1, Grouped) == m + 1;
  }

  /** A rupee sign is not a digit, so a yearly amount right after it is the leftmost one. */
  lemma AfterRupeeSign(s: string)
    requires |s| > 1 && s[0] == Rupee && AnnualAt(s, 1)
    ensures FirstMatch(s, AnnualMatcher(s), 0) == Some(1)
  {
    AnnualSearchFinds(s, 1);
  }

  /** Removing the commas of "a,b" leaves the digits of `a + b`. */
  lemma RemoveGroupComma(a: string, b: string)
    requires DigitString(a) && DigitString(b)
    ensures RemoveChar(a + [','] + b, ',') == a + b
  {
    assert RemoveChar(a + [','], ',') == a by {
      RemoveCharConcat(a, [','], ',');
      RemoveCharAbsent(a, ',');
      RemoveCharSingle(',');
    }
    RemoveCharConcat(a + [','], b, ',');
    RemoveCharAbsent(b, ',');
  }

  /** A text without `l` matches neither the lpa nor the lakh pattern anywhere. */
  lemma NoLakhSearch(s: string)
    requires NoChar(s, 'l')
    ensures FirstMatch(s, LpaMatcher(s), 0) == None && FirstMatch(s, LakhMatcher(s), 0) == None
  {
    forall q: nat
      ensures !LpaAt(s, q) && !LakhAt(s, q)
    {
      NoLetterLNoLakh(s, q);
    }
    FirstMatchNone(s, LpaMatcher(s), 0);
    FirstMatchNone(s, LakhMatcher(s), 0);
  }

  /** When only the yearly pattern matches, its amount in lakhs is the result. */
  lemma AnnualOnly(s: string, q: nat)
    requires Lower(s) == s
    requires FirstMatch(s, LpaMatcher(s), 0) == None && FirstMatch(s, LakhMatcher(s), 0) == None
    requires FirstMatch(s, AnnualMatcher(s), 0) == Some(q)
    ensures ExtractSalaryLpa(s) == AmountValue(s, q, Grouped) / 100000.0
  {
  }

  /** The salary text is lower-cased first, so its case never matters. */
  lemma LowerInvariant(text: string)
    ensures ExtractSalaryLpa(text) == ExtractSalaryLpa(Lower(text))
  {
    LowerIdempotent(text);
  }

  /** With no lpa or lakh match, the leftmost yearly amount decides, in any case: "₹4,50,000 PER YEAR" too. */
  lemma AnnualOnlyAnyCase(text: string, q: nat)
    requires var s := Lower(text); FirstMatch(s, LpaMatcher(s), 0) == None && FirstMatch(s, LakhMatcher(s), 0) == None
    requires var s := Lower(text); FirstMatch(s, AnnualMatcher(s), 0) == Some(q)
    ensures ExtractSalaryLpa(text) == AmountValue(Lower(text), q, Grouped) / 100000.0
  {
    LowerInvariant(text);
    LowerIdempotent(text);
    AnnualOnly(Lower(text), q);
  }

  /** Any case of the unit: "12-15 LPA" gives 12 as "12-15 lpa" does. */
  lemma LpaRangeAnyCase(a: string, b: string, unit: string)
    requires DigitString(a) && DigitString(b) && Lower(unit) == " lpa"
    ensures ExtractSalaryLpa(a + "-" + b + unit) == ParseNat(a) as real
  {
    var x := a + "-" + b;
    LowerIdentity(a + "-");
    LowerIdentity(b);
    LowerConcat(a + "-", b);
    LowerConcat(x, unit);
    LowerInvariant(x + unit);
    LpaRangeGivesLowerEnd(a, b);
  }

  /** "12-15 LPA" in upper case: the unit's case does not matter. */
  lemma UpperLpaRange(a: string, b: string)
    requires DigitString(a) && DigitString(b)
    ensures ExtractSalaryLpa(a + "-" + b + " LPA") == ParseNat(a) as real
  {
    UpperLpaWord();
    LpaRangeAnyCase(a, b, " LPA");
  }

  /** " LPA" lower-cases to " lpa". */
  lemma UpperLpaWord()
    ensures Lower(" LPA") == " lpa"
  {
    assert Lower(" LPA")[1] == 'l' && Lower(" LPA")[2] == 'p' && Lower(" LPA")[3] == 'a';
  }

  /** With no `l` in the text, a yearly rupee amount is read: "₹4,50,000 per year" gives 4.5. */
  lemma RupeesPerYearInLakhs(a: string, b: string)
    requires DigitString(a) && DigitString(b)
    ensures ExtractSalaryLpa([Rupee] + a + "," + b + " per year") == ParseNat(a + b) as real / 100000.0
  {
    RupeesPerYearRead(a, b);
    RupeesPerYearValue(a, b);
  }

  /** The yearly pattern is the one read from "₹a,b per year". */
  lemma RupeesPerYearRead(a: string, b: string)
    requires DigitString(a) && DigitString(b)
    ensures var s := [Rupee] + a + "," + b + " per year";
      ExtractSalaryLpa(s) == AmountValue(s, 1, Grouped) / 100000.0
  {
    var s := [Rupee] + a + "," + b + " per year";
    LowerIdentity(s);
    assert NoChar(s, 'l');
    NoLakhSearch(s);
    RupeesPerYearMatch(a, b);
    AfterRupeeSign(s);
    AnnualOnly(s, 1);
  }

  /** The amount of "₹a,b per year" is the number `a + b`. */
  lemma RupeesPerYearValue(a: string, b: string)
    requires DigitString(a) && DigitString(b)
    ensures var s := [Rupee] + a + "," + b + " per year";
      AmountValue(s, 1, Grouped) == ParseNat(a + b) as real
  {
    var s := [Rupee] + a + "," + b + " per year";
    RupeesPerYearMatch(a, b);
    RemoveGroupComma(a, b);
    WholeAmountValue(s, 1, Grouped, a + b);
  }

  /** The lpa pattern is tried first: its leftmost match decides, whatever else the text says. */
  lemma LpaFirst(text: string, q: nat)
    requires var s := Lower(text); FirstMatch(s, LpaMatcher(s), 0) == Some(q)
    ensures q < |text| && ExtractSalaryLpa(text) == AmountValue(Lower(text), q, Plain)
  {
    var s := Lower(text);
    FirstMatchLeftmost(s, LpaMatcher(s), 0);
  }

  /** Without an lpa amount, the leftmost lakh/lac/l amount decides, whatever yearly amount there is. */
  lemma LakhOnly(text: string, q: nat)
    requires var s := Lower(text); FirstMatch(s, LpaMatcher(s), 0) == None && FirstMatch(s, LakhMatcher(s), 0) == Some(q)
    ensures q < |text| && ExtractSalaryLpa(text) == AmountValue(Lower(text), q, Plain)
  {
    var s := Lower(text);
    FirstMatchLeftmost(s, LakhMatcher(s), 0);
  }

  /** A text in which none of the three patterns matches extracts 0. */
  lemma NoPatternExtractsZero(text: string)
    requires var s := Lower(text); forall q :: 0 <= q < |s| ==> !LpaAt(s, q) && !LakhAt(s, q) && !AnnualAt(s, q)
    ensures ExtractSalaryLpa(text) == 0.0
  {
    var s := Lower(text);
    FirstMatchNone(s, LpaMatcher(s), 0);
    FirstMatchNone(s, LakhMatcher(s), 0);
    FirstMatchNone(s, AnnualMatcher(s), 0);
  }

  /** A lower-case text that holds "lpa" nowhere has no lpa match. */
  lemma NoLpaText(s: string)
    requires forall e :: 0 <= e < |s| ==> !ContainsAt(s, "lpa", e)
    ensures FirstMatch(s, LpaMatcher(s), 0) == None
  {
    forall q | 0 <= q < |s|
      ensures !LpaAt(s, q)
    {
      if DigitAt(s, q) {
        var e := AmountEnd(s, q, Plain);
        assert e < |s| ==> !ContainsAt(s, "lpa", e);
      }
    }
    FirstMatchNone(s, LpaMatcher(s), 0);
  }

  /** In "a lakh…" or "a lac…" the amount `a` ends before the unit, where the lakh pattern's `l` is. */
  lemma LakhUnitMatch(a: string, unit: string, rest: string)
    requires DigitString(a) && (unit == " lakh" || unit == " lac")
    ensures var s := a + unit + rest; LakhAt(s, 0) && Amount(s, 0, Plain) == a
  {
    var s := a + unit + rest;
    var n := |a|;
    assert s[..n] == a;
    assert s[n] == ' ' && s[n + 1] == 'l';
    DigitsRun(s, 0, n);
    assert NumberEnd(s, 0, Plain) == n;
    assert SpacesEnd(s, n + 1) == n + 1;
    assert SpacesEnd(s, n) == n + 1;
    assert RangeEnd(s, n + 1, Plain) == n + 1;
    assert AmountEnd(s, 0, Plain) == n + 1;
    assert s[n + 1..n + 2] == "l";
  }

  /** "a lakh…" and "a lac…" hold "lpa" nowhere when the rest holds no `l`. */
  lemma LakhUnitNoLpa(a: string, unit: string, rest: string)
    requires DigitString(a) && (unit == " lakh" || unit == " lac") && NoChar(rest, 'l')
    ensures var s := a + unit + rest; forall e :: 0 <= e < |s| ==> !ContainsAt(s, "lpa", e)
  {
    var s := a + unit + rest;
    var n := |a|;
    forall e | 0 <= e < |s|
      ensures !ContainsAt(s, "lpa", e)
    {
      if e < n {
        assert s[e] == a[e];
      } else if e < n + |unit| {
        assert s[e] == unit[e - n];
      } else {
        assert s[e] == rest[e - n - |unit|];
      }
      if e + 3 <= |s| {
        assert s[e..e + 3][0] == s[e];
        if e == n + 1 {
          assert s[e..e + 3][1] == s[n + 2] == 'a';
        }
      }
    }
  }

  /**
   * The lakh pattern comes before the yearly one: "a lakh" and "a lac" give
   * `a`, whatever follows without an `l`, in particular a yearly rupee amount.
   */
  lemma LakhUnitGivesAmount(a: string, unit: string, rest: string)
    requires DigitString(a) && (unit == " lakh" || unit == " lac") && NoChar(rest, 'l')
    requires forall i :: 0 <= i < |rest| ==> !IsUpper(rest[i])
    ensures ExtractSalaryLpa(a + unit + rest) == ParseNat(a) as real
  {
    var s := a + unit + rest;
    assert forall i :: 0 <= i < |s| ==> !IsUpper(s[i]) by {
      forall i | 0 <= i < |s|
        ensures !IsUpper(s[i])
      {
        if i < |a| {
          assert s[i] == a[i];
        } else if i < |a| + |unit| {
          assert s[i] == unit[i - |a|];
        } else {
          assert s[i] == rest[i - |a| - |unit|];
        }
      }
    }
    LowerIdentity(s);
    LakhUnitNoLpa(a, unit, rest);
    NoLpaText(s);
    LakhUnitMatch(a, unit, rest);
    FirstMatchAt(s, LakhMatcher(s), 0, 0);
    LakhOnly(s, 0);
    RemoveCharAbsent(a, ',');
    WholeNumeralValue(a);
  }

  /** "5 lakh" gives 5. */
  lemma LakhGivesAmount(a: string)
    requires DigitString(a)
    ensures ExtractSalaryLpa(a + " lakh") == ParseNat(a) as real
  {
    LakhUnitGivesAmount(a, " lakh", "");
    assert a + " lakh" + "" == a + " lakh";
  }

  /** "a lac or ₹b,c per year" gives `a`, though "₹b,c per year" alone gives (b c) / 100000. */
  lemma LakhBeatsYearly(a: string, b: string, c: string)
    requires DigitString(a) && DigitString(b) && DigitString(c)
    ensures var yearly := [Rupee] + b + "," + c + " per year";
      ExtractSalaryLpa(a + " lac" + " or " + yearly) == ParseNat(a) as real
      && ExtractSalaryLpa(yearly) == ParseNat(b + c) as real / 100000.0
  {
    var yearly := [Rupee] + b + "," + c + " per year";
    YearlyRestPlain(b, c);
    LakhUnitGivesAmount(a, " lac", " or " + yearly);
    Associative(a + " lac", " or ", yearly);
    RupeesPerYearInLakhs(b, c);
  }

  lemma Associative(x: string, y: string, z: string)
    ensures x + y + z == x + (y + z)
  {
  }

  /** " or ₹b,c per year" holds no `l` and no upper-case letter. */
  lemma YearlyRestPlain(b: string, c: string)
    requires DigitString(b) && DigitString(c)
    ensures var rest := " or " + ([Rupee] + b + "," + c + " per year");
      NoChar(rest, 'l') && forall i :: 0 <= i < |rest| ==> !IsUpper(rest[i])
  {
    var rest := " or " + ([Rupee] + b + "," + c + " per year");
    forall i | 0 <= i < |rest|
      ensures rest[i] != 'l' && !IsUpper(rest[i])
    {
      var n := 5 + |b|;
      if i < 5 {
        assert rest[i] == (" or " + [Rupee])[i];
      } else if i < n {
        assert rest[i] == b[i - 5];
      } else if i == n {
        assert rest[i] == ',';
      } else if i < n + 1 + |c| {
        assert rest[i] == c[i - n - 1];
      } else {
        assert rest[i] == " per year"[i - n - 1 - |c|];
      }
    }
  }

  /** A number whose digits, without commas, are `t` has the value of `t`. */
  lemma WholeAmountValue(s: string, q: nat, shape: NumberShape, t: string)
    requires q <= |s| && RemoveChar(Amount(s, q, shape), ',') == t && AllDigits(t)
    ensures AmountValue(s, q, shape) == ParseNat(t) as real
  {
    WholeNumeralValue(t);
  }

  // ---------------------------------------------------------------- entry level

  const EntryKeywords: seq<string> :=
    ["entry", "fresher", "junior", "0-1", "0-2", "graduate", "beginner", "trainee", "associate", "coordinator", "executive"]

  const SeniorKeywords: seq<string> :=
    ["senior", "lead", "manager", "head", "director", "principal", "expert", "specialist", "5+", "7+", "10+", "years"]

  /** `any(keyword in text for keyword in keywords)` */
  predicate AnyIn(keywords: seq<string>, text: string)
  {
    exists k :: k in keywords && Contains(text, k)
  }

  /** `re.search(r'0\s*-\s*[123]', text)` succeeds. */
  predicate ZeroToFew(text: string)
  {
    exists q :: 0 <= q < |text| && ZeroToFewAt(text, q)
  }

  /** The rule of `filter_entry_level` for one job. */
  predicate IsEntryLevel(job: Job)
  {
    var title := Lower(job.title);
    var experience := Lower(job.experience.GetOr(""));
    !AnyIn(SeniorKeywords, title)
    && (AnyIn(EntryKeywords, experience) || AnyIn(EntryKeywords, title)
        || ZeroToFew(experience)
        || Contains(experience, "check") || Contains(experience, "not specified"))
  }

  function EntryLevelRule(): Job -> bool
  {
    job => IsEntryLevel(job)
  }

  /** `filter_entry_level` */
  method FilterEntryLevel(jobs: seq<Job>) returns (filtered: seq<Job>)
    ensures filtered == Filter(jobs, EntryLevelRule())
    ensures forall job :: job in filtered <==> job in jobs && IsEntryLevel(job)
  {
    filtered := [];
    for i := 0 to |jobs|
      invariant filtered == Filter(jobs[..i], EntryLevelRule())
    {
      FilterSnoc(jobs[..i], jobs[i], EntryLevelRule());
      assert jobs[..i + 1] == jobs[..i] + [jobs[i]];
      var title := Lower(jobs[i].title);
      var experience := Lower(jobs[i].experience.GetOr(""));
      if AnyIn(SeniorKeywords, title) {
        continue;
      }
      if AnyIn(EntryKeywords, experience) || AnyIn(EntryKeywords, title) {
        filtered := filtered + [jobs[i]];
      } else if ZeroToFew(experience) {
        filtered := filtered + [jobs[i]];
      } else if Contains(experience, "check") || Contains(experience, "not specified") {
        filtered := filtered + [jobs[i]];
      }
    }
    assert jobs[..|jobs|] == jobs;
    FilterMembers(jobs, EntryLevelRule());
  }

  /** A senior keyword in the title excludes the job even when entry keywords are present too. */
  lemma SeniorTitleExcluded(job: Job, keyword: string)
    requires keyword in SeniorKeywords && Contains(Lower(job.title), keyword)
    ensures !IsEntryLevel(job)
  {
  }

  /** "years" is a senior keyword: "0-1 years" in a title excludes the job. */
  lemma YearsInTitleExcluded(job: Job, a: string, b: string)
    requires Lower(job.title) == a + "years" + b
    ensures !IsEntryLevel(job)
  {
    assert Contains("years", "years") by { assert ContainsAt("years", "years", 0); }
    ContainsInside(a, "years", b, "years");
    assert "years" in SeniorKeywords;
  }

  /** A spaced range such as "0 - 3 years" admits a job whose title has no senior keyword. */
  lemma SpacedZeroRangeAdmitted(job: Job, a: string, b: string)
    requires Lower(job.experience.GetOr("")) == a + "0 - 3" + b
    requires !AnyIn(SeniorKeywords, Lower(job.title))
    ensures IsEntryLevel(job)
  {
    var e := Lower(job.experience.GetOr(""));
    var n := |a|;
    assert e[n] == '0' && e[n + 1] == ' ' && e[n + 2] == '-' && e[n + 3] == ' ' && e[n + 4] == '3';
    assert SpacesEnd(e, n + 1) == n + 2 by { assert SpacesEnd(e, n + 2) == n + 2; }
    assert SpacesEnd(e, n + 3) == n + 4 by { assert SpacesEnd(e, n + 4) == n + 4; }
    assert ZeroToFewAt(e, n);
  }

  // ---------------------------------------------------------------- location

  /** `[loc.lower().strip() for loc in preferred_locations]` */
  function NormalizedLocations(preferred: seq<string>): (r: seq<string>)
    ensures |r| == |preferred|
    ensures forall k :: 0 <= k < |r| ==> r[k] == Normalize(preferred[k])
  {
    seq(|preferred|, k requires 0 <= k < |preferred| => Normalize(preferred[k]))
  }

  /** The rule of `filter_by_location` for one job. */
  predicate InPreferredLocation(job: Job, preferred: seq<string>)
  {
    exists k :: 0 <= k < |preferred| && Contains(Lower(job.location.GetOr("")), Normalize(preferred[k]))
  }

  function LocationRule(preferred: seq<string>): Job -> bool
  {
    job => InPreferredLocation(job, preferred)
  }

  /** The inner loop of `filter_by_location`: it stops at the first preference contained in the location. */
  method AnyPreferenceIn(location: string, normalized: seq<string>) returns (found: bool)
    ensures found <==> exists k :: 0 <= k < |normalized| && Contains(location, normalized[k])
  {
    for j := 0 to |normalized|
      invariant forall k :: 0 <= k < j ==> !Contains(location, normalized[k])
    {
      if Contains(location, normalized[j]) {
        return true;
      }
    }
    return false;
  }

  /** `filter_by_location` */
  method FilterByLocation(jobs: seq<Job>, preferred: seq<string>) returns (filtered: seq<Job>)
    ensures filtered == Filter(jobs, LocationRule(preferred))
    ensures forall job :: job in filtered <==> job in jobs && InPreferredLocation(job, preferred)
  {
    var normalized := NormalizedLocations(preferred);
    filtered := [];
    for i := 0 to |jobs|
      invariant filtered == Filter(jobs[..i], LocationRule(preferred))
    {
      var job := jobs[i];
      FilterSnoc(jobs[..i], job, LocationRule(preferred));
      assert jobs[..i + 1] == jobs[..i] + [job];
      var jobLocation := Lower(job.location.GetOr(""));
      var found := AnyPreferenceIn(jobLocation, normalized);
      if found {
        filtered := filtered + [job];
      }
    }
    assert jobs[..|jobs|] == jobs;
    FilterMembers(jobs, LocationRule(preferred));
  }

  /** A preference that is blank after stripping matches every job. */
  lemma BlankPreferenceKeepsAll(job: Job, preferred: seq<string>, k: nat)
    requires k < |preferred| && Normalize(preferred[k]) == ""
    ensures InPreferredLocation(job, preferred)
  {
    ContainsEmpty(Lower(job.location.GetOr("")));
  }

  /** A job without a location matches only blank preferences. */
  lemma MissingLocationMatchesOnlyBlank(job: Job, preferred: seq<string>)
    requires job.location.None?
    ensures InPreferredLocation(job, preferred) <==> exists k :: 0 <= k < |preferred| && Normalize(preferred[k]) == ""
  {
    if InPreferredLocation(job, preferred) {
      var k :| 0 <= k < |preferred| && Contains(Lower(job.location.GetOr("")), Normalize(preferred[k]));
      assert Lower("") == "";
      assert |Normalize(preferred[k])| == 0;
    }
    if exists k :: 0 <= k < |preferred| && Normalize(preferred[k]) == "" {
      var k :| 0 <= k < |preferred| && Normalize(preferred[k]) == "";
      BlankPreferenceKeepsAll(job, preferred, k);
    }
  }

  // ---------------------------------------------------------------- de-duplication

  /** `'-'.join(sorted(set(text.split())))` */
  function WordSetKey(text: string): string
  {
    Join("-", SortedUnique(Words(text)))
  }

  /** The fuzzy key of a normalised (title, company) pair. */
  function FuzzyKey(title: string, company: string): string
  {
    WordSetKey(title) + "-" + WordSetKey(company)
  }

  /** The key `_deduplicate_jobs` compares; the location is not part of it. */
  function DedupKey(job: Job): string
  {
    FuzzyKey(Normalize(job.title), Normalize(job.company))
  }

  /** The two kinds of entry of `seen_combinations`: a key string and an exact (title, company) tuple. */
  datatype SeenKey = Fuzzy(key: string) | Exact(title: string, company: string)

  /** The exact key `(title, company)` of a job, both normalized. */
  function ExactKey(job: Job): SeenKey
  {
    Exact(Normalize(job.title), Normalize(job.company))
  }

  /** The keys a run of kept jobs has put into `seen_keys`. */
  function SeenOf(kept: seq<Job>, fuzzy: Job -> string, exact: Job -> SeenKey): (seen: set<SeenKey>)
    ensures |kept| == 0 ==> seen == {}
  {
    if kept == [] then {}
    else SeenOf(kept[..|kept| - 1], fuzzy, exact) + {Fuzzy(fuzzy(kept[|kept| - 1])), exact(kept[|kept| - 1])}
  }

  lemma SeenOfSnoc(kept: seq<Job>, job: Job, fuzzy: Job -> string, exact: Job -> SeenKey)
    ensures SeenOf(kept + [job], fuzzy, exact) == SeenOf(kept, fuzzy, exact) + {Fuzzy(fuzzy(job)), exact(job)}
  {
    assert (kept + [job])[..|kept|] == kept;
  }

  /** Both keys of every kept job are in `seen`. */
  lemma {:induction false} SeenOfKept(kept: seq<Job>, fuzzy: Job -> string, exact: Job -> SeenKey, job: Job)
    requires job in kept
    ensures Fuzzy(fuzzy(job)) in SeenOf(kept, fuzzy, exact)
    ensures exact(job) in SeenOf(kept, fuzzy, exact)
    decreases |kept|
  {
    var init := kept[..|kept| - 1];
    if job != kept[|kept| - 1] {
      assert kept == init + [kept[|kept| - 1]];
      assert job in init;
      SeenOfKept(init, fuzzy, exact, job);
    }
  }

  /**
   * A fuzzy key in `seen` came from a kept job, and so did an exact key,
   * provided exact keys are never fuzzy keys.
   */
  lemma {:induction false} SeenOfSource(kept: seq<Job>, fuzzy: Job -> string, exact: Job -> SeenKey, key: SeenKey)
    requires forall job :: exact(job).Exact?
    requires key in SeenOf(kept, fuzzy, exact)
    ensures key.Fuzzy? ==> exists job :: job in kept && fuzzy(job) == key.key
    ensures key.Exact? ==> exists job :: job in kept && exact(job) == key
    decreases |kept|
  {
    var init := kept[..|kept| - 1];
    var last := kept[|kept| - 1];
    assert last in kept;
    if key in SeenOf(init, fuzzy, exact) {
      SeenOfSource(init, fuzzy, exact, key);
      if key.Fuzzy? {
        var job :| job in init && fuzzy(job) == key.key;
        assert job in kept;
      } else {
        var job :| job in init && exact(job) == key;
        assert job in kept;
      }
    }
  }

  /**
   * One step of the loop of `_deduplicate_jobs`: the next job is kept exactly
   * when neither of its keys has been seen, and `seen` then gains both.
   */
  lemma DedupStep(jobs: seq<Job>, i: nat, fuzzy: Job -> string, exact: Job -> SeenKey,
                  unique: seq<Job>, seen: set<SeenKey>)
    requires forall job :: exact(job).Exact?
    requires forall a, b :: exact(a) == exact(b) ==> fuzzy(a) == fuzzy(b)
    requires i < |jobs|
    requires unique == KeepFirst(jobs[..i], fuzzy) && seen == SeenOf(unique, fuzzy, exact)
    ensures Fuzzy(fuzzy(jobs[i])) !in seen && exact(jobs[i]) !in seen ==>
      KeepFirst(jobs[..i + 1], fuzzy) == unique + [jobs[i]] &&
      SeenOf(unique + [jobs[i]], fuzzy, exact) == seen + {Fuzzy(fuzzy(jobs[i])), exact(jobs[i])}
    ensures Fuzzy(fuzzy(jobs[i])) in seen || exact(jobs[i]) in seen ==>
      KeepFirst(jobs[..i + 1], fuzzy) == unique
  {
    var job, key := jobs[i], fuzzy(jobs[i]);
    KeepFirstKeys(jobs[..i], fuzzy);
    KeepFirstStep(jobs, i, fuzzy, KeysOf(jobs[..i], fuzzy));
    if Fuzzy(key) !in seen && exact(job) !in seen {
      if key in KeysOf(jobs[..i], fuzzy) {
        assert key in KeysOf(unique, fuzzy);
        var other :| other in unique && fuzzy(other) == key;
        SeenOfKept(unique, fuzzy, exact, other);
        assert false;
      }
      SeenOfSnoc(unique, job, fuzzy, exact);
    } else {
      if Fuzzy(key) in seen {
        SeenOfSource(unique, fuzzy, exact, Fuzzy(key));
      } else {
        SeenOfSource(unique, fuzzy, exact, exact(job));
        var other :| other in unique && exact(other) == exact(job);
        assert fuzzy(other) == key;
      }
      var other :| other in unique && fuzzy(other) == key;
      assert key in KeysOf(unique, fuzzy);
    }
  }

  /**
   * The loop of `_deduplicate_jobs`, with the fuzzy and the exact key passed
   * in. Jobs with the same exact key have the same fuzzy key, so once the
   * fuzzy key is unseen so is the exact one, and the first job per fuzzy key
   * is kept. A job without a location stops the loop (`None`).
   */
  method DeduplicateWith(jobs: seq<Job>, fuzzy: Job -> string, exact: Job -> SeenKey) returns (r: Option<seq<Job>>)
    requires forall job :: exact(job).Exact?
    requires forall a, b :: exact(a) == exact(b) ==> fuzzy(a) == fuzzy(b)
    ensures r.None? <==> exists job :: job in jobs && job.location.None?
    ensures r.Some? ==> r.value == KeepFirst(jobs, fuzzy)
  {
    var unique: seq<Job> := [];
    var seen: set<SeenKey> := {};
    for i := 0 to |jobs|
      invariant unique == KeepFirst(jobs[..i], fuzzy)
      invariant seen == SeenOf(unique, fuzzy, exact)
      invariant !MissingLocation(jobs[..i])
    {
      var job := jobs[i];
      MissingLocationStep(jobs, i);
      if job.location.None? {
        assert job in jobs[..i + 1];
        return None;
      }
      var key := fuzzy(job);
      var exactKey := exact(job);
      DedupStep(jobs, i, fuzzy, exact, unique, seen);
      if Fuzzy(key) !in seen && exactKey !in seen {
        seen := seen + {Fuzzy(key), exactKey};
        unique := unique + [job];
      }
    }
    assert jobs[..|jobs|] == jobs;
    MissingLocationExists(jobs);
    return Some(unique);
  }

  /**
   * `_deduplicate_jobs`. `job['location']` raises when a job has no location,
   * which is modelled as `None`; otherwise the first job per fuzzy key is kept.
   */
  method DeduplicateJobs(jobs: seq<Job>) returns (r: Option<seq<Job>>)
    ensures r.None? <==> exists job :: job in jobs && job.location.None?
    ensures r.Some? ==> r.value == KeepFirst(jobs, DedupKey)
  {
    r := DeduplicateWith(jobs, DedupKey, ExactKey);
  }

  /** Some job of `s` has no location (the `job['location']` lookup fails on it). */
  predicate MissingLocation(s: seq<Job>)
  {
    s != [] && (MissingLocation(s[..|s| - 1]) || s[|s| - 1].location.None?)
  }

  lemma {:induction false} MissingLocationExists(s: seq<Job>)
    ensures MissingLocation(s) <==> exists job :: job in s && job.location.None?
    decreases |s|
  {
    if s != [] {
      var init := s[..|s| - 1];
      MissingLocationExists(init);
      assert s == init + [s[|s| - 1]];
    }
  }

  lemma MissingLocationStep(s: seq<Job>, i: nat)
    requires i < |s|
    ensures MissingLocation(s[..i + 1]) <==> MissingLocation(s[..i]) || s[i].location.None?
    ensures MissingLocation(s[..i + 1]) <==> exists job :: job in s[..i + 1] && job.location.None?
  {
    assert s[..i + 1][..i] == s[..i];
    MissingLocationExists(s[..i + 1]);
  }

  /** Titles and companies with the same words, in any order, case or repetition, have the same key. */
  lemma SameWordsSameKey(a: Job, b: Job)
    requires Elements(Words(Normalize(a.title))) == Elements(Words(Normalize(b.title)))
    requires Elements(Words(Normalize(a.company))) == Elements(Words(Normalize(b.company)))
    ensures DedupKey(a) == DedupKey(b)
  {
    SortedUniqueOfSameSet(Words(Normalize(a.title)), Words(Normalize(b.title)));
    SortedUniqueOfSameSet(Words(Normalize(a.company)), Words(Normalize(b.company)));
  }

  /** So the later of two such jobs is dropped, wherever they are located. */
  lemma ReorderedDuplicateDropped(a: Job, b: Job)
    requires Elements(Words(Normalize(a.title))) == Elements(Words(Normalize(b.title)))
    requires Elements(Words(Normalize(a.company))) == Elements(Words(Normalize(b.company)))
    ensures KeepFirst([a, b], DedupKey) == [a]
  {
    SameWordsSameKey(a, b);
    KeepFirstSnoc([a], b, DedupKey);
    KeepFirstSnoc([], a, DedupKey);
    assert [a, b] == [a] + [b];
    assert [a] == [] + [a];
    assert KeysOf([a], DedupKey) == {DedupKey(a)};
  }
}
