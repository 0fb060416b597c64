/**
 * Deterministic matchers for the regular expressions the filters use.
 *
 * Each pattern here has the shape `number, optional range, suffix`, and no
 * part of it that follows a greedy repetition can begin with a character that
 * repetition consumes (a digit after `\d+`, a space after `\s*`, `,` or `.`
 * after a number). So backtracking never finds a match the greedy reading
 * misses, and the greedy reading below decides, at each position, exactly
 * whether Python's `re` finds a match starting there; `re.search` and the
 * first element of `re.findall` are the leftmost such position.
 * `\s` is Python's white space (`IsSpace`); `\d` is read as the ASCII digits.
 */
module Patterns {
  import opened Wrappers
  import opened Text

  const Rupee: char := '\U{20B9}'

  /** End of the run of digits starting at `i`. */
  function DigitsEnd(s: string, i: nat): (j: nat)
    requires i <= |s|
    ensures i <= j <= |s|
    ensures forall k :: i <= k < j ==> IsDigit(s[k])
    ensures j == |s| || !IsDigit(s[j])
    decreases |s| - i
  {
    if i < |s| && IsDigit(s[i]) then DigitsEnd(s, i + 1) else i
  }

  /** End of the run of white space starting at `i` (`\s*`). */
  function SpacesEnd(s: string, i: nat): (j: nat)
    requires i <= |s|
    ensures i <= j <= |s|
    ensures forall k :: i <= k < j ==> IsSpace(s[k])
    ensures j == |s| || !IsSpace(s[j])
    decreases |s| - i
  {
    if i < |s| && IsSpace(s[i]) then SpacesEnd(s, i + 1) else i
  }

  predicate DigitAt(s: string, q: nat)
  {
    q < |s| && IsDigit(s[q])
  }

  /** The number syntaxes: `\d+`, `\d+(?:\.\d+)?` and `\d+(?:,\d+)*(?:\.\d+)?`. */
  datatype NumberShape = Whole | Plain | Grouped

  /** End of `(?:,\d+)*` starting at `j`. */
  function GroupsEnd(s: string, j: nat): (k: nat)
    requires j <= |s|
    ensures j <= k <= |s|
    decreases |s| - j
  {
    if j + 1 < |s| && s[j] == ',' && IsDigit(s[j + 1]) then GroupsEnd(s, DigitsEnd(s, j + 1)) else j
  }

  /** End of `(?:\.\d+)?` starting at `j`. */
  function FractionEnd(s: string, j: nat): (k: nat)
    requires j <= |s|
    ensures j <= k <= |s|
  {
    if j + 1 < |s| && s[j] == '.' && IsDigit(s[j + 1]) then DigitsEnd(s, j + 1) else j
  }

  function NumberEnd(s: string, i: nat, shape: NumberShape): (k: nat)
    requires i <= |s|
    ensures i <= k <= |s|
  {
    var j := DigitsEnd(s, i);
    match shape
    case Whole => j
    case Plain => FractionEnd(s, j)
    case Grouped => FractionEnd(s, GroupsEnd(s, j))
  }

  /** End of the optional range `(?:-\s*<number>)?` starting at `i`. */
  function RangeEnd(s: string, i: nat, shape: NumberShape): (k: nat)
    requires i <= |s|
    ensures i <= k <= |s|
  {
    if i < |s| && s[i] == '-' then
      var k := SpacesEnd(s, i + 1);
      if DigitAt(s, k) then NumberEnd(s, k, shape) else i
    else i
  }

  /** Where the suffix of `<number>\s*(?:-\s*<number>)?\s*` must start, for a number at `q`. */
  function AmountEnd(s: string, q: nat, shape: NumberShape): (e: nat)
    requires q <= |s|
    ensures q <= e <= |s|
  {
    SpacesEnd(s, RangeEnd(s, SpacesEnd(s, NumberEnd(s, q, shape)), shape))
  }

  /** The first capture group: the number starting at `q`. */
  function Amount(s: string, q: nat, shape: NumberShape): string
    requires q <= |s|
  {
    s[q..NumberEnd(s, q, shape)]
  }

  /** End of the optional `(?:per\s*)?` starting at `e`. */
  function PerEnd(s: string, e: nat): (f: nat)
    requires e <= |s|
    ensures e <= f <= |s|
  {
    if ContainsAt(s, "per", e) then SpacesEnd(s, e + 3) else e
  }

  // ---------------------------------------------------------------- the salary patterns

  /** `(\d+(?:\.\d+)?)\s*(?:-\s*\d+(?:\.\d+)?)?\s*lpa` matches at `q`. */
  predicate LpaAt(s: string, q: nat)
  {
    DigitAt(s, q) && ContainsAt(s, "lpa", AmountEnd(s, q, Plain))
  }

  /** `(\d+(?:\.\d+)?)\s*(?:-\s*\d+(?:\.\d+)?)?\s*(?:lakh|lac|l)` matches at `q`. */
  predicate LakhAt(s: string, q: nat)
  {
    DigitAt(s, q) && ContainsAt(s, "l", AmountEnd(s, q, Plain))
  }

  /** The same amount followed by `(?:lakh|lac)`. */
  predicate LakhOrLacAt(s: string, q: nat)
  {
    DigitAt(s, q)
    && (ContainsAt(s, "lakh", AmountEnd(s, q, Plain)) || ContainsAt(s, "lac", AmountEnd(s, q, Plain)))
  }

  /**
   * `₹?\s*(\d+(?:,\d+)*(?:\.\d+)?)\s*(?:-\s*\d+(?:,\d+)*(?:\.\d+)?)?\s*(?:per\s*)?(?:year|annual|p\.a\.)`
   * with its number at `q`. The optional `₹?\s*` prefix contains no digit, so
   * the leftmost match of the whole pattern has the leftmost such `q`.
   */
  predicate AnnualAt(s: string, q: nat)
  {
    DigitAt(s, q)
    && var f := PerEnd(s, AmountEnd(s, q, Grouped));
       ContainsAt(s, "year", f) || ContainsAt(s, "annual", f) || ContainsAt(s, "p.a.", f)
  }

  /** The number of a rupee amount whose `₹` is at `p`. */
  function RupeeNumberStart(s: string, p: nat): nat
    requires p < |s|
  {
    SpacesEnd(s, p + 1)
  }

  /**
   * `₹\s*(\d+(?:,\d+)*(?:\.\d+)?)\s*(?:-\s*\d+(?:,\d+)*(?:\.\d+)?)?\s*(?:per\s*)?(?:year|annual)`
   * matches at `p`.
   */
  predicate RupeeAnnualAt(s: string, p: nat)
  {
    p < |s| && s[p] == Rupee
    && var q := RupeeNumberStart(s, p);
       DigitAt(s, q)
       && var f := PerEnd(s, AmountEnd(s, q, Grouped));
          ContainsAt(s, "year", f) || ContainsAt(s, "annual", f)
  }

  // ---------------------------------------------------------------- the experience patterns

  /**
   * The end of a match of `(\d+)\s*(?:-\s*\d+)?\s*years?\s+(?:of\s+)?experience`
   * starting at `q`, if there is one.
   */
  function YearsMatchEnd(s: string, q: nat): (r: Option<nat>)
    requires q <= |s|
    ensures r.Some? ==> q < r.value <= |s|
  {
    var e := AmountEnd(s, q, Whole);
    if !DigitAt(s, q) || !ContainsAt(s, "year", e) then None
    else
      var f := if e + 4 < |s| && s[e + 4] == 's' then e + 5 else e + 4;
      var g := SpacesEnd(s, f);
      if g == f then None
      else
        var h := if ContainsAt(s, "of", g) && SpacesEnd(s, g + 2) > g + 2 then SpacesEnd(s, g + 2) else g;
        if ContainsAt(s, "experience", h) then Some(h + 10) else None
  }

  /** `0\s*-\s*[123]` matches at `q`. */
  predicate ZeroToFewAt(s: string, q: nat)
  {
    q < |s| && s[q] == '0'
    && var k := SpacesEnd(s, q + 1);
       k < |s| && s[k] == '-'
       && var m := SpacesEnd(s, k + 1);
          m < |s| && (s[m] == '1' || s[m] == '2' || s[m] == '3')
  }

  // ---------------------------------------------------------------- searching

  /** The leftmost position in `[i, |s|)` where `at` holds (`re.search` from `i`). */
  function FirstMatch(s: string, at: nat -> bool, i: nat): (r: Option<nat>)
    ensures r.Some? ==> i <= r.value < |s|
    decreases |s| - i
  {
    if i >= |s| then None else if at(i) then Some(i) else FirstMatch(s, at, i + 1)
  }

  /** The search finds the leftmost match, and finds none only when there is none. */
  lemma {:induction false} FirstMatchLeftmost(s: string, at: nat -> bool, i: nat)
    ensures var r := FirstMatch(s, at, i);
      && (r.Some? ==> at(r.value) && forall k :: i <= k < r.value ==> !at(k))
      && (r.None? ==> forall k :: i <= k < |s| ==> !at(k))
    decreases |s| - i
  {
    if i < |s| && !at(i) {
      FirstMatchLeftmost(s, at, i + 1);
    }
  }

  function LpaMatcher(s: string): nat -> bool { (q: nat) => LpaAt(s, q) }
  function LakhMatcher(s: string): nat -> bool { (q: nat) => LakhAt(s, q) }
  function AnnualMatcher(s: string): nat -> bool { (q: nat) => AnnualAt(s, q) }
  function LakhOrLacMatcher(s: string): nat -> bool { (q: nat) => LakhOrLacAt(s, q) }
  function RupeeAnnualMatcher(s: string): nat -> bool { (q: nat) => RupeeAnnualAt(s, q) }

  /** A search from 0 finds `q` when the pattern matches at `q` and nowhere before. */
  lemma AnnualSearchFinds(s: string, q: nat)
    requires AnnualAt(s, q) && forall k :: 0 <= k < q ==> !AnnualAt(s, k)
    ensures FirstMatch(s, AnnualMatcher(s), 0) == Some(q)
  {
    FirstMatchAt(s, AnnualMatcher(s), 0, q);
  }

  /** Where the experience pattern can start a match. */
  function YearsMatcher(s: string): nat -> bool
  {
    (q: nat) => q <= |s| && YearsMatchEnd(s, q).Some?
  }

  /** `re.findall` of the experience pattern from `i`: the year counts, left to right, without overlap. */
  function FindAllYears(s: string, i: nat): (counts: seq<nat>)
    requires i <= |s|
    decreases |s| - i
  {
    match FirstMatch(s, YearsMatcher(s), i)
    case None => []
    case Some(q) =>
      FirstMatchLeftmost(s, YearsMatcher(s), i);
      var next := YearsMatchEnd(s, q).value;
      [ParseNat(Amount(s, q, Whole))] + FindAllYears(s, next)
  }

  // ---------------------------------------------------------------- numerals

  /** The value of the digits after a decimal point: `0.d1d2…`. */
  function FractionValue(digits: string): (v: real)
    requires AllDigits(digits)
    ensures 0.0 <= v
  {
    if digits == [] then 0.0 else ((DigitValue(digits[0]) as real) + FractionValue(digits[1..])) / 10.0
  }

  /** Digits, then optionally `.` and digits: what `float()` reads here. */
  predicate IsNumeral(t: string)
  {
    var k := IndexOf(t, '.');
    AllDigits(t[..k]) && (k < |t| ==> AllDigits(t[k + 1..]))
  }

  /** `float(t)` for a numeral. */
  function NumeralValue(t: string): real
    requires IsNumeral(t)
  {
    var k := IndexOf(t, '.');
    (ParseNat(t[..k]) as real)
      + (if k < |t| then FractionValue(t[k + 1..]) else 0.0)
  }

  predicate DigitsOrCommas(t: string)
  {
    forall i :: 0 <= i < |t| ==> IsDigit(t[i]) || t[i] == ','
  }

  lemma {:induction false} GroupsChars(s: string, j: nat)
    requires j <= |s|
    ensures DigitsOrCommas(s[j..GroupsEnd(s, j)])
    decreases |s| - j
  {
    if j + 1 < |s| && s[j] == ',' && IsDigit(s[j + 1]) {
      var d := DigitsEnd(s, j + 1);
      GroupsChars(s, d);
      assert s[j..GroupsEnd(s, j)] == s[j..d] + s[d..GroupsEnd(s, d)];
    }
  }

  lemma {:induction false} RemoveCommas(t: string)
    requires DigitsOrCommas(t)
    ensures AllDigits(RemoveChar(t, ','))
    decreases |t|
  {
    if t != [] {
      RemoveCommas(t[..|t| - 1]);
    }
  }

  /** Digits, optionally followed by `.` and digits, form a numeral. */
  lemma NumeralOfParts(whole: string, fr: string)
    requires AllDigits(whole)
    requires fr == [] || (fr[0] == '.' && AllDigits(fr[1..]))
    ensures IsNumeral(whole + fr)
  {
    IndexOfNone(whole, '.');
    if fr == [] {
      assert whole + fr == whole;
      assert whole[..|whole|] == whole;
    } else {
      var fd := fr[1..];
      assert whole + fr == whole + ['.'] + fd;
      IndexOfAfter(whole, fd, '.');
      assert (whole + ['.'] + fd)[..|whole|] == whole;
      assert (whole + ['.'] + fd)[|whole| + 1..] == fd;
    }
  }

  /** The fraction part of a number is empty or `.` and digits. */
  lemma FractionChars(s: string, g: nat)
    requires g <= |s|
    ensures var fr := s[g..FractionEnd(s, g)]; fr == [] || (fr[0] == '.' && AllDigits(fr[1..]))
  {
    if g + 1 < |s| && s[g] == '.' && IsDigit(s[g + 1]) {
      var k := DigitsEnd(s, g + 1);
      assert s[g..k][1..] == s[g + 1..k];
    }
  }

  /** A number splits into its leading digits, its comma groups and its fraction. */
  lemma AmountParts(s: string, q: nat, shape: NumberShape) returns (ds: string, gs: string, fr: string)
    requires q <= |s|
    ensures Amount(s, q, shape) == ds + gs + fr
    ensures AllDigits(ds) && DigitsOrCommas(gs)
    ensures fr == [] || (fr[0] == '.' && AllDigits(fr[1..]))
  {
    var j := DigitsEnd(s, q);
    var g := if shape == Grouped then GroupsEnd(s, j) else j;
    var k := if shape == Whole then g else FractionEnd(s, g);
    GroupsChars(s, j);
    FractionChars(s, g);
    assert NumberEnd(s, q, shape) == k;
    SliceSplit(s, q, j, g);
    SliceSplit(s, q, g, k);
    ds, gs, fr := s[q..j], s[j..g], s[g..k];
  }

  /** A number of any shape, with its commas removed, is a numeral. */
  lemma AmountIsNumeral(s: string, q: nat, shape: NumberShape)
    requires q <= |s|
    ensures IsNumeral(RemoveChar(Amount(s, q, shape), ','))
  {
    var ds, gs, fr := AmountParts(s, q, shape);
    RemoveCommas(gs);
    RemoveCharConcat(ds + gs, fr, ',');
    RemoveCharConcat(ds, gs, ',');
    RemoveCharAbsent(ds, ',');
    RemoveCharAbsent(fr, ',');
    NumeralOfParts(ds + RemoveChar(gs, ','), fr);
  }

  /** `float(amount.replace(',', ''))` for the number at `q`. */
  function AmountValue(s: string, q: nat, shape: NumberShape): real
    requires q <= |s|
  {
    AmountIsNumeral(s, q, shape);
    NumeralValue(RemoveChar(Amount(s, q, shape), ','))
  }

  /** A numeral without a fraction has the value of its digits. */
  lemma WholeNumeralValue(t: string)
    requires AllDigits(t)
    ensures IsNumeral(t) && NumeralValue(t) == ParseNat(t) as real
  {
    IndexOfNone(t, '.');
    assert t[..|t|] == t;
  }

  // ---------------------------------------------------------------- facts about the matchers

  /** Every salary pattern needs a digit where its number starts. */
  lemma NoDigitNoMatch(s: string, q: nat)
    requires forall k :: 0 <= k < |s| ==> !IsDigit(s[k])
    ensures !LpaAt(s, q) && !LakhAt(s, q) && !AnnualAt(s, q) && !LakhOrLacAt(s, q) && !RupeeAnnualAt(s, q)
  {
  }

  /** Every match of the lpa or lakh pattern contains the letter `l`. */
  lemma NoLetterLNoLakh(s: string, q: nat)
    requires NoChar(s, 'l')
    ensures !LpaAt(s, q) && !LakhAt(s, q)
  {
    if q <= |s| {
      var e := AmountEnd(s, q, Plain);
    if e < |s| {
      assert s[e] != 'l';
    }
    }
  }

  /** No search succeeds where the pattern matches nowhere. */
  lemma FirstMatchNone(s: string, at: nat -> bool, i: nat)
    requires forall k :: i <= k < |s| ==> !at(k)
    ensures FirstMatch(s, at, i) == None
    decreases |s| - i
  {
    if i < |s| {
      FirstMatchNone(s, at, i + 1);
    }
  }

  /** A search succeeds at the first position where the pattern matches. */
  lemma FirstMatchAt(s: string, at: nat -> bool, i: nat, q: nat)
    requires i <= q < |s| && at(q)
    requires forall k :: i <= k < q ==> !at(k)
    ensures FirstMatch(s, at, i) == Some(q)
    decreases q - i
  {
    if i < q {
      FirstMatchAt(s, at, i + 1, q);
    }
  }

  /** The smallest count found. */
  function MinOf(xs: seq<nat>): (m: nat)
    requires xs != []
    ensures m in xs && forall k :: 0 <= k < |xs| ==> m <= xs[k]
  {
    if |xs| == 1 then xs[0]
    else
      var r := MinOf(xs[1..]);
      assert forall k :: 1 <= k < |xs| ==> xs[k] == xs[1..][k - 1];
      if xs[0] <= r then xs[0] else r
  }

  /** `min(xs) <= bound` exactly when some element is within the bound. */
  lemma MinAtMost(xs: seq<nat>, bound: int)
    requires xs != []
    ensures MinOf(xs) <= bound <==> exists k :: 0 <= k < |xs| && xs[k] <= bound
  {
  }
}
