/**
 * Character and string helpers standing in for the Python `str` methods the
 * pipeline uses: `lower`, `strip`, `in`, `split`, `join`, `replace`, `title`,
 * `str(int)` / `int(str)` and `sorted` on strings. Digits and letters are the
 * ASCII ones; white space is the full set of `str.isspace()`.
 */
module Text {

  predicate IsDigit(c: char) { '0' <= c <= '9' }

  /**
   * `c.isspace()`: the characters Python's `str.split()`, `str.strip()` and
   * the `\s` of `re` treat as white space.
   */
  predicate IsSpace(c: char)
  {
    ('\t' <= c <= '\r') || ('\U{001C}' <= c <= ' ') || c == '\U{0085}' || c == '\U{00A0}' || c == '\U{1680}'
    || ('\U{2000}' <= c <= '\U{200A}') || c == '\U{2028}' || c == '\U{2029}' || c == '\U{202F}'
    || c == '\U{205F}' || c == '\U{3000}'
  }

  predicate IsUpper(c: char) { 'A' <= c <= 'Z' }
  predicate IsLower(c: char) { 'a' <= c <= 'z' }
  predicate IsLetter(c: char) { IsUpper(c) || IsLower(c) }

  function ToLowerChar(c: char): char
  {
    if IsUpper(c) then (c as int + 32) as char else c
  }

  function ToUpperChar(c: char): char
  {
    if IsLower(c) then (c as int - 32) as char else c
  }

  /** `s.lower()` */
  function Lower(s: string): (r: string)
    ensures |r| == |s|
    ensures forall i :: 0 <= i < |s| ==> r[i] == ToLowerChar(s[i])
  {
    seq(|s|, i requires 0 <= i < |s| => ToLowerChar(s[i]))
  }

  /** `s.lstrip()` */
  function TrimStart(s: string): (r: string)
    ensures |r| <= |s|
    ensures r == [] || !IsSpace(r[0])
  {
    if s != [] && IsSpace(s[0]) then TrimStart(s[1..]) else s
  }

  /** `s.rstrip()` */
  function TrimEnd(s: string): (r: string)
    ensures |r| <= |s| && r == s[..|r|]
    ensures r == [] || !IsSpace(r[|r| - 1])
  {
    if s != [] && IsSpace(s[|s| - 1]) then TrimEnd(s[..|s| - 1]) else s
  }

  /** `s.strip()` */
  function Strip(s: string): string
  {
    TrimEnd(TrimStart(s))
  }

  /** `s.lower().strip()`, the normal form used by the fingerprints and the location filter. */
  function Normalize(s: string): string
  {
    Strip(Lower(s))
  }

  predicate ContainsAt(s: string, p: string, i: int)
  {
    0 <= i && i + |p| <= |s| && s[i..i + |p|] == p
  }

  /** Python's `p in s` on strings. */
  predicate Contains(s: string, p: string)
  {
    exists i | 0 <= i <= |s| - |p| :: ContainsAt(s, p, i)
  }

  lemma ContainsInside(a: string, b: string, c: string, p: string)
    requires Contains(b, p)
    ensures Contains(a + b + c, p)
  {
    var i :| 0 <= i <= |b| - |p| && ContainsAt(b, p, i);
    assert (a + b + c)[|a| + i..|a| + i + |p|] == b[i..i + |p|];
    assert ContainsAt(a + b + c, p, |a| + i);
  }

  /** A pattern contained in a pattern that occurs in `s` occurs in `s`. */
  lemma ContainsTransitive(s: string, p: string, q: string)
    requires Contains(s, p) && Contains(p, q)
    ensures Contains(s, q)
  {
    var i :| 0 <= i <= |s| - |p| && ContainsAt(s, p, i);
    var j :| 0 <= j <= |p| - |q| && ContainsAt(p, q, j);
    assert forall m :: 0 <= m < |p| ==> s[i + m] == s[i..i + |p|][m] == p[m];
    assert forall m :: 0 <= m < |q| ==> q[m] == p[j..j + |q|][m] == p[j + m];
    assert s[i + j..i + j + |q|] == q;
    assert ContainsAt(s, q, i + j);
  }

  /** Every string contains the empty string. */
  lemma ContainsEmpty(s: string)
    ensures Contains(s, "")
  {
    assert ContainsAt(s, "", 0);
  }

  predicate NoChar(s: string, c: char)
  {
    forall i :: 0 <= i < |s| ==> s[i] != c
  }

  lemma NoCharConcat(a: string, b: string, c: char)
    requires NoChar(a, c) && NoChar(b, c)
    ensures NoChar(a + b, c)
  {
  }

  /** Number of occurrences of `c` in `s` (`s.count(c)`). */
  function CountChar(s: string, c: char): nat
  {
    if s == [] then 0 else CountChar(s[..|s| - 1], c) + (if s[|s| - 1] == c then 1 else 0)
  }

  lemma {:induction false} CountCharConcat(a: string, b: string, c: char)
    ensures CountChar(a + b, c) == CountChar(a, c) + CountChar(b, c)
    decreases |b|
  {
    if b == [] {
      assert a + b == a;
    } else {
      assert (a + b)[..|a + b| - 1] == a + b[..|b| - 1];
      CountCharConcat(a, b[..|b| - 1], c);
    }
  }

  lemma {:induction false} CountCharNone(s: string, c: char)
    requires NoChar(s, c)
    ensures CountChar(s, c) == 0
    decreases |s|
  {
    if s != [] {
      CountCharNone(s[..|s| - 1], c);
    }
  }

  /** `s.replace(a, b)` for single characters. */
  function ReplaceChar(s: string, a: char, b: char): (r: string)
    ensures |r| == |s|
    ensures forall i :: 0 <= i < |s| ==> r[i] == (if s[i] == a then b else s[i])
  {
    seq(|s|, i requires 0 <= i < |s| => if s[i] == a then b else s[i])
  }

  /** Replacing `a` by a new character `b` is undone by replacing `b` back by `a`. */
  lemma ReplaceCharInverse(s: string, a: char, b: char)
    requires NoChar(s, b)
    ensures ReplaceChar(ReplaceChar(s, a, b), b, a) == s
    ensures a != b ==> NoChar(ReplaceChar(s, a, b), a)
  {
  }

  /** `s.replace(c, '')` */
  function RemoveChar(s: string, c: char): (r: string)
    ensures NoChar(r, c) && |r| <= |s|
  {
    if s == [] then []
    else RemoveChar(s[..|s| - 1], c) + (if s[|s| - 1] == c then [] else [s[|s| - 1]])
  }

  lemma {:induction false} RemoveCharConcat(a: string, b: string, c: char)
    ensures RemoveChar(a + b, c) == RemoveChar(a, c) + RemoveChar(b, c)
    decreases |b|
  {
    if b == [] {
      assert a + b == a;
    } else {
      assert (a + b)[..|a + b| - 1] == a + b[..|b| - 1];
      RemoveCharConcat(a, b[..|b| - 1], c);
    }
  }

  lemma RemoveCharSingle(c: char)
    ensures RemoveChar([c], c) == []
  {
    assert [c][..0] == [];
  }

  lemma {:induction false} RemoveCharAbsent(s: string, c: char)
    requires NoChar(s, c)
    ensures RemoveChar(s, c) == s
    decreases |s|
  {
    if s != [] {
      RemoveCharAbsent(s[..|s| - 1], c);
    }
  }

  /** Joining two strings without upper-case letters gives one without them. */
  lemma NoUpperJoin(x: string, y: string)
    requires forall i :: 0 <= i < |x| ==> !IsUpper(x[i])
    requires forall i :: 0 <= i < |y| ==> !IsUpper(y[i])
    ensures forall i :: 0 <= i < |x + y| ==> !IsUpper((x + y)[i])
  {
  }

  /** Lower-casing leaves a string without upper-case letters unchanged. */
  lemma LowerIdentity(s: string)
    requires forall i :: 0 <= i < |s| ==> !IsUpper(s[i])
    ensures Lower(s) == s
  {
  }

  /** Lower-casing twice is lower-casing once. */
  lemma LowerIdempotent(s: string)
    ensures Lower(Lower(s)) == Lower(s)
  {
    LowerIdentity(Lower(s));
  }

  /** Lower-casing works piece by piece. */
  lemma LowerConcat(x: string, y: string)
    ensures Lower(x + y) == Lower(x) + Lower(y)
  {
  }

  /** `s.title()`: a letter is upper-cased after a non-letter and lower-cased after a letter. */
  function TitleCase(s: string): (r: string)
    ensures |r| == |s|
    ensures forall i :: 0 <= i < |s| ==> r[i] == TitleChar(s, i)
  {
    seq(|s|, i requires 0 <= i < |s| => TitleChar(s, i))
  }

  function TitleChar(s: string, i: nat): char
    requires i < |s|
  {
    if i == 0 || !IsLetter(s[i - 1]) then ToUpperChar(s[i]) else ToLowerChar(s[i])
  }

  // ---------------------------------------------------------------- splitting and joining

  /** Length of the longest prefix of `s` without white space. */
  function TokenLength(s: string): (n: nat)
    ensures n <= |s|
    ensures forall i :: 0 <= i < n ==> !IsSpace(s[i])
    ensures n == |s| || IsSpace(s[n])
  {
    if s == [] || IsSpace(s[0]) then 0 else 1 + TokenLength(s[1..])
  }

  /** `s.split()`: the maximal runs of non-space characters, in order. */
  function Words(s: string): (ws: seq<string>)
    ensures forall k :: 0 <= k < |ws| ==> ws[k] != [] && NoSpace(ws[k])
    decreases |s|
  {
    var t := TrimStart(s);
    if t == [] then []
    else
      var n := TokenLength(t);
      [t[..n]] + Words(t[n..])
  }

  predicate NoSpace(s: string)
  {
    forall i :: 0 <= i < |s| ==> !IsSpace(s[i])
  }

  /** Index of the first `c` in `s`, or `|s|`. */
  function IndexOf(s: string, c: char): (i: nat)
    ensures i <= |s|
    ensures forall k :: 0 <= k < i ==> s[k] != c
    ensures i < |s| ==> s[i] == c
  {
    if s == [] then 0 else if s[0] == c then 0 else 1 + IndexOf(s[1..], c)
  }

  /** `s.split(sep)` for a one-character separator. */
  function Split(s: string, sep: char): (parts: seq<string>)
    ensures |parts| >= 1
    decreases |s|
  {
    var i := IndexOf(s, sep);
    if i == |s| then [s] else [s[..i]] + Split(s[i + 1..], sep)
  }

  /** `sep.join(xs)` */
  function Join(sep: string, xs: seq<string>): string
  {
    if xs == [] then "" else if |xs| == 1 then xs[0] else xs[0] + sep + Join(sep, xs[1..])
  }

  /** Splitting undoes joining when no joined part contains the separator. */
  lemma {:induction false} SplitJoin(xs: seq<string>, sep: char)
    requires |xs| >= 1
    requires forall k :: 0 <= k < |xs| ==> NoChar(xs[k], sep)
    ensures Split(Join([sep], xs), sep) == xs
    decreases |xs|
  {
    if |xs| == 1 {
      IndexOfNone(xs[0], sep);
    } else {
      var s := Join([sep], xs);
      assert s == xs[0] + [sep] + Join([sep], xs[1..]);
      IndexOfAfter(xs[0], Join([sep], xs[1..]), sep);
      assert s[..|xs[0]|] == xs[0];
      assert s[|xs[0]| + 1..] == Join([sep], xs[1..]);
      SplitJoin(xs[1..], sep);
    }
  }

  /** The characters of a middle part, wherever it sits. */
  lemma InfixOfConcat(x: string, m: string, y: string)
    ensures forall k :: 0 <= k < |m| ==> (x + m + y)[|x| + k] == m[k]
  {
  }

  /** The middle of three joined strings is the slice between the other two. */
  lemma InfixSlice(x: string, m: string, y: string)
    ensures (x + m + y)[|x|..|x| + |m|] == m
  {
    InfixOfConcat(x, m, y);
  }

  /** The characters on either side of the middle of three joined strings. */
  lemma AroundInfix(x: string, m: string, y: string)
    requires x != [] && |y| >= 2
    ensures (x + m + y)[|x| - 1] == x[|x| - 1]
    ensures (x + m + y)[|x| + |m|] == y[0] && (x + m + y)[|x| + |m| + 1] == y[1]
  {
  }

  /** A string begins with its first part, whatever follows. */
  lemma PrefixOfConcat(a: string, rest: string)
    ensures (a + rest)[..|a|] == a
    ensures forall k :: 0 <= k < |a| ==> (a + rest)[k] == a[k]
  {
  }

  /** Adjacent slices join into one. */
  lemma SliceSplit(s: string, i: nat, j: nat, k: nat)
    requires i <= j <= k <= |s|
    ensures s[i..k] == s[i..j] + s[j..k]
  {
    assert forall m :: 0 <= m < k - i ==> s[i..k][m] == (s[i..j] + s[j..k])[m];
  }

  /** A slice of a slice is a slice. */
  lemma SliceOfSlice(s: string, i: nat, j: nat, a: nat, b: nat)
    requires i <= j <= |s| && a <= b <= j - i
    ensures s[i..j][a..b] == s[i + a..i + b]
  {
    assert forall k :: 0 <= k < b - a ==> s[i..j][a..b][k] == s[i + a + k];
  }

  /** The lines `xs`, each followed by `sep`. */
  function Terminated(xs: seq<string>, sep: char): string
  {
    if xs == [] then "" else xs[0] + [sep] + Terminated(xs[1..], sep)
  }

  /** Lines each followed by the separator are the lines joined, with an empty last part. */
  lemma {:induction false} TerminatedJoin(xs: seq<string>, sep: char)
    ensures Terminated(xs, sep) == Join([sep], xs + [""])
    decreases |xs|
  {
    if xs != [] {
      assert (xs + [""])[1..] == xs[1..] + [""];
      TerminatedJoin(xs[1..], sep);
    }
  }

  lemma IndexOfNone(s: string, c: char)
    requires NoChar(s, c)
    ensures IndexOf(s, c) == |s|
  {
  }

  lemma IndexOfAfter(a: string, b: string, c: char)
    requires NoChar(a, c)
    ensures IndexOf(a + [c] + b, c) == |a|
  {
    var s := a + [c] + b;
    assert s[|a|] == c;
    assert forall k :: 0 <= k < |a| ==> s[k] == a[k];
  }

  /** The parts on either side of the first separator are determined by the joined string. */
  lemma SeparatedPartsDetermined(a1: string, b1: string, a2: string, b2: string, sep: char)
    requires NoChar(a1, sep) && NoChar(a2, sep)
    requires a1 + [sep] + b1 == a2 + [sep] + b2
    ensures a1 == a2 && b1 == b2
  {
    IndexOfAfter(a1, b1, sep);
    IndexOfAfter(a2, b2, sep);
    var s := a1 + [sep] + b1;
    assert a1 == s[..|a1|] && a2 == s[..|a2|];
    assert b1 == s[|a1| + 1..] && b2 == s[|a2| + 1..];
  }

  // ---------------------------------------------------------------- decimal numbers

  predicate AllDigits(s: string)
  {
    forall i :: 0 <= i < |s| ==> IsDigit(s[i])
  }

  function DigitChar(d: nat): (c: char)
    requires d < 10
    ensures IsDigit(c)
  {
    ('0' as int + d) as char
  }

  function DigitValue(c: char): (d: nat)
    requires IsDigit(c)
    ensures d < 10
  {
    c as int - '0' as int
  }

  /** `str(n)` for n >= 0: the shortest decimal numeral of n. */
  function NatToString(n: nat): (r: string)
    ensures |r| >= 1 && AllDigits(r)
    ensures |r| > 1 ==> r[0] != '0'
    decreases n
  {
    if n < 10 then [DigitChar(n)] else NatToString(n / 10) + [DigitChar(n % 10)]
  }

  /** `int(s)` for a numeral of decimal digits (the empty numeral counts as 0). */
  function ParseNat(s: string): nat
    requires AllDigits(s)
  {
    if s == [] then 0 else 10 * ParseNat(s[..|s| - 1]) + DigitValue(s[|s| - 1])
  }

  /** `int(str(n)) == n` */
  lemma {:induction false} ParseNatToString(n: nat)
    ensures ParseNat(NatToString(n)) == n
    decreases n
  {
    if n >= 10 {
      var s := NatToString(n);
      assert s[..|s| - 1] == NatToString(n / 10);
      ParseNatToString(n / 10);
    }
  }

  /** `str(i)` for any integer. */
  function IntToString(i: int): string
  {
    if i < 0 then "-" + NatToString(-i) else NatToString(i)
  }

  // ---------------------------------------------------------------- ordering of strings

  /** Python's `<` on strings: lexicographic by code point. */
  predicate LexLess(a: string, b: string)
  {
    if a == [] then b != []
    else b != [] && (a[0] < b[0] || (a[0] == b[0] && LexLess(a[1..], b[1..])))
  }

  lemma {:induction false} LexLessIrreflexive(a: string)
    ensures !LexLess(a, a)
  {
    if a != [] {
      LexLessIrreflexive(a[1..]);
    }
  }

  lemma {:induction false} LexLessTransitive(a: string, b: string, c: string)
    requires LexLess(a, b) && LexLess(b, c)
    ensures LexLess(a, c)
  {
    if a != [] && b != [] && c != [] && a[0] == b[0] && b[0] == c[0] {
      LexLessTransitive(a[1..], b[1..], c[1..]);
    }
  }

  lemma {:induction false} LexLessTotal(a: string, b: string)
    ensures a == b || LexLess(a, b) || LexLess(b, a)
  {
    if a != [] && b != [] && a[0] == b[0] {
      LexLessTotal(a[1..], b[1..]);
      if a[1..] == b[1..] {
        assert a == [a[0]] + a[1..] && b == [b[0]] + b[1..];
      }
    }
  }

  function Elements(xs: seq<string>): set<string>
  {
    set y | y in xs
  }

  predicate StrictlySorted(xs: seq<string>)
  {
    forall i, j :: 0 <= i < j < |xs| ==> LexLess(xs[i], xs[j])
  }

  /** Inserts `x` into a strictly sorted sequence, unless it is already there. */
  function InsertSorted(x: string, xs: seq<string>): (r: seq<string>)
    requires StrictlySorted(xs)
    ensures StrictlySorted(r)
    ensures Elements(r) == Elements(xs) + {x}
  {
    if xs == [] then [x]
    else if x == xs[0] then xs
    else if LexLess(x, xs[0]) then
      InsertBeforeHead(x, xs);
      [x] + xs
    else
      LexLessTotal(x, xs[0]);
      var rest := InsertSorted(x, xs[1..]);
      InsertAfterHead(x, xs, rest);
      [xs[0]] + rest
  }

  lemma InsertBeforeHead(x: string, xs: seq<string>)
    requires StrictlySorted(xs) && xs != [] && LexLess(x, xs[0])
    ensures StrictlySorted([x] + xs)
    ensures Elements([x] + xs) == Elements(xs) + {x}
  {
    forall j | 0 < j < |xs|
      ensures LexLess(x, xs[j])
    {
      LexLessTransitive(x, xs[0], xs[j]);
    }
    assert forall y :: y in [x] + xs <==> y == x || y in xs;
  }

  lemma InsertAfterHead(x: string, xs: seq<string>, rest: seq<string>)
    requires StrictlySorted(xs) && xs != [] && LexLess(xs[0], x)
    requires StrictlySorted(rest) && Elements(rest) == Elements(xs[1..]) + {x}
    ensures StrictlySorted([xs[0]] + rest)
    ensures Elements([xs[0]] + rest) == Elements(xs) + {x}
  {
    forall y | y in rest
      ensures LexLess(xs[0], y)
    {
      assert y in Elements(xs[1..]) + {x};
    }
    assert xs == [xs[0]] + xs[1..];
    assert Elements(xs) == {xs[0]} + Elements(xs[1..]);
    assert Elements([xs[0]] + rest) == {xs[0]} + Elements(rest);
  }

  /** `sorted(set(xs))` */
  function SortedUnique(xs: seq<string>): (r: seq<string>)
    ensures StrictlySorted(r)
    ensures Elements(r) == Elements(xs)
  {
    if xs == [] then [] else
      assert xs == xs[..|xs| - 1] + [xs[|xs| - 1]];
      InsertSorted(xs[|xs| - 1], SortedUnique(xs[..|xs| - 1]))
  }

  lemma {:induction false} LexLessAsymmetric(a: string, b: string)
    requires LexLess(a, b)
    ensures !LexLess(b, a)
  {
    if a != [] && b != [] && a[0] == b[0] {
      LexLessAsymmetric(a[1..], b[1..]);
    }
  }

  lemma ElementsEmpty(xs: seq<string>)
    ensures Elements(xs) == {} ==> xs == []
  {
    if xs != [] {
      assert xs[0] in Elements(xs);
    }
  }

  /** The head of a strictly sorted sequence is below every other element. */
  lemma SortedHead(a: seq<string>)
    requires StrictlySorted(a) && a != []
    ensures forall y :: y in Elements(a) && y != a[0] ==> LexLess(a[0], y)
    ensures Elements(a[1..]) == Elements(a) - {a[0]}
  {
    LexLessIrreflexive(a[0]);
    assert a == [a[0]] + a[1..];
    forall y | y in Elements(a[1..])
      ensures y != a[0]
    {
      var k :| 0 <= k < |a[1..]| && a[1..][k] == y;
      assert LexLess(a[0], a[k + 1]);
    }
  }

  lemma SortedHeadsEqual(a: seq<string>, b: seq<string>)
    requires StrictlySorted(a) && StrictlySorted(b) && a != [] && b != []
    requires Elements(a) == Elements(b)
    ensures a[0] == b[0]
  {
    SortedHead(a);
    SortedHead(b);
    assert a[0] in Elements(a) && b[0] in Elements(b);
    LexLessTotal(a[0], b[0]);
    if LexLess(a[0], b[0]) {
      LexLessAsymmetric(a[0], b[0]);
    }
  }

  /** A strictly sorted sequence is determined by its set of elements. */
  lemma {:induction false} StrictlySortedUnique(a: seq<string>, b: seq<string>)
    requires StrictlySorted(a) && StrictlySorted(b)
    requires Elements(a) == Elements(b)
    ensures a == b
    decreases |a|
  {
    if a == [] {
      ElementsEmpty(b);
    } else {
      assert a[0] in Elements(a);
      assert b != [];
      SortedHeadsEqual(a, b);
      SortedHead(a);
      SortedHead(b);
      StrictlySortedUnique(a[1..], b[1..]);
      assert a == [a[0]] + a[1..] && b == [b[0]] + b[1..];
    }
  }

  /** `sorted(set(xs))` depends only on the set of elements of `xs`. */
  lemma SortedUniqueOfSameSet(xs: seq<string>, ys: seq<string>)
    requires Elements(xs) == Elements(ys)
    ensures SortedUnique(xs) == SortedUnique(ys)
  {
    StrictlySortedUnique(SortedUnique(xs), SortedUnique(ys));
  }
}
