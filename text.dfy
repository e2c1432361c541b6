/**
  The string operations of Rust's standard library that the puzzles use, over ASCII text:
  `lines`, `split` on a character, `split_once`, `find` / `rfind`, `trim`, `split_whitespace`,
  the matches of the regular expression `(\d+)`, and `parse` into an unsigned integer.
 */
module Text {
  import opened Wrappers

  // ---------------------------------------------------------------- character classes

  predicate IsAsciiDigit(c: char) { '0' <= c <= '9' }

  /** `char::is_whitespace` on ASCII: tab, line feed, vertical tab, form feed, carriage return, space. */
  predicate IsWhitespace(c: char) { c == ' ' || '\t' <= c <= '\r' }

  predicate IsNonWhitespace(c: char) { !IsWhitespace(c) }

  /** The regex class `\w` on ASCII: letters, digits and underscore. */
  predicate IsWordChar(c: char) { 'a' <= c <= 'z' || 'A' <= c <= 'Z' || IsAsciiDigit(c) || c == '_' }

  predicate AllDigits(s: string) { forall i :: 0 <= i < |s| ==> IsAsciiDigit(s[i]) }

  predicate AllWhitespace(s: string) { forall i :: 0 <= i < |s| ==> IsWhitespace(s[i]) }

  function DigitValue(c: char): (d: nat)
    requires IsAsciiDigit(c)
    ensures d < 10
  {
    c as int - '0' as int
  }

  function DigitChar(d: nat): (c: char)
    requires d < 10
    ensures IsAsciiDigit(c) && DigitValue(c) == d
  {
    ('0' as int + d) as char
  }

  // ---------------------------------------------------------------- decimal numerals

  /** The value of a decimal numeral, most significant digit first; leading zeros are allowed. */
  function DecimalValue(s: string): nat
    requires AllDigits(s)
  {
    if s == [] then 0 else 10 * DecimalValue(s[..|s| - 1]) + DigitValue(s[|s| - 1])
  }

  lemma DecimalValueAppend(s: string, c: char)
    requires AllDigits(s) && IsAsciiDigit(c)
    ensures AllDigits(s + [c]) && DecimalValue(s + [c]) == 10 * DecimalValue(s) + DigitValue(c)
  {
    assert (s + [c])[..|s|] == s;
  }

  /** The shortest decimal numeral of n. */
  function ToDecimal(n: nat): (s: string)
    ensures |s| > 0 && AllDigits(s)
  {
    if n < 10 then [DigitChar(n)] else ToDecimal(n / 10) + [DigitChar(n % 10)]
  }

  lemma {:induction false} DecimalValueOfToDecimal(n: nat)
    ensures DecimalValue(ToDecimal(n)) == n
  {
    if n >= 10 {
      var s := ToDecimal(n);
      assert s[..|s| - 1] == ToDecimal(n / 10);
      DecimalValueOfToDecimal(n / 10);
    }
  }

  /**
    `str::parse` into an unsigned integer type whose largest value is max: an optional '+',
    then one or more ASCII digits whose value does not exceed max.
   */
  function ParseUnsigned(tok: string, max: nat): (r: Option<nat>)
    ensures r.Some? ==> r.value <= max
  {
    var digits := if |tok| > 1 && tok[0] == '+' then tok[1..] else tok;
    if digits != [] && AllDigits(digits) && DecimalValue(digits) <= max then Some(DecimalValue(digits))
    else None
  }

  /** Printing a number that fits and parsing it back gives the number, with or without a '+'. */
  lemma ParseUnsignedOfToDecimal(n: nat, max: nat)
    requires n <= max
    ensures ParseUnsigned(ToDecimal(n), max) == Some(n)
    ensures ParseUnsigned("+" + ToDecimal(n), max) == Some(n)
  {
    DecimalValueOfToDecimal(n);
    assert ("+" + ToDecimal(n))[1..] == ToDecimal(n);
  }

  /** A non-empty run of digits parses exactly when its value fits. */
  lemma ParseUnsignedOfDigits(tok: string, max: nat)
    requires |tok| > 0 && AllDigits(tok)
    ensures ParseUnsigned(tok, max) == if DecimalValue(tok) <= max then Some(DecimalValue(tok)) else None
  {
    assert IsAsciiDigit(tok[0]);
  }

  /** A numeral whose value exceeds max is rejected rather than truncated. */
  lemma ParseUnsignedOverflow(tok: string, max: nat)
    requires tok != [] && AllDigits(tok) && DecimalValue(tok) > max
    ensures ParseUnsigned(tok, max) == None
  {
  }

  /** A token holding a character that is not a digit, other than one leading '+', is rejected. */
  lemma ParseUnsignedRejectsNonDigit(tok: string, max: nat, i: nat)
    requires i < |tok| && !IsAsciiDigit(tok[i]) && !(i == 0 && tok[i] == '+' && |tok| > 1)
    ensures ParseUnsigned(tok, max) == None
  {
    if |tok| > 1 && tok[0] == '+' {
      assert tok[1..][i - 1] == tok[i];
    }
  }

  // ---------------------------------------------------------------- maximal runs

  /** The length of the longest prefix of s whose characters all satisfy p. */
  function RunLength(s: string, p: char -> bool): (n: nat)
    ensures n <= |s|
    ensures forall i :: 0 <= i < n ==> p(s[i])
    ensures n < |s| ==> !p(s[n])
  {
    if s == [] || !p(s[0]) then 0 else 1 + RunLength(s[1..], p)
  }

  /**
    The maximal runs of characters satisfying p, left to right; every other character only
    separates. With p = IsNonWhitespace this is `split_whitespace`; with p = IsAsciiDigit it is
    the sequence of matches of the regular expression `(\d+)`.
   */
  function Runs(s: string, p: char -> bool): (r: seq<string>)
    ensures forall k :: 0 <= k < |r| ==> |r[k]| > 0 && forall i :: 0 <= i < |r[k]| ==> p(r[k][i])
    decreases |s|
  {
    if s == [] then []
    else if !p(s[0]) then Runs(s[1..], p)
    else
      var n := RunLength(s, p);
      [s[..n]] + Runs(s[n..], p)
  }

  /** A non-empty string made only of p-characters is one run. */
  lemma RunsOfOneRun(s: string, p: char -> bool)
    requires |s| > 0 && forall i :: 0 <= i < |s| ==> p(s[i])
    ensures Runs(s, p) == [s]
  {
    var n := RunLength(s, p);
    assert n == |s|;
    assert s[..n] == s;
    assert s[n..] == [];
    assert Runs(s, p) == [s[..n]] + Runs(s[n..], p);
  }

  /** A string without p-characters has no runs. */
  lemma {:induction false} RunsOfSeparators(s: string, p: char -> bool)
    requires forall i :: 0 <= i < |s| ==> !p(s[i])
    ensures Runs(s, p) == []
  {
    if s != [] {
      RunsOfSeparators(s[1..], p);
    }
  }

  /** A separator cuts the runs: the runs of a + [c] + b are those of a followed by those of b. */
  lemma {:induction false} RunsSeparated(a: string, c: char, b: string, p: char -> bool)
    requires !p(c)
    ensures Runs(a + [c] + b, p) == Runs(a, p) + Runs(b, p)
    decreases |a|
  {
    var s := a + [c] + b;
    if a == [] {
      assert s[1..] == b;
    } else if !p(a[0]) {
      assert s[1..] == a[1..] + [c] + b;
      RunsSeparated(a[1..], c, b, p);
    } else {
      var m := RunLength(a, p);
      var n := RunLength(s, p);
      assert s[|a|] == c;
      if m < |a| {
        assert s[m] == a[m];
        assert n == m;
        assert s[..n] == a[..m];
        assert s[n..] == a[m..] + [c] + b;
        RunsSeparated(a[m..], c, b, p);
      } else {
        assert n == |a|;
        assert s[..n] == a;
        assert s[n..] == [c] + b;
        assert ([c] + b)[1..] == b;
        assert Runs([c] + b, p) == Runs(b, p);
        assert a[..m] == a && a[m..] == [];
        assert Runs(a, p) == [a];
      }
    }
  }

  /** Leading separators do not change the runs. */
  lemma {:induction false} RunsAfterSeparators(a: string, b: string, p: char -> bool)
    requires forall i :: 0 <= i < |a| ==> !p(a[i])
    ensures Runs(a + b, p) == Runs(b, p)
  {
    if a != [] {
      assert (a + b)[1..] == a[1..] + b;
      RunsAfterSeparators(a[1..], b, p);
    } else {
      assert a + b == b;
    }
  }

  /** A run followed by a separator (or by nothing) is the first run. */
  lemma RunsOfRunThen(t: string, b: string, p: char -> bool)
    requires |t| > 0 && forall i :: 0 <= i < |t| ==> p(t[i])
    requires b == [] || !p(b[0])
    ensures Runs(t + b, p) == [t] + Runs(b, p)
  {
    if b == [] {
      assert t + b == t;
      RunsOfOneRun(t, p);
    } else {
      assert t + b == t + [b[0]] + b[1..];
      RunsSeparated(t, b[0], b[1..], p);
      RunsOfOneRun(t, p);
    }
  }

  // ---------------------------------------------------------------- written numbers

  /** Gaps of one or more spaces between numbers, as the puzzle inputs write them. */
  predicate IsGap(g: string) { |g| > 0 && forall i :: 0 <= i < |g| ==> g[i] == ' ' }

  /** The numbers ns written in decimal, each after its gap. */
  function Spaced(ns: seq<nat>, gaps: seq<string>): (r: string)
    requires |gaps| == |ns| && forall k :: 0 <= k < |gaps| ==> IsGap(gaps[k])
    ensures r == [] || r[0] == ' '
    ensures forall i :: 0 <= i < |r| ==> r[i] == ' ' || IsAsciiDigit(r[i])
  {
    if ns == [] then []
    else
      var rest := Spaced(ns[1..], gaps[1..]);
      var g, t := gaps[0], ToDecimal(ns[0]);
      var r := g + t + rest;
      assert IsGap(g);
      assert r[0] == g[0];
      assert forall i :: 0 <= i < |g| ==> r[i] == g[i];
      assert forall i :: |g| <= i < |g| + |t| ==> r[i] == t[i - |g|];
      assert forall i :: |g| + |t| <= i < |r| ==> r[i] == rest[i - |g| - |t|];
      r
  }

  /** The first number written, then the others. */
  lemma SpacedCons(ns: seq<nat>, gaps: seq<string>)
    requires |gaps| == |ns| > 0 && forall k :: 0 <= k < |gaps| ==> IsGap(gaps[k])
    ensures Spaced(ns, gaps) == gaps[0] + ToDecimal(ns[0]) + Spaced(ns[1..], gaps[1..])
  {
  }

  /** The runs of written numbers, for any class of characters holding the digits but not the space, are the numbers' decimal forms. */
  lemma {:induction false} RunsOfSpaced(ns: seq<nat>, gaps: seq<string>, p: char -> bool)
    requires |gaps| == |ns| && forall k :: 0 <= k < |gaps| ==> IsGap(gaps[k])
    requires !p(' ') && forall c :: IsAsciiDigit(c) ==> p(c)
    ensures |Runs(Spaced(ns, gaps), p)| == |ns|
    ensures forall k :: 0 <= k < |ns| ==> Runs(Spaced(ns, gaps), p)[k] == ToDecimal(ns[k])
  {
    if ns != [] {
      var rest := Spaced(ns[1..], gaps[1..]);
      RunsOfSpaced(ns[1..], gaps[1..], p);
      assert Spaced(ns, gaps) == gaps[0] + (ToDecimal(ns[0]) + rest);
      RunsAfterSeparators(gaps[0], ToDecimal(ns[0]) + rest, p);
      RunsOfRunThen(ToDecimal(ns[0]), rest, p);
    }
  }

  // ---------------------------------------------------------------- substring search

  predicate OccursAt(s: string, pat: string, i: int)
  {
    0 <= i && i + |pat| <= |s| && s[i..i + |pat|] == pat
  }

  /** The least index at or after from at which pat occurs. */
  function FindFrom(s: string, pat: string, from: nat): (r: Option<nat>)
    ensures r.Some? ==> from <= r.value && OccursAt(s, pat, r.value)
    ensures r.Some? ==> forall j :: from <= j < r.value ==> !OccursAt(s, pat, j)
    ensures r.None? ==> forall j :: from <= j ==> !OccursAt(s, pat, j)
    decreases |s| + 1 - from
  {
    if from + |pat| > |s| then None
    else if OccursAt(s, pat, from) then Some(from)
    else FindFrom(s, pat, from + 1)
  }

  /** `str::find`: the least index at which pat occurs. */
  function Find(s: string, pat: string): (r: Option<nat>)
    ensures r.Some? ==> OccursAt(s, pat, r.value)
    ensures r.Some? ==> forall j :: 0 <= j < r.value ==> !OccursAt(s, pat, j)
    ensures r.None? ==> forall j :: 0 <= j ==> !OccursAt(s, pat, j)
  {
    FindFrom(s, pat, 0)
  }

  /** The greatest index below n at which pat occurs. */
  function FindBelow(s: string, pat: string, n: nat): (r: Option<nat>)
    ensures r.Some? ==> r.value < n && OccursAt(s, pat, r.value)
    ensures r.Some? ==> forall j :: r.value < j < n ==> !OccursAt(s, pat, j)
    ensures r.None? ==> forall j :: 0 <= j < n ==> !OccursAt(s, pat, j)
  {
    if n == 0 then None
    else if OccursAt(s, pat, n - 1) then Some(n - 1)
    else FindBelow(s, pat, n - 1)
  }

  /** `str::rfind`: the greatest index at which pat occurs. */
  function RFind(s: string, pat: string): (r: Option<nat>)
    ensures r.Some? ==> OccursAt(s, pat, r.value)
    ensures r.Some? ==> forall j :: r.value < j ==> !OccursAt(s, pat, j)
    ensures r.None? ==> forall j :: 0 <= j ==> !OccursAt(s, pat, j)
  {
    FindBelow(s, pat, |s| + 1)
  }

  /** `str::split_once`: the text before and after the first occurrence of pat. */
  function SplitOnce(s: string, pat: string): (r: Option<(string, string)>)
    ensures r.None? <==> forall j :: 0 <= j ==> !OccursAt(s, pat, j)
    ensures r.Some? ==> r.value.0 + pat + r.value.1 == s
    ensures r.Some? ==> forall j :: 0 <= j < |r.value.0| ==> !OccursAt(s, pat, j)
  {
    match Find(s, pat)
    case None => None
    case Some(i) =>
      assert s == s[..i] + s[i..i + |pat|] + s[i + |pat|..];
      Some((s[..i], s[i + |pat|..]))
  }

  /** Splitting once on a pattern the text starts with: nothing before it. */
  lemma SplitOnceAtStart(pat: string, b: string)
    ensures SplitOnce(pat + b, pat) == Some(([], b))
  {
    var s := pat + b;
    assert s[0..|pat|] == pat;
    assert OccursAt(s, pat, 0);
    assert s[|pat|..] == b;
  }

  /** Splitting once at a character that the text before it does not hold. */
  lemma SplitOnceAtChar(a: string, c: char, b: string)
    requires c !in a
    ensures SplitOnce(a + [c] + b, [c]) == Some((a, b))
  {
    var s := a + [c] + b;
    assert s[|a|..|a| + 1] == [c];
    assert OccursAt(s, [c], |a|);
    var r := SplitOnce(s, [c]);
    var before, after := r.value.0, r.value.1;
    assert |before| <= |a|;
    assert s[|before|] == (before + [c] + after)[|before|] == c;
    assert forall j :: 0 <= j < |a| ==> s[j] == a[j];
    assert before == s[..|a|] && after == s[|a| + 1..];
  }

  // ---------------------------------------------------------------- splitting on a character

  /** The index of the first occurrence of c in s. */
  function IndexOf(s: string, c: char): (i: nat)
    requires c in s
    ensures i < |s| && s[i] == c && c !in s[..i]
  {
    if s[0] == c then 0 else 1 + IndexOf(s[1..], c)
  }

  lemma IndexOfIs(s: string, c: char, i: nat)
    requires i < |s| && s[i] == c && c !in s[..i]
    ensures IndexOf(s, c) == i
  {
  }

  /** `str::split` on a character: the pieces between separators; there is always one more piece than separators. */
  function Split(s: string, sep: char): (r: seq<string>)
    ensures |r| > 0
    ensures forall k :: 0 <= k < |r| ==> sep !in r[k]
    decreases |s|
  {
    if sep !in s then [s]
    else
      var i := IndexOf(s, sep);
      [s[..i]] + Split(s[i + 1..], sep)
  }

  /** The pieces with sep between each two of them. */
  function Join(ps: seq<string>, sep: char): string
    requires |ps| > 0
  {
    if |ps| == 1 then ps[0] else ps[0] + [sep] + Join(ps[1..], sep)
  }

  lemma JoinCons(p: string, ps: seq<string>, sep: char)
    requires |ps| > 0
    ensures Join([p] + ps, sep) == p + [sep] + Join(ps, sep)
  {
    assert ([p] + ps)[1..] == ps;
  }

  /** A character that is neither the separator nor in any piece is not in the join. */
  lemma {:induction false} JoinAvoids(ps: seq<string>, sep: char, c: char)
    requires |ps| > 0 && c != sep && forall k :: 0 <= k < |ps| ==> c !in ps[k]
    ensures c !in Join(ps, sep)
  {
    if |ps| > 1 {
      JoinAvoids(ps[1..], sep, c);
    }
  }

  /** Joining the pieces of a split gives back the text. */
  lemma {:induction false} JoinSplit(s: string, sep: char)
    ensures Join(Split(s, sep), sep) == s
    decreases |s|
  {
    if sep in s {
      var i := IndexOf(s, sep);
      JoinSplit(s[i + 1..], sep);
      assert Split(s, sep)[1..] == Split(s[i + 1..], sep);
      assert s == s[..i] + [sep] + s[i + 1..];
    }
  }

  /** Splitting a join of separator-free pieces gives back the pieces. */
  lemma {:induction false} SplitJoin(ps: seq<string>, sep: char)
    requires |ps| > 0 && forall k :: 0 <= k < |ps| ==> sep !in ps[k]
    ensures Split(Join(ps, sep), sep) == ps
  {
    if |ps| > 1 {
      var s := Join(ps, sep);
      var rest := Join(ps[1..], sep);
      var n := |ps[0]|;
      assert s == ps[0] + [sep] + rest;
      assert s[..n] == ps[0];
      IndexOfIs(s, sep, n);
      assert s[n + 1..] == rest;
      SplitJoin(ps[1..], sep);
    }
  }

  // ---------------------------------------------------------------- trimming

  /** The number of whitespace characters at the end of s. */
  function TrailingWhitespace(s: string): (n: nat)
    ensures n <= |s|
    ensures forall i :: |s| - n <= i < |s| ==> IsWhitespace(s[i])
    ensures n < |s| ==> !IsWhitespace(s[|s| - 1 - n])
  {
    if s == [] || !IsWhitespace(s[|s| - 1]) then 0 else 1 + TrailingWhitespace(s[..|s| - 1])
  }

  function TrimStart(s: string): string
  {
    s[RunLength(s, IsWhitespace)..]
  }

  function TrimEnd(s: string): string
  {
    s[..|s| - TrailingWhitespace(s)]
  }

  /** `str::trim`: the text without its leading and trailing whitespace. */
  function Trim(s: string): string
  {
    TrimEnd(TrimStart(s))
  }

  predicate IsTrimmed(t: string)
  {
    t == [] || (!IsWhitespace(t[0]) && !IsWhitespace(t[|t| - 1]))
  }

  /** What Trim returns neither starts nor ends with whitespace. */
  lemma TrimIsTrimmed(s: string)
    ensures IsTrimmed(Trim(s))
  {
    var u := TrimStart(s);
    var r := TrimEnd(u);
    assert r != [] ==> r[0] == u[0];
  }

  lemma {:induction false} TrimStartRemovesWhitespace(s: string)
    ensures s == s[..|s| - |TrimStart(s)|] + TrimStart(s)
    ensures AllWhitespace(s[..|s| - |TrimStart(s)|])
  {
    var k := RunLength(s, IsWhitespace);
    assert s == s[..k] + s[k..];
    forall i | 0 <= i < k ensures IsWhitespace(s[..k][i]) {
      assert s[..k][i] == s[i];
    }
  }

  lemma {:induction false} TrimEndRemovesWhitespace(s: string)
    ensures s == TrimEnd(s) + s[|TrimEnd(s)|..]
    ensures AllWhitespace(s[|TrimEnd(s)|..])
  {
    var k := |s| - TrailingWhitespace(s);
    assert s == s[..k] + s[k..];
    forall i | 0 <= i < |s| - k ensures IsWhitespace(s[k..][i]) {
      assert s[k..][i] == s[k + i];
    }
  }

  /** Trim removes only whitespace, and only at the two ends. */
  lemma {:induction false} TrimRemovesWhitespace(s: string) returns (lead: string, trail: string)
    ensures s == lead + Trim(s) + trail
    ensures AllWhitespace(lead) && AllWhitespace(trail)
  {
    var u := TrimStart(s);
    TrimStartRemovesWhitespace(s);
    TrimEndRemovesWhitespace(u);
    lead, trail := s[..|s| - |u|], u[|TrimEnd(u)|..];
    assert s == lead + (Trim(s) + trail);
  }

  /** Whitespace around a trimmed text is exactly what Trim removes. */
  lemma TrimPadded(lead: string, t: string, trail: string)
    requires AllWhitespace(lead) && AllWhitespace(trail) && IsTrimmed(t)
    ensures Trim(lead + t + trail) == t
  {
    var s := lead + t + trail;
    var k := RunLength(s, IsWhitespace);
    if t == [] {
      assert AllWhitespace(s);
      assert k == |s|;
    } else {
      assert s[|lead|] == t[0];
      assert forall i :: 0 <= i < |lead| ==> s[i] == lead[i];
      assert k == |lead|;
      var u := s[k..];
      assert u == t + trail;
      var m := TrailingWhitespace(u);
      assert u[|t| - 1] == t[|t| - 1];
      assert forall i :: |t| <= i < |u| ==> u[i] == trail[i - |t|];
      assert m == |trail|;
      assert u[..|u| - m] == t;
    }
  }

  // ---------------------------------------------------------------- lines

  /** A line without the carriage return that preceded its line feed. */
  function StripCr(l: string): string
  {
    if |l| > 0 && l[|l| - 1] == '\r' then l[..|l| - 1] else l
  }

  /**
    `str::lines`: the text cut at each "\n", a '\r' right before a "\n" dropped, and no empty
    last line after a final "\n".
   */
  function Lines(s: string): (r: seq<string>)
    ensures forall k :: 0 <= k < |r| ==> '\n' !in r[k]
    decreases |s|
  {
    if s == [] then []
    else if '\n' !in s then [s]
    else
      var i := IndexOf(s, '\n');
      [StripCr(s[..i])] + Lines(s[i + 1..])
  }

  /** A carriage return right before a line feed is not part of the line. */
  lemma LinesOfCrLf(a: string, b: string)
    requires '\n' !in a
    ensures Lines(a + "\r\n" + b) == [a] + Lines(b)
  {
    var s := a + "\r\n" + b;
    assert s[|a| + 1] == '\n';
    assert forall k :: 0 <= k < |a| + 1 ==> s[k] != '\n';
    IndexOfIs(s, '\n', |a| + 1);
    assert s[..|a| + 1] == a + "\r";
    assert s[|a| + 2..] == b;
  }

  /** Each line followed by "\n". */
  function Unlines(ls: seq<string>): string
  {
    if ls == [] then [] else ls[0] + "\n" + Unlines(ls[1..])
  }

  /** Lines undoes Unlines for lines that hold no line feed and do not end in a carriage return. */
  lemma {:induction false} LinesOfUnlines(ls: seq<string>)
    requires forall k :: 0 <= k < |ls| ==> '\n' !in ls[k] && (ls[k] == [] || ls[k][|ls[k]| - 1] != '\r')
    ensures Lines(Unlines(ls)) == ls
  {
    if ls != [] {
      var s := Unlines(ls);
      var l := ls[0];
      assert s == l + ("\n" + Unlines(ls[1..]));
      assert s[|l|] == '\n';
      assert s[..|l|] == l;
      assert IndexOf(s, '\n') == |l|;
      assert s[|l| + 1..] == Unlines(ls[1..]);
      LinesOfUnlines(ls[1..]);
    }
  }

  /**
    Lines also undoes joining with "\n" when the last line is not empty (a text need not end in
    a line feed).
   */
  lemma {:induction false} LinesOfJoin(ls: seq<string>)
    requires |ls| > 0 && ls[|ls| - 1] != []
    requires forall k :: 0 <= k < |ls| ==> '\n' !in ls[k] && (ls[k] == [] || ls[k][|ls[k]| - 1] != '\r')
    ensures Lines(Join(ls, '\n')) == ls
  {
    var s := Join(ls, '\n');
    var l := ls[0];
    assert StripCr(l) == l;
    if |ls| == 1 {
      assert s == l && l != [] && '\n' !in s;
      assert Lines(s) == [l];
    } else {
      assert ls[1..][|ls| - 2] == ls[|ls| - 1];
      var rest := Join(ls[1..], '\n');
      assert s == l + ['\n'] + rest;
      assert s[|l|] == '\n';
      assert s[..|l|] == l;
      IndexOfIs(s, '\n', |l|);
      assert s[|l| + 1..] == rest;
      LinesOfJoin(ls[1..]);
      assert Lines(s) == [StripCr(s[..|l|])] + Lines(s[|l| + 1..]);
      assert [l] + ls[1..] == ls;
    }
  }
}
