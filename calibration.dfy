/**
  The trebuchet calibration puzzle (src/puzzle1.rs). Each line yields a two-digit value made of
  its first and its last digit, where a digit is either a numeral character or one of the ten
  English words for a digit; the answer is the sum of the line values.

  The code finds the first and the last numeral and, separately for each word, its first
  (`find`) and last (`rfind`) occurrence, and then picks whichever is earlier (later). A line
  without any numeral makes the code panic even when it spells out a digit; here that line
  has no value (`None`).
 */
module Calibration {
  import opened Wrappers
  import opened Text

  const U32Max: nat := 0xFFFF_FFFF

  /** The spelled-out digits; the word at index d names the digit d. */
  const DigitWords: seq<string> :=
    ["zero", "one", "two", "three", "four", "five", "six", "seven", "eight", "nine"]

  /** The word for digit d starts at index i of l. */
  predicate WordAt(l: string, d: nat, i: int)
  {
    d < 10 && OccursAt(l, DigitWords[d], i)
  }

  /** No word is a prefix of another, so at most one word starts at any index. */
  lemma WordAtUnique(l: string, d: nat, e: nat, i: int)
    requires WordAt(l, d, i) && WordAt(l, e, i)
    ensures d == e
  {
    var w, v := DigitWords[d], DigitWords[e];
    assert w[0] == l[i] == v[0] by {
      assert l[i..i + |w|][0] == l[i] && l[i..i + |v|][0] == l[i];
    }
    assert w[1] == l[i + 1] == v[1] by {
      assert l[i..i + |w|][1] == l[i + 1] && l[i..i + |v|][1] == l[i + 1];
    }
  }

  /** Every word starts with a letter, so no word starts where a numeral stands. */
  lemma WordAtIsNotNumeral(l: string, d: nat, i: int)
    requires WordAt(l, d, i)
    ensures !IsAsciiDigit(l[i])
  {
    assert l[i..i + |DigitWords[d]|][0] == l[i];
  }

  /** The line contains a numeral character; the code panics on a line that does not. */
  predicate HasNumeral(l: string)
  {
    exists i :: 0 <= i < |l| && IsAsciiDigit(l[i])
  }

  // ---------------------------------------------------------------- what the code does

  /** The index of the first numeral at or after i (`chars().position(is_numeric)`). */
  function NumeralFrom(l: string, i: nat): (r: Option<nat>)
    ensures r.Some? ==> i <= r.value < |l| && IsAsciiDigit(l[r.value])
    ensures r.Some? ==> forall j :: i <= j < r.value ==> !IsAsciiDigit(l[j])
    ensures r.None? ==> forall j :: i <= j < |l| ==> !IsAsciiDigit(l[j])
    decreases |l| - i
  {
    if i >= |l| then None
    else if IsAsciiDigit(l[i]) then Some(i)
    else NumeralFrom(l, i + 1)
  }

  function FirstNumeral(l: string): Option<nat>
  {
    NumeralFrom(l, 0)
  }

  /**
    The position, counted from the end of l, of the first numeral met when reading l backwards
    and skipping its last k characters (`chars().rev().position(is_numeric)` for k = 0).
   */
  function NumeralBack(l: string, k: nat): (r: Option<nat>)
    ensures r.Some? ==> k <= r.value < |l| && IsAsciiDigit(l[|l| - 1 - r.value])
    ensures r.Some? ==> forall j :: |l| - 1 - r.value < j < |l| - k ==> !IsAsciiDigit(l[j])
    ensures r.None? ==> forall j :: 0 <= j < |l| - k ==> !IsAsciiDigit(l[j])
    decreases |l| - k
  {
    if k >= |l| then None
    else if IsAsciiDigit(l[|l| - 1 - k]) then Some(k)
    else NumeralBack(l, k + 1)
  }

  /** The earliest occurrence, as (index, digit), among the words for d, d + 1, ..., 9. */
  function EarliestWord(l: string, d: nat): (r: Option<(nat, nat)>)
    requires d <= 10
    ensures r.Some? ==> d <= r.value.1 && WordAt(l, r.value.1, r.value.0)
    ensures r.Some? ==> forall e, i :: d <= e && 0 <= i < r.value.0 ==> !WordAt(l, e, i)
    ensures r.None? ==> forall e, i :: d <= e ==> !WordAt(l, e, i)
    decreases 10 - d
  {
    if d == 10 then None
    else
      var rest := EarliestWord(l, d + 1);
      match Find(l, DigitWords[d])
      case None => rest
      case Some(p) => if rest.Some? && rest.value.0 < p then rest else Some((p, d))
  }

  /** The latest occurrence, as (index, digit), among the words for d, d + 1, ..., 9. */
  function LatestWord(l: string, d: nat): (r: Option<(nat, nat)>)
    requires d <= 10
    ensures r.Some? ==> d <= r.value.1 && WordAt(l, r.value.1, r.value.0)
    ensures r.Some? ==> forall e, i :: d <= e && r.value.0 < i ==> !WordAt(l, e, i)
    ensures r.None? ==> forall e, i :: d <= e ==> !WordAt(l, e, i)
    decreases 10 - d
  {
    if d == 10 then None
    else
      var rest := LatestWord(l, d + 1);
      match RFind(l, DigitWords[d])
      case None => rest
      case Some(p) => if rest.Some? && rest.value.0 > p then rest else Some((p, d))
  }

  /** The first digit of a line: the first numeral unless a word starts earlier. */
  function FirstDigit(l: string): (r: Option<nat>)
  {
    match FirstNumeral(l)
    case None => None
    case Some(np) =>
      match EarliestWord(l, 0)
      case Some((wp, d)) => if np < wp then Some(DigitValue(l[np])) else Some(d)
      case None => Some(DigitValue(l[np]))
  }

  /** The last digit of a line: the last numeral unless a word starts later. */
  function LastDigit(l: string): (r: Option<nat>)
  {
    match NumeralBack(l, 0)
    case None => None
    case Some(back) =>
      match LatestWord(l, 0)
      case Some((wp, d)) =>
        if |l| - 1 - back > wp then Some(DigitValue(l[|l| - 1 - back])) else Some(d)
      case None => Some(DigitValue(l[|l| - 1 - back]))
  }

  /**
    The number written with the digits f and then g, as the code obtains it: the two digits
    formatted side by side and parsed as a `u32`.
   */
  function ShownValue(f: nat, g: nat): (r: nat)
    requires f < 10 && g < 10
    ensures r == 10 * f + g
  {
    var shown := [DigitChar(f), DigitChar(g)];
    DecimalValueAppend([], DigitChar(f));
    DecimalValueAppend([DigitChar(f)], DigitChar(g));
    assert [DigitChar(f)] + [DigitChar(g)] == shown;
    ParseUnsigned(shown, U32Max).value
  }

  /**
    The value of a line: its first and its last digit written side by side; `None` where the
    code panics, that is for a line without a numeral.
   */
  function LineValue(l: string): (r: Option<nat>)
    ensures r.None? <==> !HasNumeral(l)
    ensures r.Some? ==> FirstDigit(l).Some? && LastDigit(l).Some?
    ensures r.Some? ==> r.value == 10 * FirstDigit(l).value + LastDigit(l).value
  {
    var first, last := FirstDigit(l), LastDigit(l);
    assert first.Some? <==> last.Some? by {
      NumeralsFromBothEnds(l);
    }
    if first.Some? && last.Some? then Some(ShownValue(first.value, last.value)) else None
  }

  /** A line has a first numeral exactly when, read backwards, it has one. */
  lemma NumeralsFromBothEnds(l: string)
    ensures FirstNumeral(l).Some? <==> NumeralBack(l, 0).Some?
    ensures FirstNumeral(l).None? <==> !HasNumeral(l)
  {
  }

  /** The value of each line (the first `map` of the code). */
  function LineValues(ls: seq<string>): (r: seq<Option<nat>>)
    ensures |r| == |ls| && forall i :: 0 <= i < |ls| ==> r[i] == LineValue(ls[i])
  {
    seq(|ls|, i requires 0 <= i < |ls| => LineValue(ls[i]))
  }

  /** The sum of the values (`unwrap` then `sum`); `None` as soon as one value is missing. */
  function Sum(vs: seq<Option<nat>>): (r: Option<nat>)
    ensures r.None? <==> exists k :: 0 <= k < |vs| && vs[k].None?
  {
    if vs == [] then Some(0)
    else
      var rest := Sum(vs[1..]);
      if vs[0].Some? && rest.Some? then Some(vs[0].value + rest.value) else None
  }

  /**
    The puzzle answer for an input text, a `u32`: `None` where the code panics, that is when
    some line has no numeral or when the sum of the values overflows a `u32` (the values are
    never negative, so the running sum overflows exactly when the full sum does).
   */
  function Answer(input: string): (r: Option<nat>)
    ensures (exists l :: l in Lines(input) && !HasNumeral(l)) ==> r.None?
    ensures (forall l :: l in Lines(input) ==> HasNumeral(l)) ==>
      Sum(LineValues(Lines(input))).Some? && (r.None? <==> Sum(LineValues(Lines(input))).value > U32Max)
    ensures r.Some? ==> r.value <= U32Max
  {
    var ls := Lines(input);
    var vs := LineValues(ls);
    assert forall k :: 0 <= k < |ls| ==> (vs[k].None? <==> !HasNumeral(ls[k]));
    match Sum(vs)
    case None => None
    case Some(total) => if total > U32Max then None else Some(total)
  }

  /** The sum over a split list of values is the sum of the sums of its parts. */
  lemma {:induction false} SumAppend(a: seq<Option<nat>>, b: seq<Option<nat>>)
    requires Sum(a).Some? && Sum(b).Some?
    ensures Sum(a + b).Some? && Sum(a + b).value == Sum(a).value + Sum(b).value
  {
    if a != [] {
      assert (a + b)[0] == a[0] && (a + b)[1..] == a[1..] + b;
      SumAppend(a[1..], b);
    } else {
      assert a + b == b;
    }
  }

  // ---------------------------------------------------------------- the digit tokens of a line

  /** The digit named at index i by a word, trying the words for d, d + 1, ..., 9. */
  function WordDigitAt(l: string, i: nat, d: nat): (r: Option<nat>)
    requires d <= 10
    ensures r.Some? ==> d <= r.value && WordAt(l, r.value, i)
    ensures r.None? ==> forall e :: d <= e ==> !WordAt(l, e, i)
    decreases 10 - d
  {
    if d == 10 then None
    else if WordAt(l, d, i) then Some(d)
    else WordDigitAt(l, i, d + 1)
  }

  /** The digit token that starts at index i of l, if any: a numeral or a spelled-out word. */
  function TokenAt(l: string, i: nat): Option<nat>
    requires i < |l|
  {
    if IsAsciiDigit(l[i]) then Some(DigitValue(l[i])) else WordDigitAt(l, i, 0)
  }

  /** The digit of the first token at or after index i. */
  function FirstTokenFrom(l: string, i: nat): Option<nat>
    decreases |l| - i
  {
    if i >= |l| then None
    else if TokenAt(l, i).Some? then TokenAt(l, i)
    else FirstTokenFrom(l, i + 1)
  }

  /** The digit of the last token below index n. */
  function LastTokenBelow(l: string, n: nat): Option<nat>
    requires n <= |l|
  {
    if n == 0 then None
    else if TokenAt(l, n - 1).Some? then TokenAt(l, n - 1)
    else LastTokenBelow(l, n - 1)
  }

  lemma WordGivesToken(l: string, d: nat, i: nat)
    requires i < |l| && WordAt(l, d, i)
    ensures TokenAt(l, i) == Some(d)
  {
    WordAtIsNotNumeral(l, d, i);
    var r := WordDigitAt(l, i, 0);
    WordAtUnique(l, d, r.value, i);
  }

  lemma {:induction false} FirstTokenIs(l: string, i: nat, t: nat)
    requires i <= t < |l| && TokenAt(l, t).Some?
    requires forall j :: i <= j < t ==> TokenAt(l, j).None?
    ensures FirstTokenFrom(l, i) == TokenAt(l, t)
    decreases t - i
  {
    if i < t {
      FirstTokenIs(l, i + 1, t);
    }
  }

  lemma {:induction false} LastTokenIs(l: string, n: nat, t: nat)
    requires t < n <= |l| && TokenAt(l, t).Some?
    requires forall j :: t < j < n ==> TokenAt(l, j).None?
    ensures LastTokenBelow(l, n) == TokenAt(l, t)
  {
    if t < n - 1 {
      LastTokenIs(l, n - 1, t);
    }
  }

  /** Where neither a numeral nor a word starts, there is no token. */
  lemma NoTokenAt(l: string, j: nat)
    requires j < |l| && !IsAsciiDigit(l[j]) && forall e :: !WordAt(l, e, j)
    ensures TokenAt(l, j).None?
  {
  }

  /**
    The code's choice of the first digit is the first digit token of the line: the earlier of
    the first numeral and the first word, as the selection rule of the puzzle asks.
   */
  lemma FirstDigitIsFirstToken(l: string)
    requires HasNumeral(l)
    ensures FirstDigit(l) == FirstTokenFrom(l, 0)
  {
    var t := FirstDigitStart(l);
    forall j | 0 <= j < t ensures TokenAt(l, j).None? {
      NoTokenAt(l, j);
    }
    FirstTokenIs(l, 0, t);
  }

  /** The index at which the code's first digit starts; nothing before it starts a digit. */
  lemma FirstDigitStart(l: string) returns (t: nat)
    requires HasNumeral(l)
    ensures t < |l| && TokenAt(l, t).Some? && FirstDigit(l) == TokenAt(l, t)
    ensures forall j :: 0 <= j < t ==> !IsAsciiDigit(l[j])
    ensures forall e, j :: 0 <= j < t ==> !WordAt(l, e, j)
  {
    var np := FirstNumeral(l).value;
    var word := EarliestWord(l, 0);
    if word.Some? && word.value.0 <= np {
      t := word.value.0;
      WordGivesToken(l, word.value.1, t);
      FirstDigitIsWord(l, np);
    } else {
      t := np;
      FirstDigitIsNumeral(l, np);
    }
  }

  lemma FirstDigitIsNumeral(l: string, np: nat)
    requires FirstNumeral(l) == Some(np)
    requires EarliestWord(l, 0).None? || np < EarliestWord(l, 0).value.0
    ensures FirstDigit(l) == TokenAt(l, np)
  {
  }

  lemma FirstDigitIsWord(l: string, np: nat)
    requires FirstNumeral(l) == Some(np)
    requires EarliestWord(l, 0).Some? && EarliestWord(l, 0).value.0 <= np
    ensures FirstDigit(l) == Some(EarliestWord(l, 0).value.1)
  {
  }

  /**
    The code's choice of the last digit is the last digit token of the line: the later of the
    last numeral and the last word.
   */
  lemma LastDigitIsLastToken(l: string)
    requires HasNumeral(l)
    ensures LastDigit(l) == LastTokenBelow(l, |l|)
  {
    var t := LastDigitStart(l);
    LastTokenAt(l, t);
  }

  /** The index at which the code's last digit starts; nothing after it starts a digit. */
  lemma LastDigitStart(l: string) returns (t: nat)
    requires HasNumeral(l)
    ensures t < |l| && TokenAt(l, t).Some? && LastDigit(l) == TokenAt(l, t)
    ensures forall j :: t < j < |l| ==> !IsAsciiDigit(l[j])
    ensures forall e, j :: t < j ==> !WordAt(l, e, j)
  {
    var np := |l| - 1 - NumeralBack(l, 0).value;
    var word := LatestWord(l, 0);
    if word.Some? && np <= word.value.0 {
      t := word.value.0;
      WordGivesToken(l, word.value.1, t);
      LastDigitIsWord(l, np);
    } else {
      t := np;
      LastDigitIsNumeral(l, np);
    }
  }

  lemma LastDigitIsNumeral(l: string, np: nat)
    requires NumeralBack(l, 0).Some? && np == |l| - 1 - NumeralBack(l, 0).value
    requires LatestWord(l, 0).None? || LatestWord(l, 0).value.0 < np
    ensures LastDigit(l) == TokenAt(l, np)
  {
  }

  lemma LastDigitIsWord(l: string, np: nat)
    requires NumeralBack(l, 0).Some? && np == |l| - 1 - NumeralBack(l, 0).value
    requires LatestWord(l, 0).Some? && np <= LatestWord(l, 0).value.0
    ensures LastDigit(l) == Some(LatestWord(l, 0).value.1)
  {
  }

  /** A token with neither a numeral nor a word after it is the last token of the line. */
  lemma LastTokenAt(l: string, t: nat)
    requires t < |l| && TokenAt(l, t).Some?
    requires forall j :: t < j < |l| ==> !IsAsciiDigit(l[j])
    requires forall e, j :: t < j ==> !WordAt(l, e, j)
    ensures LastTokenBelow(l, |l|) == TokenAt(l, t)
  {
    forall j | t < j < |l| ensures TokenAt(l, j).None? {
      NoTokenAt(l, j);
    }
    LastTokenIs(l, |l|, t);
  }

  /** A line that has a numeral is worth ten times its first token plus its last token. */
  lemma LineValueOfTokens(l: string)
    requires HasNumeral(l)
    ensures FirstTokenFrom(l, 0).Some? && LastTokenBelow(l, |l|).Some?
    ensures LineValue(l).Some?
    ensures LineValue(l).value == 10 * FirstTokenFrom(l, 0).value + LastTokenBelow(l, |l|).value
  {
    FirstDigitIsFirstToken(l);
    LastDigitIsLastToken(l);
  }

  /** The sum, over lines that all have a numeral, of ten times the first token plus the last. */
  function TokenSum(ls: seq<string>): nat
    requires forall l :: l in ls ==> HasNumeral(l)
  {
    if ls == [] then 0
    else
      LineValueOfTokens(ls[0]);
      10 * FirstTokenFrom(ls[0], 0).value + LastTokenBelow(ls[0], |ls[0]|).value + TokenSum(ls[1..])
  }

  /** When every line has a numeral, the answer is the sum of the token values of the lines. */
  lemma {:induction false} SumOfLineValues(ls: seq<string>)
    requires forall l :: l in ls ==> HasNumeral(l)
    ensures Sum(LineValues(ls)).Some? && Sum(LineValues(ls)).value == TokenSum(ls)
  {
    if ls != [] {
      LineValueOfTokens(ls[0]);
      assert LineValues(ls)[1..] == LineValues(ls[1..]);
      SumOfLineValues(ls[1..]);
    }
  }

  lemma AnswerIsTokenSum(input: string)
    requires forall l :: l in Lines(input) ==> HasNumeral(l)
    ensures Answer(input).Some? <==> TokenSum(Lines(input)) <= U32Max
    ensures Answer(input).Some? ==> Answer(input).value == TokenSum(Lines(input))
  {
    SumOfLineValues(Lines(input));
  }

  // ---------------------------------------------------------------- examples

  /** The words map to their digits, "zero" to 0. */
  lemma WordDigits()
    ensures forall d :: 0 <= d < 10 ==> WordDigitAt(DigitWords[d], 0, 0) == Some(d)
  {
    forall d | 0 <= d < 10 ensures WordDigitAt(DigitWords[d], 0, 0) == Some(d) {
      var w := DigitWords[d];
      assert WordAt(w, d, 0) by { assert w[0..|w|] == w; }
      WordAtUnique(w, d, WordDigitAt(w, 0, 0).value, 0);
    }
  }

  /** Each word is at least three letters long and starts with one of z, o, t, f, s, e, n. */
  lemma WordShape(l: string, e: nat, i: int)
    requires WordAt(l, e, i)
    ensures i + 3 <= |l| && l[i] in "zotfsen"
  {
    assert l[i..i + |DigitWords[e]|][0] == l[i];
  }

  /** A word that starts before every other word is the one the code finds first. */
  lemma EarliestWordIs(l: string, d: nat, p: nat)
    requires WordAt(l, d, p)
    requires forall e, i :: 0 <= i < p ==> !WordAt(l, e, i)
    ensures EarliestWord(l, 0) == Some((p, d))
  {
    var r := EarliestWord(l, 0).value;
    WordAtUnique(l, d, r.1, p);
  }

  /** A word that starts after every other word is the one the code finds last. */
  lemma LatestWordIs(l: string, d: nat, p: nat)
    requires WordAt(l, d, p)
    requires forall e, i :: p < i ==> !WordAt(l, e, i)
    ensures LatestWord(l, 0) == Some((p, d))
  {
    var r := LatestWord(l, 0).value;
    WordAtUnique(l, d, r.1, p);
  }

  /** Overlapping words both count: in "oneight", "one" is the first word found... */
  lemma OverlapFirstWord()
    ensures EarliestWord("oneight", 0) == Some((0, 1))
  {
    var l := "oneight";
    assert WordAt(l, 1, 0) by { assert l[0..3] == "one"; }
    EarliestWordIs(l, 1, 0);
  }

  /** ... and "eight", which shares its first letter with "one", is the last. */
  lemma OverlapLastWord()
    ensures LatestWord("oneight", 0) == Some((2, 8))
  {
    var l := "oneight";
    assert WordAt(l, 8, 2) by { assert l[2..7] == "eight"; }
    forall e, i | 2 < i ensures !WordAt(l, e, i) {
      if WordAt(l, e, i) { WordShape(l, e, i); }
    }
    LatestWordIs(l, 8, 2);
  }

  /** Without a numeral the overlapping words are not enough: the code panics. */
  lemma WordsWithoutNumeral()
    ensures LineValue("oneight") == None
  {
    var l := "oneight";
    assert !HasNumeral(l);
  }
}
