/**
  The scratchcards puzzle (src/puzzle4.rs). A card reads "Card 1: 41 48 83 86 17 | 83 86  6 31 17":
  a label, then the winning numbers and, after '|', the numbers the player owns. A card scores
  nothing when none of the owned numbers wins, and otherwise 1 point doubled once for every
  winning owned number after the first.

  The regular expression `(\d+)` that picks the numbers out of each half is modelled by its
  matches on ASCII text, the maximal runs of digits (Text.Runs).
 */
module Scratchcards {
  import opened Wrappers
  import opened Text

  const U32Max: nat := 0xFFFF_FFFF

  /** A card: its id (always 0 when parsed), its winning numbers and the numbers owned. */
  datatype Scratchcard = Scratchcard(id: nat, winningNumbers: seq<nat>, owningNumbers: seq<nat>)

  datatype ScratchcardError = ScratchcardError(message: string)

  const NumbersError: string := "Can't parse numbers from scratchcard string."
  const CardError: string := "Can't parse scratchcard string."
  const CardNumbersError: string := "Can't parse scratchcard numbers."

  predicate FitsU32(ns: seq<nat>) { forall k :: 0 <= k < |ns| ==> ns[k] <= U32Max }

  // ---------------------------------------------------------------- numbers

  /**
    Each digit run as a u32, left to right, stopping at the first run too large for a u32;
    every failure carries the same message.
   */
  function ParseRuns(runs: seq<string>): (r: Result<seq<nat>, ScratchcardError>)
    requires forall k :: 0 <= k < |runs| ==> |runs[k]| > 0 && AllDigits(runs[k])
    ensures r.Ok? <==> forall k :: 0 <= k < |runs| ==> DecimalValue(runs[k]) <= U32Max
    ensures r.Ok? ==> |r.value| == |runs| && forall k :: 0 <= k < |runs| ==> r.value[k] == DecimalValue(runs[k])
    ensures r.Err? ==> r.error == ScratchcardError(NumbersError)
  {
    if runs == [] then Ok([])
    else
      ParseUnsignedOfDigits(runs[0], U32Max);
      assert forall k :: 1 <= k < |runs| ==> runs[1..][k - 1] == runs[k];
      match ParseUnsigned(runs[0], U32Max)
      case None => Err(ScratchcardError(NumbersError))
      case Some(n) =>
        match ParseRuns(runs[1..])
        case Err(e) => Err(e)
        case Ok(ns) => Ok([n] + ns)
  }

  /**
    `Scratchcard::parse_numbers_string`: the numbers written in the text, that is the values of
    its maximal digit runs; an error when one of them does not fit in a u32.
   */
  function ParseNumbersString(text: string): (r: Result<seq<nat>, ScratchcardError>)
    ensures r.Ok? ==> FitsU32(r.value)
    ensures r.Ok? <==> forall k :: 0 <= k < |Runs(text, IsAsciiDigit)| ==>
                          DecimalValue(Runs(text, IsAsciiDigit)[k]) <= U32Max
    ensures r.Ok? ==> |r.value| == |Runs(text, IsAsciiDigit)|
    ensures r.Ok? ==> forall k :: 0 <= k < |r.value| ==> r.value[k] == DecimalValue(Runs(text, IsAsciiDigit)[k])
    ensures r.Err? ==> r.error == ScratchcardError(NumbersError)
  {
    var runs := Runs(text, IsAsciiDigit);
    var r := ParseRuns(runs);
    assert r.Ok? ==> |r.value| == |runs| && forall k :: 0 <= k < |runs| ==> r.value[k] == DecimalValue(runs[k]);
    r
  }

  /** Numbers that fit in a u32, written with any gaps, read back as themselves. */
  lemma ParseSpaced(ns: seq<nat>, gaps: seq<string>)
    requires |gaps| == |ns| && forall k :: 0 <= k < |gaps| ==> IsGap(gaps[k])
    requires FitsU32(ns)
    ensures ParseNumbersString(Spaced(ns, gaps)) == Ok(ns)
  {
    var runs := Runs(Spaced(ns, gaps), IsAsciiDigit);
    RunsOfSpaced(ns, gaps, IsAsciiDigit);
    forall k | 0 <= k < |runs|
      ensures DecimalValue(runs[k]) == ns[k]
    {
      DecimalValueOfToDecimal(ns[k]);
    }
    var r := ParseRuns(runs);
    assert r.Ok?;
    assert r.value == ns;
  }

  /** A number too large for a u32 among the written ones makes the whole list an error. */
  lemma ParseSpacedOverflow(ns: seq<nat>, gaps: seq<string>, k: nat)
    requires |gaps| == |ns| && forall j :: 0 <= j < |gaps| ==> IsGap(gaps[j])
    requires k < |ns| && ns[k] > U32Max
    ensures ParseNumbersString(Spaced(ns, gaps)) == Err(ScratchcardError(NumbersError))
  {
    RunsOfSpaced(ns, gaps, IsAsciiDigit);
    DecimalValueOfToDecimal(ns[k]);
  }

  // ---------------------------------------------------------------- score

  /** How many positions of owning hold a winning number; repeated owned numbers each count. */
  function Matches(winning: seq<nat>, owning: seq<nat>): (k: nat)
    ensures k <= |owning|
    ensures k == 0 <==> forall i :: 0 <= i < |owning| ==> owning[i] !in winning
    ensures k == |owning| <==> forall i :: 0 <= i < |owning| ==> owning[i] in winning
  {
    if owning == [] then 0
    else (if owning[0] in winning then 1 else 0) + Matches(winning, owning[1..])
  }

  function Pow2(n: nat): (r: nat)
    ensures r >= 1
  {
    if n == 0 then 1 else 2 * Pow2(n - 1)
  }

  lemma {:induction false} Pow2Monotone(m: nat, n: nat)
    requires m <= n
    ensures Pow2(m) <= Pow2(n)
  {
    if m < n {
      Pow2Monotone(m, n - 1);
    }
  }

  lemma {:induction false} Pow2Add(a: nat, b: nat)
    ensures Pow2(a + b) == Pow2(a) * Pow2(b)
  {
    if a > 0 {
      Pow2Add(a - 1, b);
      assert Pow2(a + b) == 2 * Pow2(a - 1 + b);
    }
  }

  lemma Pow2At32()
    ensures Pow2(31) == 0x8000_0000 && Pow2(32) == 0x1_0000_0000
  {
    assert Pow2(4) == 16;
    Pow2Add(4, 4);
    Pow2Add(8, 8);
    Pow2Add(16, 16);
    assert Pow2(32) == 2 * Pow2(31);
  }

  /** 2 to the power n fits in a u32 exactly when n < 32. */
  lemma Pow2Bound(n: nat)
    ensures n < 32 ==> Pow2(n) <= 0x8000_0000
    ensures n >= 32 ==> Pow2(n) >= 0x1_0000_0000
  {
    Pow2At32();
    if n < 32 {
      Pow2Monotone(n, 31);
    } else {
      Pow2Monotone(32, n);
    }
  }

  /**
    `Scratchcard::get_score`: 0 when no owned number wins, otherwise 2 to the power of one less
    than the number of winning owned numbers. More than 32 of them overflow the u32 power,
    which panics; the precondition excludes it.
   */
  function Score(card: Scratchcard): (r: nat)
    requires Matches(card.winningNumbers, card.owningNumbers) <= 32
    ensures r <= U32Max
    ensures r == 0 <==> forall i :: 0 <= i < |card.owningNumbers| ==> card.owningNumbers[i] !in card.winningNumbers
  {
    var k := Matches(card.winningNumbers, card.owningNumbers);
    Pow2Bound(if k > 0 then k - 1 else 0);
    if k > 0 then Pow2(k - 1) else 0
  }

  /** An owned number added at the end counts exactly when it wins. */
  lemma {:induction false} MatchesAppend(winning: seq<nat>, owning: seq<nat>, x: nat)
    ensures Matches(winning, owning + [x]) == Matches(winning, owning) + (if x in winning then 1 else 0)
  {
    if owning == [] {
      assert owning + [x] == [x];
      assert [x][1..] == [];
    } else {
      assert (owning + [x])[1..] == owning[1..] + [x];
      MatchesAppend(winning, owning[1..], x);
    }
  }

  /** A winning number added to the owned ones doubles a positive score; any other leaves it. */
  lemma ScoreAppend(card: Scratchcard, x: nat)
    requires Matches(card.winningNumbers, card.owningNumbers) < 32
    ensures Matches(card.winningNumbers, card.owningNumbers + [x]) <= 32
    ensures x !in card.winningNumbers ==>
      Score(card.(owningNumbers := card.owningNumbers + [x])) == Score(card)
    ensures x in card.winningNumbers && Score(card) > 0 ==>
      Score(card.(owningNumbers := card.owningNumbers + [x])) == 2 * Score(card)
    ensures x in card.winningNumbers && Score(card) == 0 ==>
      Score(card.(owningNumbers := card.owningNumbers + [x])) == 1
  {
    MatchesAppend(card.winningNumbers, card.owningNumbers, x);
  }

  /** Removing position i takes away exactly what that position contributed. */
  lemma {:induction false} MatchesRemove(winning: seq<nat>, owning: seq<nat>, i: nat)
    requires i < |owning|
    ensures Matches(winning, owning)
      == (if owning[i] in winning then 1 else 0) + Matches(winning, owning[..i] + owning[i + 1..])
  {
    if i > 0 {
      var rest := owning[..i] + owning[i + 1..];
      MatchesRemove(winning, owning[1..], i - 1);
      assert rest[0] == owning[0];
      assert rest[1..] == owning[1..][..i - 1] + owning[1..][i..];
    } else {
      assert owning[..i] + owning[i + 1..] == owning[1..];
    }
  }

  /** Only which numbers are owned, and how often, matters: the order of owning does not. */
  lemma {:induction false} MatchesPermutation(winning: seq<nat>, owning: seq<nat>, other: seq<nat>)
    requires multiset(owning) == multiset(other)
    ensures Matches(winning, owning) == Matches(winning, other)
  {
    if owning != [] {
      var x := owning[0];
      assert x in multiset(other);
      var i :| 0 <= i < |other| && other[i] == x;
      var rest := other[..i] + other[i + 1..];
      assert other == other[..i] + [x] + other[i + 1..];
      assert owning == [x] + owning[1..];
      assert multiset(other) == multiset(other[..i]) + multiset([x]) + multiset(other[i + 1..]);
      assert multiset(owning) == multiset([x]) + multiset(owning[1..]);
      assert multiset(rest) == multiset(other[..i]) + multiset(other[i + 1..]);
      forall y
        ensures multiset(owning[1..])[y] == multiset(rest)[y]
      {
        assert multiset(owning)[y] == multiset(other)[y];
      }
      assert multiset(owning[1..]) == multiset(rest);
      MatchesRemove(winning, other, i);
      MatchesPermutation(winning, owning[1..], rest);
    } else {
      assert |other| == 0;
    }
  }

  /** The score of a card does not depend on the order of its owned numbers. */
  lemma ScorePermutation(card: Scratchcard, other: seq<nat>)
    requires multiset(card.owningNumbers) == multiset(other)
    requires Matches(card.winningNumbers, card.owningNumbers) <= 32
    ensures Matches(card.winningNumbers, other) <= 32
    ensures Score(card.(owningNumbers := other)) == Score(card)
  {
    MatchesPermutation(card.winningNumbers, card.owningNumbers, other);
  }

  /** An owned number that occurs twice counts twice. */
  lemma RepeatedOwnedNumberCountsTwice()
    ensures Matches([5], [5, 5]) == 2
    ensures Score(Scratchcard(0, [5], [5, 5])) == 2
  {
  }

  // ---------------------------------------------------------------- cards

  /**
    `TryFrom<&str> for Scratchcard`: the text after the first ':' is cut at its first '|' into
    the winning and the owned numbers. The label before ':' is not read, so the id is 0.
   */
  function ParseScratchcard(value: string): (r: Result<Scratchcard, ScratchcardError>)
    ensures ':' !in value ==> r == Err(ScratchcardError(CardError))
    ensures r.Ok? ==> r.value.id == 0 && FitsU32(r.value.winningNumbers) && FitsU32(r.value.owningNumbers)
    ensures r.Err? ==> r.error.message in [CardError, CardNumbersError, NumbersError]
  {
    match SplitOnce(value, ":")
    case None => Err(ScratchcardError(CardError))
    case Some((_, numbers)) =>
      match SplitOnce(numbers, "|")
      case None => Err(ScratchcardError(CardNumbersError))
      case Some((winningText, owningText)) =>
        var winning := ParseNumbersString(winningText);
        var owning := ParseNumbersString(owningText);
        if winning.Err? then Err(winning.error)
        else if owning.Err? then Err(owning.error)
        else Ok(Scratchcard(0, winning.value, owning.value))
  }

  /** Text after the first ':' without a '|' is the "numbers" error. */
  lemma ParseCardWithoutBar(heading: string, rest: string)
    requires ':' !in heading && '|' !in rest
    ensures ParseScratchcard(heading + ":" + rest) == Err(ScratchcardError(CardNumbersError))
  {
    SplitOnceAtChar(heading, ':', rest);
    forall j | 0 <= j
      ensures !OccursAt(rest, "|", j)
    {
      if j < |rest| {
        assert rest[j..j + 1][0] == rest[j];
      }
    }
  }

  /** A card written with its label, its winning numbers, " |" and its owned numbers. */
  function CardText(heading: string, winning: seq<nat>, winningGaps: seq<string>,
                    owning: seq<nat>, owningGaps: seq<string>): string
    requires |winningGaps| == |winning| && forall k :: 0 <= k < |winningGaps| ==> IsGap(winningGaps[k])
    requires |owningGaps| == |owning| && forall k :: 0 <= k < |owningGaps| ==> IsGap(owningGaps[k])
  {
    heading + ":" + (Spaced(winning, winningGaps) + " ") + "|" + Spaced(owning, owningGaps)
  }

  /**
    Once the label (without ':') and the winning text (without '|') are cut off, the card is
    whatever the two number lists give, the winning side's error first.
   */
  lemma ParseCardParts(heading: string, winningText: string, owningText: string)
    requires ':' !in heading && '|' !in winningText
    ensures ParseNumbersString(winningText).Err? ==>
      ParseScratchcard(heading + ":" + winningText + "|" + owningText) == Err(ParseNumbersString(winningText).error)
    ensures ParseNumbersString(winningText).Ok? && ParseNumbersString(owningText).Err? ==>
      ParseScratchcard(heading + ":" + winningText + "|" + owningText) == Err(ParseNumbersString(owningText).error)
    ensures ParseNumbersString(winningText).Ok? && ParseNumbersString(owningText).Ok? ==>
      ParseScratchcard(heading + ":" + winningText + "|" + owningText)
        == Ok(Scratchcard(0, ParseNumbersString(winningText).value, ParseNumbersString(owningText).value))
  {
    var numbers := winningText + "|" + owningText;
    assert heading + ":" + winningText + "|" + owningText == heading + [':'] + numbers;
    SplitOnceAtChar(heading, ':', numbers);
    SplitOnceAtChar(winningText, '|', owningText);
  }

  /** Reading a written card gives id 0 and the two lists of numbers back. */
  lemma ParseCardText(heading: string, winning: seq<nat>, winningGaps: seq<string>,
                      owning: seq<nat>, owningGaps: seq<string>)
    requires |winningGaps| == |winning| && forall k :: 0 <= k < |winningGaps| ==> IsGap(winningGaps[k])
    requires |owningGaps| == |owning| && forall k :: 0 <= k < |owningGaps| ==> IsGap(owningGaps[k])
    requires ':' !in heading && FitsU32(winning) && FitsU32(owning)
    ensures ParseScratchcard(CardText(heading, winning, winningGaps, owning, owningGaps))
      == Ok(Scratchcard(0, winning, owning))
  {
    var w := Spaced(winning, winningGaps);
    var o := Spaced(owning, owningGaps);
    assert '|' !in w + " " by {
      assert forall i :: 0 <= i < |w| ==> w[i] == ' ' || IsAsciiDigit(w[i]);
      assert (w + " ")[|w|] == ' ';
    }
    ParseSpaced(winning, winningGaps);
    ParseSpaced(owning, owningGaps);
    WrittenRunsThenSpace(w);
    assert ParseNumbersString(w + " ") == ParseNumbersString(w);
    ParseCardParts(heading, w + " ", o);
  }

  /** A trailing space adds no run. */
  lemma WrittenRunsThenSpace(t: string)
    ensures Runs(t + " ", IsAsciiDigit) == Runs(t, IsAsciiDigit)
  {
    RunsSeparated(t, ' ', [], IsAsciiDigit);
    assert t + " " == t + [' '] + [];
    RunsOfSeparators([], IsAsciiDigit);
  }

  /**
    The module's test: the card "Card 1: 41 48 83 86 17 | 83 86  6 31 17  9 48 53" parses, with
    id 0 and its two lists of numbers.
   */
  lemma SampleCardParses(card: string)
    requires card == "Card 1" + ":" + (" 41" + (" 48" + (" 83" + (" 86" + (" 17" + [])))) + " ") + "|"
                     + (" 83" + (" 86" + ("  6" + (" 31" + (" 17" + ("  9" + (" 48" + (" 53" + []))))))))
    ensures ParseScratchcard(card) == Ok(Scratchcard(0, [41, 48, 83, 86, 17], [83, 86, 6, 31, 17, 9, 48, 53]))
  {
    var winning, winningGaps := [41, 48, 83, 86, 17], [" ", " ", " ", " ", " "];
    var owning, owningGaps := [83, 86, 6, 31, 17, 9, 48, 53], [" ", " ", "  ", " ", " ", "  ", " ", " "];
    ParseCardText("Card 1", winning, winningGaps, owning, owningGaps);
    SampleWinningText(winning, winningGaps);
    SampleOwningText(owning, owningGaps);
    assert card == CardText("Card 1", winning, winningGaps, owning, owningGaps);
  }

  /** The test card's winning numbers as it writes them. */
  lemma SampleWinningText(ns: seq<nat>, gaps: seq<string>)
    requires ns == [41, 48, 83, 86, 17] && gaps == [" ", " ", " ", " ", " "]
    ensures Spaced(ns, gaps) == " 41" + (" 48" + (" 83" + (" 86" + (" 17" + []))))
  {
    assert ns == [41, 48, 83, 86] + [17] && gaps == [" ", " ", " ", " "] + [" "];
    assert [17] == [17] + [] && [" "] == [" "] + [];
    assert " 41" == " " + ToDecimal(41) && " 48" == " " + ToDecimal(48) && " 83" == " " + ToDecimal(83);
    assert " 86" == " " + ToDecimal(86) && " 17" == " " + ToDecimal(17);
    SpacedPrepend(17, " ", [], []);
    SpacedPrependFour(41, 48, 83, 86, " ", " ", " ", " ", [17], [" "]);
  }

  /** The test card's owned numbers as it writes them. */
  lemma SampleOwningText(ns: seq<nat>, gaps: seq<string>)
    requires ns == [83, 86, 6, 31, 17, 9, 48, 53] && gaps == [" ", " ", "  ", " ", " ", "  ", " ", " "]
    ensures Spaced(ns, gaps)
         == " 83" + (" 86" + ("  6" + (" 31" + (" 17" + ("  9" + (" 48" + (" 53" + [])))))))
  {
    var rest, restGaps := [17, 9, 48, 53], [" ", "  ", " ", " "];
    SampleOwningTail(rest, restGaps);
    assert ns == [83, 86, 6, 31] + rest && gaps == [" ", " ", "  ", " "] + restGaps;
    assert " 83" == " " + ToDecimal(83) && " 86" == " " + ToDecimal(86);
    assert "  6" == "  " + ToDecimal(6) && " 31" == " " + ToDecimal(31);
    SpacedPrependFour(83, 86, 6, 31, " ", " ", "  ", " ", rest, restGaps);
  }

  /** The last four of the test card's owned numbers as it writes them. */
  lemma SampleOwningTail(ns: seq<nat>, gaps: seq<string>)
    requires ns == [17, 9, 48, 53] && gaps == [" ", "  ", " ", " "]
    ensures Spaced(ns, gaps) == " 17" + ("  9" + (" 48" + (" 53" + [])))
  {
    assert ns == ns + [] && gaps == gaps + [];
    assert " 17" == " " + ToDecimal(17) && "  9" == "  " + ToDecimal(9);
    assert " 48" == " " + ToDecimal(48) && " 53" == " " + ToDecimal(53);
    SpacedPrependFour(17, 9, 48, 53, " ", "  ", " ", " ", [], []);
  }

  /** One number written in front of others: its gap and decimal form, then the rest. */
  lemma SpacedPrepend(n: nat, g: string, ns: seq<nat>, gaps: seq<string>)
    requires IsGap(g)
    requires |gaps| == |ns| && forall k :: 0 <= k < |gaps| ==> IsGap(gaps[k])
    ensures |[g] + gaps| == |[n] + ns| && forall k :: 0 <= k < |[g] + gaps| ==> IsGap(([g] + gaps)[k])
    ensures Spaced([n] + ns, [g] + gaps) == g + ToDecimal(n) + Spaced(ns, gaps)
  {
    var ms, hs := [n] + ns, [g] + gaps;
    assert ms[1..] == ns && hs[1..] == gaps;
    SpacedCons(ms, hs);
  }

  /** Four numbers written in front of others, one after the other. */
  lemma SpacedPrependFour(a: nat, b: nat, c: nat, d: nat, ga: string, gb: string, gc: string, gd: string,
                          ns: seq<nat>, gaps: seq<string>)
    requires IsGap(ga) && IsGap(gb) && IsGap(gc) && IsGap(gd)
    requires |gaps| == |ns| && forall k :: 0 <= k < |gaps| ==> IsGap(gaps[k])
    ensures Spaced([a, b, c, d] + ns, [ga, gb, gc, gd] + gaps)
         == ga + ToDecimal(a) + (gb + ToDecimal(b) + (gc + ToDecimal(c) + (gd + ToDecimal(d) + Spaced(ns, gaps))))
  {
    var m3, h3 := [d] + ns, [gd] + gaps;
    var m2, h2 := [c] + m3, [gc] + h3;
    var m1, h1 := [b] + m2, [gb] + h2;
    ConsFour(a, b, c, d, ns);
    ConsFour(ga, gb, gc, gd, gaps);
    SpacedPrepend(d, gd, ns, gaps);
    SpacedPrepend(c, gc, m3, h3);
    SpacedPrepend(b, gb, m2, h2);
    SpacedPrepend(a, ga, m1, h1);
  }

  /** Four elements in front of a sequence, as four single fronts. */
  lemma ConsFour<T>(a: T, b: T, c: T, d: T, s: seq<T>)
    ensures [a, b, c, d] + s == [a] + ([b] + ([c] + ([d] + s)))
  {
  }
}
