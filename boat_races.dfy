/**
  The boat races (src/puzzle6.rs). The input is a table of two lines, "Time:" followed by the
  race times and "Distance:" followed by the record distances, one column per race. Holding
  the button for h milliseconds of a race of time T gives the boat speed h for the remaining
  T - h milliseconds, so it travels h * (T - h); a hold wins when that beats the record D.

  Part one counts the winning holds of each race and multiplies the counts. The code finds the
  first winning hold by a linear search from a start computed with f32 arithmetic, then counts
  the holds that keep winning. The start is modelled by its exact integer value.
 */
module BoatRaces {
  import opened Wrappers
  import opened Text

  const U32Max: nat := 0xFFFF_FFFF

  /** `Record`: one race, its time and the distance to beat. */
  datatype Record = Record(time: nat, distance: nat)

  const TimeError: string := "Error while parsing time records"
  const DistanceError: string := "Error while parsing distance records"

  // ---------------------------------------------------------------- parsing

  /** The whitespace-separated tokens after the first occurrence of the label head in line, if any. */
  function Tokens(line: string, head: string): (r: Option<seq<string>>)
    ensures r.None? <==> forall j :: 0 <= j ==> !OccursAt(line, head, j)
  {
    match SplitOnce(line, head)
    case None => None
    case Some((_, after)) => Some(Runs(after, IsNonWhitespace))
  }

  function Min(a: nat, b: nat): nat { if a <= b then a else b }

  /**
    The zip of the two token lists, each pair parsed as two u32 values; the zip stops at the
    end of the shorter list. A token that is not a u32 is the error, and both kinds of token
    report it with the time message.
   */
  function PairRecords(times: seq<string>, distances: seq<string>): (r: Result<seq<Record>, string>)
    ensures r.Ok? <==> forall k :: 0 <= k < Min(|times|, |distances|) ==>
                         ParseUnsigned(times[k], U32Max).Some? && ParseUnsigned(distances[k], U32Max).Some?
    ensures r.Ok? ==> |r.value| == Min(|times|, |distances|)
    ensures r.Ok? ==> forall k :: 0 <= k < |r.value| ==>
                        Some(r.value[k].time) == ParseUnsigned(times[k], U32Max)
                        && Some(r.value[k].distance) == ParseUnsigned(distances[k], U32Max)
    ensures r.Err? ==> r.error == TimeError
  {
    if times == [] || distances == [] then Ok([])
    else
      var t := ParseUnsigned(times[0], U32Max);
      var d := ParseUnsigned(distances[0], U32Max);
      var rest := PairRecords(times[1..], distances[1..]);
      assert forall k :: 1 <= k < Min(|times|, |distances|) ==>
        times[1..][k - 1] == times[k] && distances[1..][k - 1] == distances[k];
      if t.None? || d.None? || rest.Err? then Err(TimeError)
      else Ok([Record(t.value, d.value)] + rest.value)
  }

  /**
    `parse_input`: the first line's tokens after "Time:" zipped with the second line's tokens
    after "Distance:". A missing line or label is an error with that line's message.
   */
  function ParseInput(input: string): (r: Result<seq<Record>, string>)
    ensures r.Ok? ==> forall k :: 0 <= k < |r.value| ==> r.value[k].time <= U32Max && r.value[k].distance <= U32Max
    ensures (Lines(input) == [] || Tokens(Lines(input)[0], "Time:").None?) ==> r == Err(TimeError)
    ensures r == Err(DistanceError) <==>
      && Lines(input) != [] && Tokens(Lines(input)[0], "Time:").Some?
      && (|Lines(input)| < 2 || Tokens(Lines(input)[1], "Distance:").None?)
    ensures r.Err? ==> r.error == TimeError || r.error == DistanceError
  {
    var ls := Lines(input);
    if ls == [] || Tokens(ls[0], "Time:").None? then Err(TimeError)
    else if |ls| < 2 || Tokens(ls[1], "Distance:").None? then Err(DistanceError)
    else
      var r := PairRecords(Tokens(ls[0], "Time:").value, Tokens(ls[1], "Distance:").value);
      assert r.Ok? ==> forall k :: 0 <= k < |r.value| ==> r.value[k].time <= U32Max && r.value[k].distance <= U32Max;
      r
  }

  /** A table line: the label head, then the numbers, each after its gap of spaces. */
  function TableLine(head: string, ns: seq<nat>, gaps: seq<string>): string
    requires |gaps| == |ns| && forall k :: 0 <= k < |gaps| ==> IsGap(gaps[k])
  {
    head + Spaced(ns, gaps)
  }

  /** The tokens of a table line are the numbers' decimal forms. */
  lemma TokensOfTableLine(head: string, ns: seq<nat>, gaps: seq<string>)
    requires |gaps| == |ns| && forall k :: 0 <= k < |gaps| ==> IsGap(gaps[k])
    ensures Tokens(TableLine(head, ns, gaps), head).Some?
    ensures |Tokens(TableLine(head, ns, gaps), head).value| == |ns|
    ensures forall k :: 0 <= k < |ns| ==> Tokens(TableLine(head, ns, gaps), head).value[k] == ToDecimal(ns[k])
  {
    SplitOnceAtStart(head, Spaced(ns, gaps));
    assert !IsNonWhitespace(' ');
    forall c | IsAsciiDigit(c)
      ensures IsNonWhitespace(c)
    {
    }
    RunsOfSpaced(ns, gaps, IsNonWhitespace);
  }

  /** A table line holds no line break and does not end in a carriage return. */
  lemma TableLineShape(head: string, ns: seq<nat>, gaps: seq<string>)
    requires |gaps| == |ns| && forall k :: 0 <= k < |gaps| ==> IsGap(gaps[k])
    requires head != [] && '\n' !in head && head[|head| - 1] != '\r'
    ensures TableLine(head, ns, gaps) != [] && '\n' !in TableLine(head, ns, gaps)
    ensures TableLine(head, ns, gaps)[|TableLine(head, ns, gaps)| - 1] != '\r'
  {
    var sp := Spaced(ns, gaps);
    var l := TableLine(head, ns, gaps);
    assert forall i :: 0 <= i < |sp| ==> sp[i] != '\n' && sp[i] != '\r';
    assert forall i :: 0 <= i < |head| ==> l[i] == head[i];
    assert forall i :: |head| <= i < |l| ==> l[i] == sp[i - |head|];
  }

  /** Pairing the decimal forms of u32 values reads the values back, zipped. */
  lemma {:induction false} PairDecimals(times: seq<nat>, distances: seq<nat>, ts: seq<string>, ds: seq<string>)
    requires |ts| == |times| && forall k :: 0 <= k < |ts| ==> ts[k] == ToDecimal(times[k]) && times[k] <= U32Max
    requires |ds| == |distances| && forall k :: 0 <= k < |ds| ==> ds[k] == ToDecimal(distances[k]) && distances[k] <= U32Max
    ensures PairRecords(ts, ds).Ok?
    ensures forall k :: 0 <= k < |PairRecords(ts, ds).value| ==> PairRecords(ts, ds).value[k] == Record(times[k], distances[k])
  {
    forall k | 0 <= k < Min(|ts|, |ds|)
      ensures ParseUnsigned(ts[k], U32Max) == Some(times[k]) && ParseUnsigned(ds[k], U32Max) == Some(distances[k])
    {
      ParseUnsignedOfToDecimal(times[k], U32Max);
      ParseUnsignedOfToDecimal(distances[k], U32Max);
    }
  }

  /** The two table lines, joined by a line feed, are the input's lines. */
  lemma LinesOfTable(times: seq<nat>, timeGaps: seq<string>, distances: seq<nat>, distanceGaps: seq<string>)
    requires |timeGaps| == |times| && forall k :: 0 <= k < |timeGaps| ==> IsGap(timeGaps[k])
    requires |distanceGaps| == |distances| && forall k :: 0 <= k < |distanceGaps| ==> IsGap(distanceGaps[k])
    ensures Lines(TableLine("Time:", times, timeGaps) + "\n" + TableLine("Distance:", distances, distanceGaps))
         == [TableLine("Time:", times, timeGaps), TableLine("Distance:", distances, distanceGaps)]
  {
    var tl, dl := TableLine("Time:", times, timeGaps), TableLine("Distance:", distances, distanceGaps);
    TableLineShape("Time:", times, timeGaps);
    TableLineShape("Distance:", distances, distanceGaps);
    assert tl + "\n" + dl == Join([tl, dl], '\n');
    LinesOfJoin([tl, dl]);
  }

  /**
    Round trip of `parse_input`: a "Time:" line and a "Distance:" line written from u32 values
    read back as the zip of the two lists, as long as the shorter one.
   */
  lemma ParseTable(times: seq<nat>, timeGaps: seq<string>, distances: seq<nat>, distanceGaps: seq<string>)
    requires |timeGaps| == |times| && forall k :: 0 <= k < |timeGaps| ==> IsGap(timeGaps[k])
    requires |distanceGaps| == |distances| && forall k :: 0 <= k < |distanceGaps| ==> IsGap(distanceGaps[k])
    requires forall k :: 0 <= k < |times| ==> times[k] <= U32Max
    requires forall k :: 0 <= k < |distances| ==> distances[k] <= U32Max
    ensures var r := ParseInput(TableLine("Time:", times, timeGaps) + "\n" + TableLine("Distance:", distances, distanceGaps));
      && r.Ok?
      && |r.value| == Min(|times|, |distances|)
      && forall k :: 0 <= k < |r.value| ==> r.value[k] == Record(times[k], distances[k])
  {
    LinesOfTable(times, timeGaps, distances, distanceGaps);
    var tl, dl := TableLine("Time:", times, timeGaps), TableLine("Distance:", distances, distanceGaps);
    TokensOfTableLine("Time:", times, timeGaps);
    TokensOfTableLine("Distance:", distances, distanceGaps);
    PairDecimals(times, distances, Tokens(tl, "Time:").value, Tokens(dl, "Distance:").value);
  }

  // ---------------------------------------------------------------- winning holds

  /** How far the boat goes when the button is held for h of the race's time. */
  function Travel(r: Record, h: nat): nat
    requires h <= r.time
  {
    h * (r.time - h)
  }

  /** Holding for h beats the record; a tie does not. */
  predicate Wins(r: Record, h: nat)
  {
    h <= r.time && Travel(r, h) > r.distance
  }

  /** The number of winning holds below n. */
  function WinsBelow(r: Record, n: nat): (c: nat)
    ensures c <= n
  {
    if n == 0 then 0 else WinsBelow(r, n - 1) + (if Wins(r, n - 1) then 1 else 0)
  }

  /** The number of ways to beat the record: the winning holds among 0 ..= time. */
  function Ways(r: Record): nat
  {
    WinsBelow(r, r.time + 1)
  }

  /**
    Concavity of the distance: a hold between two winning holds wins too, so the winning holds
    form one unbroken run.
   */
  lemma WinnersContiguous(r: Record, a: nat, b: nat, c: nat)
    requires a <= b <= c && Wins(r, a) && Wins(r, c)
    ensures Wins(r, b)
  {
    var t := r.time;
    if a + b <= t {
      TravelDifference(t, a, b);
      MulNonNegative(b - a, t - a - b);
    } else {
      TravelDifference(t, c, b);
      MulNonNegative(c - b, b + c - t);
    }
  }

  /** How much farther one hold goes than another. */
  lemma TravelDifference(t: int, a: int, b: int)
    ensures b * (t - b) - a * (t - a) == (b - a) * (t - a - b)
  {
  }

  lemma MulNonNegative(x: int, y: int)
    requires x >= 0 && y >= 0
    ensures x * y >= 0
  {
  }

  /** Holding for no time or for the whole race goes nowhere, so neither end of the range wins. */
  lemma EndsLose(r: Record)
    ensures !Wins(r, 0) && !Wins(r, r.time)
  {
  }

  // ---------------------------------------------------------------- the search start

  /**
    Where the search starts. The code takes the speed D / T in f32 (0 when T is 0), and starts
    at that speed plus one when it is whole and at its ceiling otherwise; in exact arithmetic
    both are the least hold h with h * T > D, which is D / T + 1 in integer division.
   */
  function Start(r: Record): (s: nat)
    ensures s >= 1
    ensures r.time > 0 ==> (s - 1) * r.time <= r.distance < s * r.time
  {
    if r.time == 0 then 1 else r.distance / r.time + 1
  }

  lemma LessOfMulLess(a: nat, b: nat, c: nat)
    requires a * c < b * c
    ensures a < b
  {
    if a >= b {
      MulMonotone(b, a, c);
    }
  }

  lemma MulMonotone(a: nat, b: nat, c: nat)
    requires a <= b
    ensures a * c <= b * c
  {
  }

  /** No hold before the start wins: the start never skips past the first winning hold. */
  lemma StartBelowWinners(r: Record, h: nat)
    requires Wins(r, h)
    ensures Start(r) <= h
  {
    assert h * r.time >= h * (r.time - h) by {
      MulMonotone(r.time - h, r.time, h);
    }
    LessOfMulLess(Start(r) - 1, h, r.time);
  }

  /** Hence the holds below the start contribute nothing to the count. */
  lemma {:induction false} NoWinsBelowStart(r: Record, n: nat)
    requires n <= Start(r)
    ensures WinsBelow(r, n) == 0
  {
    if n > 0 {
      NoWinsBelowStart(r, n - 1);
      if Wins(r, n - 1) {
        StartBelowWinners(r, n - 1);
      }
    }
  }

  /** Past a losing hold that follows a winning one, no hold wins again. */
  lemma {:induction false} NoWinsAfterRun(r: Record, lo: nat, s: nat, n: nat)
    requires lo < s && Wins(r, lo) && !Wins(r, s) && s < n
    ensures WinsBelow(r, n) == WinsBelow(r, s + 1)
  {
    if n > s + 1 {
      NoWinsAfterRun(r, lo, s, n - 1);
      if Wins(r, n - 1) {
        WinnersContiguous(r, lo, s, n - 1);
      }
    }
  }

  // ---------------------------------------------------------------- the u32 bound

  /** No hold goes farther than holding for half the time. */
  lemma PeakIsLargest(r: Record, h: nat)
    requires h <= r.time
    ensures Travel(r, h) <= Travel(r, r.time / 2)
  {
    var t, m := r.time, r.time / 2;
    TravelDifference(t, h, m);
    if h <= m {
      MulNonNegative(m - h, t - h - m);
    } else {
      MulNonNegative(h - m, h + m - t);
    }
  }

  /** With a time of at most 131071, every distance fits in a u32. */
  lemma TravelFits(r: Record, h: nat)
    requires r.time <= 131071 && h <= r.time
    ensures Travel(r, h) <= U32Max
  {
    var t, m := r.time, r.time / 2;
    PeakIsLargest(r, h);
    MulMonotone(m, 65535, t - m);
    assert 65535 * (t - m) <= 65535 * 65536;
  }

  /**
    With a longer time, holding for half of it, which wins whenever any hold wins and so is
    always reached by the count, goes farther than a u32 holds.
   */
  lemma PeakOverflows(r: Record)
    requires r.time > 131071
    ensures Travel(r, r.time / 2) > U32Max
    ensures forall h: nat :: Wins(r, h) ==> Wins(r, r.time / 2)
  {
    var t, m := r.time, r.time / 2;
    MulMonotone(65536, m, t - m);
    assert 65536 * (t - m) >= 65536 * 65536;
    forall h: nat | Wins(r, h)
      ensures Wins(r, m)
    {
      PeakIsLargest(r, h);
    }
  }

  // ---------------------------------------------------------------- counting

  /** Some hold beats the record. */
  predicate HasWinner(r: Record)
  {
    exists h: nat :: h <= r.time && Wins(r, h)
  }

  /**
    The count of `answer_part_1` for one race: a linear search from the start for the first
    winning hold, then a count of the holds that go on winning. The code panics when no hold
    wins (the search runs past the time and `time - s` underflows) and when a distance does
    not fit in a u32 (TravelFits, PeakOverflows: exactly when the time exceeds 131071); the
    preconditions exclude both.
   */
  method CountWays(r: Record) returns (count: nat)
    requires HasWinner(r)
    requires r.time <= 131071
    ensures count == Ways(r)
    ensures count > 0
  {
    ghost var w: nat :| Wins(r, w);
    StartBelowWinners(r, w);
    var s := Start(r);
    NoWinsBelowStart(r, s);
    while !(Travel(r, s) > r.distance)
      invariant Start(r) <= s <= w
      invariant WinsBelow(r, s) == 0
      decreases w - s
    {
      s := s + 1;
    }
    var first := s;
    count := 0;
    while Travel(r, s) > r.distance
      invariant first <= s <= r.time
      invariant count == s - first
      invariant WinsBelow(r, s) == count
      invariant Wins(r, first)
      decreases r.time - s
    {
      EndsLose(r);
      count := count + 1;
      s := s + 1;
    }
    EndsLose(r);
    NoWinsAfterRun(r, first, s, r.time + 1);
  }

  /** Before the first hold of a run of winners, no hold wins. */
  lemma {:induction false} NoWinsBeforeRun(r: Record, lo: nat, n: nat)
    requires Wins(r, lo) && (lo == 0 || !Wins(r, lo - 1)) && n <= lo
    ensures WinsBelow(r, n) == 0
  {
    if n > 0 {
      NoWinsBeforeRun(r, lo, n - 1);
      if Wins(r, n - 1) {
        WinnersContiguous(r, n - 1, lo - 1, lo);
      }
    }
  }

  /** Within a run of winners every hold counts. */
  lemma {:induction false} WinsInRun(r: Record, lo: nat, hi: nat, n: nat)
    requires Wins(r, lo) && Wins(r, hi) && lo <= n <= hi + 1
    ensures WinsBelow(r, n) == WinsBelow(r, lo) + (n - lo)
  {
    if n > lo {
      WinsInRun(r, lo, hi, n - 1);
      WinnersContiguous(r, lo, n - 1, hi);
    }
  }

  /**
    The count is the length of the run of winners: the holds from lo to hi win, and the holds
    just outside lose.
   */
  lemma WaysOfRun(r: Record, lo: nat, hi: nat)
    requires lo <= hi && Wins(r, lo) && Wins(r, hi)
    requires lo == 0 || !Wins(r, lo - 1)
    requires !Wins(r, hi + 1)
    ensures Ways(r) == hi - lo + 1
  {
    EndsLose(r);
    NoWinsBeforeRun(r, lo, lo);
    WinsInRun(r, lo, hi, hi + 1);
    NoWinsAfterRun(r, lo, hi + 1, r.time + 1);
  }

  /** The product of the races' counts, the races taken in order. */
  function WaysProduct(rs: seq<Record>): nat
  {
    if rs == [] then 1 else WaysProduct(rs[..|rs| - 1]) * Ways(rs[|rs| - 1])
  }

  /** Every race can be won, within the u32 bound. */
  predicate Countable(rs: seq<Record>)
  {
    forall k :: 0 <= k < |rs| ==> HasWinner(rs[k]) && rs[k].time <= 131071
  }

  /**
    Every race counting at least one way, the running product never exceeds the final one: the
    u32 product of the code overflows exactly when the final product does.
   */
  lemma {:induction false} WaysProductPrefix(rs: seq<Record>, i: nat)
    requires Countable(rs) && i <= |rs|
    ensures WaysProduct(rs[..i]) <= WaysProduct(rs)
    decreases |rs|
  {
    if i < |rs| {
      var n := |rs|;
      var last := rs[n - 1];
      assert rs[..n - 1][..i] == rs[..i];
      assert forall k :: 0 <= k < n - 1 ==> rs[..n - 1][k] == rs[k];
      WaysProductPrefix(rs[..n - 1], i);
      assert HasWinner(last);
      var w: nat :| w <= last.time && Wins(last, w);
      WaysPositive(last, w);
      AtMostMultiple(WaysProduct(rs[..n - 1]), Ways(last));
    } else {
      assert rs[..i] == rs;
    }
  }

  lemma AtMostMultiple(p: nat, w: nat)
    requires w >= 1
    ensures p <= p * w
  {
  }

  /** A race with a winning hold has at least one way to win. */
  lemma WaysPositive(r: Record, w: nat)
    requires Wins(r, w)
    ensures Ways(r) >= 1
  {
    EndsLose(r);
    WinsAtLeastOne(r, w, r.time + 1);
  }

  lemma {:induction false} WinsAtLeastOne(r: Record, w: nat, n: nat)
    requires Wins(r, w) && w < n
    ensures WinsBelow(r, n) >= 1
  {
    if n - 1 != w {
      WinsAtLeastOne(r, w, n - 1);
    }
  }

  /** The product of the races' counts, counted one race after another. */
  method CountAll(records: seq<Record>) returns (product: nat)
    requires Countable(records)
    ensures product == WaysProduct(records)
  {
    product := 1;
    var i := 0;
    while i < |records|
      invariant 0 <= i <= |records|
      invariant product == WaysProduct(records[..i])
    {
      var ways := CountWays(records[i]);
      assert records[..i + 1][..i] == records[..i];
      product := product * ways;
      i := i + 1;
    }
    assert records[..i] == records;
  }

  /**
    `answer_part_1`: the records parsed from the input, then the product of their counts. The
    parse errors, which the code turns into panics, are returned; the preconditions exclude
    the other panics.
   */
  method AnswerPart1(input: string) returns (r: Result<nat, string>)
    requires ParseInput(input).Ok? ==> Countable(ParseInput(input).value)
    requires ParseInput(input).Ok? ==> WaysProduct(ParseInput(input).value) <= U32Max
    ensures ParseInput(input).Err? ==> r == Err(ParseInput(input).error)
    ensures ParseInput(input).Ok? ==> r == Ok(WaysProduct(ParseInput(input).value))
  {
    var parsed := ParseInput(input);
    if parsed.Err? {
      return Err(parsed.error);
    }
    var product := CountAll(parsed.value);
    return Ok(product);
  }

  /** `answer`: part one of the text read from the puzzle file, and 0 for part two. */
  method Answer(input: string) returns (r: Result<(nat, nat), string>)
    requires ParseInput(input).Ok? ==> Countable(ParseInput(input).value)
    requires ParseInput(input).Ok? ==> WaysProduct(ParseInput(input).value) <= U32Max
    ensures ParseInput(input).Err? ==> r == Err(ParseInput(input).error)
    ensures ParseInput(input).Ok? ==> r == Ok((WaysProduct(ParseInput(input).value), 0))
  {
    var part1 := AnswerPart1(input);
    if part1.Err? {
      return Err(part1.error);
    }
    return Ok((part1.value, 0));
  }

  // ---------------------------------------------------------------- the module's tests

  /** Three numbers written with their gaps. */
  lemma SpacedThree(ns: seq<nat>, gaps: seq<string>)
    requires |ns| == 3 && |gaps| == 3 && forall k :: 0 <= k < 3 ==> IsGap(gaps[k])
    ensures Spaced(ns, gaps)
         == gaps[0] + ToDecimal(ns[0]) + (gaps[1] + ToDecimal(ns[1]) + (gaps[2] + ToDecimal(ns[2]) + []))
  {
    var ns1, gaps1 := ns[1..], gaps[1..];
    var ns2, gaps2 := ns1[1..], gaps1[1..];
    SpacedCons(ns, gaps);
    SpacedCons(ns1, gaps1);
    SpacedCons(ns2, gaps2);
    assert ns2[1..] == [] && gaps2[1..] == [];
  }

  /** The two lines of the module's tests, as table lines. */
  lemma SampleLines(times: seq<nat>, timeGaps: seq<string>, distances: seq<nat>, distanceGaps: seq<string>)
    requires times == [7, 15, 30] && timeGaps == ["      ", "  ", "   "]
    requires distances == [9, 40, 200] && distanceGaps == ["  ", "  ", "  "]
    ensures TableLine("Time:", times, timeGaps) == "Time:" + "      7  15   30"
    ensures TableLine("Distance:", distances, distanceGaps) == "Distance:" + "  9  40  200"
  {
    SampleTimes(times, timeGaps);
    SampleDistances(distances, distanceGaps);
  }

  lemma SampleTimes(times: seq<nat>, timeGaps: seq<string>)
    requires times == [7, 15, 30] && timeGaps == ["      ", "  ", "   "]
    ensures Spaced(times, timeGaps) == "      7  15   30"
  {
    SpacedThree(times, timeGaps);
    assert ToDecimal(15) == "15" && ToDecimal(30) == "30";
  }

  lemma SampleDistances(distances: seq<nat>, distanceGaps: seq<string>)
    requires distances == [9, 40, 200] && distanceGaps == ["  ", "  ", "  "]
    ensures Spaced(distances, distanceGaps) == "  9  40  200"
  {
    SpacedThree(distances, distanceGaps);
    assert ToDecimal(40) == "40" && ToDecimal(200) == "200";
  }

  /**
    The parse test: "Time:      7  15   30" over "Distance:  9  40  200", the text written
    here as its labels and number columns joined.
   */
  lemma SampleParse(input: string, times: seq<nat>, timeGaps: seq<string>, distances: seq<nat>, distanceGaps: seq<string>)
    requires input == ("Time:" + "      7  15   30") + "\n" + ("Distance:" + "  9  40  200")
    requires times == [7, 15, 30] && timeGaps == ["      ", "  ", "   "]
    requires distances == [9, 40, 200] && distanceGaps == ["  ", "  ", "  "]
    ensures ParseInput(input) == Ok([Record(7, 9), Record(15, 40), Record(30, 200)])
  {
    SampleLines(times, timeGaps, distances, distanceGaps);
    SampleRecords(times, timeGaps, distances, distanceGaps);
    assert input == TableLine("Time:", times, timeGaps) + "\n" + TableLine("Distance:", distances, distanceGaps);
  }

  /** The records the sample table reads as. */
  lemma SampleRecords(times: seq<nat>, timeGaps: seq<string>, distances: seq<nat>, distanceGaps: seq<string>)
    requires times == [7, 15, 30] && |timeGaps| == 3 && forall k :: 0 <= k < 3 ==> IsGap(timeGaps[k])
    requires distances == [9, 40, 200] && |distanceGaps| == 3 && forall k :: 0 <= k < 3 ==> IsGap(distanceGaps[k])
    ensures ParseInput(TableLine("Time:", times, timeGaps) + "\n" + TableLine("Distance:", distances, distanceGaps))
         == Ok([Record(7, 9), Record(15, 40), Record(30, 200)])
  {
    ParseTable(times, timeGaps, distances, distanceGaps);
    var rs := ParseInput(TableLine("Time:", times, timeGaps) + "\n" + TableLine("Distance:", distances, distanceGaps)).value;
    assert |rs| == 3;
    assert rs[0] == Record(7, 9) && rs[1] == Record(15, 40) && rs[2] == Record(30, 200);
    assert rs == [Record(7, 9), Record(15, 40), Record(30, 200)];
  }

  /**
    The races of the sample: 2 to 5 of 7 beat 9, 4 to 11 of 15 beat 40, and 11 to 19 of 30 beat
    200, where 10 and 20 only tie with it.
   */
  lemma SampleWays(a: Record, b: Record, c: Record)
    requires a == Record(7, 9) && b == Record(15, 40) && c == Record(30, 200)
    ensures Ways(a) == 4 && Ways(b) == 8 && Ways(c) == 9
    ensures Travel(c, 10) == c.distance && !Wins(c, 10)
  {
    WaysOfRun(a, 2, 5);
    WaysOfRun(b, 4, 11);
    WaysOfRun(c, 11, 19);
  }

  /** The answer test: the sample's races can all be won and their counts multiply to 288. */
  lemma SampleAnswer(rs: seq<Record>)
    requires rs == [Record(7, 9), Record(15, 40), Record(30, 200)]
    ensures Countable(rs)
    ensures WaysProduct(rs) == 288
  {
    SampleWays(rs[0], rs[1], rs[2]);
    assert Wins(rs[0], 2) && Wins(rs[1], 4) && Wins(rs[2], 11);
    assert rs[..1][..0] == [];
    assert WaysProduct(rs[..1]) == 4;
    assert rs[..2][..1] == rs[..1];
    assert WaysProduct(rs[..2]) == 32;
    assert rs[..3][..2] == rs[..2] && rs[..3] == rs;
  }
}
