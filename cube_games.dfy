/**
  The cube game records (src/puzzle2.rs). A record reads "Game 1: 3 blue, 4 red; 1 red, ...":
  a game label, then sets of draws separated by ';', each set a list of "<amount> <colour>"
  draws separated by ','.

  What the code does with it is partial: `CubeColor::try_from` recognises the three colour
  names, `Game::try_from` builds the label and draw parsers but returns an error for every
  input, and the reading of the draws into (amount, colour) pairs exists only in the module's
  test. The regular expressions `^Game (\d+)$` and `(\d+)\s(\w+)` are modelled by what they
  match on ASCII text, not by a regular-expression engine.
 */
module CubeGames {
  import opened Wrappers
  import opened Text

  const I32Max: nat := 0x7FFF_FFFF

  datatype CubeColor = Red | Green | Blue

  datatype CubeColorParsingError = CubeColorParsingError

  datatype GameParseInputError = GameParseInputError

  /** A game: its number and how many cubes of each colour it shows. */
  datatype Game = Game(id: int, cubes: map<CubeColor, int>)

  /** The name under which a colour is written in a record. */
  function Name(c: CubeColor): (s: string)
    ensures |s| >= 3 && IsTrimmed(s) && forall k :: 0 <= k < |s| ==> 'a' <= s[k] <= 'z'
  {
    match c
    case Red => "red"
    case Green => "green"
    case Blue => "blue"
  }

  /**
    `CubeColor::try_from`: the colour whose name is the trimmed text, matched exactly (so
    case-sensitively); any other text is an error.
   */
  function ParseCubeColor(value: string): (r: Result<CubeColor, CubeColorParsingError>)
    ensures r.Ok? ==> Name(r.value) == Trim(value)
    ensures r.Err? ==> forall c :: Name(c) != Trim(value)
  {
    var t := Trim(value);
    if t == "red" then Ok(Red)
    else if t == "green" then Ok(Green)
    else if t == "blue" then Ok(Blue)
    else Err(CubeColorParsingError)
  }

  /** A colour's name, with any whitespace around it, parses back to the colour. */
  lemma ParseCubeColorOfName(c: CubeColor, lead: string, trail: string)
    requires AllWhitespace(lead) && AllWhitespace(trail)
    ensures ParseCubeColor(lead + Name(c) + trail) == Ok(c)
  {
    TrimPadded(lead, Name(c), trail);
  }

  /** "blue" is Blue, the case in the module's test... */
  lemma ParseBlue()
    ensures ParseCubeColor("blue") == Ok(Blue)
  {
    ParseCubeColorOfName(Blue, "", "");
    assert "" + Name(Blue) + "" == "blue";
  }

  /** ... and "yellow", another case there, is an error... */
  lemma ParseYellow()
    ensures ParseCubeColor("yellow").Err?
  {
    TrimPadded("", "yellow", "");
    assert "" + "yellow" + "" == "yellow";
  }

  /** ... as is "Red": the names are matched case-sensitively. */
  lemma ParseCapitalised()
    ensures ParseCubeColor("Red").Err?
  {
    TrimPadded("", "Red", "");
    assert "" + "Red" + "" == "Red";
  }

  // ---------------------------------------------------------------- the game label

  /** The label prefix that `^Game (\d+)$` requires. */
  const GamePrefix: string := "Game "

  /**
    The capture of `^Game (\d+)$`: the digits after "Game " when the whole text is that prefix
    followed by one or more digits.
   */
  function GameIdCapture(s: string): (r: Option<string>)
    ensures r.Some? ==> s == GamePrefix + r.value && r.value != [] && AllDigits(r.value)
    ensures r.None? ==> forall ds :: ds != [] && AllDigits(ds) ==> s != GamePrefix + ds
  {
    if |s| > |GamePrefix| && s[..|GamePrefix|] == GamePrefix && AllDigits(s[|GamePrefix|..]) then
      assert s == GamePrefix + s[|GamePrefix|..];
      Some(s[|GamePrefix|..])
    else
      assert forall ds :: s == GamePrefix + ds ==> s[..|GamePrefix|] == GamePrefix && s[|GamePrefix|..] == ds;
      None
  }

  /**
    `Game::try_from`: whatever the record, an error. The code splits off the label and prepares
    the draw parsers, but discards both (the draw parsers are lazy iterators that never run, so
    even their panics cannot happen) and returns `GameParseInputError`.
   */
  function ParseGame(value: string): (r: Result<Game, GameParseInputError>)
    ensures r.Err?
  {
    Err(GameParseInputError)
  }

  // ---------------------------------------------------------------- the draws

  /** The index just past the run of digits that starts at i. */
  function DigitRunEnd(s: string, i: nat): (j: nat)
    requires i <= |s|
    ensures i <= j <= |s|
    ensures forall k :: i <= k < j ==> IsAsciiDigit(s[k])
    ensures j < |s| ==> !IsAsciiDigit(s[j])
  {
    i + RunLength(s[i..], IsAsciiDigit)
  }

  /** The index just past the run of word characters that starts at i. */
  function WordRunEnd(s: string, i: nat): (j: nat)
    requires i <= |s|
    ensures i <= j <= |s|
    ensures forall k :: i <= k < j ==> IsWordChar(s[k])
    ensures j < |s| ==> !IsWordChar(s[j])
  {
    i + RunLength(s[i..], IsWordChar)
  }

  /**
    `(\d+)\s(\w+)` matches at index i: a digit starts there, and the run of digits is followed
    by a whitespace character and a word character. (A shorter digit run ends before another
    digit, which is not whitespace, so only the longest run can be followed by one.)
   */
  predicate DrawMatchAt(s: string, i: nat)
  {
    i < |s| && IsAsciiDigit(s[i]) &&
    var j := DigitRunEnd(s, i);
    j + 1 < |s| && IsWhitespace(s[j]) && IsWordChar(s[j + 1])
  }

  /** The leftmost index at or after from where `(\d+)\s(\w+)` matches. */
  function DrawMatchFrom(s: string, from: nat): (r: Option<nat>)
    ensures r.Some? ==> from <= r.value && DrawMatchAt(s, r.value)
    ensures r.Some? ==> forall i :: from <= i < r.value ==> !DrawMatchAt(s, i)
    ensures r.None? ==> forall i :: from <= i ==> !DrawMatchAt(s, i)
    decreases |s| - from
  {
    if from >= |s| then None
    else if DrawMatchAt(s, from) then Some(from)
    else DrawMatchFrom(s, from + 1)
  }

  /** The two groups captured by the leftmost match of `(\d+)\s(\w+)`: the amount and the colour. */
  function DrawCaptures(s: string): (r: Option<(string, string)>)
    ensures r.None? <==> forall i: nat :: !DrawMatchAt(s, i)
    ensures r.Some? ==> r.value.0 != [] && AllDigits(r.value.0)
    ensures r.Some? ==> r.value.1 != [] && forall k :: 0 <= k < |r.value.1| ==> IsWordChar(r.value.1[k])
    ensures r.Some? ==> exists i: nat :: LeftmostDrawMatch(s, i) && r.value == MatchGroups(s, i)
  {
    match DrawMatchFrom(s, 0)
    case None => None
    case Some(i) =>
      assert LeftmostDrawMatch(s, i);
      Some(MatchGroups(s, i))
  }

  /** `(\d+)\s(\w+)` matches at i and at no index before it. */
  predicate LeftmostDrawMatch(s: string, i: nat)
  {
    DrawMatchAt(s, i) && forall i': nat :: i' < i ==> !DrawMatchAt(s, i')
  }

  /** The two groups of the match at i: the digit run, and the word run after the whitespace. */
  function MatchGroups(s: string, i: nat): (string, string)
    requires DrawMatchAt(s, i)
  {
    var j := DigitRunEnd(s, i);
    (s[i..j], s[j + 1..WordRunEnd(s, j + 1)])
  }

  /**
    One draw as the test reads it: the captures of the trimmed text, the amount parsed as an
    `i32` and the colour name parsed by `CubeColor::try_from`; `None` where an `unwrap` panics.
   */
  function ParseDraw(s: string): (r: Option<(nat, CubeColor)>)
    ensures r.Some? ==> r.value.0 <= I32Max
  {
    match DrawCaptures(Trim(s))
    case None => None
    case Some((amount, color)) =>
      match ParseUnsigned(amount, I32Max)
      case None => None
      case Some(n) =>
        match ParseCubeColor(color)
        case Err(_) => None
        case Ok(c) => Some((n, c))
  }

  /** How a draw is written: the amount in decimal, a space, the colour's name. */
  function DrawText(n: nat, c: CubeColor): string
  {
    ToDecimal(n) + " " + Name(c)
  }

  /** A draw as the record writes it after a ',' or a ';': a space, then the draw. */
  function DrawPiece(d: (nat, CubeColor)): string
  {
    " " + DrawText(d.0, d.1)
  }

  /** A written draw, with any whitespace around it, reads back as the draw. */
  lemma ParseDrawOfText(n: nat, c: CubeColor, lead: string, trail: string)
    requires n <= I32Max && AllWhitespace(lead) && AllWhitespace(trail)
    ensures ParseDraw(lead + DrawText(n, c) + trail) == Some((n, c))
  {
    TrimOfDrawText(n, c, lead, trail);
    DrawCapturesOfText(n, c);
    ParseUnsignedOfToDecimal(n, I32Max);
    ParseName(c);
    ParseDrawSteps(lead + DrawText(n, c) + trail, ToDecimal(n), Name(c), n, c);
  }

  lemma TrimOfDrawText(n: nat, c: CubeColor, lead: string, trail: string)
    requires AllWhitespace(lead) && AllWhitespace(trail)
    ensures Trim(lead + DrawText(n, c) + trail) == DrawText(n, c)
  {
    var t, d, w := DrawText(n, c), ToDecimal(n), Name(c);
    assert t[0] == d[0] && t[|t| - 1] == w[|w| - 1];
    TrimPadded(lead, t, trail);
  }

  lemma ParseName(c: CubeColor)
    ensures ParseCubeColor(Name(c)) == Ok(c)
  {
    ParseCubeColorOfName(c, "", "");
    assert "" + Name(c) + "" == Name(c);
  }

  lemma ParseDrawSteps(s: string, d: string, w: string, n: nat, c: CubeColor)
    requires DrawCaptures(Trim(s)) == Some((d, w))
    requires ParseUnsigned(d, I32Max) == Some(n) && ParseCubeColor(w) == Ok(c)
    ensures ParseDraw(s) == Some((n, c))
  {
  }

  /** The captures of a written draw are its decimal amount and its colour's name. */
  lemma DrawCapturesOfText(n: nat, c: CubeColor)
    ensures DrawCaptures(DrawText(n, c)) == Some((ToDecimal(n), Name(c)))
  {
    var d, w := ToDecimal(n), Name(c);
    var t := DrawText(n, c);
    DrawTextRuns(n, c);
    assert t[0..|d|] == d && t[|d| + 1..|t|] == w;
  }

  /** In a written draw the match starts at 0, the amount ends at the space, the colour at the end. */
  lemma DrawTextRuns(n: nat, c: CubeColor)
    ensures DrawMatchFrom(DrawText(n, c), 0) == Some(0)
    ensures DigitRunEnd(DrawText(n, c), 0) == |ToDecimal(n)|
    ensures WordRunEnd(DrawText(n, c), |ToDecimal(n)| + 1) == |DrawText(n, c)|
  {
    var d, w := ToDecimal(n), Name(c);
    var t := DrawText(n, c);
    assert forall k :: 0 <= k < |d| ==> t[k] == d[k];
    assert t[|d|] == ' ' && t[|d| + 1] == w[0];
    assert DigitRunEnd(t, 0) == |d|;
    assert DrawMatchAt(t, 0);
    assert forall k :: |d| + 1 <= k < |t| ==> t[k] == w[k - |d| - 1];
  }

  /** The pieces of the ';'-separated sets, each split on ','. */
  function DrawPieces(sets: seq<string>): (r: seq<string>)
    ensures forall k :: 0 <= k < |r| ==> ',' !in r[k]
  {
    if sets == [] then [] else Split(sets[0], ',') + DrawPieces(sets[1..])
  }

  /** Each piece read as a draw. */
  function ParseEach(ps: seq<string>): (r: seq<Option<(nat, CubeColor)>>)
    ensures |r| == |ps| && forall k :: 0 <= k < |ps| ==> r[k] == ParseDraw(ps[k])
  {
    seq(|ps|, k requires 0 <= k < |ps| => ParseDraw(ps[k]))
  }

  /** All the values, in order (`collect` of `unwrap`s); `None` as soon as one is missing. */
  function Collect<T(==)>(xs: seq<Option<T>>): (r: Option<seq<T>>)
    ensures r.None? <==> exists k :: 0 <= k < |xs| && xs[k].None?
    ensures r.Some? ==> |r.value| == |xs| && forall k :: 0 <= k < |xs| ==> xs[k] == Some(r.value[k])
  {
    if xs == [] then Some([])
    else
      var rest := Collect(xs[1..]);
      assert forall k :: 1 <= k < |xs| ==> xs[k] == xs[1..][k - 1];
      if xs[0].Some? && rest.Some? then Some([xs[0].value] + rest.value) else None
  }

  /**
    The (amount, colour) pairs of the text after a record's ':', as the module's test reads
    them: split on ';', each part split on ',', each piece trimmed and read as a draw.
   */
  function CubeAmounts(text: string): Option<seq<(nat, CubeColor)>>
  {
    Collect(ParseEach(DrawPieces(Split(text, ';'))))
  }

  // ---------------------------------------------------------------- writing a record's draws

  function SetPieces(draws: seq<(nat, CubeColor)>): (r: seq<string>)
    ensures |r| == |draws|
  {
    if draws == [] then [] else [DrawPiece(draws[0])] + SetPieces(draws[1..])
  }

  /** The sets of draws written as a record writes them after its ':'. */
  function SetTexts(sets: seq<seq<(nat, CubeColor)>>): (r: seq<string>)
    requires forall k :: 0 <= k < |sets| ==> sets[k] != []
    ensures |r| == |sets|
  {
    if sets == [] then [] else [Join(SetPieces(sets[0]), ',')] + SetTexts(sets[1..])
  }

  function Flatten(sets: seq<seq<(nat, CubeColor)>>): seq<(nat, CubeColor)>
  {
    if sets == [] then [] else sets[0] + Flatten(sets[1..])
  }

  lemma {:induction false} SetPiecesAppend(a: seq<(nat, CubeColor)>, b: seq<(nat, CubeColor)>)
    ensures SetPieces(a + b) == SetPieces(a) + SetPieces(b)
  {
    if a != [] {
      assert (a + b)[0] == a[0] && (a + b)[1..] == a[1..] + b;
      SetPiecesAppend(a[1..], b);
    } else {
      assert a + b == b;
    }
  }

  /** A written draw holds neither separator. */
  lemma PieceAvoids(d: (nat, CubeColor), sep: char)
    requires sep == ';' || sep == ','
    ensures sep !in DrawPiece(d)
  {
    var p := DrawPiece(d);
    var a, w := ToDecimal(d.0), Name(d.1);
    assert p == " " + a + " " + w;
    assert forall k :: 1 <= k <= |a| ==> p[k] == a[k - 1];
    assert forall k :: |a| + 2 <= k < |p| ==> p[k] == w[k - |a| - 2];
  }

  lemma {:induction false} SetPiecesAvoid(ds: seq<(nat, CubeColor)>, sep: char)
    requires sep == ';' || sep == ','
    ensures forall k :: 0 <= k < |ds| ==> sep !in SetPieces(ds)[k]
  {
    if ds != [] {
      PieceAvoids(ds[0], sep);
      SetPiecesAvoid(ds[1..], sep);
      assert forall k :: 1 <= k < |ds| ==> SetPieces(ds)[k] == SetPieces(ds[1..])[k - 1];
    }
  }

  /** Splitting the written sets on ';' and then on ',' gives back the written draws. */
  lemma {:induction false} PiecesOfSets(sets: seq<seq<(nat, CubeColor)>>)
    requires forall k :: 0 <= k < |sets| ==> sets[k] != []
    ensures DrawPieces(SetTexts(sets)) == SetPieces(Flatten(sets))
  {
    if sets != [] {
      var texts := SetTexts(sets);
      assert texts[1..] == SetTexts(sets[1..]);
      SetPiecesAvoid(sets[0], ',');
      SplitJoin(SetPieces(sets[0]), ',');
      PiecesOfSets(sets[1..]);
      SetPiecesAppend(sets[0], Flatten(sets[1..]));
    }
  }

  /** Reading written draws gives back the draws. */
  lemma ReadPieces(ds: seq<(nat, CubeColor)>)
    requires forall k :: 0 <= k < |ds| ==> ds[k].0 <= I32Max
    ensures Collect(ParseEach(SetPieces(ds))) == Some(ds)
  {
    var xs := ParseEach(SetPieces(ds));
    forall k | 0 <= k < |ds| ensures xs[k] == Some(ds[k]) {
      ReadPiece(ds, k);
    }
    CollectAllSome(xs, ds);
  }

  lemma ReadPiece(ds: seq<(nat, CubeColor)>, k: nat)
    requires k < |ds| && ds[k].0 <= I32Max
    ensures ParseDraw(SetPieces(ds)[k]) == Some(ds[k])
  {
    PieceAt(ds, k);
    ParseDrawOfText(ds[k].0, ds[k].1, " ", "");
    assert " " + DrawText(ds[k].0, ds[k].1) + "" == DrawPiece(ds[k]);
  }

  /** When every value is present, Collect gives exactly the values. */
  lemma CollectAllSome<T>(xs: seq<Option<T>>, vs: seq<T>)
    requires |xs| == |vs| && forall k :: 0 <= k < |xs| ==> xs[k] == Some(vs[k])
    ensures Collect(xs) == Some(vs)
  {
    var r := Collect(xs);
    assert r.Some?;
    assert r.value == vs;
  }

  lemma {:induction false} PieceAt(ds: seq<(nat, CubeColor)>, k: nat)
    requires k < |ds|
    ensures SetPieces(ds)[k] == DrawPiece(ds[k])
  {
    if k > 0 {
      PieceAt(ds[1..], k - 1);
    }
  }

  /**
    Reading the draws back from sets written as a record writes them gives the draws of all the
    sets, in order.
   */
  lemma CubeAmountsOfText(sets: seq<seq<(nat, CubeColor)>>)
    requires sets != [] && forall k :: 0 <= k < |sets| ==> sets[k] != []
    requires forall k, j :: 0 <= k < |sets| && 0 <= j < |sets[k]| ==> sets[k][j].0 <= I32Max
    ensures CubeAmounts(Join(SetTexts(sets), ';')) == Some(Flatten(sets))
  {
    var texts := SetTexts(sets);
    forall k | 0 <= k < |texts| ensures ';' !in texts[k] {
      SetTextAvoids(sets, k);
    }
    SplitJoin(texts, ';');
    PiecesOfSets(sets);
    FlattenBound(sets);
    ReadPieces(Flatten(sets));
  }

  lemma {:induction false} SetTextAvoids(sets: seq<seq<(nat, CubeColor)>>, k: nat)
    requires k < |sets| && forall i :: 0 <= i < |sets| ==> sets[i] != []
    ensures ';' !in SetTexts(sets)[k]
  {
    if k == 0 {
      SetPiecesAvoid(sets[0], ';');
      JoinAvoids(SetPieces(sets[0]), ',', ';');
    } else {
      SetTextAvoids(sets[1..], k - 1);
    }
  }

  lemma {:induction false} FlattenBound(sets: seq<seq<(nat, CubeColor)>>)
    requires forall k, j :: 0 <= k < |sets| && 0 <= j < |sets[k]| ==> sets[k][j].0 <= I32Max
    ensures forall i :: 0 <= i < |Flatten(sets)| ==> Flatten(sets)[i].0 <= I32Max
  {
    if sets != [] {
      FlattenBound(sets[1..]);
      var f := Flatten(sets);
      assert forall i :: |sets[0]| <= i < |f| ==> f[i] == Flatten(sets[1..])[i - |sets[0]|];
    }
  }

  // ---------------------------------------------------------------- the module's sample record

  /** The three sets of the sample record, as the module's test lists them. */
  const SampleSets: seq<seq<(nat, CubeColor)>> :=
    [[(3, Blue), (4, Red)], [(1, Red), (2, Green), (6, Blue)], [(2, Green)]]

  /** The texts of the sample's sets, written piece by piece. */
  const SampleSetA: string := " 3 blue" + "," + " 4 red"
  const SampleSetB: string := " 1 red" + "," + " 2 green" + "," + " 6 blue"
  const SampleSetC: string := " 2 green"

  /** The draws of the sample record, " 3 blue, 4 red; 1 red, 2 green, 6 blue; 2 green". */
  const SampleDraws: string := SampleSetA + ";" + SampleSetB + ";" + SampleSetC

  /** The sample record of the module's test. */
  const SampleRecord: string := "Game 1" + ":" + SampleDraws

  /** The sample record splits at its ':' into the label "Game 1", whose id is "1", and the draws. */
  lemma SampleRecordSplit()
    ensures SplitOnce(SampleRecord, ":") == Some(("Game 1", SampleDraws))
    ensures GameIdCapture("Game 1") == Some("1")
  {
    SplitOnceAtChar("Game 1", ':', SampleDraws);
    assert "Game 1" == GamePrefix + "1";
  }

  /** A set of two draws is written as their pieces around a comma. */
  lemma WrittenPair(d: (nat, CubeColor), e: (nat, CubeColor))
    ensures WrittenSet(d, [e]) == DrawPiece(d) + "," + DrawPiece(e)
  {
    assert [e][1..] == [];
  }

  /** The sample's first set is written as SampleSetA. */
  lemma SampleSetAText(d: (nat, CubeColor), ds: seq<(nat, CubeColor)>)
    requires d == (3, Blue) && ds == [(4, Red)]
    ensures WrittenSet(d, ds) == SampleSetA
  {
    WrittenPair(d, ds[0]);
    assert DrawPiece(d) == " 3 blue";
    assert DrawPiece(ds[0]) == " 4 red";
  }

  /** The sample's second set is written as SampleSetB. */
  lemma SampleSetBText(d: (nat, CubeColor), ds: seq<(nat, CubeColor)>)
    requires d == (1, Red) && ds == [(2, Green), (6, Blue)]
    ensures WrittenSet(d, ds) == SampleSetB
  {
    var e, f := ds[0], ds[1];
    assert ds[1..] == [f];
    WrittenPair(e, f);
    assert DrawPiece(d) == " 1 red";
    assert DrawPiece(e) == " 2 green";
    assert DrawPiece(f) == " 6 blue";
    assert WrittenSet(d, ds) == " 1 red" + "," + (" 2 green" + "," + " 6 blue");
  }

  /** The sample's sets are written as SampleSetA, SampleSetB and SampleSetC. */
  lemma SampleSetTexts(sets: seq<seq<(nat, CubeColor)>>)
    requires sets == SampleSets
    ensures SetTexts(sets) == [SampleSetA, SampleSetB, SampleSetC]
  {
    var a: seq<(nat, CubeColor)>, b: seq<(nat, CubeColor)>, c: seq<(nat, CubeColor)> := sets[0], sets[1], sets[2];
    SampleSetAText(a[0], a[1..]);
    SampleSetBText(b[0], b[1..]);
    assert WrittenSet(c[0], c[1..]) == SampleSetC;
    assert sets[1..] == [b, c] && [b, c][1..] == [c] && |[c][1..]| == 0;
  }

  lemma JoinThree(x: string, y: string, z: string, sep: char)
    ensures Join([x, y, z], sep) == x + [sep] + y + [sep] + z
  {
    JoinCons(x, [y, z], sep);
    JoinCons(y, [z], sep);
    assert [x] + [y, z] == [x, y, z] && [y] + [z] == [y, z];
  }

  /** The sample's sets, in order, hold the draws the module's test lists. */
  lemma SampleFlatten(sets: seq<seq<(nat, CubeColor)>>)
    requires sets == SampleSets
    ensures Flatten(sets) == [(3, Blue), (4, Red), (1, Red), (2, Green), (6, Blue), (2, Green)]
  {
    var a: seq<(nat, CubeColor)>, b: seq<(nat, CubeColor)>, c: seq<(nat, CubeColor)> := sets[0], sets[1], sets[2];
    assert sets[1..] == [b, c] && [b, c][1..] == [c] && |[c][1..]| == 0;
  }

  /** The module's test: the sample's draws read as (3, Blue), (4, Red), (1, Red), (2, Green), ... */
  lemma SampleCubeAmounts(text: string)
    requires text == SampleDraws
    ensures CubeAmounts(text)
      == Some([(3, Blue), (4, Red), (1, Red), (2, Green), (6, Blue), (2, Green)])
  {
    var sets := SampleSets;
    SampleSetTexts(sets);
    JoinThree(SampleSetA, SampleSetB, SampleSetC, ';');
    CubeAmountsOfText(sets);
    SampleFlatten(sets);
  }

  /** The text of a set whose first draw is d, followed by the draws ds. */
  function WrittenSet(d: (nat, CubeColor), ds: seq<(nat, CubeColor)>): (r: string)
    ensures r == Join(SetPieces([d] + ds), ',')
    ensures ds == [] ==> r == DrawPiece(d)
    ensures ds != [] ==> r == DrawPiece(d) + "," + WrittenSet(ds[0], ds[1..])
    decreases |ds|
  {
    assert ([d] + ds)[0] == d && ([d] + ds)[1..] == ds;
    if ds == [] then DrawPiece(d)
    else
      assert ds == [ds[0]] + ds[1..];
      JoinCons(DrawPiece(d), SetPieces(ds), ',');
      DrawPiece(d) + "," + WrittenSet(ds[0], ds[1..])
  }
}
