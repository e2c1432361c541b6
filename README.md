# Advent of Code 2023, days 1, 2, 4, 5 and 6, in Dafny

This project models the puzzle solvers of a Rust Advent-of-Code 2023 repository and proves
what they compute:

- **Calibration** (`src/puzzle1.rs`, module `Calibration`). For each line, the code finds the
  first and last digit. A digit is a numeral character or one of the words "zero" … "nine".
  The line's value is the two digits written side by side, and the answer is the sum over
  all lines.
- **Cube games** (`src/puzzle2.rs`, module `CubeGames`). `CubeColor::try_from` turns colour
  names into colours. `Game::try_from` is a stub that always fails. The module's test shows
  how the draws of a record become (amount, colour) pairs.
- **Scratchcards** (`src/puzzle4.rs`, module `Scratchcards`). The numbers of a card are read
  with the regular expression `(\d+)`. A card is parsed by splitting it on ':' and '|'. Its
  score is 0, or 2^(k-1) for k winning owned numbers.
- **Almanac maps** (`src/puzzle5.rs`, module `Almanac`). `process_map` is a range lookup over
  (destination, source, length) triples. `try_from` reads the digit-led lines of a map into
  triples and sorts them stably by source. The lookup and the sort are imperative methods:
  a loop over the triples, and an insertion sort on an array. Each is proved equal to a
  specification function, and the properties are proved about those functions.
- **Boat races** (`src/puzzle6.rs`, module `BoatRaces`). The time line and the distance line
  are zipped into race records. For each race, `answer_part_1` counts the hold times h with
  h * (T - h) > D: a linear search finds the first winning hold, and a counting loop counts
  the run that follows it. Part one is the product of these counts. Both loops are methods
  proved to return the number of winning holds in 0 ..= T.

The Rust standard-library text operations the solvers use are modelled in module `Text`:
`lines`, `split`, `split_once`, `find`, `rfind`, `trim`, `split_whitespace`, and `parse`
into an unsigned type. `Wrappers` holds `Option` and `Result`. Panics become preconditions,
with three exceptions. `parse_input`'s `expect` calls become `Err` values carrying their
messages. A calibration line whose `unwrap` panics, and a calibration sum that overflows a u32
(which panics in a debug build), become `None`. A failing `unwrap` in the cube-game test's
reading of a draw becomes `None`.

Where the puzzle statement and the code differ, the model follows the code:

- A map lookup is decided by the last covering triple. Overlapping source ranges are allowed.
- "zero" counts as the digit 0, so a line's value can be below 11.
- A line without a numeral character has no value, even if it spells out a digit.
- `Game::try_from` fails for every input.
- Part two of the boat races is 0.
- A bad distance token is reported with the time message, "Error while parsing time records".
- A race that cannot be won makes the code panic in a debug build (`time - s` underflows; a release build wraps); it does not count as 0.

## Model

| member | source | states |
|---|---|---|
| Calibration.WordAtUnique | src/puzzle1.rs:8-19 | No two digit words start at the same index, so the HashMap's iteration order cannot change the word `min_by`/`max_by` picks |
| Calibration.WordAtIsNotNumeral | src/puzzle1.rs:8-19 | No digit word starts where a numeral stands |
| Calibration.WordDigits | src/puzzle1.rs:8-19 | The word at index d names the digit d; "zero" is 0 |
| Calibration.NumeralFrom | src/puzzle1.rs:25 | `position(is_numeric)`: the result is a numeral with none before it; `None` exactly when the line has no numeral |
| Calibration.NumeralBack | src/puzzle1.rs:43 | `rev().position(is_numeric)`: the result, counted from the end, is the last numeral; `None` exactly when the line has none |
| Calibration.EarliestWord | src/puzzle1.rs:26-29 | The smallest `find` index over the words and that word's digit; no word starts earlier; `None` exactly when no word occurs |
| Calibration.LatestWord | src/puzzle1.rs:44-47 | The largest `rfind` index over the words and that word's digit; no word starts later; `None` exactly when no word occurs |
| Calibration.EarliestWordIs | src/puzzle1.rs:26-29 | A word that starts before every other word is the one found first |
| Calibration.LatestWordIs | src/puzzle1.rs:44-47 | A word that starts after every other word is the one found last |
| Calibration.FirstDigitIsNumeral | src/puzzle1.rs:31-39 | The numeral is chosen when no word exists or the numeral is strictly earlier |
| Calibration.FirstDigitIsWord | src/puzzle1.rs:31-38 | The word is chosen when it starts at or before the first numeral |
| Calibration.FirstDigitStart | src/puzzle1.rs:25-40 | The first digit is the token at some index t, and no numeral or word starts before t |
| Calibration.FirstDigitIsFirstToken | src/puzzle1.rs:25-40 | On a line with a numeral, the chosen first digit is the leftmost digit token, numeral or word |
| Calibration.LastDigitIsNumeral | src/puzzle1.rs:49-57 | The numeral is chosen when no word exists or the numeral is strictly later |
| Calibration.LastDigitIsWord | src/puzzle1.rs:49-56 | The word is chosen when it starts at or after the last numeral |
| Calibration.LastDigitStart | src/puzzle1.rs:43-58 | The last digit is the token at some index t, and no numeral or word starts after t |
| Calibration.LastDigitIsLastToken | src/puzzle1.rs:43-58 | On a line with a numeral, the chosen last digit is the rightmost digit token |
| Calibration.OverlapFirstWord | src/puzzle1.rs:28 | Words are searched independently: in "oneight" the first word is "one" at 0 |
| Calibration.OverlapLastWord | src/puzzle1.rs:46 | ... and the last word is "eight" at 2, overlapping "one" |
| Calibration.WordsWithoutNumeral | src/puzzle1.rs:25 | "oneight" has no value: without a numeral the `unwrap` panics |
| Calibration.NumeralsFromBothEnds | src/puzzle1.rs:25-43 | A line has a first numeral exactly when it has a last one, exactly when it has a numeral |
| Calibration.ShownValue | src/puzzle1.rs:69-71 | Formatting two digits side by side and parsing the result as a u32 gives 10 * first + last |
| Calibration.LineValue | src/puzzle1.rs:23-71 | A line has no value exactly when it has no numeral; otherwise the value is 10 * first digit + last digit |
| Calibration.LineValueOfTokens | src/puzzle1.rs:23-71 | A line's value is 10 * its leftmost digit token + its rightmost digit token |
| Calibration.LineValues | src/puzzle1.rs:21-70 | One value per line, in order |
| Calibration.Sum | src/puzzle1.rs:71-72 | The sum of the values is missing exactly when some value is missing; the u32 bound of the sum is applied in `Answer` |
| Calibration.SumAppend | src/puzzle1.rs:72 | The sum over two parts is the sum of the parts' sums |
| Calibration.SumOfLineValues | src/puzzle1.rs:21-72 | When every line has a numeral, the sum is the sum of the lines' token values |
| Calibration.Answer | src/puzzle1.rs:21-73 | The answer is missing when some line has no numeral; when every line has one, it is missing exactly when the u32 sum would overflow; an answer always fits a u32 |
| Calibration.AnswerIsTokenSum | src/puzzle1.rs:21-73 | When every line has a numeral, there is an answer exactly when the sum, over lines, of 10 * first token + last token fits a u32, and the answer is that sum |
| CubeGames.Name | src/puzzle2.rs:20-22 | Each colour's name is a non-empty lower-case word |
| CubeGames.ParseCubeColor | src/puzzle2.rs:18-24 | `Ok(c)` exactly when the trimmed text is the name of c; an error when it names no colour |
| CubeGames.ParseCubeColorOfName | src/puzzle2.rs:19-22 | A colour's name with any whitespace around it parses to that colour |
| CubeGames.ParseBlue | src/puzzle2.rs:116-121 | "blue" parses to `Blue` |
| CubeGames.ParseYellow | src/puzzle2.rs:123-126 | "yellow" is an error |
| CubeGames.ParseCapitalised | src/puzzle2.rs:19-23 | "Red" is an error: names are matched case-sensitively |
| CubeGames.GameIdCapture | src/puzzle2.rs:39-45 | `^Game (\d+)$` captures the digits exactly when the text is "Game " followed by one or more digits |
| CubeGames.ParseGame | src/puzzle2.rs:38-66 | `Game::try_from` returns an error for every input |
| CubeGames.DrawMatchFrom | src/puzzle2.rs:94 | The leftmost index where `(\d+)\s(\w+)` matches; no match before it; `None` when there is none |
| CubeGames.DrawCaptures | src/puzzle2.rs:102-104 | `None` exactly when `(\d+)\s(\w+)` matches nowhere; otherwise the groups are the digit run and the word run of the match at the leftmost matching index of the text, a non-empty digit string and a non-empty word |
| CubeGames.DrawCapturesOfText | src/puzzle2.rs:102-104 | In "<amount> <colour>", the groups are the amount's digits and the colour's name |
| CubeGames.ParseDraw | src/puzzle2.rs:100-106 | The amount read always fits an i32; the value for every written draw, with any whitespace around it, is pinned by `ParseDrawOfText` |
| CubeGames.ParseDrawOfText | src/puzzle2.rs:100-106 | A written draw with whitespace around it reads back as (amount, colour) |
| CubeGames.DrawPieces | src/puzzle2.rs:98-99 | No piece holds a ','; for written sets the pieces are exactly the written draws, in order, as `PiecesOfSets` proves |
| CubeGames.ParseEach | src/puzzle2.rs:101-106 | One draw per piece, in order |
| CubeGames.Collect | src/puzzle2.rs:101-107 | `collect` of `unwrap`s: missing exactly when some draw fails; otherwise every value, in order |
| CubeGames.PiecesOfSets | src/puzzle2.rs:98-99 | Splitting written sets on ';' and then on ',' gives back the written draws |
| CubeGames.ReadPieces | src/puzzle2.rs:100-107 | Reading written draws gives back the draws |
| CubeGames.CubeAmountsOfText | src/puzzle2.rs:96-107 | Reading the draws of a record's text gives the draws of all its sets, in order |
| CubeGames.SampleRecordSplit | src/puzzle2.rs:81-87 | The sample record splits at ':' into "Game 1", whose id is "1", and its draws |
| CubeGames.SampleFlatten | src/puzzle2.rs:109-112 | The sample's sets hold (3, Blue), (4, Red), (1, Red), (2, Green), (6, Blue), (2, Green), in order |
| CubeGames.SampleCubeAmounts | src/puzzle2.rs:96-112 | The sample's draws read as (3, Blue), (4, Red), (1, Red), (2, Green), ... |
| Scratchcards.ParseRuns | src/puzzle4.rs:19-27 | Ok exactly when every run fits a u32, and then the values in order; every error carries "Can't parse numbers from scratchcard string." |
| Scratchcards.ParseNumbersString | src/puzzle4.rs:13-28 | Ok exactly when every maximal digit run fits a u32, and then one value per run, in order, each the run's decimal value; otherwise the numbers error |
| Scratchcards.ParseSpaced | src/puzzle4.rs:17-27 | Numbers written with any gaps read back as themselves |
| Scratchcards.ParseSpacedOverflow | src/puzzle4.rs:24-25 | One written number above the u32 range makes the whole list an error |
| Scratchcards.Matches | src/puzzle4.rs:31-35 | The count is at most the owned count; it is 0 exactly when no owned number wins, and full exactly when every owned number wins |
| Scratchcards.RepeatedOwnedNumberCountsTwice | src/puzzle4.rs:31-35 | An owned number listed twice counts twice |
| Scratchcards.MatchesAppend | src/puzzle4.rs:31-35 | An owned number added at the end counts exactly when it wins |
| Scratchcards.MatchesPermutation | src/puzzle4.rs:31-35 | The count does not depend on the order of the owned numbers |
| Scratchcards.Pow2Bound | src/puzzle4.rs:38 | 2^n fits a u32 exactly when n < 32 |
| Scratchcards.Score | src/puzzle4.rs:30-42 | The score fits a u32, and it is 0 exactly when no owned number wins |
| Scratchcards.ScoreAppend | src/puzzle4.rs:30-42 | One more winning owned number doubles a positive score or turns 0 into 1; a losing one changes nothing |
| Scratchcards.ScorePermutation | src/puzzle4.rs:30-42 | The score does not depend on the order of the owned numbers |
| Scratchcards.ParseScratchcard | src/puzzle4.rs:49-76 | Text without ':' gives "Can't parse scratchcard string."; on success the id is 0 and the numbers fit a u32; the error is one of the three messages |
| Scratchcards.ParseCardWithoutBar | src/puzzle4.rs:56-66 | Text after the ':' without a bar character gives "Can't parse scratchcard numbers." |
| Scratchcards.ParseCardParts | src/puzzle4.rs:56-75 | The card is the two halves' numbers with id 0; the winning half's error comes first |
| Scratchcards.ParseCardText | src/puzzle4.rs:49-76 | A written card reads as id 0, its winning numbers and its owned numbers; the label's number is dropped |
| Scratchcards.SampleCardParses | src/puzzle4.rs:83-90 | The test's literal card text (label "Card 1", winning numbers 41 48 83 86 17, then after the bar the owned numbers 83 86 6 31 17 9 48 53, two of them after a double space) parses to exactly those numbers |
| Almanac.ProcessMap | src/puzzle5.rs:5-16 | The loop's output is the lookup by the last covering triple, and it fits a u64 |
| Almanac.LookupUncovered | src/puzzle5.rs:9-15 | A seed that no triple covers is returned unchanged |
| Almanac.LookupLastCover | src/puzzle5.rs:10-14 | When several triples cover the seed, the last one decides: seed - source + dest |
| Almanac.LookupMoved | src/puzzle5.rs:10-14 | A seed that changes was moved by some covering triple |
| Almanac.HalfOpen | src/puzzle5.rs:11 | source + range is not covered, the last covered value is source + range - 1, and source is covered exactly when range > 0 |
| Almanac.SeedToSoil | src/puzzle5.rs:118-127 | 79 goes through [(50, 98, 2), (52, 50, 48)] to 81 |
| Almanac.InsertSorted | src/puzzle5.rs:33 | Insertion keeps the triples sorted by source |
| Almanac.InsertPermutes | src/puzzle5.rs:33 | Insertion adds exactly the one element |
| Almanac.InsertStable | src/puzzle5.rs:33 | The inserted element goes after those with the same source |
| Almanac.StableSortSorted | src/puzzle5.rs:33 | The sorted triples are in non-decreasing source order |
| Almanac.StableSortPermutes | src/puzzle5.rs:33 | The sorted triples are a permutation of the parsed ones |
| Almanac.StableSortStable | src/puzzle5.rs:33 | Triples with equal sources keep their input order, as `sort_by_key` guarantees |
| Almanac.SortedUnique | src/puzzle5.rs:33 | Two sorted sequences that agree on every source are equal |
| Almanac.StableSortUnique | src/puzzle5.rs:33 | Any stable sort by source gives the same result, so the choice of algorithm does not matter |
| Almanac.InsertInto | src/puzzle5.rs:33 | One insertion step on the array: the prefix afterwards is the stable insertion of element i |
| Almanac.SortBySource | src/puzzle5.rs:33 | The array afterwards is the stable sort by source of its old contents |
| Almanac.ReadLine | src/puzzle5.rs:25-30 | A line is skipped exactly when it starts with a non-digit. It panics exactly when it is empty, or digit-led with fewer than three pieces that all parse. It gives the error exactly when one of its first three pieces does not parse, since that piece is parsed before the missing one is indexed. Three good pieces give the triple |
| Almanac.ScanNext | src/puzzle5.rs:24-31 | Reading one more line steps the scan, and an error or panic there is final |
| Almanac.ScanPrefix | src/puzzle5.rs:24-31 | After the first error or panic, later lines change nothing |
| Almanac.ReadTriples | src/puzzle5.rs:23-32 | The loop returns the triples of the digit-led lines in order, or the first "Can't parse map number" error |
| Almanac.TryFrom | src/puzzle5.rs:22-36 | The map holds the stable sort by source of the parsed triples, or the number error |
| Almanac.ReadTripleLine | src/puzzle5.rs:26-30 | The line written for a u64 triple reads back as that triple |
| Almanac.ScanTripleLines | src/puzzle5.rs:24-31 | A heading and then one line per triple read back exactly those triples, in order |
| Almanac.ScanMapText | src/puzzle5.rs:24-31 | The same for the map's text, split into lines |
| Almanac.SampleMapReads | src/puzzle5.rs:130-138 | The test's text "seed-to-soil map:\n50 98 2\n52 50 48" reads (50, 98, 2) and then (52, 50, 48), and the stable sort by source puts (52, 50, 48) first |
| Almanac.SampleMapSorted | src/puzzle5.rs:130-138 | The sort puts (52, 50, 48) before (50, 98, 2), as the test expects |
| BoatRaces.Tokens | src/puzzle6.rs:5-9 | `None` exactly when the label does not occur |
| BoatRaces.PairRecords | src/puzzle6.rs:17-30 | Ok exactly when every pair up to the shorter length parses as u32s; the length is the smaller token count; the i-th record is the i-th time and the i-th distance; every error has the time message |
| BoatRaces.ParseInput | src/puzzle6.rs:3-31 | Records fit a u32; no first line or no "Time:" gives the time error; the distance error comes exactly when the time line reads but there is no second line or no "Distance:"; the error is one of the two messages |
| BoatRaces.TokensOfTableLine | src/puzzle6.rs:7-9 | The tokens of a table line are the numbers' decimal forms |
| BoatRaces.PairDecimals | src/puzzle6.rs:17-30 | The zip of decimal forms of u32 values reads back as the paired values |
| BoatRaces.LinesOfTable | src/puzzle6.rs:4-16 | The time line and the distance line are the input's first two lines |
| BoatRaces.ParseTable | src/puzzle6.rs:3-31 | A written table parses to the records of its columns, as many as the shorter row |
| BoatRaces.SampleParse | src/puzzle6.rs:119-138 | "Time:      7  15   30\nDistance:  9  40  200" parses to (7, 9), (15, 40), (30, 200) |
| BoatRaces.SampleRecords | src/puzzle6.rs:119-138 | The sample table, written with any gaps, parses to the three records |
| BoatRaces.EndsLose | src/puzzle6.rs:59 | Holding for 0 or for the whole race never wins |
| BoatRaces.WinnersContiguous | src/puzzle6.rs:58-64 | Between two winning holds every hold wins, so the winners form one run |
| BoatRaces.Start | src/puzzle6.rs:53-57 | The exact search start D / T + 1 (1 when T is 0): (start - 1) * T <= D < start * T |
| BoatRaces.StartBelowWinners | src/puzzle6.rs:53-60 | The start never exceeds a winning hold |
| BoatRaces.NoWinsBelowStart | src/puzzle6.rs:53-60 | No hold below the start wins |
| BoatRaces.NoWinsAfterRun | src/puzzle6.rs:61-64 | After the first loss that follows a win, no hold wins again |
| BoatRaces.PeakIsLargest | src/puzzle6.rs:59 | No hold goes farther than holding for half the time |
| BoatRaces.TravelFits | src/puzzle6.rs:59-62 | With T <= 131071 every travelled distance fits a u32 |
| BoatRaces.PeakOverflows | src/puzzle6.rs:59-62 | With T > 131071 the peak distance overflows a u32, and it wins whenever any hold wins |
| BoatRaces.CountWays | src/puzzle6.rs:52-64 | The search from the start and the `take_while` count return the number of winning holds in 0 ..= T, which is positive |
| BoatRaces.WaysOfRun | src/puzzle6.rs:58-64 | A maximal run of winners lo ..= hi gives hi - lo + 1 ways |
| BoatRaces.WaysPositive | src/puzzle6.rs:58-64 | A race with a winning hold has at least one way to win |
| BoatRaces.WaysProductPrefix | src/puzzle6.rs:67 | The product over the first races never exceeds the product over all races |
| BoatRaces.CountAll | src/puzzle6.rs:50-67 | The counts, multiplied race by race, give the product of the numbers of ways |
| BoatRaces.AnswerPart1 | src/puzzle6.rs:48-68 | A parse error is passed on; otherwise the result is the product of the races' numbers of ways |
| BoatRaces.Answer | src/puzzle6.rs:70-73 | Part one as above, and 0 for part two |
| BoatRaces.SampleWays | src/puzzle6.rs:80-107 | The sample races have 4, 8 and 9 ways; in the third race, holding 10 only ties the record and does not win |
| BoatRaces.SampleAnswer | src/puzzle6.rs:106-107 | The sample's races can all be won, and their counts multiply to 288 |
| Text.DecimalValueOfToDecimal | src/puzzle1.rs:69-71 | Reading a formatted number gives the number back |
| Text.ParseUnsignedOfToDecimal | src/puzzle6.rs:21-28 | A formatted number that fits parses back, with or without a leading '+' |
| Text.ParseUnsignedOfDigits | src/puzzle4.rs:24 | A non-empty digit run parses exactly when its value fits |
| Text.ParseUnsignedOverflow | src/puzzle5.rs:28 | A numeral above the range is rejected rather than truncated |
| Text.ParseUnsignedRejectsNonDigit | src/puzzle5.rs:28 | A token with a non-digit character, other than one leading '+', is rejected |
| Text.Runs | src/puzzle6.rs:9 | `split_whitespace` and `(\d+)`: each run is non-empty and made of characters of the class |
| Text.RunsSeparated | src/puzzle4.rs:17-18 | A separator cuts the runs into those before it and those after it |
| Text.RunsOfSpaced | src/puzzle6.rs:9 | The runs of numbers written with gaps are the numbers' decimal forms |
| Text.Find | src/puzzle1.rs:28 | `find`: an occurrence, with none before it; `None` exactly when there is none |
| Text.RFind | src/puzzle1.rs:46 | `rfind`: an occurrence, with none after it; `None` exactly when there is none |
| Text.SplitOnce | src/puzzle4.rs:50 | `split_once`: `None` exactly when the pattern does not occur; otherwise before + pattern + after is the text, cut at the first occurrence |
| Text.SplitOnceAtChar | src/puzzle4.rs:58 | Splitting once at a character that the part before it does not contain |
| Text.Split | src/puzzle5.rs:27 | `split`: at least one piece, none holding the separator |
| Text.JoinSplit | src/puzzle5.rs:27 | The pieces, joined with the separator, give back the text |
| Text.SplitJoin | src/puzzle2.rs:98-99 | Splitting a join of separator-free pieces gives back the pieces |
| Text.TrimIsTrimmed | src/puzzle2.rs:19 | `trim`'s result neither starts nor ends with whitespace |
| Text.TrimRemovesWhitespace | src/puzzle2.rs:19 | `trim` removes only whitespace, and only at the two ends |
| Text.TrimPadded | src/puzzle2.rs:100 | Whitespace around a trimmed text is exactly what `trim` removes |
| Text.Lines | src/puzzle5.rs:24 | `lines`: no line holds a line feed |
| Text.LinesOfUnlines | src/puzzle6.rs:4 | Lines each followed by a line feed split back into those lines |
| Text.LinesOfJoin | src/puzzle5.rs:24 | Lines joined by line feeds split back into those lines, with no final line feed needed |
| Text.LinesOfCrLf | src/puzzle5.rs:24 | A carriage return right before a line feed is dropped: a line ended by "\r\n" is read without its '\r' |

## Left out

- Reading the puzzle files (`get_input` and the `read_to_string` in `puzzle6::answer`) is I/O. Every solver takes the text as a parameter.
- `Record::speed` and the f32 `ceil` comparison are floating point. They are replaced by the exact integer start D / T + 1. This is the value the f32 expression aims at, and f32 rounding for large values is not modelled.
- The `regex` crate is not modelled as an engine. `(\d+)`, `^Game (\d+)$` and `(\d+)\s(\w+)` are modelled by what they match on ASCII text.
- Only ASCII text is modelled. `is_numeric` and `is_whitespace` on non-ASCII characters are out of scope, and so is the difference between byte and character indices in `src/puzzle1.rs`.
- `src/main.rs` is not part of this model: it is the printing driver.
- `src/puzzle3.rs` is not part of this model: it holds only a test that prints regex captures.
- `tests/puzzle2.rs` is not part of this model: it repeats the in-module test.
- Parts of the puzzles the code does not contain have no model. These are the scratchcard copies, the seed pipeline and intervals, game filtering and cube power, and boat-race part two.
- Calibration.LineValue: a line without a numeral character has no value (`None`) where the code panics on `unwrap`.
- Almanac.ProcessMap: requires that source + range fit a u64 for each triple whose source is not above the seed, and that the shifted value of each covering triple fit a u64. The `&&` in the code short-circuits, so source + range is never computed for a triple above the seed. Otherwise the code's u64 arithmetic would panic or wrap.
- Calibration.Answer: an overflowing u32 sum is `None`, as in a debug build, where `sum` panics. The wrap-around of a release build is not modelled.
- Almanac.TryFrom: requires that no line panics. An empty line fails the `unwrap` of its first character, and a digit-led line with fewer than three pieces fails the indexing.
- Almanac.ReadTriples: the same precondition as `TryFrom`.
- Almanac.SortBySource: the in-place sort is an insertion sort. Any stable sort by source gives the same result (`StableSortUnique`), so this is the one `sort_by_key` produces, but its running time is not modelled.
- Scratchcards.Score: requires at most 32 matches. More would overflow the u32 power `2^(k-1)`, which panics in a debug build (wraps in release).
- BoatRaces.CountWays: requires a winning hold, because without one the search runs past T and `time - s` underflows. It also requires T <= 131071, because above that bound the peak distance overflows a u32 (`PeakOverflows`).
- BoatRaces.AnswerPart1: requires every race to meet `CountWays`'s conditions and the product to fit a u32. `product` on u32 panics on overflow in a debug build (wraps in release).
- BoatRaces.Answer: the same preconditions as `AnswerPart1`.
- BoatRaces.ParseInput: the `expect` panics are `Err` values carrying the `expect` message.
- CubeGames.ParseDraw: a failing `unwrap` in the test's reading of a draw is `None`. The test's parse of the amount as an i32 is modelled for the unsigned digit runs the pattern captures.
- CubeGames.ParseGame: the id and cube parsers that `Game::try_from` builds and discards are not modelled inside it. The draw parsing is modelled separately, as the module's test does it.
