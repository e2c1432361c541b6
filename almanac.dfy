/**
  The almanac maps (src/puzzle5.rs). A map is a list of (destination, source, length) triples;
  each triple sends the half-open source range [source, source + length) to the range of the
  same length starting at destination, and a number no triple covers maps to itself.

  `AlmanacMap::try_from` reads the triples from the lines of a map's text, one per line that
  starts with a digit, and sorts them by source with a stable sort.
 */
module Almanac {
  import opened Wrappers
  import opened Text

  const U64Max: nat := 0xFFFF_FFFF_FFFF_FFFF

  datatype Triple = Triple(dest: nat, source: nat, range: nat)

  /** `AlmanacMap`: the triples in the order the map holds them. */
  datatype AlmanacMap = AlmanacMap(triples: seq<Triple>)

  const MapNumberError: string := "Can't parse map number"

  // ---------------------------------------------------------------- lookup

  /** The triple's source range holds n; the range is half-open. */
  predicate Covers(t: Triple, n: nat) { t.source <= n < t.source + t.range }

  /** Where a covered number goes: as far past destination as it is past source. */
  function Shift(t: Triple, n: nat): nat
    requires Covers(t, n)
  {
    n - t.source + t.dest
  }

  predicate IsU64Triple(t: Triple) { t.dest <= U64Max && t.source <= U64Max && t.range <= U64Max }

  /**
    `process_map` works in u64. The test `seed >= source && seed < source + range` evaluates
    `source + range` only for a triple whose source is not above the seed, and that sum must not
    overflow; nor may the shifted value of a triple that covers the seed.
   */
  predicate NoOverflow(ts: seq<Triple>, seed: nat)
  {
    forall k :: 0 <= k < |ts| ==>
      IsU64Triple(ts[k]) && (ts[k].source <= seed ==> ts[k].source + ts[k].range <= U64Max)
      && (Covers(ts[k], seed) ==> Shift(ts[k], seed) <= U64Max)
  }

  /** What the map does to seed: the last triple that covers it decides. */
  function Lookup(ts: seq<Triple>, seed: nat): nat
  {
    if ts == [] then seed
    else if Covers(ts[|ts| - 1], seed) then Shift(ts[|ts| - 1], seed)
    else Lookup(ts[..|ts| - 1], seed)
  }

  /**
    `AlmanacMap::process_map`: the triples in order, each covering one overwriting the output,
    which starts as the seed.
   */
  method ProcessMap(m: AlmanacMap, seed: nat) returns (output: nat)
    requires seed <= U64Max && NoOverflow(m.triples, seed)
    ensures output == Lookup(m.triples, seed)
    ensures output <= U64Max
  {
    output := seed;
    var i := 0;
    while i < |m.triples|
      invariant 0 <= i <= |m.triples|
      invariant output == Lookup(m.triples[..i], seed)
      invariant output <= U64Max
    {
      var t := m.triples[i];
      if seed >= t.source && seed < t.source + t.range {
        output := (seed - t.source) + t.dest;
      }
      assert m.triples[..i + 1][..i] == m.triples[..i];
      i := i + 1;
    }
    assert m.triples[..i] == m.triples;
  }

  /** A seed that no triple covers passes through unchanged. */
  lemma {:induction false} LookupUncovered(ts: seq<Triple>, seed: nat)
    requires forall k :: 0 <= k < |ts| ==> !Covers(ts[k], seed)
    ensures Lookup(ts, seed) == seed
  {
    if ts != [] {
      LookupUncovered(ts[..|ts| - 1], seed);
    }
  }

  /** The last triple that covers the seed decides, whatever the triples before it say. */
  lemma {:induction false} LookupLastCover(ts: seq<Triple>, seed: nat, k: nat)
    requires k < |ts| && Covers(ts[k], seed)
    requires forall j :: k < j < |ts| ==> !Covers(ts[j], seed)
    ensures Lookup(ts, seed) == Shift(ts[k], seed)
  {
    if k < |ts| - 1 {
      LookupLastCover(ts[..|ts| - 1], seed, k);
    }
  }

  /** Conversely, a seed that changes was moved by some covering triple. */
  lemma {:induction false} LookupMoved(ts: seq<Triple>, seed: nat)
    requires Lookup(ts, seed) != seed
    ensures exists k :: 0 <= k < |ts| && Covers(ts[k], seed) && Lookup(ts, seed) == Shift(ts[k], seed)
  {
    if !Covers(ts[|ts| - 1], seed) {
      LookupMoved(ts[..|ts| - 1], seed);
      var k :| 0 <= k < |ts| - 1 && Covers(ts[..|ts| - 1][k], seed)
               && Lookup(ts[..|ts| - 1], seed) == Shift(ts[..|ts| - 1][k], seed);
      assert ts[..|ts| - 1][k] == ts[k];
    }
  }

  /** The end of a triple's source range is outside it: that triple leaves source + range alone. */
  lemma HalfOpen(t: Triple)
    ensures !Covers(t, t.source + t.range)
    ensures Covers(t, t.source) <==> t.range > 0
    ensures t.range > 0 ==> Covers(t, t.source + t.range - 1) && Shift(t, t.source + t.range - 1) == t.dest + t.range - 1
    ensures Lookup([t], t.source + t.range) == t.source + t.range
  {
    assert [t][..0] == [];
  }

  /** The module's test: 79 goes through [(50, 98, 2), (52, 50, 48)] to 81. */
  lemma SeedToSoil()
    ensures Lookup([Triple(50, 98, 2), Triple(52, 50, 48)], 79) == 81
  {
    var ts := [Triple(50, 98, 2), Triple(52, 50, 48)];
    LookupLastCover(ts, 79, 1);
  }

  // ---------------------------------------------------------------- stable sort by source

  predicate SortedBySource(ts: seq<Triple>)
  {
    forall i, j :: 0 <= i < j < |ts| ==> ts[i].source <= ts[j].source
  }

  /** x placed after every element whose source is not larger, the rest shifted behind it. */
  function Insert(s: seq<Triple>, x: Triple): (r: seq<Triple>)
    ensures |r| == |s| + 1
  {
    if s == [] || s[|s| - 1].source <= x.source then s + [x]
    else Insert(s[..|s| - 1], x) + [s[|s| - 1]]
  }

  /** The stable sort by source: insertion of each element in turn. */
  function StableSort(ts: seq<Triple>): (r: seq<Triple>)
    ensures |r| == |ts|
  {
    if ts == [] then [] else Insert(StableSort(ts[..|ts| - 1]), ts[|ts| - 1])
  }

  /** The elements whose source is key, in order. */
  function WithSource(ts: seq<Triple>, key: nat): seq<Triple>
  {
    if ts == [] then []
    else WithSource(ts[..|ts| - 1], key) + (if ts[|ts| - 1].source == key then [ts[|ts| - 1]] else [])
  }

  /** Inserting at j, when everything from j on has a larger source and what is before does not. */
  lemma {:induction false} InsertAt(s: seq<Triple>, x: Triple, j: nat)
    requires j <= |s| && (j == 0 || s[j - 1].source <= x.source)
    requires forall k :: j <= k < |s| ==> s[k].source > x.source
    ensures Insert(s, x) == s[..j] + [x] + s[j..]
  {
    if j < |s| {
      var p := s[..|s| - 1];
      InsertAt(p, x, j);
      assert p[..j] == s[..j];
      assert p[j..] + [s[|s| - 1]] == s[j..];
    } else {
      assert s[..j] == s && s[j..] == [];
    }
  }

  /** Insertion keeps a sorted sequence sorted. */
  lemma {:induction false} InsertSorted(s: seq<Triple>, x: Triple)
    requires SortedBySource(s)
    ensures SortedBySource(Insert(s, x))
  {
    if s != [] && s[|s| - 1].source > x.source {
      var p, last := s[..|s| - 1], s[|s| - 1];
      InsertSorted(p, x);
      InsertPermutes(p, x);
      var q := Insert(p, x);
      forall k | 0 <= k < |q|
        ensures q[k].source <= last.source
      {
        assert q[k] in multiset(q);
        if q[k] != x {
          assert q[k] in multiset(p);
          var i :| 0 <= i < |p| && p[i] == q[k];
          assert p[i] == s[i];
        }
      }
      assert Insert(s, x) == q + [last];
    }
  }

  lemma {:induction false} InsertPermutes(s: seq<Triple>, x: Triple)
    ensures multiset(Insert(s, x)) == multiset(s) + multiset{x}
  {
    if s != [] && s[|s| - 1].source > x.source {
      var p := s[..|s| - 1];
      InsertPermutes(p, x);
      assert s == p + [s[|s| - 1]];
    }
  }

  lemma WithSourceAppend(ts: seq<Triple>, y: Triple, key: nat)
    ensures WithSource(ts + [y], key) == WithSource(ts, key) + (if y.source == key then [y] else [])
  {
    assert (ts + [y])[..|ts|] == ts;
  }

  /** Insertion keeps the order among equal sources: x comes after those already there. */
  lemma {:induction false} InsertStable(s: seq<Triple>, x: Triple, key: nat)
    ensures WithSource(Insert(s, x), key) == WithSource(s, key) + (if x.source == key then [x] else [])
  {
    if s == [] || s[|s| - 1].source <= x.source {
      WithSourceAppend(s, x, key);
    } else {
      var p, last := s[..|s| - 1], s[|s| - 1];
      InsertStable(p, x, key);
      WithSourceAppend(Insert(p, x), last, key);
      assert s == p + [last];
      WithSourceAppend(p, last, key);
    }
  }

  /** The sort's result is ordered by source. */
  lemma {:induction false} StableSortSorted(ts: seq<Triple>)
    ensures SortedBySource(StableSort(ts))
  {
    if ts != [] {
      StableSortSorted(ts[..|ts| - 1]);
      InsertSorted(StableSort(ts[..|ts| - 1]), ts[|ts| - 1]);
    }
  }

  /** The sort's result holds the same triples, as often as the input does. */
  lemma {:induction false} StableSortPermutes(ts: seq<Triple>)
    ensures multiset(StableSort(ts)) == multiset(ts)
  {
    if ts != [] {
      StableSortPermutes(ts[..|ts| - 1]);
      InsertPermutes(StableSort(ts[..|ts| - 1]), ts[|ts| - 1]);
      assert ts == ts[..|ts| - 1] + [ts[|ts| - 1]];
    }
  }

  /** The sort is stable: triples with the same source keep their input order. */
  lemma {:induction false} StableSortStable(ts: seq<Triple>, key: nat)
    ensures WithSource(StableSort(ts), key) == WithSource(ts, key)
  {
    if ts != [] {
      StableSortStable(ts[..|ts| - 1], key);
      InsertStable(StableSort(ts[..|ts| - 1]), ts[|ts| - 1], key);
    }
  }

  /** The elements kept for key are those of ts whose source is key. */
  lemma {:induction false} WithSourceHas(ts: seq<Triple>, key: nat, x: Triple)
    ensures x in WithSource(ts, key) <==> x in ts && x.source == key
  {
    if ts != [] {
      var p := ts[..|ts| - 1];
      WithSourceHas(p, key, x);
      assert ts == p + [ts[|ts| - 1]];
    }
  }

  /** In a sorted sequence the last element has the largest source. */
  lemma LastIsLargest(ts: seq<Triple>, x: Triple)
    requires SortedBySource(ts) && x in ts
    ensures x.source <= ts[|ts| - 1].source
  {
    var i :| 0 <= i < |ts| && ts[i] == x;
  }

  /** Agreeing on every source, a sequence holds an element exactly when the other does. */
  lemma SameMembers(ys: seq<Triple>, zs: seq<Triple>, x: Triple)
    requires WithSource(ys, x.source) == WithSource(zs, x.source)
    ensures x in ys <==> x in zs
  {
    WithSourceHas(ys, x.source, x);
    WithSourceHas(zs, x.source, x);
  }

  /** Two sorted sequences that agree on every source end in the same element. */
  lemma SameLast(ys: seq<Triple>, zs: seq<Triple>, y: Triple, z: Triple)
    requires ys != [] && zs != [] && SortedBySource(ys) && SortedBySource(zs)
    requires y == ys[|ys| - 1] && z == zs[|zs| - 1]
    requires WithSource(ys, y.source) == WithSource(zs, y.source)
    requires WithSource(ys, z.source) == WithSource(zs, z.source)
    ensures y == z
  {
    var ys', zs' := ys[..|ys| - 1], zs[..|zs| - 1];
    assert ys == ys' + [y] && zs == zs' + [z];
    SameMembers(ys, zs, y);
    LastIsLargest(zs, y);
    SameMembers(ys, zs, z);
    LastIsLargest(ys, z);
    assert y.source == z.source;
    WithSourceAppend(ys', y, y.source);
    WithSourceAppend(zs', z, y.source);
    var a, b := WithSource(ys', y.source), WithSource(zs', y.source);
    assert a + [y] == b + [z];
    assert |a| == |b|;
    assert (a + [y])[|a|] == y && (b + [z])[|b|] == z;
  }

  /**
    A sorted sequence is determined by what it holds for each source, in order: two sorted
    sequences that agree on that are equal. So every stable sort by source gives one result.
   */
  lemma {:induction false} SortedUnique(ys: seq<Triple>, zs: seq<Triple>)
    requires SortedBySource(ys) && SortedBySource(zs)
    requires forall key :: WithSource(ys, key) == WithSource(zs, key)
    ensures ys == zs
    decreases |ys|
  {
    if ys == [] && zs != [] {
      SameMembers(ys, zs, zs[0]);
    } else if ys != [] && zs == [] {
      SameMembers(ys, zs, ys[0]);
    } else if ys != [] {
      var y := ys[|ys| - 1];
      SameLast(ys, zs, y, zs[|zs| - 1]);
      var ys', zs' := ys[..|ys| - 1], zs[..|zs| - 1];
      assert ys == ys' + [y] && zs == zs' + [y];
      forall key
        ensures WithSource(ys', key) == WithSource(zs', key)
      {
        DropLast(ys', zs', y, key);
      }
      SortedUnique(ys', zs');
    }
  }

  /** Dropping the same last element from both sides keeps them agreeing on key. */
  lemma DropLast(ys: seq<Triple>, zs: seq<Triple>, y: Triple, key: nat)
    requires WithSource(ys + [y], key) == WithSource(zs + [y], key)
    ensures WithSource(ys, key) == WithSource(zs, key)
  {
    WithSourceAppend(ys, y, key);
    WithSourceAppend(zs, y, key);
    var a, b := WithSource(ys, key), WithSource(zs, key);
    var t: seq<Triple> := if y.source == key then [y] else [];
    assert a + t == b + t;
    assert a == (a + t)[..|a|];
    assert b == (b + t)[..|b|];
  }

  /** Any stable sort by source of ts, however it works, gives StableSort(ts). */
  lemma StableSortUnique(ts: seq<Triple>, ys: seq<Triple>)
    requires SortedBySource(ys)
    requires forall key :: WithSource(ys, key) == WithSource(ts, key)
    ensures ys == StableSort(ts)
  {
    StableSortSorted(ts);
    forall key
      ensures WithSource(ys, key) == WithSource(StableSort(ts), key)
    {
      StableSortStable(ts, key);
    }
    SortedUnique(ys, StableSort(ts));
  }

  /** x placed at j among s, followed by rest: its length, and what is on either side of x. */
  lemma PlacedAt(s: seq<Triple>, x: Triple, j: nat, rest: seq<Triple>)
    requires j <= |s|
    ensures |s[..j] + [x] + s[j..] + rest| == |s| + 1 + |rest|
    ensures (s[..j] + [x] + s[j..] + rest)[j] == x
    ensures j > 0 ==> (s[..j] + [x] + s[j..] + rest)[j - 1] == s[j - 1]
  {
  }

  /** One step of the insertion: x trades places with the element before it. */
  lemma SwapStep(s: seq<Triple>, x: Triple, j: nat, rest: seq<Triple>)
    requires 0 < j <= |s|
    ensures (s[..j] + [x] + s[j..] + rest)[j - 1 := x][j := s[j - 1]]
         == s[..j - 1] + [x] + s[j - 1..] + rest
  {
  }

  /**
    One step of the insertion sort: a[i] moves left past the larger sources before it, so the
    sorted a[..i] becomes the sorted a[..i + 1]; the rest of the array is untouched.
   */
  method InsertInto(a: array<Triple>, i: nat)
    requires i < a.Length
    modifies a
    ensures a[..] == Insert(old(a[..i]), old(a[i])) + old(a[i + 1..])
  {
    var x := a[i];
    ghost var s := a[..i];
    ghost var rest := a[i + 1..];
    assert a[..] == s[..i] + [x] + s[i..] + rest;
    PlacedAt(s, x, i, rest);
    var j := i;
    while j > 0 && a[j - 1].source > x.source
      invariant 0 <= j <= i
      invariant a[..] == s[..j] + [x] + s[j..] + rest
      invariant j > 0 ==> a[j - 1] == s[j - 1]
      invariant forall k :: j <= k < i ==> s[k].source > x.source
    {
      ghost var before := a[..];
      a[j - 1], a[j] := x, a[j - 1];
      assert a[..] == before[j - 1 := x][j := s[j - 1]];
      SwapStep(s, x, j, rest);
      j := j - 1;
      PlacedAt(s, x, j, rest);
    }
    InsertAt(s, x, j);
  }

  /**
    `sort_by_key(|t| t.1)` on the triples: a stable sort by source, done in place, by insertion.
    Every stable sort gives the same order, so the algorithm chosen does not matter.
   */
  method SortBySource(a: array<Triple>)
    modifies a
    ensures a[..] == StableSort(old(a[..]))
  {
    ghost var input := a[..];
    var i := 0;
    while i < a.Length
      invariant 0 <= i <= a.Length
      invariant a[..] == StableSort(input[..i]) + input[i..]
    {
      assert a[..i] == StableSort(input[..i]) && a[i] == input[i] && a[i + 1..] == input[i + 1..];
      InsertInto(a, i);
      assert input[..i + 1][..i] == input[..i];
      i := i + 1;
    }
    assert input[..i] == input;
  }

  // ---------------------------------------------------------------- reading a map

  /** What one line contributes; `Panic` marks the lines on which the code panics. */
  datatype LineOutcome = Skipped | Read(t: Triple) | Unparsable | Panic

  /**
    One line: an empty line panics (its first character is unwrapped), a line that does not
    start with an ASCII digit is skipped, and otherwise the line is split at each ' ' and its
    first three pieces are taken as u64 values, in order. A piece that is not a u64 is the error;
    a line with too few pieces panics when the missing piece is indexed.
   */
  function ReadLine(l: string): (r: LineOutcome)
    ensures r.Skipped? <==> l != [] && !IsAsciiDigit(l[0])
    ensures r.Read? ==>
      && |Split(l, ' ')| >= 3
      && ParseUnsigned(Split(l, ' ')[0], U64Max) == Some(r.t.dest)
      && ParseUnsigned(Split(l, ' ')[1], U64Max) == Some(r.t.source)
      && ParseUnsigned(Split(l, ' ')[2], U64Max) == Some(r.t.range)
    ensures r.Panic? <==>
      || l == []
      || (&& IsAsciiDigit(l[0]) && |Split(l, ' ')| < 3
          && forall k :: 0 <= k < |Split(l, ' ')| ==> ParseUnsigned(Split(l, ' ')[k], U64Max).Some?)
    ensures r.Unparsable? <==>
      && l != [] && IsAsciiDigit(l[0])
      && exists k :: 0 <= k < 3 && k < |Split(l, ' ')| && ParseUnsigned(Split(l, ' ')[k], U64Max).None?
    ensures (l != [] && IsAsciiDigit(l[0]) && |Split(l, ' ')| >= 3
             && forall k :: 0 <= k < 3 ==> ParseUnsigned(Split(l, ' ')[k], U64Max).Some?) ==> r.Read?
  {
    if l == [] then Panic
    else if !IsAsciiDigit(l[0]) then Skipped
    else
      var pieces := Split(l, ' ');
      var dest := ParseUnsigned(pieces[0], U64Max);
      if dest.None? then Unparsable
      else if |pieces| < 2 then Panic
      else
        var source := ParseUnsigned(pieces[1], U64Max);
        if source.None? then Unparsable
        else if |pieces| < 3 then Panic
        else
          var range := ParseUnsigned(pieces[2], U64Max);
          if range.None? then Unparsable
          else Read(Triple(dest.value, source.value, range.value))
  }

  /** The lines read so far: the triples, or the first error or panic met. */
  datatype Scanned = Triples(ts: seq<Triple>) | BadNumber | Panicked

  /** The lines read so far, followed by a line whose outcome is o. */
  function Step(sc: Scanned, o: LineOutcome): Scanned
  {
    match sc
    case Triples(ts) =>
      (match o
       case Skipped => Triples(ts)
       case Read(t) => Triples(ts + [t])
       case Unparsable => BadNumber
       case Panic => Panicked)
    case other => other
  }

  /** The outcomes of the lines, in order. */
  function Outcomes(ls: seq<string>): (os: seq<LineOutcome>)
    ensures |os| == |ls|
  {
    seq(|ls|, k requires 0 <= k < |ls| => ReadLine(ls[k]))
  }

  /** The outcomes folded in order, the first error or panic being final. */
  function ScanOutcomes(os: seq<LineOutcome>): Scanned
  {
    if os == [] then Triples([]) else Step(ScanOutcomes(os[..|os| - 1]), os[|os| - 1])
  }

  /** The loop of `try_from` over the lines, before the sort. */
  function Scan(ls: seq<string>): Scanned
  {
    ScanOutcomes(Outcomes(ls))
  }

  /**
    The loop of `TryFrom<&str> for AlmanacMap`: the triples of the digit-led lines pushed in
    order; the first unparsable number ends it with the error.
   */
  method ReadTriples(ls: seq<string>) returns (r: Result<seq<Triple>, string>)
    requires !Scan(ls).Panicked?
    ensures Scan(ls).BadNumber? ==> r == Err(MapNumberError)
    ensures Scan(ls).Triples? ==> r == Ok(Scan(ls).ts)
  {
    var triples: seq<Triple> := [];
    var i := 0;
    while i < |ls|
      invariant 0 <= i <= |ls|
      invariant Scan(ls[..i]) == Triples(triples)
    {
      ScanNext(ls, i, triples);
      match Step(Triples(triples), ReadLine(ls[i])) {
        case Triples(ts) =>
          triples := ts;
        case BadNumber =>
          return Err(MapNumberError);
        case Panicked =>
          assert false;
      }
      i := i + 1;
    }
    assert ls[..i] == ls;
    return Ok(triples);
  }

  /**
    `TryFrom<&str> for AlmanacMap`: the triples read from the lines, sorted by source in place.
    The code panics on an empty line and on a digit-led line with fewer than three pieces; the
    precondition excludes both.
   */
  method TryFrom(value: string) returns (r: Result<AlmanacMap, string>)
    requires !Scan(Lines(value)).Panicked?
    ensures Scan(Lines(value)).BadNumber? ==> r == Err(MapNumberError)
    ensures Scan(Lines(value)).Triples? ==> r == Ok(AlmanacMap(StableSort(Scan(Lines(value)).ts)))
  {
    var read := ReadTriples(Lines(value));
    if read.Err? {
      return Err(read.error);
    }
    var triples := read.value;
    var a := new Triple[|triples|](k requires 0 <= k < |triples| => triples[k]);
    assert a[..] == triples;
    SortBySource(a);
    return Ok(AlmanacMap(a[..]));
  }

  /** One more line read: the scan steps on it, and an error or panic there is final. */
  lemma ScanNext(ls: seq<string>, i: nat, triples: seq<Triple>)
    requires i < |ls| && Scan(ls[..i]) == Triples(triples)
    ensures Scan(ls[..i + 1]) == Step(Triples(triples), ReadLine(ls[i]))
    ensures !Scan(ls[..i + 1]).Triples? ==> Scan(ls) == Scan(ls[..i + 1])
  {
    var os := Outcomes(ls[..i + 1]);
    assert os[..i] == Outcomes(ls[..i]);
    assert os[i] == ReadLine(ls[i]);
    assert Outcomes(ls)[..i + 1] == os;
    ScanPrefix(Outcomes(ls), i + 1);
  }

  /** Once the outcomes read so far end in an error or a panic, the later ones change nothing. */
  lemma {:induction false} ScanPrefix(os: seq<LineOutcome>, n: nat)
    requires n <= |os|
    ensures !ScanOutcomes(os[..n]).Triples? ==> ScanOutcomes(os) == ScanOutcomes(os[..n])
    decreases |os| - n
  {
    if n < |os| {
      ScanPrefix(os, n + 1);
      assert os[..n + 1][..n] == os[..n];
    } else {
      assert os[..n] == os;
    }
  }

  // ---------------------------------------------------------------- map texts

  /** A triple written as a map line: its three numbers in decimal, separated by single spaces. */
  function TripleLine(t: Triple): string
  {
    Join([ToDecimal(t.dest), ToDecimal(t.source), ToDecimal(t.range)], ' ')
  }

  /** A decimal numeral holds no space. */
  lemma DecimalHasNoSpace(n: nat)
    ensures ' ' !in ToDecimal(n)
  {
    var s := ToDecimal(n);
    forall i | 0 <= i < |s|
      ensures s[i] != ' '
    {
      assert IsAsciiDigit(s[i]);
    }
  }

  /** Reading the line written for a u64 triple gives the triple back. */
  lemma ReadTripleLine(t: Triple)
    requires IsU64Triple(t)
    ensures ReadLine(TripleLine(t)) == Read(t)
  {
    var pieces := [ToDecimal(t.dest), ToDecimal(t.source), ToDecimal(t.range)];
    DecimalHasNoSpace(t.dest);
    DecimalHasNoSpace(t.source);
    DecimalHasNoSpace(t.range);
    SplitJoin(pieces, ' ');
    ParseUnsignedOfToDecimal(t.dest, U64Max);
    ParseUnsignedOfToDecimal(t.source, U64Max);
    ParseUnsignedOfToDecimal(t.range, U64Max);
    var l := TripleLine(t);
    assert l == ToDecimal(t.dest) + [' '] + Join(pieces[1..], ' ');
    assert l[0] == ToDecimal(t.dest)[0];
  }

  /** The lines written for ts, in order. */
  function TripleLines(ts: seq<Triple>): (ls: seq<string>)
    ensures |ls| == |ts|
  {
    if ts == [] then [] else TripleLines(ts[..|ts| - 1]) + [TripleLine(ts[|ts| - 1])]
  }

  lemma {:induction false} TripleLinesAt(ts: seq<Triple>, k: nat)
    requires k < |ts|
    ensures TripleLines(ts)[k] == TripleLine(ts[k])
  {
    if k < |ts| - 1 {
      TripleLinesAt(ts[..|ts| - 1], k);
    }
  }

  /** A heading line the reader skips: it does not start with a digit. */
  predicate IsHeading(heading: string)
  {
    heading != [] && !IsAsciiDigit(heading[0])
  }

  /** A skipped outcome and then one triple read per outcome reads those triples. */
  lemma {:induction false} ScanOutcomesReadsAll(os: seq<LineOutcome>, ts: seq<Triple>)
    requires |os| == |ts| + 1 && os[0] == Skipped
    requires forall k :: 0 <= k < |ts| ==> os[k + 1] == Read(ts[k])
    ensures ScanOutcomes(os) == Triples(ts)
  {
    var n := |ts|;
    if n == 0 {
      assert os[..0] == [];
    } else {
      ScanOutcomesReadsAll(os[..n], ts[..n - 1]);
      assert os[n] == Read(ts[n - 1]);
      assert ts[..n - 1] + [ts[n - 1]] == ts;
    }
  }

  /** Each line written for a u64 triple reads as that triple. */
  lemma TripleLinesRead(ts: seq<Triple>, k: nat)
    requires k < |ts| && IsU64Triple(ts[k])
    ensures ReadLine(TripleLines(ts)[k]) == Read(ts[k])
  {
    TripleLinesAt(ts, k);
    ReadTripleLine(ts[k]);
  }

  /** Scanning a heading and then the lines written for u64 triples reads exactly those triples. */
  lemma {:induction false} ScanTripleLines(heading: string, ts: seq<Triple>)
    requires IsHeading(heading)
    requires forall k :: 0 <= k < |ts| ==> IsU64Triple(ts[k])
    ensures Scan([heading] + TripleLines(ts)) == Triples(ts)
  {
    var lines := TripleLines(ts);
    var ls := [heading] + lines;
    var os := Outcomes(ls);
    assert os[0] == Skipped;
    forall k | 0 <= k < |ts|
      ensures os[k + 1] == Read(ts[k])
    {
      assert ls[k + 1] == lines[k];
      TripleLinesRead(ts, k);
    }
    ScanOutcomesReadsAll(os, ts);
  }

  /** A map's text: the heading, then one line per triple, joined with line feeds. */
  function MapText(heading: string, ts: seq<Triple>): string
  {
    Join([heading] + TripleLines(ts), '\n')
  }

  /** A decimal numeral does not end in a carriage return. */
  lemma TripleLineShape(t: Triple)
    ensures TripleLine(t) != []
    ensures '\n' !in TripleLine(t)
    ensures TripleLine(t)[|TripleLine(t)| - 1] != '\r'
  {
    var pieces := [ToDecimal(t.dest), ToDecimal(t.source), ToDecimal(t.range)];
    var l := TripleLine(t);
    var r := ToDecimal(t.range);
    forall k | 0 <= k < 3
      ensures '\n' !in pieces[k]
    {
      forall i | 0 <= i < |pieces[k]|
        ensures pieces[k][i] != '\n'
      {
        assert IsAsciiDigit(pieces[k][i]);
      }
    }
    JoinAvoids(pieces, ' ', '\n');
    assert Join(pieces[2..], ' ') == r;
    assert l == ToDecimal(t.dest) + [' '] + (ToDecimal(t.source) + [' '] + r);
    assert l[|l| - 1] == r[|r| - 1];
    assert IsAsciiDigit(r[|r| - 1]);
  }

  /**
    Round trip of `try_from`: the text of a map whose heading is one line that does not start
    with a digit, followed by the lines of u64 triples, reads back as exactly those triples.
   */
  lemma ScanMapText(heading: string, ts: seq<Triple>)
    requires IsHeading(heading) && '\n' !in heading && heading[|heading| - 1] != '\r'
    requires forall k :: 0 <= k < |ts| ==> IsU64Triple(ts[k])
    ensures Scan(Lines(MapText(heading, ts))) == Triples(ts)
  {
    var ls := [heading] + TripleLines(ts);
    forall k | 0 <= k < |ls|
      ensures '\n' !in ls[k] && (ls[k] == [] || ls[k][|ls[k]| - 1] != '\r')
    {
      if k > 0 {
        TripleLinesAt(ts, k - 1);
        TripleLineShape(ts[k - 1]);
      }
    }
    if ts != [] {
      TripleLinesAt(ts, |ts| - 1);
      TripleLineShape(ts[|ts| - 1]);
    }
    LinesOfJoin(ls);
    ScanTripleLines(heading, ts);
  }

  /**
    The parse test of the module: its text "seed-to-soil map:\n50 98 2\n52 50 48" reads as
    (50, 98, 2) and then (52, 50, 48), and the stable sort by source puts (52, 50, 48) first.
   */
  lemma SampleMapReads(text: string)
    requires text == "seed-to-soil map:" + "\n" + ("50 98 2" + "\n" + "52 50 48")
    ensures Scan(Lines(text)) == Triples([Triple(50, 98, 2), Triple(52, 50, 48)])
    ensures StableSort(Scan(Lines(text)).ts) == [Triple(52, 50, 48), Triple(50, 98, 2)]
  {
    var heading, ts := "seed-to-soil map:", [Triple(50, 98, 2), Triple(52, 50, 48)];
    SampleMapText(heading, ts);
    assert text == MapText(heading, ts);
    assert IsHeading(heading) && '\n' !in heading && heading[|heading| - 1] != '\r';
    ScanMapText(heading, ts);
    SampleMapSorted(ts);
  }

  /** The test's text is the map text of its heading and its two triples. */
  lemma SampleMapText(heading: string, ts: seq<Triple>)
    requires heading == "seed-to-soil map:" && ts == [Triple(50, 98, 2), Triple(52, 50, 48)]
    ensures MapText(heading, ts) == "seed-to-soil map:" + "\n" + ("50 98 2" + "\n" + "52 50 48")
  {
    var a, b := ts[0], ts[1];
    assert TripleLine(a) == "50 98 2" by {
      assert ToDecimal(50) == "50" && ToDecimal(98) == "98" && ToDecimal(2) == "2";
    }
    assert TripleLine(b) == "52 50 48" by {
      assert ToDecimal(52) == "52" && ToDecimal(50) == "50" && ToDecimal(48) == "48";
    }
    assert TripleLines(ts) == [TripleLine(a), TripleLine(b)] by {
      TripleLinesAt(ts, 0);
      TripleLinesAt(ts, 1);
    }
    var ls := [heading, "50 98 2", "52 50 48"];
    assert [heading] + TripleLines(ts) == ls;
    assert ls[1..] == ["50 98 2", "52 50 48"] && ls[1..][1..] == ["52 50 48"];
    assert Join(ls[1..], '\n') == "50 98 2" + "\n" + "52 50 48";
  }

  /** ... and the stable sort by source puts (52, 50, 48) first, as the test expects. */
  lemma SampleMapSorted(ts: seq<Triple>)
    requires ts == [Triple(50, 98, 2), Triple(52, 50, 48)]
    ensures StableSort(ts) == [Triple(52, 50, 48), Triple(50, 98, 2)]
  {
    var a, b := ts[0], ts[1];
    assert ts[..1] == [a] && ts[..1][..0] == [];
    assert StableSort([a]) == Insert([], a) == [a];
    assert [a][..0] == [];
    assert Insert([a], b) == Insert([], b) + [a] == [b, a];
  }
}
